/**
 * The tabular data the script works on. A parsed JSON object becomes a
 * record mapping field names to cells; a frame is the sequence of records.
 * A cell is `None` for a JSON null and for a field the record lacks: pandas
 * treats both as missing.
 */
module Table {
  import opened Wrappers

  /** A JSON scalar: an integer or a string. */
  datatype Value = Num(n: int) | Text(s: string)

  type Cell = Option<Value>

  type Record = map<string, Cell>

  type Frame = seq<Record>

  /** Why a run of the pipeline stops without producing a table. */
  datatype Failure =
    | NoScriptMatched          // pd.concat of an empty list
    | Malformed(json: string)  // json.loads rejects a matched array
    | MissingColumn(name: string)
    | NotText(column: string)  // a number in a name column meets `+ ' '`

  /** The cell of column `c` in record `r`; missing where the record lacks the field. */
  function Get(r: Record, c: string): (v: Cell)
    ensures c !in r ==> v.None?
    ensures c in r ==> v == r[c]
  {
    if c in r then r[c] else None
  }

  /** The frame has column `c` iff some record carries the field. */
  predicate HasColumn(f: Frame, c: string) {
    exists i | 0 <= i < |f| :: c in f[i]
  }

  predicate IsNum(v: Cell) {
    v.Some? && v.value.Num?
  }

  function Digit(d: nat): char
    requires d < 10
  {
    "0123456789"[d]
  }

  /** Decimal digits of `n`, as Python's `str` writes them. */
  function NatToString(n: nat): (s: string)
    ensures |s| > 0
    ensures forall i | 0 <= i < |s| :: '0' <= s[i] <= '9'
  {
    if n < 10 then [Digit(n)] else NatToString(n / 10) + [Digit(n % 10)]
  }

  /** The value of a string of decimal digits. */
  function DigitsValue(s: string): int {
    if s == [] then 0 else DigitsValue(s[..|s| - 1]) * 10 + (s[|s| - 1] as int - '0' as int)
  }

  lemma {:induction false} NatToStringRoundTrip(n: nat)
    ensures DigitsValue(NatToString(n)) == n
  {
    var s := NatToString(n);
    if n < 10 {
      assert s[..|s| - 1] == [];
    } else {
      assert s[..|s| - 1] == NatToString(n / 10);
      NatToStringRoundTrip(n / 10);
    }
  }

  function IntToString(i: int): (s: string)
    ensures |s| > 0
  {
    if i < 0 then "-" + NatToString(-i) else NatToString(i)
  }

  /**
   * How an f-string renders a cell: integers in decimal, strings as they are,
   * a missing cell as "nan".
   */
  function Show(v: Cell): string {
    match v
    case None => "nan"
    case Some(Num(n)) => IntToString(n)
    case Some(Text(s)) => s
  }
}
