/**
 * The melt (scrape_odds.py, lines 42-63): for every prop and every
 * sportsbook, the `{sportsbook}_{prop}Under` and `{sportsbook}_{prop}Over`
 * columns are melted into long rows, and the 28 melted frames are
 * concatenated.
 */
module LongForm {
  import opened Wrappers
  import opened Seqs
  import opened Table
  import opened Vocabulary

  /** One row of the long table. */
  datatype LongRow = LongRow(
    player: Cell, team: Cell, opp: Cell,
    prop: string, book: string, overUnder: string,
    odds: Cell)

  /** The long row record `r` gives for the melted column `{book}_{prop}{side}`. */
  function LongRowOf(r: Record, prop: string, book: string, side: string): LongRow {
    var column := ColumnName(book, prop, side);
    LongRow(Get(r, "PlayerName"), Get(r, "team"), Get(r, "opp"), prop, book, SideLabel(column), Get(r, column))
  }

  /** One value column melted: a row per record, in record order. */
  function MeltColumn(f: Frame, prop: string, book: string, side: string): (rows: seq<LongRow>)
    ensures |rows| == |f|
  {
    seq(|f|, i requires 0 <= i < |f| => LongRowOf(f[i], prop, book, side))
  }

  /** `temp_df.melt(...)` for prop `p` and sportsbook `b`: the Under column's rows, then the Over column's. */
  function MeltPair(f: Frame, p: nat, b: nat): (rows: seq<LongRow>)
    requires p < |Props| && b < |Books|
    ensures |rows| == 2 * |f|
  {
    MeltColumn(f, Props[p], Books[b], Sides[0]) + MeltColumn(f, Props[p], Books[b], Sides[1])
  }

  /** The `k`-th frame appended to `flattened_dfs`: props outer, sportsbooks inner. */
  function PairAt(f: Frame, k: nat): (rows: seq<LongRow>)
    requires k < 28
    ensures |rows| == 2 * |f|
  {
    MeltPair(f, k / 4, k % 4)
  }

  function Pairs(f: Frame): seq<seq<LongRow>> {
    seq(28, k requires 0 <= k < 28 => PairAt(f, k))
  }

  /** `pd.concat(flattened_dfs)`. */
  function MeltAll(f: Frame): seq<LongRow> {
    Flatten(Pairs(f))
  }

  /** The columns `master_df[['PlayerName', 'team', 'opp'] + cols]` selects for prop `p` and sportsbook `b`. */
  function Selection(p: nat, b: nat): seq<string>
    requires p < |Props| && b < |Books|
  {
    ["PlayerName", "team", "opp", ColumnName(Books[b], Props[p], Sides[0]), ColumnName(Books[b], Props[p], Sides[1])]
  }

  /** The first of `cols` the frame lacks. */
  function MissingColumnOf(f: Frame, cols: seq<string>): Option<string> {
    if cols == [] then None
    else if !HasColumn(f, cols[0]) then Some(cols[0])
    else MissingColumnOf(f, cols[1..])
  }

  /** The search reports a missing column exactly when there is one, and the one it reports comes first. */
  lemma {:induction false} MissingColumnOfSpec(f: Frame, cols: seq<string>)
    ensures MissingColumnOf(f, cols).None? <==> forall c | c in cols :: HasColumn(f, c)
    ensures MissingColumnOf(f, cols).Some? ==>
      exists i | 0 <= i < |cols| :: cols[i] == MissingColumnOf(f, cols).value
        && !HasColumn(f, cols[i]) && forall j | 0 <= j < i :: HasColumn(f, cols[j])
  {
    if cols != [] && HasColumn(f, cols[0]) {
      MissingColumnOfSpec(f, cols[1..]);
      if MissingColumnOf(f, cols[1..]).Some? {
        var i :| 0 <= i < |cols[1..]| && cols[1..][i] == MissingColumnOf(f, cols).value
          && !HasColumn(f, cols[1..][i]) && forall j | 0 <= j < i :: HasColumn(f, cols[1..][j]);
        assert cols[i + 1] == cols[1..][i];
        assert forall j | 1 <= j < i + 1 :: cols[j] == cols[1..][j - 1];
      }
    }
  }

  /** The reported column is the first of `cols` the frame lacks. */
  lemma {:induction false} MissingColumnFirst(f: Frame, cols: seq<string>, i: nat)
    requires i < |cols| && !HasColumn(f, cols[i])
    requires forall j | 0 <= j < i :: HasColumn(f, cols[j])
    ensures MissingColumnOf(f, cols) == Some(cols[i])
  {
    if i > 0 {
      assert HasColumn(f, cols[0]);
      assert cols[1..][i - 1] == cols[i];
      assert forall j | 0 <= j < i - 1 :: cols[1..][j] == cols[j + 1];
      MissingColumnFirst(f, cols[1..], i - 1);
    }
  }

  /**
   * The KeyError of the first loop iteration, from prop `p` and sportsbook
   * `b` on (props outer, sportsbooks inner), whose selection fails.
   */
  function FirstMissing(f: Frame, p: nat, b: nat): Option<string>
    requires p <= |Props| && b <= |Books|
    decreases |Props| - p, |Books| - b
  {
    if p == |Props| then None
    else if b == |Books| then FirstMissing(f, p + 1, 0)
    else
      var m := MissingColumnOf(f, Selection(p, b));
      if m.Some? then m else FirstMissing(f, p, b + 1)
  }

  /** Lines 46-63: the long table, or the KeyError of the first failing selection. */
  function MeltChecked(f: Frame): Result<seq<LongRow>, Failure> {
    match FirstMissing(f, 0, 0)
    case Some(c) => Err(MissingColumn(c))
    case None => Ok(MeltAll(f))
  }

  /** Iteration `(p, b)` of the loop appends `MeltPair(f, p, b)` to what the earlier iterations appended. */
  lemma MeltStep(f: Frame, p: nat, b: nat)
    requires p < |Props| && b < |Books|
    ensures Pairs(f)[..4 * p + b + 1] == Pairs(f)[..4 * p + b] + [MeltPair(f, p, b)]
  {
    PairsAt(f, p, b);
    assert Pairs(f)[..4 * p + b + 1] == Pairs(f)[..4 * p + b] + [Pairs(f)[4 * p + b]];
  }

  /** The nested loop of lines 47-60 and the concatenation of line 63. */
  method Melt(f: Frame) returns (res: Result<seq<LongRow>, Failure>)
    ensures res == MeltChecked(f)
  {
    var flattened: seq<seq<LongRow>> := [];
    for p := 0 to |Props|
      invariant flattened == Pairs(f)[..4 * p]
      invariant FirstMissing(f, 0, 0) == FirstMissing(f, p, 0)
    {
      for b := 0 to |Books|
        invariant flattened == Pairs(f)[..4 * p + b]
        invariant FirstMissing(f, 0, 0) == FirstMissing(f, p, b)
      {
        var missing := MissingColumnOf(f, Selection(p, b));
        if missing.Some? {
          return Err(MissingColumn(missing.value));
        }
        MeltStep(f, p, b);
        var temp := MeltColumn(f, Props[p], Books[b], Sides[0]) + MeltColumn(f, Props[p], Books[b], Sides[1]);
        flattened := flattened + [temp];
      }
    }
    assert flattened == Pairs(f);
    return Ok(Flatten(flattened));
  }

  /** Where the melt puts the row of record `r` (of `n`), prop `p`, sportsbook `b` and side `s`. */
  function MeltIndex(p: nat, b: nat, s: nat, n: nat, r: nat): nat {
    ((4 * p + b) * 2 + s) * n + r
  }

  lemma IndexSplit(p: nat, b: nat, s: nat, n: nat, r: nat)
    requires s < 2 && r < n
    ensures MeltIndex(p, b, s, n, r) == (4 * p + b) * (2 * n) + (s * n + r)
    ensures s * n + r < 2 * n
  {
  }

  /** Every record yields 7 * 4 * 2 long rows. */
  lemma MeltLength(f: Frame)
    ensures |MeltAll(f)| == |Props| * |Books| * |Sides| * |f|
    ensures |MeltAll(f)| == 56 * |f|
  {
    FlattenUniformLength(Pairs(f), 2 * |f|);
  }

  lemma PairsAt(f: Frame, p: nat, b: nat)
    requires p < |Props| && b < |Books|
    ensures Pairs(f)[4 * p + b] == MeltPair(f, p, b)
  {
    var k := 4 * p + b;
    assert k / 4 == p && k % 4 == b;
  }

  lemma MeltPairAt(f: Frame, p: nat, b: nat, s: nat, r: nat)
    requires p < |Props| && b < |Books| && s < |Sides| && r < |f|
    ensures MeltPair(f, p, b)[s * |f| + r] == LongRowOf(f[r], Props[p], Books[b], Sides[s])
  {
    if s == 0 {
      assert s * |f| + r == r;
    } else {
      assert s * |f| + r == |f| + r;
    }
  }

  /**
   * The long row of record `r`, prop `p`, sportsbook `b` and side `s` (0 for
   * Under, 1 for Over) sits at one fixed place and carries the record's name,
   * team and opponent, the codes, the side and the record's
   * `{sportsbook}_{prop}{side}` cell.
   */
  lemma MeltAt(f: Frame, p: nat, b: nat, s: nat, r: nat)
    requires p < |Props| && b < |Books| && s < |Sides| && r < |f|
    ensures MeltIndex(p, b, s, |f|, r) < |MeltAll(f)|
    ensures var row := MeltAll(f)[MeltIndex(p, b, s, |f|, r)];
      && row.player == Get(f[r], "PlayerName") && row.team == Get(f[r], "team") && row.opp == Get(f[r], "opp")
      && row.prop == Props[p] && row.book == Books[b] && row.overUnder == Sides[s]
      && row.odds == Get(f[r], ColumnName(Books[b], Props[p], Sides[s]))
  {
    var n := |f|;
    IndexSplit(p, b, s, n, r);
    FlattenUniformAt(Pairs(f), 2 * n, 4 * p + b, s * n + r);
    PairsAt(f, p, b);
    MeltPairAt(f, p, b, s, r);
    SideLabelOfColumn(b, p, s);
  }

  lemma MeltPairRows(f: Frame, p: nat, b: nat)
    requires p < |Props| && b < |Books|
    ensures forall row | row in MeltPair(f, p, b) :: row.prop == Props[p] && row.book == Books[b] && row.overUnder in Sides
  {
    SideLabelOfColumn(b, p, 0);
    SideLabelOfColumn(b, p, 1);
    var under := MeltColumn(f, Props[p], Books[b], Sides[0]);
    var over := MeltColumn(f, Props[p], Books[b], Sides[1]);
    assert forall row | row in under :: row.overUnder == Sides[0];
    assert forall row | row in over :: row.overUnder == Sides[1];
  }

  /** Every long row carries a prop code, a sportsbook and a side of the fixed vocabularies. */
  lemma MeltRowInVocabulary(f: Frame, row: LongRow)
    requires row in MeltAll(f)
    ensures row.prop in Props && row.book in Books && row.overUnder in Sides
  {
    FlattenMember(Pairs(f), row);
    var k :| 0 <= k < 28 && row in Pairs(f)[k];
    MeltPairRows(f, k / 4, k % 4);
  }

  /** Some selection from `(p, b)` on (props outer, sportsbooks inner) names a column no record has. */
  predicate SomeSelectionFails(f: Frame, p: nat, b: nat)
    requires p <= |Props| && b <= |Books|
  {
    || (p < |Props| && exists b' | b <= b' < |Books| :: MissingColumnOf(f, Selection(p, b')).Some?)
    || (exists p', b' | p < p' < |Props| && 0 <= b' < |Books| :: MissingColumnOf(f, Selection(p', b')).Some?)
  }

  /** The melt fails exactly when one of the 28 selections names a column no record has. */
  lemma {:induction false} MeltCheckedFails(f: Frame, p: nat, b: nat)
    requires p <= |Props| && b <= |Books|
    ensures FirstMissing(f, p, b).Some? <==> SomeSelectionFails(f, p, b)
    decreases |Props| - p, |Books| - b
  {
    if p < |Props| {
      if b == |Books| {
        MeltCheckedFails(f, p + 1, 0);
        if SomeSelectionFails(f, p, b) {
          var p', b' :| p < p' < |Props| && 0 <= b' < |Books| && MissingColumnOf(f, Selection(p', b')).Some?;
          if p' > p + 1 {
            assert SomeSelectionFails(f, p + 1, 0);
          }
        }
      } else {
        MeltCheckedFails(f, p, b + 1);
        if MissingColumnOf(f, Selection(p, b)).None? && SomeSelectionFails(f, p, b) {
          assert SomeSelectionFails(f, p, b + 1);
        }
      }
    }
  }
}
