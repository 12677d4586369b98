/**
 * The pivot (scrape_odds.py, lines 67-70): one wide row per
 * (PlayerName, team, opp, Prop, Over_Under) key, one column per sportsbook,
 * each cell the first non-missing odds of the long rows with that key and
 * sportsbook (`aggfunc='first'`).
 */
module Pivot {
  import opened Wrappers
  import opened Seqs
  import opened Table
  import opened Vocabulary
  import opened LongForm

  /** The pivot's index. */
  datatype Key = Key(player: Cell, team: Cell, opp: Cell, prop: string, overUnder: string)

  function KeyOf(row: LongRow): Key {
    Key(row.player, row.team, row.opp, row.prop, row.overUnder)
  }

  /** The long row belongs to the cell of key `k` and sportsbook `book`. */
  predicate Hit(row: LongRow, k: Key, book: string) {
    KeyOf(row) == k && row.book == book
  }

  /** Row `i` is the first row of the cell with odds. */
  predicate FirstHit(long: seq<LongRow>, k: Key, book: string, i: nat) {
    && i < |long| && Hit(long[i], k, book) && long[i].odds.Some?
    && forall j | 0 <= j < i && Hit(long[j], k, book) :: long[j].odds.None?
  }

  /** `first` over the cell: the odds of its first row that has any, else NaN. */
  function FirstOdds(long: seq<LongRow>, k: Key, book: string): (r: Cell)
    ensures r.None? <==> forall i | 0 <= i < |long| && Hit(long[i], k, book) :: long[i].odds.None?
    ensures r.Some? ==> exists i: nat :: FirstHit(long, k, book, i) && long[i].odds == r
  {
    if long == [] then None
    else if Hit(long[0], k, book) && long[0].odds.Some? then
      assert FirstHit(long, k, book, 0);
      long[0].odds
    else
      var r := FirstOdds(long[1..], k, book);
      if r.Some? then
        var i: nat :| FirstHit(long[1..], k, book, i) && long[1..][i].odds == r;
        assert FirstHit(long, k, book, i + 1);
        r
      else r
  }

  /** The distinct elements of `xs`, each where it first occurs. */
  function Dedup<T(==)>(xs: seq<T>): (r: seq<T>)
    ensures forall i, j | 0 <= i < j < |r| :: r[i] != r[j]
    ensures forall i | 0 <= i < |xs| :: xs[i] in r
    ensures forall j | 0 <= j < |r| :: r[j] in xs
  {
    if xs == [] then []
    else
      var r := Dedup(xs[..|xs| - 1]);
      assert xs == xs[..|xs| - 1] + [xs[|xs| - 1]];
      if xs[|xs| - 1] in r then r else r + [xs[|xs| - 1]]
  }

  /** The keys of the long table, each once, in first-seen order. */
  function GroupKeys(long: seq<LongRow>): (r: seq<Key>)
    ensures forall i, j | 0 <= i < j < |r| :: r[i] != r[j]
    ensures forall i | 0 <= i < |long| :: KeyOf(long[i]) in r
    ensures forall j | 0 <= j < |r| :: exists i | 0 <= i < |long| :: KeyOf(long[i]) == r[j]
  {
    var keys := seq(|long|, i requires 0 <= i < |long| => KeyOf(long[i]));
    assert forall i | 0 <= i < |long| :: keys[i] == KeyOf(long[i]);
    Dedup(keys)
  }

  /** One row of the pivoted table: the key and one cell per sportsbook, in `Books` order. */
  datatype WideRow = WideRow(key: Key, odds: seq<Cell>)

  /**
   * `pivot_table(index=[...], columns='Sportsbook', values='Odds',
   * aggfunc='first').reset_index()`, one row per key in first-seen order.
   */
  function PivotTable(long: seq<LongRow>): (r: seq<WideRow>)
    ensures |r| == |GroupKeys(long)|
    ensures forall j | 0 <= j < |r| :: r[j].key == GroupKeys(long)[j] && |r[j].odds| == |Books|
    ensures forall j, b | 0 <= j < |r| && 0 <= b < |Books| :: r[j].odds[b] == FirstOdds(long, r[j].key, Books[b])
  {
    var keys := GroupKeys(long);
    seq(|keys|, j requires 0 <= j < |keys| =>
      WideRow(keys[j], seq(|Books|, b requires 0 <= b < |Books| => FirstOdds(long, keys[j], Books[b]))))
  }

  /**
   * Every key of the long table gets exactly one row, also when all its
   * cells are missing, and no row has a key the long table lacks.
   */
  lemma PivotOneRowPerKey(long: seq<LongRow>)
    ensures var r := PivotTable(long);
      && (forall i, j | 0 <= i < j < |r| :: r[i].key != r[j].key)
      && (forall i | 0 <= i < |long| :: exists j | 0 <= j < |r| :: r[j].key == KeyOf(long[i]))
      && (forall j | 0 <= j < |r| :: exists i | 0 <= i < |long| :: KeyOf(long[i]) == r[j].key)
  {
    var r := PivotTable(long);
    var keys := GroupKeys(long);
    forall i | 0 <= i < |long|
      ensures exists j | 0 <= j < |r| :: r[j].key == KeyOf(long[i])
    {
      var j :| 0 <= j < |keys| && keys[j] == KeyOf(long[i]);
      assert r[j].key == keys[j];
    }
  }

  // ---- the cells in terms of the records ----

  /** The first non-missing `column` cell among the records with this name, team and opponent. */
  function FirstRecordOdds(f: Frame, player: Cell, team: Cell, opp: Cell, column: string): (r: Cell)
    ensures r.None? <==> forall i | 0 <= i < |f| && Get(f[i], "PlayerName") == player && Get(f[i], "team") == team
      && Get(f[i], "opp") == opp :: Get(f[i], column).None?
  {
    if f == [] then None
    else if Get(f[0], "PlayerName") == player && Get(f[0], "team") == team && Get(f[0], "opp") == opp
      && Get(f[0], column).Some?
    then Get(f[0], column)
    else
      var r := FirstRecordOdds(f[1..], player, team, opp, column);
      assert forall i | 1 <= i < |f| :: f[1..][i - 1] == f[i];
      r
  }

  lemma {:induction false} FirstOddsAppend(a: seq<LongRow>, c: seq<LongRow>, k: Key, book: string)
    ensures FirstOdds(a + c, k, book) == if FirstOdds(a, k, book).Some? then FirstOdds(a, k, book) else FirstOdds(c, k, book)
  {
    if a != [] {
      assert (a + c)[1..] == a[1..] + c;
      FirstOddsAppend(a[1..], c, k, book);
    } else {
      assert a + c == c;
    }
  }

  lemma {:induction false} FirstOddsFlattenNone(bs: seq<seq<LongRow>>, k: Key, book: string)
    requires forall i | 0 <= i < |bs| :: FirstOdds(bs[i], k, book).None?
    ensures FirstOdds(Flatten(bs), k, book).None?
  {
    if bs != [] {
      FirstOddsFlattenNone(bs[1..], k, book);
      FirstOddsAppend(bs[0], Flatten(bs[1..]), k, book);
    }
  }

  /** When only block `j` has odds for the cell, the concatenation's cell is block `j`'s. */
  lemma {:induction false} FirstOddsFlattenOne(bs: seq<seq<LongRow>>, j: nat, k: Key, book: string)
    requires j < |bs|
    requires forall i | 0 <= i < |bs| && i != j :: FirstOdds(bs[i], k, book).None?
    ensures FirstOdds(Flatten(bs), k, book) == FirstOdds(bs[j], k, book)
  {
    FirstOddsAppend(bs[0], Flatten(bs[1..]), k, book);
    if j == 0 {
      FirstOddsFlattenNone(bs[1..], k, book);
    } else {
      FirstOddsFlattenOne(bs[1..], j - 1, k, book);
    }
  }

  /** Melting one column keeps, cell by cell, the first non-missing value of the records. */
  lemma {:induction false} FirstOddsOfColumn(f: Frame, prop: string, book: string, side: string, player: Cell, team: Cell, opp: Cell)
    ensures FirstOdds(MeltColumn(f, prop, book, side), Key(player, team, opp, prop, SideLabel(ColumnName(book, prop, side))), book)
      == FirstRecordOdds(f, player, team, opp, ColumnName(book, prop, side))
  {
    var k := Key(player, team, opp, prop, SideLabel(ColumnName(book, prop, side)));
    if f != [] {
      assert MeltColumn(f, prop, book, side) == [LongRowOf(f[0], prop, book, side)] + MeltColumn(f[1..], prop, book, side);
      FirstOddsAppend([LongRowOf(f[0], prop, book, side)], MeltColumn(f[1..], prop, book, side), k, book);
      FirstOddsOfColumn(f[1..], prop, book, side, player, team, opp);
    }
  }

  lemma MeltColumnRows(f: Frame, prop: string, book: string, side: string)
    ensures forall i | 0 <= i < |f| :: var row := MeltColumn(f, prop, book, side)[i];
      row.prop == prop && row.book == book && row.overUnder == SideLabel(ColumnName(book, prop, side))
  {
  }

  /** A sportsbook or prop other than the key's contributes no odds to the key's cell. */
  lemma OtherPairNone(f: Frame, p: nat, b: nat, p': nat, b': nat, k: Key)
    requires p < |Props| && b < |Books| && p' < |Props| && b' < |Books|
    requires k.prop == Props[p] && (p' != p || b' != b)
    ensures FirstOdds(MeltPair(f, p', b'), k, Books[b]).None?
  {
    PropsDistinct();
    BooksDistinct();
    MeltColumnRows(f, Props[p'], Books[b'], Sides[0]);
    MeltColumnRows(f, Props[p'], Books[b'], Sides[1]);
  }

  /** Within the key's own pair of columns only the column of the key's side contributes. */
  lemma PairCell(f: Frame, p: nat, b: nat, s: nat, player: Cell, team: Cell, opp: Cell)
    requires p < |Props| && b < |Books| && s < |Sides|
    ensures FirstOdds(MeltPair(f, p, b), Key(player, team, opp, Props[p], Sides[s]), Books[b])
      == FirstRecordOdds(f, player, team, opp, ColumnName(Books[b], Props[p], Sides[s]))
  {
    var k := Key(player, team, opp, Props[p], Sides[s]);
    var under := MeltColumn(f, Props[p], Books[b], Sides[0]);
    var over := MeltColumn(f, Props[p], Books[b], Sides[1]);
    FirstOddsAppend(under, over, k, Books[b]);
    SideLabelOfColumn(b, p, 0);
    SideLabelOfColumn(b, p, 1);
    MeltColumnRows(f, Props[p], Books[b], Sides[0]);
    MeltColumnRows(f, Props[p], Books[b], Sides[1]);
    FirstOddsOfColumn(f, Props[p], Books[b], Sides[s], player, team, opp);
  }

  /**
   * The pivot cell of a (name, team, opponent, prop, side) key at sportsbook
   * `b` is the first non-missing `{sportsbook}_{prop}{side}` value among the
   * records with that name, team and opponent, in record order.
   */
  lemma PivotCellFromRecords(f: Frame, p: nat, b: nat, s: nat, player: Cell, team: Cell, opp: Cell)
    requires p < |Props| && b < |Books| && s < |Sides|
    ensures FirstOdds(MeltAll(f), Key(player, team, opp, Props[p], Sides[s]), Books[b])
      == FirstRecordOdds(f, player, team, opp, ColumnName(Books[b], Props[p], Sides[s]))
  {
    var k := Key(player, team, opp, Props[p], Sides[s]);
    var bs := Pairs(f);
    forall i | 0 <= i < |bs| && i != 4 * p + b
      ensures FirstOdds(bs[i], k, Books[b]).None?
    {
      PairsAt(f, i / 4, i % 4);
      OtherPairNone(f, p, b, i / 4, i % 4, k);
    }
    FirstOddsFlattenOne(bs, 4 * p + b, k, Books[b]);
    PairsAt(f, p, b);
    PairCell(f, p, b, s, player, team, opp);
  }
}
