/**
 * The last steps (scrape_odds.py, lines 72-85): prop codes are replaced by
 * their display names and the `team` column is dropped.
 */
module Output {
  import opened Table
  import opened Vocabulary
  import opened LongForm
  import opened Pivot

  /** `pivot_df['Prop'].replace(prop_mapping)`: only the Prop column changes. */
  function Relabel(rows: seq<WideRow>): (r: seq<WideRow>)
    ensures |r| == |rows|
    ensures forall i | 0 <= i < |rows| ::
      var k, k' := rows[i].key, r[i].key;
      && k'.player == k.player && k'.team == k.team && k'.opp == k.opp && k'.overUnder == k.overUnder
      && k'.prop == DisplayName(k.prop) && r[i].odds == rows[i].odds
  {
    seq(|rows|, i requires 0 <= i < |rows| =>
      var k := rows[i].key;
      WideRow(Key(k.player, k.team, k.opp, DisplayName(k.prop), k.overUnder), rows[i].odds))
  }

  /** A row of the written table: `PlayerName, opp, Prop, Over_Under` and one column per sportsbook. */
  datatype OutRow = OutRow(player: Cell, opp: Cell, prop: string, overUnder: string, odds: seq<Cell>)

  /** `drop(['team'], axis=1)` and `reset_index(drop=True)`: every row kept, in order, without `team`. */
  function DropTeam(rows: seq<WideRow>): (r: seq<OutRow>)
    ensures |r| == |rows|
    ensures forall i | 0 <= i < |rows| ::
      && r[i].player == rows[i].key.player && r[i].opp == rows[i].key.opp
      && r[i].prop == rows[i].key.prop && r[i].overUnder == rows[i].key.overUnder
      && r[i].odds == rows[i].odds
  {
    seq(|rows|, i requires 0 <= i < |rows| =>
      var k := rows[i].key;
      OutRow(k.player, k.opp, k.prop, k.overUnder, rows[i].odds))
  }

  lemma PivotPropsAreCodes(long: seq<LongRow>)
    requires forall row | row in long :: row.prop in Props
    ensures forall j | 0 <= j < |PivotTable(long)| :: PivotTable(long)[j].key.prop in Props
  {
    var pivot := PivotTable(long);
    PivotOneRowPerKey(long);
    forall j | 0 <= j < |pivot|
      ensures pivot[j].key.prop in Props
    {
      var i :| 0 <= i < |long| && KeyOf(long[i]) == pivot[j].key;
      assert long[i] in long;
    }
  }

  lemma DisplayNameOfCode(a: string, b: string)
    requires a in Props && b in Props
    ensures DisplayName(a) in PropMapping.Values
    ensures a != b ==> DisplayName(a) != DisplayName(b)
  {
    DisplayNamesDistinct();
    assert PropMapping[a] in PropMapping.Values;
    var pa :| 0 <= pa < |Props| && Props[pa] == a;
    var pb :| 0 <= pb < |Props| && Props[pb] == b;
  }

  /**
   * Relabelling after the pivot: every row of the pivoted long table shows
   * one of the seven display names, and since the names of distinct codes
   * differ, rows that the pivot kept apart stay apart.
   */
  lemma RelabelAfterPivot(long: seq<LongRow>)
    requires forall row | row in long :: row.prop in Props
    ensures var r := Relabel(PivotTable(long));
      && (forall j | 0 <= j < |r| :: r[j].key.prop in PropMapping.Values)
      && (forall i, j | 0 <= i < j < |r| :: r[i].key != r[j].key)
  {
    var pivot := PivotTable(long);
    var r := Relabel(pivot);
    PivotOneRowPerKey(long);
    PivotPropsAreCodes(long);
    forall i, j | 0 <= i < |r| && 0 <= j < |r|
      ensures r[i].key.prop in PropMapping.Values
      ensures i < j ==> r[i].key != r[j].key
    {
      DisplayNameOfCode(pivot[i].key.prop, pivot[j].key.prop);
    }
  }
}
