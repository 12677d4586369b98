/**
 * The closed vocabularies of the reshaping step: the four sportsbooks, the
 * seven prop codes, the column names built from them, the side label and the
 * display names of the props.
 */
module Vocabulary {
  import opened Text

  const Books: seq<string> := ["draftkings", "fanduel", "mgm", "pointsbet"]

  const Props: seq<string> := ["pts", "reb", "ast", "ptsrebast", "ptsreb", "ptsast", "rebast"]

  /** The two melted columns of each (prop, sportsbook) pair, in `value_vars` order. */
  const Sides: seq<string> := ["Under", "Over"]

  const PropMapping: map<string, string> := map[
    "pts" := "Points",
    "reb" := "Rebounds",
    "ast" := "Assists",
    "ptsast" := "Pts+Asts",
    "ptsreb" := "Pts+Rebs",
    "ptsrebast" := "Pts+Rebs+Asts",
    "rebast" := "Rebs+Asts"
  ]

  /** The record field `{sportsbook}_{prop}{side}`. */
  function ColumnName(book: string, prop: string, side: string): string {
    book + "_" + prop + side
  }

  /** The `Over_Under` label the script derives from a melted column's name. */
  function SideLabel(column: string): string {
    if Contains(column, "Over") then "Over" else "Under"
  }

  /** The display name `replace(prop_mapping)` gives a prop value. */
  function DisplayName(prop: string): string {
    if prop in PropMapping then PropMapping[prop] else prop
  }

  lemma BooksDistinct()
    ensures forall i, j | 0 <= i < j < |Books| :: Books[i] != Books[j]
  {
  }

  lemma PropsDistinct()
    ensures forall i, j | 0 <= i < j < |Props| :: Props[i] != Props[j]
  {
  }

  /**
   * The label computed from a column's name is the side the column was
   * built with: an `...Under` column contains no capital O at all.
   */
  lemma {:induction false} SideLabelOfColumn(b: nat, p: nat, s: nat)
    requires b < |Books| && p < |Props| && s < |Sides|
    ensures SideLabel(ColumnName(Books[b], Props[p], Sides[s])) == Sides[s]
  {
    var stem := Books[b] + "_" + Props[p];
    assert ColumnName(Books[b], Props[p], Sides[s]) == stem + Sides[s];
    if s == 1 {
      ContainsSuffix(stem, "Over");
    } else {
      assert 'O' !in Books[b];
      assert 'O' !in Props[p];
      assert 'O' !in stem + "Under";
      NotContainsWithoutHead(stem + "Under", "Over");
    }
  }

  /** Every prop code has its display name; nothing else is renamed. */
  lemma DisplayNames()
    ensures DisplayName("pts") == "Points" && DisplayName("reb") == "Rebounds"
    ensures DisplayName("ast") == "Assists" && DisplayName("ptsrebast") == "Pts+Rebs+Asts"
    ensures DisplayName("ptsreb") == "Pts+Rebs" && DisplayName("ptsast") == "Pts+Asts"
    ensures DisplayName("rebast") == "Rebs+Asts"
    ensures forall c | c !in Props :: DisplayName(c) == c
  {
  }

  /** The relabelling keeps the seven codes apart. */
  lemma DisplayNamesDistinct()
    ensures forall i, j | 0 <= i < j < |Props| :: DisplayName(Props[i]) != DisplayName(Props[j])
  {
  }
}
