/**
 * `combine_prop_with_odds` (scrape_odds.py, lines 8-14): a prop line and its
 * odds rendered as "prop (odds)", or "-" when the odds are missing.
 */
module Combine {
  import opened Wrappers
  import opened Table

  /** `pd.isna(odds_value) or odds_value == 'NaN'`. */
  predicate NoOdds(odds: Cell) {
    odds.None? || odds == Some(Text("NaN"))
  }

  /**
   * `row[prop_col]` and `row[odds_col]` raise a KeyError for a label the row
   * lacks, the prop first.
   */
  function CombinePropWithOdds(row: Record, propCol: string, oddsCol: string): (r: Result<string, Failure>)
    ensures r.Err? <==> propCol !in row || oddsCol !in row
    ensures r.Err? ==> r.error == MissingColumn(if propCol !in row then propCol else oddsCol)
    ensures r.Ok? ==> (r.value == "-" <==> NoOdds(row[oddsCol]))
    ensures r.Ok? && !NoOdds(row[oddsCol]) ==>
      r.value == Show(row[propCol]) + " (" + Show(row[oddsCol]) + ")"
  {
    if propCol !in row then Err(MissingColumn(propCol))
    else if oddsCol !in row then Err(MissingColumn(oddsCol))
    else
      var propValue, oddsValue := row[propCol], row[oddsCol];
      if NoOdds(oddsValue) then Ok("-")
      else Ok(Show(propValue) + " (" + Show(oddsValue) + ")")
  }
}
