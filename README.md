# Odds reshaping of the player-prop scraper

This project models the reshaping core of `scrape_odds.py`. The script takes
the page's `<script>` texts and produces a table of betting odds for player
props. It works in these steps:

1. It keeps the scripts that carry the `rwjs:ready` marker.
2. In each of them it finds the array literal after `data: `.
3. It decodes every array into records and concatenates them.
4. It joins `firstName` and `lastName` into `PlayerName`.
5. It melts the `{sportsbook}_{prop}{Under|Over}` columns into long rows:
   2 rows per record, for each of 7 props and each of 4 sportsbooks.
6. It pivots the long rows into one row per
   (PlayerName, team, opp, Prop, Over_Under) key. Each sportsbook gets a
   column, and each cell holds the first non-missing odds.
7. It replaces the prop codes by their display names and drops `team`.

The small helper `combine_prop_with_odds` is modelled as well.

Modules:

- `Table` holds the data model. A record is a map from field names to
  cells, and a frame is a sequence of records. A cell is `None` for a JSON
  null and for a field the record lacks; pandas treats both as missing.
- `Extract` holds the marker filter, the regular expression as a function
  on strings, and the collection loop (the imperative method
  `CollectRecords`).
- `Names` builds `PlayerName`.
- `Vocabulary` holds the fixed sportsbook, prop and side lists, the column
  names and the prop mapping.
- `LongForm` holds the melt. `Melt` is the nested `for` loop over props and
  sportsbooks, proved against the function `MeltChecked`.
- `Pivot` holds the pivot with `first`.
- `Output` holds the relabel and the `team` drop.
- `Combine` models `combine_prop_with_odds`.
- `Pipeline` holds the whole run. `Run` is the script body, proved against
  the function `Odds`.

Every way the code fails is a `Failure` value:
- `NoScriptMatched`: `pd.concat` of an empty list.
- `Malformed`: `json.loads` rejects a matched array.
- `MissingColumn`: a `KeyError` on a missing column.
- `NotText`: a `TypeError` when a number takes part in the name
  concatenation.

Three consequences of the code as written:

- **A selected column missing from every record stops the run.** Line 51
  raises a `KeyError` when any of the 28 selections names a column that no
  record carries, even if the other sportsbooks' columns are all present.
  `Pipeline.PartialOddsColumnsFail` shows this for a single record with only
  the draftkings and fanduel points columns.
- **A marked script without a match is skipped.** The run fails only when no
  marked script matched at all, in the `pd.concat` of line 38.
- **Keys whose odds are all missing are kept.** The model keeps every key of
  the long table, also one whose cells are all missing; the defaults of
  `pivot_table` would drop such keys (see "Left out").

## Model

| member | source | states |
|---|---|---|
| Extract.Selected | scrape_odds.py:25 | every selected script contains `rwjs:ready` and every script that contains it is selected |
| Extract.SelectedAppend | scrape_odds.py:25 | the selection of two script lists is the concatenation of their selections: page order kept, nothing dropped or merged |
| Extract.SelectedOne | scrape_odds.py:25 | a single script is kept iff its text contains `rwjs:ready` |
| Extract.MatchAtCorrect | scrape_odds.py:29 | the match end found at a start position is exactly an end where `data: [`, a run without newline and a final `]` with no later `]` on the line form a match of the greedy pattern |
| Extract.FindDataSpec | scrape_odds.py:29-31 | the search fails iff the pattern matches nowhere; otherwise the group is `[` … `]` of the leftmost match |
| Extract.MatchesAppend | scrape_odds.py:27-31 | the matched arrays of two script lists concatenate, order kept, nothing merged |
| Extract.DecodeAll | scrape_odds.py:33-34 | on success one decoded frame per matched text, each the decoding of its text; on failure the error is a matched text that does not decode |
| Extract.DecodeAllErrorPersists | scrape_odds.py:27-35 | once a matched text fails to decode, later scripts cannot change the outcome |
| Extract.CollectSpec | scrape_odds.py:27-38 | the concatenation fails with no match iff no script matched; otherwise it is all decoded arrays, in script order, without deduplication |
| Extract.CollectStep | scrape_odds.py:27-35 | one loop iteration: no match adds nothing, a match appends its decoded frame or fails with that text |
| Extract.CollectStopsAt | scrape_odds.py:33 | a decoding failure in the loop is the failure of the whole collection |
| Extract.CollectRecords | scrape_odds.py:27-38 | the loop with `dfs.append` and the final concatenation compute `Collect` |
| Names.BuildNames | scrape_odds.py:39-40 | succeeds iff both name columns exist and neither meets a number in `+`; then one record per record, `firstName`/`lastName` gone, `PlayerName` present and non-missing iff both parts are, all other fields unchanged |
| Names.PlayerNameOf | scrape_odds.py:39 | `PlayerName` is first name, a space, last name |
| Names.NoRecordsNoNames | scrape_odds.py:38-39 | with no records the frame has no `firstName` column and line 39 raises a `KeyError` |
| Vocabulary.SideLabelOfColumn | scrape_odds.py:50-59 | the `'Over' in x` label of a melted column name is the side that column was built with |
| Vocabulary.DisplayNames | scrape_odds.py:72-83 | each of the seven codes maps to its display name; any other value is left unchanged |
| Vocabulary.DisplayNamesDistinct | scrape_odds.py:72-80 | distinct prop codes get distinct display names |
| LongForm.MissingColumnOfSpec | scrape_odds.py:51 | the column selection fails iff a selected column is absent, reporting the first absent one |
| LongForm.MissingColumnFirst | scrape_odds.py:51 | the selection reports the first selected column that is absent |
| LongForm.MeltStep | scrape_odds.py:47-60 | iteration (prop, sportsbook) appends that pair's melted frame after those of the earlier iterations |
| LongForm.Melt | scrape_odds.py:46-63 | the nested loop over props and sportsbooks with its selections and appends computes `MeltChecked`: the first `KeyError` in loop order, else the concatenation of the 28 melted frames |
| LongForm.MeltCheckedFails | scrape_odds.py:47-51 | the melt fails iff one of the 28 selections (from a given iteration on) names a column no record has |
| LongForm.MeltLength | scrape_odds.py:47-63 | the long table has 7 × 4 × 2 rows per record |
| LongForm.MeltAt | scrape_odds.py:50-59 | the row for (record, prop, sportsbook, side) sits at a fixed index and carries the record's name, team and opponent unchanged, the prop code, the sportsbook, the side and the record's `{sportsbook}_{prop}{side}` cell |
| LongForm.MeltPairRows | scrape_odds.py:52-59 | the melted frame of one iteration carries that iteration's prop and sportsbook and a side label |
| LongForm.MeltRowInVocabulary | scrape_odds.py:47-63 | every long row has one of the seven props, four sportsbooks and two sides |
| Pivot.FirstOdds | scrape_odds.py:67-70 | a cell is missing iff every long row of that key and sportsbook has missing odds; otherwise it is the odds of the first such row that has any |
| Pivot.Dedup | scrape_odds.py:67 | the distinct values, each once, none invented, none lost |
| Pivot.GroupKeys | scrape_odds.py:67 | the pivot index: every key of the long table once, and no other key |
| Pivot.PivotTable | scrape_odds.py:67-70 | one row per group key with one cell per sportsbook, each the `first` of that cell |
| Pivot.PivotOneRowPerKey | scrape_odds.py:67-70 | no key twice, every key of the long table present, no key from elsewhere; keeping keys whose cells are all missing is the model's choice, since `dropna=True` in `pivot_table` drops them |
| Pivot.FirstRecordOdds | scrape_odds.py:67-70 | the first non-missing field value among records with a given name, team and opponent is missing iff all of them miss it |
| Pivot.FirstOddsAppend | scrape_odds.py:63-70 | `first` over a concatenation takes the first part's value if it has one, else the second's |
| Pivot.FirstOddsOfColumn | scrape_odds.py:54-70 | `first` over one melted column is the first non-missing field value among the matching records |
| Pivot.OtherPairNone | scrape_odds.py:47-70 | the melted frame of another prop or sportsbook contributes nothing to a cell |
| Pivot.PairCell | scrape_odds.py:54-70 | within its own pair of columns a cell is decided by the column of its side |
| Pivot.PivotCellFromRecords | scrape_odds.py:47-70 | the pivot cell of a key at a sportsbook is the first non-missing `{sportsbook}_{prop}{side}` value among the records with the key's name, team and opponent, in record order |
| Output.Relabel | scrape_odds.py:83 | only the prop changes, to its display name; rows, order, other key fields and cells unchanged |
| Output.DropTeam | scrape_odds.py:84-85 | every row kept in order; name, opponent, prop, side and cells unchanged; `team` gone |
| Output.PivotPropsAreCodes | scrape_odds.py:47-67 | the pivot groups by prop code: every pivot row has one of the seven codes |
| Output.DisplayNameOfCode | scrape_odds.py:72-83 | a code's display name is a mapping value, and distinct codes get distinct names |
| Output.RelabelAfterPivot | scrape_odds.py:67-83 | after relabelling, every row shows one of the seven display names and rows that the pivot kept apart stay apart |
| Combine.CombinePropWithOdds | scrape_odds.py:8-14 | fails iff a label is missing, reporting the prop first; returns `-` iff the odds are NaN or the string `NaN`; otherwise the prop, ` (`, the odds and `)` |
| Table.NatToStringRoundTrip | scrape_odds.py:14 | the decimal rendering of a number reads back as that number |
| Pipeline.Run | scrape_odds.py:25-85 | the script body computes `Odds`: the marker filter, collection, names, melt, pivot, relabel and drop, stopping at the first failure |
| Pipeline.NoMatchNoTable | scrape_odds.py:27-38 | without a matching marked script the run fails at the concatenation and produces nothing |
| Pipeline.PivotRowFromRecords | scrape_odds.py:47-70 | each pivot row has a prop code and a side, and each of its cells is the first non-missing value of the records |
| Pipeline.ReshapeCells | scrape_odds.py:39-85 | on success every written row comes from one pivot row: same name, opponent and side, the display name of a prop code, and each sportsbook's cell the first non-missing `{sportsbook}_{prop}{side}` value among the records with that name, team and opponent |
| Pipeline.ReshapeFailsWithMelt | scrape_odds.py:51 | a `KeyError` in the melt is the failure of the whole run |
| Pipeline.PartialRecordNamed | scrape_odds.py:39-40 | a record with string names passes name building |
| Pipeline.PartialRecordKeeps | scrape_odds.py:40 | after name building the frame has a non-name field iff the record has it |
| Pipeline.PartialRecordNames | scrape_odds.py:39-40 | on the single partial record, the named frame has the id columns and the draftkings and fanduel points columns, and no `mgm_ptsUnder` column |
| Pipeline.DraftkingsPointsSelected | scrape_odds.py:50-51 | the (pts, draftkings) selection finds its columns |
| Pipeline.FanduelPointsSelected | scrape_odds.py:50-51 | the (pts, fanduel) selection finds its columns |
| Pipeline.MgmPointsMissing | scrape_odds.py:50-51 | the (pts, mgm) selection reports `mgm_ptsUnder` |
| Pipeline.StopsAtMgmPoints | scrape_odds.py:47-51 | with only those columns the melt stops at (pts, mgm) with a `KeyError` |
| Pipeline.PartialOddsColumnsFail | scrape_odds.py:47-51 | a single record carrying only the draftkings and fanduel points columns makes the whole run fail with a `KeyError` on `mgm_ptsUnder` |

## Left out

- The HTTP request and the `status_code == 200` gate (lines 16-23): network
  I/O. The model starts from the texts of the page's script tags.
- BeautifulSoup's parsing and `script.string` (lines 24, 28): the model
  takes each script's text as given. A script whose `string` is `None` is
  not modelled.
- `json.loads` and `pd.DataFrame` (lines 33-34): these are the parameter
  `decode`, which returns a frame or `None` for text that does not parse.
- `to_csv` (line 86): filesystem I/O.
- Floating-point odds and pandas' float NaN: `Num` holds integers, and NaN
  is `None`.
- Combine.CombinePropWithOdds: renders integers and strings only. Python's
  rendering of floats (`-110.0`) is not modelled. A missing prop value is
  always rendered as `nan`, although a JSON null kept as `None` in an
  object column prints as `None`: the model does not tell the two apart.
- Pivot.PivotTable: keeps every key in first-seen order. pandas'
  `pivot_table` sorts the keys. By default it also drops groups with a NaN
  key part, rows whose cells are all NaN, and sportsbook columns that are
  all NaN. These pandas defaults are not modelled.
- Names.BuildNames: a `TypeError` stands for any number met by `+` in the
  name columns. pandas' dtype inference, such as an all-numeric column, and
  its exact error messages are not modelled.
- LongForm.Melt: models the `KeyError` of line 51 as the name of the first
  missing selected column. The message pandas builds, which lists all
  missing labels, is not modelled.
- The `.copy()` of line 51 and the in-place `drop`/`reset_index` of lines
  40 and 84-85: the model works on values, so there is no aliasing to
  model.
- `ppWebscraper.py` is not part of this model: it is browser automation
  with no reshaping logic.
