/**
 * The whole reshaping run of scrape_odds.py (lines 25-85), from the texts
 * of the page's script tags to the table that is written out.
 */
module Pipeline {
  import opened Wrappers
  import opened Table
  import opened Vocabulary
  import opened Extract
  import opened Names
  import opened LongForm
  import opened Pivot
  import opened Output

  /** Lines 39-85 applied to the concatenated records. */
  function Reshape(f: Frame): Result<seq<OutRow>, Failure> {
    var named :- BuildNames(f);
    var long :- MeltChecked(named);
    Ok(DropTeam(Relabel(PivotTable(long))))
  }

  /** Lines 25-85: select the marked scripts, collect their records, reshape them. */
  function Odds(scripts: seq<string>, decode: string -> Option<Frame>): Result<seq<OutRow>, Failure> {
    var records :- Collect(Selected(scripts), decode);
    Reshape(records)
  }

  /** The script body, stage by stage. */
  method Run(scripts: seq<string>, decode: string -> Option<Frame>) returns (res: Result<seq<OutRow>, Failure>)
    ensures res == Odds(scripts, decode)
  {
    var records := CollectRecords(Selected(scripts), decode);
    if records.Err? {
      return Err(records.error);
    }
    var named := BuildNames(records.value);
    if named.Err? {
      return Err(named.error);
    }
    var long := Melt(named.value);
    if long.Err? {
      return Err(long.error);
    }
    var pivot := PivotTable(long.value);
    res := Ok(DropTeam(Relabel(pivot)));
  }

  /** Without a marked script that the pattern matches nothing is produced. */
  lemma NoMatchNoTable(scripts: seq<string>, decode: string -> Option<Frame>)
    requires Matches(Selected(scripts)) == []
    ensures Odds(scripts, decode) == Err(NoScriptMatched)
  {
    CollectSpec(Selected(scripts), decode);
  }

  /** A pivot cell of the melted records, stated in terms of the records. */
  lemma PivotRowFromRecords(named: Frame, j: nat, b: nat)
    requires j < |PivotTable(MeltAll(named))| && b < |Books|
    ensures var row := PivotTable(MeltAll(named))[j];
      && row.key.prop in Props && row.key.overUnder in Sides
      && row.odds[b] == FirstRecordOdds(named, row.key.player, row.key.team, row.key.opp,
        ColumnName(Books[b], row.key.prop, row.key.overUnder))
  {
    var long := MeltAll(named);
    var k := PivotTable(long)[j].key;
    PivotOneRowPerKey(long);
    var i :| 0 <= i < |long| && KeyOf(long[i]) == k;
    MeltRowInVocabulary(named, long[i]);
    var p :| 0 <= p < |Props| && Props[p] == k.prop;
    var s :| 0 <= s < |Sides| && Sides[s] == k.overUnder;
    assert k == Key(k.player, k.team, k.opp, Props[p], Sides[s]);
    PivotCellFromRecords(named, p, b, s, k.player, k.team, k.opp);
  }

  /**
   * Every written row comes from one pivot row: same name and opponent, the
   * display name of a prop code, a side, and for each sportsbook the first
   * non-missing `{sportsbook}_{prop}{side}` value among the records with the
   * row's name, team and opponent.
   */
  lemma ReshapeCells(f: Frame)
    requires Reshape(f).Ok?
    ensures var named := BuildNames(f).value;
      var pivot := PivotTable(MeltAll(named));
      var out := Reshape(f).value;
      && |out| == |pivot|
      && forall j | 0 <= j < |out| ::
        var k := pivot[j].key;
        && out[j].player == k.player && out[j].opp == k.opp && out[j].overUnder == k.overUnder
        && k.prop in Props && k.overUnder in Sides && out[j].prop == DisplayName(k.prop)
        && |out[j].odds| == |Books|
        && forall b | 0 <= b < |Books| ::
          out[j].odds[b] == FirstRecordOdds(named, k.player, k.team, k.opp, ColumnName(Books[b], k.prop, k.overUnder))
  {
    var named := BuildNames(f).value;
    var pivot := PivotTable(MeltAll(named));
    assert MeltChecked(named) == Ok(MeltAll(named));
    assert Reshape(f).value == DropTeam(Relabel(pivot));
    forall j, b | 0 <= j < |pivot| && 0 <= b < |Books| {
      PivotRowFromRecords(named, j, b);
    }
  }

  /** A record that carries only the draftkings and fanduel points columns. */
  function PartialRecord(): Record {
    map[
      "firstName" := Some(Text("A")), "lastName" := Some(Text("B")),
      "team" := Some(Text("X")), "opp" := Some(Text("Y")),
      "draftkings_ptsOver" := Some(Num(-110)), "draftkings_ptsUnder" := None,
      "fanduel_ptsOver" := Some(Num(-105)), "fanduel_ptsUnder" := Some(Num(-115))]
  }

  /** Lines 39-40 accept that record: both name parts are strings. */
  lemma PartialRecordNamed()
    ensures BuildNames([PartialRecord()]).Ok?
  {
    var r := PartialRecord();
    assert [r][0] == r;
    assert HasColumn([r], "firstName") && HasColumn([r], "lastName");
    assert !FirstNameIsNum([r]) && !LastNameIsNum([r]);
  }

  /** A column of that record other than the name parts survives lines 39-40. */
  lemma PartialRecordKeeps(c: string)
    requires BuildNames([PartialRecord()]).Ok?
    requires c != "firstName" && c != "lastName" && c != "PlayerName"
    ensures HasColumn(BuildNames([PartialRecord()]).value, c) <==> c in PartialRecord()
  {
    var named := BuildNames([PartialRecord()]).value;
    assert c in named[0] <==> c in PartialRecord();
  }

  /** Lines 39-40 on that record: the names join, every other column stays. */
  lemma PartialRecordNames()
    ensures BuildNames([PartialRecord()]).Ok?
    ensures var named := BuildNames([PartialRecord()]).value;
      && HasColumn(named, "PlayerName") && HasColumn(named, "team") && HasColumn(named, "opp")
      && HasColumn(named, "draftkings_ptsUnder") && HasColumn(named, "draftkings_ptsOver")
      && HasColumn(named, "fanduel_ptsUnder") && HasColumn(named, "fanduel_ptsOver")
      && !HasColumn(named, "mgm_ptsUnder")
  {
    PartialRecordNamed();
    assert "PlayerName" in BuildNames([PartialRecord()]).value[0];
    PartialRecordKeeps("team");
    PartialRecordKeeps("opp");
    PartialRecordKeeps("draftkings_ptsUnder");
    PartialRecordKeeps("draftkings_ptsOver");
    PartialRecordKeeps("fanduel_ptsUnder");
    PartialRecordKeeps("fanduel_ptsOver");
    PartialRecordKeeps("mgm_ptsUnder");
  }

  /** The selection of (pts, draftkings) finds all its columns. */
  lemma DraftkingsPointsSelected(named: Frame)
    requires HasColumn(named, "PlayerName") && HasColumn(named, "team") && HasColumn(named, "opp")
    requires HasColumn(named, "draftkings_ptsUnder") && HasColumn(named, "draftkings_ptsOver")
    ensures MissingColumnOf(named, Selection(0, 0)).None?
  {
    assert Selection(0, 0) == ["PlayerName", "team", "opp", "draftkings_ptsUnder", "draftkings_ptsOver"] by {
      assert ColumnName(Books[0], Props[0], Sides[0]) == "draftkings_ptsUnder";
      assert ColumnName(Books[0], Props[0], Sides[1]) == "draftkings_ptsOver";
    }
    MissingColumnOfSpec(named, Selection(0, 0));
  }

  /** The selection of (pts, fanduel) finds all its columns. */
  lemma FanduelPointsSelected(named: Frame)
    requires HasColumn(named, "PlayerName") && HasColumn(named, "team") && HasColumn(named, "opp")
    requires HasColumn(named, "fanduel_ptsUnder") && HasColumn(named, "fanduel_ptsOver")
    ensures MissingColumnOf(named, Selection(0, 1)).None?
  {
    assert Selection(0, 1) == ["PlayerName", "team", "opp", "fanduel_ptsUnder", "fanduel_ptsOver"] by {
      assert ColumnName(Books[1], Props[0], Sides[0]) == "fanduel_ptsUnder";
      assert ColumnName(Books[1], Props[0], Sides[1]) == "fanduel_ptsOver";
    }
    MissingColumnOfSpec(named, Selection(0, 1));
  }

  /** The selection of (pts, mgm) lacks its Under column. */
  lemma MgmPointsMissing(named: Frame)
    requires HasColumn(named, "PlayerName") && HasColumn(named, "team") && HasColumn(named, "opp")
    requires !HasColumn(named, "mgm_ptsUnder")
    ensures MissingColumnOf(named, Selection(0, 2)) == Some("mgm_ptsUnder")
  {
    assert Selection(0, 2) == ["PlayerName", "team", "opp", "mgm_ptsUnder", "mgm_ptsOver"] by {
      assert ColumnName(Books[2], Props[0], Sides[0]) == "mgm_ptsUnder";
      assert ColumnName(Books[2], Props[0], Sides[1]) == "mgm_ptsOver";
    }
    MissingColumnFirst(named, Selection(0, 2), 3);
  }

  /** With those columns the loop gets through (pts, draftkings) and (pts, fanduel) and stops at (pts, mgm). */
  lemma StopsAtMgmPoints(named: Frame)
    requires HasColumn(named, "PlayerName") && HasColumn(named, "team") && HasColumn(named, "opp")
    requires HasColumn(named, "draftkings_ptsUnder") && HasColumn(named, "draftkings_ptsOver")
    requires HasColumn(named, "fanduel_ptsUnder") && HasColumn(named, "fanduel_ptsOver")
    requires !HasColumn(named, "mgm_ptsUnder")
    ensures MeltChecked(named) == Err(MissingColumn("mgm_ptsUnder"))
  {
    DraftkingsPointsSelected(named);
    FanduelPointsSelected(named);
    MgmPointsMissing(named);
    assert FirstMissing(named, 0, 2) == Some("mgm_ptsUnder");
    assert FirstMissing(named, 0, 1) == Some("mgm_ptsUnder");
    assert FirstMissing(named, 0, 0) == Some("mgm_ptsUnder");
  }

  /**
   * On that single record the selection of line 51 for (pts, mgm) raises a
   * KeyError, so no table is produced although the points rows of the two
   * sportsbooks that are present would be well defined.
   */
  lemma PartialOddsColumnsFail()
    ensures Reshape([PartialRecord()]) == Err(MissingColumn("mgm_ptsUnder"))
  {
    PartialRecordNames();
    StopsAtMgmPoints(BuildNames([PartialRecord()]).value);
    ReshapeFailsWithMelt([PartialRecord()]);
  }

  lemma ReshapeFailsWithMelt(f: Frame)
    requires BuildNames(f).Ok? && MeltChecked(BuildNames(f).value).Err?
    ensures Reshape(f) == Err(MeltChecked(BuildNames(f).value).error)
  {
  }
}
