/**
 * PlayerName construction (scrape_odds.py, lines 39-40):
 * `firstName + ' ' + lastName` as a new column, then both name columns are
 * dropped.
 */
module Names {
  import opened Wrappers
  import opened Table

  /**
   * The element-wise `first + ' ' + last` of two object columns: NaN stays
   * NaN, two strings are joined with one space.
   */
  function JoinName(first: Cell, last: Cell): Cell {
    match (first, last)
    case (Some(Text(a)), Some(Text(b))) => Some(Text(a + " " + b))
    case _ => None
  }

  /** The record after both assignments: the name columns replaced by `PlayerName`. */
  function NameRecord(r: Record): Record {
    (r - {"firstName", "lastName"})["PlayerName" := JoinName(Get(r, "firstName"), Get(r, "lastName"))]
  }

  /** A number in `firstName` meets `+ ' '`. */
  predicate FirstNameIsNum(f: Frame) {
    exists i | 0 <= i < |f| :: IsNum(Get(f[i], "firstName"))
  }

  /** A number in `lastName` meets a string on the left. */
  predicate LastNameIsNum(f: Frame) {
    exists i | 0 <= i < |f| :: Get(f[i], "firstName").Some? && IsNum(Get(f[i], "lastName"))
  }

  /**
   * Lines 39-40 over the whole frame, with the KeyError of a missing column
   * and the TypeError of a number in the order Python evaluates
   * `(first + ' ') + last`.
   */
  function BuildNames(f: Frame): (res: Result<Frame, Failure>)
    ensures res.Ok? <==>
      HasColumn(f, "firstName") && HasColumn(f, "lastName") && !FirstNameIsNum(f) && !LastNameIsNum(f)
    ensures res.Ok? ==> |res.value| == |f|
    ensures res.Ok? ==> forall i | 0 <= i < |f| ::
      && "firstName" !in res.value[i] && "lastName" !in res.value[i] && "PlayerName" in res.value[i]
      && (Get(f[i], "firstName").Some? && Get(f[i], "lastName").Some? <==> Get(res.value[i], "PlayerName").Some?)
    ensures res.Ok? ==> forall i, c | 0 <= i < |f| && c != "firstName" && c != "lastName" && c != "PlayerName" ::
      (c in res.value[i] <==> c in f[i]) && Get(res.value[i], c) == Get(f[i], c)
  {
    if !HasColumn(f, "firstName") then Err(MissingColumn("firstName"))
    else if FirstNameIsNum(f) then Err(NotText("firstName"))
    else if !HasColumn(f, "lastName") then Err(MissingColumn("lastName"))
    else if LastNameIsNum(f) then Err(NotText("lastName"))
    else Ok(seq(|f|, i requires 0 <= i < |f| => NameRecord(f[i])))
  }

  /** Where both parts are strings, the full name is first, a space, last. */
  lemma PlayerNameOf(f: Frame, i: nat, first: string, last: string)
    requires BuildNames(f).Ok? && i < |f|
    requires Get(f[i], "firstName") == Some(Text(first)) && Get(f[i], "lastName") == Some(Text(last))
    ensures Get(BuildNames(f).value[i], "PlayerName") == Some(Text(first + " " + last))
  {
  }

  /** With no record at all the frame has no columns, so line 39 fails. */
  lemma NoRecordsNoNames()
    ensures BuildNames([]) == Err(MissingColumn("firstName"))
  {
  }
}
