/**
 * Extraction (scrape_odds.py, lines 25-38): the scripts that carry the
 * `rwjs:ready` marker, the `data: (\[.*\])` array in each, and the
 * concatenation of the decoded arrays into one frame.
 */
module Extract {
  import opened Wrappers
  import opened Text
  import opened Seqs
  import opened Table

  const Marker: string := "rwjs:ready"

  /** The script texts the marker search selects, in page order. */
  function Selected(scripts: seq<string>): (r: seq<string>)
    ensures |r| <= |scripts|
    ensures forall i | 0 <= i < |r| :: Contains(r[i], Marker) && r[i] in scripts
    ensures forall i | 0 <= i < |scripts| && Contains(scripts[i], Marker) :: scripts[i] in r
  {
    if scripts == [] then []
    else (if Contains(scripts[0], Marker) then [scripts[0]] else []) + Selected(scripts[1..])
  }

  /** Selection distributes over concatenation: page order is kept, duplicates are not merged. */
  lemma {:induction false} SelectedAppend(a: seq<string>, b: seq<string>)
    ensures Selected(a + b) == Selected(a) + Selected(b)
  {
    if a == [] {
      assert a + b == b;
    } else {
      assert (a + b)[1..] == a[1..] + b;
      SelectedAppend(a[1..], b);
    }
  }

  lemma SelectedOne(x: string)
    ensures Selected([x]) == if Contains(x, Marker) then [x] else []
  {
    assert [x][1..] == [];
  }

  // ---- the regular expression `data: (\[.*\])`, searched with re.search ----

  /**
   * The match of the pattern starting at `i` and ending before `e`: the text
   * `data: [`, then characters other than a newline, then `]`, and, since
   * `.*` is greedy, no `]` later on the same line.
   */
  predicate IsMatch(s: string, i: nat, e: nat) {
    && i + 8 <= e <= |s|
    && s[i..i + 7] == "data: ["
    && s[e - 1] == ']'
    && '\n' !in s[i + 7..e - 1]
    && forall k | e <= k < |s| && s[k] == ']' :: '\n' in s[e..k]
  }

  /** The first newline at or after `j`, or the end of `s`. */
  function LineEnd(s: string, j: nat): (r: nat)
    requires j <= |s|
    ensures j <= r <= |s|
    ensures '\n' !in s[j..r]
    ensures r < |s| ==> s[r] == '\n'
    decreases |s| - j
  {
    if j == |s| || s[j] == '\n' then j
    else
      var r := LineEnd(s, j + 1);
      assert s[j..r] == [s[j]] + s[j + 1..r];
      r
  }

  /** The last `]` in `s[lo..hi]`. */
  function LastClose(s: string, lo: nat, hi: nat): (r: Option<nat>)
    requires lo <= hi <= |s|
    ensures r.Some? ==> lo <= r.value < hi && s[r.value] == ']'
    ensures r.Some? ==> forall k | r.value < k < hi :: s[k] != ']'
    ensures r.None? ==> forall k | lo <= k < hi :: s[k] != ']'
    decreases hi - lo
  {
    if hi == lo then None
    else if s[hi - 1] == ']' then Some(hi - 1)
    else LastClose(s, lo, hi - 1)
  }

  /** The end of the match that starts at `i`, if one does. */
  function MatchAt(s: string, i: nat): Option<nat> {
    if i + 7 <= |s| && s[i..i + 7] == "data: [" then
      match LastClose(s, i + 7, LineEnd(s, i + 7))
      case Some(k) => Some(k + 1)
      case None => None
    else None
  }

  lemma MatchAtSound(s: string, i: nat, e: nat)
    requires MatchAt(s, i) == Some(e)
    ensures IsMatch(s, i, e)
  {
    var h := LineEnd(s, i + 7);
    assert LastClose(s, i + 7, h) == Some(e - 1);
    assert '\n' !in s[i + 7..h];
    forall k | i + 7 <= k < e - 1
      ensures s[k] != '\n'
    {
      assert s[k] == s[i + 7..h][k - (i + 7)];
    }
    forall k | e <= k < |s| && s[k] == ']'
      ensures '\n' in s[e..k]
    {
      assert h <= k;
      assert s[e..k][h - e] == '\n';
    }
  }

  lemma MatchAtComplete(s: string, i: nat, e: nat)
    requires IsMatch(s, i, e)
    ensures MatchAt(s, i) == Some(e)
  {
    var h := LineEnd(s, i + 7);
    var c := LastClose(s, i + 7, h);
    assert c.Some?;
  }

  /** `MatchAt` finds exactly the match the pattern has at `i`. */
  lemma MatchAtCorrect(s: string, i: nat, e: nat)
    ensures IsMatch(s, i, e) <==> MatchAt(s, i) == Some(e)
  {
    if IsMatch(s, i, e) {
      MatchAtComplete(s, i, e);
    }
    if MatchAt(s, i) == Some(e) {
      MatchAtSound(s, i, e);
    }
  }

  /** The leftmost start at or after `i` where the pattern matches. */
  function SearchFrom(s: string, i: nat): (r: Option<nat>)
    requires i <= |s| + 1
    ensures r.Some? ==> i <= r.value <= |s| && MatchAt(s, r.value).Some?
    ensures r.Some? ==> forall j | i <= j < r.value :: MatchAt(s, j).None?
    ensures r.None? ==> forall j | i <= j <= |s| :: MatchAt(s, j).None?
    decreases |s| + 1 - i
  {
    if i == |s| + 1 then None
    else if MatchAt(s, i).Some? then Some(i)
    else SearchFrom(s, i + 1)
  }

  /** `re.search(r'data: (\[.*\])', s).group(1)`, or `None` when nothing matches. */
  function FindData(s: string): Option<string> {
    match SearchFrom(s, 0)
    case Some(i) => Some(s[i + 6..MatchAt(s, i).value])
    case None => None
  }

  /**
   * `FindData` fails exactly when the pattern matches nowhere; otherwise it
   * returns the group of the leftmost match, from `[` to the last `]` of its
   * line.
   */
  lemma FindDataSpec(s: string)
    ensures FindData(s).None? <==> forall i: nat, e: nat :: !IsMatch(s, i, e)
    ensures FindData(s).Some? ==>
      exists i: nat, e: nat :: IsMatch(s, i, e) && FindData(s).value == s[i + 6..e]
        && forall j: nat, e': nat | j < i :: !IsMatch(s, j, e')
  {
    var r := SearchFrom(s, 0);
    if r.None? {
      forall i: nat, e: nat
        ensures !IsMatch(s, i, e)
      {
        MatchAtCorrect(s, i, e);
      }
    } else {
      var i := r.value;
      var e := MatchAt(s, i).value;
      MatchAtCorrect(s, i, e);
      forall j: nat, e': nat | j < i
        ensures !IsMatch(s, j, e')
      {
        MatchAtCorrect(s, j, e');
      }
    }
  }

  // ---- the loop over the selected scripts and the concatenation ----

  /** The matched arrays' texts, one per script the pattern matches, in script order. */
  function Matches(scripts: seq<string>): (r: seq<string>)
    ensures |r| <= |scripts|
  {
    if scripts == [] then []
    else
      var last := scripts[|scripts| - 1];
      Matches(scripts[..|scripts| - 1]) + (if FindData(last).Some? then [FindData(last).value] else [])
  }

  /** Matching distributes over concatenation of script lists: order is kept and nothing is merged. */
  lemma {:induction false} MatchesAppend(a: seq<string>, b: seq<string>)
    ensures Matches(a + b) == Matches(a) + Matches(b)
  {
    if b == [] {
      assert a + b == a;
    } else {
      assert (a + b)[..|a + b| - 1] == a + b[..|b| - 1];
      MatchesAppend(a, b[..|b| - 1]);
    }
  }

  lemma MatchesOne(x: string)
    ensures Matches([x]) == if FindData(x).Some? then [FindData(x).value] else []
  {
    assert [x][..0] == [];
  }

  /**
   * `json.loads` and `pd.DataFrame` applied to each matched array in turn;
   * the first text that does not decode is the error.
   */
  function DecodeAll(texts: seq<string>, decode: string -> Option<Frame>): (r: Result<seq<Frame>, string>)
    ensures r.Ok? ==> |r.value| == |texts|
    ensures r.Ok? ==> forall i | 0 <= i < |texts| :: decode(texts[i]) == Some(r.value[i])
    ensures r.Err? ==> r.error in texts && decode(r.error).None?
  {
    if texts == [] then Ok([])
    else
      match DecodeAll(texts[..|texts| - 1], decode)
      case Err(t) => Err(t)
      case Ok(ds) =>
        match decode(texts[|texts| - 1])
        case None => Err(texts[|texts| - 1])
        case Some(d) => Ok(ds + [d])
  }

  /** A decoding failure in a prefix decides the result for every extension. */
  lemma {:induction false} DecodeAllErrorPersists(a: seq<string>, b: seq<string>, decode: string -> Option<Frame>)
    requires DecodeAll(a, decode).Err?
    ensures DecodeAll(a + b, decode) == DecodeAll(a, decode)
  {
    if b == [] {
      assert a + b == a;
    } else {
      assert (a + b)[..|a + b| - 1] == a + b[..|b| - 1];
      DecodeAllErrorPersists(a, b[..|b| - 1], decode);
    }
  }

  /** The frame the loop and `pd.concat(dfs, ignore_index=True)` produce. */
  function Collect(scripts: seq<string>, decode: string -> Option<Frame>): Result<Frame, Failure> {
    match DecodeAll(Matches(scripts), decode)
    case Err(t) => Err(Malformed(t))
    case Ok(ds) => if ds == [] then Err(NoScriptMatched) else Ok(Flatten(ds))
  }

  /**
   * Only matched scripts contribute; their arrays are joined in script order
   * with nothing removed; with no match at all the concatenation fails.
   */
  lemma CollectSpec(scripts: seq<string>, decode: string -> Option<Frame>)
    ensures Collect(scripts, decode) == Err(NoScriptMatched) <==> Matches(scripts) == []
    ensures Collect(scripts, decode).Ok? ==>
      var ds := DecodeAll(Matches(scripts), decode).value;
      && |ds| == |Matches(scripts)| > 0
      && (forall i | 0 <= i < |ds| :: decode(Matches(scripts)[i]) == Some(ds[i]))
      && Collect(scripts, decode).value == Flatten(ds)
  {
  }

  /** One more script adds its match, if any, at the end. */
  lemma MatchesPrefixStep(scripts: seq<string>, i: nat)
    requires i < |scripts|
    ensures Matches(scripts[..i + 1]) ==
      Matches(scripts[..i]) + (if FindData(scripts[i]).Some? then [FindData(scripts[i]).value] else [])
  {
    assert scripts[..i + 1][..i] == scripts[..i];
  }

  /** A decoded text at the end extends the decoded frames by one. */
  lemma DecodeAllSnoc(texts: seq<string>, t: string, decode: string -> Option<Frame>)
    ensures DecodeAll(texts + [t], decode) ==
      match DecodeAll(texts, decode)
      case Err(e) => Err(e)
      case Ok(ds) => if decode(t).Some? then Ok(ds + [decode(t).value]) else Err(t)
  {
    assert (texts + [t])[..|texts|] == texts;
  }

  /** One step of the loop: a script without a match adds nothing, a match adds its decoded frame. */
  lemma CollectStep(scripts: seq<string>, i: nat, decode: string -> Option<Frame>, dfs: seq<Frame>)
    requires i < |scripts|
    requires DecodeAll(Matches(scripts[..i]), decode) == Ok(dfs)
    ensures FindData(scripts[i]).None? ==> DecodeAll(Matches(scripts[..i + 1]), decode) == Ok(dfs)
    ensures FindData(scripts[i]).Some? ==>
      DecodeAll(Matches(scripts[..i + 1]), decode) ==
        if decode(FindData(scripts[i]).value).Some? then Ok(dfs + [decode(FindData(scripts[i]).value).value])
        else Err(FindData(scripts[i]).value)
  {
    MatchesPrefixStep(scripts, i);
    var m := Matches(scripts[..i]);
    if FindData(scripts[i]).Some? {
      DecodeAllSnoc(m, FindData(scripts[i]).value, decode);
    } else {
      assert m + [] == m;
    }
  }

  /** Once a matched text fails to decode, the whole collection fails with it. */
  lemma CollectStopsAt(scripts: seq<string>, i: nat, decode: string -> Option<Frame>)
    requires i < |scripts|
    requires DecodeAll(Matches(scripts[..i + 1]), decode).Err?
    ensures Collect(scripts, decode) == Err(Malformed(DecodeAll(Matches(scripts[..i + 1]), decode).error))
  {
    assert scripts == scripts[..i + 1] + scripts[i + 1..];
    MatchesAppend(scripts[..i + 1], scripts[i + 1..]);
    DecodeAllErrorPersists(Matches(scripts[..i + 1]), Matches(scripts[i + 1..]), decode);
  }

  /** The loop of lines 27-35 followed by the concatenation of line 38. */
  method CollectRecords(scripts: seq<string>, decode: string -> Option<Frame>) returns (res: Result<Frame, Failure>)
    ensures res == Collect(scripts, decode)
  {
    var dfs: seq<Frame> := [];
    var i := 0;
    while i < |scripts|
      invariant 0 <= i <= |scripts|
      invariant DecodeAll(Matches(scripts[..i]), decode) == Ok(dfs)
    {
      CollectStep(scripts, i, decode, dfs);
      var found := FindData(scripts[i]);
      if found.Some? {
        var data := decode(found.value);
        if data.None? {
          CollectStopsAt(scripts, i, decode);
          return Err(Malformed(found.value));
        }
        dfs := dfs + [data.value];
      }
      i := i + 1;
    }
    assert scripts[..i] == scripts;
    if dfs == [] {
      return Err(NoScriptMatched);
    }
    return Ok(Flatten(dfs));
  }
}
