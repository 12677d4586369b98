/** Substring search, Python's `t in s`. */
module Text {

  predicate OccursAt(s: string, t: string, i: nat) {
    i + |t| <= |s| && s[i..i + |t|] == t
  }

  predicate Contains(s: string, t: string) {
    exists i: nat | i <= |s| :: OccursAt(s, t, i)
  }

  lemma ContainsSuffix(x: string, t: string)
    ensures Contains(x + t, t)
  {
    assert OccursAt(x + t, t, |x|);
  }

  /** A string that lacks the first character of `t` does not contain `t`. */
  lemma NotContainsWithoutHead(s: string, t: string)
    requires t != [] && t[0] !in s
    ensures !Contains(s, t)
  {
    forall i: nat
      ensures !OccursAt(s, t, i)
    {
      if i + |t| <= |s| {
        assert s[i..i + |t|][0] == s[i];
      }
    }
  }
}
