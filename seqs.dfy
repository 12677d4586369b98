/** Concatenation of a sequence of sequences, as `pd.concat` joins frames. */
module Seqs {

  function Flatten<T>(bs: seq<seq<T>>): seq<T> {
    if bs == [] then [] else bs[0] + Flatten(bs[1..])
  }

  /** Blocks of one common length `n` concatenate to `|bs| * n` elements. */
  lemma {:induction false} FlattenUniformLength<T>(bs: seq<seq<T>>, n: nat)
    requires forall k | 0 <= k < |bs| :: |bs[k]| == n
    ensures |Flatten(bs)| == |bs| * n
  {
    if bs != [] {
      FlattenUniformLength(bs[1..], n);
      assert |bs| * n == n + (|bs| - 1) * n;
    }
  }

  /** In blocks of one common length `n`, element `j` of block `k` sits at `k * n + j`. */
  lemma {:induction false} FlattenUniformAt<T>(bs: seq<seq<T>>, n: nat, k: nat, j: nat)
    requires forall i | 0 <= i < |bs| :: |bs[i]| == n
    requires k < |bs| && j < n
    ensures k * n + j < |Flatten(bs)|
    ensures Flatten(bs)[k * n + j] == bs[k][j]
  {
    FlattenUniformLength(bs[1..], n);
    if k > 0 {
      FlattenUniformAt(bs[1..], n, k - 1, j);
      assert k * n + j == n + ((k - 1) * n + j);
      assert bs[1..][k - 1] == bs[k];
    }
  }

  /** Every element of the concatenation comes from one of the blocks. */
  lemma {:induction false} FlattenMember<T>(bs: seq<seq<T>>, x: T)
    requires x in Flatten(bs)
    ensures exists k | 0 <= k < |bs| :: x in bs[k]
  {
    if x !in bs[0] {
      FlattenMember(bs[1..], x);
      var k :| 0 <= k < |bs[1..]| && x in bs[1..][k];
      assert bs[k + 1] == bs[1..][k];
    }
  }
}
