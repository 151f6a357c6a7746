/** Small shared vocabulary: optional values, and facts about permutations of an index range. */
module Common {
  datatype Option<+T> = None | Some(value: T)

  ghost predicate Distinct<T(!new)>(s: seq<T>) {
    forall i, j :: 0 <= i < j < |s| ==> s[i] != s[j]
  }

  /** `p` lists every index below `n` and lists none of them twice. */
  ghost predicate Permutation(p: seq<nat>, n: nat) {
    && Distinct(p)
    && (forall k :: 0 <= k < |p| ==> p[k] < n)
    && (forall i: nat :: i < n ==> i in p)
  }

  function Sum(s: seq<int>): int {
    if s == [] then 0 else Sum(s[..|s| - 1]) + s[|s| - 1]
  }

  ghost function Pick(s: seq<int>, p: seq<nat>): seq<int>
    requires forall k :: 0 <= k < |p| ==> p[k] < |s|
  {
    seq(|p|, k requires 0 <= k < |p| => s[p[k]])
  }

  lemma {:induction false} SumSplit(s: seq<int>, k: nat)
    requires k < |s|
    ensures Sum(s) == Sum(s[..k] + s[k + 1..]) + s[k]
  {
    var last := |s| - 1;
    if k == last {
      assert s[..k] + s[k + 1..] == s[..last];
    } else {
      SumSplit(s[..last], k);
      var cut := s[..k] + s[k + 1..];
      assert cut[..|cut| - 1] == s[..last][..k] + s[..last][k + 1..];
      assert cut[|cut| - 1] == s[last];
    }
  }

  /** Leaving out the largest index of a permutation leaves a permutation of the others. */
  lemma DropLargest(p: seq<nat>, n: nat, k: nat)
    requires Permutation(p, n + 1) && k < |p| && p[k] == n
    ensures Permutation(p[..k] + p[k + 1..], n)
  {
    var q := p[..k] + p[k + 1..];
    forall m | 0 <= m < |q| ensures q[m] < n {
      assert q[m] == if m < k then p[m] else p[m + 1];
    }
    forall i: nat | i < n ensures i in q {
      assert i in p;
      var m :| 0 <= m < |p| && p[m] == i;
      assert q[if m < k then m else m - 1] == i;
    }
  }

  lemma PickDrop(s: seq<int>, p: seq<nat>, k: nat)
    requires Permutation(p, |s|) && k < |p| && p[k] == |s| - 1
    ensures Permutation(p[..k] + p[k + 1..], |s| - 1)
    ensures Sum(Pick(s, p)) == Sum(Pick(s[..|s| - 1], p[..k] + p[k + 1..])) + s[|s| - 1]
  {
    DropLargest(p, |s| - 1, k);
    SumSplit(Pick(s, p), k);
    assert Pick(s, p)[..k] + Pick(s, p)[k + 1..] == Pick(s[..|s| - 1], p[..k] + p[k + 1..]);
  }

  /** A permutation of the indices has as many entries as there are indices and keeps every sum. */
  lemma {:induction false} PermutationSum(s: seq<int>, p: seq<nat>)
    requires Permutation(p, |s|)
    ensures |p| == |s|
    ensures Sum(Pick(s, p)) == Sum(s)
    decreases |s|
  {
    if p == [] {
      assert |s| > 0 ==> 0 in p;
    } else {
      assert p[0] < |s|;
      assert |s| - 1 in p;
      var k :| 0 <= k < |p| && p[k] == |s| - 1;
      PickDrop(s, p, k);
      PermutationSum(s[..|s| - 1], p[..k] + p[k + 1..]);
    }
  }
}
