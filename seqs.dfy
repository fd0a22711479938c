/**
 * Positions into a sequence, used to say that a filtered sequence keeps the
 * order and the multiplicity of the elements it keeps.
 */
module Seqs {
  /** `idx` lists positions below `n`, each later one larger. */
  predicate Increasing(idx: seq<int>, n: int)
  {
    (forall k :: 0 <= k < |idx| ==> 0 <= idx[k] < n) &&
    (forall k, l :: 0 <= k < l < |idx| ==> idx[k] < idx[l])
  }

  /** Every position moved one to the right, as when an element is put in front. */
  function Shift(idx: seq<int>): (r: seq<int>)
    ensures |r| == |idx|
    ensures forall k :: 0 <= k < |idx| ==> r[k] == idx[k] + 1
  {
    seq(|idx|, k requires 0 <= k < |idx| => idx[k] + 1)
  }

  lemma ShiftIncreasing(idx: seq<int>, n: nat)
    requires Increasing(idx, n)
    ensures Increasing(Shift(idx), n + 1)
    ensures Increasing([0] + Shift(idx), n + 1)
  {
    var t := [0] + Shift(idx);
    forall k | 0 <= k < |t| ensures 0 <= t[k] < n + 1 {
      if k > 0 { assert t[k] == idx[k - 1] + 1; }
    }
    forall k, l | 0 <= k < l < |t| ensures t[k] < t[l] {
      assert t[l] == idx[l - 1] + 1;
      if k > 0 { assert t[k] == idx[k - 1] + 1; }
    }
  }

  lemma ShiftMember(idx: seq<int>, n: int, i: int)
    requires Increasing(idx, n)
    ensures i in Shift(idx) <==> i - 1 in idx
    ensures 0 !in Shift(idx)
    ensures i in [0] + Shift(idx) <==> i == 0 || i - 1 in idx
  {
    if i - 1 in idx {
      var k :| 0 <= k < |idx| && idx[k] == i - 1;
      assert Shift(idx)[k] == i;
    }
  }

  /** `r` is `s` read at the increasing positions `idx`. */
  predicate Picks<T(==)>(r: seq<T>, s: seq<T>, idx: seq<int>)
  {
    Increasing(idx, |s|) && |idx| == |r| &&
    forall k :: 0 <= k < |idx| ==> r[k] == s[idx[k]]
  }

  /** An element put in front and not picked moves every picked position one step. */
  lemma PicksSkip<T>(x: T, t: seq<T>, rest: seq<T>, idx: seq<int>)
    requires Picks(rest, t, idx)
    ensures Picks(rest, [x] + t, Shift(idx))
  {
    ShiftIncreasing(idx, |t|);
    var s := [x] + t;
    forall k | 0 <= k < |idx| ensures rest[k] == s[Shift(idx)[k]] {
      assert s[Shift(idx)[k]] == t[idx[k]];
    }
  }

  /** An element put in front and picked is position 0; every other picked position moves one step. */
  lemma PicksTake<T>(x: T, t: seq<T>, rest: seq<T>, idx: seq<int>)
    requires Picks(rest, t, idx)
    ensures Picks([x] + rest, [x] + t, [0] + Shift(idx))
  {
    ShiftIncreasing(idx, |t|);
    var s := [x] + t;
    var r := [x] + rest;
    var sh := [0] + Shift(idx);
    forall k | 0 <= k < |sh| ensures r[k] == s[sh[k]] {
      if k > 0 { assert r[k] == rest[k - 1] && s[sh[k]] == t[idx[k - 1]]; }
    }
  }
}
