/** Small facts about sequences shared by the counters of several components. */
module Seqs {
  function Sum(s: seq<nat>): nat {
    if s == [] then 0 else Sum(s[..|s| - 1]) + s[|s| - 1]
  }

  lemma {:induction false} SumAppend(s: seq<nat>, t: seq<nat>)
    ensures Sum(s + t) == Sum(s) + Sum(t)
    decreases |t|
  {
    if t != [] {
      assert (s + t)[..|s + t| - 1] == s + t[..|t| - 1];
      assert (s + t)[|s + t| - 1] == t[|t| - 1];
      SumAppend(s, t[..|t| - 1]);
    } else {
      assert s + t == s;
    }
  }

  lemma Assoc<T>(a: seq<T>, b: seq<T>, c: seq<T>)
    ensures a + (b + c) == (a + b) + c
  {
  }

  /** A slice inside the first part of a concatenation is a slice of the whole. */
  lemma SliceOfPrefix<T>(a: seq<T>, b: seq<T>, c: seq<T>, lo: nat, hi: nat)
    requires a + b == c && lo <= hi <= |a|
    ensures a[lo..hi] == c[lo..hi]
  {
    assert forall i :: lo <= i < hi ==> a[i] == c[i];
  }
}
