/** `Vec::retain` as a function on sequences: keep, in their original order,
    exactly the elements the predicate accepts. */
module Retain {

  /** The elements of `s` that `keep` accepts, in the order they have in `s`. */
  function Filter<T>(s: seq<T>, keep: T -> bool): (r: seq<T>)
    ensures |r| <= |s|
    ensures forall k :: 0 <= k < |r| ==> r[k] in s && keep(r[k])
    ensures forall i :: 0 <= i < |s| && keep(s[i]) ==> s[i] in r
    decreases |s|
  {
    if s == [] then []
    else
      var init := Filter(s[..|s| - 1], keep);
      assert s == s[..|s| - 1] + [s[|s| - 1]];
      if keep(s[|s| - 1]) then init + [s[|s| - 1]] else init
  }

  /** The positions in `s` of the elements `keep` accepts, in increasing order. */
  ghost function Survivors<T>(s: seq<T>, keep: T -> bool): (idx: seq<nat>)
    ensures forall k :: 0 <= k < |idx| ==> idx[k] < |s|
    decreases |s|
  {
    if s == [] then []
    else Survivors(s[..|s| - 1], keep) + (if keep(s[|s| - 1]) then [|s| - 1] else [])
  }

  /** Retaining preserves relative order: the k-th survivor is the element of `s` at the
      k-th accepted position, those positions strictly increase, and a position is
      among them exactly when `keep` accepts its element. */
  lemma FilterKeepsOrder<T>(s: seq<T>, keep: T -> bool)
    ensures |Survivors(s, keep)| == |Filter(s, keep)|
    ensures forall k :: 0 <= k < |Filter(s, keep)| ==> Filter(s, keep)[k] == s[Survivors(s, keep)[k]]
    ensures forall k1, k2 :: 0 <= k1 < k2 < |Survivors(s, keep)| ==> Survivors(s, keep)[k1] < Survivors(s, keep)[k2]
    ensures forall i :: 0 <= i < |s| ==> (i in Survivors(s, keep) <==> keep(s[i]))
  {
    FilterAtSurvivors(s, keep);
    SurvivorsIncrease(s, keep);
    SurvivorsExact(s, keep);
  }

  lemma {:induction false} FilterAtSurvivors<T>(s: seq<T>, keep: T -> bool)
    ensures |Survivors(s, keep)| == |Filter(s, keep)|
    ensures forall k :: 0 <= k < |Filter(s, keep)| ==> Filter(s, keep)[k] == s[Survivors(s, keep)[k]]
    decreases |s|
  {
    if s != [] {
      var n := |s| - 1;
      FilterAtSurvivors(s[..n], keep);
      var r0, idx0 := Filter(s[..n], keep), Survivors(s[..n], keep);
      forall k | 0 <= k < |r0|
        ensures r0[k] == s[idx0[k]]
      {
        assert s[..n][idx0[k]] == s[idx0[k]];
      }
    }
  }

  lemma {:induction false} SurvivorsIncrease<T>(s: seq<T>, keep: T -> bool)
    ensures forall k1, k2 :: 0 <= k1 < k2 < |Survivors(s, keep)| ==> Survivors(s, keep)[k1] < Survivors(s, keep)[k2]
    decreases |s|
  {
    if s != [] {
      SurvivorsIncrease(s[..|s| - 1], keep);
    }
  }

  lemma {:induction false} SurvivorsExact<T>(s: seq<T>, keep: T -> bool)
    ensures forall i :: 0 <= i < |s| ==> (i in Survivors(s, keep) <==> keep(s[i]))
    decreases |s|
  {
    if s != [] {
      var n := |s| - 1;
      SurvivorsExact(s[..n], keep);
      assert n !in Survivors(s[..n], keep);
      forall i | 0 <= i < n
        ensures i in Survivors(s, keep) <==> keep(s[i])
      {
        assert s[..n][i] == s[i];
      }
    }
  }
}
