/** `Array.prototype.filter`: keep, in order, the elements a predicate accepts. */
module Seqs {

  /** The elements of `s` that `keep` accepts, scanned left to right. */
  function Filter<T>(s: seq<T>, keep: T -> bool): (r: seq<T>)
    ensures |r| <= |s|
    ensures forall i :: 0 <= i < |r| ==> keep(r[i])
    ensures forall x :: x in r ==> x in s
  {
    if s == [] then []
    else if keep(s[0]) then [s[0]] + Filter(s[1..], keep)
    else Filter(s[1..], keep)
  }

  /** Reference definition: the positions of `s`, from `from` on, whose element
      `keep` accepts, in increasing order. */
  function KeptIndicesFrom<T>(s: seq<T>, keep: T -> bool, from: nat): (idx: seq<nat>)
    requires from <= |s|
    ensures forall k :: 0 <= k < |idx| ==> from <= idx[k] < |s| && keep(s[idx[k]])
    ensures forall k, m :: 0 <= k < m < |idx| ==> idx[k] < idx[m]
    ensures forall j :: from <= j < |s| && keep(s[j]) ==> j in idx
    decreases |s| - from
  {
    if from == |s| then []
    else if keep(s[from]) then [from] + KeptIndicesFrom(s, keep, from + 1)
    else KeptIndicesFrom(s, keep, from + 1)
  }

  function KeptIndices<T>(s: seq<T>, keep: T -> bool): seq<nat>
  {
    KeptIndicesFrom(s, keep, 0)
  }

  lemma {:induction false} FilterFromMatchesIndices<T>(s: seq<T>, keep: T -> bool, from: nat)
    requires from <= |s|
    ensures var r, idx := Filter(s[from..], keep), KeptIndicesFrom(s, keep, from);
      |r| == |idx| && forall k :: 0 <= k < |r| ==> r[k] == s[idx[k]]
    decreases |s| - from
  {
    if from < |s| {
      FilterFromMatchesIndices(s, keep, from + 1);
      var tail := s[from..];
      assert tail[0] == s[from] && tail[1..] == s[from + 1..];
      var r', idx' := Filter(s[from + 1..], keep), KeptIndicesFrom(s, keep, from + 1);
      if keep(s[from]) {
        assert Filter(tail, keep) == [s[from]] + r';
        assert KeptIndicesFrom(s, keep, from) == [from] + idx';
      } else {
        assert Filter(tail, keep) == r';
        assert KeptIndicesFrom(s, keep, from) == idx';
      }
    }
  }

  /** The filter's result is the subsequence of `s` at exactly the positions
      whose element is kept: an order-preserving selection that copies each
      kept element unchanged. */
  lemma {:induction false} FilterIsSubsequence<T>(s: seq<T>, keep: T -> bool)
    ensures var r, idx := Filter(s, keep), KeptIndices(s, keep);
      && |r| == |idx|
      && (forall k :: 0 <= k < |r| ==> idx[k] < |s| && r[k] == s[idx[k]])
      && (forall k, m :: 0 <= k < m < |idx| ==> idx[k] < idx[m])
      && (forall j :: 0 <= j < |s| ==> (j in idx <==> keep(s[j])))
  {
    FilterFromMatchesIndices(s, keep, 0);
    assert s[0..] == s;
  }

  /** Each value occurs in the result as often as in `s` if it is kept, and not
      at all otherwise. */
  lemma {:induction false} FilterMultiplicity<T>(s: seq<T>, keep: T -> bool, x: T)
    ensures multiset(Filter(s, keep))[x] == if keep(x) then multiset(s)[x] else 0
  {
    if s != [] {
      FilterMultiplicity(s[1..], keep, x);
      assert s == [s[0]] + s[1..];
    }
  }

  /** A value is in the result if and only if it is in `s` and is kept. */
  lemma {:induction false} FilterMembership<T>(s: seq<T>, keep: T -> bool, x: T)
    ensures x in Filter(s, keep) <==> x in s && keep(x)
  {
    FilterMultiplicity(s, keep, x);
  }

  /** The filter leaves `s` as it is exactly when it keeps every element. */
  lemma {:induction false} FilterIdentity<T>(s: seq<T>, keep: T -> bool)
    ensures Filter(s, keep) == s <==> forall i :: 0 <= i < |s| ==> keep(s[i])
  {
    if s != [] {
      FilterIdentity(s[1..], keep);
      if !keep(s[0]) {
        assert |Filter(s, keep)| < |s|;
      }
    }
  }

  /** Filtering a second time with the same predicate changes nothing. */
  lemma {:induction false} FilterIdempotent<T>(s: seq<T>, keep: T -> bool)
    ensures Filter(Filter(s, keep), keep) == Filter(s, keep)
  {
    FilterIdentity(Filter(s, keep), keep);
  }
}
