/** Generic facts about sequences used by the table operations. */
module Seqs {
  import opened Wrappers

  /** `a` can be obtained from `b` by deleting elements: order is kept. */
  predicate IsSubsequence<T(==)>(a: seq<T>, b: seq<T>)
    decreases |b|
  {
    a == [] || (b != [] && ((a[0] == b[0] && IsSubsequence(a[1..], b[1..])) || IsSubsequence(a, b[1..])))
  }

  predicate NoDuplicates<T(==)>(s: seq<T>) {
    forall i, j :: 0 <= i < j < |s| ==> s[i] != s[j]
  }

  /** The elements of `s` that satisfy `p`, in their order in `s`, as a boolean mask selects them. */
  function Keep<T(==, !new)>(s: seq<T>, p: T -> bool): (r: seq<T>)
    ensures forall x :: multiset(r)[x] == if p(x) then multiset(s)[x] else 0
    ensures IsSubsequence(r, s)
  {
    if s == [] then []
    else
      assert s == [s[0]] + s[1..];
      var rest := Keep(s[1..], p);
      if p(s[0]) then [s[0]] + rest else rest
  }

  /** Two predicates that agree on every element of `s` select the same rows. */
  lemma {:induction false} KeepCongruent<T(!new)>(s: seq<T>, p: T -> bool, q: T -> bool)
    requires forall i :: 0 <= i < |s| ==> p(s[i]) == q(s[i])
    ensures Keep(s, p) == Keep(s, q)
  {
    if s != [] {
      KeepCongruent(s[1..], p, q);
    }
  }

  /** The index of the first element satisfying `p`, if any. */
  function FirstWhere<T>(s: seq<T>, p: T -> bool): (r: Option<nat>)
    ensures r.Some? ==> r.value < |s| && p(s[r.value]) && forall j :: 0 <= j < r.value ==> !p(s[j])
    ensures r.None? ==> forall j :: 0 <= j < |s| ==> !p(s[j])
  {
    if s == [] then None
    else if p(s[0]) then Some(0)
    else match FirstWhere(s[1..], p)
      case None => None
      case Some(k) => Some(k + 1)
  }

  /** The index of the last element satisfying `p`, if any (pandas `.iloc[-1]` of a selection). */
  function LastWhere<T>(s: seq<T>, p: T -> bool): (r: Option<nat>)
    ensures r.Some? ==> r.value < |s| && p(s[r.value]) && forall j :: r.value < j < |s| ==> !p(s[j])
    ensures r.None? ==> forall j :: 0 <= j < |s| ==> !p(s[j])
  {
    if s == [] then None
    else if p(s[|s| - 1]) then Some(|s| - 1)
    else LastWhere(s[..|s| - 1], p)
  }

  /** Every element read with `f`, or None as soon as one cannot be read. */
  function ReadAll<A, B>(f: A -> Option<B>, s: seq<A>): (r: Option<seq<B>>)
    ensures r.Some? <==> forall k :: 0 <= k < |s| ==> f(s[k]).Some?
    ensures r.Some? ==> |r.value| == |s| && forall k :: 0 <= k < |s| ==> f(s[k]) == Some(r.value[k])
  {
    if s == [] then Some([])
    else
      assert forall k :: 0 < k < |s| ==> s[k] == s[1..][k - 1];
      match (f(s[0]), ReadAll(f, s[1..]))
      case (Some(x), Some(rest)) => Some([x] + rest)
      case _ => None
  }
}
