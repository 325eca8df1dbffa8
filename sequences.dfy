/**
 * Order-preserving selection from a sequence, the shape of Python's
 * `[x for x in xs if keep(x)]` and `"".join(c for c in s if keep(c))`.
 */
module Sequences {

  /** `a` can be obtained from `b` by deleting elements, keeping the order. */
  predicate IsSubsequence<T(==)>(a: seq<T>, b: seq<T>)
    decreases |b|
  {
    if a == [] then true
    else if b == [] then false
    else if a[|a| - 1] == b[|b| - 1] then IsSubsequence(a[..|a| - 1], b[..|b| - 1])
    else IsSubsequence(a, b[..|b| - 1])
  }

  /**
   * The elements of `s` that satisfy `keep`, in their original order:
   * every element kept satisfies `keep`, and every element that satisfies
   * `keep` is kept as often as it occurs.
   */
  function Filter<T(==,!new)>(s: seq<T>, keep: T -> bool): (r: seq<T>)
    ensures forall k :: 0 <= k < |r| ==> keep(r[k])
    ensures IsSubsequence(r, s)
    ensures forall x :: keep(x) ==> multiset(r)[x] == multiset(s)[x]
    decreases |s|
  {
    if s == [] then []
    else
      var init, last := s[..|s| - 1], s[|s| - 1];
      assert s == init + [last];
      var r0 := Filter(init, keep);
      if keep(last) then
        var r := r0 + [last];
        assert r[..|r| - 1] == r0;
        r
      else r0
  }

  /** A sequence whose elements all satisfy `keep` is its own filtering. */
  lemma {:induction false} FilterAllKept<T(!new)>(s: seq<T>, keep: T -> bool)
    requires forall k :: 0 <= k < |s| ==> keep(s[k])
    ensures Filter(s, keep) == s
    decreases |s|
  {
    if s != [] {
      var init, last := s[..|s| - 1], s[|s| - 1];
      assert forall k :: 0 <= k < |init| ==> keep(init[k]);
      FilterAllKept(init, keep);
      assert keep(last);
      calc {
        Filter(s, keep);
        Filter(init, keep) + [last];
        init + [last];
        s;
      }
    }
  }
}
