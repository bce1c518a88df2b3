/** In-place sorting, as `sort.Slice` and `sort.Sort` do it. Go's sorts are not
    stable, so the specification is only "ordered and a permutation". */
module Sorting {
  import opened Common

  /** `le` is a total preorder: every two values compare, and it is transitive. */
  ghost predicate TotalPreorder<T(!new)>(le: (T, T) -> bool)
  {
    && (forall x, y :: le(x, y) || le(y, x))
    && (forall x, y, z :: le(x, y) && le(y, z) ==> le(x, z))
  }

  /** Every element is `le` every later one. */
  ghost predicate SortedBy<T>(s: seq<T>, le: (T, T) -> bool)
  {
    forall p, q :: 0 <= p < q < |s| ==> le(s[p], s[q])
  }

  /** Insertion sort: afterwards `a` is ordered by `le` and holds the same elements. */
  method SortBy<T(!new)>(a: array<T>, le: (T, T) -> bool)
    requires TotalPreorder(le)
    modifies a
    ensures SortedBy(a[..], le)
    ensures multiset(a[..]) == multiset(old(a[..]))
  {
    var i := 0;
    while i < a.Length
      invariant 0 <= i <= a.Length
      invariant forall p, q :: 0 <= p < q < i ==> le(a[p], a[q])
      invariant multiset(a[..]) == multiset(old(a[..]))
    {
      var j := i;
      while j > 0 && !le(a[j - 1], a[j])
        invariant 0 <= j <= i
        invariant forall p, q :: 0 <= p < q <= i && p != j && q != j ==> le(a[p], a[q])
        invariant forall q :: j < q <= i ==> le(a[j], a[q])
        invariant multiset(a[..]) == multiset(old(a[..]))
      {
        a[j - 1], a[j] := a[j], a[j - 1];
        j := j - 1;
      }
      i := i + 1;
    }
  }

  lemma {:induction false} DistinctCountsAtMostOne<T>(s: seq<T>, x: T)
    requires Distinct(s)
    ensures multiset(s)[x] <= 1
  {
    if s != [] {
      var init := s[..|s| - 1];
      assert s == init + [s[|s| - 1]];
      DistinctCountsAtMostOne(init, x);
      if x == s[|s| - 1] {
        assert x !in init;
      }
    }
  }

  lemma RepeatCountsTwice<T>(t: seq<T>, p: int, q: int)
    requires 0 <= p < q < |t| && t[p] == t[q]
    ensures multiset(t)[t[p]] >= 2
  {
    assert t == t[..q] + [t[q]] + t[q + 1..];
    assert t[..q][p] == t[p];
  }

  /** Rearranging a list without repetitions leaves it without repetitions. */
  lemma PermutationKeepsDistinct<T>(s: seq<T>, t: seq<T>)
    requires multiset(s) == multiset(t) && Distinct(s)
    ensures Distinct(t)
  {
    forall p, q | 0 <= p < q < |t| ensures t[p] != t[q] {
      DistinctCountsAtMostOne(s, t[p]);
      if t[p] == t[q] {
        RepeatCountsTwice(t, p, q);
      }
    }
  }
}
