/** Sorting as the Go standard library offers it: sort.SliceStable is a function
    (its result is unique), sort.Slice and sort.Float64s only promise an ordered
    permutation. */
module Sorting {

  ghost predicate TotalPreorder<T(!new)>(leq: (T, T) -> bool) {
    && (forall x, y :: leq(x, y) || leq(y, x))
    && (forall x, y, z :: leq(x, y) && leq(y, z) ==> leq(x, z))
  }

  ghost predicate SortedBy<T>(s: seq<T>, leq: (T, T) -> bool) {
    forall i, j :: 0 <= i < j < |s| ==> leq(s[i], s[j])
  }

  /** Puts x behind the last element that is not after it. */
  function Insert<T>(s: seq<T>, x: T, leq: (T, T) -> bool): seq<T> {
    if s == [] || leq(s[|s| - 1], x) then s + [x]
    else Insert(s[..|s| - 1], x, leq) + [s[|s| - 1]]
  }

  function StableSort<T>(s: seq<T>, leq: (T, T) -> bool): seq<T> {
    if s == [] then [] else Insert(StableSort(s[..|s| - 1], leq), s[|s| - 1], leq)
  }

  /** The elements that are equivalent to x, in their order in s. */
  function Ties<T>(s: seq<T>, x: T, leq: (T, T) -> bool): seq<T> {
    if s == [] then []
    else
      var last := s[|s| - 1];
      Ties(s[..|s| - 1], x, leq) + if leq(last, x) && leq(x, last) then [last] else []
  }

  lemma {:induction false} InsertPermutes<T>(s: seq<T>, x: T, leq: (T, T) -> bool)
    ensures multiset(Insert(s, x, leq)) == multiset(s) + multiset{x}
  {
    if s == [] || leq(s[|s| - 1], x) {
    } else {
      InsertPermutes(s[..|s| - 1], x, leq);
      assert s == s[..|s| - 1] + [s[|s| - 1]];
    }
  }

  lemma {:induction false} InsertSorts<T(!new)>(s: seq<T>, x: T, leq: (T, T) -> bool)
    requires TotalPreorder(leq) && SortedBy(s, leq)
    ensures SortedBy(Insert(s, x, leq), leq)
  {
    if s == [] || leq(s[|s| - 1], x) {
      forall i | 0 <= i < |s| ensures leq(s[i], x) {
        assert leq(s[i], s[|s| - 1]);
      }
    } else {
      var front, last := s[..|s| - 1], s[|s| - 1];
      InsertSorts(front, x, leq);
      InsertPermutes(front, x, leq);
      var r := Insert(front, x, leq);
      forall i | 0 <= i < |r| ensures leq(r[i], last) {
        assert r[i] in multiset(front) + multiset{x};
      }
    }
  }

  /** sort.SliceStable returns an ordered permutation of its input ... */
  lemma {:induction false} StableSortSorts<T(!new)>(s: seq<T>, leq: (T, T) -> bool)
    requires TotalPreorder(leq)
    ensures SortedBy(StableSort(s, leq), leq)
    ensures multiset(StableSort(s, leq)) == multiset(s)
    ensures |StableSort(s, leq)| == |s|
  {
    if s == [] {
    } else {
      var front, last := s[..|s| - 1], s[|s| - 1];
      assert s == front + [last];
      StableSortSorts(front, leq);
      InsertSorts(StableSort(front, leq), last, leq);
      InsertPermutes(StableSort(front, leq), last, leq);
    }
    assert |multiset(StableSort(s, leq))| == |multiset(s)|;
  }

  lemma {:induction false} InsertKeepsTies<T(!new)>(s: seq<T>, x: T, y: T, leq: (T, T) -> bool)
    requires TotalPreorder(leq) && SortedBy(s, leq)
    ensures Ties(Insert(s, x, leq), y, leq) == Ties(s + [x], y, leq)
  {
    assert (s + [x])[..|s|] == s;
    if s == [] || leq(s[|s| - 1], x) {
    } else {
      var front, last := s[..|s| - 1], s[|s| - 1];
      InsertKeepsTies(front, x, y, leq);
      assert (front + [x])[..|front|] == front;
      var r := Insert(front, x, leq);
      assert (r + [last])[..|r|] == r;
    }
  }

  /** ... that leaves equivalent elements in their original order. */
  lemma {:induction false} StableSortKeepsTies<T(!new)>(s: seq<T>, y: T, leq: (T, T) -> bool)
    requires TotalPreorder(leq)
    ensures Ties(StableSort(s, leq), y, leq) == Ties(s, y, leq)
  {
    if s == [] {
    } else {
      var front, last := s[..|s| - 1], s[|s| - 1];
      StableSortSorts(front, leq);
      StableSortKeepsTies(front, y, leq);
      var r := StableSort(front, leq);
      InsertKeepsTies(r, last, y, leq);
      assert (r + [last])[..|r|] == r;
    }
  }

  lemma {:induction false} SortedIsFixed<T(!new)>(s: seq<T>, leq: (T, T) -> bool)
    requires SortedBy(s, leq)
    ensures StableSort(s, leq) == s
  {
    if |s| > 1 {
      SortedIsFixed(s[..|s| - 1], leq);
      assert leq(s[|s| - 2], s[|s| - 1]);
    }
  }

  lemma {:induction false} InsertKeepsPrefix<T>(s: seq<T>, r: seq<T>, x: T, leq: (T, T) -> bool)
    requires s <= r
    requires forall y :: y in s ==> leq(y, x)
    ensures s <= Insert(r, x, leq)
  {
    if r == [] || leq(r[|r| - 1], x) {
    } else {
      assert r[|r| - 1] !in s;
      assert |s| < |r|;
      InsertKeepsPrefix(s, r[..|r| - 1], x, leq);
    }
  }

  /** Elements that follow an ordered prefix and are not before any element of
      it leave that prefix where it is. */
  lemma {:induction false} SortKeepsOrderedPrefix<T(!new)>(s: seq<T>, low: seq<T>, leq: (T, T) -> bool)
    requires SortedBy(s, leq)
    requires forall x, y :: x in s && y in low ==> leq(x, y)
    ensures s <= StableSort(s + low, leq)
  {
    if low == [] {
      assert s + low == s;
      SortedIsFixed(s, leq);
    } else {
      var front, last := low[..|low| - 1], low[|low| - 1];
      SortKeepsOrderedPrefix(s, front, leq);
      assert (s + low)[..|s + low| - 1] == s + front;
      InsertKeepsPrefix(s, StableSort(s + front, leq), last, leq);
    }
  }

  /** sort.Slice: callers learn no more than that the result is an ordered
      permutation, so nothing proved of them depends on the order of ties. */
  method SortSlice<T(!new)>(s: seq<T>, leq: (T, T) -> bool) returns (r: seq<T>)
    requires TotalPreorder(leq)
    ensures SortedBy(r, leq)
    ensures multiset(r) == multiset(s) && |r| == |s|
  {
    r := StableSort(s, leq);
    StableSortSorts(s, leq);
  }
}
