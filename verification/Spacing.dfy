/** Points in time that keep a minimum distance, and how many fit in a window. */
module Spacing {

  ghost predicate Spaced(times: seq<int>, gap: int) {
    forall i :: 0 < i < |times| ==> times[i] - times[i - 1] >= gap
  }

  lemma {:induction false} SpacedApart(times: seq<int>, gap: int, i: nat, j: nat)
    requires Spaced(times, gap) && i <= j < |times|
    ensures times[j] - times[i] >= gap * (j - i)
  {
    if i < j {
      SpacedApart(times, gap, i, j - 1);
      assert gap * (j - i) == gap * (j - 1 - i) + gap;
    }
  }

  /** The times are increasing, so a window of the given length holds the i-th to
      the j-th for some i and j: at most length / gap + 1 of them. */
  lemma SpacedCount(times: seq<int>, gap: int, length: nat, i: nat, j: nat)
    requires gap > 0 && Spaced(times, gap)
    requires i <= j < |times| && times[j] - times[i] <= length
    ensures j - i + 1 <= length / gap + 1
  {
    SpacedApart(times, gap, i, j);
    DivisionBounds(length, gap, j - i);
  }

  lemma DivisionBounds(length: nat, gap: int, n: int)
    requires gap > 0 && gap * n <= length
    ensures n <= length / gap
  {
    var k := length / gap;
    assert length == gap * k + length % gap;
    assert gap * (n - k) <= length % gap < gap;
    if n > k { MulAtLeast(gap, n - k); }
  }

  lemma MulAtLeast(n: int, x: int)
    requires n > 0 && x > 0
    ensures n * x >= n
  {
    assert n * x == n * (x - 1) + n && n * (x - 1) >= 0;
  }
}
