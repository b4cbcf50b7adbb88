/** Choosing the cheapest hours from a list of hourly prices. */
module Nordpool {
  import opened Sorting

  predicate NoDearer(a: real, b: real) {
    a <= b
  }

  method OrderHoursAscending(hours: seq<real>) returns (ordered: seq<real>)
    ensures SortedBy(ordered, NoDearer)
    ensures multiset(ordered) == multiset(hours) && |ordered| == |hours|
  {
    ordered := SortSlice(hours, NoDearer);
  }

  // ---------- windows of consecutive hours ----------

  /** The window of n hours from start has no price above the limit. */
  predicate WindowWithin(hours: seq<real>, n: int, limit: real, start: int) {
    0 <= start <= start + n <= |hours| && forall k :: start <= k < start + n ==> hours[k] <= limit
  }

  /** Blocks taken greedily from an hour on: the earliest window that fits, then
      the earliest after its end, and so on. */
  function Greedy(hours: seq<real>, n: int, limit: real, from: nat): seq<int>
    requires n > 0 && from <= |hours|
    decreases |hours| - from
  {
    if from + n > |hours| then []
    else if WindowWithin(hours, n, limit, from) then [from] + Greedy(hours, n, limit, from + n)
    else Greedy(hours, n, limit, from + 1)
  }

  ghost predicate InOrder(hours: seq<real>, n: int, limit: real, from: nat, starts: seq<int>) {
    && (forall i :: 0 <= i < |starts| ==> from <= starts[i] && WindowWithin(hours, n, limit, starts[i]))
    && (forall i, j :: 0 <= i < j < |starts| ==> starts[i] + n <= starts[j])
  }

  lemma InOrderThen(hours: seq<real>, n: int, limit: real, from: nat, rest: seq<int>)
    requires n > 0 && WindowWithin(hours, n, limit, from) && InOrder(hours, n, limit, from + n, rest)
    ensures InOrder(hours, n, limit, from, [from] + rest)
  {
    var g := [from] + rest;
    assert forall i :: 0 < i < |g| ==> g[i] == rest[i - 1];
  }

  lemma {:induction false} GreedyBlocks(hours: seq<real>, n: int, limit: real, from: nat)
    requires n > 0 && from <= |hours|
    ensures InOrder(hours, n, limit, from, Greedy(hours, n, limit, from))
    decreases |hours| - from
  {
    if from + n > |hours| {
    } else if WindowWithin(hours, n, limit, from) {
      GreedyBlocks(hours, n, limit, from + n);
      InOrderThen(hours, n, limit, from, Greedy(hours, n, limit, from + n));
    } else {
      GreedyBlocks(hours, n, limit, from + 1);
    }
  }

  /** A set of blocks of n hours that do not overlap, all within the limit. */
  ghost predicate Blocks(hours: seq<real>, n: int, limit: real, starts: set<int>) {
    && (forall s :: s in starts ==> WindowWithin(hours, n, limit, s))
    && (forall s, t :: s in starts && t in starts && s < t ==> s + n <= t)
  }

  /** No set of blocks that starts at or after an hour outnumbers the greedy
      ones. */
  lemma {:induction false} GreedyIsMost(hours: seq<real>, n: int, limit: real, from: nat, starts: set<int>)
    requires n > 0 && from <= |hours|
    requires Blocks(hours, n, limit, starts) && forall s :: s in starts ==> from <= s
    ensures |starts| <= |Greedy(hours, n, limit, from)|
    decreases |hours| - from
  {
    if from + n > |hours| {
      forall s ensures s !in starts {
        assert s in starts ==> WindowWithin(hours, n, limit, s);
      }
      assert starts == {};
    } else if WindowWithin(hours, n, limit, from) {
      var later := set s | s in starts && s >= from + n;
      GreedyIsMost(hours, n, limit, from + n, later);
      OneEarlyBlock(hours, n, limit, from, starts, later);
    } else {
      forall s | s in starts ensures from + 1 <= s {
        assert WindowWithin(hours, n, limit, s);
      }
      GreedyIsMost(hours, n, limit, from + 1, starts);
    }
  }

  /** At most one block starts among the first n hours. */
  lemma OneEarlyBlock(hours: seq<real>, n: int, limit: real, from: nat, starts: set<int>, later: set<int>)
    requires Blocks(hours, n, limit, starts) && forall s :: s in starts ==> from <= s
    requires later == set s | s in starts && s >= from + n
    ensures |starts| <= |later| + 1
  {
    if exists s :: s in starts && s < from + n {
      var first :| first in starts && first < from + n;
      forall s | s in starts ensures s in later + {first} {
        assert s < first ==> s + n <= first;
        assert first < s ==> first + n <= s;
      }
      assert starts <= later + {first};
      FewerThan(starts, later + {first});
    } else {
      assert starts == later;
    }
  }

  lemma FewerThan(a: set<int>, b: set<int>)
    requires a <= b
    ensures |a| <= |b|
  {
    assert b == a + (b - a);
  }

  /** With the hour j above the limit, no window that reaches it fits. */
  lemma {:induction false} GreedySkips(hours: seq<real>, n: int, limit: real, from: nat, j: nat)
    requires n > 0 && from <= j < |hours| && j < from + n && hours[j] > limit
    ensures Greedy(hours, n, limit, from) == Greedy(hours, n, limit, j + 1)
    decreases j - from
  {
    if from + n > |hours| {
      NoRoom(hours, n, limit, j + 1);
    } else {
      assert !WindowWithin(hours, n, limit, from);
      if from < j { GreedySkips(hours, n, limit, from + 1, j); }
    }
  }

  lemma NoRoom(hours: seq<real>, n: int, limit: real, from: nat)
    requires n > 0 && from <= |hours| < from + n
    ensures Greedy(hours, n, limit, from) == []
  {
  }

  // ---------- the rising threshold ----------

  datatype SequentialHours = SequentialHours(startIndex: int, limit: real)

  function Tagged(starts: seq<int>, limit: real): seq<SequentialHours> {
    seq(|starts|, i requires 0 <= i < |starts| => SequentialHours(starts[i], limit))
  }

  /** The blocks completed before hour j, with a run of so many hours within the
      limit still open. */
  ghost predicate Scanned(hours: seq<real>, n: int, limit: real, j: nat, run: nat, all: seq<SequentialHours>) {
    && run < n && run <= j <= |hours|
    && (forall k :: j - run <= k < j ==> hours[k] <= limit)
    && Tagged(Greedy(hours, n, limit, 0), limit) == all + Tagged(Greedy(hours, n, limit, j - run), limit)
  }

  lemma ScanBreaks(hours: seq<real>, n: int, limit: real, j: nat, run: nat, all: seq<SequentialHours>)
    requires Scanned(hours, n, limit, j, run, all) && j < |hours| && hours[j] > limit
    ensures Scanned(hours, n, limit, j + 1, 0, all)
  {
    GreedySkips(hours, n, limit, j - run, j);
  }

  lemma ScanGrows(hours: seq<real>, n: int, limit: real, j: nat, run: nat, all: seq<SequentialHours>)
    requires Scanned(hours, n, limit, j, run, all) && j < |hours| && hours[j] <= limit
    ensures if run + 1 < n then Scanned(hours, n, limit, j + 1, run + 1, all)
            else Scanned(hours, n, limit, j + 1, 0, all + [SequentialHours(j - run, limit)])
  {
    if run + 1 == n {
      GreedyTakes(hours, n, limit, j - run);
    }
  }

  /** One pass over the hours: runs of hours within the limit are cut into
      blocks of n. With n below two no block is ever completed. */
  method BlocksWithin(hours: seq<real>, n: int, limit: real) returns (all: seq<SequentialHours>)
    ensures all == if n < 2 then [] else Tagged(Greedy(hours, n, limit, 0), limit)
  {
    hide Scanned;
    all := [];
    var found := SequentialHours(0, 0.0);
    var seqHours: seq<real> := [];
    if n >= 2 { ScanStarts(hours, n, limit); }
    for j := 0 to |hours|
      invariant n < 2 ==> all == []
      invariant n >= 2 ==> |seqHours| < n && Scanned(hours, n, limit, j, |seqHours|, all)
      invariant n >= 2 && seqHours != [] ==> found == SequentialHours(j - |seqHours|, limit)
    {
      var h := hours[j];
      if h > limit {
        if n >= 2 { ScanBreaks(hours, n, limit, j, |seqHours|, all); }
        found := SequentialHours(0, 0.0);
        seqHours := [];
        continue;
      }
      if n >= 2 { ScanGrows(hours, n, limit, j, |seqHours|, all); }
      seqHours := seqHours + [h];
      if |seqHours| == 1 {
        found := SequentialHours(j, limit);
      } else if |seqHours| == n {
        all := all + [found];
        found := SequentialHours(0, 0.0);
        seqHours := [];
      }
    }
    if n >= 2 { ScanEnds(hours, n, limit, |seqHours|, all); }
  }

  lemma ScanStarts(hours: seq<real>, n: int, limit: real)
    requires n >= 2
    ensures Scanned(hours, n, limit, 0, 0, [])
  {
  }

  lemma ScanEnds(hours: seq<real>, n: int, limit: real, run: nat, all: seq<SequentialHours>)
    requires Scanned(hours, n, limit, |hours|, run, all)
    ensures all == Tagged(Greedy(hours, n, limit, 0), limit)
  {
    NoRoom(hours, n, limit, |hours| - run);
  }

  lemma GreedyTakes(hours: seq<real>, n: int, limit: real, from: nat)
    requires n > 0 && from + n <= |hours| && WindowWithin(hours, n, limit, from)
    ensures Tagged(Greedy(hours, n, limit, from), limit) ==
            [SequentialHours(from, limit)] + Tagged(Greedy(hours, n, limit, from + n), limit)
  {
  }

  /** The largest price of a window. */
  function WindowMax(hours: seq<real>, start: nat, n: nat): real
    requires 0 < n && start + n <= |hours|
    decreases n
  {
    if n == 1 then hours[start]
    else
      var rest := WindowMax(hours, start + 1, n - 1);
      if hours[start] > rest then hours[start] else rest
  }

  lemma {:induction false} WindowMaxIs(hours: seq<real>, start: nat, n: nat)
    requires 0 < n && start + n <= |hours|
    ensures WindowMax(hours, start, n) in hours
    ensures forall limit :: WindowWithin(hours, n, limit, start) <==> WindowMax(hours, start, n) <= limit
    decreases n
  {
    if n > 1 {
      WindowMaxIs(hours, start + 1, n - 1);
      forall limit ensures WindowWithin(hours, n, limit, start) <==> WindowMax(hours, start, n) <= limit {
        assert WindowWithin(hours, n, limit, start) <==>
               hours[start] <= limit && WindowWithin(hours, n - 1, limit, start + 1);
      }
    } else {
      forall limit ensures WindowWithin(hours, n, limit, start) <==> WindowMax(hours, start, n) <= limit {
        assert WindowWithin(hours, n, limit, start) ==> hours[start] <= limit;
      }
    }
  }

  lemma GreedyFindsAny(hours: seq<real>, n: int, limit: real, start: int)
    requires n > 0 && WindowWithin(hours, n, limit, start)
    ensures Greedy(hours, n, limit, 0) != []
  {
    GreedyIsMost(hours, n, limit, 0, {start});
  }

  /** limit is the smallest possible largest price of n consecutive hours. */
  ghost predicate Minimax(hours: seq<real>, n: nat, limit: real)
    requires n > 0
  {
    && (exists s :: 0 <= s <= |hours| - n && WindowMax(hours, s, n) == limit)
    && forall s :: 0 <= s <= |hours| - n ==> WindowMax(hours, s, n) >= limit
  }

  /** All blocks carry the minimax limit; they are windows within it, in order
      and disjoint, and no other choice of disjoint windows within it has more. */
  ghost predicate OptimalBlocks(hours: seq<real>, n: nat, blocks: seq<SequentialHours>)
    requires n > 0
  {
    && blocks != []
    && var limit := blocks[0].limit;
       && Minimax(hours, n, limit)
       && (forall i :: 0 <= i < |blocks| ==>
             blocks[i].limit == limit && WindowWithin(hours, n, limit, blocks[i].startIndex))
       && (forall i, j :: 0 <= i < j < |blocks| ==> blocks[i].startIndex + n <= blocks[j].startIndex)
       && (forall starts :: Blocks(hours, n, limit, starts) ==> |starts| <= |blocks|)
  }

  /** Raises the threshold through the prices until some n consecutive hours lie
      within it. For n below two, or more hours than there are, the result is
      empty; otherwise it is optimal. */
  method FindCheapestElectricityHoursByIncLevel(hours: seq<real>, n: int) returns (all: seq<SequentialHours>)
    ensures all != [] <==> 2 <= n <= |hours|
    ensures 2 <= n <= |hours| ==> OptimalBlocks(hours, n, all)
  {
    all := [];
    var ascending := OrderHoursAscending(hours);
    for i := 0 to |ascending|
      invariant all == []
      invariant n >= 2 ==> forall k :: 0 <= k < i ==> Greedy(hours, n, ascending[k], 0) == []
    {
      var limit := ascending[i];
      all := BlocksWithin(hours, n, limit);
      if |all| > 0 {
        ThresholdIsMinimax(hours, n, ascending, i);
        FoundIsOptimal(hours, n, limit);
        return;
      }
      assert n >= 2 ==> |Greedy(hours, n, limit, 0)| == |all|;
    }
    if 2 <= n <= |hours| { SomeThresholdWorks(hours, n, ascending); }
  }

  lemma SomeThresholdWorks(hours: seq<real>, n: int, ascending: seq<real>)
    requires 0 < n <= |hours| && multiset(ascending) == multiset(hours)
    ensures exists k :: 0 <= k < |ascending| && Greedy(hours, n, ascending[k], 0) != []
  {
    var m := WindowMax(hours, 0, n);
    WindowMaxIs(hours, 0, n);
    GreedyFindsAny(hours, n, m, 0);
    assert m in multiset(ascending);
    var k :| 0 <= k < |ascending| && ascending[k] == m;
  }

  /** The first threshold that lets a window through is the minimax price. */
  lemma ThresholdIsMinimax(hours: seq<real>, n: int, ascending: seq<real>, i: nat)
    requires n >= 2 && i < |ascending|
    requires SortedBy(ascending, NoDearer) && multiset(ascending) == multiset(hours)
    requires forall k :: 0 <= k < i ==> Greedy(hours, n, ascending[k], 0) == []
    requires Greedy(hours, n, ascending[i], 0) != []
    ensures n <= |hours| && Minimax(hours, n, ascending[i])
  {
    var limit := ascending[i];
    GreedyBlocks(hours, n, limit, 0);
    var first := Greedy(hours, n, limit, 0)[0];
    assert WindowWithin(hours, n, limit, first);
    forall s | 0 <= s <= |hours| - n ensures WindowMax(hours, s, n) >= limit {
      var m := WindowMax(hours, s, n);
      WindowMaxIs(hours, s, n);
      assert m in multiset(ascending);
      var k :| 0 <= k < |ascending| && ascending[k] == m;
      assert i < k ==> NoDearer(ascending[i], ascending[k]);
      GreedyFindsAny(hours, n, m, s);
    }
    WindowMaxIs(hours, first, n);
    assert WindowMax(hours, first, n) == limit;
  }

  lemma FoundIsOptimal(hours: seq<real>, n: int, limit: real)
    requires 2 <= n <= |hours| && Minimax(hours, n, limit) && Greedy(hours, n, limit, 0) != []
    ensures OptimalBlocks(hours, n, Tagged(Greedy(hours, n, limit, 0), limit))
  {
    GreedyBlocks(hours, n, limit, 0);
    var g := Greedy(hours, n, limit, 0);
    forall starts | Blocks(hours, n, limit, starts) ensures |starts| <= |g| {
      GreedyIsMost(hours, n, limit, 0, starts);
    }
  }

  // ---------- all windows, cheapest first ----------

  datatype SequentialHoursAvg = SequentialHoursAvg(startIndex: int, averagePrice: real, totalPrice: real)

  /** The sum of the prices from one hour up to another. */
  function Total(hours: seq<real>, from: int, upTo: int): real
    requires 0 <= from <= upTo <= |hours|
    decreases upTo - from
  {
    if from == upTo then 0.0 else Total(hours, from, upTo - 1) + hours[upTo - 1]
  }

  /** Totals add up, hour by hour. */
  lemma {:induction false} TotalAdds(hours: seq<real>, from: int, middle: int, upTo: int)
    requires 0 <= from <= middle <= upTo <= |hours|
    ensures Total(hours, from, upTo) == Total(hours, from, middle) + Total(hours, middle, upTo)
    ensures Total(hours, from, from) == 0.0 && (from < |hours| ==> Total(hours, from, from + 1) == hours[from])
    decreases upTo - middle
  {
    if middle < upTo { TotalAdds(hours, from, middle, upTo - 1); }
  }

  method CalcTotal(hours: seq<real>) returns (total: real)
    ensures total == Total(hours, 0, |hours|)
  {
    total := 0.0;
    for i := 0 to |hours|
      invariant total == Total(hours, 0, i)
    {
      total := total + hours[i];
    }
  }

  method CalcAvg(hours: seq<real>) returns (avg: real)
    requires hours != []
    ensures avg == Total(hours, 0, |hours|) / |hours| as real
  {
    var total := CalcTotal(hours);
    avg := total / |hours| as real;
  }

  lemma {:induction false} TotalOfSlice(hours: seq<real>, from: int, upTo: int)
    requires 0 <= from <= upTo <= |hours|
    ensures Total(hours[from..upTo], 0, upTo - from) == Total(hours, from, upTo)
    decreases upTo - from
  {
    if from < upTo {
      TotalOfSlice(hours, from, upTo - 1);
      TotalOfPrefix(hours[from..upTo], upTo - from - 1);
      assert hours[from..upTo][..upTo - from - 1] == hours[from..upTo - 1];
    }
  }

  lemma {:induction false} TotalOfPrefix(hours: seq<real>, upTo: nat)
    requires upTo <= |hours|
    ensures Total(hours[..upTo], 0, upTo) == Total(hours, 0, upTo)
  {
    TotalsAgree(hours[..upTo], hours, upTo);
  }

  lemma {:induction false} TotalsAgree(a: seq<real>, b: seq<real>, upTo: nat)
    requires upTo <= |a| && upTo <= |b| && a[..upTo] == b[..upTo]
    ensures Total(a, 0, upTo) == Total(b, 0, upTo)
  {
    if upTo > 0 {
      assert a[..upTo - 1] == a[..upTo][..upTo - 1] == b[..upTo - 1];
      assert a[upTo - 1] == a[..upTo][upTo - 1] == b[upTo - 1];
      TotalsAgree(a, b, upTo - 1);
    }
  }

  /** The window of n hours from start, with its total and its average. */
  function Window(hours: seq<real>, n: int, start: int): SequentialHoursAvg
    requires 0 < n && 0 <= start && start + n <= |hours|
  {
    var total := Total(hours, start, start + n);
    SequentialHoursAvg(start, total / n as real, total)
  }

  /** The windows that start at from, ..., stop - 1. */
  function Windows(hours: seq<real>, n: int, from: int, stop: int): seq<SequentialHoursAvg>
    requires 0 < n && (from < stop ==> 0 <= from && stop - 1 + n <= |hours|)
  {
    if stop <= from then []
    else seq(stop - from, i requires 0 <= i < stop - from => Window(hours, n, from + i))
  }

  predicate NoMoreInTotal(a: SequentialHoursAvg, b: SequentialHoursAvg) {
    a.totalPrice <= b.totalPrice
  }

  /** How many windows of n hours there are from one hour up to another. */
  function WindowCount(n: int, from: int, upTo: int): nat {
    if n <= 0 || upTo - from < n then 0 else upTo - from - n + 1
  }

  /** Collects the hours from i on until there are n of them or none are left. */
  method CollectHours(hours: seq<real>, n: int, i: int, upTo: int) returns (seqHours: seq<real>)
    requires 0 <= i < upTo <= |hours|
    ensures seqHours == if 0 < n <= upTo - i then hours[i..i + n] else hours[i..upTo]
  {
    seqHours := [];
    for j := i to upTo
      invariant seqHours == hours[i..j]
      invariant n > 0 ==> j - i < n
    {
      seqHours := seqHours + [hours[j]];
      if |seqHours| == n {
        break;
      }
    }
  }

  /** Every window of n hours inside [from, upTo), each once, cheapest first. */
  method FindCheapestElectricityHours(hours: seq<real>, n: int, from: int, upTo: int)
    returns (weights: seq<SequentialHoursAvg>)
    requires from < upTo ==> 0 <= from && upTo <= |hours|
    ensures SortedBy(weights, NoMoreInTotal)
    ensures if n <= 0 then weights == []
            else multiset(weights) == multiset(Windows(hours, n, from, from + WindowCount(n, from, upTo)))
    ensures |weights| == WindowCount(n, from, upTo)
  {
    weights := [];
    ghost var stop := from + WindowCount(n, from, upTo);
    var i := from;
    while i < upTo
      invariant from <= i && (from < upTo ==> i <= upTo)
      invariant n <= 0 ==> weights == []
      invariant n > 0 ==> i <= stop && weights == Windows(hours, n, from, i)
    {
      var seqHours := CollectHours(hours, n, i, upTo);
      if |seqHours| == n {
        var average := CalcAvg(seqHours);
        var total := CalcTotal(seqHours);
        TotalOfSlice(hours, i, i + n);
        assert n > 0 ==> SequentialHoursAvg(i, average, total) == Window(hours, n, i);
        weights := weights + [SequentialHoursAvg(i, average, total)];
      }
      if |seqHours| < n {
        break;
      }
      i := i + 1;
    }
    assert n > 0 ==> weights == Windows(hours, n, from, stop);
    weights := SortSlice(weights, NoMoreInTotal);
  }

  /** weights lists the windows of n hours inside [from, upTo) by total. */
  ghost predicate CheapestFirst(hours: seq<real>, n: int, from: int, upTo: int, weights: seq<SequentialHoursAvg>) {
    && 0 < n && (from < upTo ==> 0 <= from && upTo <= |hours|)
    && SortedBy(weights, NoMoreInTotal)
    && multiset(weights) == multiset(Windows(hours, n, from, from + WindowCount(n, from, upTo)))
  }

  lemma WindowListed(hours: seq<real>, n: int, from: int, upTo: int, weights: seq<SequentialHoursAvg>, start: int)
    requires CheapestFirst(hours, n, from, upTo, weights) && from <= start && start + n <= upTo
    ensures Window(hours, n, start) in weights
    ensures weights[0].totalPrice <= Window(hours, n, start).totalPrice
  {
    var all := Windows(hours, n, from, from + WindowCount(n, from, upTo));
    var w := Window(hours, n, start);
    assert all[start - from] == w;
    assert w in multiset(weights);
    var k :| 0 <= k < |weights| && weights[k] == w;
    assert k > 0 ==> NoMoreInTotal(weights[0], weights[k]);
  }

  lemma OnlyWindowsListed(hours: seq<real>, n: int, from: int, upTo: int, weights: seq<SequentialHoursAvg>, i: nat)
    requires CheapestFirst(hours, n, from, upTo, weights) && i < |weights|
    ensures from <= weights[i].startIndex && weights[i].startIndex + n <= upTo
    ensures weights[i] == Window(hours, n, weights[i].startIndex)
  {
    var all := Windows(hours, n, from, from + WindowCount(n, from, upTo));
    assert weights[i] in multiset(all);
    var k :| 0 <= k < |all| && all[k] == weights[i];
    assert all[k] == Window(hours, n, from + k);
  }

  lemma AllWindowsListed(hours: seq<real>, n: int, from: int, upTo: int, weights: seq<SequentialHoursAvg>)
    requires CheapestFirst(hours, n, from, upTo, weights)
    ensures forall start :: from <= start && start + n <= upTo ==>
              Window(hours, n, start) in weights && weights[0].totalPrice <= Window(hours, n, start).totalPrice
  {
    forall start | from <= start && start + n <= upTo
      ensures Window(hours, n, start) in weights && weights[0].totalPrice <= Window(hours, n, start).totalPrice
    {
      hide *;
      WindowListed(hours, n, from, upTo, weights, start);
    }
  }

  lemma AllListedAreWindows(hours: seq<real>, n: int, from: int, upTo: int, weights: seq<SequentialHoursAvg>)
    requires CheapestFirst(hours, n, from, upTo, weights)
    ensures forall i :: 0 <= i < |weights| ==>
              && from <= weights[i].startIndex && weights[i].startIndex + n <= upTo
              && weights[i] == Window(hours, n, weights[i].startIndex)
              && weights[i].averagePrice * n as real == weights[i].totalPrice
              && weights[i].totalPrice == Total(hours, weights[i].startIndex, weights[i].startIndex + n)
  {
    forall i | 0 <= i < |weights|
      ensures from <= weights[i].startIndex && weights[i].startIndex + n <= upTo
      ensures weights[i] == Window(hours, n, weights[i].startIndex)
      ensures weights[i].averagePrice * n as real == weights[i].totalPrice
    {
      OnlyWindowsListed(hours, n, from, upTo, weights, i);
      AverageIs(hours, n, weights[i].startIndex);
    }
  }

  lemma AverageIs(hours: seq<real>, n: int, start: int)
    requires 0 < n && 0 <= start && start + n <= |hours|
    ensures Window(hours, n, start).averagePrice * n as real == Window(hours, n, start).totalPrice
  {
  }

  lemma PairOrdered(hours: seq<real>, n: int, from: int, upTo: int, weights: seq<SequentialHoursAvg>, i: nat, j: nat)
    requires CheapestFirst(hours, n, from, upTo, weights) && i < j < |weights|
    ensures weights[i].startIndex != weights[j].startIndex
    ensures weights[i].totalPrice <= weights[j].totalPrice && weights[i].averagePrice <= weights[j].averagePrice
  {
    var all := Windows(hours, n, from, from + WindowCount(n, from, upTo));
    assert NoMoreInTotal(weights[i], weights[j]);
    OnlyWindowsListed(hours, n, from, upTo, weights, i);
    OnlyWindowsListed(hours, n, from, upTo, weights, j);
    DividedInOrder(weights[i].totalPrice, weights[j].totalPrice, n);
    forall k | 0 <= k < |all| ensures all[k].startIndex == from + k {
      assert all[k] == Window(hours, n, from + k);
    }
    StartsOnce(weights, all, i, j);
  }

  lemma DividedInOrder(a: real, b: real, n: int)
    requires a <= b && n > 0
    ensures a / n as real <= b / n as real
  {
  }

  lemma StartsOnce(a: seq<SequentialHoursAvg>, b: seq<SequentialHoursAvg>, i: nat, j: nat)
    requires multiset(a) == multiset(b) && i < j < |a|
    requires forall k, l :: 0 <= k < l < |b| ==> b[k].startIndex != b[l].startIndex
    ensures a[i].startIndex != a[j].startIndex
  {
    assert a[i] in multiset(b) && a[j] in multiset(b);
    if a[i] == a[j] {
      assert a == a[..j] + [a[j]] + a[j + 1..];
      assert a[i] in a[..j];
      assert multiset(b)[a[i]] >= 2;
      OnlyOnce(b, a[i]);
    }
  }

  lemma {:induction false} OnlyOnce(b: seq<SequentialHoursAvg>, x: SequentialHoursAvg)
    requires forall k, l :: 0 <= k < l < |b| ==> b[k].startIndex != b[l].startIndex
    ensures multiset(b)[x] <= 1
  {
    if b != [] {
      var front := b[..|b| - 1];
      OnlyOnce(front, x);
      assert b == front + [b[|b| - 1]];
    }
  }

  /** Each window inside [from, upTo) is listed exactly once, with its own total
      and average; averages rise with totals, so the head is cheapest in both. */
  lemma ListIsCompleteAndOrdered(hours: seq<real>, n: int, from: int, upTo: int, weights: seq<SequentialHoursAvg>)
    requires CheapestFirst(hours, n, from, upTo, weights)
    ensures forall start :: from <= start && start + n <= upTo ==>
              Window(hours, n, start) in weights && weights[0].totalPrice <= Window(hours, n, start).totalPrice
    ensures forall i :: 0 <= i < |weights| ==>
              && from <= weights[i].startIndex && weights[i].startIndex + n <= upTo
              && weights[i] == Window(hours, n, weights[i].startIndex)
              && weights[i].averagePrice * n as real == weights[i].totalPrice
              && weights[i].totalPrice == Total(hours, weights[i].startIndex, weights[i].startIndex + n)
    ensures forall i, j :: 0 <= i < j < |weights| ==>
              && weights[i].startIndex != weights[j].startIndex
              && weights[i].totalPrice <= weights[j].totalPrice
              && weights[i].averagePrice <= weights[j].averagePrice
  {
    hide *;
    AllWindowsListed(hours, n, from, upTo, weights);
    AllListedAreWindows(hours, n, from, upTo, weights);
    forall i, j | 0 <= i < j < |weights|
      ensures weights[i].startIndex != weights[j].startIndex
      ensures weights[i].totalPrice <= weights[j].totalPrice && weights[i].averagePrice <= weights[j].averagePrice
    {
      PairOrdered(hours, n, from, upTo, weights, i, j);
    }
  }
}
