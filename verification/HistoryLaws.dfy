/** What the listening history keeps: the invariant of every merge, that merging
    twice is merging once, and that capping as one goes loses nothing. */
module HistoryLaws {
  import opened History
  import opened Sorting
  import opened Wrappers

  lemma AbsorbAllKeeps(h: seq<Context>, batch: seq<Context>)
    requires Distinct(h) && Named(h)
    ensures Distinct(AbsorbAll(h, batch)) && Named(AbsorbAll(h, batch)) && |h| <= |AbsorbAll(h, batch)|
    ensures forall uri :: uri != "" ==> Find(AbsorbAll(h, batch), uri) == Seen(Find(h, uri), batch, uri)
  {
    FindAbsorbAll(h, batch, "-");
    forall uri | uri != "" ensures Find(AbsorbAll(h, batch), uri) == Seen(Find(h, uri), batch, uri) {
      FindAbsorbAll(h, batch, uri);
    }
  }

  lemma SortKeeps(a: seq<Context>)
    requires Distinct(a) && Named(a)
    ensures var s := StableSort(a, NoOlder);
            && Distinct(s) && Named(s) && SortedBy(s, NoOlder) && |s| == |a|
            && (forall uri :: Find(s, uri) == Find(a, uri))
            && (forall c :: c in s <==> c in a)
  {
    StableSortSorts(a, NoOlder);
    PermutationKeeps(a, StableSort(a, NoOlder));
  }

  /** Skipping the sort and the cap when nothing changed makes no difference. */
  lemma MergedIsCappedSort(h: seq<Context>, batch: seq<Context>)
    requires ValidHistory(h)
    ensures Merged(h, batch) == Cap(StableSort(AbsorbAll(h, batch), NoOlder))
  {
    if !AnyChange(h, batch) {
      NoChange(h, batch);
      SortedIsFixed(h, NoOlder);
    }
  }

  lemma CapFind(s: seq<Context>, uri: string)
    requires Distinct(s) && SortedBy(s, NoOlder)
    ensures Find(Cap(s), uri).Some? ==> Find(Cap(s), uri) == Find(s, uri)
    ensures Find(Cap(s), uri).None? && Find(s, uri).Some? ==>
              |Cap(s)| == HISTORY_MAX && forall e :: e in Cap(s) ==> e.playedAt >= Find(s, uri).value.playedAt
  {
    if Find(Cap(s), uri).Some? {
      FindIs(s, Find(Cap(s), uri).value);
    } else if Find(s, uri).Some? {
      var i := IndexOf(s, uri);
      forall k | 0 <= k < |Cap(s)| ensures s[k].uri != uri { assert Cap(s)[k].uri != uri; }
      forall e | e in Cap(s) ensures e.playedAt >= s[i].playedAt {
        var k :| 0 <= k < |Cap(s)| && Cap(s)[k] == e;
        assert NoOlder(s[k], s[i]);
      }
    }
  }

  ghost predicate AllSince(m: seq<Context>, t: int) {
    forall e :: e in m ==> e.playedAt >= t
  }

  /** A uri that h or the batch knows is kept up to date in m, or was dropped
      from a full history in which nothing is older. */
  ghost predicate KeptOrDropped(h: seq<Context>, batch: seq<Context>, m: seq<Context>, uri: string) {
    match Seen(Find(h, uri), batch, uri)
    case None => Find(m, uri).None?
    case Some(e) =>
      || Find(m, uri) == Some(e)
      || (Find(m, uri).None? && |m| == HISTORY_MAX && AllSince(m, e.playedAt))
  }

  lemma MergeKeepsUri(h: seq<Context>, batch: seq<Context>, uri: string)
    requires ValidHistory(h) && uri != ""
    ensures KeptOrDropped(h, batch, Merged(h, batch), uri)
  {
    var a := AbsorbAll(h, batch);
    MergedIsCappedSort(h, batch);
    FindAbsorbAll(h, batch, uri);
    SortKeeps(a);
    CapFind(StableSort(a, NoOlder), uri);
  }

  lemma MergeKeepsValid(h: seq<Context>, batch: seq<Context>)
    requires ValidHistory(h)
    ensures ValidHistory(Merged(h, batch))
  {
    MergedIsCappedSort(h, batch);
    FindAbsorbAll(h, batch, "-");
    SortKeeps(AbsorbAll(h, batch));
  }

  /** A merge keeps the history distinct, named, newest first and at most 200
      long; every kept entry is up to date with the batch; and what was dropped
      was dropped from a full history in which nothing is older. */
  lemma MergeKeepsInvariant(h: seq<Context>, batch: seq<Context>)
    requires ValidHistory(h)
    ensures ValidHistory(Merged(h, batch))
    ensures forall uri :: uri != "" ==> KeptOrDropped(h, batch, Merged(h, batch), uri)
    ensures forall e :: e in Merged(h, batch) ==> UpToDate(Find(h, e.uri), batch, e.uri, e)
  {
    MergeKeepsValid(h, batch);
    forall uri | uri != "" ensures KeptOrDropped(h, batch, Merged(h, batch), uri) {
      MergeKeepsUri(h, batch, uri);
    }
    forall e | e in Merged(h, batch) ensures UpToDate(Find(h, e.uri), batch, e.uri, e) {
      FindIs(Merged(h, batch), e);
      MergeKeepsUri(h, batch, e.uri);
      SeenMeans(Find(h, e.uri), batch, e.uri);
    }
  }

  // ---------- merging the same batch again ----------

  lemma {:induction false} PositionsStay(h: seq<Context>, batch: seq<Context>)
    ensures |h| <= |AbsorbAll(h, batch)|
    ensures forall i :: 0 <= i < |h| ==> AbsorbAll(h, batch)[i].uri == h[i].uri
  {
    if batch != [] { PositionsStay(h, batch[..|batch| - 1]); }
  }

  lemma KeptStays(h: seq<Context>, batch: seq<Context>, i: nat)
    requires ValidHistory(h) && i < |Merged(h, batch)|
    ensures |Merged(h, batch)| <= |AbsorbAll(Merged(h, batch), batch)|
    ensures AbsorbAll(Merged(h, batch), batch)[i] == Merged(h, batch)[i]
  {
    var m := Merged(h, batch);
    var a := AbsorbAll(m, batch);
    MergeKeepsValid(h, batch);
    PositionsStay(m, batch);
    FindIs(m, m[i]);
    MergeKeepsUri(h, batch, m[i].uri);
    FindAbsorbAll(m, batch, m[i].uri);
    SeenAgain(Find(h, m[i].uri), batch, m[i].uri);
    FindIs(a, a[i]);
  }

  lemma ExtraIsOld(h: seq<Context>, batch: seq<Context>, j: nat)
    requires ValidHistory(h)
    requires |Merged(h, batch)| <= j < |AbsorbAll(Merged(h, batch), batch)|
    ensures |Merged(h, batch)| == HISTORY_MAX
    ensures AllSince(Merged(h, batch), AbsorbAll(Merged(h, batch), batch)[j].playedAt)
  {
    var m := Merged(h, batch);
    var a := AbsorbAll(m, batch);
    MergeKeepsValid(h, batch);
    FindAbsorbAll(m, batch, "-");
    var uri := a[j].uri;
    PositionsStay(m, batch);
    forall i | 0 <= i < |m| ensures m[i].uri != uri { assert a[i].uri != a[j].uri; }
    FindIs(a, a[j]);
    FindAbsorbAll(m, batch, uri);
    MergeKeepsUri(h, batch, uri);
    SeenMeans(Find(h, uri), batch, uri);
    SeenMeans(None, batch, uri);
  }

  /** The same batch again leaves what was kept in place, with what was dropped
      behind it. */
  lemma AbsorbedAgain(h: seq<Context>, batch: seq<Context>) returns (extras: seq<Context>)
    requires ValidHistory(h)
    ensures AbsorbAll(Merged(h, batch), batch) == Merged(h, batch) + extras
    ensures extras != [] ==> |Merged(h, batch)| == HISTORY_MAX
    ensures forall x, y :: x in Merged(h, batch) && y in extras ==> NoOlder(x, y)
  {
    hide Merged, AbsorbAll, ValidHistory;
    var m := Merged(h, batch);
    var a := AbsorbAll(m, batch);
    PositionsStay(m, batch);
    extras := a[|m|..];
    assert a == m + extras by {
      forall i | 0 <= i < |m| ensures a[i] == m[i] { KeptStays(h, batch, i); }
    }
    forall x, y | x in m && y in extras ensures NoOlder(x, y) {
      var j :| |m| <= j < |a| && a[j] == y;
      ExtraIsOld(h, batch, j);
    }
    if extras != [] { ExtraIsOld(h, batch, |m|); }
  }

  /** Merging the same batch again changes nothing, even when the cap dropped
      some of its contexts the first time. */
  lemma MergeIsIdempotent(h: seq<Context>, batch: seq<Context>)
    requires ValidHistory(h)
    ensures Merged(Merged(h, batch), batch) == Merged(h, batch)
  {
    hide Merged, AbsorbAll, StableSort;
    var m := Merged(h, batch);
    var extras := AbsorbedAgain(h, batch);
    MergeKeepsValid(h, batch);
    SortKeepsOrderedPrefix(m, extras, NoOlder);
    MergedIsCappedSort(m, batch);
    StableSortSorts(m + extras, NoOlder);
  }

  // ---------- capping as one goes ----------

  /** Two batches that report the same latest play of every uri. */
  ghost predicate SameTimes(a: seq<Context>, b: seq<Context>) {
    forall uri :: uri != "" ==> LatestPlay(a, uri) == LatestPlay(b, uri)
  }

  function LatestPlay(batch: seq<Context>, uri: string): Option<int> {
    match Seen(None, batch, uri)
    case None => None
    case Some(e) => Some(e.playedAt)
  }

  /** The capped history c says of one uri what the uncapped history u says, or
      is full of contexts that were all played no earlier. */
  ghost predicate AgreesOn(c: seq<Context>, u: seq<Context>, uri: string) {
    match Find(u, uri)
    case None => Find(c, uri).None?
    case Some(e) =>
      || (Find(c, uri).Some? && Find(c, uri).value.playedAt == e.playedAt)
      || (Find(c, uri).None? && |c| == HISTORY_MAX && AllSince(c, e.playedAt))
  }

  ghost predicate Follows(c: seq<Context>, u: seq<Context>) {
    && ValidHistory(c) && Distinct(u) && Named(u)
    && forall uri :: uri != "" ==> AgreesOn(c, u, uri)
  }

  lemma StaysRecent(c: seq<Context>, batch: seq<Context>, e: Context)
    requires Distinct(c) && Named(c) && e in c
    ensures var later := Find(AbsorbAll(c, batch), e.uri); later.Some? && later.value.playedAt >= e.playedAt
  {
    FindIs(c, e);
    FindAbsorbAll(c, batch, e.uri);
    SeenLater(Some(e), batch, e.uri);
  }

  /** A full history that was all played since t stays so. */
  lemma FullStaysRecent(c: seq<Context>, batch: seq<Context>, t: int)
    requires ValidHistory(c) && |c| == HISTORY_MAX && AllSince(c, t)
    ensures |Merged(c, batch)| == HISTORY_MAX && AllSince(Merged(c, batch), t)
  {
    var a := AbsorbAll(c, batch);
    var s := StableSort(a, NoOlder);
    MergedIsCappedSort(c, batch);
    AbsorbAllKeeps(c, batch);
    SortKeeps(a);
    forall uri | uri in Uris(c) ensures uri in AtLeast(s, t) {
      var e :| e in c && e.uri == uri;
      StaysRecent(c, batch, e);
      FindIs(s, Find(s, uri).value);
    }
    UrisCount(c);
    SubsetCount(Uris(c), AtLeast(s, t));
    RankByCount(s, HISTORY_MAX - 1, t);
    forall e | e in Cap(s) ensures e.playedAt >= t {
      var k :| 0 <= k < HISTORY_MAX && s[k] == e;
      assert k < HISTORY_MAX - 1 ==> NoOlder(s[k], s[HISTORY_MAX - 1]);
    }
  }

  lemma AgreesAfterMerge(c: seq<Context>, u: seq<Context>, batch: seq<Context>, raw: seq<Context>, uri: string)
    requires Follows(c, u) && uri != ""
    requires LatestPlay(batch, uri) == LatestPlay(raw, uri)
    ensures AgreesOn(Merged(c, batch), AbsorbAll(u, raw), uri)
  {
    FindAbsorbAll(u, raw, uri);
    MergeKeepsUri(c, batch, uri);
    assert AgreesOn(c, u, uri);
    SeenPlay(Find(c, uri), batch, uri);
    SeenPlay(Find(u, uri), raw, uri);
    if Find(c, uri).None? && Find(u, uri).Some? {
      FullStaysRecent(c, batch, Find(u, uri).value.playedAt);
      OldTimeIsDropped(c, u, batch, uri);
    }
  }

  lemma SeenPlay(entry: Option<Context>, batch: seq<Context>, uri: string)
    requires entry.Some? ==> entry.value.uri == uri
    ensures var e, play := Seen(entry, batch, uri), LatestPlay(batch, uri);
            && (entry.None? ==> (e.Some? <==> play.Some?) && (e.Some? ==> e.value.playedAt == play.value))
            && (entry.Some? ==>
                  e.Some? && e.value.playedAt ==
                    if play.None? then entry.value.playedAt else Max(entry.value.playedAt, play.value))
  {
    if entry.Some? { SeenLater(entry, batch, uri); }
  }

  /** A context that was dropped comes back only with a play that is at least as
      late as the one it was dropped with. */
  lemma OldTimeIsDropped(c: seq<Context>, u: seq<Context>, batch: seq<Context>, uri: string)
    requires Follows(c, u) && uri != "" && Find(u, uri).Some? && Find(c, uri).None?
    ensures var m := Find(Merged(c, batch), uri);
            m.Some? ==> m == Seen(None, batch, uri) && m.value.playedAt >= Find(u, uri).value.playedAt
  {
    var m := Merged(c, batch);
    assert AgreesOn(c, u, uri);
    MergeKeepsUri(c, batch, uri);
    FullStaysRecent(c, batch, Find(u, uri).value.playedAt);
    if Find(m, uri).Some? {
      MergeKeepsValid(c, batch);
      FindIs(m, Find(m, uri).value);
    }
  }

  lemma FollowsAfterMerge(c: seq<Context>, u: seq<Context>, batch: seq<Context>, raw: seq<Context>)
    requires Follows(c, u) && SameTimes(batch, raw)
    ensures Follows(Merged(c, batch), AbsorbAll(u, raw))
  {
    MergeKeepsValid(c, batch);
    FindAbsorbAll(u, raw, "-");
    forall uri | uri != "" ensures AgreesOn(Merged(c, batch), AbsorbAll(u, raw), uri) {
      AgreesAfterMerge(c, u, batch, raw, uri);
    }
  }

  function Flatten(batches: seq<seq<Context>>): seq<Context> {
    if batches == [] then [] else Flatten(batches[..|batches| - 1]) + batches[|batches| - 1]
  }

  lemma {:induction false} AbsorbAllConcat(h: seq<Context>, a: seq<Context>, b: seq<Context>)
    ensures AbsorbAll(h, a + b) == AbsorbAll(AbsorbAll(h, a), b)
  {
    if b == [] {
      assert a + b == a;
    } else {
      AbsorbAllConcat(h, a, b[..|b| - 1]);
      assert (a + b)[..|a + b| - 1] == a + b[..|b| - 1];
    }
  }

  lemma {:induction false} FollowsAfterAll(h: seq<Context>, batches: seq<seq<Context>>, raws: seq<seq<Context>>)
    requires ValidHistory(h) && |batches| == |raws|
    requires forall k :: 0 <= k < |batches| ==> SameTimes(batches[k], raws[k])
    ensures Follows(MergedAll(h, batches), AbsorbAll(h, Flatten(raws)))
  {
    if batches == [] {
    } else {
      var n := |batches| - 1;
      FollowsAfterAll(h, batches[..n], raws[..n]);
      FollowsAfterMerge(MergedAll(h, batches[..n]), AbsorbAll(h, Flatten(raws[..n])), batches[n], raws[n]);
      AbsorbAllConcat(h, Flatten(raws[..n]), raws[n]);
    }
  }

  /** As many of c as of u were played since t, until c is exhausted. */
  lemma FollowsCounts(c: seq<Context>, u: seq<Context>, i: nat, t: int)
    requires Follows(c, u) && i < |c|
    ensures |AtLeast(c, t)| > i <==> |AtLeast(u, t)| > i
  {
    forall uri | uri in AtLeast(c, t) ensures uri in AtLeast(u, t) {
      var e :| e in c && e.uri == uri && e.playedAt >= t;
      FindIs(c, e);
      assert AgreesOn(c, u, uri);
      FindIs(u, Find(u, uri).value);
    }
    SubsetCount(AtLeast(c, t), AtLeast(u, t));
    if !(AtLeast(u, t) <= AtLeast(c, t)) {
      var uri :| uri in AtLeast(u, t) && uri !in AtLeast(c, t);
      var e :| e in u && e.uri == uri && e.playedAt >= t;
      FindIs(u, e);
      assert AgreesOn(c, u, uri);
      if Find(c, uri).Some? { FindIs(c, Find(c, uri).value); }
      assert AllSince(c, t);
      assert AtLeast(c, t) == Uris(c);
      UrisCount(c);
    } else {
      SubsetCount(AtLeast(u, t), AtLeast(c, t));
    }
  }

  lemma FollowsSize(c: seq<Context>, u: seq<Context>)
    requires Follows(c, u)
    ensures |c| == if |u| > HISTORY_MAX then HISTORY_MAX else |u|
  {
    UrisCount(c);
    UrisCount(u);
    forall uri | uri in Uris(c) ensures uri in Uris(u) {
      var e :| e in c && e.uri == uri;
      FindIs(c, e);
      assert AgreesOn(c, u, uri);
      FindIs(u, Find(u, uri).value);
    }
    SubsetCount(Uris(c), Uris(u));
    if |c| < HISTORY_MAX {
      forall uri | uri in Uris(u) ensures uri in Uris(c) {
        var e :| e in u && e.uri == uri;
        FindIs(u, e);
        assert AgreesOn(c, u, uri);
        FindIs(c, Find(c, uri).value);
      }
      SubsetCount(Uris(u), Uris(c));
    }
  }

  lemma FollowsRanks(c: seq<Context>, u: seq<Context>, s: seq<Context>, i: nat)
    requires Follows(c, u) && s == StableSort(u, NoOlder) && i < |c| <= |s|
    ensures c[i].playedAt == s[i].playedAt
  {
    SortKeeps(u);
    forall t ensures |AtLeast(s, t)| == |AtLeast(u, t)| { assert AtLeast(s, t) == AtLeast(u, t); }
    FollowsCounts(c, u, i, c[i].playedAt);
    RankByCount(c, i, c[i].playedAt);
    RankByCount(s, i, c[i].playedAt);
    FollowsCounts(c, u, i, s[i].playedAt);
    RankByCount(c, i, s[i].playedAt);
    RankByCount(s, i, s[i].playedAt);
  }

  /** The (uri, time) pairs of a history. */
  function Plays(h: seq<Context>): set<(string, int)> {
    set c | c in h :: (c.uri, c.playedAt)
  }

  /** No context is tied across the cut. */
  predicate NoTieAtCut(sorted: seq<Context>) {
    |sorted| > HISTORY_MAX ==> sorted[HISTORY_MAX - 1].playedAt != sorted[HISTORY_MAX].playedAt
  }

  lemma InsideTheCut(c: seq<Context>, u: seq<Context>, s: seq<Context>, i: nat)
    requires Follows(c, u) && s == StableSort(u, NoOlder) && NoTieAtCut(s)
    requires i < |c| <= |s| && Times(c) == Times(Cap(s))
    ensures c[i].uri in Uris(Cap(s))
  {
    SortKeeps(u);
    FindIs(c, c[i]);
    assert AgreesOn(c, u, c[i].uri);
    var e := Find(u, c[i].uri).value;
    FindIs(u, e);
    var k :| 0 <= k < |s| && s[k] == e;
    assert Times(c)[i] == Times(Cap(s))[i];
    if |s| > HISTORY_MAX {
      assert i < HISTORY_MAX - 1 ==> NoOlder(s[i], s[HISTORY_MAX - 1]);
      assert NoOlder(s[HISTORY_MAX - 1], s[HISTORY_MAX]);
      assert k > HISTORY_MAX ==> NoOlder(s[HISTORY_MAX], s[k]);
    }
    assert Cap(s)[k] == e;
  }

  lemma FollowsKeepsSameUris(c: seq<Context>, u: seq<Context>, s: seq<Context>)
    requires Follows(c, u) && s == StableSort(u, NoOlder) && NoTieAtCut(s)
    requires |c| <= |s| && Times(c) == Times(Cap(s))
    ensures Uris(c) == Uris(Cap(s))
  {
    SortKeeps(u);
    forall uri | uri in Uris(c) ensures uri in Uris(Cap(s)) {
      var i :| 0 <= i < |c| && c[i].uri == uri;
      InsideTheCut(c, u, s, i);
    }
    assert |Times(c)| == |Times(Cap(s))|;
    UrisCount(c);
    UrisCount(Cap(s));
    SubsetCount(Uris(c), Uris(Cap(s)));
  }

  /** Merging and capping batch after batch gives the same times, newest first,
      as merging everything, sorting once and capping once; and the same
      contexts with the same times unless there is a tie across the cut. The
      raw batches may be any that report the same latest plays. */
  lemma CappingAsYouGoLosesNothing(h: seq<Context>, batches: seq<seq<Context>>, raws: seq<seq<Context>>)
    requires ValidHistory(h) && |batches| == |raws|
    requires forall k :: 0 <= k < |batches| ==> SameTimes(batches[k], raws[k])
    ensures var sorted := StableSort(AbsorbAll(h, Flatten(raws)), NoOlder);
            && Times(MergedAll(h, batches)) == Times(Cap(sorted))
            && (NoTieAtCut(sorted) ==> Plays(MergedAll(h, batches)) == Plays(Cap(sorted)))
  {
    var c, u := MergedAll(h, batches), AbsorbAll(h, Flatten(raws));
    var s := StableSort(u, NoOlder);
    FollowsAfterAll(h, batches, raws);
    SortKeeps(u);
    FollowsSize(c, u);
    assert Times(c) == Times(Cap(s)) by {
      forall i | 0 <= i < |c| ensures c[i].playedAt == Cap(s)[i].playedAt { FollowsRanks(c, u, s, i); }
    }
    if NoTieAtCut(s) {
      FollowsKeepsSameUris(c, u, s);
      SamePlays(c, u, s);
    }
  }

  lemma SamePlays(c: seq<Context>, u: seq<Context>, s: seq<Context>)
    requires Follows(c, u) && s == StableSort(u, NoOlder)
    requires Uris(c) == Uris(Cap(s))
    ensures Plays(c) == Plays(Cap(s))
  {
    SortKeeps(u);
    SamePlaysOneWay(c, u, s, c, Cap(s));
    SamePlaysOneWay(c, u, s, Cap(s), c);
  }

  lemma SamePlaysOneWay(c: seq<Context>, u: seq<Context>, s: seq<Context>, a: seq<Context>, b: seq<Context>)
    requires Follows(c, u) && Distinct(s) && forall uri :: Find(s, uri) == Find(u, uri)
    requires (a == c && b == Cap(s)) || (a == Cap(s) && b == c)
    requires Uris(a) <= Uris(b)
    ensures Plays(a) <= Plays(b)
  {
    forall p | p in Plays(a) ensures p in Plays(b) {
      var e :| e in a && p == (e.uri, e.playedAt);
      assert e.uri in Uris(b);
      var e' :| e' in b && e'.uri == e.uri;
      var mine := if a == c then e else e';
      FindIs(c, mine);
      assert AgreesOn(c, u, mine.uri);
      FindIs(s, if a == c then e' else e);
    }
  }
}
