/** The part of the Spotify client that feeds the history: recently played
    tracks, reduced to the contexts they were played from. */
module SpotifyClient {
  import opened History
  import opened HistoryLaws
  import opened Sorting
  import opened Wrappers

  /** One recently played track; context is None when it was played on its own. */
  datatype Item = Item(track: string, playedAt: int, context: Option<Context>)

  predicate HasContext(item: Item) {
    item.context.Some? && item.context.value.uri != ""
  }

  function ItemContext(item: Item): Context
    requires HasContext(item)
  {
    item.context.value.(hint := item.track, playedAt := item.playedAt)
  }

  /** Every play of every context, in the order of the tracks. */
  function AllPlays(items: seq<Item>): seq<Context> {
    if items == [] then []
    else
      var last := items[|items| - 1];
      AllPlays(items[..|items| - 1]) + if HasContext(last) then [ItemContext(last)] else []
  }

  /** The batch without the contexts that an earlier one already named. */
  function FirstSeen(batch: seq<Context>): seq<Context> {
    if batch == [] then []
    else
      var front, last := batch[..|batch| - 1], batch[|batch| - 1];
      if last.uri in Uris(front) then FirstSeen(front) else FirstSeen(front) + [last]
  }

  /** c is the context of the i-th track, with that track's name and time, and no
      earlier track was played from it. */
  ghost predicate FirstPlay(items: seq<Item>, i: int, c: Context) {
    && 0 <= i < |items| && items[i].context.Some?
    && c.uri == items[i].context.value.uri && c.uri != ""
    && c.kind == items[i].context.value.kind
    && c.hint == items[i].track && c.playedAt == items[i].playedAt
    && forall j :: 0 <= j < i && items[j].context.Some? ==> items[j].context.value.uri != c.uri
  }

  method RecentlyPlayedContexts(items: seq<Item>) returns (contexts: seq<Context>)
    ensures contexts == FirstSeen(AllPlays(items))
    ensures Distinct(contexts) && Uris(contexts) == Uris(AllPlays(items)) && "" !in Uris(contexts)
    ensures forall c :: c in contexts ==> exists i :: FirstPlay(items, i, c)
    ensures forall uri :: uri in Uris(contexts) <==> uri != "" && exists i :: PlayedFrom(items, i, uri)
  {
    var seen: set<string> := {};
    contexts := [];
    for i := 0 to |items|
      invariant contexts == FirstSeen(AllPlays(items[..i]))
      invariant seen == Uris(AllPlays(items[..i]))
      invariant "" !in seen
    {
      var item := items[i];
      NextItem(items, i);
      if !HasContext(item) || item.context.value.uri in seen {
        continue;
      }
      seen := seen + {item.context.value.uri};
      contexts := contexts + [ItemContext(item)];
    }
    assert items[..|items|] == items;
    FirstSeenDistinct(AllPlays(items));
    FirstSeenAreFirstPlays(items);
    forall uri ensures uri in Uris(contexts) <==> uri != "" && exists i :: PlayedFrom(items, i, uri) {
      UrisPlayed(items, uri);
    }
  }

  predicate PlayedFrom(items: seq<Item>, i: int, uri: string) {
    0 <= i < |items| && items[i].context.Some? && items[i].context.value.uri == uri
  }

  lemma PlayedEarlier(items: seq<Item>, uri: string)
    requires items != []
    ensures var n := |items| - 1;
            (exists i :: PlayedFrom(items, i, uri)) <==>
            PlayedFrom(items, n, uri) || exists i :: PlayedFrom(items[..n], i, uri)
  {
    var n := |items| - 1;
    if i :| PlayedFrom(items, i, uri) && i < n { assert PlayedFrom(items[..n], i, uri); }
    if i :| PlayedFrom(items[..n], i, uri) { assert PlayedFrom(items, i, uri); }
  }

  lemma {:induction false} UrisPlayed(items: seq<Item>, uri: string)
    ensures uri in Uris(AllPlays(items)) <==> uri != "" && exists i :: PlayedFrom(items, i, uri)
  {
    if items == [] {
    } else {
      hide Uris, AllPlays, FirstSeen;
      var n := |items| - 1;
      UrisPlayed(items[..n], uri);
      NextItem(items, n);
      assert items[..n + 1] == items;
      PlayedEarlier(items, uri);
    }
  }

  lemma StillFirstPlay(items: seq<Item>, n: nat, i: int, c: Context)
    requires n <= |items| && FirstPlay(items[..n], i, c)
    ensures FirstPlay(items, i, c)
  {
  }

  lemma NewFirstPlay(items: seq<Item>, n: nat)
    requires n < |items| && HasContext(items[n]) && items[n].context.value.uri !in Uris(AllPlays(items[..n]))
    ensures FirstPlay(items, n, ItemContext(items[n]))
  {
    hide Uris, AllPlays;
    var uri := items[n].context.value.uri;
    UrisPlayed(items[..n], uri);
    forall j | 0 <= j < n && items[j].context.Some? ensures items[j].context.value.uri != uri {
      assert !PlayedFrom(items[..n], j, uri) && items[..n][j] == items[j];
    }
  }

  lemma {:induction false} FirstSeenAreFirstPlays(items: seq<Item>)
    ensures forall c :: c in FirstSeen(AllPlays(items)) ==> exists i :: FirstPlay(items, i, c)
  {
    if items == [] {
    } else {
      hide Uris, AllPlays, FirstSeen, FirstPlay, ItemContext;
      var n := |items| - 1;
      FirstSeenAreFirstPlays(items[..n]);
      NextItem(items, n);
      assert items[..n + 1] == items;
      forall c | c in FirstSeen(AllPlays(items)) ensures exists i :: FirstPlay(items, i, c) {
        if c in FirstSeen(AllPlays(items[..n])) {
          var i :| FirstPlay(items[..n], i, c);
          StillFirstPlay(items, n, i, c);
        } else {
          NewFirstPlay(items, n);
        }
      }
    }
  }

  lemma NextItem(items: seq<Item>, i: nat)
    requires i < |items|
    ensures var plays, more := AllPlays(items[..i]), AllPlays(items[..i + 1]);
            if HasContext(items[i]) then
              && Uris(more) == Uris(plays) + {items[i].context.value.uri}
              && FirstSeen(more) == if items[i].context.value.uri in Uris(plays) then FirstSeen(plays)
                                    else FirstSeen(plays) + [ItemContext(items[i])]
            else more == plays
  {
    var plays := AllPlays(items[..i]);
    assert items[..i + 1][..i] == items[..i];
    assert plays + [] == plays;
    if HasContext(items[i]) { AppendPlay(plays, ItemContext(items[i])); }
  }

  lemma AppendPlay(batch: seq<Context>, c: Context)
    ensures FirstSeen(batch + [c]) == if c.uri in Uris(batch) then FirstSeen(batch) else FirstSeen(batch) + [c]
    ensures Uris(batch + [c]) == Uris(batch) + {c.uri}
  {
    assert (batch + [c])[..|batch|] == batch;
  }

  lemma {:induction false} FirstSeenDistinct(batch: seq<Context>)
    ensures Distinct(FirstSeen(batch)) && Uris(FirstSeen(batch)) == Uris(batch)
  {
    if batch == [] {
    } else {
      var front, last := batch[..|batch| - 1], batch[|batch| - 1];
      FirstSeenDistinct(front);
      assert batch == front + [last];
      AppendPlay(front, last);
      assert Uris(FirstSeen(front) + [last]) == Uris(FirstSeen(front)) + {last.uri};
      assert forall c :: c in FirstSeen(front) ==> c.uri in Uris(FirstSeen(front));
    }
  }

  lemma SomePlay(batch: seq<Context>, uri: string)
    ensures uri in Uris(batch) <==> LatestPlay(batch, uri).Some?
    ensures LatestPlay(batch, uri).Some? ==> exists c :: c in batch && c.playedAt == LatestPlay(batch, uri).value
  {
    SeenMeans(None, batch, uri);
    if uri in Uris(batch) {
      var k :| 0 <= k < |batch| && batch[k].uri == uri;
      assert Mentions(batch, uri, k);
    }
  }

  lemma LatestOfAppended(batch: seq<Context>, c: Context, uri: string)
    ensures LatestPlay(batch + [c], uri) ==
            if c.uri != uri then LatestPlay(batch, uri)
            else if LatestPlay(batch, uri).None? then Some(c.playedAt)
            else Some(Max(c.playedAt, LatestPlay(batch, uri).value))
  {
    assert (batch + [c])[..|batch|] == batch;
  }

  lemma {:induction false} FirstSeenReports(batch: seq<Context>, uri: string)
    requires SortedBy(batch, NoOlder)
    ensures LatestPlay(FirstSeen(batch), uri) == LatestPlay(batch, uri)
  {
    if batch == [] {
    } else {
      var front, last := batch[..|batch| - 1], batch[|batch| - 1];
      FirstSeenReports(front, uri);
      assert batch == front + [last];
      AppendPlay(front, last);
      SomePlay(front, uri);
      LatestOfAppended(front, last, uri);
      LatestOfAppended(FirstSeen(front), last, uri);
      if LatestPlay(front, uri).Some? {
        var c :| c in front && c.playedAt == LatestPlay(front, uri).value;
        assert NoOlder(c, last);
      }
    }
  }

  /** Keeping only the first mention of each context changes no latest play,
      because the tracks come newest first. */
  lemma FirstSeenSameTimes(batch: seq<Context>)
    requires SortedBy(batch, NoOlder)
    ensures SameTimes(FirstSeen(batch), batch)
  {
    forall uri | uri != "" ensures LatestPlay(FirstSeen(batch), uri) == LatestPlay(batch, uri) {
      FirstSeenReports(batch, uri);
    }
  }

  /** The polled history is the 200 most recent of everything ever reported:
      neither capping after every poll nor dropping repeated contexts loses one. */
  lemma PolledHistoryLosesNothing(h: seq<Context>, polls: seq<seq<Context>>)
    requires ValidHistory(h)
    requires forall k :: 0 <= k < |polls| ==> SortedBy(polls[k], NoOlder)
    ensures var batches := seq(|polls|, k requires 0 <= k < |polls| => FirstSeen(polls[k]));
            var sorted := StableSort(AbsorbAll(h, Flatten(polls)), NoOlder);
            && Times(MergedAll(h, batches)) == Times(Cap(sorted))
            && (NoTieAtCut(sorted) ==> Plays(MergedAll(h, batches)) == Plays(Cap(sorted)))
  {
    var batches := seq(|polls|, k requires 0 <= k < |polls| => FirstSeen(polls[k]));
    forall k | 0 <= k < |batches| ensures SameTimes(batches[k], polls[k]) {
      FirstSeenSameTimes(polls[k]);
    }
    CappingAsYouGoLosesNothing(h, batches, polls);
  }

  /** Spotify lists the tracks with the last one first. */
  ghost predicate NewestFirst(items: seq<Item>) {
    forall i, j :: 0 <= i < j < |items| ==> items[i].playedAt >= items[j].playedAt
  }

  lemma {:induction false} PlaysNewestFirst(items: seq<Item>)
    requires NewestFirst(items)
    ensures SortedBy(AllPlays(items), NoOlder)
    ensures forall c :: c in AllPlays(items) ==> exists i :: 0 <= i < |items| && items[i].playedAt == c.playedAt
  {
    if items != [] {
      var n := |items| - 1;
      var front, plays := items[..n], AllPlays(items[..n]);
      PlaysNewestFirst(front);
      forall c | c in plays ensures c.playedAt >= items[n].playedAt {
        var i :| 0 <= i < |front| && front[i].playedAt == c.playedAt;
        assert items[i] == front[i];
      }
      forall c | c in plays ensures exists i :: 0 <= i < |items| && items[i].playedAt == c.playedAt {
        var i :| 0 <= i < |front| && front[i].playedAt == c.playedAt;
        assert items[i] == front[i];
      }
      assert HasContext(items[n]) ==> ItemContext(items[n]).playedAt == items[n].playedAt;
    }
  }

  function PlaysOf(polls: seq<seq<Item>>): seq<seq<Context>> {
    seq(|polls|, k requires 0 <= k < |polls| => AllPlays(polls[k]))
  }

  function Batches(polls: seq<seq<Item>>): seq<seq<Context>> {
    seq(|polls|, k requires 0 <= k < |polls| => FirstSeen(AllPlays(polls[k])))
  }

  /** The same over the tracks as Spotify reports them: merging what the client
      makes of each report keeps the 200 most recent of all plays ever reported. */
  lemma ReportedTracksLoseNothing(h: seq<Context>, polls: seq<seq<Item>>)
    requires ValidHistory(h)
    requires forall k :: 0 <= k < |polls| ==> NewestFirst(polls[k])
    ensures var sorted := StableSort(AbsorbAll(h, Flatten(PlaysOf(polls))), NoOlder);
            && Times(MergedAll(h, Batches(polls))) == Times(Cap(sorted))
            && (NoTieAtCut(sorted) ==> Plays(MergedAll(h, Batches(polls))) == Plays(Cap(sorted)))
  {
    hide AllPlays, FirstSeen, MergedAll, StableSort;
    var plays := PlaysOf(polls);
    forall k | 0 <= k < |plays| ensures SortedBy(plays[k], NoOlder) {
      PlaysNewestFirst(polls[k]);
    }
    PolledHistoryLosesNothing(h, plays);
    assert Batches(polls) == seq(|plays|, k requires 0 <= k < |plays| => FirstSeen(plays[k]));
  }
}
