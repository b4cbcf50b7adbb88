/** The listening history of the Spotify remote: merging, ordering, capping. */
module History {
  import opened Sorting
  import opened Wrappers

  /** A playlist, album or artist that was listened to. playedAt is a point in
      time; a context that was never played carries Go's zero time, which is
      just the smallest value in use. */
  datatype Context = Context(kind: string, uri: string, hint: string, playedAt: int)

  const HISTORY_MAX := 200

  predicate NoOlder(a: Context, b: Context) {
    a.playedAt >= b.playedAt
  }

  /** Index of the first context with the uri, -1 if there is none. */
  function IndexOf(contexts: seq<Context>, uri: string): (i: int)
    ensures -1 <= i < |contexts|
    ensures i >= 0 ==> contexts[i].uri == uri
    ensures forall k :: 0 <= k < (if i < 0 then |contexts| else i) ==> contexts[k].uri != uri
  {
    if contexts == [] then -1
    else if contexts[0].uri == uri then 0
    else
      var i := IndexOf(contexts[1..], uri);
      assert forall k :: 1 <= k < |contexts| ==> contexts[k] == contexts[1..][k - 1];
      if i < 0 then -1 else i + 1
  }

  function Max(a: int, b: int): int {
    if a >= b then a else b
  }

  /** What a known entry becomes when the same uri is seen again. */
  function MergeEntry(entry: Context, seen: Context): Context {
    Context(
      if seen.kind != "" && entry.kind == "" then seen.kind else entry.kind,
      entry.uri,
      if seen.hint != "" then seen.hint else entry.hint,
      Max(seen.playedAt, entry.playedAt))
  }

  /** One turn of the merge loop. */
  function Absorb(h: seq<Context>, c: Context): seq<Context> {
    var i := IndexOf(h, c.uri);
    if c.uri == "" then h
    else if i < 0 then h + [c]
    else h[i := MergeEntry(h[i], c)]
  }

  function AbsorbAll(h: seq<Context>, batch: seq<Context>): seq<Context> {
    if batch == [] then h else Absorb(AbsorbAll(h, batch[..|batch| - 1]), batch[|batch| - 1])
  }

  /** Whether some turn of the merge loop changed the history (a later turn may
      have changed it back). */
  predicate AnyChange(h: seq<Context>, batch: seq<Context>) {
    batch != [] &&
    (AnyChange(h, batch[..|batch| - 1]) || AbsorbAll(h, batch) != AbsorbAll(h, batch[..|batch| - 1]))
  }

  lemma NoChange(h: seq<Context>, batch: seq<Context>)
    requires !AnyChange(h, batch)
    ensures AbsorbAll(h, batch) == h
  {
    if batch != [] { NoChange(h, batch[..|batch| - 1]); }
  }

  /** The k-th context of the batch changed the history. */
  predicate Changes(h: seq<Context>, batch: seq<Context>, k: int) {
    0 <= k < |batch| && AbsorbAll(h, batch[..k + 1]) != AbsorbAll(h, batch[..k])
  }

  /** A merge reports a change, upon which the history is saved, exactly if some
      context of the batch made one. */
  lemma {:induction false} ChangedMeans(h: seq<Context>, batch: seq<Context>)
    ensures AnyChange(h, batch) <==> exists k :: Changes(h, batch, k)
  {
    if batch != [] {
      hide AbsorbAll;
      var n := |batch| - 1;
      ChangedMeans(h, batch[..n]);
      assert batch[..n + 1] == batch;
      assert Changes(h, batch, n) <==> AbsorbAll(h, batch) != AbsorbAll(h, batch[..n]);
      if k :| Changes(h, batch, k) && k < n { ChangesBefore(h, batch, k); }
      if k :| Changes(h, batch[..n], k) { ChangesBefore(h, batch, k); }
    }
  }

  lemma ChangesBefore(h: seq<Context>, batch: seq<Context>, k: int)
    requires 0 <= k < |batch| - 1
    ensures Changes(h, batch, k) <==> Changes(h, batch[..|batch| - 1], k)
  {
    hide AbsorbAll;
    var n := |batch| - 1;
    assert batch[..n][..k] == batch[..k] && batch[..n][..k + 1] == batch[..k + 1];
  }

  function Cap(h: seq<Context>): seq<Context> {
    if |h| > HISTORY_MAX then h[..HISTORY_MAX] else h
  }

  /** The history after a merge: sorted and capped only if something changed. */
  function Merged(h: seq<Context>, batch: seq<Context>): seq<Context> {
    if AnyChange(h, batch) then Cap(StableSort(AbsorbAll(h, batch), NoOlder)) else h
  }

  function MergedAll(h: seq<Context>, batches: seq<seq<Context>>): seq<Context> {
    if batches == [] then h
    else Merged(MergedAll(h, batches[..|batches| - 1]), batches[|batches| - 1])
  }

  // ---------- vocabulary of the theorems ----------

  ghost predicate Distinct(h: seq<Context>) {
    forall i, j :: 0 <= i < j < |h| ==> h[i].uri != h[j].uri
  }

  ghost predicate Named(h: seq<Context>) {
    forall c :: c in h ==> c.uri != ""
  }

  ghost predicate ValidHistory(h: seq<Context>) {
    Distinct(h) && Named(h) && SortedBy(h, NoOlder) && |h| <= HISTORY_MAX
  }

  function Uris(h: seq<Context>): set<string> {
    set c | c in h :: c.uri
  }

  /** The entry of h with the uri. */
  function Find(h: seq<Context>, uri: string): Option<Context> {
    var i := IndexOf(h, uri);
    if i < 0 then None else Some(h[i])
  }

  function Times(h: seq<Context>): seq<int> {
    seq(|h|, i requires 0 <= i < |h| => h[i].playedAt)
  }

  /** The uris whose last play is at or after t. */
  function AtLeast(h: seq<Context>, t: int): set<string> {
    set c | c in h && c.playedAt >= t :: c.uri
  }

  // ---------- finding entries, and permuting them ----------

  lemma FindIs(h: seq<Context>, c: Context)
    requires Distinct(h)
    ensures c in h <==> Find(h, c.uri) == Some(c)
  {
    if c in h {
      var j :| 0 <= j < |h| && h[j] == c;
      var i := IndexOf(h, c.uri);
      assert h[i].uri == h[j].uri;
    }
  }

  lemma {:induction false} DistinctCounts(h: seq<Context>, c: Context)
    requires Distinct(h)
    ensures multiset(h)[c] == if c in h then 1 else 0
  {
    if h == [] {
    } else {
      var front, last := h[..|h| - 1], h[|h| - 1];
      assert h == front + [last];
      DistinctCounts(front, c);
    }
  }

  lemma TwoCount(h: seq<Context>, i: int, j: int)
    requires 0 <= i < j < |h| && h[i] == h[j]
    ensures multiset(h)[h[i]] >= 2
  {
    assert h == h[..j] + [h[j]] + h[j + 1..];
    assert h[i] in h[..j];
  }

  lemma PermutationKeeps(a: seq<Context>, b: seq<Context>)
    requires multiset(a) == multiset(b) && Distinct(a)
    ensures Distinct(b)
    ensures forall c :: c in a <==> c in b
    ensures forall uri :: Find(a, uri) == Find(b, uri)
  {
    assert forall c :: c in a <==> c in multiset(a);
    assert forall c :: c in b <==> c in multiset(b);
    forall i, j | 0 <= i < j < |b| ensures b[i].uri != b[j].uri {
      if b[i].uri == b[j].uri {
        FindIs(a, b[i]);
        FindIs(a, b[j]);
        TwoCount(b, i, j);
        DistinctCounts(a, b[i]);
      }
    }
    forall uri ensures Find(a, uri) == Find(b, uri) {
      if Find(a, uri).Some? { FindIs(a, Find(a, uri).value); FindIs(b, Find(a, uri).value); }
      if Find(b, uri).Some? { FindIs(a, Find(b, uri).value); FindIs(b, Find(b, uri).value); }
    }
  }

  // ---------- counting: the i-th time is decided by how many are later ----------

  lemma {:induction false} UrisCount(h: seq<Context>)
    requires Distinct(h)
    ensures |Uris(h)| == |h|
  {
    if h == [] {
    } else {
      var front, last := h[..|h| - 1], h[|h| - 1];
      UrisCount(front);
      assert h == front + [last];
      assert Uris(h) == Uris(front) + {last.uri};
      assert last.uri !in Uris(front);
    }
  }

  lemma SubsetCount(a: set<string>, b: set<string>)
    requires a <= b
    ensures |a| <= |b|
    ensures |a| == |b| ==> a == b
  {
    assert b == a + (b - a);
  }

  lemma RankByCount(h: seq<Context>, i: nat, t: int)
    requires Distinct(h) && SortedBy(h, NoOlder) && i < |h|
    ensures h[i].playedAt >= t <==> |AtLeast(h, t)| > i
  {
    if h[i].playedAt >= t {
      UrisCount(h[..i + 1]);
      assert forall c :: c in h[..i + 1] ==> NoOlder(c, h[i]);
      SubsetCount(Uris(h[..i + 1]), AtLeast(h, t));
    } else {
      UrisCount(h[..i]);
      forall u | u in AtLeast(h, t) ensures u in Uris(h[..i]) {
        var k :| 0 <= k < |h| && h[k].playedAt >= t && h[k].uri == u;
        assert !NoOlder(h[i], h[k]);
        assert h[k] in h[..i];
      }
      SubsetCount(AtLeast(h, t), Uris(h[..i]));
    }
  }

  // ---------- what one batch does to one uri ----------

  /** The history of one uri under a batch. */
  function Seen(entry: Option<Context>, batch: seq<Context>, uri: string): Option<Context> {
    if batch == [] then entry
    else
      var before, c := Seen(entry, batch[..|batch| - 1], uri), batch[|batch| - 1];
      if c.uri != uri then before
      else match before
        case None => Some(c)
        case Some(e) => Some(MergeEntry(e, c))
  }

  lemma AbsorbOne(h: seq<Context>, c: Context, uri: string)
    requires Distinct(h) && Named(h) && uri != ""
    ensures Distinct(Absorb(h, c)) && Named(Absorb(h, c))
    ensures Find(Absorb(h, c), uri) == Seen(Find(h, uri), [c], uri)
    ensures |h| <= |Absorb(h, c)|
  {
    assert Seen(Find(h, uri), [], uri) == Find(h, uri);
    assert [c][..0] == [];
    var r := Absorb(h, c);
    assert Distinct(r);
    var e := Seen(Find(h, uri), [c], uri);
    if e.Some? {
      assert e.value in r by {
        var i := if c.uri == uri && IndexOf(h, uri) < 0 then |h| else IndexOf(h, uri);
        if c.uri != uri && IndexOf(h, c.uri) >= 0 { assert IndexOf(h, c.uri) != i; }
        assert r[i] == e.value;
      }
      FindIs(r, e.value);
    }
  }

  lemma {:induction false} FindAbsorbAll(h: seq<Context>, batch: seq<Context>, uri: string)
    requires Distinct(h) && Named(h) && uri != ""
    ensures Distinct(AbsorbAll(h, batch)) && Named(AbsorbAll(h, batch))
    ensures Find(AbsorbAll(h, batch), uri) == Seen(Find(h, uri), batch, uri)
    ensures |h| <= |AbsorbAll(h, batch)|
  {
    if batch == [] {
    } else {
      var front, last := batch[..|batch| - 1], batch[|batch| - 1];
      FindAbsorbAll(h, front, uri);
      AbsorbOne(AbsorbAll(h, front), last, uri);
      assert Seen(Find(AbsorbAll(h, front), uri), [], uri) == Find(AbsorbAll(h, front), uri);
      assert [last][..0] == [];
    }
  }

  /** Mentions(batch, uri, k): the k-th context of the batch is about the uri. */
  predicate Mentions(batch: seq<Context>, uri: string, k: int) {
    0 <= k < |batch| && batch[k].uri == uri
  }

  predicate Hints(batch: seq<Context>, uri: string, k: int) {
    Mentions(batch, uri, k) && batch[k].hint != ""
  }

  predicate Kinds(batch: seq<Context>, uri: string, k: int) {
    Mentions(batch, uri, k) && batch[k].kind != ""
  }

  /** e carries the latest time of the old entry and of all mentions. */
  ghost predicate LatestTime(entry: Option<Context>, batch: seq<Context>, uri: string, e: Context) {
    && (entry.Some? ==> e.playedAt >= entry.value.playedAt)
    && (forall k :: Mentions(batch, uri, k) ==> e.playedAt >= batch[k].playedAt)
    && ((entry.Some? && e.playedAt == entry.value.playedAt)
        || exists k :: Mentions(batch, uri, k) && e.playedAt == batch[k].playedAt)
  }

  /** e carries the hint of the last mention that has one, else the old one. */
  ghost predicate LastHint(entry: Option<Context>, batch: seq<Context>, uri: string, e: Context) {
    || (exists k :: Hints(batch, uri, k) && e.hint == batch[k].hint && forall j :: j > k ==> !Hints(batch, uri, j))
    || ((forall k :: !Hints(batch, uri, k)) && e.hint == if entry.Some? then entry.value.hint else "")
  }

  /** e carries the first kind that was known: the old one, else that of the
      first mention that has one. */
  ghost predicate FirstKind(entry: Option<Context>, batch: seq<Context>, uri: string, e: Context) {
    if entry.Some? && entry.value.kind != "" then e.kind == entry.value.kind
    else
      || (exists k :: Kinds(batch, uri, k) && e.kind == batch[k].kind && forall j :: j < k ==> !Kinds(batch, uri, j))
      || ((forall k :: !Kinds(batch, uri, k)) && e.kind == "")
  }

  /** e is entry brought up to date with everything the batch says of the uri. */
  ghost predicate UpToDate(entry: Option<Context>, batch: seq<Context>, uri: string, e: Context) {
    && e.uri == uri
    && LatestTime(entry, batch, uri, e) && LastHint(entry, batch, uri, e) && FirstKind(entry, batch, uri, e)
  }

  lemma MentionsPrefix(batch: seq<Context>, uri: string)
    requires batch != []
    ensures var n := |batch| - 1;
            && (forall k :: Mentions(batch[..n], uri, k) <==> k < n && Mentions(batch, uri, k))
            && (forall k :: Hints(batch[..n], uri, k) <==> k < n && Hints(batch, uri, k))
            && (forall k :: Kinds(batch[..n], uri, k) <==> k < n && Kinds(batch, uri, k))
  {
  }

  lemma {:induction false} SeenWhen(entry: Option<Context>, batch: seq<Context>, uri: string)
    requires entry.Some? ==> entry.value.uri == uri
    ensures Seen(entry, batch, uri).None? <==> entry.None? && forall k :: !Mentions(batch, uri, k)
    ensures Seen(entry, batch, uri).Some? ==> Seen(entry, batch, uri).value.uri == uri
  {
    if batch == [] {
    } else {
      SeenWhen(entry, batch[..|batch| - 1], uri);
      MentionsPrefix(batch, uri);
      assert batch[|batch| - 1].uri == uri ==> Mentions(batch, uri, |batch| - 1);
    }
  }

  lemma {:induction false} SeenTime(entry: Option<Context>, batch: seq<Context>, uri: string)
    requires entry.Some? ==> entry.value.uri == uri
    requires Seen(entry, batch, uri).Some?
    ensures LatestTime(entry, batch, uri, Seen(entry, batch, uri).value)
  {
    if batch == [] {
    } else {
      var n := |batch| - 1;
      var before := Seen(entry, batch[..n], uri);
      MentionsPrefix(batch, uri);
      assert forall k :: Mentions(batch, uri, k) ==> k == n || Mentions(batch[..n], uri, k);
      if before.Some? {
        SeenTime(entry, batch[..n], uri);
        if !(entry.Some? && before.value.playedAt == entry.value.playedAt) {
          var k :| Mentions(batch[..n], uri, k) && before.value.playedAt == batch[..n][k].playedAt;
          assert Mentions(batch, uri, k);
        }
      } else {
        SeenWhen(entry, batch[..n], uri);
      }
      assert batch[n].uri == uri ==> Mentions(batch, uri, n);
    }
  }

  lemma {:induction false} SeenHint(entry: Option<Context>, batch: seq<Context>, uri: string)
    requires entry.Some? ==> entry.value.uri == uri
    requires Seen(entry, batch, uri).Some?
    ensures LastHint(entry, batch, uri, Seen(entry, batch, uri).value)
  {
    if batch == [] {
    } else {
      var n := |batch| - 1;
      var before := Seen(entry, batch[..n], uri);
      MentionsPrefix(batch, uri);
      if batch[n].uri == uri && batch[n].hint != "" {
        assert Hints(batch, uri, n);
      } else if before.None? {
        SeenWhen(entry, batch[..n], uri);
      } else {
        SeenHint(entry, batch[..n], uri);
        assert forall k :: Hints(batch, uri, k) ==> Hints(batch[..n], uri, k);
        if exists k :: Hints(batch[..n], uri, k) {
          var k :| Hints(batch[..n], uri, k) && before.value.hint == batch[..n][k].hint
                   && forall j :: j > k ==> !Hints(batch[..n], uri, j);
          assert Hints(batch, uri, k);
        }
      }
    }
  }

  lemma {:induction false} SeenKind(entry: Option<Context>, batch: seq<Context>, uri: string)
    requires entry.Some? ==> entry.value.uri == uri
    requires Seen(entry, batch, uri).Some?
    ensures FirstKind(entry, batch, uri, Seen(entry, batch, uri).value)
  {
    if batch == [] {
    } else {
      var n := |batch| - 1;
      var before := Seen(entry, batch[..n], uri);
      MentionsPrefix(batch, uri);
      if before.None? {
        SeenWhen(entry, batch[..n], uri);
        assert batch[n].kind != "" ==> Kinds(batch, uri, n);
      } else {
        SeenKind(entry, batch[..n], uri);
        if exists k :: Kinds(batch[..n], uri, k) {
          if !(entry.Some? && entry.value.kind != "") {
            var k :| Kinds(batch[..n], uri, k) && before.value.kind == batch[..n][k].kind
                     && forall j :: j < k ==> !Kinds(batch[..n], uri, j);
            assert Kinds(batch, uri, k);
          }
        } else {
          assert forall k :: Kinds(batch, uri, k) ==> k == n;
          assert Kinds(batch, uri, n) <==> batch[n].uri == uri && batch[n].kind != "";
        }
      }
    }
  }

  lemma SeenMeans(entry: Option<Context>, batch: seq<Context>, uri: string)
    requires entry.Some? ==> entry.value.uri == uri
    ensures Seen(entry, batch, uri).None? <==> entry.None? && forall k :: !Mentions(batch, uri, k)
    ensures Seen(entry, batch, uri).Some? ==> UpToDate(entry, batch, uri, Seen(entry, batch, uri).value)
  {
    SeenWhen(entry, batch, uri);
    if Seen(entry, batch, uri).Some? {
      SeenTime(entry, batch, uri);
      SeenHint(entry, batch, uri);
      SeenKind(entry, batch, uri);
    }
  }

  /** A second look at the same batch teaches nothing. */
  lemma SeenAgain(entry: Option<Context>, batch: seq<Context>, uri: string)
    requires entry.Some? ==> entry.value.uri == uri
    requires Seen(entry, batch, uri).Some?
    ensures var e := Seen(entry, batch, uri); Seen(e, batch, uri) == e
  {
    var e := Seen(entry, batch, uri);
    SeenMeans(entry, batch, uri);
    SeenMeans(e, batch, uri);
    var again := Seen(e, batch, uri).value;
    assert again.playedAt == e.value.playedAt;
    if exists k :: Hints(batch, uri, k) {
      var i :| Hints(batch, uri, i) && e.value.hint == batch[i].hint && forall j :: j > i ==> !Hints(batch, uri, j);
      var k :| Hints(batch, uri, k) && again.hint == batch[k].hint && forall j :: j > k ==> !Hints(batch, uri, j);
      assert i == k;
    }
  }

  /** Times alone: an old entry and a batch give the later of the two. */
  lemma SeenLater(entry: Option<Context>, batch: seq<Context>, uri: string)
    requires entry.Some? && entry.value.uri == uri
    ensures var anew := Seen(None, batch, uri);
            Seen(entry, batch, uri).Some? && Seen(entry, batch, uri).value.playedAt
            == if anew.None? then entry.value.playedAt else Max(entry.value.playedAt, anew.value.playedAt)
  {
    SeenMeans(entry, batch, uri);
    SeenMeans(None, batch, uri);
  }
}
