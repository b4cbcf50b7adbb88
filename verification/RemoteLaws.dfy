/** What every command of the remote keeps, whatever Spotify answers and
    whatever other goroutines do while the lock is free. */
module RemoteLaws {
  import opened History
  import opened HistoryLaws
  import opened RemoteModel
  import opened Wrappers

  lemma MergedKeepsNonempty(h: seq<Context>, batch: seq<Context>)
    requires ValidHistory(h) && h != []
    ensures Merged(h, batch) != []
  {
    MergedIsCappedSort(h, batch);
    FindAbsorbAll(h, batch, "-");
    SortKeeps(AbsorbAll(h, batch));
  }

  /** Merging into the history is something other goroutines may do. */
  lemma PollObeys(s: State, poll: Option<seq<Context>>)
    requires Valid(s)
    ensures Rely(s, Poll(s, poll))
  {
    if poll.Some? {
      MergeKeepsValid(s.history, poll.value);
      if s.history != [] { MergedKeepsNonempty(s.history, poll.value); }
    }
  }

  /** So is setting the current channel. */
  lemma SetCurrentObeys(s: State, uri: string)
    requires Valid(s)
    ensures Rely(s, SetCurrent(s, uri))
    ensures SetCurrent(s, uri).cursor >= 0 ==> Aligned(SetCurrent(s, uri))
    ensures SetCurrent(s, uri).cursor < 0 <==> uri !in Uris(s.contexts)
  {
  }

  lemma Interfere(f: State -> State, s: State)
    requires Obeys(f) && Valid(s)
    ensures Rely(s, f(s)) && Valid(f(s))
  {
  }

  lemma ReloadKeeps(s: State, a: Attempt)
    requires Valid(s) && Obeys(a.beforePoll) && Obeys(a.afterPoll)
    ensures var r := Reload(s, a);
            && Valid(r.(cursor := -1)) && (r.contexts == [] ==> r.cursor == -1)
            && (s.history != [] ==> r.contexts != [] && r.history != [])
            && r.command == s.command && r.started == s.started
  {
    hide Poll, Obeys, Distinct;
    Interfere(a.beforePoll, s);
    PollObeys(a.beforePoll(s), a.poll);
    Interfere(a.afterPoll, Poll(a.beforePoll(s), a.poll));
  }

  lemma AlignKeeps(s: State)
    requires Valid(s.(cursor := -1)) && (s.contexts == [] ==> s.cursor == -1)
    ensures Valid(Align(s)) && Rely(s, Align(s))
    ensures Align(s).contexts != [] ==> Aligned(Align(s))
  {
    var r := Align(s);
    if s.contexts != [] && s.current != "" && IndexOf(s.contexts, s.current) < 0 {
      forall i, j | 0 <= i < j < |r.contexts| ensures r.contexts[i].uri != r.contexts[j].uri {
        assert r.contexts[j] == s.contexts[j - 1];
      }
    }
  }

  /** After refreshChannels the cursor agrees with the current uri, or there is
      no channel at all - whatever ran while the lock was free; and a list that
      was not empty is not empty now. */
  lemma RefreshAligns(s: State, player: Option<Player>, a: Attempt)
    requires Valid(s) && Obeys(a.beforePoll) && Obeys(a.afterPoll)
    ensures Rely(s, Refresh(s, player, a))
    ensures Refresh(s, player, a).contexts != [] ==> Aligned(Refresh(s, player, a))
  {
    hide ValidHistory, Distinct, Named, Reload, Align, Obeys;
    var heard := Heard(s, player);
    if heard.contexts == [] || Stale(heard, a.clock) {
      ReloadKeeps(heard, a);
      AlignKeeps(Reload(heard, a));
    } else {
      AlignKeeps(heard);
    }
  }

  /** What refreshChannels takes its list from: the history, with the poll merged
      into it, if the list is empty or both it and the last selection are more than
      ten minutes old; else the list it had. What plays here and is not in the list
      goes in front. */
  lemma RefreshTakes(s: State, player: Option<Player>, a: Attempt)
    ensures var r := Refresh(s, player, a);
            var aged := a.clock.checkFetched - s.fetchedAt > 600_000 && a.clock.checkSelected - s.selectedAt > 600_000;
            var taken := s.contexts == [] || aged;
            var list := if taken then r.history else s.contexts;
            && r.contexts == (if list == [] || r.current == "" || r.current in Uris(list) then list
                              else [Context("", r.current, "", 0)] + list)
            && r.fetchedAt == (if taken then a.clock.fetch else s.fetchedAt)
            && (!taken ==> r.history == s.history)
            && ((forall x :: a.beforePoll(x) == x && a.afterPoll(x) == x) ==>
                  && (taken ==> r.history == if a.poll.Some? then Merged(s.history, a.poll.value) else s.history)
                  && r.selectedAt == s.selectedAt
                  && r.current == if player.Some? && player.value.ours && player.value.context.Some?
                                  then player.value.context.value else s.current)
  {
    hide Merged, Align, IndexOf;
    var heard := Heard(s, player);
    var list := if heard.contexts == [] || Stale(heard, a.clock) then Reload(heard, a) else heard;
    AlignLists(list);
  }

  lemma AlignLists(s: State)
    ensures var r := Align(s);
            && r.contexts == (if s.contexts == [] || s.current == "" || s.current in Uris(s.contexts) then s.contexts
                              else [Context("", s.current, "", 0)] + s.contexts)
            && r == s.(contexts := r.contexts, cursor := r.cursor)
  {
  }

  /** From s to t a command may also have started one verifier, for itself. */
  ghost predicate Advances(s: State, t: State, startedOne: bool) {
    && Valid(t)
    && (s.contexts != [] ==> t.contexts != [])
    && (s.history != [] ==> t.history != [])
    && t.command == s.command
    && if startedOne then |t.started| == |s.started| + 1 && t.started[..|s.started|] == s.started
                          && t.started[|s.started|].0 == s.command
       else t.started == s.started
  }

  ghost predicate Selected(s: State, t: State) {
    && Aligned(t) && t.cursor >= 0
    && |t.started| == |s.started| + 1 && t.started[|s.started|].1 == t.current
  }

  lemma PlayAdvances(s: State, r: State, idx: int, now: int)
    requires Rely(s, r) && 0 <= idx < |r.contexts|
    ensures Advances(s, PlayChannel(r, idx, now), true) && Selected(s, PlayChannel(r, idx, now))
  {
    hide ValidHistory, Distinct, Named;
  }

  lemma RelyThen(s: State, t: State, u: State)
    requires Rely(s, t) && Rely(t, u)
    ensures Rely(s, u) && Advances(s, u, false)
  {
    hide ValidHistory, Distinct, Named;
  }

  lemma ChooseKeeps(s: State, forward: bool, player: Option<Player>, a: Attempt)
    requires Valid(s) && FairRun(a)
    ensures var (t, answer) := ChooseOnce(s, forward, player, a);
            Advances(s, t, answer.Fine?) && (answer.Fine? ==> Selected(s, t))
  {
    hide Refresh, Obeys, Valid, Rely, Advances, Selected, PlayChannel;
    Interfere(a.before, s);
    RefreshAligns(a.before(s), player, a);
    var r := Refresh(a.before(s), player, a);
    RelyThen(s, a.before(s), r);
    if r.contexts != [] {
      PlayAdvances(s, r, 0, a.clock.select);
      if r.cursor >= 0 {
        var (answer, idx) := Scan(r.contexts, r.cursor, if forward then -1 else 1, |r.contexts| - 1, a.play);
        if answer.Fine? { PlayAdvances(s, r, idx, a.clock.select); }
      }
    }
  }

  lemma BeginKeeps(s: State, player: Option<Player>, a: Attempt)
    requires Valid(s) && FairRun(a)
    ensures var (t, answer) := BeginOnce(s, player, a); Advances(s, t, answer.Fine?)
  {
    hide Refresh, Obeys, Valid, Rely, Advances, PlayChannel, SetCurrent, StartVerifier, Resumed;
    var b := a.before(s);
    Interfere(a.before, s);
    RelyThen(s, s, b) by { StaySame(s); }
    if TriesMorning(player, a) { ResumeAdvances(s, b, a.morning.value, Player(true, true, a.morning, false)); }
    if CanResume(player) { ResumeAdvances(s, b, "", player.value); }
    RefreshAligns(b, player, a);
    var r := Refresh(b, player, a);
    RelyThen(s, b, r);
    if r.contexts != [] { PlayAdvances(s, r, 0, a.clock.select); }
  }

  lemma StaySame(s: State)
    requires Valid(s)
    ensures Rely(s, s)
  {
  }

  lemma ResumeAdvances(s: State, b: State, uri: string, player: Player)
    requires Rely(s, b)
    ensures Advances(s, StartVerifier(SetCurrent(b, uri), uri), true)
    ensures Advances(s, Resumed(b, player), true)
  {
    hide ValidHistory, Distinct, Named;
  }

  ghost predicate Kept(job: Job, s: State, t: State, answer: Answer) {
    && Advances(s, t, answer.Fine? && !job.Replay?)
    && (job.Choose? && answer.Fine? ==> Selected(s, t))
  }

  lemma RunOnceKeeps(job: Job, s: State, a: Attempt)
    requires Valid(s) && FairRun(a)
    ensures var (t, answer) := RunOnce(job, s, a); Kept(job, s, t, answer)
  {
    hide Obeys, Valid, Rely, Advances, Selected, ChooseOnce, BeginOnce;
    match job
    case Choose(forward, player) => ChooseKeeps(s, forward, player, a);
    case Begin(player) => BeginKeeps(s, player, a);
    case Replay(uri) =>
      Interfere(a.before, s);
      StaySame(s);
      RelyThen(s, s, a.before(s));
  }

  /** Going on after an attempt that failed, with another cached device. */
  lemma KeptThen(job: Job, s: State, t: State, device: Option<Device>)
    requires Advances(s, t, false)
    ensures Valid(t.(device := device))
    ensures forall r, answer :: Kept(job, t.(device := device), r, answer) ==> Kept(job, s, r, answer)
  {
    hide ValidHistory, Distinct, Named;
  }

  lemma KeptStill(job: Job, s: State, t: State)
    requires Advances(s, t, false)
    ensures forall answer: Answer :: !answer.Fine? ==> Kept(job, s, t, answer)
  {
    hide ValidHistory, Distinct, Named;
  }

  /** What other goroutines do is no step of the command. */
  lemma InterfereKept(job: Job, f: State -> State, s: State)
    requires Obeys(f) && Valid(s)
    ensures Valid(f(s)) && Advances(s, f(s), false)
    ensures forall r, answer :: Kept(job, f(s), r, answer) ==> Kept(job, s, r, answer)
  {
    hide ValidHistory, Distinct, Named;
    Interfere(f, s);
    KeptThen(job, s, f(s), f(s).device);
    assert f(s).(device := f(s).device) == f(s);
  }

  lemma {:induction false} RetryKeeps(job: Job, world: World, k: nat, dev: Option<Device>, last: Answer, s: State,
                                      done: seq<Event>)
    requires Valid(s) && Fair(world)
    requires k > 0 ==> !last.Fine?
    ensures var r := Retry(job, world, k, dev, last, s, done); Kept(job, s, r.state, r.answer)
    decreases MAX_ATTEMPTS - k
  {
    hide Kept, Valid, RunOnce, Advances, Obeys, Call;
    if k >= MAX_ATTEMPTS {
      KeptStill(job, s, s) by { StaySame(s); RelyThen(s, s, s); }
    } else if dev.Some? {
      CallKeeps(job, world, k, dev.value, s, done);
    } else {
      var a := world.attempts(k);
      assert FairAttempt(a);
      var t := a.duringLookup(s);
      InterfereKept(job, a.duringLookup, s);
      match a.lookup
      case Found(d) =>
        KeptThen(job, s, t, Some(d));
        CallKeeps(job, world, k, d, t.(device := Some(d)), done + [LookedUp(Some(d))]);
      case Absent =>
        if k < MAX_ATTEMPTS - 1 {
          RetryKeeps(job, world, k + 1, None, NoDevice, t, done + [LookedUp(None)] + [Waited]);
        } else {
          KeptStill(job, s, t);
        }
      case LookupFailed => KeptStill(job, s, t);
    }
  }

  lemma {:induction false} CallKeeps(job: Job, world: World, k: nat, d: Device, s: State, done: seq<Event>)
    requires Valid(s) && Fair(world) && k < MAX_ATTEMPTS
    ensures var r := Call(job, world, k, d, s, done); Kept(job, s, r.state, r.answer)
    decreases MAX_ATTEMPTS - k, 0
  {
    hide Valid, Obeys, RunOnce, Advances, Selected;
    assert FairAttempt(world.attempts(k));
    RunOnceKeeps(job, s, world.attempts(k));
    var (t, answer) := RunOnce(job, s, world.attempts(k));
    if answer.NotFound? {
      KeptThen(job, s, t, None);
      RetryKeeps(job, world, k + 1, None, NotFound, t.(device := None), done + [Called(d, answer)]);
    }
  }

  /** Every command keeps the invariant of the shared state, empties no list and
      starts at most one verifier, under its own number; a successful selection
      leaves the cursor on the channel that now plays. */
  lemma CommandKeeps(job: Job, world: World, s: State)
    requires Valid(s) && Fair(world)
    ensures var r := WithDevice(job, world, s); Kept(job, s, r.state, r.answer)
  {
    hide Kept, Valid, Retry;
    var t := world.start(s);
    InterfereKept(job, world.start, s);
    RetryKeeps(job, world, 0, t.device, Fine, t, []);
  }

  /** The same, spelled out for a selection. */
  lemma SelectionKeeps(forward: bool, player: Option<Player>, world: World, s: State)
    requires Valid(s) && Fair(world)
    ensures var r := WithDevice(Choose(forward, player), world, s); var t := r.state;
            && Valid(t) && t.command == s.command && (s.contexts != [] ==> t.contexts != [])
            && (r.answer.Fine? ==>
                  Aligned(t) && 0 <= t.cursor < |t.contexts| && t.current == t.contexts[t.cursor].uri
                  && t.started == s.started + [(s.command, t.current)])
  {
    hide WithDevice, Valid, Fair;
    CommandKeeps(Choose(forward, player), world, s);
    var r := WithDevice(Choose(forward, player), world, s);
    var n := |s.started|;
    if r.answer.Fine? {
      assert r.state.started == r.state.started[..n] + [r.state.started[n]];
    }
  }

  /** What start plays: the morning playlist if it is to be tried and accepted,
      else what Spotify can resume, else the first channel of the list. The
      verifier it starts carries the uri that was asked for. */
  lemma StartPlays(s: State, player: Option<Player>, a: Attempt)
    requires Valid(s) && FairRun(a)
    requires BeginOnce(s, player, a).1.Fine?
    ensures var t := BeginOnce(s, player, a).0;
            && |t.started| == |s.started| + 1
            && var (number, uri) := t.started[|s.started|];
               && number == s.command
               && (TriesMorning(player, a) && a.playMorning.Fine? ==> uri == t.current == a.morning.value)
               && (!(TriesMorning(player, a) && a.playMorning.Fine?) && CanResume(player) && a.resume.Fine? ==>
                     uri == "" && (player.value.context.Some? ==> t.current == player.value.context.value))
               && (!(TriesMorning(player, a) && a.playMorning.Fine?) && !(CanResume(player) && a.resume.Fine?) ==>
                     Aligned(t) && t.cursor == 0 && uri == t.current)
  {
    hide Refresh, ValidHistory, Distinct, Named, Obeys, IndexOf;
    BeginKeeps(s, player, a);
    Interfere(a.before, s);
    RefreshAligns(a.before(s), player, a);
  }

  /** How every run of start ends. A 404 of the morning playlist or of the resume
      is handed up, so that the device is looked up anew; any other failure falls
      through to the next way of starting. */
  lemma StartAnswers(s: State, player: Option<Player>, a: Attempt)
    ensures var (t, answer) := BeginOnce(s, player, a); var b, r := a.before(s), Refresh(a.before(s), player, a);
            var tried := && a.morning.Some? && a.morning.value != ""
                         && !(player.Some? && player.value.context == Some(a.morning.value));
            var resumable := player.Some? && (player.value.context.Some? || player.value.hasItem);
            && (tried && a.playMorning.Fine? ==> answer.Fine?)
            && (tried && a.playMorning.NotFound? ==> answer.NotFound? && t == b)
            && (!(tried && (a.playMorning.Fine? || a.playMorning.NotFound?)) ==>
                  && (resumable && a.resume.Fine? ==> answer.Fine?)
                  && (resumable && a.resume.NotFound? ==> answer.NotFound? && t == b)
                  && (!(resumable && (a.resume.Fine? || a.resume.NotFound?)) ==>
                        && answer == (if r.contexts == [] then Failed else a.play(r.contexts[0].uri))
                        && (!answer.Fine? ==> t == r)))
  {
    hide Refresh, IndexOf;
  }

  // ---------- the device retry ----------

  function Lookups(trace: seq<Event>): nat {
    if trace == [] then 0
    else Lookups(trace[..|trace| - 1]) + if trace[|trace| - 1].LookedUp? then 1 else 0
  }

  /** Calls of the job, and lookups that were waited out. */
  function CallsAndWaits(trace: seq<Event>): nat {
    if trace == [] then 0
    else CallsAndWaits(trace[..|trace| - 1]) + if trace[|trace| - 1].LookedUp? then 0 else 1
  }

  lemma AppendEvent(trace: seq<Event>, e: Event)
    ensures Lookups(trace + [e]) == Lookups(trace) + if e.LookedUp? then 1 else 0
    ensures CallsAndWaits(trace + [e]) == CallsAndWaits(trace) + if e.LookedUp? then 0 else 1
  {
    assert (trace + [e])[..|trace|] == trace;
  }

  lemma AppendKeeps(trace: seq<Event>, e: Event, cached: Option<Device>)
    requires NewDevices(trace, cached) && Only404(trace)
    requires e.Called? ==>
               if trace == [] then cached == Some(e.device) else trace[|trace| - 1] == LookedUp(Some(e.device))
    ensures NewDevices(trace + [e], cached)
    ensures !e.Called? || e.answer.NotFound? ==> Only404(trace + [e])
    ensures (trace + [e])[..|trace + [e]| - 1] == trace
  {
    var all := trace + [e];
    forall i | 0 <= i < |all| ensures NewDevice(all, i, cached) {
      if i < |trace| { assert NewDevice(trace, i, cached); }
    }
  }

  /** Every call uses the cached device first, and after that the device that
      was looked up just before. */
  ghost predicate NewDevices(trace: seq<Event>, cached: Option<Device>) {
    forall i :: 0 <= i < |trace| ==> NewDevice(trace, i, cached)
  }

  ghost predicate NewDevice(trace: seq<Event>, i: nat, cached: Option<Device>)
    requires i < |trace|
  {
    trace[i].Called? ==>
      if i == 0 then cached == Some(trace[i].device) else trace[i - 1] == LookedUp(Some(trace[i].device))
  }

  ghost predicate Only404(trace: seq<Event>) {
    forall i :: 0 <= i < |trace| && trace[i].Called? ==> trace[i].answer.NotFound?
  }

  ghost predicate EndsFine(trace: seq<Event>) {
    trace != [] && trace[|trace| - 1].Called? && trace[|trace| - 1].answer.Fine?
  }

  ghost predicate SoundRun(r: Run, cached: Option<Device>) {
    && Lookups(r.trace) <= MAX_ATTEMPTS
    && CallsAndWaits(r.trace) <= MAX_ATTEMPTS
    && NewDevices(r.trace, cached)
    && (r.trace != [] ==> Only404(r.trace[..|r.trace| - 1]))
    && (r.answer.Fine? <==> EndsFine(r.trace))
  }

  lemma RunStopped(s: State, last: Answer, done: seq<Event>, cached: Option<Device>)
    requires Lookups(done) <= MAX_ATTEMPTS && CallsAndWaits(done) <= MAX_ATTEMPTS
    requires NewDevices(done, cached) && Only404(done) && !last.Fine?
    ensures SoundRun(Run(s, last, done), cached)
  {
    hide NewDevices, Lookups, CallsAndWaits;
  }

  lemma SoundLookup(done: seq<Event>, found: Option<Device>, k: nat, cached: Option<Device>)
    requires Lookups(done) <= k && CallsAndWaits(done) <= k && NewDevices(done, cached) && Only404(done)
    ensures var asked := done + [LookedUp(found)];
            && Lookups(asked) <= k + 1 && CallsAndWaits(asked) <= k
            && NewDevices(asked, cached) && Only404(asked)
  {
    hide NewDevices, Only404, Lookups, CallsAndWaits;
    AppendEvent(done, LookedUp(found));
    AppendKeeps(done, LookedUp(found), cached);
  }

  lemma SoundWait(asked: seq<Event>, k: nat, cached: Option<Device>)
    requires Lookups(asked) <= k + 1 && CallsAndWaits(asked) <= k && NewDevices(asked, cached) && Only404(asked)
    ensures var waited := asked + [Waited];
            && Lookups(waited) <= k + 1 && CallsAndWaits(waited) <= k + 1
            && NewDevices(waited, cached) && Only404(waited)
  {
    hide NewDevices, Only404, Lookups, CallsAndWaits;
    AppendEvent(asked, Waited);
    AppendKeeps(asked, Waited, cached);
  }

  lemma {:induction false} RetrySound(job: Job, world: World, k: nat, dev: Option<Device>, last: Answer, s: State,
                                      done: seq<Event>, cached: Option<Device>)
    requires Lookups(done) <= k <= MAX_ATTEMPTS && CallsAndWaits(done) <= k
    requires NewDevices(done, cached) && Only404(done)
    requires dev.Some? ==> done == [] && dev == cached
    requires k > 0 ==> !last.Fine?
    ensures SoundRun(Retry(job, world, k, dev, last, s, done), cached)
    decreases MAX_ATTEMPTS - k
  {
    hide Call, SoundRun, NewDevices, Only404, Lookups, CallsAndWaits;
    if k == MAX_ATTEMPTS {
      RunStopped(s, last, done, cached);
    } else if dev.Some? {
      CallSound(job, world, k, dev.value, s, done, cached);
    } else {
      var t := world.attempts(k).duringLookup(s);
      match world.attempts(k).lookup
      case Found(d) =>
        SoundLookup(done, Some(d), k, cached);
        CallSound(job, world, k, d, t.(device := Some(d)), done + [LookedUp(Some(d))], cached);
      case Absent =>
        var asked := done + [LookedUp(None)];
        SoundLookup(done, None, k, cached);
        if k < MAX_ATTEMPTS - 1 {
          SoundWait(asked, k, cached);
          RetrySound(job, world, k + 1, None, NoDevice, t, asked + [Waited], cached);
        } else {
          RunStopped(t, NoDevice, asked, cached);
        }
      case LookupFailed =>
        SoundLookup(done, None, k, cached);
        RunStopped(t, Failed, done + [LookedUp(None)], cached);
    }
  }

  lemma {:induction false} CallSound(job: Job, world: World, k: nat, d: Device, s: State, done: seq<Event>,
                                     cached: Option<Device>)
    requires k < MAX_ATTEMPTS
    requires Lookups(done) <= k + 1 && CallsAndWaits(done) <= k
    requires NewDevices(done, cached) && Only404(done)
    requires if done == [] then cached == Some(d) else done[|done| - 1] == LookedUp(Some(d))
    ensures SoundRun(Call(job, world, k, d, s, done), cached)
    decreases MAX_ATTEMPTS - k, 0
  {
    hide RunOnce, Retry, NewDevices, Only404, Lookups, CallsAndWaits;
    var (t, answer) := RunOnce(job, s, world.attempts(k));
    AppendEvent(done, Called(d, answer));
    AppendKeeps(done, Called(d, answer), cached);
    if answer.NotFound? {
      RetrySound(job, world, k + 1, None, NotFound, t.(device := None), done + [Called(d, answer)], cached);
    }
  }

  /** The device retry succeeds exactly when its last call did; it makes at most
      four lookups and at most four calls and waits together; only a 404 is
      followed by anything; and after a 404 the device is looked up anew. */
  lemma DeviceRetrySound(job: Job, world: World, s: State)
    ensures SoundRun(WithDevice(job, world, s), world.start(s).device)
  {
    var t := world.start(s);
    RetrySound(job, world, 0, t.device, Fine, t, [], t.device);
  }

  // ---------- the device retry does not give up early ----------

  /** The attempt that the i-th thing done belongs to: every attempt before it
      ended in a call or a wait. */
  function AttemptOf(trace: seq<Event>, i: nat): nat
    requires i <= |trace|
  {
    CallsAndWaits(trace[..i])
  }

  /** Lookups say what the world says, and only a missing device is waited for,
      three times at most. */
  ghost predicate FollowsWorld(trace: seq<Event>, world: World) {
    forall i :: 0 <= i < |trace| ==> EventFollows(trace, i, world)
  }

  ghost predicate EventFollows(trace: seq<Event>, i: nat, world: World)
    requires i < |trace|
  {
    var k := AttemptOf(trace, i);
    && k < 4
    && match trace[i]
       case LookedUp(Some(d)) => world.attempts(k).lookup == Found(d)
       case LookedUp(None) => !world.attempts(k).lookup.Found?
       case Waited => i > 0 && trace[i - 1] == LookedUp(None) && world.attempts(k).lookup.Absent? && k < 3
       case Called(_, _) => true
  }

  /** A run ends with a call, whose answer it hands on and which was no 404 unless
      it was the fourth attempt; or with a lookup: a failed one, or one that
      misses the device at the fourth attempt. */
  ghost predicate EndsRightly(r: Run, world: World) {
    && r.trace != []
    && var i := |r.trace| - 1; var k := AttemptOf(r.trace, i);
       match r.trace[i]
       case Called(_, answer) => r.answer == answer && (answer.NotFound? ==> k == 3)
       case LookedUp(None) =>
         || (world.attempts(k).lookup.Absent? && k == 3 && r.answer == NoDevice)
         || (world.attempts(k).lookup.LookupFailed? && r.answer == Failed)
       case _ => false
  }

  lemma AppendFollows(trace: seq<Event>, e: Event, world: World)
    requires FollowsWorld(trace, world) && EventFollows(trace + [e], |trace|, world)
    ensures FollowsWorld(trace + [e], world)
    ensures AttemptOf(trace + [e], |trace|) == CallsAndWaits(trace)
  {
    hide CallsAndWaits;
    var all := trace + [e];
    assert all[..|trace|] == trace;
    forall i | 0 <= i < |all| ensures EventFollows(all, i, world) {
      if i < |trace| {
        assert all[..i] == trace[..i];
        assert EventFollows(trace, i, world);
      }
    }
  }

  lemma AttemptIs(trace: seq<Event>, e: Event)
    ensures AttemptOf(trace + [e], |trace|) == CallsAndWaits(trace)
  {
    assert (trace + [e])[..|trace|] == trace;
  }

  lemma LookupFollows(done: seq<Event>, k: nat, world: World)
    requires CallsAndWaits(done) == k < MAX_ATTEMPTS && FollowsWorld(done, world)
    ensures var e := LookedUp(match world.attempts(k).lookup case Found(d) => Some(d) case _ => None);
            FollowsWorld(done + [e], world) && CallsAndWaits(done + [e]) == k && AttemptOf(done + [e], |done|) == k
  {
    hide FollowsWorld, CallsAndWaits;
    var e := LookedUp(match world.attempts(k).lookup case Found(d) => Some(d) case _ => None);
    AttemptIs(done, e);
    AppendFollows(done, e, world);
    AppendEvent(done, e);
  }

  lemma WaitFollows(done: seq<Event>, k: nat, world: World)
    requires CallsAndWaits(done) == k < MAX_ATTEMPTS - 1 && FollowsWorld(done, world)
    requires done != [] && done[|done| - 1] == LookedUp(None) && world.attempts(k).lookup.Absent?
    ensures FollowsWorld(done + [Waited], world) && CallsAndWaits(done + [Waited]) == k + 1
  {
    hide FollowsWorld, CallsAndWaits;
    AttemptIs(done, Waited);
    AppendFollows(done, Waited, world);
    AppendEvent(done, Waited);
  }

  lemma {:induction false} RetryCompletes(job: Job, world: World, k: nat, dev: Option<Device>, last: Answer, s: State,
                                          done: seq<Event>)
    requires CallsAndWaits(done) == k <= MAX_ATTEMPTS && FollowsWorld(done, world)
    requires k > 0 ==> dev.None?
    requires k == MAX_ATTEMPTS ==> EndsRightly(Run(s, last, done), world)
    ensures var r := Retry(job, world, k, dev, last, s, done); FollowsWorld(r.trace, world) && EndsRightly(r, world)
    decreases MAX_ATTEMPTS - k
  {
    hide Call, FollowsWorld, CallsAndWaits, AttemptOf;
    if k == MAX_ATTEMPTS {
    } else if dev.Some? {
      CallCompletes(job, world, k, dev.value, s, done);
    } else {
      var t := world.attempts(k).duringLookup(s);
      LookupFollows(done, k, world);
      match world.attempts(k).lookup
      case Found(d) => CallCompletes(job, world, k, d, t.(device := Some(d)), done + [LookedUp(Some(d))]);
      case Absent =>
        if k < MAX_ATTEMPTS - 1 {
          WaitFollows(done + [LookedUp(None)], k, world);
          RetryCompletes(job, world, k + 1, None, NoDevice, t, done + [LookedUp(None)] + [Waited]);
        }
      case LookupFailed =>
    }
  }

  lemma {:induction false} CallCompletes(job: Job, world: World, k: nat, d: Device, s: State, done: seq<Event>)
    requires k < MAX_ATTEMPTS && CallsAndWaits(done) == k && FollowsWorld(done, world)
    ensures var r := Call(job, world, k, d, s, done); FollowsWorld(r.trace, world) && EndsRightly(r, world)
    decreases MAX_ATTEMPTS - k, 0
  {
    hide RunOnce, Retry, FollowsWorld, CallsAndWaits;
    var (t, answer) := RunOnce(job, s, world.attempts(k));
    var called := done + [Called(d, answer)];
    AttemptIs(done, Called(d, answer));
    AppendFollows(done, Called(d, answer), world);
    AppendEvent(done, Called(d, answer));
    if answer.NotFound? { RetryCompletes(job, world, k + 1, None, NotFound, t.(device := None), called); }
  }

  /** In every world, a command gives up only when it must: it reports a missing
      device only if the fourth lookup missed it too, and a 404 only if the fourth
      attempt's call got one; any other answer of a call is the answer of the
      command, and a lookup that fails ends it. */
  lemma DeviceRetryCompletes(job: Job, world: World, s: State)
    ensures var r := WithDevice(job, world, s); FollowsWorld(r.trace, world) && EndsRightly(r, world)
  {
    var t := world.start(s);
    RetryCompletes(job, world, 0, t.device, Fine, t, []);
  }

  lemma {:induction false} RetryGoesOn(job: Job, world: World, k: nat, dev: Option<Device>, last: Answer, s: State,
                                       done: seq<Event>)
    ensures done <= Retry(job, world, k, dev, last, s, done).trace
    decreases MAX_ATTEMPTS - k
  {
    hide Call, RunOnce;
    if k < MAX_ATTEMPTS {
      if dev.Some? {
        CallGoesOn(job, world, k, dev.value, s, done);
      } else {
        var t := world.attempts(k).duringLookup(s);
        match world.attempts(k).lookup
        case Found(d) => CallGoesOn(job, world, k, d, t.(device := Some(d)), done + [LookedUp(Some(d))]);
        case Absent =>
          if k < MAX_ATTEMPTS - 1 {
            RetryGoesOn(job, world, k + 1, None, NoDevice, t, done + [LookedUp(None)] + [Waited]);
          }
        case LookupFailed =>
      }
    }
  }

  lemma {:induction false} CallGoesOn(job: Job, world: World, k: nat, d: Device, s: State, done: seq<Event>)
    requires k < MAX_ATTEMPTS
    ensures var r := Call(job, world, k, d, s, done); var answer := RunOnce(job, s, world.attempts(k)).1;
            && done + [Called(d, answer)] <= r.trace
            && (!answer.NotFound? ==> r.trace == done + [Called(d, answer)] && r.answer == answer)
    decreases MAX_ATTEMPTS - k, 0
  {
    hide RunOnce, Retry;
    var (t, answer) := RunOnce(job, s, world.attempts(k));
    RetryGoesOn(job, world, k + 1, None, NotFound, t.(device := None), done + [Called(d, answer)]);
  }

  /** j lookups that miss the device, each waited out. */
  function Waits(j: nat): seq<Event> {
    if j == 0 then [] else Waits(j - 1) + [LookedUp(None)] + [Waited]
  }

  /** The job was called with the device after what had been done before, at the
      given attempt; unless that was a 404, its answer is that of the run. */
  ghost predicate CalledAfter(r: Run, before: seq<Event>, d: Device, job: Job, a: Attempt) {
    exists t: State :: t.device == Some(d) &&
      var answer := RunOnce(job, t, a).1;
      && before + [Called(d, answer)] <= r.trace
      && (!answer.NotFound? ==> r.trace == before + [Called(d, answer)] && r.answer == answer)
  }

  lemma {:induction false} RetryWaits(job: Job, world: World, k: nat, last: Answer, s: State, j: nat, d: Device)
    requires k <= j < 4 && world.attempts(j).lookup == Found(d)
    requires forall i :: k <= i < j ==> world.attempts(i).lookup.Absent?
    ensures CalledAfter(Retry(job, world, k, None, last, s, Waits(k)), Waits(j) + [LookedUp(Some(d))], d, job,
                        world.attempts(j))
    decreases j - k
  {
    hide Call, RunOnce;
    var t := world.attempts(k).duringLookup(s);
    if k == j {
      CallGoesOn(job, world, k, d, t.(device := Some(d)), Waits(k) + [LookedUp(Some(d))]);
    } else {
      RetryWaits(job, world, k + 1, NoDevice, t, j, d);
    }
  }

  /** A receiver that is missing is waited for: if it is there at the j-th of the
      four lookups, the job is called with it then. A cached one is called at
      once. */
  lemma ReceiverIsWaitedFor(job: Job, world: World, s: State, j: nat, d: Device)
    ensures world.start(s).device == Some(d) ==>
              CalledAfter(WithDevice(job, world, s), [], d, job, world.attempts(0))
    ensures world.start(s).device.None? && j < 4 && world.attempts(j).lookup == Found(d)
            && (forall i :: 0 <= i < j ==> world.attempts(i).lookup.Absent?) ==>
              CalledAfter(WithDevice(job, world, s), Waits(j) + [LookedUp(Some(d))], d, job, world.attempts(j))
  {
    hide Call, RunOnce, CalledAfter;
    var t := world.start(s);
    if t.device == Some(d) {
      CachedIsCalled(job, world, t, d);
    } else if t.device.None? && j < 4 && world.attempts(j).lookup == Found(d)
              && forall i :: 0 <= i < j ==> world.attempts(i).lookup.Absent? {
      RetryWaits(job, world, 0, Fine, t, j, d);
    }
  }

  lemma CachedIsCalled(job: Job, world: World, t: State, d: Device)
    requires t.device == Some(d)
    ensures CalledAfter(Retry(job, world, 0, t.device, Fine, t, []), [], d, job, world.attempts(0))
  {
    hide Call, RunOnce;
    CallGoesOn(job, world, 0, d, t, []);
  }

  // ---------- which device is remembered ----------

  ghost predicate LeavesDevice(f: State -> State) {
    forall s :: f(s).device == s.device
  }

  ghost predicate LeavesDevices(a: Attempt) {
    && LeavesDevice(a.duringLookup) && LeavesDevice(a.before)
    && LeavesDevice(a.beforePoll) && LeavesDevice(a.afterPoll)
  }

  lemma RefreshLeavesDevice(s: State, player: Option<Player>, a: Attempt)
    requires LeavesDevices(a)
    ensures Refresh(s, player, a).device == s.device
  {
  }

  lemma RunOnceLeavesDevice(job: Job, s: State, a: Attempt)
    requires LeavesDevices(a)
    ensures RunOnce(job, s, a).0.device == s.device
  {
    hide Refresh, Scan;
    match job
    case Choose(_, player) => RefreshLeavesDevice(a.before(s), player, a);
    case Begin(player) => RefreshLeavesDevice(a.before(s), player, a);
    case Replay(_) =>
  }

  /** The cached device is that of the last call, unless it was gone. */
  ghost predicate Remembers(r: Run) {
    r.trace != [] ==>
      match r.trace[|r.trace| - 1]
      case Called(d, answer) => r.state.device == if answer.NotFound? then None else Some(d)
      case _ => r.state.device == None
  }

  lemma {:induction false} RetryRemembers(job: Job, world: World, k: nat, last: Answer, s: State, done: seq<Event>)
    requires forall i :: 0 <= i < MAX_ATTEMPTS ==> LeavesDevices(world.attempts(i))
    requires s.device == None && Remembers(Run(s, last, done))
    ensures Remembers(Retry(job, world, k, None, last, s, done))
    decreases MAX_ATTEMPTS - k
  {
    hide Call, LeavesDevice;
    if k < MAX_ATTEMPTS {
      assert LeavesDevices(world.attempts(k));
      var t := world.attempts(k).duringLookup(s);
      assert t.device == None by { SameDevice(world.attempts(k).duringLookup, s); }
      match world.attempts(k).lookup
      case Found(d) => CallRemembers(job, world, k, d, t.(device := Some(d)), done + [LookedUp(Some(d))]);
      case Absent =>
        if k < MAX_ATTEMPTS - 1 {
          RetryRemembers(job, world, k + 1, NoDevice, t, done + [LookedUp(None)] + [Waited]);
        }
      case LookupFailed =>
    }
  }

  lemma SameDevice(f: State -> State, s: State)
    requires LeavesDevice(f)
    ensures f(s).device == s.device
  {
  }

  lemma {:induction false} CallRemembers(job: Job, world: World, k: nat, d: Device, s: State, done: seq<Event>)
    requires k < MAX_ATTEMPTS && s.device == Some(d)
    requires forall i :: 0 <= i < MAX_ATTEMPTS ==> LeavesDevices(world.attempts(i))
    ensures Remembers(Call(job, world, k, d, s, done))
    decreases MAX_ATTEMPTS - k, 0
  {
    hide RunOnce, Retry, LeavesDevices;
    RunOnceLeavesDevice(job, s, world.attempts(k));
    var (t, answer) := RunOnce(job, s, world.attempts(k));
    if answer.NotFound? {
      RetryRemembers(job, world, k + 1, NotFound, t.(device := None), done + [Called(d, answer)]);
    }
  }

  /** If no other goroutine touches the cached device, then after a command it is
      the one that was called last, or none if that one was gone or missing. */
  lemma DeviceIsRemembered(job: Job, world: World, s: State)
    requires LeavesDevice(world.start) && forall i :: 0 <= i < MAX_ATTEMPTS ==> LeavesDevices(world.attempts(i))
    ensures Remembers(WithDevice(job, world, s))
  {
    hide LeavesDevices, Call;
    var t := world.start(s);
    if t.device.Some? {
      CallRemembers(job, world, 0, t.device.value, t, []);
    } else {
      RetryRemembers(job, world, 0, Fine, t, []);
    }
  }
}
