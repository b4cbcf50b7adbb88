/** The Spotify remote as an object: fields under a lock, and methods that take
    the lock, let go of it and retry. Every method is proved against the
    functions of RemoteModel. The ghost flag says whether the running goroutine
    holds the lock; that no method takes a lock it holds is a precondition. */
module Remote {
  import opened History
  import opened Sorting
  import opened Wrappers
  import Model = RemoteModel
  import opened RemoteLaws
  import opened RemoteModel
  import opened Spacing

  const NEVER := 0
  const MIN_SKIP_GAP := 1200

  class SpotifyRemote {
    var history: seq<Context>
    var contexts: seq<Context>
    var cursor: int
    var current: string
    var device: Option<Device>
    var fetchedAt: int
    var selectedAt: int
    var command: int
    var started: seq<(int, string)>
    var lastSkipMs: int
    ghost var locked: bool

    /** The shared state as a value. */
    function Shared(): State
      reads this
    {
      State(history, contexts, cursor, current, device, fetchedAt, selectedAt, command, started)
    }

    constructor (loaded: seq<Context>)
      ensures Shared() == State(loaded, [], -1, "", None, NEVER, NEVER, 0, [])
      ensures !locked && lastSkipMs == 0
      ensures ValidHistory(loaded) ==> Valid(Shared())
    {
      history, contexts, cursor, current := loaded, [], -1, "";
      device, fetchedAt, selectedAt := None, NEVER, NEVER;
      command, started, lastSkipMs := 0, [], 0;
      locked := false;
    }

    // ---------- the lock ----------

    method Lock()
      requires !locked
      modifies this`locked
      ensures locked
    {
      locked := true;
    }

    method Unlock()
      requires locked
      modifies this`locked
      ensures !locked
    {
      locked := false;
    }

    /** Other goroutines run while this one does not hold the lock. */
    method Yield(others: State -> State)
      requires !locked
      modifies this
      ensures !locked && lastSkipMs == old(lastSkipMs)
      ensures Shared() == others(old(Shared()))
    {
      var s := others(Shared());
      history, contexts, cursor, current := s.history, s.contexts, s.cursor, s.current;
      device, fetchedAt, selectedAt := s.device, s.fetchedAt, s.selectedAt;
      command, started := s.command, s.started;
    }

    // ---------- history ----------

    method MergeHistory(batch: seq<Context>) returns (changed: bool)
      requires !locked
      modifies this`history, this`locked
      ensures !locked
      ensures history == Merged(old(history), batch)
      ensures changed <==> AnyChange(old(history), batch)
    {
      Lock();
      changed := false;
      for k := 0 to |batch|
        invariant locked
        invariant history == AbsorbAll(old(history), batch[..k])
        invariant changed <==> AnyChange(old(history), batch[..k])
      {
        var ctx := batch[k];
        assert batch[..k + 1][..k] == batch[..k];
        if ctx.uri == "" {
          continue;
        }
        var idx := IndexOf(history, ctx.uri);
        if idx < 0 {
          history := history + [ctx];
          changed := true;
          continue;
        }
        var updated := UpdateEntry(idx, ctx);
        changed := changed || updated;
      }
      assert batch[..|batch|] == batch;
      if changed {
        history := StableSort(history, NoOlder);
        if |history| > HISTORY_MAX {
          history := history[..HISTORY_MAX];
        }
      } else {
        NoChange(old(history), batch);
      }
      Unlock();
    }

    /** Brings a known entry up to date, field by field. */
    method UpdateEntry(idx: int, ctx: Context) returns (updated: bool)
      requires locked && 0 <= idx < |history|
      modifies this`history
      ensures history == old(history)[idx := MergeEntry(old(history)[idx], ctx)]
      ensures updated <==> history != old(history)
    {
      var entry := history[idx];
      updated := false;
      if ctx.playedAt > entry.playedAt {
        entry := entry.(playedAt := ctx.playedAt);
        updated := true;
      }
      if ctx.hint != "" && entry.hint != ctx.hint {
        entry := entry.(hint := ctx.hint);
        updated := true;
      }
      if ctx.kind != "" && entry.kind == "" {
        entry := entry.(kind := ctx.kind);
        updated := true;
      }
      assert updated <==> entry != old(history)[idx];
      history := history[idx := entry];
    }

    /** Fetches and merges the recently played contexts, with other goroutines
        running before and after the merge. */
    method PollHistory(a: Attempt)
      requires !locked
      modifies this
      ensures !locked && lastSkipMs == old(lastSkipMs)
      ensures Shared() == a.afterPoll(Poll(a.beforePoll(old(Shared())), a.poll))
    {
      Yield(a.beforePoll);
      if a.poll.Some? {
        var changed := MergeHistory(a.poll.value);
        if changed {
          Lock();
          Unlock();
        }
      }
      Yield(a.afterPoll);
    }

    // ---------- channels ----------

    method SetCurrent(uri: string)
      requires !locked
      modifies this`current, this`cursor, this`locked
      ensures !locked && Shared() == Model.SetCurrent(old(Shared()), uri)
    {
      Lock();
      current := uri;
      cursor := IndexOf(contexts, uri);
      Unlock();
    }

    method VerifyStarted(uri: string)
      modifies this`started
      ensures Shared() == StartVerifier(old(Shared()), uri)
    {
      started := started + [(command, uri)];
    }

    method PlayChannel(dev: Device, idx: int, a: Attempt) returns (answer: Answer)
      requires locked && 0 <= idx < |contexts|
      modifies this`cursor, this`current, this`selectedAt, this`started
      ensures answer == a.play(old(contexts)[idx].uri)
      ensures Shared() == if answer.Fine? then Model.PlayChannel(old(Shared()), idx, a.clock.select) else old(Shared())
    {
      var ctx := contexts[idx];
      answer := a.play(ctx.uri);
      if answer.Fine? {
        cursor := idx;
        current := ctx.uri;
        selectedAt := a.clock.select;
        VerifyStarted(ctx.uri);
      }
    }

    /** Re-takes the channel list when it is empty, or old while nobody cycles,
        and puts the cursor on what is current. The lock is let go of while
        Spotify is asked for what was played lately. */
    method RefreshChannels(player: Option<Player>, a: Attempt) returns (ok: bool)
      requires locked
      modifies this
      ensures locked && lastSkipMs == old(lastSkipMs)
      ensures Shared() == Refresh(old(Shared()), player, a)
      ensures ok <==> contexts != []
    {
      if player.Some? && player.value.context.Some? && player.value.ours {
        current := player.value.context.value;
      }
      ghost var heard := Shared();
      assert heard == Heard(old(Shared()), player);
      var stale := && a.clock.checkFetched - fetchedAt > CHANNELS_MAX_AGE
                   && a.clock.checkSelected - selectedAt > CHANNELS_MAX_AGE;
      if |contexts| == 0 || stale {
        Unlock();
        PollHistory(a);
        Lock();
        contexts := history;
        fetchedAt := a.clock.fetch;
        assert Shared() == Reload(heard, a);
      }
      ok := AlignCursor();
    }

    method AlignCursor() returns (ok: bool)
      requires locked
      modifies this`contexts, this`cursor
      ensures Shared() == Align(old(Shared()))
      ensures ok <==> contexts != []
    {
      if |contexts| == 0 {
        return false;
      }
      if current == "" {
        cursor := -1;
        return true;
      }
      cursor := IndexOf(contexts, current);
      if cursor < 0 {
        contexts := [Unlisted(current)] + contexts;
        cursor := 0;
      }
      return true;
    }

    // ---------- the functions handed to withDevice ----------

    method ChooseOnce(dev: Device, forward: bool, player: Option<Player>, a: Attempt) returns (answer: Answer)
      requires !locked
      modifies this
      ensures !locked && lastSkipMs == old(lastSkipMs)
      ensures (Shared(), answer) == Model.ChooseOnce(old(Shared()), forward, player, a)
    {
      Yield(a.before);
      Lock();
      var ok := RefreshChannels(player, a);
      if !ok {
        Unlock();
        return Failed;
      }
      if cursor < 0 {
        answer := PlayChannel(dev, 0, a);
      } else {
        answer := Search(dev, if forward then -1 else 1, a);
      }
      Unlock();
    }

    /** Plays the nearest channel that can be played, in one direction. */
    method Search(dev: Device, step: int, a: Attempt) returns (answer: Answer)
      requires locked && 0 <= cursor < |contexts|
      modifies this`cursor, this`current, this`selectedAt, this`started
      ensures (Shared(), answer) == Model.Search(old(Shared()), step, a)
    {
      var n := |contexts|;
      var idx := cursor;
      for i := 0 to n - 1
        invariant Shared() == old(Shared())
        invariant Scan(contexts, cursor, step, n - 1, a.play) == Scan(contexts, idx, step, n - 1 - i, a.play)
      {
        idx := Neighbour(idx, step, n);
        answer := PlayChannel(dev, idx, a);
        if answer.NotFound? || answer.Fine? {
          return;
        }
      }
      answer := Failed;
    }

    method BeginOnce(dev: Device, player: Option<Player>, a: Attempt) returns (answer: Answer)
      requires !locked
      modifies this
      ensures !locked && lastSkipMs == old(lastSkipMs)
      ensures (Shared(), answer) == Model.BeginOnce(old(Shared()), player, a)
    {
      Yield(a.before);
      if a.morning.Some? {
        var uri := a.morning.value;
        if uri != "" && !(player.Some? && player.value.context.Some? && player.value.context.value == uri) {
          answer := a.playMorning;
          if answer.NotFound? {
            return;
          }
          if answer.Fine? {
            SetCurrent(uri);
            VerifyStarted(uri);
            return;
          }
        }
      }
      if player.Some? && (player.value.context.Some? || player.value.hasItem) {
        answer := a.resume;
        if answer.Fine? {
          if player.value.context.Some? {
            SetCurrent(player.value.context.value);
          }
          VerifyStarted("");
          return;
        }
        if answer.NotFound? {
          return;
        }
      }
      Lock();
      var ok := RefreshChannels(player, a);
      if ok {
        answer := PlayChannel(dev, 0, a);
      } else {
        answer := Failed;
      }
      Unlock();
    }

    method RunOnce(job: Job, dev: Device, a: Attempt) returns (answer: Answer)
      requires !locked
      modifies this
      ensures !locked && lastSkipMs == old(lastSkipMs)
      ensures (Shared(), answer) == Model.RunOnce(job, old(Shared()), a)
    {
      match job
      case Choose(forward, player) => answer := ChooseOnce(dev, forward, player, a);
      case Begin(player) => answer := BeginOnce(dev, player, a);
      case Replay(uri) => Yield(a.before); answer := a.play(uri);
    }

    method CacheDevice(d: Option<Device>)
      requires !locked
      modifies this`device, this`locked
      ensures !locked && Shared() == old(Shared()).(device := d)
    {
      Lock();
      device := d;
      Unlock();
    }

    /** One attempt: looks the device up unless it is at hand, while other
        goroutines run, and runs the job with it. */
    method TryDevice(job: Job, world: World, attempt: nat, known: Option<Device>, last: Answer, done: seq<Event>)
      returns (finished: bool, dev: Option<Device>, answer: Answer, trace: seq<Event>)
      requires !locked && attempt < MAX_ATTEMPTS
      modifies this
      ensures !locked && lastSkipMs == old(lastSkipMs)
      ensures Retry(job, world, attempt, known, last, old(Shared()), done) ==
              if finished then Run(Shared(), answer, trace)
              else Retry(job, world, attempt + 1, dev, answer, Shared(), trace)
    {
      hide Model.RunOnce;
      var a := world.attempts(attempt);
      finished, dev, trace := true, known, done;
      if dev.None? {
        Yield(a.duringLookup);
        match a.lookup
        case Found(d) =>
          dev := Some(d);
          CacheDevice(dev);
          trace := trace + [LookedUp(dev)];
        case Absent =>
          trace := trace + [LookedUp(None)];
          answer := NoDevice;
          if attempt < MAX_ATTEMPTS - 1 {
            trace := trace + [Waited];
            finished := false;
          }
          return;
        case LookupFailed =>
          trace := trace + [LookedUp(None)];
          answer := Failed;
          return;
      }
      assert Retry(job, world, attempt, known, last, old(Shared()), done) ==
             Call(job, world, attempt, dev.value, Shared(), trace);
      answer := RunOnce(job, dev.value, a);
      trace := trace + [Called(dev.value, answer)];
      if answer.NotFound? {
        CacheDevice(None);
        finished, dev := false, None;
      }
    }

    /** Runs the job with our device; a 404 drops the cached device and tries
        again with a newly looked up one, a missing device is waited for. */
    method WithDevice(job: Job, world: World) returns (answer: Answer, trace: seq<Event>)
      requires !locked
      modifies this
      ensures !locked && lastSkipMs == old(lastSkipMs)
      ensures Run(Shared(), answer, trace) == Model.WithDevice(job, world, old(Shared()))
    {
      hide Retry, Call;
      Yield(world.start);
      Lock();
      var dev := device;
      Unlock();
      answer, trace := Fine, [];
      for attempt := 0 to MAX_ATTEMPTS
        invariant !locked && lastSkipMs == old(lastSkipMs)
        invariant Model.WithDevice(job, world, old(Shared())) ==
                  Retry(job, world, attempt, dev, answer, Shared(), trace)
      {
        var finished;
        finished, dev, answer, trace := TryDevice(job, world, attempt, dev, answer, trace);
        if finished {
          return;
        }
      }
      RetryEnds(job, world, dev, answer, Shared(), trace);
    }

    // ---------- the buttons ----------

    method BumpSeq()
      modifies this`command
      ensures Shared() == old(Shared()).(command := old(command) + 1)
    {
      command := command + 1;
    }

    /** Play/pause. player is what Spotify reports, pause its answer to a pause. */
    method Toggle(player: Result<Option<Player>, Answer>, pause: Answer, world: World)
      returns (startedPlaying: bool, answer: Answer)
      requires !locked && Valid(Shared()) && Fair(world)
      modifies this
      ensures !locked && Valid(Shared()) && command == old(command) + 1
      ensures startedPlaying <==>
                && player.Success?
                && !(player.value.Some? && player.value.value.isPlaying && player.value.value.ours)
      ensures !startedPlaying ==> Shared() == Bumped(old(Shared()))
      ensures !startedPlaying ==> answer == if player.Failure? then player.error else pause
      ensures startedPlaying ==>
                var r := Model.WithDevice(Begin(player.value), world, Bumped(old(Shared())));
                Shared() == r.state && answer == r.answer
    {
      hide Model.WithDevice, Valid, Fair;
      BumpSeq();
      BumpedValid(old(Shared()));
      if player.Failure? {
        return false, player.error;
      }
      if PlayingHere(player.value) {
        return false, pause;
      }
      ghost var trace;
      CommandKeeps(Begin(player.value), world, Shared());
      answer, trace := WithDevice(Begin(player.value), world);
      startedPlaying := true;
    }

    /** Back and forward. On success the cursor stands on the selected channel,
        which is current, and one verifier was started for it. */
    method Select(forward: bool, player: Result<Option<Player>, Answer>, world: World)
      returns (selected: Result<Context, Answer>)
      requires !locked && Valid(Shared()) && Fair(world)
      modifies this
      ensures !locked && Valid(Shared()) && command == old(command) + 1
      ensures old(contexts) != [] ==> contexts != []
      ensures player.Failure? ==> selected == Failure(player.error) && Shared() == Bumped(old(Shared()))
      ensures player.Success? ==>
                var r := Model.WithDevice(Choose(forward, player.value), world, Bumped(old(Shared())));
                && Shared() == r.state && (selected.Success? <==> r.answer.Fine?)
                && (selected.Failure? ==> selected.error == r.answer)
      ensures selected.Success? ==>
                && Aligned(Shared()) && cursor >= 0
                && selected.value == contexts[cursor] && current == selected.value.uri
                && started == old(started) + [(command, current)]
    {
      hide Model.WithDevice, Valid, Fair, Aligned;
      BumpSeq();
      BumpedValid(old(Shared()));
      if player.Failure? {
        return Failure(player.error);
      }
      SelectionKeeps(forward, player.value, world, Shared());
      var answer, trace := WithDevice(Choose(forward, player.value), world);
      if !answer.Fine? {
        return Failure(answer);
      }
      return Success(contexts[cursor]);
    }

    /** Next and previous song: at most one skip in 1200 ms of recorded time. next
        and previous are the answers to the two calls. Returns whether the press
        was handled, and the skip that was issued: forward or not. */
    method Skip(forward: bool, player: Result<Option<Player>, Answer>, now: int, next: Answer, previous: Answer)
      returns (handled: bool, issued: Option<bool>, answer: Answer)
      modifies this`command, this`lastSkipMs
      ensures Shared() == Bumped(old(Shared()))
      ensures handled <==>
                player.Success? && player.value.Some? && player.value.value.isPlaying && player.value.value.ours
      ensures issued == if handled && now - old(lastSkipMs) >= 1200 then Some(forward) else None
      ensures lastSkipMs == if issued.Some? then now else old(lastSkipMs)
      ensures lastSkipMs == if handled then SkipRecorded(old(lastSkipMs), now) else old(lastSkipMs)
      ensures answer == if player.Failure? then player.error
                        else if issued.None? then Fine
                        else if forward then next else previous
    {
      BumpSeq();
      if player.Failure? {
        return false, None, player.error;
      }
      if !PlayingHere(player.value) {
        return false, None, Fine;
      }
      if now - lastSkipMs < MIN_SKIP_GAP {
        return true, None, Fine;
      }
      lastSkipMs := now;
      return true, Some(forward), if forward then next else previous;
    }
  }

  lemma RetryEnds(job: Job, world: World, dev: Option<Device>, last: Answer, s: State, done: seq<Event>)
    ensures Retry(job, world, MAX_ATTEMPTS, dev, last, s, done) == Run(s, last, done)
  {
  }

  function Bumped(s: State): State {
    s.(command := s.command + 1)
  }

  lemma BumpedValid(s: State)
    requires Valid(s)
    ensures Valid(Bumped(s))
  {
  }

  /** The time recorded after a press at the given reading. */
  function SkipRecorded(last: int, now: int): int {
    if now - last < MIN_SKIP_GAP then last else now
  }

  /** The recorded times of the skips that a series of presses issues. */
  function SkipTimes(last: int, readings: seq<int>): (times: seq<int>)
    ensures times != []
  {
    if readings == [] then [last]
    else
      var times, now := SkipTimes(last, readings[..|readings| - 1]), readings[|readings| - 1];
      if SkipRecorded(times[|times| - 1], now) != times[|times| - 1] then times + [now] else times
  }

  /** For any readings of the clock, even ones that go backwards, recorded skips
      are 1200 ms apart, so a window of recorded time holds few of them. */
  lemma {:induction false} SkipsAreSpaced(last: int, readings: seq<int>)
    ensures Spaced(SkipTimes(last, readings), MIN_SKIP_GAP)
  {
    if readings != [] { SkipsAreSpaced(last, readings[..|readings| - 1]); }
  }

  /** So any span of recorded time holds at most one skip in 1200 ms and one
      more. */
  lemma SkipsInASpan(last: int, readings: seq<int>, span: nat, i: nat, j: nat)
    requires i <= j < |SkipTimes(last, readings)|
    requires SkipTimes(last, readings)[j] - SkipTimes(last, readings)[i] <= span
    ensures j - i + 1 <= span / MIN_SKIP_GAP + 1
  {
    SkipsAreSpaced(last, readings);
    SpacedCount(SkipTimes(last, readings), MIN_SKIP_GAP, span, i, j);
  }
}
