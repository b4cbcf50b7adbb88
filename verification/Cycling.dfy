/** Cycling through the channels with the back and forward buttons. */
module Cycling {
  import opened History
  import opened RemoteLaws
  import opened RemoteModel
  import opened Spacing
  import opened Wrappers

  // ---------- walking around the list ----------

  function Wrapped(a: nat, n: nat): int {
    if a < n then a else a - n
  }

  function Cyclic(a: nat, n: nat): (r: nat)
    requires n > 0
    ensures r < n
  {
    a % n
  }

  lemma ModIs(a: int, n: int, k: int, r: int)
    requires 0 <= r < n && a == n * k + r
    ensures a % n == r
  {
    var q := a / n;
    assert a == n * q + a % n;
    assert n * (k - q) == a % n - r;
    if k > q { MulAtLeast(n, k - q); }
    if k < q { MulAtLeast(n, q - k); }
  }

  lemma WrappedIs(a: nat, n: nat)
    requires 0 < n && a < 2 * n
    ensures a % n == Cyclic(a, n) == Wrapped(a, n)
  {
    ModIs(a, n, if a < n then 0 else 1, Wrapped(a, n));
  }

  lemma NeighbourIs(idx: int, n: int)
    requires 0 <= idx < n
    ensures Neighbour(idx, 1, n) == if idx + 1 == n then 0 else idx + 1
    ensures Neighbour(idx, -1, n) == if idx == 0 then n - 1 else idx - 1
  {
    WrappedIs(idx + 1, n);
    WrappedIs(Wrapped(idx + 1, n) + n, n);
    if idx > 0 {
      WrappedIs(idx - 1, n);
      WrappedIs(idx - 1 + n, n);
    } else if n > 1 {
      WrappedIs(1, n);
      WrappedIs(n - 1, n);
    }
  }

  /** The index d steps on. */
  function Walk(idx: int, step: int, d: nat, n: int): int
    requires n > 0
    decreases d
  {
    if d == 0 then idx else Walk(Neighbour(idx, step, n), step, d - 1, n)
  }

  lemma {:induction false} WalkUp(idx: int, d: nat, n: int)
    requires 0 <= idx < n && d < n
    ensures Walk(idx, 1, d, n) == if idx + d < n then idx + d else idx + d - n
    decreases d
  {
    if d > 0 {
      NeighbourIs(idx, n);
      WalkUp(Neighbour(idx, 1, n), d - 1, n);
    }
  }

  lemma {:induction false} WalkDown(idx: int, d: nat, n: int)
    requires 0 <= idx < n && d < n
    ensures Walk(idx, -1, d, n) == if idx - d >= 0 then idx - d else idx - d + n
    decreases d
  {
    if d > 0 {
      NeighbourIs(idx, n);
      WalkDown(Neighbour(idx, -1, n), d - 1, n);
    }
  }

  // ---------- which channel a press selects ----------

  /** A service that plays exactly the given channels, unless it says that the
      device is gone. */
  ghost predicate PlaysOrGone(play: string -> Answer, playable: set<string>) {
    forall uri :: play(uri).NotFound? || play(uri) == if uri in playable then Fine else Failed
  }

  predicate Stop(contexts: seq<Context>, playable: set<string>, i: int) {
    0 <= i < |contexts| && contexts[i].uri in playable
  }

  /** The nearest playable channel is d steps away. */
  ghost predicate Nearest(contexts: seq<Context>, playable: set<string>, idx: int, step: int, d: nat)
    requires contexts != []
  {
    && 0 < d < |contexts|
    && Stop(contexts, playable, Walk(idx, step, d, |contexts|))
    && forall e :: 0 < e < d ==> !Stop(contexts, playable, Walk(idx, step, e, |contexts|))
  }

  lemma {:induction false} ScanFindsNearest(contexts: seq<Context>, playable: set<string>, idx: int, step: int,
                                            d: nat, left: nat, play: string -> Answer)
    requires contexts != [] && PlaysOrGone(play, playable) && d <= left
    requires Nearest(contexts, playable, idx, step, d)
    ensures var r := Scan(contexts, idx, step, left, play);
            r.0.NotFound? || r == (Fine, Walk(idx, step, d, |contexts|))
    decreases d
  {
    var next := Neighbour(idx, step, |contexts|);
    assert Walk(idx, step, 1, |contexts|) == next by { assert Walk(next, step, 0, |contexts|) == next; }
    if d > 1 {
      assert !Stop(contexts, playable, next);
      forall e | 0 < e < d - 1 ensures !Stop(contexts, playable, Walk(next, step, e, |contexts|)) {
        assert !Stop(contexts, playable, Walk(idx, step, e + 1, |contexts|));
      }
      ScanFindsNearest(contexts, playable, next, step, d - 1, left - 1, play);
    }
  }

  lemma {:induction false} ScanFindsNone(contexts: seq<Context>, playable: set<string>, idx: int, step: int,
                                         left: nat, play: string -> Answer)
    requires contexts != [] && PlaysOrGone(play, playable)
    requires forall e :: 0 < e <= left ==> !Stop(contexts, playable, Walk(idx, step, e, |contexts|))
    ensures Scan(contexts, idx, step, left, play).0.NotFound? || Scan(contexts, idx, step, left, play).0.Failed?
    decreases left
  {
    if left > 0 {
      var next := Neighbour(idx, step, |contexts|);
      assert Walk(idx, step, 1, |contexts|) == next by { assert Walk(next, step, 0, |contexts|) == next; }
      forall e | 0 < e <= left - 1 ensures !Stop(contexts, playable, Walk(next, step, e, |contexts|)) {
        assert !Stop(contexts, playable, Walk(idx, step, e + 1, |contexts|));
      }
      ScanFindsNone(contexts, playable, next, step, left - 1, play);
    }
  }

  /** The nearest playable channel is d steps away; d is 0 if there is no other. */
  ghost predicate Reach(contexts: seq<Context>, playable: set<string>, idx: int, step: int, d: nat)
    requires contexts != []
  {
    if d == 0 then forall e :: 0 < e < |contexts| ==> !Stop(contexts, playable, Walk(idx, step, e, |contexts|))
    else Nearest(contexts, playable, idx, step, d)
  }

  // ---------- a press ----------

  /** Other goroutines may fill the history and look up devices; they select
      nothing. */
  ghost predicate Background(f: State -> State) {
    forall s :: Valid(s) ==>
      Rely(s, f(s)) && f(s) == s.(history := f(s).history, device := f(s).device)
  }

  /** One attempt within ten minutes of the selection, whatever the lookup of the
      receiver says and whether or not it is gone when asked to play. */
  ghost predicate CyclingAttempt(selectedAt: int, a: Attempt, playable: set<string>) {
    && Background(a.duringLookup) && Background(a.before)
    && a.clock.checkSelected - selectedAt <= CHANNELS_MAX_AGE
    && PlaysOrGone(a.play, playable)
  }

  ghost predicate CyclingPress(s: State, world: World, playable: set<string>) {
    && Background(world.start)
    && forall k :: 0 <= k < MAX_ATTEMPTS ==> CyclingAttempt(s.selectedAt, world.attempts(k), playable)
  }

  function Step(forward: bool): int {
    if forward then -1 else 1
  }

  /** The press of a button while Spotify reports the current channel. */
  function Button(s: State, forward: bool): Job {
    Choose(forward, Some(Player(true, true, Some(s.current), true)))
  }

  function PressRun(s: State, forward: bool, world: World): Run {
    WithDevice(Button(s, forward), world, s.(command := s.command + 1))
  }

  function Press(s: State, forward: bool, world: World): State {
    PressRun(s, forward, world).state
  }

  predicate Succeeds(s: State, forward: bool, world: World) {
    PressRun(s, forward, world).answer.Fine?
  }

  /** Pressing a button is one command. */
  lemma PressIsCommand(s: State, forward: bool, world: World)
    ensures Press(s, forward, world) == Execute(s, Button(s, forward), world)
  {
  }

  /** A list, a selected channel in it, and the cursor on that channel. */
  ghost predicate Cycles(s: State) {
    Valid(s) && Aligned(s) && s.cursor >= 0
  }

  ghost predicate SameList(s: State, t: State) {
    Cycles(t) && t.contexts == s.contexts
  }

  /** The same channel of the same list is selected, since the same time. */
  ghost predicate SameSelection(s: State, t: State) {
    && Valid(t)
    && t.contexts == s.contexts && t.cursor == s.cursor && t.current == s.current && t.selectedAt == s.selectedAt
  }

  lemma StillCycles(s: State, t: State)
    requires Cycles(s) && SameSelection(s, t)
    ensures SameList(s, t)
  {
  }

  lemma InBackground(f: State -> State, s: State)
    requires Background(f) && Valid(s)
    ensures SameSelection(s, f(s))
  {
    hide ValidHistory, Distinct, Named;
  }

  lemma OtherDevice(s: State, t: State, device: Option<Device>)
    requires SameSelection(s, t)
    ensures SameSelection(s, t.(device := device))
  {
    hide ValidHistory, Distinct, Named;
  }

  lemma QuietRefresh(s: State, t: State, player: Player, a: Attempt)
    requires Cycles(s) && SameSelection(s, t)
    requires player.ours && player.context == Some(s.current)
    requires a.clock.checkSelected - t.selectedAt <= CHANNELS_MAX_AGE
    ensures Refresh(t, Some(player), a) == t
  {
    var i := IndexOf(t.contexts, t.current);
    assert t.contexts[t.cursor].uri == t.current == t.contexts[i].uri;
    assert t.current != "" by { assert t.contexts[t.cursor] in t.contexts; }
  }

  /** A press selects the given channel of the list, or nothing new. */
  ghost predicate Moves(s: State, t: State, succeeded: bool, target: int) {
    if succeeded then SameList(s, t) && t.cursor == target else SameSelection(s, t)
  }

  lemma MovesThen(s: State, t: State, u: State, succeeded: bool, target: int)
    requires SameSelection(s, t) && Moves(t, u, succeeded, target)
    ensures Moves(s, u, succeeded, target)
  {
    hide Cycles, Valid;
  }

  /** With the list fresh and the cursor right, the selection only searches. */
  lemma ChooseSearches(s: State, forward: bool, a: Attempt)
    requires Cycles(s) && Background(a.before) && a.clock.checkSelected - s.selectedAt <= CHANNELS_MAX_AGE
    ensures SameSelection(s, a.before(s))
    ensures RunOnce(Button(s, forward), s, a) == Search(a.before(s), Step(forward), a)
  {
    hide Valid, Refresh, Background, Search;
    InBackground(a.before, s);
    QuietRefresh(s, a.before(s), Player(true, true, Some(s.current), true), a);
  }

  /** One run of the selection reaches the nearest playable channel, if there is
      another one, unless the device is gone. */
  lemma ChooseMoves(s: State, forward: bool, a: Attempt, playable: set<string>, d: nat)
    requires Cycles(s) && CyclingAttempt(s.selectedAt, a, playable)
    requires Reach(s.contexts, playable, s.cursor, Step(forward), d)
    ensures var (t, answer) := RunOnce(Button(s, forward), s, a);
            && (d > 0 ==> answer.Fine? || answer.NotFound?)
            && (d == 0 ==> !answer.Fine?)
            && Moves(s, t, answer.Fine?, Walk(s.cursor, Step(forward), d, |s.contexts|))
  {
    hide Valid, RunOnce, PlaysOrGone, Background, SameList, Walk, Scan, Button;
    var t, idx := a.before(s), Walk(s.cursor, Step(forward), d, |s.contexts|);
    ChooseSearches(s, forward, a);
    if d == 0 {
      ScanFindsNone(s.contexts, playable, s.cursor, Step(forward), |s.contexts| - 1, a.play);
    } else {
      StopsThere(s.contexts, playable, s.cursor, Step(forward), d);
      NearestIsNear(s.contexts, playable, s.cursor, Step(forward), d);
      ScanFindsNearest(s.contexts, playable, s.cursor, Step(forward), d, |s.contexts| - 1, a.play);
      PlayCycles(s, t, idx, a.clock.select);
    }
  }

  lemma NearestIsNear(contexts: seq<Context>, playable: set<string>, idx: int, step: int, d: nat)
    requires contexts != [] && Nearest(contexts, playable, idx, step, d)
    ensures 0 < d < |contexts|
  {
  }

  lemma PlayCycles(s: State, t: State, idx: int, now: int)
    requires Valid(t) && t.contexts == s.contexts && 0 <= idx < |t.contexts|
    ensures SameList(s, PlayChannel(t, idx, now)) && PlayChannel(t, idx, now).cursor == idx
  {
    hide ValidHistory, Distinct, Named;
  }

  /** So does a command, however often the receiver is gone or has to be waited
      for on the way. */
  lemma {:induction false} RetryMoves(s: State, forward: bool, world: World, k: nat, dev: Option<Device>, last: Answer,
                                      done: seq<Event>, playable: set<string>, d: nat)
    requires Cycles(s) && CyclingPress(s, world, playable) && (k >= MAX_ATTEMPTS ==> !last.Fine?)
    requires Reach(s.contexts, playable, s.cursor, Step(forward), d)
    ensures var r := Retry(Button(s, forward), world, k, dev, last, s, done);
            && Moves(s, r.state, r.answer.Fine?, Walk(s.cursor, Step(forward), d, |s.contexts|))
            && (d == 0 ==> !r.answer.Fine?)
    decreases MAX_ATTEMPTS - k
  {
    hide Reach, Walk, Call, Valid, Background, PlaysOrGone;
    if k >= MAX_ATTEMPTS {
    } else if dev.Some? {
      CallMoves(s, forward, world, k, dev.value, done, playable, d);
    } else {
      var a, target := world.attempts(k), Walk(s.cursor, Step(forward), d, |s.contexts|);
      assert CyclingAttempt(s.selectedAt, a, playable);
      var t := a.duringLookup(s);
      InBackground(a.duringLookup, s);
      StillCycles(s, t);
      match a.lookup
      case Found(device) =>
        var u, asked := t.(device := Some(device)), done + [LookedUp(Some(device))];
        OtherDevice(s, t, Some(device));
        StillCycles(s, u);
        CallMoves(u, forward, world, k, device, asked, playable, d);
        var r := Call(Button(s, forward), world, k, device, u, asked);
        MovesThen(s, u, r.state, r.answer.Fine?, target);
      case Absent =>
        if k < MAX_ATTEMPTS - 1 {
          var asked := done + [LookedUp(None)] + [Waited];
          RetryMoves(t, forward, world, k + 1, None, NoDevice, asked, playable, d);
          var r := Retry(Button(s, forward), world, k + 1, None, NoDevice, t, asked);
          MovesThen(s, t, r.state, r.answer.Fine?, target);
        }
      case LookupFailed =>
    }
  }

  lemma {:induction false} CallMoves(s: State, forward: bool, world: World, k: nat, device: Device, done: seq<Event>,
                                     playable: set<string>, d: nat)
    requires Cycles(s) && CyclingPress(s, world, playable) && k < MAX_ATTEMPTS
    requires Reach(s.contexts, playable, s.cursor, Step(forward), d)
    ensures var r := Call(Button(s, forward), world, k, device, s, done);
            && Moves(s, r.state, r.answer.Fine?, Walk(s.cursor, Step(forward), d, |s.contexts|))
            && (d == 0 ==> !r.answer.Fine?)
    decreases MAX_ATTEMPTS - k, 0
  {
    hide Reach, Walk, Retry, RunOnce, Valid, Background, PlaysOrGone;
    assert CyclingAttempt(s.selectedAt, world.attempts(k), playable);
    ChooseMoves(s, forward, world.attempts(k), playable, d);
    var (t, answer) := RunOnce(Button(s, forward), s, world.attempts(k));
    if answer.NotFound? {
      var u, called := t.(device := None), done + [Called(device, answer)];
      OtherDevice(s, t, None);
      StillCycles(s, u);
      RetryMoves(u, forward, world, k + 1, None, NotFound, called, playable, d);
      var r := Retry(Button(s, forward), world, k + 1, None, NotFound, u, called);
      MovesThen(s, u, r.state, r.answer.Fine?, Walk(s.cursor, Step(forward), d, |s.contexts|));
    }
  }

  /** A press that succeeds moves to the nearest playable channel in its direction
      and keeps the list; one that fails leaves the selection as it is. */
  lemma PressMoves(s: State, forward: bool, world: World, playable: set<string>, d: nat)
    requires Cycles(s) && CyclingPress(s, world, playable)
    requires Reach(s.contexts, playable, s.cursor, Step(forward), d)
    ensures Moves(s, Press(s, forward, world), Succeeds(s, forward, world),
                  Walk(s.cursor, Step(forward), d, |s.contexts|))
    ensures d == 0 ==> !Succeeds(s, forward, world)
  {
    hide Reach, Walk, Retry, Background, ValidHistory, Distinct, Named, PlaysOrGone;
    var s1 := s.(command := s.command + 1);
    assert SameSelection(s, s1) && Cycles(s1);
    var t := world.start(s1);
    InBackground(world.start, s1);
    assert SameSelection(s, t);
    StillCycles(s, t);
    RetryMoves(t, forward, world, 0, t.device, Fine, [], playable, d);
    var r := PressRun(s, forward, world);
    MovesThen(s, t, r.state, r.answer.Fine?, Walk(s.cursor, Step(forward), d, |s.contexts|));
  }

  /** With no other playable channel in the list a press does nothing; the one that
      plays is not started again. */
  lemma PressWithoutAnother(s: State, forward: bool, world: World, playable: set<string>)
    requires Cycles(s) && CyclingPress(s, world, playable)
    requires forall i :: Stop(s.contexts, playable, i) ==> i == s.cursor
    ensures !Succeeds(s, forward, world) && SameSelection(s, Press(s, forward, world))
  {
    hide Press, Succeeds, CyclingPress, Valid;
    var n := |s.contexts|;
    forall e | 0 < e < n ensures !Stop(s.contexts, playable, Walk(s.cursor, Step(forward), e, n)) {
      if forward { WalkDown(s.cursor, e, n); } else { WalkUp(s.cursor, e, n); }
    }
    PressMoves(s, forward, world, playable, 0);
  }

  lemma AnswerIsFromPlay(s: State, job: Job, a: Attempt)
    requires job.Choose?
    ensures var answer := RunOnce(job, s, a).1; answer.Fine? || answer.NotFound? ==> exists uri :: a.play(uri) == answer
  {
    hide Refresh, PlayChannel;
  }

  function Reached(selectedAt: int, play: string -> Answer): Attempt {
    var same := (x: State) => x;
    Attempt(Found("receiver"), same, Clock(0, selectedAt, 0, selectedAt), None, Failed, Failed, play, None,
            same, same, same)
  }

  function PlaysOnly(playable: set<string>): string -> Answer {
    uri => if uri in playable then Fine else Failed
  }

  function PlaysNothing(): string -> Answer {
    uri => NotFound
  }

  /** The device is gone at the first attempt and back at the next. */
  function GoneOnce(s: State, playable: set<string>): World {
    World(x => x, k => Reached(s.selectedAt, if k == 0 then PlaysNothing() else PlaysOnly(playable)))
  }

  lemma ReachedIsCycling(selectedAt: int, play: string -> Answer, playable: set<string>)
    requires PlaysOrGone(play, playable)
    ensures CyclingAttempt(selectedAt, Reached(selectedAt, play), playable) && FairAttempt(Reached(selectedAt, play))
  {
    hide ValidHistory, Distinct, Named;
  }

  lemma GoneOnceIsCycling(s: State, playable: set<string>)
    ensures CyclingPress(s, GoneOnce(s, playable), playable) && Fair(GoneOnce(s, playable))
    ensures PlaysOrGone(PlaysNothing(), playable) && PlaysOrGone(PlaysOnly(playable), playable)
  {
    hide ValidHistory, Distinct, Named, CyclingAttempt, FairAttempt, Reached;
    ReachedIsCycling(s.selectedAt, PlaysNothing(), playable);
    ReachedIsCycling(s.selectedAt, PlaysOnly(playable), playable);
  }

  lemma ReachedAnswers(s: State, forward: bool, play: string -> Answer, playable: set<string>, d: nat)
    requires Cycles(s) && PlaysOrGone(play, playable)
    requires Nearest(s.contexts, playable, s.cursor, Step(forward), d)
    ensures var (t, answer) := RunOnce(Button(s, forward), s, Reached(s.selectedAt, play));
            && (answer.Fine? || (answer.NotFound? && SameSelection(s, t)))
            && exists uri :: play(uri) == answer
  {
    hide Nearest, Walk, RunOnce, Valid, Background, CyclingAttempt, PlaysOrGone, FairAttempt;
    ReachedIsCycling(s.selectedAt, play, playable);
    NearestIsNear(s.contexts, playable, s.cursor, Step(forward), d);
    ChooseMoves(s, forward, Reached(s.selectedAt, play), playable, d);
    AnswerIsFromPlay(s, Button(s, forward), Reached(s.selectedAt, play));
  }

  /** The press that the retry is for: from every cycling state there is a world in
      which the device is gone at the first attempt and the press succeeds all the
      same. */
  lemma PressAfterGone(s: State, forward: bool, playable: set<string>, d: nat)
    requires Cycles(s) && Nearest(s.contexts, playable, s.cursor, Step(forward), d)
    ensures CyclingPress(s, GoneOnce(s, playable), playable) && Fair(GoneOnce(s, playable))
    ensures forall uri :: GoneOnce(s, playable).attempts(0).play(uri).NotFound?
    ensures Succeeds(s, forward, GoneOnce(s, playable))
  {
    hide Nearest, RunOnce, ValidHistory, Distinct, Named, CyclingPress, Fair, Button, PlaysOrGone;
    GoneOnceIsCycling(s, playable);
    var world := GoneOnce(s, playable);
    var s1 := s.(command := s.command + 1);
    var device := if s1.device.Some? then s1.device.value else "receiver";
    var s2 := if s1.device.Some? then s1 else s1.(device := Some(device));
    SameButton(s, s2, forward);
    ReachedAnswers(s2, forward, PlaysNothing(), playable, d);
    var s3 := RunOnce(Button(s, forward), s2, world.attempts(0)).0;
    var s4 := s3.(device := None).(device := Some("receiver"));
    SameButton(s, s4, forward);
    ReachedAnswers(s4, forward, PlaysOnly(playable), playable, d);
  }

  lemma SameButton(s: State, t: State, forward: bool)
    requires s.current == t.current
    ensures Button(s, forward) == Button(t, forward)
  {
  }

  // ---------- back and forward are inverse ----------

  /** Walking d steps and then e back is walking d - e steps. */
  lemma WalkBack(idx: int, forward: bool, d: nat, e: nat, n: int)
    requires 0 <= idx < n && e <= d < n
    ensures 0 <= Walk(idx, Step(forward), d, n) < n
    ensures Walk(Walk(idx, Step(forward), d, n), Step(!forward), e, n) == Walk(idx, Step(forward), d - e, n)
  {
    hide Walk;
    if forward {
      WalkDown(idx, d, n);
      WalkDown(idx, d - e, n);
      WalkUp(if idx - d >= 0 then idx - d else idx - d + n, e, n);
    } else {
      WalkUp(idx, d, n);
      WalkUp(idx, d - e, n);
      WalkDown(if idx + d < n then idx + d else idx + d - n, e, n);
    }
  }

  lemma NearestBackwards(contexts: seq<Context>, playable: set<string>, idx: int, forward: bool, d: nat)
    requires Stop(contexts, playable, idx) && Nearest(contexts, playable, idx, Step(forward), d)
    ensures var n := |contexts|; var k := Walk(idx, Step(forward), d, n);
            && 0 <= k < n && k != idx
            && Walk(k, Step(!forward), d, n) == idx
            && Nearest(contexts, playable, k, Step(!forward), d)
  {
    var n, back := |contexts|, Step(!forward);
    var k := Walk(idx, Step(forward), d, n);
    WalkBack(idx, forward, d, d, n);
    assert Walk(idx, Step(forward), 0, n) == idx;
    if forward { WalkDown(idx, d, n); } else { WalkUp(idx, d, n); }
    forall e | 0 < e < d ensures !Stop(contexts, playable, Walk(k, back, e, n)) {
      WalkBack(idx, forward, d, e, n);
      assert !Stop(contexts, playable, Walk(idx, Step(forward), d - e, n));
    }
  }

  lemma SomeNearest(contexts: seq<Context>, playable: set<string>, idx: int, forward: bool, other: int) returns (d: nat)
    requires 0 <= idx < |contexts| && other != idx && Stop(contexts, playable, other)
    ensures Nearest(contexts, playable, idx, Step(forward), d)
  {
    var n := |contexts|;
    var far := if forward then (if other < idx then idx - other else idx - other + n)
               else (if other > idx then other - idx else other - idx + n);
    WalkUp(idx, far, n);
    WalkDown(idx, far, n);
    d := 1;
    while !Stop(contexts, playable, Walk(idx, Step(forward), d, n))
      invariant 0 < d <= far
      invariant forall e :: 0 < e < d ==> !Stop(contexts, playable, Walk(idx, Step(forward), e, n))
      decreases far - d
    {
      d := d + 1;
    }
  }

  /** From a playable channel, with another one in the list, a press moves to
      another playable channel, and a press of the other button moves back; a
      press that fails moves nothing. */
  lemma OtherButtonUndoes(s: State, forward: bool, first: World, second: World, playable: set<string>, other: int)
    requires Cycles(s) && s.current in playable
    requires other != s.cursor && Stop(s.contexts, playable, other)
    requires CyclingPress(s, first, playable) && CyclingPress(Press(s, forward, first), second, playable)
    ensures var t := Press(s, forward, first);
            && SameList(s, t) && t.current in playable
            && (t.cursor != s.cursor <==> Succeeds(s, forward, first))
    ensures var t := Press(s, forward, first); var u := Press(t, !forward, second);
            && SameList(s, u)
            && (Succeeds(s, forward, first) && Succeeds(t, !forward, second) ==>
                  u.cursor == s.cursor && u.current == s.current)
  {
    hide Press, Succeeds, CyclingPress, Nearest, Valid;
    var d := SomeNearest(s.contexts, playable, s.cursor, forward, other);
    NearestBackwards(s.contexts, playable, s.cursor, forward, d);
    PressMoves(s, forward, first, playable, d);
    var t := Press(s, forward, first);
    StopsThere(s.contexts, playable, s.cursor, Step(forward), d);
    if Succeeds(s, forward, first) {
      PressMoves(t, !forward, second, playable, d);
    } else {
      var e := SomeNearest(s.contexts, playable, s.cursor, !forward, other);
      PressMoves(t, !forward, second, playable, e);
    }
  }

  lemma StopsThere(contexts: seq<Context>, playable: set<string>, idx: int, step: int, d: nat)
    requires contexts != [] && Nearest(contexts, playable, idx, step, d)
    ensures Stop(contexts, playable, Walk(idx, step, d, |contexts|))
  {
  }

  // ---------- a full orbit ----------

  /** The indices of the playable channels, ascending. */
  function Stops(contexts: seq<Context>, playable: set<string>): seq<int> {
    if contexts == [] then []
    else
      var last := |contexts| - 1;
      Stops(contexts[..last], playable) + if contexts[last].uri in playable then [last] else []
  }

  lemma {:induction false} StopsAre(contexts: seq<Context>, playable: set<string>)
    ensures forall i :: i in Stops(contexts, playable) <==> Stop(contexts, playable, i)
    ensures forall j, k :: 0 <= j < k < |Stops(contexts, playable)| ==>
              Stops(contexts, playable)[j] < Stops(contexts, playable)[k]
  {
    if contexts == [] {
    } else {
      var last := |contexts| - 1;
      StopsAre(contexts[..last], playable);
      var front := Stops(contexts[..last], playable);
      assert forall k :: 0 <= k < |front| ==> front[k] in front;
      assert forall i :: Stop(contexts, playable, i) <==>
               Stop(contexts[..last], playable, i) || (i == last && contexts[last].uri in playable);
    }
  }

  /** From one stop, the nearest one further back is the next in the order, and
      after the last one the first. */
  lemma NextStop(contexts: seq<Context>, playable: set<string>, j: nat) returns (d: nat)
    requires 1 < |Stops(contexts, playable)| && j < |Stops(contexts, playable)|
    ensures contexts != []
    ensures var q := Stops(contexts, playable);
            && Nearest(contexts, playable, q[j], 1, d)
            && Walk(q[j], 1, d, |contexts|) == q[Wrapped(j + 1, |q|)]
  {
    var q, n := Stops(contexts, playable), |contexts|;
    StopsAre(contexts, playable);
    var next := Wrapped(j + 1, |q|);
    assert q[j] in q && q[next] in q && q[0] in q;
    assert Stop(contexts, playable, q[j]) && Stop(contexts, playable, q[next]);
    d := if next > 0 then q[next] - q[j] else q[next] - q[j] + n;
    WalkUp(q[j], d, n);
    forall e | 0 < e < d ensures !Stop(contexts, playable, Walk(q[j], 1, e, n)) {
      WalkUp(q[j], e, n);
      var i := Walk(q[j], 1, e, n);
      assert forall k :: 0 <= k < |q| ==> q[k] != i by {
        forall k | 0 <= k < |q| ensures q[k] != i {
          assert k < j ==> q[k] < q[j];
          assert j < k ==> q[j] < q[k];
          assert 0 < k ==> q[0] < q[k];
          assert j + 1 < k ==> q[j + 1] < q[k];
        }
      }
      assert i !in q;
    }
  }

  /** The state after m back presses, and the cursor after each that succeeded. */
  function Presses(s: State, worlds: nat -> World, m: nat): State {
    if m == 0 then s else Press(Presses(s, worlds, m - 1), false, worlds(m - 1))
  }

  function Visited(s: State, worlds: nat -> World, m: nat): seq<int> {
    if m == 0 then []
    else
      var t := Presses(s, worlds, m - 1);
      Visited(s, worlds, m - 1) +
      if Succeeds(t, false, worlds(m - 1)) then [Press(t, false, worlds(m - 1)).cursor] else []
  }

  /** From the stop at the given place, on to the next one or nowhere. */
  ghost predicate MovesOn(s: State, t: State, succeeded: bool, q: seq<int>, at: nat)
    requires at < |q|
  {
    SameList(s, t) && t.cursor == if succeeded then q[Wrapped(at + 1, |q|)] else q[at]
  }

  lemma BackPress(s: State, t: State, world: World, playable: set<string>, at: nat)
    requires SameList(s, t) && 1 < |Stops(s.contexts, playable)| && at < |Stops(s.contexts, playable)|
    requires t.cursor == Stops(s.contexts, playable)[at] && CyclingPress(t, world, playable)
    ensures MovesOn(s, Press(t, false, world), Succeeds(t, false, world), Stops(s.contexts, playable), at)
  {
    hide Press, Succeeds, CyclingPress, Nearest, Valid, Aligned, Stops, Walk;
    var d := NextStop(s.contexts, playable, at);
    PressMoves(t, false, world, playable, d);
    if !Succeeds(t, false, world) { StillCycles(t, Press(t, false, world)); }
  }

  ghost predicate AllCycling(s: State, worlds: nat -> World, m: nat, playable: set<string>) {
    forall i :: 0 <= i < m ==> CyclingPress(Presses(s, worlds, i), worlds(i), playable)
  }

  /** Back presses from the j-th stop, m of which succeed, lead to the (j + m)-th,
      modulo their number, and through those between. */
  ghost predicate FollowsStops(s: State, t: State, visited: seq<int>, q: seq<int>, j: nat)
    requires q != []
  {
    && SameList(s, t)
    && t.cursor == q[Cyclic(j + |visited|, |q|)]
    && forall i :: 0 <= i < |visited| ==> visited[i] == q[Cyclic(j + i + 1, |q|)]
  }

  lemma {:induction false} BackPressesFollowStops(s: State, worlds: nat -> World, m: nat, playable: set<string>, j: nat)
    requires Cycles(s)
    requires 1 < |Stops(s.contexts, playable)| && j < |Stops(s.contexts, playable)|
    requires s.cursor == Stops(s.contexts, playable)[j]
    requires AllCycling(s, worlds, m, playable)
    ensures FollowsStops(s, Presses(s, worlds, m), Visited(s, worlds, m), Stops(s.contexts, playable), j)
  {
    hide *;
    PressesStep(s, worlds, m, playable);
    if m == 0 {
      NoPress(s, Stops(s.contexts, playable), j);
    } else {
      BackPressesFollowStops(s, worlds, m - 1, playable, j);
      NextPress(s, Presses(s, worlds, m - 1), Visited(s, worlds, m - 1), worlds(m - 1), playable, j);
    }
  }

  lemma PressesStep(s: State, worlds: nat -> World, m: nat, playable: set<string>)
    requires AllCycling(s, worlds, m, playable)
    ensures m == 0 ==> Presses(s, worlds, m) == s && Visited(s, worlds, m) == []
    ensures m > 0 ==>
              var t := Presses(s, worlds, m - 1); var u := Press(t, false, worlds(m - 1));
              && AllCycling(s, worlds, m - 1, playable) && CyclingPress(t, worlds(m - 1), playable)
              && Presses(s, worlds, m) == u
              && Visited(s, worlds, m) ==
                 Visited(s, worlds, m - 1) + if Succeeds(t, false, worlds(m - 1)) then [u.cursor] else []
  {
    hide Press, Succeeds, CyclingPress;
  }

  lemma NoPress(s: State, q: seq<int>, j: nat)
    requires Cycles(s) && j < |q| && s.cursor == q[j]
    ensures FollowsStops(s, s, [], q, j)
  {
    hide Cycles;
    WrappedIs(j, |q|);
  }

  lemma NextPress(s: State, t: State, visited: seq<int>, world: World, playable: set<string>, j: nat)
    requires 1 < |Stops(s.contexts, playable)|
    requires FollowsStops(s, t, visited, Stops(s.contexts, playable), j) && CyclingPress(t, world, playable)
    ensures var u := Press(t, false, world);
            FollowsStops(s, u, visited + if Succeeds(t, false, world) then [u.cursor] else [],
                         Stops(s.contexts, playable), j)
  {
    hide Press, Succeeds, CyclingPress, Cycles, Stops, Cyclic;
    var q := Stops(s.contexts, playable);
    BackPress(s, t, world, playable, Cyclic(j + |visited|, |q|));
    ModStep(j + |visited|, |q|);
    assert visited + [] == visited;
  }

  lemma ModStep(a: nat, n: nat)
    requires n > 1
    ensures Cyclic(a + 1, n) == Wrapped(Cyclic(a, n) + 1, n)
  {
    var r := a % n;
    assert a == n * (a / n) + r;
    ModIs(a + 1, n, if r + 1 < n then a / n else a / n + 1, Wrapped(r + 1, n));
  }

  /** A walk through q from behind its j-th element, around the end, as long as q. */
  lemma RotationVisitsAll(q: seq<int>, visited: seq<int>, j: nat)
    requires j < |q| && |visited| == |q|
    requires forall i, k :: 0 <= i < k < |q| ==> q[i] < q[k]
    requires forall m :: 0 <= m < |visited| ==> visited[m] == q[Wrapped(j + m + 1, |q|)]
    ensures visited[|q| - 1] == q[j]
    ensures forall i :: i in visited <==> i in q
    ensures forall m, k :: 0 <= m < k < |visited| ==> visited[m] != visited[k]
  {
    forall i | i in q ensures i in visited {
      var k :| 0 <= k < |q| && q[k] == i;
      var m := if k > j then k - j - 1 else k - j - 1 + |q|;
      assert visited[m] == q[Wrapped(j + m + 1, |q|)];
    }
    forall m, k | 0 <= m < k < |visited| ensures visited[m] != visited[k] {
      var a, b := Wrapped(j + m + 1, |q|), Wrapped(j + k + 1, |q|);
      assert if a < b then q[a] < q[b] else q[b] < q[a];
    }
  }

  /** As many successful back presses as there are playable channels visit every
      one of them exactly once and end where they began, however many presses
      failed in between. */
  lemma BackPressesVisitAll(s: State, worlds: nat -> World, m: nat, playable: set<string>)
    requires Cycles(s) && s.current in playable && 1 < |Stops(s.contexts, playable)|
    requires AllCycling(s, worlds, m, playable)
    requires |Visited(s, worlds, m)| == |Stops(s.contexts, playable)|
    ensures var visited := Visited(s, worlds, m);
            && SameList(s, Presses(s, worlds, m)) && Presses(s, worlds, m).cursor == s.cursor
            && (forall i :: i in visited <==> Stop(s.contexts, playable, i))
            && (forall i, k :: 0 <= i < k < |visited| ==> visited[i] != visited[k])
  {
    hide AllCycling, Valid, Cyclic, Presses, Visited, Stops, SameList;
    var q, visited := Stops(s.contexts, playable), Visited(s, worlds, m);
    StopsAre(s.contexts, playable);
    assert s.cursor in q;
    var j :| 0 <= j < |q| && q[j] == s.cursor;
    BackPressesFollowStops(s, worlds, m, playable, j);
    forall i | 0 <= i < |q| ensures visited[i] == q[Wrapped(j + i + 1, |q|)] {
      WrappedIs(j + i + 1, |q|);
    }
    RotationVisitsAll(q, visited, j);
    WrappedIs(j + |q|, |q|);
  }

  // ---------- with nothing selected ----------

  ghost predicate QuietAttempt(a: Attempt) {
    Background(a.duringLookup) && Background(a.before) && Background(a.beforePoll) && Background(a.afterPoll)
  }

  /** Nothing is current, and Spotify reports nothing for our device. */
  ghost predicate NothingSelected(s: State, player: Option<Player>) {
    Valid(s) && s.current == "" && !(player.Some? && player.value.ours && player.value.context.Some?)
  }

  /** The first channel of the list was selected, and could be played. */
  ghost predicate AtTheTop(t: State, world: World) {
    && Top(t)
    && exists k :: 0 <= k < 4 && world.attempts(k).play(t.current).Fine?
  }

  ghost predicate Top(t: State) {
    t.contexts != [] && t.cursor == 0 && t.current == t.contexts[0].uri
  }

  /** The first channel was tried and no other, with this answer. */
  ghost predicate TriedTop(t: State, answer: Answer, player: Option<Player>, play: string -> Answer) {
    && answer == (if t.contexts == [] then Failed else play(t.contexts[0].uri))
    && if answer.Fine? then Top(t) else NothingSelected(t, player)
  }

  lemma StillNothing(s: State, f: State -> State, player: Option<Player>)
    requires NothingSelected(s, player) && Background(f)
    ensures NothingSelected(f(s), player)
  {
    hide ValidHistory, Distinct, Named;
  }

  lemma NothingRefreshed(s: State, player: Option<Player>, a: Attempt)
    requires NothingSelected(s, player) && QuietAttempt(a)
    ensures var r := Refresh(s, player, a);
            NothingSelected(r, player) && (r.contexts != [] ==> r.cursor == -1)
  {
    hide ValidHistory, Distinct, Named, Poll, Background;
    RefreshAligns(s, player, a) by { BackgroundObeys(a.beforePoll); BackgroundObeys(a.afterPoll); }
    SameCurrent(s, a);
  }

  lemma BackgroundObeys(f: State -> State)
    requires Background(f)
    ensures Obeys(f)
  {
    hide ValidHistory, Distinct, Named;
  }

  /** One run of the selection tries the first channel of the list and no other. */
  lemma ChooseTop(s: State, forward: bool, player: Option<Player>, a: Attempt)
    requires NothingSelected(s, player) && QuietAttempt(a)
    ensures var (t, answer) := ChooseOnce(s, forward, player, a); TriedTop(t, answer, player, a.play)
  {
    hide Refresh, Background, ValidHistory, Distinct, Named, Scan;
    StillNothing(s, a.before, player);
    NothingRefreshed(a.before(s), player, a);
  }

  lemma {:induction false} RetryTop(s: State, forward: bool, player: Option<Player>, world: World, k: nat,
                                    dev: Option<Device>, last: Answer, done: seq<Event>)
    requires NothingSelected(s, player) && (k >= MAX_ATTEMPTS ==> !last.Fine?)
    requires forall i :: 0 <= i < MAX_ATTEMPTS ==> QuietAttempt(world.attempts(i))
    ensures var r := Retry(Choose(forward, player), world, k, dev, last, s, done);
            if r.answer.Fine? then AtTheTop(r.state, world) else NothingSelected(r.state, player)
    decreases MAX_ATTEMPTS - k
  {
    hide Call, Background, ValidHistory, Distinct, Named, AtTheTop;
    if k >= MAX_ATTEMPTS {
    } else if dev.Some? {
      CallTop(s, forward, player, world, k, dev.value, done);
    } else {
      assert QuietAttempt(world.attempts(k));
      var t := world.attempts(k).duringLookup(s);
      StillNothing(s, world.attempts(k).duringLookup, player);
      match world.attempts(k).lookup
      case Found(d) =>
        CallTop(t.(device := Some(d)), forward, player, world, k, d, done + [LookedUp(Some(d))]);
      case Absent =>
        if k < MAX_ATTEMPTS - 1 {
          RetryTop(t, forward, player, world, k + 1, None, NoDevice, done + [LookedUp(None)] + [Waited]);
        }
      case LookupFailed =>
    }
  }

  lemma {:induction false} CallTop(s: State, forward: bool, player: Option<Player>, world: World, k: nat, d: Device,
                                   done: seq<Event>)
    requires NothingSelected(s, player) && k < MAX_ATTEMPTS
    requires forall i :: 0 <= i < MAX_ATTEMPTS ==> QuietAttempt(world.attempts(i))
    ensures var r := Call(Choose(forward, player), world, k, d, s, done);
            if r.answer.Fine? then AtTheTop(r.state, world) else NothingSelected(r.state, player)
    decreases MAX_ATTEMPTS - k, 0
  {
    hide Retry, ChooseOnce, Background, ValidHistory, Distinct, Named, QuietAttempt;
    ChooseTop(s, forward, player, world.attempts(k));
    var (t, answer) := ChooseOnce(s, forward, player, world.attempts(k));
    if answer.NotFound? {
      RetryTop(t.(device := None), forward, player, world, k + 1, None, NotFound, done + [Called(d, answer)]);
    }
  }

  /** With nothing selected, either button selects the first channel of the list,
      the one listened to last. Nothing is skipped: if that one cannot be played,
      nothing is selected. */
  lemma FirstSelectionIsTheTop(s: State, forward: bool, player: Option<Player>, world: World)
    requires NothingSelected(s, player) && Background(world.start)
    requires forall i :: 0 <= i < MAX_ATTEMPTS ==> QuietAttempt(world.attempts(i))
    ensures var r := WithDevice(Choose(forward, player), world, s);
            if r.answer.Fine? then AtTheTop(r.state, world) else NothingSelected(r.state, player)
  {
    hide Background, AtTheTop, NothingSelected, QuietAttempt;
    StillNothing(s, world.start, player);
    var t := world.start(s);
    RetryTop(t, forward, player, world, 0, t.device, Fine, []);
  }

  // ---------- the list is stable while the user cycles ----------

  /** b is a with more channels put in front. */
  ghost predicate Extends(a: seq<Context>, b: seq<Context>) {
    |a| <= |b| && b[|b| - |a|..] == a
  }

  lemma ExtendsThen(a: seq<Context>, b: seq<Context>, c: seq<Context>)
    requires Extends(a, b) && Extends(b, c)
    ensures Extends(a, c)
  {
    assert c[|c| - |a|..] == c[|c| - |b|..][|b| - |a|..];
  }

  /** Whatever the command asks of Spotify, other goroutines stay in the
      background and the last selection is at most ten minutes ago. */
  ghost predicate InUse(s: State, world: World) {
    && Valid(s) && s.contexts != [] && Fair(world) && Background(world.start)
    && forall k :: 0 <= k < MAX_ATTEMPTS ==> UsedAttempt(s.selectedAt, world.attempts(k))
  }

  ghost predicate UsedAttempt(selectedAt: int, a: Attempt) {
    && Background(a.duringLookup) && Background(a.before)
    && a.clock.checkSelected - selectedAt <= CHANNELS_MAX_AGE
  }

  lemma RefreshExtends(t: State, player: Option<Player>, a: Attempt)
    requires t.contexts != [] && !Stale(t, a.clock)
    ensures var r := Refresh(t, player, a);
            r.contexts != [] && r.selectedAt == t.selectedAt && Extends(t.contexts, r.contexts)
  {
  }

  /** A list that was just re-taken is the history, with at most what plays now
      in front of it; and it is not re-taken again for ten minutes. */
  lemma RetakenListStays(s: State, player: Option<Player>, a: Attempt, later: Option<Player>, b: Attempt)
    requires s.contexts == [] || Stale(s, a.clock)
    requires b.clock.checkFetched - a.clock.fetch <= CHANNELS_MAX_AGE
    ensures var r := Refresh(s, player, a);
            && Extends(r.history, r.contexts) && |r.contexts| <= |r.history| + 1
            && (r.contexts != [] ==> Extends(r.contexts, Refresh(r, later, b).contexts))
  {
    var r := Refresh(s, player, a);
    if r.contexts != [] { RefreshExtends(r, later, b); }
  }

  /** Nor is a list re-taken within ten minutes of a selection from it. */
  lemma SelectedListStays(s: State, idx: int, now: int, later: Option<Player>, b: Attempt)
    requires 0 <= idx < |s.contexts| && b.clock.checkSelected - now <= CHANNELS_MAX_AGE
    ensures Extends(s.contexts, Refresh(PlayChannel(s, idx, now), later, b).contexts)
  {
    RefreshExtends(PlayChannel(s, idx, now), later, b);
  }

  /** What plays on our device is what the cursor moves to, also when it was
      selected elsewhere and even when the history does not know it. */
  lemma PlayingElsewhereIsFollowed(s: State, player: Option<Player>, a: Attempt)
    requires Valid(s) && Background(a.beforePoll) && Background(a.afterPoll)
    requires PlayingUri(player).Some? && PlayingUri(player).value != ""
    ensures var r := Refresh(s, player, a);
            r.contexts != [] ==>
              && r.current == PlayingUri(player).value
              && 0 <= r.cursor < |r.contexts| && r.contexts[r.cursor].uri == r.current
  {
    hide Reload, Align, Background, ValidHistory, Distinct, Named;
    var heard := Heard(s, player);
    assert Valid(heard);
    SameCurrent(heard, a);
    AlignFinds(if heard.contexts == [] || Stale(heard, a.clock) then Reload(heard, a) else heard);
  }

  lemma SameCurrent(s: State, a: Attempt)
    requires Valid(s) && Background(a.beforePoll) && Background(a.afterPoll)
    ensures Reload(s, a).current == s.current
  {
    hide Poll;
    var b := a.beforePoll(s);
    assert b.current == s.current && Valid(b);
    PollObeys(b, a.poll);
    PollCurrent(b, a.poll);
  }

  lemma PollCurrent(s: State, poll: Option<seq<Context>>)
    ensures Poll(s, poll).current == s.current
  {
  }

  lemma AlignFinds(s: State)
    requires s.current != ""
    ensures var r := Align(s);
            r.current == s.current
            && (r.contexts != [] ==> 0 <= r.cursor < |r.contexts| && r.contexts[r.cursor].uri == r.current)
  {
  }

  lemma ChooseExtends(s: State, forward: bool, player: Option<Player>, a: Attempt)
    requires Valid(s) && s.contexts != [] && UsedAttempt(s.selectedAt, a)
    ensures var (t, answer) := ChooseOnce(s, forward, player, a);
            Extends(s.contexts, t.contexts) && (!answer.Fine? ==> t.selectedAt == s.selectedAt)
  {
    hide Refresh, Valid, Extends, Scan, UsedAttempt;
    var b := a.before(s);
    BackgroundIs(s, a);
    RefreshExtends(b, player, a);
  }

  lemma BeginExtends(s: State, player: Option<Player>, a: Attempt)
    requires Valid(s) && s.contexts != [] && UsedAttempt(s.selectedAt, a)
    ensures var (t, answer) := BeginOnce(s, player, a);
            Extends(s.contexts, t.contexts) && (!answer.Fine? ==> t.selectedAt == s.selectedAt)
  {
    hide Refresh, Valid, Extends, IndexOf, UsedAttempt;
    var b := a.before(s);
    BackgroundIs(s, a);
    RefreshExtends(b, player, a);
    ExtendsSelf(b.contexts);
  }

  lemma ExtendsSelf(a: seq<Context>)
    ensures Extends(a, a)
  {
  }

  lemma BackgroundIs(s: State, a: Attempt)
    requires Valid(s) && UsedAttempt(s.selectedAt, a)
    ensures var b := a.before(s); b == s.(history := b.history, device := b.device)
    ensures a.clock.checkSelected - s.selectedAt <= CHANNELS_MAX_AGE
  {
  }

  lemma RunOnceExtends(job: Job, s: State, a: Attempt)
    requires Valid(s) && s.contexts != [] && UsedAttempt(s.selectedAt, a)
    ensures var (t, answer) := RunOnce(job, s, a);
            Extends(s.contexts, t.contexts) && (!answer.Fine? ==> t.selectedAt == s.selectedAt)
  {
    hide ChooseOnce, BeginOnce, Valid, UsedAttempt, Extends;
    match job
    case Choose(forward, player) => ChooseExtends(s, forward, player, a);
    case Begin(player) => BeginExtends(s, player, a);
    case Replay(uri) =>
      BackgroundIs(s, a);
      ExtendsSelf(s.contexts);
  }

  lemma AttemptExtends(job: Job, s: State, world: World, k: nat)
    requires InUse(s, world) && k < MAX_ATTEMPTS
    ensures var (t, answer) := RunOnce(job, s, world.attempts(k));
            Extends(s.contexts, t.contexts) && (!answer.Fine? ==> InUse(t.(device := None), world))
  {
    hide Valid, RunOnce, Background, Obeys, Advances, Selected;
    RunOnceExtends(job, s, world.attempts(k));
    RunOnceKeeps(job, s, world.attempts(k));
    var (t, answer) := RunOnce(job, s, world.attempts(k));
    if !answer.Fine? { KeptThen(job, s, t, None); }
  }

  lemma NewDeviceInUse(s: State, world: World, device: Option<Device>)
    requires InUse(s, world)
    ensures InUse(s.(device := device), world)
  {
    hide ValidHistory, Distinct, Named, Background;
    assert Valid(s.(device := device));
  }

  lemma InterfereInUse(s: State, f: State -> State, world: World)
    requires InUse(s, world) && Background(f)
    ensures InUse(f(s), world) && f(s).contexts == s.contexts
  {
    hide UsedAttempt, Fair, Valid;
    InBackground(f, s);
    assert Valid(f(s)) by { SameIsValid(s, f(s)); }
  }

  lemma SameIsValid(s: State, t: State)
    requires SameSelection(s, t)
    ensures Valid(t)
  {
  }

  lemma {:induction false} RetryExtends(job: Job, world: World, k: nat, dev: Option<Device>, last: Answer, s: State,
                                        done: seq<Event>)
    requires InUse(s, world)
    ensures Extends(s.contexts, Retry(job, world, k, dev, last, s, done).state.contexts)
    decreases MAX_ATTEMPTS - k
  {
    hide InUse, RunOnce, Call, UsedAttempt;
    if k >= MAX_ATTEMPTS {
    } else if dev.Some? {
      CallExtends(job, world, k, dev.value, s, done);
    } else {
      var t := world.attempts(k).duringLookup(s);
      LookupInUse(s, world, k);
      match world.attempts(k).lookup
      case Found(d) =>
        NewDeviceInUse(t, world, Some(d));
        CallExtends(job, world, k, d, t.(device := Some(d)), done + [LookedUp(Some(d))]);
      case Absent =>
        if k < MAX_ATTEMPTS - 1 {
          RetryExtends(job, world, k + 1, None, NoDevice, t, done + [LookedUp(None)] + [Waited]);
        }
      case LookupFailed =>
    }
  }

  lemma LookupInUse(s: State, world: World, k: nat)
    requires InUse(s, world) && k < MAX_ATTEMPTS
    ensures var t := world.attempts(k).duringLookup(s); InUse(t, world) && t.contexts == s.contexts
  {
    hide Fair, Background, Valid;
    assert UsedAttempt(s.selectedAt, world.attempts(k));
    InterfereInUse(s, world.attempts(k).duringLookup, world);
  }

  lemma {:induction false} CallExtends(job: Job, world: World, k: nat, d: Device, s: State, done: seq<Event>)
    requires InUse(s, world) && k < MAX_ATTEMPTS
    ensures Extends(s.contexts, Call(job, world, k, d, s, done).state.contexts)
    decreases MAX_ATTEMPTS - k, 0
  {
    hide InUse, RunOnce, Retry;
    AttemptExtends(job, s, world, k);
    var (t, answer) := RunOnce(job, s, world.attempts(k));
    if answer.NotFound? {
      var next := Retry(job, world, k + 1, None, NotFound, t.(device := None), done + [Called(d, answer)]);
      RetryExtends(job, world, k + 1, None, NotFound, t.(device := None), done + [Called(d, answer)]);
      ExtendsThen(s.contexts, t.contexts, next.state.contexts);
    }
  }

  ghost predicate AllInUse(s: State, jobs: seq<Job>, worlds: seq<World>)
    requires |jobs| == |worlds|
  {
    forall k :: 0 <= k < |jobs| ==> InUse(ExecuteAll(s, jobs[..k], worlds[..k]), worlds[k])
  }

  lemma AllInUseBefore(s: State, jobs: seq<Job>, worlds: seq<World>)
    requires |jobs| == |worlds| && jobs != [] && AllInUse(s, jobs, worlds)
    ensures var n := |jobs| - 1;
            AllInUse(s, jobs[..n], worlds[..n]) && InUse(ExecuteAll(s, jobs[..n], worlds[..n]), worlds[n])
  {
    hide InUse, ExecuteAll;
    var n := |jobs| - 1;
    forall k | 0 <= k < n
      ensures InUse(ExecuteAll(s, jobs[..n][..k], worlds[..n][..k]), worlds[..n][k])
    {
      assert jobs[..n][..k] == jobs[..k] && worlds[..n][..k] == worlds[..k];
    }
  }

  lemma LastCommand(s: State, jobs: seq<Job>, worlds: seq<World>)
    requires |jobs| == |worlds| && jobs != []
    ensures var n := |jobs| - 1;
            ExecuteAll(s, jobs, worlds) == Execute(ExecuteAll(s, jobs[..n], worlds[..n]), jobs[n], worlds[n])
  {
    hide Execute;
  }

  /** Over any series of commands, each within ten minutes of a selection, the
      channel list is never reordered or shortened; channels only appear in
      front of it. */
  lemma {:induction false} ListOnlyGrowsInFront(s: State, jobs: seq<Job>, worlds: seq<World>)
    requires |jobs| == |worlds| && AllInUse(s, jobs, worlds)
    ensures Extends(s.contexts, ExecuteAll(s, jobs, worlds).contexts)
  {
    hide InUse, Execute, AllInUse, Extends;
    if jobs == [] {
      assert ExecuteAll(s, jobs, worlds) == s;
      ExtendsSelf(s.contexts);
    } else {
      var n := |jobs| - 1;
      var t := ExecuteAll(s, jobs[..n], worlds[..n]);
      AllInUseBefore(s, jobs, worlds);
      LastCommand(s, jobs, worlds);
      ListOnlyGrowsInFront(s, jobs[..n], worlds[..n]);
      CommandExtends(t, jobs[n], worlds[n]);
      ExtendsThen(s.contexts, t.contexts, Execute(t, jobs[n], worlds[n]).contexts);
    }
  }

  lemma CommandExtends(s: State, job: Job, world: World)
    requires InUse(s, world)
    ensures Extends(s.contexts, Execute(s, job, world).contexts)
  {
    hide Retry, InUse;
    var s1 := s.(command := s.command + 1);
    NewNumberInUse(s, s1, world);
    var t := world.start(s1);
    InterfereInUse(s1, world.start, world);
    RetryExtends(job, world, 0, t.device, Fine, t, []);
  }

  lemma NewNumberInUse(s: State, s1: State, world: World)
    requires InUse(s, world) && s1 == s.(command := s.command + 1)
    ensures InUse(s1, world) && Background(world.start)
  {
    hide Fair, UsedAttempt, ValidHistory, Distinct, Named, Background;
    assert Valid(s1);
  }
}
