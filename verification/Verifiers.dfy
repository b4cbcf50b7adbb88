/** Commands and the background verifiers they start, step by step. Commands are
    serial; the steps of the verifiers interleave with them and each other in
    any order. */
module Verifiers {
  import opened History
  import opened RemoteLaws
  import opened RemoteModel

  const ROUNDS := 4

  /** Asleep before a round, awake after finding its number current, retrying
      with so many attempts used, or finished. */
  datatype Phase = Asleep | Awake | Retrying(attempts: nat) | Finished

  /** A verifier remembers the command number it captured; rounds and plays
      count what it has done. */
  datatype Verifier = Verifier(captured: int, rounds: nat, plays: nat, phase: Phase)

  /** mayStart: the running command has not started its verifier yet. */
  datatype System = System(command: int, mayStart: bool, verifiers: seq<Verifier>)

  datatype Step =
    | NewCommand
    | StartVerifying
    | EndCommand
    | Wake(i: nat)
    | Check(i: nat, good: bool)
    | Attempt(i: nat, played: bool)
    | EndRound(i: nat)

  const INITIAL := System(0, false, [])

  function StepVerifier(v: Verifier, command: int, step: Step): Verifier {
    match step
    case Wake(_) =>
      if !v.phase.Asleep? then v
      else v.(phase := if v.captured != command then Finished else Awake)
    case Check(_, good) =>
      if !v.phase.Awake? then v
      else if good then v.(phase := Finished)
      else v.(phase := Retrying(0), rounds := v.rounds + 1)
    case Attempt(_, played) =>
      if !v.phase.Retrying? || v.phase.attempts >= MAX_ATTEMPTS then v
      else v.(phase := Retrying(v.phase.attempts + 1), plays := if played then v.plays + 1 else v.plays)
    case EndRound(_) =>
      if !v.phase.Retrying? then v
      else v.(phase := if v.rounds >= ROUNDS then Finished else Asleep)
    case _ => v
  }

  /** One step; a step that is not possible leaves the system as it is. */
  function Apply(s: System, step: Step): System {
    match step
    case NewCommand => s.(command := s.command + 1, mayStart := true)
    case StartVerifying =>
      if s.mayStart then s.(mayStart := false, verifiers := s.verifiers + [Verifier(s.command, 0, 0, Asleep)]) else s
    case EndCommand => s.(mayStart := false)
    case _ =>
      if step.i < |s.verifiers|
      then s.(verifiers := s.verifiers[step.i := StepVerifier(s.verifiers[step.i], s.command, step)])
      else s
  }

  function Run(s: System, steps: seq<Step>): System {
    if steps == [] then s else Apply(Run(s, steps[..|steps| - 1]), steps[|steps| - 1])
  }

  // ---------- what every run keeps ----------

  predicate Bounded(v: Verifier) {
    match v.phase
    case Retrying(attempts) =>
      0 < v.rounds <= ROUNDS && attempts <= MAX_ATTEMPTS && v.plays <= MAX_ATTEMPTS * (v.rounds - 1) + attempts
    case Finished => v.rounds <= ROUNDS && v.plays <= MAX_ATTEMPTS * v.rounds
    case _ => v.rounds < ROUNDS && v.plays <= MAX_ATTEMPTS * v.rounds
  }

  ghost predicate Ordered(s: System) {
    && (forall i, j :: 0 <= i < j < |s.verifiers| ==> s.verifiers[i].captured < s.verifiers[j].captured)
    && (forall i :: 0 <= i < |s.verifiers| ==>
          s.verifiers[i].captured <= s.command && (s.mayStart ==> s.verifiers[i].captured < s.command))
  }

  ghost predicate Inv(s: System) {
    Ordered(s) && forall i :: 0 <= i < |s.verifiers| ==> Bounded(s.verifiers[i])
  }

  lemma StepKeepsBounded(v: Verifier, command: int, step: Step)
    requires Bounded(v)
    ensures Bounded(StepVerifier(v, command, step)) && StepVerifier(v, command, step).captured == v.captured
  {
  }

  lemma ApplyKeeps(s: System, step: Step)
    requires Inv(s)
    ensures Inv(Apply(s, step))
  {
    hide Bounded, StepVerifier;
    var t := Apply(s, step);
    match step
    case NewCommand =>
    case StartVerifying => NewIsBounded(s.command);
    case EndCommand =>
    case _ => if step.i < |s.verifiers| { StepKeepsBounded(s.verifiers[step.i], s.command, step); }
  }

  lemma NewIsBounded(command: int)
    ensures Bounded(Verifier(command, 0, 0, Asleep))
  {
  }

  lemma {:induction false} InvHolds(steps: seq<Step>)
    ensures Inv(Run(INITIAL, steps))
  {
    hide Apply, Bounded;
    if steps == [] {
    } else {
      InvHolds(steps[..|steps| - 1]);
      ApplyKeeps(Run(INITIAL, steps[..|steps| - 1]), steps[|steps| - 1]);
    }
  }

  predicate Live(s: System, i: int) {
    0 <= i < |s.verifiers| && s.verifiers[i].captured == s.command
  }

  /** In every run, at most one verifier holds the current command number, and
      no verifier exceeds four rounds or sixteen plays. */
  lemma AtMostOneLive(steps: seq<Step>)
    ensures var s := Run(INITIAL, steps);
            && (forall i, j :: Live(s, i) && Live(s, j) ==> i == j)
            && forall i :: 0 <= i < |s.verifiers| ==> s.verifiers[i].rounds <= 4 && s.verifiers[i].plays <= 16
  {
    InvHolds(steps);
    var s := Run(INITIAL, steps);
    forall i | 0 <= i < |s.verifiers| ensures s.verifiers[i].rounds <= 4 && s.verifiers[i].plays <= 16 {
      assert Bounded(s.verifiers[i]);
    }
  }

  /** Rounds a verifier may still begin once it is superseded: one if it has
      just found its number current, none otherwise. */
  function RoundsLeft(v: Verifier): nat {
    if v.phase.Awake? then 1 else 0
  }

  function PlaysLeft(v: Verifier): int {
    if v.phase.Awake? then MAX_ATTEMPTS
    else if v.phase.Retrying? then MAX_ATTEMPTS - v.phase.attempts
    else 0
  }

  predicate NoMoreThan(w: Verifier, v: Verifier) {
    w.rounds + RoundsLeft(w) <= v.rounds + RoundsLeft(v) && w.plays + PlaysLeft(w) <= v.plays + PlaysLeft(v)
  }

  lemma StepSuperseded(v: Verifier, command: int, step: Step)
    requires Bounded(v) && v.captured != command
    ensures NoMoreThan(StepVerifier(v, command, step), v)
  {
  }

  lemma ApplySuperseded(s: System, step: Step, i: nat)
    requires Inv(s) && i < |s.verifiers| && !Live(s, i)
    ensures var t := Apply(s, step);
            i < |t.verifiers| && !Live(t, i) && NoMoreThan(t.verifiers[i], s.verifiers[i])
  {
    hide Bounded, StepVerifier;
    assert s.verifiers[i].captured < s.command;
    StepSuperseded(s.verifiers[i], s.command, step);
    StepKeepsBounded(s.verifiers[i], s.command, step);
  }

  /** Once superseded, a verifier stays so; it begins no round beyond the one it
      is in or about to begin, and makes no call beyond that round's. */
  lemma {:induction false} SupersededStops(s: System, steps: seq<Step>, i: nat)
    requires Inv(s) && i < |s.verifiers| && !Live(s, i)
    ensures var t := Run(s, steps);
            Inv(t) && i < |t.verifiers| && !Live(t, i) && NoMoreThan(t.verifiers[i], s.verifiers[i])
  {
    if steps == [] {
    } else {
      hide Apply, Inv, Live;
      SupersededStops(s, steps[..|steps| - 1], i);
      var t := Run(s, steps[..|steps| - 1]);
      ApplyKeeps(t, steps[|steps| - 1]);
      ApplySuperseded(t, steps[|steps| - 1], i);
    }
  }

  // ---------- a verifier does not give up early ----------

  /** What each step does to a verifier. Awake it looks: good says that all is
      well, or that asking failed. It begins a round exactly if it is told that
      nothing plays, wakes exactly if it is not superseded, and goes on after a
      round exactly if that was not its fourth. */
  lemma StepDecides(v: Verifier, command: int, i: nat, good: bool, played: bool)
    requires Bounded(v)
    ensures v.phase.Asleep? ==>
              StepVerifier(v, command, Wake(i)) == v.(phase := if v.captured == command then Awake else Finished)
    ensures v.phase.Awake? ==>
              StepVerifier(v, command, Check(i, good)) ==
              if good then v.(phase := Finished) else v.(phase := Retrying(0), rounds := v.rounds + 1)
    ensures v.phase.Retrying? && v.phase.attempts < 4 ==>
              StepVerifier(v, command, Step.Attempt(i, played)) ==
              v.(phase := Retrying(v.phase.attempts + 1), plays := v.plays + if played then 1 else 0)
    ensures v.phase.Retrying? ==>
              StepVerifier(v, command, EndRound(i)) == v.(phase := if v.rounds == 4 then Finished else Asleep)
  {
  }

  /** A command may start one verifier, under its own number; a verifier's step
      changes that verifier alone. */
  lemma SystemSteps(s: System, step: Step)
    ensures var t := Apply(s, NewCommand); var u := Apply(t, StartVerifying);
            && t == System(s.command + 1, true, s.verifiers)
            && u == System(t.command, false, s.verifiers + [Verifier(t.command, 0, 0, Asleep)])
            && Apply(u, StartVerifying) == u
            && Apply(t, EndCommand) == System(t.command, false, s.verifiers)
    ensures !step.NewCommand? && !step.StartVerifying? && !step.EndCommand? ==>
              Apply(s, step) ==
              if step.i >= |s.verifiers| then s
              else s.(verifiers := s.verifiers[step.i := StepVerifier(s.verifiers[step.i], s.command, step)])
  {
  }

  /** The steps of n rounds in which nothing plays. */
  function BadRounds(i: nat, n: nat): seq<Step> {
    if n == 0 then [] else BadRounds(i, n - 1) + [Wake(i)] + [Check(i, false)] + [EndRound(i)]
  }

  lemma {:induction false} BadRoundsRun(command: int, i: nat, n: nat)
    requires n <= 4
    ensures StepAll(Verifier(command, 0, 0, Asleep), command, BadRounds(i, n)) ==
            Verifier(command, n, 0, if n == 4 then Finished else Asleep)
  {
    var v := Verifier(command, 0, 0, Asleep);
    if n > 0 {
      hide StepAll;
      var before := BadRounds(i, n - 1);
      BadRoundsRun(command, i, n - 1);
      StepMore(v, command, before, Wake(i));
      StepMore(v, command, before + [Wake(i)], Check(i, false));
      StepMore(v, command, before + [Wake(i)] + [Check(i, false)], EndRound(i));
    }
  }

  /** As long as its command is the latest and nothing plays, a verifier tries
      again, four times; when it then finds that all is well, it is done. */
  lemma VerifierTriesFourTimes(command: int, i: nat, n: nat)
    requires n <= 4
    ensures StepAll(Verifier(command, 0, 0, Asleep), command, BadRounds(i, n)) ==
            Verifier(command, n, 0, if n == 4 then Finished else Asleep)
    ensures n < 4 ==>
              StepAll(Verifier(command, 0, 0, Asleep), command, BadRounds(i, n) + [Wake(i)] + [Check(i, true)]) ==
              Verifier(command, n, 0, Finished)
  {
    hide StepAll, BadRounds;
    var v := Verifier(command, 0, 0, Asleep);
    BadRoundsRun(command, i, n);
    StepMore(v, command, BadRounds(i, n), Wake(i));
    StepMore(v, command, BadRounds(i, n) + [Wake(i)], Check(i, true));
  }

  lemma StepMore(v: Verifier, command: int, steps: seq<Step>, step: Step)
    ensures StepAll(v, command, steps + [step]) == StepVerifier(StepAll(v, command, steps), command, step)
  {
    assert (steps + [step])[..|steps|] == steps;
  }

  // ---------- every verifier comes to an end ----------

  /** Steps a verifier can still take that change it. */
  function StepsLeft(v: Verifier): int {
    var perRound := MAX_ATTEMPTS + 3;
    match v.phase
    case Asleep => perRound * (ROUNDS - v.rounds) + 2
    case Awake => perRound * (ROUNDS - v.rounds) + 1
    case Retrying(attempts) => perRound * (ROUNDS - v.rounds) + 3 + (MAX_ATTEMPTS - attempts)
    case Finished => 0
  }

  /** Every step that changes a verifier uses up its remaining steps. */
  lemma StepUsesUp(v: Verifier, command: int, step: Step)
    requires Bounded(v)
    ensures 0 <= StepsLeft(v) <= 30
    ensures StepVerifier(v, command, step) != v ==> StepsLeft(StepVerifier(v, command, step)) < StepsLeft(v)
  {
  }

  /** The step that a verifier takes next: it wakes, looks, or ends its round. */
  function NextStep(v: Verifier, i: nat, good: bool): Step {
    match v.phase
    case Awake => Check(i, good)
    case Retrying(_) => EndRound(i)
    case _ => Wake(i)
  }

  /** How many of the steps change the i-th verifier. */
  function Changes(s: System, steps: seq<Step>, i: nat): nat {
    if steps == [] then 0
    else
      var t, u := Run(s, steps[..|steps| - 1]), Run(s, steps);
      Changes(s, steps[..|steps| - 1], i) +
      if i < |t.verifiers| && i < |u.verifiers| && u.verifiers[i] != t.verifiers[i] then 1 else 0
  }

  lemma {:induction false} ChangesUseUp(s: System, steps: seq<Step>, i: nat)
    requires Inv(s) && i < |s.verifiers|
    ensures Inv(Run(s, steps)) && i < |Run(s, steps).verifiers|
    ensures Changes(s, steps, i) + StepsLeft(Run(s, steps).verifiers[i]) <= StepsLeft(s.verifiers[i])
  {
    if steps == [] {
    } else {
      hide Bounded, StepVerifier, StepsLeft;
      var t, step := Run(s, steps[..|steps| - 1]), steps[|steps| - 1];
      ChangesUseUp(s, steps[..|steps| - 1], i);
      ApplyKeeps(t, step);
      StepUsesUp(t.verifiers[i], t.command, step);
    }
  }

  /** Every verifier comes to an end: as long as it is not finished its next step
      changes it, whatever it is told and whatever the command is; and no run,
      however interleaved, holds more than thirty steps that change it. */
  lemma VerifierTerminates(s: System, steps: seq<Step>, i: nat, good: bool)
    requires Inv(s) && i < |s.verifiers|
    ensures var t := Run(s, steps);
            && i < |t.verifiers|
            && Changes(s, steps, i) <= 30
            && (!t.verifiers[i].phase.Finished? ==>
                  Apply(t, NextStep(t.verifiers[i], i, good)).verifiers[i] != t.verifiers[i])
  {
    hide Changes, Run;
    ChangesUseUp(s, steps, i);
    var v := Run(s, steps).verifiers[i];
    assert Bounded(s.verifiers[i]) && Bounded(v);
    StepUsesUp(s.verifiers[i], s.command, Wake(i));
    StepUsesUp(v, s.command, Wake(i));
  }

  // ---------- a round is a run of withDevice ----------

  /** The attempts of a run: a call, or a lookup that was waited out. */
  function AttemptsOf(trace: seq<Event>, i: nat): seq<Step> {
    if trace == [] then []
    else
      AttemptsOf(trace[..|trace| - 1], i) +
      match trace[|trace| - 1]
      case LookedUp(_) => []
      case Waited => [Step.Attempt(i, false)]
      case Called(_, _) => [Step.Attempt(i, true)]
  }

  function Calls(trace: seq<Event>): nat {
    if trace == [] then 0 else Calls(trace[..|trace| - 1]) + if trace[|trace| - 1].Called? then 1 else 0
  }

  lemma {:induction false} AttemptsAreCounted(v: Verifier, trace: seq<Event>, command: int, i: nat)
    requires v.phase == Retrying(0) && CallsAndWaits(trace) <= MAX_ATTEMPTS
    ensures StepAll(v, command, AttemptsOf(trace, i)) ==
            v.(phase := Retrying(CallsAndWaits(trace)), plays := v.plays + Calls(trace))
    ensures Calls(trace) <= CallsAndWaits(trace)
  {
    if trace == [] {
    } else {
      hide StepVerifier;
      StepCounts(v, command, i, CallsAndWaits(trace[..|trace| - 1]), v.plays + Calls(trace[..|trace| - 1]));
      var front, steps := trace[..|trace| - 1], AttemptsOf(trace, i);
      AttemptsAreCounted(v, front, command, i);
      if trace[|trace| - 1].LookedUp? {
        assert steps == AttemptsOf(front, i);
      } else {
        assert steps[..|steps| - 1] == AttemptsOf(front, i);
      }
    }
  }

  lemma StepCounts(v: Verifier, command: int, i: nat, attempts: nat, plays: nat)
    ensures var w := v.(phase := Retrying(attempts), plays := plays);
            attempts < MAX_ATTEMPTS ==>
              && StepVerifier(w, command, Step.Attempt(i, true)) ==
                 w.(phase := Retrying(attempts + 1), plays := plays + 1)
              && StepVerifier(w, command, Step.Attempt(i, false)) == w.(phase := Retrying(attempts + 1))
  {
  }

  /** One verifier's own steps, one after the other. */
  function StepAll(v: Verifier, command: int, steps: seq<Step>): Verifier {
    if steps == [] then v
    else StepVerifier(StepAll(v, command, steps[..|steps| - 1]), command, steps[|steps| - 1])
  }

  /** The retry of a verifier calls Play at most four times, whatever Spotify
      answers, and a round of the steps above holds all of its attempts: none is
      cut off by the bound, and each call is counted as a play. */
  lemma RoundIsRetry(v: Verifier, uri: string, world: World, s: State, command: int, i: nat)
    requires v.phase == Retrying(0)
    ensures var trace := WithDevice(Replay(uri), world, s).trace;
            && Calls(trace) <= MAX_ATTEMPTS
            && StepAll(v, command, AttemptsOf(trace, i)) ==
               v.(phase := Retrying(CallsAndWaits(trace)), plays := v.plays + Calls(trace))
  {
    hide WithDevice;
    DeviceRetrySound(Replay(uri), world, s);
    AttemptsAreCounted(v, WithDevice(Replay(uri), world, s).trace, command, i);
  }

  // ---------- the commands start verifiers as the steps do ----------

  ghost predicate NumbersRise(s: State) {
    && (forall i, j :: 0 <= i < j < |s.started| ==> s.started[i].0 < s.started[j].0)
    && (forall i :: 0 <= i < |s.started| ==> s.started[i].0 <= s.command)
  }

  lemma CommandKeepsNumbers(s: State, job: Job, world: World)
    requires Valid(s) && Fair(world) && NumbersRise(s)
    ensures Valid(Execute(s, job, world)) && NumbersRise(Execute(s, job, world))
  {
    hide WithDevice, ValidHistory, Distinct, Named, Fair;
    var s1 := s.(command := s.command + 1);
    assert Valid(s1);
    CommandKeeps(job, world, s1);
  }

  /** Over any series of commands, no two verifiers capture the same number: at
      most one holds the current one. */
  lemma {:induction false} NoTwoVerifiersShareANumber(s: State, jobs: seq<Job>, worlds: seq<World>)
    requires |jobs| == |worlds| && Valid(s) && NumbersRise(s)
    requires forall k :: 0 <= k < |worlds| ==> Fair(worlds[k])
    ensures var t := ExecuteAll(s, jobs, worlds);
            && Valid(t) && NumbersRise(t)
            && forall i, j :: 0 <= i < j < |t.started| ==> t.started[i].0 < t.command || t.started[j].0 < t.command
  {
    hide Valid, Fair, Execute;
    if jobs != [] {
      var n := |jobs| - 1;
      NoTwoVerifiersShareANumber(s, jobs[..n], worlds[..n]);
      CommandKeepsNumbers(ExecuteAll(s, jobs[..n], worlds[..n]), jobs[n], worlds[n]);
    }
  }
}
