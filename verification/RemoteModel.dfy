/** What the operations of the Spotify remote compute, as functions on its
    shared state. The class in Remote.dfy is proved against these. */
module RemoteModel {
  import opened History
  import opened Wrappers

  type Device = string

  /** The fields that the lock protects, the command number, and the verifiers
      started so far: the command number each has captured, and its uri. */
  datatype State = State(
    history: seq<Context>,
    contexts: seq<Context>,
    cursor: int,
    current: string,
    device: Option<Device>,
    fetchedAt: int,
    selectedAt: int,
    command: int,
    started: seq<(int, string)>)

  /** What Spotify reports as playing; ours says that it plays on our device. */
  datatype Player = Player(isPlaying: bool, ours: bool, context: Option<string>, hasItem: bool)

  /** The outcome of one call: accepted, 404, the device is not listed, or any
      other error. */
  datatype Answer = Fine | NotFound | NoDevice | Failed

  datatype Lookup = Found(device: Device) | Absent | LookupFailed

  /** Readings of the clock, in milliseconds. */
  datatype Clock = Clock(checkFetched: int, checkSelected: int, fetch: int, select: int)

  /** Everything one attempt hears from outside: Spotify's answers, the clock,
      and what other goroutines do to the shared state while the device is looked
      up (and waited for), before the attempt takes the lock, and while
      refreshChannels has let go of it. */
  datatype Attempt = Attempt(
    lookup: Lookup,
    duringLookup: State -> State,
    clock: Clock,
    morning: Option<string>,
    playMorning: Answer,
    resume: Answer,
    play: string -> Answer,
    poll: Option<seq<Context>>,
    before: State -> State,
    beforePoll: State -> State,
    afterPoll: State -> State)

  /** The attempts of one command, and what other goroutines do before it reads
      the cached device. */
  datatype World = World(start: State -> State, attempts: nat -> Attempt)

  /** The functions that are handed to withDevice. */
  datatype Job =
    | Choose(forward: bool, player: Option<Player>)
    | Begin(player: Option<Player>)
    | Replay(uri: string)

  const CHANNELS_MAX_AGE := 10 * 60 * 1000
  const MAX_ATTEMPTS := 4

  /** Go's % truncates toward zero. */
  function GoMod(a: int, n: int): int
    requires n > 0
  {
    if a >= 0 then a % n else -((-a) % n)
  }

  /** The index next to idx, one step to either side, around the list. */
  function Neighbour(idx: int, step: int, n: int): (r: int)
    requires n > 0
    ensures 0 <= r < n
  {
    GoMod(GoMod(idx + step, n) + n, n)
  }

  // ---------- the operations ----------

  function SetCurrent(s: State, uri: string): State {
    s.(current := uri, cursor := IndexOf(s.contexts, uri))
  }

  function StartVerifier(s: State, uri: string): State {
    s.(started := s.started + [(s.command, uri)])
  }

  function PlayChannel(s: State, idx: int, now: int): State
    requires 0 <= idx < |s.contexts|
  {
    StartVerifier(s.(cursor := idx, current := s.contexts[idx].uri, selectedAt := now), s.contexts[idx].uri)
  }

  /** The uri that plays on our device, if one is reported. */
  function PlayingUri(player: Option<Player>): Option<string> {
    if player.Some? && player.value.ours then player.value.context else None
  }

  predicate PlayingHere(player: Option<Player>) {
    player.Some? && player.value.isPlaying && player.value.ours
  }

  predicate Stale(s: State, clock: Clock) {
    && clock.checkFetched - s.fetchedAt > CHANNELS_MAX_AGE
    && clock.checkSelected - s.selectedAt > CHANNELS_MAX_AGE
  }

  function Poll(s: State, poll: Option<seq<Context>>): State {
    if poll.Some? then s.(history := Merged(s.history, poll.value)) else s
  }

  function Reload(s: State, a: Attempt): State {
    var polled := a.afterPoll(Poll(a.beforePoll(s), a.poll));
    polled.(contexts := polled.history, fetchedAt := a.clock.fetch)
  }

  function Unlisted(uri: string): Context {
    Context("", uri, "", 0)
  }

  function Align(s: State): State {
    if s.contexts == [] then s
    else if s.current == "" then s.(cursor := -1)
    else
      var i := IndexOf(s.contexts, s.current);
      if i >= 0 then s.(cursor := i)
      else s.(contexts := [Unlisted(s.current)] + s.contexts, cursor := 0)
  }

  function Heard(s: State, player: Option<Player>): State {
    if PlayingUri(player).Some? then s.(current := PlayingUri(player).value) else s
  }

  /** refreshChannels; it fails exactly when the resulting list is empty. */
  function Refresh(s: State, player: Option<Player>, a: Attempt): State {
    var heard := Heard(s, player);
    Align(if heard.contexts == [] || Stale(heard, a.clock) then Reload(heard, a) else heard)
  }

  /** The search of Select: the k-th neighbour of the cursor and on, at most
      n - 1 of them; unplayable channels are skipped, a 404 ends the search. */
  function Scan(contexts: seq<Context>, idx: int, step: int, left: nat, play: string -> Answer): (r: (Answer, int))
    requires contexts != []
    ensures r.0.Fine? || r.0.NotFound? ==> 0 <= r.1 < |contexts| && play(contexts[r.1].uri) == r.0
    decreases left
  {
    if left == 0 then (Failed, idx)
    else
      var next := Neighbour(idx, step, |contexts|);
      match play(contexts[next].uri)
      case Fine => (Fine, next)
      case NotFound => (NotFound, next)
      case _ => Scan(contexts, next, step, left - 1, play)
  }

  function Search(s: State, step: int, a: Attempt): (State, Answer)
    requires s.contexts != []
  {
    var (answer, idx) := Scan(s.contexts, s.cursor, step, |s.contexts| - 1, a.play);
    if answer.Fine? then (PlayChannel(s, idx, a.clock.select), Fine) else (s, answer)
  }

  /** One run of the function that Select hands to withDevice. */
  function ChooseOnce(s: State, forward: bool, player: Option<Player>, a: Attempt): (State, Answer) {
    var r := Refresh(a.before(s), player, a);
    if r.contexts == [] then (r, Failed)
    else if r.cursor < 0 then
      var answer := a.play(r.contexts[0].uri);
      if answer.Fine? then (PlayChannel(r, 0, a.clock.select), Fine) else (r, answer)
    else
      Search(r, if forward then -1 else 1, a)
  }

  predicate TriesMorning(player: Option<Player>, a: Attempt) {
    && a.morning.Some? && a.morning.value != ""
    && !(player.Some? && player.value.context == a.morning)
  }

  predicate CanResume(player: Option<Player>) {
    player.Some? && (player.value.context.Some? || player.value.hasItem)
  }

  function Resumed(s: State, player: Player): State {
    StartVerifier(if player.context.Some? then SetCurrent(s, player.context.value) else s, "")
  }

  /** One run of the function that start hands to withDevice. */
  function BeginOnce(s0: State, player: Option<Player>, a: Attempt): (State, Answer) {
    var s := a.before(s0);
    if TriesMorning(player, a) && a.playMorning.Fine? then
      (StartVerifier(SetCurrent(s, a.morning.value), a.morning.value), Fine)
    else if TriesMorning(player, a) && a.playMorning.NotFound? then (s, NotFound)
    else if CanResume(player) && a.resume.Fine? then (Resumed(s, player.value), Fine)
    else if CanResume(player) && a.resume.NotFound? then (s, NotFound)
    else
      var r := Refresh(s, player, a);
      if r.contexts == [] then (r, Failed)
      else
        var answer := a.play(r.contexts[0].uri);
        if answer.Fine? then (PlayChannel(r, 0, a.clock.select), Fine) else (r, answer)
  }

  function RunOnce(job: Job, s: State, a: Attempt): (State, Answer) {
    match job
    case Choose(forward, player) => ChooseOnce(s, forward, player, a)
    case Begin(player) => BeginOnce(s, player, a)
    case Replay(uri) => (a.before(s), a.play(uri))
  }

  // ---------- withDevice ----------

  /** What withDevice did, in order. */
  datatype Event = LookedUp(found: Option<Device>) | Waited | Called(device: Device, answer: Answer)

  datatype Run = Run(state: State, answer: Answer, trace: seq<Event>)

  /** withDevice from attempt k on, with the device in hand (if any), the last
      error and what was done so far. */
  function Retry(job: Job, world: World, k: nat, dev: Option<Device>, last: Answer, s: State, done: seq<Event>): Run
    decreases MAX_ATTEMPTS - k
  {
    if k >= MAX_ATTEMPTS then Run(s, last, done)
    else if dev.Some? then Call(job, world, k, dev.value, s, done)
    else
      var t := world.attempts(k).duringLookup(s);
      match world.attempts(k).lookup
      case Found(d) => Call(job, world, k, d, t.(device := Some(d)), done + [LookedUp(Some(d))])
      case Absent =>
        if k < MAX_ATTEMPTS - 1 then Retry(job, world, k + 1, None, NoDevice, t, done + [LookedUp(None)] + [Waited])
        else Run(t, NoDevice, done + [LookedUp(None)])
      case LookupFailed => Run(t, Failed, done + [LookedUp(None)])
  }

  function Call(job: Job, world: World, k: nat, d: Device, s: State, done: seq<Event>): Run
    requires k < MAX_ATTEMPTS
    decreases MAX_ATTEMPTS - k, 0
  {
    var (s', answer) := RunOnce(job, s, world.attempts(k));
    if !answer.NotFound? then Run(s', answer, done + [Called(d, answer)])
    else Retry(job, world, k + 1, None, NotFound, s'.(device := None), done + [Called(d, answer)])
  }

  function WithDevice(job: Job, world: World, s: State): Run {
    var t := world.start(s);
    Retry(job, world, 0, t.device, Fine, t, [])
  }

  /** A command: its number goes up, then its job runs. */
  function Execute(s: State, job: Job, world: World): State {
    WithDevice(job, world, s.(command := s.command + 1)).state
  }

  /** The state after a series of commands. */
  function ExecuteAll(s: State, jobs: seq<Job>, worlds: seq<World>): State
    requires |jobs| == |worlds|
  {
    if jobs == [] then s
    else
      var n := |jobs| - 1;
      Execute(ExecuteAll(s, jobs[..n], worlds[..n]), jobs[n], worlds[n])
  }

  // ---------- what is kept ----------

  ghost predicate Valid(s: State) {
    && ValidHistory(s.history)
    && Distinct(s.contexts) && Named(s.contexts)
    && (s.contexts != [] ==> s.history != [])
    && -1 <= s.cursor < |s.contexts|
  }

  /** What other goroutines may do while they hold the lock. */
  ghost predicate Rely(s: State, t: State) {
    && Valid(t)
    && (s.contexts != [] ==> t.contexts != [])
    && (s.history != [] ==> t.history != [])
    && t.command == s.command && t.started == s.started
  }

  ghost predicate Obeys(f: State -> State) {
    forall s :: Valid(s) ==> Rely(s, f(s))
  }

  ghost predicate FairRun(a: Attempt) {
    Obeys(a.before) && Obeys(a.beforePoll) && Obeys(a.afterPoll)
  }

  ghost predicate FairAttempt(a: Attempt) {
    Obeys(a.duringLookup) && FairRun(a)
  }

  ghost predicate Fair(world: World) {
    Obeys(world.start) && forall k :: FairAttempt(world.attempts(k))
  }

  /** The cursor stands on the current uri, or nothing is current. */
  ghost predicate Aligned(s: State) {
    && s.contexts != []
    && if s.cursor < 0 then s.cursor == -1 && s.current == ""
       else s.cursor < |s.contexts| && s.contexts[s.cursor].uri == s.current
  }
}
