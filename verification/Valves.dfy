/** Floor heating valves: one pass over the thermostats brings the valves in line
    with the temperatures. */
module Valves {
  import opened Wrappers

  datatype Valve = Esik | Elutuba1 | Elutuba2 | Kitchen | Dussiruum | SaunaEesruum | SuurKoridor2 | SuurKoridor1

  datatype Status = Off | On

  /** A thermostat that drives valves, or any other. */
  datatype Name =
    | SaunaEesruumThermostat
    | DussiruumThermostat
    | ElutubaSofaThermostat
    | EsikThermostat
    | SuurKoridorThermostat
    | Other(name: string)

  datatype Thermostat = Thermostat(name: Name, current: real, target: real)

  /** What home assistant shows of a switch, regardless of case. */
  datatype Shown = ShowsOff | ShowsOn | ShowsOther

  type States = map<Valve, Shown>

  datatype Update = Update(valve: Valve, value: Status)

  const UP_GAP := 0.3
  const DOWN_GAP := -0.1

  /** The number in the command topic. */
  function PowerId(valve: Valve): string {
    match valve
    case Esik => ""
    case Elutuba1 => "2"
    case Elutuba2 => "3"
    case Kitchen => "4"
    case Dussiruum => "5"
    case SaunaEesruum => "6"
    case SuurKoridor2 => "7"
    case SuurKoridor1 => "8"
  }

  function ResolveValves(name: Name): seq<Valve> {
    match name
    case SaunaEesruumThermostat => [SaunaEesruum]
    case DussiruumThermostat => [Dussiruum]
    case ElutubaSofaThermostat => [Elutuba1, Elutuba2]
    case EsikThermostat => [Esik, Kitchen]
    case SuurKoridorThermostat => [SuurKoridor1, SuurKoridor2]
    case Other(_) => []
  }

  /** What a thermostat asks for: off well above its target, on at, below or just
      above it, nothing in between. */
  function Action(t: Thermostat): Option<Status> {
    if t.current > t.target + UP_GAP then Some(Off)
    else if t.current < t.target - DOWN_GAP then Some(On)
    else None
  }

  predicate OffTime(month: int) {
    5 <= month <= 9
  }

  /** The hall is heated all winter, whatever its thermostat asks for. */
  function Forced(valve: Valve, value: Status, month: int): Status {
    if valve.Esik? && !OffTime(month) then On else value
  }

  predicate InSync(shown: Shown, value: Status) {
    (shown.ShowsOn? && value.On?) || (shown.ShowsOff? && value.Off?)
  }

  /** The update for one request, if it needs one. A valve that home assistant
      does not show always gets one, as asked for. */
  function Needed(states: States, r: Update, month: int): seq<Update> {
    if r.valve !in states then [r]
    else if InSync(states[r.valve], Forced(r.valve, r.value, month)) then []
    else [Update(r.valve, Forced(r.valve, r.value, month))]
  }

  function NeededAll(states: States, requests: seq<Update>, month: int): seq<Update> {
    if requests == [] then []
    else NeededAll(states, requests[..|requests| - 1], month) + Needed(states, requests[|requests| - 1], month)
  }

  function Ask(valves: seq<Valve>, value: Status): seq<Update> {
    seq(|valves|, i requires 0 <= i < |valves| => Update(valves[i], value))
  }

  function RequestsOf(t: Thermostat): seq<Update> {
    if Action(t).None? then [] else Ask(ResolveValves(t.name), Action(t).value)
  }

  function Requests(thermostats: seq<Thermostat>): seq<Update> {
    if thermostats == [] then []
    else Requests(thermostats[..|thermostats| - 1]) + RequestsOf(thermostats[|thermostats| - 1])
  }

  /** The updates of one pass. */
  function Pass(states: States, thermostats: seq<Thermostat>, month: int): seq<Update> {
    NeededAll(states, Requests(thermostats), month)
  }

  lemma {:induction false} NeededAllConcat(states: States, a: seq<Update>, b: seq<Update>, month: int)
    ensures NeededAll(states, a + b, month) == NeededAll(states, a, month) + NeededAll(states, b, month)
  {
    if b == [] {
      assert a + b == a;
    } else {
      assert (a + b)[..|a + b| - 1] == a + b[..|b| - 1];
      NeededAllConcat(states, a, b[..|b| - 1], month);
    }
  }

  class FloorHeating {
    /** Everything published so far: the topic number and the value. */
    var published: seq<Update>

    constructor ()
      ensures published == []
    {
      published := [];
    }

    method TurnFloorHeatingValves(states: States, valves: seq<Valve>, value: Status, month: int)
      returns (notInSync: seq<Update>)
      modifies this
      ensures notInSync == NeededAll(states, Ask(valves, value), month)
      ensures published == old(published) + notInSync
    {
      notInSync := [];
      ghost var requests := Ask(valves, value);
      for i := 0 to |valves|
        invariant notInSync == NeededAll(states, requests[..i], month)
        invariant published == old(published)
      {
        var valve := valves[i];
        NeededStep(states, requests, i, month);
        var newState := value;
        if valve !in states {
          notInSync := notInSync + [Update(valve, newState)];
          continue;
        }
        if valve.Esik? {
          var offtime := month == 5 || month == 6 || month == 7 || month == 8 || month == 9;
          if !offtime {
            newState := On;
          }
        }
        if !InSync(states[valve], newState) {
          notInSync := notInSync + [Update(valve, newState)];
        }
      }
      assert requests[..|valves|] == requests;
      PublishAll(notInSync);
    }

    method PublishAll(updates: seq<Update>)
      modifies this
      ensures published == old(published) + updates
    {
      for k := 0 to |updates|
        invariant published == old(published) + updates[..k]
      {
        published := published + [updates[k]];
      }
    }

    method CheckFloorHeatingValves(states: States, thermostats: seq<Thermostat>, month: int)
      returns (dbUpdates: seq<Update>)
      modifies this
      ensures dbUpdates == Pass(states, thermostats, month)
      ensures published == old(published) + dbUpdates
    {
      dbUpdates := [];
      for i := 0 to |thermostats|
        invariant dbUpdates == Pass(states, thermostats[..i], month)
        invariant published == old(published) + dbUpdates
      {
        hide Pass, NeededAll, RequestsOf;
        PassStep(states, thermostats, i, month);
        var notInSync := CheckThermostat(states, thermostats[i], month);
        Associative(old(published), dbUpdates, notInSync);
        dbUpdates := dbUpdates + notInSync;
      }
      assert thermostats[..|thermostats|] == thermostats;
    }

    method CheckThermostat(states: States, ts: Thermostat, month: int) returns (notInSync: seq<Update>)
      modifies this
      ensures notInSync == NeededAll(states, RequestsOf(ts), month)
      ensures published == old(published) + notInSync
    {
      var valves := ResolveValves(ts.name);
      var turnAction: Option<Status> := None;
      if ts.current > ts.target + UP_GAP {
        turnAction := Some(Off);
      } else if ts.current < ts.target - DOWN_GAP {
        turnAction := Some(On);
      }
      notInSync := [];
      if turnAction.Some? && |valves| > 0 {
        notInSync := TurnFloorHeatingValves(states, valves, turnAction.value, month);
      }
    }
  }

  lemma NeededStep(states: States, requests: seq<Update>, i: nat, month: int)
    requires i < |requests|
    ensures var before, after := NeededAll(states, requests[..i], month), NeededAll(states, requests[..i + 1], month);
            after == if Needed(states, requests[i], month) == [] then before
                     else before + Needed(states, requests[i], month)
  {
    assert requests[..i + 1][..i] == requests[..i];
    assert NeededAll(states, requests[..i], month) + [] == NeededAll(states, requests[..i], month);
  }

  lemma Associative(a: seq<Update>, b: seq<Update>, c: seq<Update>)
    ensures a + b + c == a + (b + c)
  {
  }

  lemma PassStep(states: States, thermostats: seq<Thermostat>, i: nat, month: int)
    requires i < |thermostats|
    ensures Pass(states, thermostats[..i + 1], month) ==
            Pass(states, thermostats[..i], month) + NeededAll(states, RequestsOf(thermostats[i]), month)
  {
    hide RequestsOf;
    assert thermostats[..i + 1][..i] == thermostats[..i];
    NeededAllConcat(states, Requests(thermostats[..i]), RequestsOf(thermostats[i]), month);
  }

  // ---------- no valve twice ----------

  ghost predicate UniqueNames(thermostats: seq<Thermostat>) {
    forall i, j :: 0 <= i < j < |thermostats| ==> thermostats[i].name != thermostats[j].name
  }

  ghost predicate EachValveOnce(updates: seq<Update>) {
    forall i, j :: 0 <= i < j < |updates| ==> updates[i].valve != updates[j].valve
  }

  /** The thermostat that drives a valve. */
  function Owner(valve: Valve): Name {
    match valve
    case Esik => EsikThermostat
    case Kitchen => EsikThermostat
    case Elutuba1 => ElutubaSofaThermostat
    case Elutuba2 => ElutubaSofaThermostat
    case Dussiruum => DussiruumThermostat
    case SaunaEesruum => SaunaEesruumThermostat
    case SuurKoridor1 => SuurKoridorThermostat
    case SuurKoridor2 => SuurKoridorThermostat
  }

  lemma ResolvedAreOwned(name: Name)
    ensures forall v :: v in ResolveValves(name) <==> Owner(v) == name
    ensures forall i, j :: 0 <= i < j < |ResolveValves(name)| ==> ResolveValves(name)[i] != ResolveValves(name)[j]
  {
    forall v ensures v in ResolveValves(name) <==> Owner(v) == name {
    }
  }

  lemma TopicsAreDistinct(a: Valve, b: Valve)
    requires PowerId(a) == PowerId(b)
    ensures a == b
  {
    assert |PowerId(a)| == |PowerId(b)|;
    if !a.Esik? && !b.Esik? { assert PowerId(a)[0] == PowerId(b)[0]; }
  }

  ghost predicate Serves(thermostats: seq<Thermostat>, valve: Valve) {
    exists k :: 0 <= k < |thermostats| && thermostats[k].name == Owner(valve)
  }

  /** Thermostats of different names ask for different valves. */
  lemma {:induction false} RequestsOnce(thermostats: seq<Thermostat>)
    requires UniqueNames(thermostats)
    ensures EachValveOnce(Requests(thermostats))
    ensures forall r :: r in Requests(thermostats) ==> Serves(thermostats, r.valve)
  {
    if thermostats != [] {
      var n := |thermostats| - 1;
      var front, last := thermostats[..n], thermostats[n];
      RequestsOnce(front);
      ResolvedAreOwned(last.name);
      var u, more := Requests(front), RequestsOf(last);
      forall r | r in u ensures Serves(thermostats, r.valve) && Owner(r.valve) != last.name {
        var k :| 0 <= k < n && front[k].name == Owner(r.valve);
        assert thermostats[k].name != thermostats[n].name;
      }
      forall r | r in more ensures Serves(thermostats, r.valve) && Owner(r.valve) == last.name {
        assert r.valve in ResolveValves(last.name);
        assert thermostats[n].name == Owner(r.valve);
      }
      OnceTogether(u, more, last.name);
    }
  }

  lemma OnceTogether(a: seq<Update>, b: seq<Update>, name: Name)
    requires EachValveOnce(a) && EachValveOnce(b)
    requires forall r :: r in a ==> Owner(r.valve) != name
    requires forall r :: r in b ==> Owner(r.valve) == name
    ensures EachValveOnce(a + b)
  {
    forall i, j | 0 <= i < j < |a + b| ensures (a + b)[i].valve != (a + b)[j].valve {
      if i < |a| <= j {
        assert a[i] in a && b[j - |a|] in b;
      }
    }
  }

  ghost predicate Asked(requests: seq<Update>, valve: Valve) {
    exists i :: 0 <= i < |requests| && requests[i].valve == valve
  }

  lemma {:induction false} NeededOnce(states: States, requests: seq<Update>, month: int)
    requires EachValveOnce(requests)
    ensures EachValveOnce(NeededAll(states, requests, month))
    ensures forall u :: u in NeededAll(states, requests, month) ==> Asked(requests, u.valve)
  {
    if requests != [] {
      var n := |requests| - 1;
      var front := requests[..n];
      var before := NeededAll(states, front, month);
      NeededOnce(states, front, month);
      forall u | u in before ensures Asked(requests, u.valve) && u.valve != requests[n].valve {
        var i :| 0 <= i < n && front[i].valve == u.valve;
        assert requests[i].valve == u.valve;
      }
      assert forall i :: 0 <= i < |before| ==> before[i] in before;
    }
  }

  /** One pass lists each valve at most once, so no two thermostats can send a
      valve different commands. */
  lemma PassListsEachValveOnce(states: States, thermostats: seq<Thermostat>, month: int)
    requires UniqueNames(thermostats)
    ensures EachValveOnce(Pass(states, thermostats, month))
  {
    RequestsOnce(thermostats);
    NeededOnce(states, Requests(thermostats), month);
  }

  // ---------- what is asked for ----------

  /** A thermostat that asks for off has to cool by more than 0.2 degrees before
      it asks for on, both of them above its target; nothing flips in between. */
  lemma DeadBandSeparates(warm: Thermostat, cool: Thermostat)
    requires warm.target == cool.target
    ensures Action(warm) == Some(Off) && Action(cool) == Some(On) ==> warm.current - cool.current > 0.2
    ensures Action(cool) == Some(Off) && warm.current >= cool.current ==> Action(warm) == Some(Off)
    ensures Action(warm) == Some(On) && cool.current <= warm.current ==> Action(cool) == Some(On)
    ensures Action(warm) == None <==> warm.target + 0.1 <= warm.current <= warm.target + 0.3
  {
  }

  lemma {:induction false} NeededOff(states: States, requests: seq<Update>, month: int)
    ensures Update(Esik, Off) in NeededAll(states, requests, month) <==>
            Update(Esik, Off) in requests && HallMayTurnOff(states, month)
  {
    if requests != [] {
      var front, last := requests[..|requests| - 1], requests[|requests| - 1];
      NeededOff(states, front, month);
      assert requests == front + [last];
    }
  }

  /** The hall follows its thermostat in summer, and whenever home assistant does
      not show its valve; a valve that is shown off is left alone. */
  predicate HallMayTurnOff(states: States, month: int) {
    Esik !in states || (OffTime(month) && !states[Esik].ShowsOff?)
  }

  predicate AsksHallOff(t: Thermostat) {
    t.name.EsikThermostat? && t.current > t.target + UP_GAP
  }

  lemma {:induction false} HallOffRequested(thermostats: seq<Thermostat>)
    ensures Update(Esik, Off) in Requests(thermostats) <==> exists t :: t in thermostats && AsksHallOff(t)
  {
    if thermostats != [] {
      var front, last := thermostats[..|thermostats| - 1], thermostats[|thermostats| - 1];
      HallOffRequested(front);
      HallOffAsked(last);
      assert thermostats == front + [last];
      assert last in thermostats && forall t :: t in thermostats <==> t in front || t == last;
    }
  }

  lemma HallOffAsked(t: Thermostat)
    ensures Update(Esik, Off) in RequestsOf(t) <==> AsksHallOff(t)
  {
    if AsksHallOff(t) { assert RequestsOf(t)[0] == Update(Esik, Off); }
  }

  /** A pass turns the hall off exactly when its thermostat is warm enough and its
      valve is not shown, or it is summer and the valve is not shown off. */
  lemma HallTurnsOff(states: States, thermostats: seq<Thermostat>, month: int)
    ensures Update(Esik, Off) in Pass(states, thermostats, month) <==>
            (exists t :: t in thermostats && AsksHallOff(t)) && HallMayTurnOff(states, month)
  {
    hide NeededAll, Requests, AsksHallOff;
    NeededOff(states, Requests(thermostats), month);
    HallOffRequested(thermostats);
  }

  /** So the rule that the hall is never turned off in winter is kept exactly when
      home assistant shows its valve, or nothing asks for off. */
  lemma HallStaysOnInWinter(states: States, thermostats: seq<Thermostat>, month: int)
    requires !OffTime(month)
    ensures Update(Esik, Off) !in Pass(states, thermostats, month) <==>
            Esik in states || forall t :: t in thermostats ==> !AsksHallOff(t)
  {
    hide Pass, AsksHallOff;
    HallTurnsOff(states, thermostats, month);
  }

  /** A warm hall whose valve is not shown is turned off in January, and one that
      is shown is turned off in May. */
  lemma HallOffInJanuaryAndMay()
    ensures var warm := [Thermostat(EsikThermostat, 25.0, 20.0)];
            && Update(Esik, Off) in Pass(map[], warm, 1)
            && Update(Esik, Off) in Pass(map[Esik := ShowsOn], warm, 5)
  {
    hide Pass;
    var warm := [Thermostat(EsikThermostat, 25.0, 20.0)];
    assert warm[0] in warm && AsksHallOff(warm[0]);
    HallTurnsOff(map[], warm, 1);
    HallTurnsOff(map[Esik := ShowsOn], warm, 5);
  }

  // ---------- what a pass sends ----------

  /** What a request for a valve sends it, if anything, given what home assistant
      shows and whether it is winter: the hall then stays on. A valve that is not
      shown is sent the request as it is. */
  ghost predicate Sends(states: States, valve: Valve, asked: Status, month: int, sent: Status) {
    if valve !in states then sent == asked
    else
      && sent == (if valve == Esik && !(5 <= month <= 9) then On else asked)
      && states[valve] != (if sent == On then ShowsOn else ShowsOff)
  }

  lemma NeededSends(states: States, r: Update, month: int, u: Update)
    ensures u in Needed(states, r, month) <==> u.valve == r.valve && Sends(states, r.valve, r.value, month, u.value)
  {
  }

  lemma {:induction false} PassSendsRequested(states: States, requests: seq<Update>, month: int, u: Update)
    ensures u in NeededAll(states, requests, month) <==>
            exists asked :: Update(u.valve, asked) in requests && Sends(states, u.valve, asked, month, u.value)
  {
    if requests != [] {
      hide Needed, Sends;
      var front, last := requests[..|requests| - 1], requests[|requests| - 1];
      PassSendsRequested(states, front, month, u);
      NeededSends(states, last, month, u);
      assert requests == front + [last];
      assert u.valve == last.valve ==> Update(u.valve, last.value) == last;
    }
  }

  /** What a thermostat asks of its valves. */
  ghost predicate Asks(t: Thermostat, asked: Status) {
    if asked == Off then t.current > t.target + 0.3 else t.current < t.target + 0.1
  }

  lemma ThermostatRequests(t: Thermostat, r: Update)
    ensures r in RequestsOf(t) <==> t.name == Owner(r.valve) && Asks(t, r.value)
  {
    ResolvedAreOwned(t.name);
    var valves := ResolveValves(t.name);
    if t.name == Owner(r.valve) && Asks(t, r.value) {
      var k :| 0 <= k < |valves| && valves[k] == r.valve;
      assert RequestsOf(t)[k] == r;
    }
  }

  lemma {:induction false} AllRequests(thermostats: seq<Thermostat>, r: Update)
    ensures r in Requests(thermostats) <==>
            exists t :: t in thermostats && t.name == Owner(r.valve) && Asks(t, r.value)
  {
    if thermostats != [] {
      hide RequestsOf, Asks;
      var front, last := thermostats[..|thermostats| - 1], thermostats[|thermostats| - 1];
      AllRequests(front, r);
      ThermostatRequests(last, r);
      assert thermostats == front + [last];
      assert forall t :: t in thermostats <==> t in front || t == last;
    }
  }

  /** A pass sends a valve a value exactly if its thermostat asks for something
      that sends it. */
  lemma PassSends(states: States, thermostats: seq<Thermostat>, month: int, u: Update)
    ensures u in Pass(states, thermostats, month) <==>
            exists t, asked :: t in thermostats && t.name == Owner(u.valve) && Asks(t, asked)
                               && Sends(states, u.valve, asked, month, u.value)
  {
    hide NeededAll, Requests, Asks, Sends;
    PassSendsRequested(states, Requests(thermostats), month, u);
    forall asked ensures Update(u.valve, asked) in Requests(thermostats) <==>
                         exists t :: t in thermostats && t.name == Owner(u.valve) && Asks(t, asked)
    {
      AllRequests(thermostats, Update(u.valve, asked));
    }
  }

  // ---------- the second pass ----------

  /** The last command for a valve. */
  function ValueFor(updates: seq<Update>, valve: Valve): Option<Status> {
    if updates == [] then None
    else if updates[|updates| - 1].valve == valve then Some(updates[|updates| - 1].value)
    else ValueFor(updates[..|updates| - 1], valve)
  }

  /** The valves that are shown, after they followed the commands. */
  function Followed(states: States, updates: seq<Update>): States {
    map v | v in states ::
      match ValueFor(updates, v)
      case None => states[v]
      case Some(value) => if value.On? then ShowsOn else ShowsOff
  }

  /** The updates of valves that are not shown. */
  function Unshown(updates: seq<Update>, states: States): seq<Update> {
    if updates == [] then []
    else
      var last := updates[|updates| - 1];
      Unshown(updates[..|updates| - 1], states) + if last.valve in states then [] else [last]
  }

  lemma {:induction false} ValueForRequest(states: States, requests: seq<Update>, month: int, r: Update)
    requires EachValveOnce(requests) && r in requests
    ensures var need := Needed(states, r, month);
            ValueFor(NeededAll(states, requests, month), r.valve) == if need == [] then None else Some(need[0].value)
  {
    var n := |requests| - 1;
    var front, last := requests[..n], requests[n];
    var before, need := NeededAll(states, front, month), Needed(states, last, month);
    assert before + [] == before;
    assert need != [] ==> (before + need)[..|before|] == before && (before + need)[|before|] == need[0];
    if r == last {
      NoneForOthers(states, front, month, r.valve);
    } else {
      assert r.valve != last.valve;
      ValueForRequest(states, front, month, r);
    }
  }

  lemma {:induction false} NoneForOthers(states: States, requests: seq<Update>, month: int, valve: Valve)
    requires forall i :: 0 <= i < |requests| ==> requests[i].valve != valve
    ensures ValueFor(NeededAll(states, requests, month), valve) == None
  {
    if requests != [] {
      var front, last := requests[..|requests| - 1], requests[|requests| - 1];
      var before, need := NeededAll(states, front, month), Needed(states, last, month);
      NoneForOthers(states, front, month, valve);
      assert before + [] == before;
      assert need != [] ==> (before + need)[..|before|] == before;
    }
  }

  /** One request again, after the valves followed the first pass. */
  lemma NeededAgain(states: States, requests: seq<Update>, month: int, r: Update)
    requires EachValveOnce(requests) && r in requests
    ensures Needed(Followed(states, NeededAll(states, requests, month)), r, month) ==
            Unshown(Needed(states, r, month), states)
  {
    hide NeededAll;
    ValueForRequest(states, requests, month, r);
    var need := Needed(states, r, month);
    if need != [] { assert need[..0] == []; }
  }

  lemma {:induction false} UnshownConcat(a: seq<Update>, b: seq<Update>, states: States)
    ensures Unshown(a + b, states) == Unshown(a, states) + Unshown(b, states)
  {
    if b == [] {
      assert a + b == a;
    } else {
      assert (a + b)[..|a + b| - 1] == a + b[..|b| - 1];
      UnshownConcat(a, b[..|b| - 1], states);
    }
  }

  lemma {:induction false} AllNeededAgain(states: States, requests: seq<Update>, month: int, k: nat)
    requires EachValveOnce(requests) && k <= |requests|
    ensures NeededAll(Followed(states, NeededAll(states, requests, month)), requests[..k], month) ==
            Unshown(NeededAll(states, requests[..k], month), states)
  {
    if k > 0 {
      hide Followed, Needed, Unshown;
      AllNeededAgain(states, requests, month, k - 1);
      NeededAgain(states, requests, month, requests[k - 1]);
      assert requests[..k][..k - 1] == requests[..k - 1];
      UnshownConcat(NeededAll(states, requests[..k - 1], month), Needed(states, requests[k - 1], month), states);
    } else {
      assert requests[..0] == [];
    }
  }

  /** Once the valves that are shown have followed the commands of a pass, a
      second pass in the same month repeats exactly the commands for valves that
      are not shown; it is empty if and only if the first had none of those. */
  lemma SecondPassOnlyRepeatsUnshown(states: States, thermostats: seq<Thermostat>, month: int)
    requires UniqueNames(thermostats)
    ensures var first := Pass(states, thermostats, month);
            var second := Pass(Followed(states, first), thermostats, month);
            && second == Unshown(first, states)
            && (second == [] <==> forall i :: 0 <= i < |first| ==> first[i].valve in states)
  {
    var requests := Requests(thermostats);
    RequestsOnce(thermostats);
    AllNeededAgain(states, requests, month, |requests|);
    assert requests[..|requests|] == requests;
    UnshownEmpty(Pass(states, thermostats, month), states);
  }

  lemma {:induction false} UnshownEmpty(updates: seq<Update>, states: States)
    ensures Unshown(updates, states) == [] <==> forall i :: 0 <= i < |updates| ==> updates[i].valve in states
  {
    if updates != [] { UnshownEmpty(updates[..|updates| - 1], states); }
  }
}
