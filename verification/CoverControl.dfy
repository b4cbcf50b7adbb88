/** The floor heating cover: a dead-band controller that moves the cover a little
    at most once a minute. */
module CoverControl {
  import opened Spacing
  import opened Wrappers

  const MIN_INTERVAL := 60 * 1000
  const UPPER_GAP := 1.0
  const LOWER_GAP := 0.4
  const MAX_STEP := 0.05

  /** Target and flow temperature, and the cover's position in percent. */
  datatype Reading = Reading(target: Option<real>, flow: Option<real>, percent: Option<real>)

  datatype Outcome = Missing | BadPosition | TooSoon | WithinGap | AtLimit | SetFailed | Commanded(position: real)

  function Abs(x: real): real {
    if x < 0.0 then -x else x
  }

  function StepFor(diff: real): real {
    if Abs(diff) < 2.0 then 0.03 else if Abs(diff) < 3.0 then 0.04 else 0.05
  }

  predicate Due(lastUpdate: Option<int>, now: int) {
    lastUpdate.None? || now - lastUpdate.value >= MIN_INTERVAL
  }

  /** What the controller does, given when it last moved the cover. */
  function Decide(lastUpdate: Option<int>, r: Reading, now: int, setWorks: bool): Outcome {
    if r.target.None? || r.flow.None? || r.percent.None? then Missing
    else
      var position := r.percent.value / 100.0;
      var diff := r.target.value - r.flow.value;
      if position < 0.0 || position > 1.0 then BadPosition
      else if !Due(lastUpdate, now) then TooSoon
      else if -UPPER_GAP <= diff <= LOWER_GAP then WithinGap
      else
        var moved := if diff > 0.0 then position + StepFor(diff) else position - StepFor(diff);
        if moved < 0.0 || moved > 1.0 then AtLimit
        else if !setWorks then SetFailed
        else Commanded(moved)
  }

  class Controller {
    var lastUpdate: Option<int>

    constructor ()
      ensures lastUpdate == None
    {
      lastUpdate := None;
    }

    /** checkedAt and recordedAt are the clock before and after the cover is set;
        failing to record is logged and ignored. */
    method SetFloorHeatingCoverPosition(r: Reading, checkedAt: int, setWorks: bool, recordedAt: int, recordWorks: bool)
      returns (outcome: Outcome)
      modifies this
      ensures outcome == Decide(old(lastUpdate), r, checkedAt, setWorks)
      ensures lastUpdate == if outcome.Commanded? && recordWorks then Some(recordedAt) else old(lastUpdate)
    {
      if r.target.None? || r.flow.None? || r.percent.None? {
        return Missing;
      }
      var position := r.percent.value / 100.0;
      if position < 0.0 || position > 1.0 {
        return BadPosition;
      }
      var doCheck := false;
      if lastUpdate.None? || checkedAt - lastUpdate.value >= MIN_INTERVAL {
        doCheck := true;
      }
      if !doCheck {
        return TooSoon;
      }
      var step := 0.05;
      var tempsDiff := r.target.value - r.flow.value;
      var tempsDiffAbs := Abs(tempsDiff);
      if tempsDiffAbs < 2.0 {
        step := 0.03;
      } else if tempsDiffAbs < 3.0 {
        step := 0.04;
      }
      var newPosition := 0.0;
      if tempsDiff > 0.0 && tempsDiff > LOWER_GAP {
        newPosition := position + step;
      } else if tempsDiff < 0.0 && tempsDiffAbs > UPPER_GAP {
        newPosition := position - step;
      } else {
        return WithinGap;
      }
      if newPosition < 0.0 || newPosition > 1.0 {
        return AtLimit;
      }
      if !setWorks {
        return SetFailed;
      }
      if recordWorks {
        lastUpdate := Some(recordedAt);
      }
      return Commanded(newPosition);
    }
  }

  /** A commanded position is a position, three to five hundredths from the
      reported one depending on the error, opened when the flow is more than 0.4 below the target and
      closed when it is more than 1 above. */
  lemma CommandIsSafe(lastUpdate: Option<int>, r: Reading, now: int, setWorks: bool)
    requires Decide(lastUpdate, r, now, setWorks).Commanded?
    ensures var p := Decide(lastUpdate, r, now, setWorks).position;
            && r.target.Some? && r.flow.Some? && r.percent.Some?
            && 0.0 <= p <= 1.0
            && Abs(p - r.percent.value / 100.0) ==
               (if Abs(r.target.value - r.flow.value) < 2.0 then 0.03
                else if Abs(r.target.value - r.flow.value) < 3.0 then 0.04
                else MAX_STEP)
            && (p > r.percent.value / 100.0 <==> r.target.value - r.flow.value > LOWER_GAP)
            && (p < r.percent.value / 100.0 <==> r.flow.value - r.target.value > UPPER_GAP)
  {
  }

  /** When the cover is moved at all: everything is read, the position is between
      0 and 100 percent, a minute has passed, the flow is out of the gap, the new
      position is in range, and the cover takes it. The call fails exactly if
      something is not read, the position is not one, or the cover refuses. */
  lemma CommandIsGiven(lastUpdate: Option<int>, r: Reading, now: int, setWorks: bool)
    ensures var outcome := Decide(lastUpdate, r, now, setWorks);
            var read := r.target.Some? && r.flow.Some? && r.percent.Some?;
            && (outcome == Missing <==> !read)
            && (read ==>
                  var diff, p := r.target.value - r.flow.value, r.percent.value / 100.0;
                  var step := if -2.0 < diff < 2.0 then 0.03 else if -3.0 < diff < 3.0 then 0.04 else 0.05;
                  var due := lastUpdate.None? || now - lastUpdate.value >= 60_000;
                  var wanted := || (diff > 0.4 && p + step <= 1.0) || (diff < -1.0 && p - step >= 0.0);
                  && (outcome == BadPosition <==> !(0.0 <= r.percent.value <= 100.0))
                  && (outcome.Commanded? <==> 0.0 <= r.percent.value <= 100.0 && due && wanted && setWorks)
                  && (outcome == SetFailed <==> 0.0 <= r.percent.value <= 100.0 && due && wanted && !setWorks)
                  && (outcome.Commanded? ==> outcome.position == if diff > 0.0 then p + step else p - step))
  {
  }

  // ---------- runs ----------

  datatype Call = Call(reading: Reading, checkedAt: int, setWorks: bool, recordedAt: int, recordWorks: bool)

  /** One command of a run: when, and how far the cover moved. */
  datatype Move = Move(at: int, distance: real)

  /** The last recorded update and the moves after a series of calls. */
  function Run(calls: seq<Call>): (Option<int>, seq<Move>) {
    if calls == [] then (None, [])
    else
      var (last, moves) := Run(calls[..|calls| - 1]);
      var c := calls[|calls| - 1];
      var outcome := Decide(last, c.reading, c.checkedAt, c.setWorks);
      if !outcome.Commanded? then (last, moves)
      else
        (if c.recordWorks then Some(c.recordedAt) else last,
         moves + [Move(c.recordedAt, Abs(outcome.position - c.reading.percent.value / 100.0))])
  }

  function Times(moves: seq<Move>): seq<int> {
    seq(|moves|, i requires 0 <= i < |moves| => moves[i].at)
  }

  function Travel(moves: seq<Move>): real {
    if moves == [] then 0.0 else Travel(moves[..|moves| - 1]) + moves[|moves| - 1].distance
  }

  /** The clock does not go back, within a call or from one to the next. */
  ghost predicate Forward(calls: seq<Call>) {
    && (forall i :: 0 <= i < |calls| ==> calls[i].checkedAt <= calls[i].recordedAt)
    && (forall i :: 0 < i < |calls| ==> calls[i - 1].recordedAt <= calls[i].checkedAt)
  }

  /** Every update but the last is recorded, with a clock that does not go back
      during a call. */
  ghost predicate Recorded(calls: seq<Call>) {
    && (forall i :: 0 <= i < |calls| ==> calls[i].checkedAt <= calls[i].recordedAt)
    && (forall i :: 0 <= i < |calls| - 1 ==> calls[i].recordWorks)
  }

  lemma {:induction false} RunKeeps(calls: seq<Call>)
    requires Recorded(calls)
    ensures var (last, moves) := Run(calls);
            && Spaced(Times(moves), MIN_INTERVAL)
            && (calls != [] && calls[|calls| - 1].recordWorks ==>
                  last == if moves == [] then None else Some(moves[|moves| - 1].at))
            && (forall i :: 0 <= i < |moves| ==> moves[i].distance <= MAX_STEP)
  {
    if calls != [] {
      var n := |calls| - 1;
      var c := calls[n];
      RunKeeps(calls[..n]);
      var (last, moves) := Run(calls[..n]);
      assert n > 0 ==> calls[..n][n - 1].recordWorks;
      if Decide(last, c.reading, c.checkedAt, c.setWorks).Commanded? {
        CommandIsSafe(last, c.reading, c.checkedAt, c.setWorks);
        MoreSpaced(moves, Run(calls).1[|moves|]);
      }
    }
  }

  lemma MoreSpaced(moves: seq<Move>, m: Move)
    requires Spaced(Times(moves), MIN_INTERVAL)
    requires moves != [] ==> m.at - moves[|moves| - 1].at >= MIN_INTERVAL
    ensures Spaced(Times(moves + [m]), MIN_INTERVAL)
  {
    forall i | 0 < i < |moves| + 1 ensures Times(moves + [m])[i] - Times(moves + [m])[i - 1] >= MIN_INTERVAL {
      if i < |moves| { assert Times(moves)[i] - Times(moves)[i - 1] >= MIN_INTERVAL; }
    }
  }

  lemma {:induction false} TravelBound(moves: seq<Move>)
    requires forall i :: 0 <= i < |moves| ==> moves[i].distance <= MAX_STEP
    ensures Travel(moves) <= MAX_STEP * |moves| as real
  {
    if moves != [] { TravelBound(moves[..|moves| - 1]); }
  }

  /** In any run in which every update but the last is recorded, the commands that fall within a span of
      so many milliseconds are at most one a minute and one more, and the cover
      travels at most five hundredths for each. */
  lemma TravelIsLimited(calls: seq<Call>, i: nat, j: nat, span: nat)
    requires Recorded(calls)
    requires i <= j < |Run(calls).1| && Run(calls).1[j].at - Run(calls).1[i].at <= span
    ensures j - i + 1 <= span / MIN_INTERVAL + 1
    ensures Travel(Run(calls).1[i..j + 1]) <= MAX_STEP * (span / MIN_INTERVAL + 1) as real
  {
    hide Decide, Run;
    var moves := Run(calls).1;
    RunKeeps(calls);
    SpacedCount(Times(moves), MIN_INTERVAL, span, i, j);
    TravelBound(moves[i..j + 1]);
  }

  // ---------- when the limit is lost ----------

  /** What a call commands when no update is recorded; it commands the same
      whenever it is not too soon. */
  function Wanted(c: Call): Outcome {
    Decide(None, c.reading, c.checkedAt, c.setWorks)
  }

  /** The last recorded update after a call. */
  function After(last: Option<int>, c: Call): Option<int> {
    if Decide(last, c.reading, c.checkedAt, c.setWorks).Commanded? && c.recordWorks then Some(c.recordedAt) else last
  }

  /** Of two calls within a minute that both want to move the cover, the first of
      which does, the second does too exactly when the first was not recorded. */
  lemma SecondMovesIffUnrecorded(last: Option<int>, a: Call, b: Call)
    requires Decide(last, a.reading, a.checkedAt, a.setWorks).Commanded? && Wanted(b).Commanded?
    requires a.checkedAt <= a.recordedAt <= b.checkedAt < a.recordedAt + MIN_INTERVAL
    ensures Decide(After(last, a), b.reading, b.checkedAt, b.setWorks).Commanded? <==> !a.recordWorks
  {
  }

  /** Calls that all come at the same time, of which only the i-th and the next
      have anything to do. */
  function TwoAtOnce(outcomes: seq<bool>, i: nat): seq<Call> {
    seq(|outcomes|, k requires 0 <= k < |outcomes| => CallAt(i <= k <= i + 1, outcomes[k]))
  }

  function CallAt(wants: bool, recordWorks: bool): Call {
    Call(Reading(Some(30.0), if wants then Some(25.0) else None, Some(50.0)), 0, true, 0, recordWorks)
  }

  lemma CallAtIs(last: Option<int>, wants: bool, recordWorks: bool)
    ensures var c := CallAt(wants, recordWorks); var outcome := Decide(last, c.reading, c.checkedAt, c.setWorks);
            outcome == if !wants then Missing else if Due(last, 0) then Commanded(0.55) else TooSoon
  {
  }

  lemma {:induction false} TwoAtOnceRuns(outcomes: seq<bool>, i: nat, k: nat)
    requires i + 1 < |outcomes| && !outcomes[i] && k <= |outcomes|
    ensures var (last, moves) := Run(TwoAtOnce(outcomes, i)[..k]);
            && (k <= i + 1 ==> last == None)
            && |moves| == (if k <= i then 0 else if k == i + 1 then 1 else 2)
            && forall j :: 0 <= j < |moves| ==> moves[j].at == 0
  {
    if k > 0 {
      hide Decide;
      var calls := TwoAtOnce(outcomes, i);
      TwoAtOnceRuns(outcomes, i, k - 1);
      assert calls[..k][..k - 1] == calls[..k - 1];
      CallAtIs(Run(calls[..k - 1]).0, i <= k - 1 <= i + 1, outcomes[k - 1]);
    }
  }

  /** Whether recording works in each of a series of calls decides whether the
      once-a-minute limit holds in all runs with a clock that does not go back: it
      does exactly when every update but the last is recorded. */
  lemma LimitHoldsIffRecorded(outcomes: seq<bool>)
    ensures (forall i :: 0 <= i < |outcomes| - 1 ==> outcomes[i]) <==>
            (forall calls: seq<Call> :: Forward(calls) && Outcomes(calls) == outcomes ==>
                                          Spaced(Times(Run(calls).1), MIN_INTERVAL))
  {
    hide Run;
    if i :| 0 <= i < |outcomes| - 1 && !outcomes[i] {
      var calls := TwoAtOnce(outcomes, i);
      TwoAtOnceRuns(outcomes, i, |outcomes|);
      assert calls[..|outcomes|] == calls;
      assert Forward(calls) && Outcomes(calls) == outcomes;
      var times := Times(Run(calls).1);
      assert times[1] - times[0] < MIN_INTERVAL;
    } else {
      forall calls: seq<Call> | Forward(calls) && Outcomes(calls) == outcomes
        ensures Spaced(Times(Run(calls).1), MIN_INTERVAL)
      {
        assert forall i :: 0 <= i < |calls| ==> calls[i].recordWorks == Outcomes(calls)[i];
        RunKeeps(calls);
      }
    }
  }

  function Outcomes(calls: seq<Call>): seq<bool> {
    seq(|calls|, i requires 0 <= i < |calls| => calls[i].recordWorks)
  }

  /** For one, when recording fails, two commands can be given at once. */
  lemma UnrecordedIsUnlimited()
    ensures var c := Call(Reading(Some(30.0), Some(25.0), Some(50.0)), 0, true, 0, false);
            |Run([c, c]).1| == 2 && Run([c, c]).1[0].at == Run([c, c]).1[1].at
  {
    var c := CallAt(true, false);
    var calls := TwoAtOnce([false, false], 0);
    assert calls == [c, c] && calls[..2] == calls;
    TwoAtOnceRuns([false, false], 0, 2);
  }
}
