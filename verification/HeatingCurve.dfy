/** The heating curve: which flow temperature to aim for at an outside
    temperature, from a table in any order. */
module HeatingCurve {
  import opened Sorting
  import opened Wrappers

  datatype Row = Row(externalTemperature: int, targetTemperature: int)

  predicate ColderFirst(a: Row, b: Row) {
    a.externalTemperature <= b.externalTemperature
  }

  /** math.Round: to the nearest integer, halves away from zero. */
  function Round(v: real): int {
    if v >= 0.0 then (v + 0.5).Floor else -((-v + 0.5).Floor)
  }

  function Interpolate(lower: Row, higher: Row, currentExt: real): real
    requires lower.externalTemperature < higher.externalTemperature
  {
    var lowerExt, higherExt := lower.externalTemperature as real, higher.externalTemperature as real;
    var fraction := (currentExt - lowerExt) / (higherExt - lowerExt);
    var targetLower, targetHigher := lower.targetTemperature as real, higher.targetTemperature as real;
    targetLower + fraction * (targetHigher - targetLower)
  }

  // ---------- what the table says ----------

  ghost predicate ColderThan(items: seq<Row>, x: real) {
    forall r :: r in items ==> r.externalTemperature as real < x
  }

  /** No row is strictly between the two, and x is. */
  ghost predicate Brackets(items: seq<Row>, lower: Row, higher: Row, x: real) {
    && lower in items && higher in items
    && lower.externalTemperature as real < x <= higher.externalTemperature as real
    && forall r :: r in items ==>
         r.externalTemperature <= lower.externalTemperature || r.externalTemperature >= higher.externalTemperature
  }

  ghost predicate Warmest(items: seq<Row>, top: Row) {
    top in items && forall r :: r in items ==> r.externalTemperature <= top.externalTemperature
  }

  /** v is the target at x on the straight line through the two rows. */
  ghost predicate OnLine(lower: Row, higher: Row, x: real, v: real) {
    (v - lower.targetTemperature as real) * (higher.externalTemperature - lower.externalTemperature) as real ==
    (x - lower.externalTemperature as real) * (higher.targetTemperature - lower.targetTemperature) as real
  }

  /** The target before rounding. */
  ghost predicate Curve(items: seq<Row>, x: real, v: real) {
    || (exists lower, higher :: Brackets(items, lower, higher, x) && OnLine(lower, higher, x, v))
    || (ColderThan(items, x) && exists top :: Warmest(items, top) && v == top.targetTemperature as real)
  }

  datatype Error = NoRows | BelowTable

  /** Sorts the table and walks up it to the first row that is not colder. At or
      below the coldest row there is no lower row: the source then dereferences
      nil. */
  method LookUp(items: seq<Row>, x: real) returns (r: Result<int, Error>)
    ensures r == Failure(NoRows) <==> items == []
    ensures r == Failure(BelowTable) <==>
              items != [] && forall row :: row in items ==> x <= row.externalTemperature as real
    ensures r.Success? ==> exists v :: Curve(items, x, v) && r.value == Round(v)
  {
    if |items| <= 0 {
      return Failure(NoRows);
    }
    var sorted := SortSlice(items, ColderFirst);
    SameRows(items, sorted);
    var lowerItem: Option<Row> := None;
    var biggestItem := sorted[0];
    for i := 0 to |sorted|
      invariant lowerItem == if i == 0 then None else Some(sorted[i - 1])
      invariant biggestItem in sorted
      invariant forall k :: 0 <= k < i ==> sorted[k].externalTemperature as real < x
      invariant forall k :: 0 <= k < i ==> sorted[k].externalTemperature <= biggestItem.externalTemperature
    {
      var item := sorted[i];
      if item.externalTemperature as real >= x {
        if lowerItem.None? {
          forall row | row in items ensures x <= row.externalTemperature as real {
            var k :| 0 <= k < |sorted| && sorted[k] == row;
            assert k > 0 ==> ColderFirst(sorted[0], sorted[k]);
          }
          return Failure(BelowTable);
        }
        SortedBrackets(items, sorted, i, x);
        var target := Interpolate(lowerItem.value, item, x);
        InterpolateIsOnLine(lowerItem.value, item, x, target);
        assert Curve(items, x, target);
        assert lowerItem.value in items;
        return Success(Round(target));
      }
      lowerItem := Some(item);
      if item.externalTemperature > biggestItem.externalTemperature {
        biggestItem := item;
      }
    }
    assert Warmest(items, biggestItem);
    assert Curve(items, x, biggestItem.targetTemperature as real);
    RoundOfInt(biggestItem.targetTemperature);
    assert sorted[0] in items;
    return Success(biggestItem.targetTemperature);
  }

  lemma SameRows(items: seq<Row>, sorted: seq<Row>)
    requires multiset(items) == multiset(sorted)
    ensures forall r :: r in items <==> r in sorted
  {
    forall r ensures r in items <==> r in sorted {
      assert r in items <==> r in multiset(items);
    }
  }

  lemma SortedBrackets(items: seq<Row>, sorted: seq<Row>, i: nat, x: real)
    requires 0 < i < |sorted| && SortedBy(sorted, ColderFirst)
    requires forall r :: r in items <==> r in sorted
    requires sorted[i - 1].externalTemperature as real < x <= sorted[i].externalTemperature as real
    ensures Brackets(items, sorted[i - 1], sorted[i], x)
  {
    forall r | r in items
      ensures || r.externalTemperature <= sorted[i - 1].externalTemperature
              || r.externalTemperature >= sorted[i].externalTemperature
    {
      var k :| 0 <= k < |sorted| && sorted[k] == r;
      assert k < i - 1 ==> ColderFirst(sorted[k], sorted[i - 1]);
      assert i < k ==> ColderFirst(sorted[i], sorted[k]);
    }
  }

  // ---------- rounding and interpolation ----------

  /** Interpolation gives the point on the line, and there is only one. */
  lemma InterpolateIsOnLine(lower: Row, higher: Row, x: real, v: real)
    requires lower.externalTemperature < higher.externalTemperature
    ensures v == Interpolate(lower, higher, x) <==> OnLine(lower, higher, x, v)
  {
    var d := (higher.externalTemperature - lower.externalTemperature) as real;
    var run := x - lower.externalTemperature as real;
    var rise := (higher.targetTemperature - lower.targetTemperature) as real;
    assert d == higher.externalTemperature as real - lower.externalTemperature as real;
    assert rise == higher.targetTemperature as real - lower.targetTemperature as real;
    QuotientTimes(run, rise, d, v - lower.targetTemperature as real);
  }

  lemma QuotientTimes(run: real, rise: real, d: real, y: real)
    requires d > 0.0
    ensures y == run / d * rise <==> y * d == run * rise
  {
    assert run / d * rise * d == run / d * d * rise == run * rise;
    if y * d == run * rise { assert (y - run / d * rise) * d == 0.0; }
  }

  lemma RoundOfInt(n: int)
    ensures Round(n as real) == n
  {
  }

  lemma RoundMonotone(v: real, w: real)
    requires v <= w
    ensures Round(v) <= Round(w)
  {
  }

  /** To the nearest integer, and alike above and below zero. */
  lemma RoundIsNearest(v: real)
    ensures -0.5 <= Round(v) as real - v <= 0.5
    ensures Round(-v) == -Round(v)
    ensures v >= 0.0 ==> Round(v) as real - v > -0.5
  {
  }

  lemma FractionOf(a: real, b: real, d: real)
    requires a <= b && d > 0.0
    ensures a / d <= b / d
  {
  }

  lemma ScaledInOrder(f: real, g: real, c: real)
    requires f <= g
    ensures c >= 0.0 ==> f * c <= g * c
    ensures c <= 0.0 ==> f * c >= g * c
  {
    if c >= 0.0 { assert (g - f) * c >= 0.0; } else { assert (g - f) * c <= 0.0; }
  }

  /** Along one segment the value runs from one target to the other. */
  lemma SegmentMonotone(lower: Row, higher: Row, x: real, y: real)
    requires lower.externalTemperature as real <= x <= y <= higher.externalTemperature as real
    requires lower.externalTemperature < higher.externalTemperature
    ensures var v, w := Interpolate(lower, higher, x), Interpolate(lower, higher, y);
            && (lower.targetTemperature >= higher.targetTemperature ==> v >= w)
            && (lower.targetTemperature <= higher.targetTemperature ==> v <= w)
  {
    var lo, hi := lower.externalTemperature as real, higher.externalTemperature as real;
    FractionOf(x - lo, y - lo, hi - lo);
    var rise := higher.targetTemperature as real - lower.targetTemperature as real;
    ScaledInOrder((x - lo) / (hi - lo), (y - lo) / (hi - lo), rise);
  }

  lemma SegmentEnds(lower: Row, higher: Row)
    requires lower.externalTemperature < higher.externalTemperature
    ensures Interpolate(lower, higher, lower.externalTemperature as real) == lower.targetTemperature as real
    ensures Interpolate(lower, higher, higher.externalTemperature as real) == higher.targetTemperature as real
  {
    var d := higher.externalTemperature as real - lower.externalTemperature as real;
    assert d / d == 1.0;
    assert 0.0 / d == 0.0;
  }

  function Min(a: int, b: int): int {
    if a <= b then a else b
  }

  function Max(a: int, b: int): int {
    if a >= b then a else b
  }

  lemma WithinSegment(lower: Row, higher: Row, x: real)
    requires lower.externalTemperature as real < x <= higher.externalTemperature as real
    ensures Min(lower.targetTemperature, higher.targetTemperature) as real <= Interpolate(lower, higher, x)
    ensures Interpolate(lower, higher, x) <= Max(lower.targetTemperature, higher.targetTemperature) as real
  {
    SegmentEnds(lower, higher);
    SegmentMonotone(lower, higher, lower.externalTemperature as real, x);
    SegmentMonotone(lower, higher, x, higher.externalTemperature as real);
  }

  predicate BetweenTargets(lower: Row, higher: Row, x: real, t: int) {
    && Min(lower.targetTemperature, higher.targetTemperature) <= t
    && t <= Max(lower.targetTemperature, higher.targetTemperature)
    && (x == higher.externalTemperature as real ==> t == higher.targetTemperature)
  }

  /** The rounded target lies between the targets of the bracketing rows, is the
      row's own target at a row, and the warmest row's target beyond the table. */
  lemma RoundedTargetIsBracketed(items: seq<Row>, x: real, v: real)
    requires Curve(items, x, v)
    ensures || (exists lower, higher :: Brackets(items, lower, higher, x) && BetweenTargets(lower, higher, x, Round(v)))
            || (ColderThan(items, x) && exists top :: Warmest(items, top) && Round(v) == top.targetTemperature)
  {
    if exists lower, higher :: Brackets(items, lower, higher, x) && OnLine(lower, higher, x, v) {
      var lower, higher :| Brackets(items, lower, higher, x) && OnLine(lower, higher, x, v);
      InterpolateIsOnLine(lower, higher, x, v);
      var lo := Min(lower.targetTemperature, higher.targetTemperature);
      var hi := Max(lower.targetTemperature, higher.targetTemperature);
      WithinSegment(lower, higher, x);
      SegmentEnds(lower, higher);
      RoundMonotone(lo as real, v);
      RoundMonotone(v, hi as real);
      RoundOfInt(lo);
      RoundOfInt(hi);
      RoundOfInt(higher.targetTemperature);
    } else {
      var top :| Warmest(items, top) && v == top.targetTemperature as real;
      RoundOfInt(top.targetTemperature);
    }
  }

  // ---------- the curve over the whole table ----------

  ghost predicate DistinctRows(items: seq<Row>) {
    forall a, b :: a in items && b in items && a.externalTemperature == b.externalTemperature ==> a == b
  }

  /** The table asks for no more heat when it is warmer. */
  ghost predicate TargetsFall(items: seq<Row>) {
    forall a, b :: a in items && b in items && a.externalTemperature < b.externalTemperature ==>
      a.targetTemperature >= b.targetTemperature
  }

  lemma SegmentsFall(items: seq<Row>, x: real, y: real, lower: Row, higher: Row, lower': Row, higher': Row)
    requires DistinctRows(items) && TargetsFall(items) && x <= y
    requires Brackets(items, lower, higher, x) && Brackets(items, lower', higher', y)
    ensures Interpolate(lower, higher, x) >= Interpolate(lower', higher', y)
  {
    hide Interpolate;
    WithinSegment(lower, higher, x);
    WithinSegment(lower', higher', y);
    if lower'.externalTemperature == lower.externalTemperature {
      SegmentMonotone(lower, higher, x, y);
    } else {
      assert higher.externalTemperature <= lower'.externalTemperature;
    }
  }

  lemma AboveTop(items: seq<Row>, r: Row, top: Row)
    requires DistinctRows(items) && TargetsFall(items) && Warmest(items, top) && r in items
    ensures r.targetTemperature >= top.targetTemperature
  {
  }

  /** The target never rises with the outside temperature; in particular it is
      one number for one temperature. */
  lemma CurveFalls(items: seq<Row>, x: real, y: real, v: real, w: real)
    requires DistinctRows(items) && TargetsFall(items) && x <= y
    requires Curve(items, x, v) && Curve(items, y, w)
    ensures v >= w && Round(v) >= Round(w)
  {
    hide Interpolate, Round, DistinctRows, TargetsFall;
    if exists lower, higher :: Brackets(items, lower, higher, x) && OnLine(lower, higher, x, v) {
      var lower, higher :| Brackets(items, lower, higher, x) && OnLine(lower, higher, x, v);
      InterpolateIsOnLine(lower, higher, x, v);
      if exists lower', higher' :: Brackets(items, lower', higher', y) && OnLine(lower', higher', y, w) {
        var lower', higher' :| Brackets(items, lower', higher', y) && OnLine(lower', higher', y, w);
        InterpolateIsOnLine(lower', higher', y, w);
        SegmentsFall(items, x, y, lower, higher, lower', higher');
      } else {
        var top :| Warmest(items, top) && w == top.targetTemperature as real;
        WithinSegment(lower, higher, x);
        AboveTop(items, lower, top);
        AboveTop(items, higher, top);
      }
    } else {
      var top :| Warmest(items, top) && v == top.targetTemperature as real;
      assert forall lower, higher :: !Brackets(items, lower, higher, y);
      var top' :| Warmest(items, top') && w == top'.targetTemperature as real;
      AboveTop(items, top, top');
    }
    RoundMonotone(w, v);
  }

  // ---------- setting the target ----------

  /** Go's conversion to int drops the fraction. */
  function Truncate(v: real): int {
    if v >= 0.0 then v.Floor else -((-v).Floor)
  }

  datatype Fault = NoTarget | NoExternal | Table(error: Error) | SetFailed

  /** Toward zero, by less than one. */
  lemma TruncateIs(v: real)
    ensures v >= 0.0 ==> 0.0 <= Truncate(v) as real <= v < Truncate(v) as real + 1.0
    ensures v <= 0.0 ==> Truncate(v) as real - 1.0 < v <= Truncate(v) as real <= 0.0
  {
  }

  /** The new target to send, if it differs from the one that is set; setWorks says
      whether home assistant takes it. Outside winter mode the heat pump's own
      sensor is preferred. */
  method UpdateFloorHeatingTargetTemp(
    target: Option<real>, external: Option<real>, heatPumpExternal: Option<real>, katelInWinterMode: bool,
    offset: Option<real>, items: seq<Row>, setWorks: bool) returns (r: Result<Option<int>, Fault>)
    ensures r == Failure(NoTarget) <==> target.None?
    ensures r == Failure(NoExternal) <==> target.Some? && external.None?
    ensures r == Failure(Table(NoRows)) <==> target.Some? && external.Some? && items == []
    ensures target.Some? && external.Some? ==>
              var x := if !katelInWinterMode && heatPumpExternal.Some? then heatPumpExternal.value else external.value;
              && (r == Failure(Table(BelowTable)) <==>
                    items != [] && forall row :: row in items ==> x <= row.externalTemperature as real)
              && (r.Success? || r == Failure(SetFailed) ==>
                    exists v :: Curve(items, x, v)
                      && var sent := Round(v) + (if offset.Some? then Truncate(offset.value) else 0);
                         r == if sent == Truncate(target.value) then Success(None)
                              else if setWorks then Success(Some(sent))
                              else Failure(SetFailed))
  {
    if target.None? {
      return Failure(NoTarget);
    }
    if external.None? {
      return Failure(NoExternal);
    }
    var externalTemp := external.value;
    if !katelInWinterMode && heatPumpExternal.Some? {
      externalTemp := heatPumpExternal.value;
    }
    var offsetTemp := 0;
    if offset.Some? {
      offsetTemp := Truncate(offset.value);
    }
    var looked := LookUp(items, externalTemp);
    if looked.Failure? {
      return Failure(Table(looked.error));
    }
    var newTarget := looked.value + offsetTemp;
    if Truncate(target.value) == newTarget {
      return Success(None);
    }
    if !setWorks {
      return Failure(SetFailed);
    }
    return Success(Some(newTarget));
  }
}
