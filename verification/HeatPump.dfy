/** The heat pump rules that depend on the price: which hours the heating is
    cut in, and when the water tank is heated. */
module HeatPump {
  import opened Nordpool
  import opened Sorting
  import opened Wrappers

  const MAX_PRICE_PER_HOUR := 200.0
  const WATER_TANK_HEATING_LENGTH := 3
  const HOURS_IN_A_DAY := 24

  // ---------- cutting the dearest hours ----------

  function CountAbove(s: seq<real>, x: real): nat {
    if s == [] then 0 else CountAbove(s[..|s| - 1], x) + if s[|s| - 1] > x then 1 else 0
  }

  function CountFrom(s: seq<real>, x: real): nat {
    if s == [] then 0 else CountFrom(s[..|s| - 1], x) + if s[|s| - 1] >= x then 1 else 0
  }

  /** x is the fourth-highest of the prices: at most three are above it, and at
      least four are not below it. */
  ghost predicate FourthHighest(prices: seq<real>, x: real) {
    x in prices && CountAbove(prices, x) <= 3 && CountFrom(prices, x) >= 4
  }

  lemma {:induction false} CountConcat(a: seq<real>, b: seq<real>, x: real)
    ensures CountAbove(a + b, x) == CountAbove(a, x) + CountAbove(b, x)
    ensures CountFrom(a + b, x) == CountFrom(a, x) + CountFrom(b, x)
  {
    if b == [] {
      assert a + b == a;
    } else {
      assert (a + b)[..|a + b| - 1] == a + b[..|b| - 1];
      CountConcat(a, b[..|b| - 1], x);
    }
  }

  function Without(s: seq<real>, k: nat): seq<real>
    requires k < |s|
  {
    s[..k] + s[k + 1..]
  }

  lemma CountWithout(s: seq<real>, k: nat, x: real)
    requires k < |s|
    ensures multiset(s) == multiset(Without(s, k)) + multiset{s[k]}
    ensures CountAbove(s, x) == CountAbove(Without(s, k), x) + if s[k] > x then 1 else 0
    ensures CountFrom(s, x) == CountFrom(Without(s, k), x) + if s[k] >= x then 1 else 0
  {
    assert s == s[..k] + [s[k]] + s[k + 1..];
    CountConcat(s[..k] + [s[k]], s[k + 1..], x);
    CountConcat(s[..k], s[k + 1..], x);
    assert (s[..k] + [s[k]])[..k] == s[..k];
  }

  lemma {:induction false} CountPermutation(a: seq<real>, b: seq<real>, x: real)
    requires multiset(a) == multiset(b)
    ensures CountAbove(a, x) == CountAbove(b, x) && CountFrom(a, x) == CountFrom(b, x)
    decreases |a|
  {
    if a == [] {
      assert |multiset(b)| == 0;
    } else {
      hide CountAbove, CountFrom;
      assert a[0] in multiset(b);
      var k :| 0 <= k < |b| && b[k] == a[0];
      CountWithout(a, 0, x);
      CountWithout(b, k, x);
      SameRest(multiset(Without(a, 0)), multiset(Without(b, k)), a[0]);
      CountPermutation(Without(a, 0), Without(b, k), x);
    }
  }

  lemma SameRest(a: multiset<real>, b: multiset<real>, x: real)
    requires a + multiset{x} == b + multiset{x}
    ensures a == b
  {
    forall y ensures a[y] == b[y] {
      assert (a + multiset{x})[y] == (b + multiset{x})[y];
    }
  }

  lemma {:induction false} CountBounds(s: seq<real>, x: real)
    ensures CountAbove(s, x) <= CountFrom(s, x) <= |s|
    ensures (forall i :: 0 <= i < |s| ==> s[i] <= x) ==> CountAbove(s, x) == 0
    ensures (forall i :: 0 <= i < |s| ==> s[i] >= x) ==> CountFrom(s, x) == |s|
  {
    if s != [] { CountBounds(s[..|s| - 1], x); }
  }

  lemma SplitCount(s: seq<real>, k: nat, x: real)
    requires k <= |s|
    ensures CountAbove(s, x) == CountAbove(s[..k], x) + CountAbove(s[k..], x)
    ensures CountFrom(s, x) == CountFrom(s[..k], x) + CountFrom(s[k..], x)
  {
    assert s == s[..k] + s[k..];
    CountConcat(s[..k], s[k..], x);
  }

  lemma FewAbove(s: seq<real>, k: nat)
    requires SortedBy(s, NoDearer) && k < |s|
    ensures CountAbove(s, s[k]) <= |s| - 1 - k
  {
    var low, high := s[..k + 1], s[k + 1..];
    forall i | 0 <= i < |low| ensures low[i] <= s[k] { assert i < k ==> NoDearer(s[i], s[k]); }
    SplitCount(s, k + 1, s[k]);
    CountBounds(low, s[k]);
    CountBounds(high, s[k]);
  }

  lemma ManyFrom(s: seq<real>, k: nat)
    requires SortedBy(s, NoDearer) && k < |s|
    ensures CountFrom(s, s[k]) >= |s| - k
  {
    var high := s[k..];
    forall i | 0 <= i < |high| ensures high[i] >= s[k] { assert i > 0 ==> NoDearer(s[k], s[k + i]); }
    SplitCount(s, k, s[k]);
    CountBounds(high, s[k]);
  }

  lemma FourthFromTheEnd(prices: seq<real>, ascending: seq<real>)
    requires SortedBy(ascending, NoDearer) && multiset(ascending) == multiset(prices)
    requires |ascending| >= 4
    ensures FourthHighest(prices, ascending[|ascending| - 4])
  {
    hide SortedBy;
    var x := ascending[|ascending| - 4];
    assert x in multiset(prices);
    CountPermutation(ascending, prices, x);
    FewAbove(ascending, |ascending| - 4);
    ManyFrom(ascending, |ascending| - 4);
  }

  /** The fourth-highest price is one number. */
  lemma FourthHighestIsUnique(prices: seq<real>, x: real, y: real)
    requires FourthHighest(prices, x) && FourthHighest(prices, y)
    ensures x == y
  {
    CountOrdered(prices, x, y);
    CountOrdered(prices, y, x);
  }

  lemma {:induction false} CountOrdered(s: seq<real>, x: real, y: real)
    ensures x < y ==> CountFrom(s, y) <= CountAbove(s, x)
  {
    if s != [] { CountOrdered(s[..|s| - 1], x, y); }
  }

  /** Whether the heating is off in an hour, given the fourth-highest price. */
  predicate IsCut(price: real, fourth: real, ignoreCuts: bool) {
    (price > fourth || price > MAX_PRICE_PER_HOUR) && !ignoreCuts
  }

  /** A price is above the fourth-highest exactly if at most three hours are as dear. */
  lemma AboveFourth(prices: seq<real>, fourth: real, price: real)
    requires FourthHighest(prices, fourth)
    ensures price > fourth <==> CountFrom(prices, price) <= 3
  {
    CountOrdered(prices, fourth, price);
    CountFalls(prices, price, fourth);
  }

  lemma {:induction false} CountFalls(s: seq<real>, x: real, y: real)
    ensures x <= y ==> CountFrom(s, x) >= CountFrom(s, y)
  {
    if s != [] { CountFalls(s[..|s| - 1], x, y); }
  }

  /** The decision for the current hour of a day with at least four prices: unless
      cuts are ignored, the heating is off exactly above the hard limit or if at
      most three hours of the day are as dear as this one. */
  method HeatingOff(todayPrices: seq<real>, nowHour: nat, ignoreCuts: bool) returns (off: bool)
    requires |todayPrices| >= 4 && nowHour < |todayPrices|
    ensures exists x :: FourthHighest(todayPrices, x) && (off <==> IsCut(todayPrices[nowHour], x, ignoreCuts))
    ensures off <==>
              !ignoreCuts && (todayPrices[nowHour] > 200.0 || CountFrom(todayPrices, todayPrices[nowHour]) <= 3)
  {
    var ascending := OrderHoursAscending(todayPrices);
    var lastFour := ascending[|ascending| - 4..];
    var maxPrice := lastFour[0];
    FourthFromTheEnd(todayPrices, ascending);
    var currentPrice := todayPrices[nowHour];
    var maxPriceAbove := currentPrice > MAX_PRICE_PER_HOUR;
    AboveFourth(todayPrices, maxPrice, currentPrice);
    off := (currentPrice > maxPrice || maxPriceAbove) && !ignoreCuts;
  }

  /** The hours of the day in which the heating is off. */
  function CutHours(prices: seq<real>, fourth: real, ignoreCuts: bool): set<nat> {
    set h: nat | h < |prices| && IsCut(prices[h], fourth, ignoreCuts)
  }

  lemma {:induction false} HoursAbove(prices: seq<real>, x: real)
    ensures |set h: nat | h < |prices| && prices[h] > x| == CountAbove(prices, x)
  {
    var above := set h: nat | h < |prices| && prices[h] > x;
    if prices == [] {
      assert above == {};
    } else {
      var n := |prices| - 1;
      var front := prices[..n];
      HoursAbove(front, x);
      var before := set h: nat | h < |front| && front[h] > x;
      assert above == if prices[n] > x then before + {n} else before;
    }
  }

  /** Unless a price is above the hard limit, the heating is off in at most three
      hours of the day; whenever it is off in an hour it is off in every dearer
      one; and with cuts ignored it is never off. */
  lemma AtMostThreeHoursCut(prices: seq<real>, fourth: real, ignoreCuts: bool)
    requires FourthHighest(prices, fourth)
    ensures (forall h :: 0 <= h < |prices| ==> prices[h] <= MAX_PRICE_PER_HOUR) ==>
              |CutHours(prices, fourth, ignoreCuts)| <= 3
    ensures forall h, g: nat :: h in CutHours(prices, fourth, ignoreCuts) && g < |prices| && prices[g] >= prices[h] ==>
              g in CutHours(prices, fourth, ignoreCuts)
    ensures ignoreCuts ==> CutHours(prices, fourth, ignoreCuts) == {}
    ensures forall h: nat :: h in CutHours(prices, fourth, ignoreCuts) <==>
              h < |prices| && !ignoreCuts && (prices[h] > 200.0 || CountFrom(prices, prices[h]) <= 3)
  {
    forall h: nat | h < |prices| ensures prices[h] > fourth <==> CountFrom(prices, prices[h]) <= 3 {
      AboveFourth(prices, fourth, prices[h]);
    }
    if forall h :: 0 <= h < |prices| ==> prices[h] <= MAX_PRICE_PER_HOUR {
      HoursAbove(prices, fourth);
      var above := set h: nat | h < |prices| && prices[h] > fourth;
      if ignoreCuts {
        assert CutHours(prices, fourth, ignoreCuts) == {};
      } else {
        assert CutHours(prices, fourth, ignoreCuts) == above;
      }
    }
  }

  // ---------- heating the water tank ----------

  /** A full hour of a day, as time.Date makes it; home assistant is only told
      the hour of the day. */
  datatype Time = Time(day: int, hour: int)

  function HourOfDay(hour: int): int {
    hour % HOURS_IN_A_DAY
  }

  /** Home assistant's two input fields. A call that fails changes nothing. */
  class HomeAssistant {
    var startHour: int
    var stopHour: int

    constructor ()
    {
    }

    method SetStart(hour: int, works: bool) returns (ok: bool)
      modifies this`startHour
      ensures ok == works && startHour == if works then HourOfDay(hour) else old(startHour)
    {
      if works { startHour := HourOfDay(hour); }
      ok := works;
    }

    method SetStop(hour: int, works: bool) returns (ok: bool)
      modifies this`stopHour
      ensures ok == works && stopHour == if works then HourOfDay(hour) else old(stopHour)
    {
      if works { stopHour := HourOfDay(hour); }
      ok := works;
    }
  }

  datatype Error = BadHours | StartFailed | StopFailed

  class Brain {
    const ha: HomeAssistant
    var heatPumpWaterHeaterStart: Option<Time>
    var heatPumpWaterHeaterStop: Option<Time>

    /** What was sent last is what home assistant shows. Both fields remember the
        start time; the stop is always three hours after it. */
    ghost predicate Valid()
      reads this, ha
    {
      && (heatPumpWaterHeaterStart.Some? ==> ha.startHour == heatPumpWaterHeaterStart.value.hour)
      && (heatPumpWaterHeaterStop.Some? ==>
            ha.stopHour == HourOfDay(heatPumpWaterHeaterStop.value.hour + WATER_TANK_HEATING_LENGTH))
    }

    constructor (ha: HomeAssistant)
      ensures Valid() && this.ha == ha
    {
      this.ha := ha;
      heatPumpWaterHeaterStart, heatPumpWaterHeaterStop := None, None;
    }

    /** Sends the start, and the stop that follows from it, unless they are what
        was sent last. It fails exactly if a call that is needed does. */
    method Send(start: Time, startWorks: bool, stopWorks: bool) returns (error: Option<Error>)
      requires Valid() && 0 <= start.hour < HOURS_IN_A_DAY
      modifies this, ha
      ensures Valid()
      ensures error.None? ==>
                ha.startHour == start.hour && ha.stopHour == HourOfDay(start.hour + WATER_TANK_HEATING_LENGTH)
      ensures error == if old(heatPumpWaterHeaterStart) != Some(start) && !startWorks then Some(StartFailed)
                       else if old(heatPumpWaterHeaterStop) != Some(start) && !stopWorks then Some(StopFailed)
                       else None
      ensures error.None? ==> heatPumpWaterHeaterStart == heatPumpWaterHeaterStop == Some(start)
    {
      if heatPumpWaterHeaterStart != Some(start) {
        var ok := ha.SetStart(start.hour, startWorks);
        if !ok {
          return Some(StartFailed);
        }
        heatPumpWaterHeaterStart := Some(start);
      }
      var endHourNr := start.hour + WATER_TANK_HEATING_LENGTH;
      if endHourNr <= 24 {
        endHourNr := endHourNr - 24;
      }
      if heatPumpWaterHeaterStop != Some(start) {
        var ok := ha.SetStop(endHourNr, stopWorks);
        if !ok {
          return Some(StopFailed);
        }
        heatPumpWaterHeaterStop := Some(start);
      }
      return None;
    }

    /** Heats the tank in the cheapest three hours between two hours of today and
        tomorrow. Whenever it succeeds and three hours fit, home assistant shows
        the start of a window no dearer than any other, and a stop three hours
        later; in every case the remembered times stay true. */
    method SetHeatPumpWaterTankStartStopTime(
      hourStart: int, hourEnd: int, todayPrices: seq<real>, tomorrowPrices: seq<real>,
      today: int, startWorks: bool, stopWorks: bool) returns (r: Result<Option<int>, Error>)
      requires Valid() && 0 <= hourStart && |todayPrices| + |tomorrowPrices| <= 2 * HOURS_IN_A_DAY
      modifies this, ha
      ensures Valid()
      ensures r == Failure(BadHours) <==> hourStart >= hourEnd || hourEnd > |todayPrices| + |tomorrowPrices|
      ensures r == Success(None) <==>
                hourStart < hourEnd <= |todayPrices| + |tomorrowPrices| && hourEnd - hourStart < 3
      ensures startWorks && stopWorks ==> r.Success? || r == Failure(BadHours)
      ensures r == Failure(StartFailed) ==> !startWorks
      ensures r == Failure(StopFailed) ==> !stopWorks
      ensures r.Success? && r.value.Some? ==>
                && CheapestWindow(todayPrices + tomorrowPrices, hourStart, hourEnd, r.value.value)
                && ha.startHour == HourOfDay(r.value.value)
                && ha.stopHour == HourOfDay(r.value.value + WATER_TANK_HEATING_LENGTH)
    {
      var hours := todayPrices;
      if |tomorrowPrices| > 0 {
        hours := hours + tomorrowPrices;
      }
      assert hours == todayPrices + tomorrowPrices;
      if hourStart >= hourEnd || hourEnd > |hours| {
        return Failure(BadHours);
      }
      var chosen := ChooseWindow(hours, hourStart, hourEnd);
      if chosen.None? {
        return Success(None);
      }
      var hourNr := chosen.value;
      if chosen.value >= 24 {
        hourNr := chosen.value - 24;
      }
      assert HourOfDay(chosen.value) == hourNr;
      var error := Send(Time(today, hourNr), startWorks, stopWorks);
      if error.Some? {
        return Failure(error.value);
      }
      return Success(chosen);
    }

    method ChooseWindow(hours: seq<real>, hourStart: int, hourEnd: int) returns (start: Option<int>)
      requires 0 <= hourStart < hourEnd <= |hours|
      ensures start.None? <==> hourEnd - hourStart < 3
      ensures start.Some? ==> CheapestWindow(hours, hourStart, hourEnd, start.value)
    {
      var cheapestAll := FindCheapestElectricityHours(hours, WATER_TANK_HEATING_LENGTH, hourStart, hourEnd);
      if |cheapestAll| == 0 {
        return None;
      }
      ListIsCompleteAndOrdered(hours, WATER_TANK_HEATING_LENGTH, hourStart, hourEnd, cheapestAll);
      return Some(cheapestAll[0].startIndex);
    }
  }

  /** No three hours between from and upTo cost less in total. */
  ghost predicate CheapestWindow(hours: seq<real>, from: int, upTo: int, start: int) {
    && 0 <= from <= start && start + WATER_TANK_HEATING_LENGTH <= upTo <= |hours|
    && forall other :: from <= other && other + WATER_TANK_HEATING_LENGTH <= upTo ==>
         Window(hours, WATER_TANK_HEATING_LENGTH, start).totalPrice <=
         Window(hours, WATER_TANK_HEATING_LENGTH, other).totalPrice
  }
}
