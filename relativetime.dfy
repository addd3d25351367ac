/** `fromNow` (client/src/lib/utils.ts): a timestamp described relative to
    now, in the first unit of a fixed table that fits. The wording is the
    platform's `Intl.RelativeTimeFormat`, which is foreign: the result is
    the count and unit handed to it, or "just now". */
module RelativeTime {
  import opened Wrappers

  const Second := 1000
  const Minute := 60 * Second
  const Hour := 60 * Minute
  const Day := 24 * Hour
  const Week := 7 * Day
  const Year := 365 * Day
  /** A twelfth of a year; it is a whole number of milliseconds. */
  const Month := Year / 12

  datatype Unit = Years | Months | Weeks | Days | Hours | Minutes | Seconds

  /** A row of the table: the smallest distance it covers, the divisor,
      and the unit, absent for "just now". */
  datatype Interval = Interval(ge: nat, divisor: nat, unit: Option<Unit>)

  const Intervals: seq<Interval> := [
    Interval(Year, Year, Some(Years)),
    Interval(Month, Month, Some(Months)),
    Interval(Week, Week, Some(Weeks)),
    Interval(Day, Day, Some(Days)),
    Interval(Hour, Hour, Some(Hours)),
    Interval(Minute, Minute, Some(Minutes)),
    Interval(30 * Second, Second, Some(Seconds)),
    Interval(0, 1, None)
  ]

  /** What `fromNow` returns: "just now", or `rtf.format(count, unit)`. */
  datatype Relative = JustNow | Relative(count: int, unit: Unit)

  function Abs(x: int): nat { if x < 0 then -x else x }

  /** `Math.round(a / d)` for `a >= 0`: the nearest whole number, halves
      rounded up. */
  function RoundDiv(a: nat, d: nat): (r: nat)
    requires d > 0
    ensures 2 * d * r <= 2 * a + d < 2 * d * r + 2 * d
  {
    (2 * a + d) / (2 * d)
  }

  /** The index of the first row from `k` on whose threshold `distance`
      reaches. */
  function FirstFit(distance: nat, k: nat): (r: Option<nat>)
    requires k <= |Intervals|
    ensures r.Some? ==> k <= r.value < |Intervals| && Intervals[r.value].ge <= distance
    ensures r.Some? ==> forall j :: k <= j < r.value ==> distance < Intervals[j].ge
    decreases |Intervals| - k
  {
    if k == |Intervals| then None
    else if Intervals[k].ge <= distance then Some(k)
    else FirstFit(distance, k + 1)
  }

  /** The description a row gives: the rounded count, positive for the
      future and negative for the past. */
  function Describe(iv: Interval, diff: int): Relative
    requires iv.divisor > 0
  {
    if iv.unit.None? then JustNow
    else
      var x: int := RoundDiv(Abs(diff), iv.divisor);
      Relative(if diff < 0 then x else -x, iv.unit.value)
  }

  /** `fromNow(timestamp)` at time `now`; None is the `undefined` of a
      loop that finds no row. */
  function FromNowSpec(now: int, timestamp: int): Option<Relative> {
    var diff := now - timestamp;
    match FirstFit(Abs(diff), 0)
    case None => None
    case Some(k) => Some(Describe(Intervals[k], diff))
  }

  /** The scan over the table, returning at the first row that fits. */
  method FromNow(now: int, timestamp: int) returns (r: Option<Relative>)
    ensures r == FromNowSpec(now, timestamp)
  {
    var diff := now - timestamp;
    var distance := Abs(diff);
    var k := 0;
    while k < |Intervals|
      invariant 0 <= k <= |Intervals|
      invariant FirstFit(distance, k) == FirstFit(distance, 0)
    {
      if distance >= Intervals[k].ge {
        return Some(Describe(Intervals[k], diff));
      }
      k := k + 1;
    }
    return None;
  }

  /** The last threshold is 0, so some row always fits. */
  lemma {:induction false} LastRowFits(distance: nat, k: nat)
    requires k <= |Intervals| - 1
    ensures FirstFit(distance, k).Some?
    decreases |Intervals| - k
  {
    if Intervals[k].ge > distance {
      LastRowFits(distance, k + 1);
    }
  }

  /** `fromNow` always describes the time, and says "just now" exactly
      when it is less than thirty seconds away. */
  lemma AlwaysDescribed(now: int, timestamp: int)
    ensures FromNowSpec(now, timestamp).Some?
    ensures FromNowSpec(now, timestamp) == Some(JustNow) <==> Abs(now - timestamp) < 30 * Second
  {
    LastRowFits(Abs(now - timestamp), 0);
    var k := FirstFit(Abs(now - timestamp), 0).value;
    if Abs(now - timestamp) < 30 * Second {
      assert k == 7;
    }
  }

  /** The chosen unit is the largest whose size the distance reaches, the
      count is the distance in that unit rounded, and its sign says past
      (negative) or future (positive). */
  lemma ChosenUnit(now: int, timestamp: int)
    requires FromNowSpec(now, timestamp).Some? && FromNowSpec(now, timestamp).value.Relative?
    ensures var diff := now - timestamp;
      var k := FirstFit(Abs(diff), 0).value;
      var r := FromNowSpec(now, timestamp).value;
      && Intervals[k].ge <= Abs(diff)
      && (k > 0 ==> Abs(diff) < Intervals[k - 1].ge)
      && Intervals[k].unit == Some(r.unit)
      && Abs(r.count) == RoundDiv(Abs(diff), Intervals[k].divisor)
      && (r.count > 0 <==> diff < 0)
      && r.count != 0
  {
    var diff := now - timestamp;
    var k := FirstFit(Abs(diff), 0).value;
    assert k < 7;
    assert Intervals[k].divisor <= Intervals[k].ge;
    RoundDivPositive(Abs(diff), Intervals[k].divisor);
  }

  /** A distance of at least one divisor rounds to a positive count. */
  lemma RoundDivPositive(a: nat, d: nat)
    requires 0 < d <= a
    ensures RoundDiv(a, d) >= 1
  {
  }

  /** A month is exactly a twelfth of a year. */
  lemma MonthIsTwelfthOfYear()
    ensures 12 * Month == Year
  {
  }
}
