/** The running stream timer (client/src/components/TimeSince.tsx): once
    a second the whole seconds since the stream started are recomputed and
    shown as hours, minutes and seconds. */
module TimeSince {
  import opened Strings

  /** JavaScript's `%`, which truncates toward zero. */
  function JsRem(a: int, b: int): (r: int)
    requires b > 0
    ensures a >= 0 ==> r == a % b
    ensures a < 0 ==> -b < r <= 0
  {
    if a >= 0 then a % b else -((-a) % b)
  }

  /** `Math.floor(a / b)` for a positive divisor, which Dafny's `/` is. */
  function FloorDiv(a: int, b: int): (q: int)
    requires b > 0
    ensures b * q <= a < b * q + b
  {
    a / b
  }

  datatype Clock = Clock(hours: int, minutes: int, seconds: int)

  /** The three numbers `formatTimePassed` prints. */
  function ClockOf(seconds: int): Clock {
    Clock(FloorDiv(seconds, 3600), FloorDiv(JsRem(seconds, 3600), 60), JsRem(seconds, 60))
  }

  /** `formatTimePassed(seconds)`: "h:m:s" followed by "s", no padding. */
  function FormatTimePassed(seconds: int): string {
    var c := ClockOf(seconds);
    IntToDecimal(c.hours) + ":" + IntToDecimal(c.minutes) + ":" + IntToDecimal(c.seconds) + "s"
  }

  /** For a non-negative count the clock reads it back exactly, with
      minutes and seconds below 60. */
  lemma ClockReadsBack(s: nat)
    ensures var c := ClockOf(s);
      3600 * c.hours + 60 * c.minutes + c.seconds == s
      && 0 <= c.hours && 0 <= c.minutes < 60 && 0 <= c.seconds < 60
  {
    var h, r := s / 3600, s % 3600;
    var m, sec := r / 60, r % 60;
    assert ClockOf(s) == Clock(h, m, s % 60);
    SecondsOfHour(h, r);
  }

  /** Whole hours do not change the seconds within the minute. */
  lemma SecondsOfHour(h: nat, r: nat)
    requires r < 3600
    ensures (3600 * h + r) % 60 == r % 60
  {
    var m, sec := r / 60, r % 60;
    assert 3600 * h + r == 60 * (60 * h + m) + sec;
  }

  /** A start time ahead of the viewer's clock gives a negative count, which
      the clock does not read back: one second before the start shows
      "-1:-1:-1s". */
  lemma NegativeCountShown()
    ensures ClockOf(-1) == Clock(-1, -1, -1)
    ensures var c := ClockOf(-1); 3600 * c.hours + 60 * c.minutes + c.seconds != -1
  {
  }

  /** `Math.floor(passedMs / 1000)`. */
  function ElapsedSeconds(now: int, start: int): (r: int)
    ensures 1000 * r <= now - start < 1000 * r + 1000
  {
    FloorDiv(now - start, 1000)
  }

  /** The component's state: the start time and the count it shows. */
  class Timer {
    const startTime: int
    var timePassed: int

    constructor (start: int)
      ensures startTime == start && timePassed == 0
    {
      startTime, timePassed := start, 0;
    }

    /** One tick of the interval, at time `now` in milliseconds. */
    method Tick(now: int)
      modifies this`timePassed
      ensures timePassed == ElapsedSeconds(now, startTime)
      ensures now >= startTime ==> timePassed >= 0
    {
      timePassed := ElapsedSeconds(now, startTime);
    }
  }
}
