/** The 24-hour countdown of the closing slide (src/components/Slide10.tsx): the seconds left,
    the once-a-second tick that stops at zero, the split into hours, minutes and seconds, and
    the two-digit display of each. */
module Countdown {
  import opened JsNumber

  /** `24 * 60 * 60` (line 12). */
  const Day: nat := 24 * 60 * 60

  /** The interval's update (line 16): one second less, never below zero. */
  function Tick(t: int): (r: int)
    ensures t > 0 ==> r == t - 1
    ensures t <= 0 ==> r == 0
    ensures 0 <= t ==> 0 <= r <= t
  {
    if t > 0 then t - 1 else 0
  }

  /** The seconds left after `n` ticks from `t`. */
  function AfterTicks(t: nat, n: nat): nat {
    if n == 0 then t else Tick(AfterTicks(t, n - 1))
  }

  /** After `n` ticks, `n` seconds are gone, or the clock stands at zero. */
  lemma {:induction false} AfterTicksCountsDown(t: nat, n: nat)
    ensures AfterTicks(t, n) == if n <= t then t - n else 0
  {
    if n > 0 {
      AfterTicksCountsDown(t, n - 1);
    }
  }

  /** The countdown reaches zero after a day of ticks and stays there. */
  lemma StopsAtZero(n: nat)
    requires n >= Day
    ensures AfterTicks(Day, n) == 0
  {
    AfterTicksCountsDown(Day, n);
  }

  /** The hours, minutes and seconds shown (lines 21-23). */
  datatype Clock = Clock(hours: nat, minutes: nat, seconds: nat)

  /** `Math.floor(t / 3600)`, `Math.floor((t % 3600) / 60)` and `t % 60` of a count that is never
      negative, where flooring and JavaScript's remainder agree with Dafny's. */
  function Split(t: nat): (c: Clock)
    ensures c.hours * 3600 + c.minutes * 60 + c.seconds == t
    ensures c.minutes < 60 && c.seconds < 60
    ensures t <= Day ==> c.hours <= 24
  {
    Clock(t / 3600, (t % 3600) / 60, t % 60)
  }

  /** Only one clock reading adds up to a given number of seconds. */
  lemma SplitUnique(t: nat, c: Clock)
    requires c.hours * 3600 + c.minutes * 60 + c.seconds == t
    requires c.minutes < 60 && c.seconds < 60
    ensures c == Split(t)
  {
    var r := c.minutes * 60 + c.seconds;
    assert 0 <= r < 3600;
    assert c.hours == t / 3600 && r == t % 3600;
    assert c.minutes == r / 60 && c.seconds == r % 60;
  }

  /** `String(n).padStart(2, "0")` (lines 31, 125). */
  function TwoDigits(n: nat): (r: string)
    ensures n < 10 ==> r == "0" + NatToString(n)
    ensures n >= 10 ==> r == NatToString(n)
  {
    var s := NatToString(n);
    if |s| >= 2 then s else "0" + s
  }

  /** Every value a clock shows fits in two digits and reads back as itself. */
  lemma TwoDigitsReadBack(n: nat)
    requires n < 100
    ensures |TwoDigits(n)| == 2 && AllDigits(TwoDigits(n))
    ensures DigitsValue(TwoDigits(n)) == n
  {
    var r := TwoDigits(n);
    if n < 10 {
      assert r == ['0', DigitChar(n)];
      assert r[..1] == "0" && DigitsValue(r[..1]) == 0 && r[1] == DigitChar(n);
    } else {
      assert NatToString(n) == [DigitChar(n / 10)] + [DigitChar(n % 10)];
      NatToStringValue(n);
    }
  }

  /** The line under the offer (line 125): "Expires in HHh MMm". */
  function ExpiryText(c: Clock): (r: string)
    ensures |r| >= 15 && r[..11] == "Expires in " && r[|r| - 1] == 'm'
    // a clock within a day shows its hours and minutes as two digits each, reading back as them
    ensures c.hours < 100 && c.minutes < 100 ==>
              |r| == 18 && r[13..15] == "h "
              && AllDigits(r[11..13]) && DigitsValue(r[11..13]) == c.hours
              && AllDigits(r[15..17]) && DigitsValue(r[15..17]) == c.minutes
  {
    var r := "Expires in " + TwoDigits(c.hours) + "h " + TwoDigits(c.minutes) + "m";
    if c.hours < 100 && c.minutes < 100 then
      TwoDigitsReadBack(c.hours);
      TwoDigitsReadBack(c.minutes);
      assert r[11..13] == TwoDigits(c.hours) && r[15..17] == TwoDigits(c.minutes);
      r
    else r
  }

  /** The countdown's state (line 12). */
  class Timer {
    var timeLeft: int

    predicate Valid()
      reads this
    {
      0 <= timeLeft <= Day
    }

    /** A full day to go. */
    constructor()
      ensures timeLeft == Day && Valid()
    {
      timeLeft := Day;
    }

    /** One tick of the interval (lines 15-17). */
    method OnTick()
      requires Valid()
      modifies this
      ensures Valid()
      ensures timeLeft == Tick(old(timeLeft))
    {
      timeLeft := if timeLeft > 0 then timeLeft - 1 else 0;
    }

    /** What the timer shows: hours of at most 24, minutes and seconds below 60. */
    function Shown(): (c: Clock)
      requires Valid()
      reads this
      ensures c.hours <= 24 && c.minutes < 60 && c.seconds < 60
      ensures c.hours * 3600 + c.minutes * 60 + c.seconds == timeLeft
    {
      Split(timeLeft)
    }
  }
}
