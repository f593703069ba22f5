/**
 * The Main Cafe opening check, which the screen runs once a second: the cafe
 * is open from 12:00 on; before that the screen shows how long is left, as
 * "<h>h <m>m <s>s". The clock reading is a parameter.
 */
module Opening {
  import Text

  /** The cafe opens at 12 PM. */
  const OpenHour := 12

  /** The three numbers of the countdown text. */
  datatype Countdown = Countdown(hours: int, minutes: int, seconds: int)

  /** A reading of the local clock. */
  predicate ValidClock(hour: int, minute: int, second: int) {
    0 <= hour < 24 && 0 <= minute < 60 && 0 <= second < 60
  }

  /** The countdown arithmetic: `openHour - h - 1` hours, `60 - m - 1` minutes, `60 - s` seconds. */
  function CountdownAt(hour: int, minute: int, second: int): Countdown {
    Countdown(OpenHour - hour - 1, 60 - minute - 1, 60 - second)
  }

  function TotalSeconds(c: Countdown): int {
    c.hours * 3600 + c.minutes * 60 + c.seconds
  }

  /** The countdown text; before opening every component is non-negative. */
  function CountdownText(c: Countdown): string
    requires c.hours >= 0 && c.minutes >= 0 && c.seconds >= 0
  {
    Text.Decimal(c.hours) + "h " + Text.Decimal(c.minutes) + "m " + Text.Decimal(c.seconds) + "s"
  }

  /**
   * Before noon the countdown is exactly the time left until 12:00:00, with
   * hours in 0..11, minutes in 0..59 and seconds in 1..60 (a whole minute
   * left shows as "60s", never as "0s").
   */
  lemma CountdownIsTimeLeft(hour: int, minute: int, second: int)
    requires ValidClock(hour, minute, second) && hour < OpenHour
    ensures var c := CountdownAt(hour, minute, second);
      TotalSeconds(c) == OpenHour * 3600 - (hour * 3600 + minute * 60 + second) &&
      0 <= c.hours <= 11 && 0 <= c.minutes <= 59 && 1 <= c.seconds <= 60
  {
  }

  /** A second later the countdown is one second shorter, until noon. */
  lemma CountdownTicks(hour: int, minute: int, second: int)
    requires ValidClock(hour, minute, second) && hour < OpenHour
    ensures var next := (hour * 3600 + minute * 60 + second + 1);
      next < OpenHour * 3600 ==>
        TotalSeconds(CountdownAt(next / 3600, next % 3600 / 60, next % 60)) ==
        TotalSeconds(CountdownAt(hour, minute, second)) - 1
  {
    var next := hour * 3600 + minute * 60 + second + 1;
    if next < OpenHour * 3600 {
      ClockParts(next);
    }
  }

  /** A number of seconds is its hours, minutes and seconds put back together. */
  lemma ClockParts(n: nat)
    ensures n == n / 3600 * 3600 + n % 3600 / 60 * 60 + n % 60
  {
    var q, r := n / 3600, n % 3600;
    assert n == q * 3600 + r;
    var m, s := r / 60, r % 60;
    assert r == m * 60 + s;
    assert n == (q * 60 + m) * 60 + s;
    assert n % 60 == s;
  }

  /** What the screen keeps about opening: the flag and the countdown text. */
  class OpeningBoard {
    var isOpen: bool
    var timeUntilOpen: string

    /** The screen starts closed, with no countdown. */
    constructor ()
      ensures !isOpen && timeUntilOpen == ""
    {
      isOpen := false;
      timeUntilOpen := "";
    }

    /** `checkOpeningTime`: open from hour 12; otherwise closed with a fresh countdown. */
    method CheckOpeningTime(hour: int, minute: int, second: int)
      requires ValidClock(hour, minute, second)
      modifies this
      ensures isOpen <==> hour >= OpenHour
      ensures isOpen ==> timeUntilOpen == old(timeUntilOpen)
      ensures !isOpen ==> timeUntilOpen == CountdownText(CountdownAt(hour, minute, second))
    {
      if hour >= OpenHour {
        isOpen := true;
      } else {
        isOpen := false;
        var hoursUntilOpen := OpenHour - hour - 1;
        var minutesUntilOpen := 60 - minute - 1;
        var secondsUntilOpen := 60 - second;
        timeUntilOpen := Text.Decimal(hoursUntilOpen) + "h " + Text.Decimal(minutesUntilOpen) + "m " +
          Text.Decimal(secondsUntilOpen) + "s";
      }
    }
  }

  /** At 11:59:59 the screen shows "0h 0m 1s"; at 11:00:00 it shows "0h 59m 60s". */
  lemma CountdownExamples()
    ensures CountdownText(CountdownAt(11, 59, 59)) == "0h 0m 1s"
    ensures CountdownText(CountdownAt(11, 0, 0)) == "0h 59m 60s"
  {
    assert Text.Decimal(0) == "0" && Text.Decimal(1) == "1";
    assert Text.Decimal(59) == "59" by {
      assert Text.Decimal(5) == "5" && Text.Decimal(9) == "9";
    }
    assert Text.Decimal(60) == "60" by {
      assert Text.Decimal(6) == "6";
    }
  }
}
