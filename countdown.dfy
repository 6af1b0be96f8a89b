/**
 * Model of the `updateCountdown` arithmetic in src/components/ContentView.tsx:
 * the time left until the deadline, in milliseconds, is split into whole
 * days, hours, minutes and seconds. The clock read and the React state update
 * around it are not modelled; the difference is the input.
 */
module Countdown {
  import Calculations

  const MsPerSecond: int := 1000
  const MsPerMinute: int := 60000
  const MsPerHour: int := 3600000

  datatype Countdown = Countdown(days: int, hours: int, minutes: int, seconds: int)

  /** The milliseconds a countdown display stands for. */
  function Millis(c: Countdown): int
  {
    c.days * Calculations.MsPerDay + c.hours * MsPerHour + c.minutes * MsPerMinute + c.seconds * MsPerSecond
  }

  /** Every field is in its clock range: days unbounded above, hours below 24, minutes and seconds below 60. */
  predicate Normalized(c: Countdown)
  {
    && c.days >= 0
    && 0 <= c.hours < 24
    && 0 <= c.minutes < 60
    && 0 <= c.seconds < 60
  }

  /**
   * `updateCountdown`: for a positive difference, floor division and
   * remainder by a day, an hour, a minute and a second (the operands are
   * positive, so JavaScript's `%` agrees with Dafny's); otherwise all zero.
   */
  function FromDifference(timeDifference: int): (c: Countdown)
    ensures Normalized(c)
    ensures timeDifference <= 0 ==> c == Countdown(0, 0, 0, 0)
    ensures timeDifference > 0 ==> Millis(c) <= timeDifference < Millis(c) + MsPerSecond
  {
    if timeDifference > 0 then
      var days := timeDifference / Calculations.MsPerDay;
      var hours := (timeDifference % Calculations.MsPerDay) / MsPerHour;
      var minutes := (timeDifference % MsPerHour) / MsPerMinute;
      var seconds := (timeDifference % MsPerMinute) / MsPerSecond;
      FromDifferenceParts(timeDifference);
      Countdown(days, hours, minutes, seconds)
    else
      Countdown(0, 0, 0, 0)
  }

  /** The remainders by an hour and by a minute are the remainders of the finer steps, which bounds every field. */
  lemma FromDifferenceParts(t: int)
    requires t > 0
    ensures var c := Countdown(t / Calculations.MsPerDay, (t % Calculations.MsPerDay) / MsPerHour,
                               (t % MsPerHour) / MsPerMinute, (t % MsPerMinute) / MsPerSecond);
            Normalized(c) && Millis(c) <= t < Millis(c) + MsPerSecond
  {
    var days, rest := t / Calculations.MsPerDay, t % Calculations.MsPerDay;
    var hours, x := rest / MsPerHour, rest % MsPerHour;
    DivModUnique(t, MsPerHour, days * 24 + hours, x);
    var minutes, y := x / MsPerMinute, x % MsPerMinute;
    DivModUnique(t, MsPerMinute, (days * 24 + hours) * 60 + minutes, y);
  }

  lemma ProductNonNegative(a: int, b: int)
    requires a >= 0 && b >= 0
    ensures a * b >= 0
  {
  }

  /** Floor division and remainder are determined by their defining inequality. */
  lemma {:induction false} DivModUnique(n: int, d: int, q: int, r: int)
    requires d > 0 && 0 <= r < d && n == q * d + r
    ensures n / d == q && n % d == r
  {
    var q', r' := n / d, n % d;
    var k := q' - q;
    assert k * d == r - r';
    ProductNonNegative(if k >= 1 then k - 1 else 0, d);
    ProductNonNegative(if k <= -1 then -k - 1 else 0, d);
  }

  /**
   * The display is the only normalized countdown within a second below the
   * difference: the split is uniquely determined by the time left.
   */
  lemma {:induction false} FromDifferenceUnique(timeDifference: int, c: Countdown)
    requires timeDifference > 0 && Normalized(c)
    requires Millis(c) <= timeDifference < Millis(c) + MsPerSecond
    ensures FromDifference(timeDifference) == c
  {
    var rest := timeDifference - Millis(c);
    var inMinute := c.seconds * MsPerSecond + rest;
    var inHour := c.minutes * MsPerMinute + inMinute;
    var inDay := c.hours * MsPerHour + inHour;
    DivModUnique(timeDifference, Calculations.MsPerDay, c.days, inDay);
    DivModUnique(inDay, MsPerHour, c.hours, inHour);
    DivModUnique(timeDifference, MsPerHour, c.days * 24 + c.hours, inHour);
    DivModUnique(inHour, MsPerMinute, c.minutes, inMinute);
    DivModUnique(timeDifference, MsPerMinute, (c.days * 24 + c.hours) * 60 + c.minutes, inMinute);
    DivModUnique(inMinute, MsPerSecond, c.seconds, rest);
  }

  /** A normalized, non-zero countdown is recovered from the milliseconds it stands for. */
  lemma {:induction false} FromDifferenceOfMillis(c: Countdown)
    requires Normalized(c) && Millis(c) > 0
    ensures FromDifference(Millis(c)) == c
  {
    FromDifferenceUnique(Millis(c), c);
  }

  /**
   * The countdown's day figure is the floored day count; the days-remaining
   * figure of src/utils/calculations.ts is the ceiling, so the two agree only
   * on exact day boundaries and otherwise differ by one.
   */
  lemma {:induction false} DaysAgainstDaysRemaining(targetTime: int, now: int)
    requires targetTime > now
    ensures var days := FromDifference(targetTime - now).days;
            var remaining := Calculations.DaysRemaining(targetTime, now);
            if (targetTime - now) % Calculations.MsPerDay == 0 then remaining == days else remaining == days + 1
  {
    var diff := targetTime - now;
    var days := FromDifference(diff).days;
    var remaining := Calculations.DaysRemaining(targetTime, now);
    var r := diff % Calculations.MsPerDay;
    assert diff == days * Calculations.MsPerDay + r;
    if r == 0 {
      Calculations.DaysRemainingIsLeast(targetTime, now, days);
      assert remaining * Calculations.MsPerDay >= days * Calculations.MsPerDay;
    } else {
      Calculations.DaysRemainingIsLeast(targetTime, now, days + 1);
      assert (remaining - 1) * Calculations.MsPerDay < (days + 1) * Calculations.MsPerDay;
      assert remaining * Calculations.MsPerDay > days * Calculations.MsPerDay;
    }
  }
}
