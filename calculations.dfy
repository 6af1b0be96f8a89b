/**
 * Model of src/utils/calculations.ts: the days left until the savings
 * deadline and the progress ratio toward the savings target.
 * Times are whole milliseconds since the epoch (`Date.getTime()`), and the
 * current time, read from the clock in the source, is a parameter.
 */
module Calculations {

  /** Milliseconds in one day, written `1000 * 60 * 60 * 24` in the source. */
  const MsPerDay: int := 86400000

  /** `Math.ceil(a / b)` for a positive divisor (Dafny's `/` floors when b > 0). */
  function CeilDiv(a: int, b: int): (q: int)
    requires b > 0
    ensures q * b >= a
    ensures (q - 1) * b < a
  {
    var f := (-a) / b;
    assert f * b <= -a < (f + 1) * b;
    -f
  }

  /**
   * `calculateDaysRemaining`: `Math.max(0, Math.ceil(diffTime / MsPerDay))`
   * with `diffTime = targetTime - now`.
   */
  function DaysRemaining(targetTime: int, now: int): (days: int)
    ensures days >= 0
    ensures targetTime <= now ==> days == 0
    ensures targetTime > now ==>
              days * MsPerDay >= targetTime - now && (days - 1) * MsPerDay < targetTime - now
  {
    var diffTime := targetTime - now;
    var q := CeilDiv(diffTime, MsPerDay);
    if q > 0 then q else 0
  }

  /** Ceiling division: no non-negative day count smaller than the result covers the time left. */
  lemma {:induction false} DaysRemainingIsLeast(targetTime: int, now: int, d: int)
    requires d >= 0 && d * MsPerDay >= targetTime - now
    ensures DaysRemaining(targetTime, now) <= d
  {
    if targetTime > now {
      var days := DaysRemaining(targetTime, now);
      assert (days - 1) * MsPerDay < d * MsPerDay;
    }
  }

  /** A later target never yields fewer remaining days. */
  lemma {:induction false} DaysRemainingMonotone(earlier: int, later: int, now: int)
    requires earlier <= later
    ensures DaysRemaining(earlier, now) <= DaysRemaining(later, now)
  {
    if earlier > now {
      DaysRemainingIsLeast(earlier, now, DaysRemaining(later, now));
    }
  }

  /**
   * `calculateProgress`: `Math.min(current / target, 1.0)`, the smaller of the
   * ratio and one. A zero target (an infinite or undefined ratio in
   * floating point) is outside the model.
   */
  function Progress(current: real, target: real): (p: real)
    requires target != 0.0
    ensures p <= 1.0 && p <= current / target
    ensures p == current / target || p == 1.0
    ensures target > 0.0 ==> (current <= target <==> p == current / target)
    ensures target > 0.0 && current >= target ==> p == 1.0
  {
    var ratio := current / target;
    if ratio < 1.0 then ratio else 1.0
  }

  /** More savings never show less progress. */
  lemma {:induction false} ProgressMonotone(smaller: real, larger: real, target: real)
    requires target > 0.0 && smaller <= larger
    ensures Progress(smaller, target) <= Progress(larger, target)
  {
    assert smaller / target <= larger / target by {
      assert larger / target - smaller / target == (larger - smaller) / target;
    }
  }
}
