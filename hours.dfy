/**
 * Elapsed-time arithmetic of src/lib/utils.ts (`calculateHours`).
 *
 * Instants are integer milliseconds since the epoch, as a JavaScript `Date`
 * holds them. A `total_hours` value is kept as an integer number of
 * hundredths of an hour: `toFixed(2)` keeps two decimals, so 2.53 hours is 253.
 */
module Hours {
  import opened Types

  const MsPerMinute: int := 60_000
  const MsPerHour: int := 3_600_000

  /** Division rounding toward zero (`Math.trunc(a / b)`, date-fns' default rounding). */
  function TruncDiv(a: int, b: int): int
    requires b > 0
  {
    if a >= 0 then a / b else -((-a) / b)
  }

  /** JavaScript's `%`: the remainder takes the sign of the dividend. */
  function JsRem(a: int, b: int): int
    requires b > 0
  {
    a - b * TruncDiv(a, b)
  }

  /**
   * `Number(x.toFixed(2))` for the exact value x = num / den, as hundredths:
   * the nearest integer to 100 * x, ties away from zero (`toFixed` rounds |x|
   * and then restores the sign).
   */
  function ToFixed2(num: int, den: int): int
    requires den > 0
  {
    if num >= 0 then (200 * num + den) / (2 * den)
    else -((200 * (-num) + den) / (2 * den))
  }

  /** `differenceInMinutes(end, start)`: whole minutes elapsed, truncated toward zero. */
  function WholeMinutes(start: Time, end: Time): int {
    TruncDiv(end - start, MsPerMinute)
  }

  /**
   * `calculateHours(start, end)`: whole hours plus the minutes remainder as a
   * fraction of an hour, rounded to hundredths. The result is the hundredth
   * nearest to (whole minutes elapsed) / 60.
   */
  function CalculateHours(start: Time, end: Time): (h: int)
    ensures -1 <= 3 * h - 5 * WholeMinutes(start, end) <= 1
  {
    var hours := TruncDiv(end - start, MsPerHour);
    var minutes := JsRem(TruncDiv(end - start, MsPerMinute), 60);
    MinutesDecompose(end - start);
    ToFixed2Sixtieths(60 * hours + minutes);
    ToFixed2(60 * hours + minutes, 60)
  }

  /** Rounding m/60 hours to hundredths lands within a third of a hundredth of 5m/3. */
  lemma ToFixed2Sixtieths(m: int)
    ensures -1 <= 3 * ToFixed2(m, 60) - 5 * m <= 1
  {
    var a := if m >= 0 then m else -m;
    var q := (200 * a + 60) / 120;
    assert 120 * q <= 200 * a + 60 < 120 * q + 120;
  }

  /** Whole hours and the signed minutes remainder recombine to the whole minutes. */
  lemma MinutesDecompose(d: int)
    ensures 60 * TruncDiv(d, MsPerHour) + JsRem(TruncDiv(d, MsPerMinute), 60)
            == TruncDiv(d, MsPerMinute)
  {
    var m := TruncDiv(d, MsPerMinute);
    if d >= 0 {
      var q, r := d / MsPerHour, d % MsPerHour;
      assert d == MsPerHour * q + r;
      assert m == 60 * q + r / MsPerMinute;
      assert m / 60 == q;
    } else {
      var q, r := (-d) / MsPerHour, (-d) % MsPerHour;
      assert -d == MsPerHour * q + r;
      assert -m == 60 * q + r / MsPerMinute;
      assert (-m) / 60 == q;
    }
  }

  /** For a non-negative session of m whole minutes, total_hours is (5m + 1) / 3 hundredths. */
  lemma {:induction false} CalculateHoursClosedForm(start: Time, end: Time)
    requires start <= end
    ensures CalculateHours(start, end) == (5 * WholeMinutes(start, end) + 1) / 3
  {
    var m := WholeMinutes(start, end);
    var h := CalculateHours(start, end);
    assert m >= 0;
    var c := (5 * m + 1) / 3;
    assert 3 * c <= 5 * m + 1 < 3 * c + 3;
    assert 5 * m - 1 <= 3 * h <= 5 * m + 1;
  }

  /** A difference of less than one minute, either way, contributes nothing. */
  lemma SubMinuteIsZero(start: Time, end: Time)
    requires -MsPerMinute < end - start < MsPerMinute
    ensures CalculateHours(start, end) == 0
  {
    assert WholeMinutes(start, end) == 0;
  }

  /** Only whole minutes count: two sessions of the same whole minutes get the same hours. */
  lemma {:induction false} SameMinutesSameHours(s1: Time, e1: Time, s2: Time, e2: Time)
    requires WholeMinutes(s1, e1) == WholeMinutes(s2, e2)
    ensures CalculateHours(s1, e1) == CalculateHours(s2, e2)
  {
    var h1, h2 := CalculateHours(s1, e1), CalculateHours(s2, e2);
    assert -2 <= 3 * h1 - 3 * h2 <= 2;
  }

  /** Whole minutes elapsed never decrease as the end time increases. */
  lemma WholeMinutesMonotone(start: Time, end1: Time, end2: Time)
    requires end1 <= end2
    ensures WholeMinutes(start, end1) <= WholeMinutes(start, end2)
  {
    var a, b := end1 - start, end2 - start;
    if a < 0 <= b {
      assert WholeMinutes(start, end1) <= 0 <= WholeMinutes(start, end2);
    }
  }

  /** For a fixed start, `calculateHours` never decreases as the end time increases. */
  lemma {:induction false} CalculateHoursMonotone(start: Time, end1: Time, end2: Time)
    requires end1 <= end2
    ensures CalculateHours(start, end1) <= CalculateHours(start, end2)
  {
    WholeMinutesMonotone(start, end1, end2);
    var m1, m2 := WholeMinutes(start, end1), WholeMinutes(start, end2);
    var h1, h2 := CalculateHours(start, end1), CalculateHours(start, end2);
    if m1 == m2 {
      SameMinutesSameHours(start, end1, start, end2);
    } else {
      assert 3 * h2 >= 5 * m2 - 1 >= 5 * m1 + 4 > 3 * h1;
    }
  }

  /** A session of 2 h 32 min 45 s is 2.53 hours, not 2.55: seconds are dropped. */
  lemma CalculateHoursExample()
    ensures CalculateHours(0, 2 * MsPerHour + 32 * MsPerMinute + 45_000) == 253
  {
    CalculateHoursClosedForm(0, 2 * MsPerHour + 32 * MsPerMinute + 45_000);
  }
}
