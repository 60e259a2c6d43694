/**
 * Calendar and rounding arithmetic shared by both analytics implementations.
 * Instants are integer milliseconds since the Unix epoch, read in UTC.
 */
module Numeric {

  const MsPerHour: int := 3600000
  const MsPerDay: int := 86400000
  const MsPerWeek: int := 7 * MsPerDay

  /** The UTC calendar day of an instant (what the date part of `toISOString` names). */
  function DayOf(t: int): int
  {
    t / MsPerDay
  }

  /** `getDay()` in UTC: 0 is Sunday, 6 is Saturday; day 0 (1970-01-01) was a Thursday. */
  function Weekday(day: int): (w: int)
    ensures 0 <= w < 7
  {
    (day + 4) % 7
  }

  /** Weekdays advance with the day number, modulo the week. */
  lemma WeekdayAfter(day: int, n: nat)
    ensures Weekday(day + n) == (Weekday(day) + n) % 7
  {
    var q := (day + 4) / 7;
    var w := (day + 4) % 7;
    assert day + n + 4 == 7 * q + (w + n);
    var q2 := (w + n) / 7;
    assert w + n == 7 * q2 + (w + n) % 7;
    assert day + n + 4 == 7 * (q + q2) + (w + n) % 7;
  }

  /** The instant of UTC midnight that starts a calendar day. */
  function MidnightOf(day: int): int
  {
    day * MsPerDay
  }

  lemma MidnightBounds(t: int)
    ensures MidnightOf(DayOf(t)) <= t < MidnightOf(DayOf(t)) + MsPerDay
  {
  }

  function Min(a: int, b: int): (r: int)
    ensures r <= a && r <= b
    ensures r == a || r == b
  {
    if a <= b then a else b
  }

  /**
   * `Math.round(n / d)` for a positive divisor `d`: the integer nearest to n/d,
   * with an exact half rounded towards positive infinity.
   */
  function RoundDiv(n: int, d: int): (r: int)
    requires d > 0
    ensures 2 * d * r - d <= 2 * n < 2 * d * r + d
  {
    var q := (2 * n + d) / (2 * d);
    assert 2 * n + d == 2 * d * q + (2 * n + d) % (2 * d);
    q
  }

  /** A product with a positive factor below that factor has its other factor below one. */
  lemma ProductBelowFactor(d: int, x: int)
    requires d > 0 && d * x < d
    ensures x < 1
  {
  }

  /** The bounds in RoundDiv's contract single out one integer. */
  lemma RoundDivUnique(n: int, d: int, r: int)
    requires d > 0
    requires 2 * d * r - d <= 2 * n < 2 * d * r + d
    ensures r == RoundDiv(n, d)
  {
    var q := RoundDiv(n, d);
    assert 2 * d * (r - q) < 2 * d;
    ProductBelowFactor(2 * d, r - q);
    assert 2 * d * (q - r) < 2 * d;
    ProductBelowFactor(2 * d, q - r);
  }

  /** `Math.ceil(n / d)` for a positive divisor. */
  function CeilDiv(n: int, d: int): (r: int)
    requires d > 0
    ensures d * (r - 1) < n <= d * r
  {
    var q := (-n) / d;
    assert -n == d * q + (-n) % d;
    -q
  }

  /** The whole number of days between two UTC midnights. */
  lemma DaysBetweenMidnights(a: int, b: int)
    ensures CeilDiv(MidnightOf(a) - MidnightOf(b), MsPerDay) == a - b
  {
    var r := CeilDiv(MidnightOf(a) - MidnightOf(b), MsPerDay);
    assert MsPerDay * (r - 1) < MsPerDay * (a - b) <= MsPerDay * r;
  }

  /** Scaling numerator and divisor alike does not change the rounded quotient. */
  lemma RoundDivScale(n: int, d: int, c: int)
    requires d > 0 && c > 0
    ensures RoundDiv(c * n, c * d) == RoundDiv(n, d)
  {
    var r := RoundDiv(n, d);
    assert 2 * d * r - d <= 2 * n < 2 * d * r + d;
    assert c * (2 * d * r - d) <= c * (2 * n) < c * (2 * d * r + d);
    assert 2 * (c * d) * r - c * d <= 2 * (c * n) < 2 * (c * d) * r + c * d;
    RoundDivUnique(c * n, c * d, r);
  }

  /** `Math.round((seconds / 3600) * 10)`: a duration in seconds as tenths of an hour. */
  function TenthsOfSeconds(seconds: int): int
  {
    RoundDiv(seconds, 360)
  }

  /** `Math.round((minutes / 60) * 10)`: a duration in minutes as tenths of an hour. */
  function TenthsOfMinutes(minutes: int): int
  {
    RoundDiv(minutes, 6)
  }

  /**
   * Percentage change `Math.round(((cur - base) / base) * 100)` for a positive baseline,
   * computed exactly.
   */
  function PercentChange(cur: int, base: int): (p: int)
    requires base > 0
    ensures 2 * base * p - base <= 200 * (cur - base) < 2 * base * p + base
  {
    RoundDiv(100 * (cur - base), base)
  }

  /** The sign of the change follows the sign of `cur - base`, up to rounding towards zero. */
  lemma PercentChangeSign(cur: int, base: int)
    requires base > 0
    ensures cur >= base ==> PercentChange(cur, base) >= 0
    ensures cur <= base ==> PercentChange(cur, base) <= 0
  {
  }

  /** Equal weeks, a doubled week, a halved week and an empty week. */
  lemma {:induction false} PercentChangeExamples(base: int)
    requires base > 0
    ensures PercentChange(base, base) == 0
    ensures PercentChange(2 * base, base) == 100
    ensures PercentChange(0, base) == -100
    ensures base % 2 == 0 ==> PercentChange(base / 2, base) == -50
  {
    RoundDivUnique(0, base, 0);
    RoundDivUnique(100 * base, base, 100);
    RoundDivUnique(-100 * base, base, -100);
    if base % 2 == 0 {
      assert 100 * (base / 2 - base) == -50 * base;
      RoundDivUnique(-50 * base, base, -50);
    }
  }
}
