/**
 Instants and durations in whole nanoseconds. An instant counts from Go's zero
 time, so 0 is the one for which IsZero holds.
 */
module GoTime {
  import opened Decimal

  type Time = int
  type Duration = int

  const ZERO_TIME: Time := 0
  const MICROSECOND: Duration := 1_000
  const MILLISECOND: Duration := 1_000_000
  const SECOND: Duration := 1_000_000_000
  const MINUTE: Duration := 60 * SECOND
  const HOUR: Duration := 60 * MINUTE

  predicate IsDuration(d: int) {
    MIN_INT64 <= d <= MAX_INT64
  }

  /** time.Time.Sub, which stays inside the range of a Duration. */
  function Sub(t: Time, u: Time): (d: Duration)
    ensures IsDuration(d)
    ensures IsDuration(t - u) ==> d == t - u
  {
    if t - u > MAX_INT64 then MAX_INT64 else if t - u < MIN_INT64 then MIN_INT64 else t - u
  }

  /** Go's remainder has the sign of the dividend. */
  function GoRem(d: int, m: int): int
    requires m > 0
  {
    if d >= 0 then d % m else -((-d) % m)
  }

  /** time.Duration.Round, with the two places where int64 addition would wrap. */
  function Round(d: Duration, m: Duration): (r: Duration)
    requires IsDuration(d) && IsDuration(m)
    ensures IsDuration(r)
  {
    if m <= 0 then d
    else
      var rem := GoRem(d, m);
      if d < 0 then
        if -rem + -rem < m then d - rem
        else if d - m - rem >= MIN_INT64 then d - m - rem else MIN_INT64
      else
        if rem + rem < m then d - rem
        else if d + m - rem <= MAX_INT64 then d + m - rem else MAX_INT64
  }

  /** Rounding moves a duration by half a unit at most, towards a multiple, and never past the int64 range. */
  lemma RoundNearest(d: Duration, m: Duration)
    requires IsDuration(d) && IsDuration(m) && m > 0
    ensures -m <= 2 * (Round(d, m) - d) <= m
    ensures MIN_INT64 < Round(d, m) < MAX_INT64 ==> exists k: int :: Round(d, m) == k * m
  {
    var a := if d >= 0 then d else -d;
    var q := a / m;
    assert a == q * m + a % m;
    var k := if (a % m) + (a % m) < m then q else q + 1;
    assert (q + 1) * m == q * m + m;
    var s := if d >= 0 then k else -k;
    assert s * m == if d >= 0 then k * m else -(k * m);
    if MIN_INT64 < Round(d, m) < MAX_INT64 {
      assert Round(d, m) == s * m;
    }
  }

  /** An exact half goes away from zero, and nothing is rounded to no unit. */
  lemma RoundHalfAway(k: nat, h: nat, n: Duration)
    requires h > 0 && k * (2 * h) + 2 * h <= MAX_INT64 && IsDuration(n) && n <= 0
    ensures var d := k * (2 * h) + h;
            && Round(d, 2 * h) == k * (2 * h) + 2 * h && Round(-d, 2 * h) == -(k * (2 * h) + 2 * h)
            && Round(d, n) == d
  {
    var m, d := 2 * h, k * (2 * h) + h;
    RemainderIs(k, m, h);
    assert d % m == h;
  }

  lemma RemainderIs(k: nat, m: nat, h: nat)
    requires h < m
    ensures (k * m + h) % m == h
  {
    var q, r := (k * m + h) / m, (k * m + h) % m;
    assert q * m + r == k * m + h;
    OneQuotient(q, r, k, h, m);
  }

  lemma OneQuotient(q: int, r: nat, k: int, h: nat, m: nat)
    requires q * m + r == k * m + h && r < m && h < m
    ensures q == k && r == h
  {
    if q > k { MoreIsMore(k, q, m); }
    if q < k { MoreIsMore(q, k, m); }
  }

  lemma MoreIsMore(a: int, b: int, m: nat)
    requires a < b
    ensures b * m >= a * m + m
  {
    assert (b - a - 1) * m >= 0;
  }
}
