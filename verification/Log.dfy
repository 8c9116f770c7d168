/** The log line of internal/log/log.go: a time field of fixed width, and one or several writes. */
module Log {
  import opened Decimal
  import opened GoTime

  const WIDTH: nat := 15
  const WRAP: Duration := 1_000_000 * HOUR

  // ------------------------------------------------------------ decimal fractions

  /** The last `width` digits of `n`. */
  function Padded(n: nat, width: nat): (s: string)
    ensures |s| == width
    ensures forall i :: 0 <= i < |s| ==> IsDigit(s[i])
  {
    if width == 0 then "" else Padded(n / 10, width - 1) + [DigitOf(n % 10)]
  }

  /** `n` without its last `width` digits. */
  function Whole(n: nat, width: nat): nat {
    if width == 0 then n else Whole(n / 10, width - 1)
  }

  /** `d / unit` to the nearest, an exact half up if `up`. */
  function Nearest(d: nat, unit: nat, up: bool): nat
    requires unit > 0
  {
    var half := 2 * (d % unit);
    d / unit + if half > unit || (half == unit && up) then 1 else 0
  }

  /**
   `d` in units of the last of `prec` decimal places of a second, to the nearest.
   Seconds are a binary fraction when they are printed, so which way an exact half goes
   is not fixed; nothing else is lost, a nanosecond being far above that error.
   */
  function Scaled(d: nat, prec: nat, up: bool): nat {
    if prec >= 9 then d * Pow10(prec - 9) else Nearest(d, Pow10(9 - prec), up)
  }

  /** AppendFloat(.., 'f', prec, ..) of `n` such units. */
  function Fixed(n: nat, prec: nat): string {
    Itoa(Whole(n, prec)) + if prec == 0 then "" else "." + Padded(n, prec)
  }

  // -------------------------------------------------------------------- the field

  /** The time that is shown: after a million hours the count starts again, once. */
  function Shown(since: nat): nat {
    if since >= WRAP then since - WRAP else since
  }

  function Field(zero: string, n: nat, unit: char): (s: string)
    ensures |s| == |zero| + |Itoa(n)| + 1
  {
    zero + Itoa(n) + [unit]
  }

  function HourField(d: nat): string {
    if d >= HOUR then Field("", d / HOUR, 'h') else ""
  }

  /** The minutes of the hour, in two digits behind hours. */
  function MinuteField(d: nat): string {
    var r := d % HOUR;
    if d >= MINUTE then Field(if d >= HOUR && r < 10 * MINUTE then "0" else "", r / MINUTE, 'm') else ""
  }

  function Front(d: nat): string {
    HourField(d) + MinuteField(d)
  }

  /** The places left for the fraction of a second. */
  function Precision(d: nat): int {
    WIDTH - |Front(d)| - 4 + if d < 10 * SECOND then 1 else 0
  }

  /** Behind other fields one-digit seconds get a zero. */
  function Zero(d: nat): (s: string)
    ensures s in {"", "0"}
  {
    if d >= MINUTE && d % MINUTE < 10 * SECOND then "0" else ""
  }

  /** The seconds, in units of the last place. */
  function Units(d: nat, up: bool): nat
    requires d <= MAX_INT64
  {
    FrontLength(d);
    Scaled(d % MINUTE, Precision(d), up)
  }

  function Text(since: nat, up: bool): string
    requires since <= MAX_INT64
  {
    var d := Shown(since);
    FrontLength(d);
    Front(d) + Zero(d) + Fixed(Units(d, up), Precision(d)) + "s"
  }

  // --------------------------------------------------------------------- lengths

  lemma ItoaOne(n: nat)
    ensures n < 10 ==> |Itoa(n)| == 1
    ensures 10 <= n < 100 ==> |Itoa(n)| == 2
  {
    if n < 10 { ItoaLength(n, 1); }
    else if n < 100 { ItoaLength(n, 2); }
  }

  /** How many digits the hours have. */
  function HourDigits(h: nat): (k: nat)
    requires 0 < h < 10_000_000
    ensures 1 <= k <= 7 && |Itoa(h)| == k
    ensures k == 7 <==> h >= 1_000_000
  {
    var k := if h < 10 then 1 else if h < 100 then 2 else if h < 1_000 then 3 else if h < 10_000 then 4
             else if h < 100_000 then 5 else if h < 1_000_000 then 6 else 7;
    Powers();
    ItoaLength(h, k);
    k
  }

  lemma Powers()
    ensures Pow10(0) == 1 && Pow10(1) == 10 && Pow10(2) == 100 && Pow10(3) == 1_000 && Pow10(4) == 10_000
    ensures Pow10(5) == 100_000 && Pow10(6) == 1_000_000 && Pow10(7) == 10_000_000 && Pow10(8) == 100_000_000
    ensures Pow10(9) == 1_000_000_000
  {
    assert Pow10(2) == 10 * Pow10(1) && Pow10(4) == 10 * Pow10(3) && Pow10(6) == 10 * Pow10(5);
    assert Pow10(8) == 10 * Pow10(7);
  }

  /** The two whole fields stay within what their digits can show. */
  lemma Fields(d: nat)
    requires d <= MAX_INT64
    ensures d >= HOUR ==> 0 < d / HOUR < 10_000_000 && (d / HOUR >= 1_000_000 <==> d >= WRAP)
    ensures d % HOUR / MINUTE < 60
    ensures d % HOUR < 10 * MINUTE <==> d % HOUR / MINUTE < 10
    ensures d < HOUR ==> d % HOUR == d
    ensures d < MINUTE ==> d % MINUTE == d
  {
  }

  /** One clock, whether the hours are split off first or not. */
  lemma SameClock(d: nat)
    ensures d / MINUTE == 60 * (d / HOUR) + d % HOUR / MINUTE
    ensures d % HOUR % MINUTE == d % MINUTE
    ensures d == d / MINUTE * MINUTE + d % MINUTE
    ensures d < HOUR ==> d % HOUR == d && d / HOUR == 0
    ensures d < MINUTE ==> d / MINUTE == 0
  {
    var h, m, r := d / HOUR, d % HOUR / MINUTE, d % HOUR % MINUTE;
    assert d == (60 * h + m) * MINUTE + r;
  }

  lemma FrontLength(d: nat)
    requires d <= MAX_INT64
    ensures d < MINUTE ==> |Front(d)| == 0
    ensures MINUTE <= d < HOUR ==> |Front(d)| == if d < 10 * MINUTE then 2 else 3
    ensures HOUR <= d < WRAP ==> 5 <= |Front(d)| <= 10
    ensures d >= WRAP ==> |Front(d)| == 11
    ensures 0 <= Precision(d) <= 12
    ensures Precision(d) == 0 <==> d >= WRAP
  {
    Fields(d);
    ItoaOne(d % HOUR / MINUTE);
    if d >= HOUR { var k := HourDigits(d / HOUR); }
  }

  // ------------------------------------------------------------------- rounding

  lemma Scales(a: nat, b: nat, k: nat)
    ensures a <= b ==> a * k <= b * k
    ensures a < b && k > 0 ==> a * k < b * k
  {
  }

  /** The quotient, known by its two bounds. */
  lemma Quotient(d: nat, unit: nat) returns (q: nat, r: nat)
    requires unit > 0
    ensures q == d / unit && r == d % unit
    ensures d == q * unit + r && r < unit
  {
    q, r := d / unit, d % unit;
  }

  /** To the nearest, and so never across a whole number of units. */
  lemma NearestBounds(d: nat, unit: nat, up: bool, k: nat)
    requires unit > 0
    ensures Abs(2 * (Nearest(d, unit, up) * unit - d)) <= unit
    ensures d >= k * unit ==> Nearest(d, unit, up) >= k
    ensures d <= k * unit ==> Nearest(d, unit, up) <= k
  {
    var q, r := Quotient(d, unit);
    assert (q + 1) * unit == q * unit + unit;
    Scales(q + 1, k, unit);
    Scales(k, q, unit);
    Scales(k + 1, q, unit);
    Scales(k, q + 1, unit);
    assert (k + 1) * unit == k * unit + unit;
  }

  function Abs(x: int): (r: nat)
    ensures r == x || r == -x
  {
    if x < 0 then -x else x
  }

  lemma {:induction false} PowersMultiply(a: nat, b: nat)
    ensures Pow10(a) * Pow10(b) == Pow10(a + b)
  {
    if a == 0 {
    } else {
      PowersMultiply(a - 1, b);
      assert Pow10(a) * Pow10(b) == 10 * (Pow10(a - 1) * Pow10(b));
    }
  }

  lemma ExactBounds(d: nat, k: nat, p: nat)
    requires p > 0
    ensures d >= k * SECOND ==> d * p >= k * (SECOND * p)
    ensures d <= k * SECOND ==> d * p <= k * (SECOND * p)
    ensures d < k * SECOND ==> d * p < k * (SECOND * p)
  {
    Regroup(k, SECOND, p);
    Scales(k * SECOND, d, p);
    Scales(d, k * SECOND, p);
  }

  lemma RoundedBounds(d: nat, k: nat, one: nat, unit: nat, up: bool)
    requires unit > 0 && one * unit == SECOND
    ensures d >= k * SECOND ==> Nearest(d, unit, up) >= k * one
    ensures d <= k * SECOND ==> Nearest(d, unit, up) <= k * one
  {
    Regroup(k, one, unit);
    NearestBounds(d, unit, up, k * one);
  }

  /** `k` seconds are `k` times the power of ten. */
  lemma ScaledBounds(d: nat, prec: nat, up: bool, k: nat)
    ensures d >= k * SECOND ==> Scaled(d, prec, up) >= k * Pow10(prec)
    ensures d <= k * SECOND ==> Scaled(d, prec, up) <= k * Pow10(prec)
    ensures prec >= 9 && d < k * SECOND ==> Scaled(d, prec, up) < k * Pow10(prec)
  {
    SecondIs(prec);
    if prec >= 9 { ExactBounds(d, k, Pow10(prec - 9)); }
    else { RoundedBounds(d, k, Pow10(prec), Pow10(9 - prec), up); }
  }

  lemma SecondIs(prec: nat)
    ensures prec >= 9 ==> Pow10(prec) == SECOND * Pow10(prec - 9)
    ensures prec < 9 ==> Pow10(prec) * Pow10(9 - prec) == SECOND
  {
    Powers();
    if prec >= 9 { PowersMultiply(9, prec - 9); } else { PowersMultiply(prec, 9 - prec); }
  }

  lemma Regroup(a: nat, b: nat, c: nat)
    ensures a * b * c == a * (b * c)
  {
  }

  lemma {:induction false} WholeBounds(n: nat, prec: nat)
    ensures Whole(n, prec) * Pow10(prec) <= n < (Whole(n, prec) + 1) * Pow10(prec)
  {
    if prec == 0 {
    } else {
      WholeBounds(n / 10, prec - 1);
      var w, p := Whole(n, prec), Pow10(prec - 1);
      Regroup(w, 10, p);
      Regroup(10, w, p);
      Regroup(w + 1, 10, p);
      Regroup(10, w + 1, p);
    }
  }

  lemma FixedLength(n: nat, prec: nat, k: nat)
    requires k == 1 || k == 2
    requires n < Pow10(k) * Pow10(prec) && (k == 2 ==> n >= 10 * Pow10(prec))
    ensures |Fixed(n, prec)| == k + if prec == 0 then 0 else 1 + prec
  {
    Powers();
    WholeBounds(n, prec);
    var w, p := Whole(n, prec), Pow10(prec);
    Scales(Pow10(k), w, p);
    Scales(w + 1, 10, p);
    ItoaOne(w);
  }

  // ------------------------------------------------------------------- the width

  /** The one way to a wrong width: a zero was put before seconds that round up to ten. */
  predicate Overflows(since: nat, up: bool)
    requires since <= MAX_INT64
  {
    var d := Shown(since);
    FrontLength(d);
    Zero(d) == "0" && Units(d, up) == 10 * Pow10(Precision(d))
  }

  lemma SecondsLength(d: nat, up: bool)
    requires d <= MAX_INT64
    ensures 0 <= Precision(d)
    ensures var s, prec := d % MINUTE, Precision(d);
            var n := Units(d, up);
            |Fixed(n, prec)| == (if s < 10 * SECOND && n < 10 * Pow10(prec) then 1 else 2)
                                + (if prec == 0 then 0 else 1 + prec)
            && n <= 60 * Pow10(prec)
            && (s >= 10 * SECOND ==> n >= 10 * Pow10(prec))
            && (s < 10 * SECOND && n >= 10 * Pow10(prec) ==> n == 10 * Pow10(prec) && prec < 9)
  {
    FrontLength(d);
    var s, prec := d % MINUTE, Precision(d);
    var n := Scaled(s, prec, up);
    Powers();
    ScaledBounds(s, prec, up, 10);
    ScaledBounds(s, prec, up, 60);
    Scales(60, 100, Pow10(prec));
    FixedLength(n, prec, if n < 10 * Pow10(prec) then 1 else 2);
  }

  /** The width, for every reading of the clock. */
  lemma TextLength(since: nat, up: bool)
    requires since <= MAX_INT64
    ensures |Text(since, up)| == (if Shown(since) >= WRAP then WIDTH - 1 else WIDTH)
                                 + (if Overflows(since, up) then 1 else 0)
  {
    var d := Shown(since);
    FrontLength(d);
    SecondsLength(d, up);
    var fixed := Fixed(Units(d, up), Precision(d));
    assert |Text(since, up)| == |Front(d)| + |Zero(d)| + |fixed| + 1;
    Fields(d);
  }

  /** Below two million hours the only exception is the zero; below ten minutes there is none. */
  lemma FifteenUnless(since: nat, up: bool)
    requires since < 2 * WRAP && since <= MAX_INT64
    ensures |Text(since, up)| == WIDTH <==> !Overflows(since, up)
    ensures Shown(since) < 10 * MINUTE ==> |Text(since, up)| == WIDTH
  {
    TextLength(since, up);
    var d := Shown(since);
    FrontLength(d);
    SecondsLength(d, up);
  }

  lemma NearestReaches(d: nat, unit: nat, up: bool, k: nat)
    requires unit > 0 && d < k * unit
    ensures Nearest(d, unit, up) == k
            <==> 2 * (k * unit - d) < unit || (2 * (k * unit - d) == unit && up)
  {
    var q, r := Quotient(d, unit);
    assert (q + 1) * unit == q * unit + unit;
    assert (q + 2) * unit == q * unit + 2 * unit;
    Scales(q + 2, k, unit);
    Scales(k, q, unit);
  }

  /** When that is: with an hour or a minute shown, and half a last digit or less before ten seconds. */
  lemma OverflowsWhen(since: nat, up: bool)
    requires since <= MAX_INT64
    ensures var d := Shown(since);
            var left := 10 * SECOND - d % MINUTE;
            Precision(d) >= 0
            && (Overflows(since, up)
                <==> d >= 10 * MINUTE && left > 0
                     && (2 * left < Pow10(9 - Precision(d)) || (2 * left == Pow10(9 - Precision(d)) && up)))
  {
    var d := Shown(since);
    FrontLength(d);
    SecondsLength(d, up);
    var s, prec := d % MINUTE, Precision(d);
    if prec < 9 && s < 10 * SECOND {
      var unit := Pow10(9 - prec);
      SecondIs(prec);
      Regroup(10, Pow10(prec), unit);
      NearestReaches(s, unit, up, 10 * Pow10(prec));
    }
  }

  /** One hour and a hair under ten seconds takes sixteen characters. */
  lemma SixteenOnce(up: bool)
    ensures |Text(HOUR + 9_999_999_600, up)| == 16
  {
    var d := HOUR + 9_999_999_600;
    assert d / HOUR == 1 && d % HOUR == 9_999_999_600 && d % HOUR / MINUTE == 0 && d % MINUTE == 9_999_999_600;
    assert Itoa(1) == "1" && Itoa(0) == "0";
    assert |Front(d)| == 5;
    Powers();
    OverflowsWhen(d, up);
    TextLength(d, up);
  }

  // ---------------------------------------------------------------- reading back

  /** What has been read of a time field: whole seconds, and a number with so many places behind the point. */
  datatype Reading = Reading(total: nat, num: nat, point: bool, places: nat)

  const NOTHING := Reading(0, 0, false, 0)

  function ReadChar(r: Reading, c: char): Reading {
    if IsDigit(c) then r.(num := r.num * 10 + DigitValue(c), places := if r.point then r.places + 1 else r.places)
    else if c == 'h' then r.(total := r.total + 3600 * r.num, num := 0)
    else if c == 'm' then r.(total := r.total + 60 * r.num, num := 0)
    else if c == '.' then r.(point := true)
    else r
  }

  function Read(r: Reading, s: string): Reading {
    if s == "" then r else ReadChar(Read(r, s[..|s| - 1]), s[|s| - 1])
  }

  lemma {:induction false} ReadBoth(r: Reading, a: string, b: string)
    ensures Read(r, a + b) == Read(Read(r, a), b)
  {
    if b == "" {
      assert a + b == a;
    } else {
      ReadBoth(r, a, b[..|b| - 1]);
      assert (a + b)[..|a + b| - 1] == a + b[..|b| - 1];
    }
  }

  lemma ReadOne(r: Reading, c: char)
    ensures Read(r, [c]) == ReadChar(r, c)
  {
    assert [c][..0] == "";
  }

  lemma {:induction false} ReadNumber(r: Reading, n: nat)
    requires r.num == 0 && !r.point
    ensures Read(r, Itoa(n)) == r.(num := n)
  {
    if n < 10 {
      ReadOne(r, DigitOf(n));
    } else {
      ReadNumber(r, n / 10);
      ReadBoth(r, Itoa(n / 10), [DigitOf(n % 10)]);
      ReadOne(r.(num := n / 10), DigitOf(n % 10));
    }
  }

  lemma {:induction false} ReadPlaces(r: Reading, n: nat, width: nat)
    requires r.num == Whole(n, width) && r.point
    ensures Read(r, Padded(n, width)) == r.(num := n, places := r.places + width)
  {
    if width == 0 {
    } else {
      ReadPlaces(r, n / 10, width - 1);
      var q := r.(num := n / 10, places := r.places + width - 1);
      ReadBoth(r, Padded(n / 10, width - 1), [DigitOf(n % 10)]);
      ReadOne(q, DigitOf(n % 10));
    }
  }

  lemma ReadFixed(r: Reading, n: nat, prec: nat)
    requires r.num == 0 && !r.point && r.places == 0
    ensures Read(r, Fixed(n, prec)) == r.(num := n, point := prec > 0, places := prec)
  {
    var w := Whole(n, prec);
    ReadNumber(r, w);
    if prec == 0 {
      assert Fixed(n, prec) == Itoa(w);
    } else {
      var q := r.(num := w, point := true);
      ReadBoth(r, Itoa(w), "." + Padded(n, prec));
      ReadBoth(r.(num := w), ".", Padded(n, prec));
      ReadOne(r.(num := w), '.');
      ReadPlaces(q, n, prec);
    }
  }

  /** A number, perhaps behind a zero, and its unit. */
  lemma ReadField(r: Reading, zero: string, n: nat, unit: char)
    requires r.num == 0 && !r.point && zero in {"", "0"}
    ensures Read(r, Field(zero, n, unit)) == ReadChar(r.(num := n), unit)
  {
    ReadBoth(r, zero + Itoa(n), [unit]);
    ReadBoth(r, zero, Itoa(n));
    ReadZero(r, zero);
    ReadNumber(r, n);
    ReadOne(r.(num := n), unit);
  }

  lemma ReadZero(r: Reading, zero: string)
    requires r.num == 0 && !r.point && zero in {"", "0"}
    ensures Read(r, zero) == r
  {
    if zero == "0" { ReadOne(r, '0'); }
  }

  lemma ReadHours(d: nat)
    ensures Read(NOTHING, HourField(d)) == NOTHING.(total := 3600 * (d / HOUR))
  {
    if d >= HOUR { ReadField(NOTHING, "", d / HOUR, 'h'); } else { SameClock(d); }
  }

  lemma ReadMinutes(r: Reading, d: nat)
    requires r.num == 0 && !r.point
    ensures Read(r, MinuteField(d)) == r.(total := r.total + 60 * (d % HOUR / MINUTE))
  {
    if d >= MINUTE {
      ReadField(r, if d >= HOUR && d % HOUR < 10 * MINUTE then "0" else "", d % HOUR / MINUTE, 'm');
    } else {
      SameClock(d);
    }
  }

  lemma ReadFront(d: nat)
    ensures Read(NOTHING, Front(d)) == NOTHING.(total := d / MINUTE * 60)
  {
    ReadHours(d);
    ReadMinutes(NOTHING.(total := 3600 * (d / HOUR)), d);
    ReadBoth(NOTHING, HourField(d), MinuteField(d));
    SameClock(d);
  }

  lemma ReadParts(front: string, total: nat, zero: string, n: nat, prec: nat)
    requires Read(NOTHING, front) == NOTHING.(total := total) && zero in {"", "0"}
    ensures Read(NOTHING, front + zero + Fixed(n, prec) + "s") == Reading(total, n, prec > 0, prec)
  {
    var r := NOTHING.(total := total);
    ReadBoth(NOTHING, front + zero + Fixed(n, prec), "s");
    ReadBoth(NOTHING, front + zero, Fixed(n, prec));
    ReadBoth(NOTHING, front, zero);
    ReadZero(r, zero);
    ReadFixed(r, n, prec);
    ReadOne(r.(num := n, point := prec > 0, places := prec), 's');
  }

  /** What the text reads back as. */
  lemma TextReads(since: nat, up: bool)
    requires since <= MAX_INT64
    ensures var d := Shown(since);
            Precision(d) >= 0
            && Read(NOTHING, Text(since, up))
               == Reading(d / MINUTE * 60, Units(d, up), Precision(d) > 0, Precision(d))
  {
    var d := Shown(since);
    FrontLength(d);
    ReadFront(d);
    ReadParts(Front(d), d / MINUTE * 60, Zero(d), Units(d, up), Precision(d));
  }

  /** How far a reading is from a time: nothing, with nine places and more, or half a unit. */
  predicate Within(r: Reading, d: nat) {
    if r.places >= 9 then r.num == (d - r.total * SECOND) * Pow10(r.places - 9)
    else
      var unit := Pow10(9 - r.places);
      Abs(2 * (r.total * SECOND + r.num * unit - d)) <= unit
  }

  /** The text reads back as the time shown, to half of its last digit; exactly below ten minutes. */
  lemma TextReadsBack(since: nat, up: bool)
    requires since <= MAX_INT64
    ensures Within(Read(NOTHING, Text(since, up)), Shown(since))
    ensures Shown(since) < 10 * MINUTE ==> Read(NOTHING, Text(since, up)).places >= 9
  {
    TextReads(since, up);
    var d := Shown(since);
    FrontLength(d);
    UnitsWithin(d / MINUTE * 60, d, Precision(d), up);
  }

  lemma UnitsWithin(total: nat, d: nat, prec: nat, up: bool)
    requires total == d / MINUTE * 60
    ensures Within(Reading(total, Scaled(d % MINUTE, prec, up), prec > 0, prec), d)
  {
    var s := d % MINUTE;
    SameClock(d);
    assert total * SECOND == d / MINUTE * MINUTE;
    assert d - total * SECOND == s;
    if prec < 9 { NearestBounds(s, Pow10(9 - prec), up, 0); }
  }

  // -------------------------------------------------------------------- the method

  method AppendField(buf: string, zero: string, n: nat, unit: char) returns (r: string)
    ensures r == buf + Field(zero, n, unit)
  {
    r := buf + zero;
    r := r + Itoa(n);
    r := r + [unit];
    assert r == buf + (zero + Itoa(n) + [unit]);
  }

  /** uptime: the fields are appended while `d` shrinks. */
  method Uptime(since: nat, up: bool) returns (buf: string)
    requires since <= MAX_INT64
    ensures buf == Text(since, up)
  {
    var d := since;
    if d >= WRAP { d := d - WRAP; }
    ghost var shown := d;
    FrontLength(shown);
    SameClock(shown);
    buf := "";
    if d >= HOUR {
      buf := AppendField("", "", d / HOUR, 'h');
      d := d % HOUR;
    }
    assert buf == HourField(shown) && d == shown % HOUR;
    if buf != "" || d >= MINUTE {
      buf := AppendField(buf, if buf != "" && d < 10 * MINUTE then "0" else "", d / MINUTE, 'm');
      d := d % MINUTE;
    }
    assert buf == Front(shown) && d == shown % MINUTE;
    var prec := WIDTH - |buf| - 4;
    if d < 10 * SECOND {
      if buf != "" { buf := buf + "0"; } else { prec := prec + 1; }
    }
    assert prec == Precision(shown) && buf == Front(shown) + Zero(shown);
    buf := buf + Fixed(Scaled(d, prec, up), prec) + "s";
  }

  /** The hours start again once, after a million of them. */
  lemma ShownIs(since: nat)
    ensures since < 1_000_000 * (3_600 * SECOND) ==> Shown(since) == since
    ensures since >= 1_000_000 * (3_600 * SECOND) ==> Shown(since) == since - 1_000_000 * (3_600 * SECOND)
  {
  }

  /** For one: an hour, two minutes and three seconds. */
  lemma OneText(up: bool)
    ensures Text(HOUR + 2 * MINUTE + 3 * SECOND, up) == "1h02m03.000000s"
  {
    var d := HOUR + 2 * MINUTE + 3 * SECOND;
    assert d / HOUR == 1 && d % HOUR == 2 * MINUTE + 3 * SECOND && d % HOUR / MINUTE == 2 && d % MINUTE == 3 * SECOND;
    assert Itoa(1) == "1" && Itoa(2) == "2" && Itoa(3) == "3";
    assert Front(d) == "1h02m" by { assert HourField(d) == "1h" && MinuteField(d) == "02m"; }
    ThreeSeconds(up);
    assert Text(d, up) == "1h02m" + "0" + "3.000000" + "s";
  }

  lemma ThreeSeconds(up: bool)
    ensures Fixed(Scaled(3 * SECOND, 6, up), 6) == "3.000000"
  {
    Powers();
    assert Scaled(3 * SECOND, 6, up) == 3_000_000;
    assert Whole(3_000_000, 6) == Whole(300_000, 5) == Whole(30_000, 4) == Whole(3_000, 3) == Whole(300, 2) == Whole(30, 1) == Whole(3, 0);
    assert Padded(300, 2) == "00" && Padded(3_000, 3) == "000" && Padded(30_000, 4) == "0000";
    assert Padded(300_000, 5) == "00000" && Padded(3_000_000, 6) == "000000";
    assert Itoa(3) == "3";
  }
}
