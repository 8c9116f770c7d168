/** Decimal text: Go's strconv.ParseInt(s, 10, 64) with its error dropped, and strconv.AppendInt. */
module Decimal {
  import opened Wrappers

  const MAX_INT64: int := 0x7FFF_FFFF_FFFF_FFFF
  const MIN_INT64: int := -0x8000_0000_0000_0000
  const MAX_UINT64: int := 0xFFFF_FFFF_FFFF_FFFF

  predicate IsDigit(c: char) {
    '0' <= c <= '9'
  }

  function DigitValue(c: char): (d: nat)
    requires IsDigit(c)
    ensures d < 10
  {
    c as int - '0' as int
  }

  function DigitOf(d: nat): (c: char)
    requires d < 10
    ensures IsDigit(c) && DigitValue(c) == d
  {
    ('0' as int + d) as char
  }

  /**
   The digit loop of ParseUint from an accumulated value: None for a syntax error.
   Overflow stops the loop at once, so what follows the overflowing digit is not read.
   */
  function ParseDigits(s: string, acc: nat): (r: Option<nat>)
    requires acc <= MAX_UINT64
    ensures r.Some? ==> acc <= r.value <= MAX_UINT64
  {
    if s == "" then Some(acc)
    else if !IsDigit(s[0]) then None
    else
      var next := acc * 10 + DigitValue(s[0]);
      if next > MAX_UINT64 then Some(MAX_UINT64) else ParseDigits(s[1..], next)
  }

  /** The value ParseInt returns, whatever error it returns beside it. */
  function ParseInt(s: string): (n: int)
    ensures MIN_INT64 <= n <= MAX_INT64
  {
    if s == "" then 0
    else
      var neg := s[0] == '-';
      var digits := if s[0] == '-' || s[0] == '+' then s[1..] else s;
      if digits == "" then 0
      else
        match ParseDigits(digits, 0)
        case None => 0
        case Some(u) =>
          var un: int := u;
          if neg then (if un > -MIN_INT64 then MIN_INT64 else -un)
          else (if un > MAX_INT64 then MAX_INT64 else un)
  }

  function Itoa(n: nat): (s: string)
    ensures |s| > 0
    ensures forall i :: 0 <= i < |s| ==> IsDigit(s[i])
  {
    if n < 10 then [DigitOf(n)] else Itoa(n / 10) + [DigitOf(n % 10)]
  }

  /** The number that `s` spells behind `acc`. */
  function Spelled(acc: nat, s: string): (n: nat)
    requires forall i :: 0 <= i < |s| ==> IsDigit(s[i])
    ensures acc <= n
  {
    if s == "" then acc
    else Spelled(acc, s[..|s| - 1]) * 10 + DigitValue(s[|s| - 1])
  }

  lemma {:induction false} SpelledFront(acc: nat, s: string)
    requires s != "" && forall i :: 0 <= i < |s| ==> IsDigit(s[i])
    ensures Spelled(acc, s) == Spelled(acc * 10 + DigitValue(s[0]), s[1..])
  {
    var init := s[..|s| - 1];
    if |s| == 1 {
    } else {
      SpelledFront(acc, init);
      assert s[1..][..|s| - 2] == init[1..];
    }
  }

  lemma {:induction false} ParseDigitsSpelled(s: string, acc: nat)
    requires acc <= MAX_UINT64 && forall i :: 0 <= i < |s| ==> IsDigit(s[i])
    ensures ParseDigits(s, acc) == Some(if Spelled(acc, s) > MAX_UINT64 then MAX_UINT64 else Spelled(acc, s))
  {
    if s == "" {
    } else {
      SpelledFront(acc, s);
      var next := acc * 10 + DigitValue(s[0]);
      if next <= MAX_UINT64 { ParseDigitsSpelled(s[1..], next); }
    }
  }

  lemma {:induction false} SpelledItoa(n: nat)
    ensures Spelled(0, Itoa(n)) == n
  {
    var s := Itoa(n);
    if n >= 10 {
      SpelledItoa(n / 10);
      assert s[..|s| - 1] == Itoa(n / 10);
    } else {
      assert s[..0] == "";
    }
  }

  /** Parsing inverts printing up to the largest int64, where it stays from there on. */
  lemma ParseIntItoa(n: nat)
    ensures ParseInt(Itoa(n)) == if n <= MAX_INT64 then n else MAX_INT64
    ensures ParseInt("-" + Itoa(n)) == if n <= -MIN_INT64 then 0 - n else MIN_INT64
  {
    var s := Itoa(n);
    SpelledItoa(n);
    ParseDigitsSpelled(s, 0);
    assert ("-" + s)[1..] == s;
  }

  /** AppendInt writes as many digits as the powers of ten say. */
  lemma {:induction false} ItoaLength(n: nat, width: nat)
    requires width > 0
    requires (if width == 1 then 0 else Pow10(width - 1)) <= n < Pow10(width)
    ensures |Itoa(n)| == width
  {
    if n >= 10 {
      if width > 2 { assert Pow10(width - 1) == 10 * Pow10(width - 2); }
      ItoaLength(n / 10, width - 1);
    } else {
      Pow10AtLeastTen(if width > 1 then width - 1 else 1);
    }
  }

  function Pow10(k: nat): (p: nat)
    ensures p > 0
  {
    if k == 0 then 1 else 10 * Pow10(k - 1)
  }

  lemma {:induction false} Pow10AtLeastTen(k: nat)
    requires k > 0
    ensures Pow10(k) >= 10
  {
    if k == 1 {
    } else {
      Pow10AtLeastTen(k - 1);
    }
  }

  predicate AllDigits(s: string) {
    forall i :: 0 <= i < |s| ==> IsDigit(s[i])
  }

  /** Digits are the number they spell, with or without a plus, negative behind a minus, and saturate at both ends. */
  lemma ParseIntDigits(s: string)
    requires s != "" && AllDigits(s)
    ensures var n: int := Spelled(0, s);
            && ParseInt(s) == (if n > MAX_INT64 then MAX_INT64 else n)
            && ParseInt("+" + s) == ParseInt(s)
            && ParseInt("-" + s) == (if n > -MIN_INT64 then MIN_INT64 else -n)
  {
    ParseDigitsSpelled(s, 0);
    assert ("+" + s)[1..] == s;
    assert ("-" + s)[1..] == s;
  }

  lemma {:induction false} ParseDigitsStops(p: string, c: char, rest: string, acc: nat)
    requires AllDigits(p) && !IsDigit(c) && Spelled(acc, p) <= MAX_UINT64 && acc <= MAX_UINT64
    ensures ParseDigits(p + [c] + rest, acc) == None
    decreases |p|
  {
    var s := p + [c] + rest;
    if p == "" {
      assert s[0] == c;
    } else {
      SpelledFront(acc, p);
      assert s[0] == p[0] && s[1..] == p[1..] + [c] + rest;
      ParseDigitsStops(p[1..], c, rest, acc * 10 + DigitValue(p[0]));
    }
  }

  /** A foreign character makes it 0, as does no digit at all, unless the number was too large before it. */
  lemma ParseIntGarbage(p: string, c: char, rest: string)
    requires AllDigits(p) && !IsDigit(c) && Spelled(0, p) <= MAX_UINT64 && (p == "" ==> c != '+' && c != '-')
    ensures ParseInt(p + [c] + rest) == 0 && ParseInt("-" + (p + [c] + rest)) == 0 && ParseInt("+" + (p + [c] + rest)) == 0
    ensures ParseInt("") == 0 && ParseInt("+") == 0 && ParseInt("-") == 0
  {
    var s := p + [c] + rest;
    ParseDigitsStops(p, c, rest, 0);
    assert ("+" + s)[1..] == s;
    assert ("-" + s)[1..] == s;
    if p != "" { assert s[0] == p[0]; } else { assert s[0] == c; }
  }

  /** The digits are the usual ones. */
  lemma UsualDigits(d: nat)
    requires d < 10
    ensures Itoa(d) == ["0123456789"[d]]
  {
    var digits := "0123456789";
    assert digits[0] == '0' && digits[1] == '1' && digits[2] == '2' && digits[3] == '3' && digits[4] == '4';
    assert digits[5] == '5' && digits[6] == '6' && digits[7] == '7' && digits[8] == '8' && digits[9] == '9';
  }
}
