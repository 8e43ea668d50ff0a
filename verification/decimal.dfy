/** Decimal text for integers as Go's `strconv.Atoi` reads it and as
    `fmt`'s `%d` / `%0Nd` verbs print it. */
module Decimal {
  import opened GoInt

  predicate IsDigit(c: char) {
    '0' <= c <= '9'
  }

  predicate AllDigits(s: string) {
    forall i | 0 <= i < |s| :: IsDigit(s[i])
  }

  function DigitVal(c: char): nat
    requires IsDigit(c)
  {
    (c as int) - ('0' as int)
  }

  function DigitChar(d: nat): (c: char)
    requires d < 10
    ensures IsDigit(c) && DigitVal(c) == d
  {
    (('0' as int) + d) as char
  }

  /** The number a string of decimal digits denotes, read most significant first. */
  function DigitsValue(s: string): nat
    requires AllDigits(s)
    decreases |s|
  {
    if |s| == 0 then 0 else DigitsValue(s[..|s| - 1]) * 10 + DigitVal(s[|s| - 1])
  }

  /** The shortest decimal spelling of `n`: "0" for zero, never a leading zero otherwise. */
  function NatToDigits(n: nat): (s: string)
    ensures |s| >= 1 && AllDigits(s)
    ensures DigitsValue(s) == n
    ensures |s| == 1 || s[0] != '0'
    decreases n
  {
    if n < 10 then [DigitChar(n)]
    else
      var p := NatToDigits(n / 10);
      var s := p + [DigitChar(n % 10)];
      assert s[..|s| - 1] == p;
      s
  }

  function Zeros(k: nat): (s: string)
    ensures |s| == k && AllDigits(s)
    ensures forall i | 0 <= i < k :: s[i] == '0'
  {
    if k == 0 then "" else "0" + Zeros(k - 1)
  }

  /** Leading zeros do not change the value of a digit string. */
  lemma {:induction false} LeadingZerosValue(k: nat, s: string)
    requires AllDigits(s)
    ensures AllDigits(Zeros(k) + s)
    ensures DigitsValue(Zeros(k) + s) == DigitsValue(s)
    decreases |s|
  {
    var z := Zeros(k) + s;
    assert AllDigits(z) by {
      forall i | 0 <= i < |z| ensures IsDigit(z[i]) {
        if i < k { assert z[i] == Zeros(k)[i]; } else { assert z[i] == s[i - k]; }
      }
    }
    if |s| == 0 {
      assert z == Zeros(k);
      ZerosValue(k);
    } else {
      var s' := s[..|s| - 1];
      assert z[..|z| - 1] == Zeros(k) + s';
      LeadingZerosValue(k, s');
    }
  }

  lemma {:induction false} ZerosValue(k: nat)
    ensures DigitsValue(Zeros(k)) == 0
  {
    if k > 0 {
      var z := Zeros(k);
      var p := z[..k - 1];
      assert p == Zeros(k - 1) by {
        assert forall i | 0 <= i < k - 1 :: p[i] == '0';
      }
      ZerosValue(k - 1);
    }
  }

  /** Go's `%d`. */
  function Itoa(n: int): (s: string)
    ensures n >= 0 ==> |s| >= 1 && AllDigits(s) && DigitsValue(s) == n && (|s| == 1 || s[0] != '0')
    ensures n < 0 ==> |s| >= 2 && s[0] == '-' && AllDigits(s[1..]) && DigitsValue(s[1..]) == -n && s[1] != '0'
  {
    if n < 0 then
      var d := NatToDigits(-n);
      assert d[0] != '0' by {
        if |d| == 1 { assert DigitsValue(d) == DigitsValue(d[..0]) * 10 + DigitVal(d[0]); }
      }
      assert ("-" + d)[1..] == d;
      "-" + d
    else NatToDigits(n)
  }

  /** Go's `%0<width>d`: zeros go between the sign and the digits, and the width counts the sign. */
  function FormatPadded(n: int, width: nat): (s: string)
    ensures n >= 0 ==> AllDigits(s) && DigitsValue(s) == n
    ensures |s| >= width
  {
    var d := NatToDigits(Abs(n));
    var sign := if n < 0 then "-" else "";
    var pad := if |sign| + |d| < width then width - |sign| - |d| else 0;
    var s := sign + Zeros(pad) + d;
    if n >= 0 then
      LeadingZerosValue(pad, d);
      assert s == Zeros(pad) + d;
      s
    else s
  }

  /** Outcome of `strconv.ParseUint`'s digit loop. */
  datatype UintScan = Value(n: nat) | SyntaxError | RangeError

  /** `strconv.ParseUint(s, 10, 64)`'s loop: a non-digit is a syntax error, and a
      value past 2^64-1 is a range error as soon as it is reached, even if a
      non-digit follows later. */
  function ScanUint(s: string, acc: nat): UintScan
    decreases |s|
  {
    if |s| == 0 then Value(acc)
    else if !IsDigit(s[0]) then SyntaxError
    else
      var n := acc * 10 + DigitVal(s[0]);
      if n > MaxUint64 then RangeError else ScanUint(s[1..], n)
  }

  /** The value `strconv.Atoi` returns on a 64-bit platform (the error is
      dropped, as every caller in the core drops it): 0 on a syntax error, the
      int64 bound on overflow, otherwise the signed value. */
  function Atoi(s: string): (r: int)
    ensures InInt64(r)
  {
    if |s| == 0 then 0
    else
      var neg := s[0] == '-';
      var body := if s[0] == '-' || s[0] == '+' then s[1..] else s;
      if |body| == 0 then 0
      else
        match ScanUint(body, 0)
        case SyntaxError => 0 as int
        case RangeError => if neg then MinInt64 else MaxInt64
        case Value(u) =>
          if neg then (if u > -MinInt64 then MinInt64 else -(u as int))
          else (if u > MaxInt64 then MaxInt64 else u)
  }

  /** Reading digits left to right from an accumulator agrees with `DigitsValue`. */
  lemma {:induction false} ScanUintDigits(pre: string, s: string)
    requires AllDigits(pre) && AllDigits(s)
    requires AllDigits(pre + s)
    requires DigitsValue(pre + s) <= MaxUint64
    ensures ScanUint(s, DigitsValue(pre)) == Value(DigitsValue(pre + s))
    decreases |s|
  {
    if |s| > 0 {
      var pre' := pre + [s[0]];
      assert pre'[..|pre'| - 1] == pre;
      assert pre' + s[1..] == pre + s;
      PrefixValueBound(pre', s[1..]);
      ScanUintDigits(pre', s[1..]);
    } else {
      assert pre + s == pre;
    }
  }

  /** A prefix of a digit string is worth no more than the whole string. */
  lemma {:induction false} PrefixValueBound(pre: string, s: string)
    requires AllDigits(pre) && AllDigits(s) && AllDigits(pre + s)
    ensures DigitsValue(pre) <= DigitsValue(pre + s)
    decreases |s|
  {
    if |s| > 0 {
      var t := pre + s;
      var s' := s[..|s| - 1];
      assert t[..|t| - 1] == pre + s';
      PrefixValueBound(pre, s');
    } else {
      assert pre + s == pre;
    }
  }

  /** `Atoi` reads back every digit string whose value fits in int64. */
  lemma DigitsAtoi(s: string)
    requires |s| >= 1 && AllDigits(s) && DigitsValue(s) <= MaxInt64
    ensures Atoi(s) == DigitsValue(s)
  {
    assert "" + s == s;
    ScanUintDigits("", s);
  }

  /** Round trip: `Atoi` inverts `%d` on the whole int64 range. */
  lemma AtoiItoa(n: int)
    requires InInt64(n)
    ensures Atoi(Itoa(n)) == n
  {
    if n < 0 {
      NegativeAtoi(NatToDigits(-n));
    } else {
      DigitsAtoi(NatToDigits(n));
    }
  }

  /** `Atoi` reads a minus sign and the digits of a value down to the int64 minimum. */
  lemma NegativeAtoi(d: string)
    requires |d| >= 1 && AllDigits(d) && DigitsValue(d) <= -MinInt64
    ensures Atoi("-" + d) == -(DigitsValue(d) as int)
  {
    assert "" + d == d;
    ScanUintDigits("", d);
    var s := "-" + d;
    assert s[1..] == d;
    SignedAtoi(s, DigitsValue(d));
  }

  lemma SignedAtoi(s: string, u: nat)
    requires |s| > 1 && s[0] == '-' && ScanUint(s[1..], 0) == Value(u) && u <= -MinInt64
    ensures Atoi(s) == -(u as int)
  {
  }
}
