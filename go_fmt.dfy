/**
 * The part of Go's fmt package that the interceptor's log headers rely on:
 * integers printed with the verbs %d and %x, optionally zero-padded to a
 * width (%03d, %04x). As in fmt's integer formatter, a negative number is
 * printed as '-' followed by the digits of its magnitude, and the sign
 * takes one column of the width, so that %04x of -1 is "-001".
 *
 * A parser for the same text is given as the partner of the formatter:
 * every formatted integer reads back as itself.
 */
module GoFmt {
  import opened Wrappers

  /** A radix fmt can print in: 10 for %d, 16 for %x. */
  type Base = b: int | 2 <= b <= 16 witness 10

  /** The digit for d, lower-case as %x prints it. */
  function DigitChar(d: nat): (c: char)
    requires d < 16
  {
    if d < 10 then ('0' as int + d) as char else ('a' as int + d - 10) as char
  }

  /** The value of a digit character, if it is one. */
  function DigitValue(c: char): (v: Option<nat>)
    ensures v.Some? ==> v.value < 16 && DigitChar(v.value) == c
  {
    if '0' <= c <= '9' then Some(c as int - '0' as int)
    else if 'a' <= c <= 'f' then Some(c as int - 'a' as int + 10)
    else None
  }

  /** c is a digit of the given base. */
  predicate IsDigit(c: char, base: Base) {
    DigitValue(c).Some? && DigitValue(c).value < base
  }

  lemma DigitRoundTrip(d: nat)
    requires d < 16
    ensures DigitValue(DigitChar(d)) == Some(d)
  {
  }

  /** Euclidean division of a natural number by a base, in the form the digit proofs use. */
  lemma DivideByBase(n: nat, base: Base)
    ensures n == base * (n / base) + n % base
    ensures 0 <= n % base < base
    ensures n >= base ==> 1 <= n / base < n
    ensures n < base ==> n / base == 0 && n % base == n
  {
  }

  /** The shortest digit string of n: "0" for zero, no leading zeros otherwise. */
  function Digits(n: nat, base: Base): (s: string)
    ensures |s| >= 1
    ensures forall i :: 0 <= i < |s| ==> IsDigit(s[i], base)
    ensures n > 0 ==> s[0] != '0'
    decreases n
  {
    DivideByBase(n, base);
    DigitRoundTrip(n % base);
    if n < base then [DigitChar(n)] else Digits(n / base, base) + [DigitChar(n % base)]
  }

  function Zeros(k: nat): (s: string)
    ensures |s| == k && forall i :: 0 <= i < k ==> s[i] == '0'
  {
    seq(k, _ => '0')
  }

  /** Zero padding on the left up to a width, as fmt pads a number under the 0 flag. */
  function PadLeft(s: string, width: int): (r: string)
    ensures |r| == if |s| >= width then |s| else width
    ensures r[|r| - |s|..] == s
    ensures forall i :: 0 <= i < |r| - |s| ==> r[i] == '0'
  {
    if |s| >= width then s else Zeros(width - |s|) + s
  }

  /**
   * fmt's rendering of an integer under %0<width>d (base 10) or %0<width>x
   * (base 16); width 0 is plain %d / %x.
   */
  function FormatInt(x: int, base: Base, width: nat): (s: string)
  {
    if x < 0 then "-" + PadLeft(Digits(-x, base), width - 1)
    else PadLeft(Digits(x, base), width)
  }

  /** The text of a non-negative number read as digits of the base, most significant first. */
  function ParseDigits(s: string, base: Base): (r: Option<nat>)
    ensures r.Some? ==> s != [] && forall i :: 0 <= i < |s| ==> IsDigit(s[i], base)
    decreases |s|
  {
    if s == [] || !IsDigit(s[|s| - 1], base) then None
    else if |s| == 1 then Some(DigitValue(s[0]).value)
    else match ParseDigits(s[..|s| - 1], base)
      case None => None
      case Some(p) =>
        ProductIsNat(p, base);
        Some(p * base + DigitValue(s[|s| - 1]).value)
  }

  lemma ProductIsNat(p: nat, base: Base)
    ensures p * base >= 0
  {
  }

  /** An optionally '-'-signed digit string, read back as an integer. */
  function ParseInt(s: string, base: Base): (r: Option<int>)
  {
    if |s| > 0 && s[0] == '-' then
      match ParseDigits(s[1..], base)
      case None => None
      case Some(n) => Some(-(n as int))
    else ParseDigits(s, base)
  }

  /** Appending one digit multiplies the value by the base and adds the digit. */
  lemma ParseAppendDigit(t: string, c: char, base: Base)
    requires ParseDigits(t, base).Some? && IsDigit(c, base)
    ensures ParseDigits(t + [c], base) == Some(ParseDigits(t, base).value * base + DigitValue(c).value)
  {
    var s := t + [c];
    assert s[..|s| - 1] == t;
  }

  lemma {:induction false} ParseDigitsOfDigits(n: nat, base: Base)
    ensures ParseDigits(Digits(n, base), base) == Some(n)
    decreases n
  {
    if n >= base {
      var q, d := n / base, n % base;
      assert n == q * base + d && d < base && q < n by {
        DivideByBase(n, base);
      }
      DigitsStep(n, base);
      DigitRoundTrip(d);
      ParseDigitsOfDigits(q, base);
      ParseAppendDigit(Digits(q, base), DigitChar(d), base);
    } else {
      assert Digits(n, base) == [DigitChar(n)];
      DigitRoundTrip(n);
    }
  }

  lemma {:induction false} ParseZeros(k: nat, base: Base)
    requires k > 0
    ensures ParseDigits(Zeros(k), base) == Some(0)
    decreases k
  {
    if k > 1 {
      ParseZeros(k - 1, base);
      assert Zeros(k)[..k - 1] == Zeros(k - 1);
    }
  }

  /** Leading zeros do not change the value of a digit string. */
  lemma {:induction false} ParseLeadingZeros(k: nat, s: string, base: Base)
    requires ParseDigits(s, base).Some?
    ensures ParseDigits(Zeros(k) + s, base) == ParseDigits(s, base)
    decreases |s|
  {
    var t := Zeros(k) + s;
    if k > 0 {
      assert t[|t| - 1] == s[|s| - 1];
      if |s| == 1 {
        assert t[..|t| - 1] == Zeros(k);
        ParseZeros(k, base);
      } else {
        assert t[..|t| - 1] == Zeros(k) + s[..|s| - 1];
        ParseLeadingZeros(k, s[..|s| - 1], base);
      }
    } else {
      assert t == s;
    }
  }

  /** Zero padding does not change the value of a digit string. */
  lemma ParsePadded(d: string, width: int, base: Base)
    requires ParseDigits(d, base).Some?
    ensures ParseDigits(PadLeft(d, width), base) == ParseDigits(d, base)
  {
    if |d| < width {
      ParseLeadingZeros(width - |d|, d, base);
    }
  }

  /** A minus sign in front of a digit string negates its value. */
  lemma ParseNegative(p: string, base: Base)
    requires ParseDigits(p, base).Some?
    ensures ParseInt("-" + p, base) == Some(-(ParseDigits(p, base).value as int))
  {
    assert ("-" + p)[1..] == p;
  }

  /** A digit string without a sign reads as its value. */
  lemma ParseUnsigned(p: string, base: Base)
    requires ParseDigits(p, base).Some?
    ensures ParseInt(p, base) == ParseDigits(p, base)
  {
    assert IsDigit(p[0], base);
  }

  /** Round trip: whatever fmt prints for an integer reads back as that integer. */
  lemma FormatIntRoundTrip(x: int, base: Base, width: nat)
    ensures ParseInt(FormatInt(x, base, width), base) == Some(x)
  {
    var n: nat := if x < 0 then -x else x;
    var p := PadLeft(Digits(n, base), if x < 0 then width - 1 else width);
    ParseDigitsOfDigits(n, base);
    ParsePadded(Digits(n, base), if x < 0 then width - 1 else width, base);
    assert ParseDigits(p, base) == Some(n);
    if x < 0 {
      ParseNegative(p, base);
      assert FormatInt(x, base, width) == "-" + p;
    } else {
      ParseUnsigned(p, base);
      assert FormatInt(x, base, width) == p;
    }
  }

  /** 10^k (or base^k): the numbers below it have at most k digits. */
  function Pow(base: Base, k: nat): (r: nat)
    ensures r >= 1
  {
    if k == 0 then 1 else base * Pow(base, k - 1)
  }

  lemma {:induction false} DigitsLength(n: nat, base: Base, k: nat)
    requires k >= 1 && n < Pow(base, k)
    ensures |Digits(n, base)| <= k
    decreases k
  {
    if n >= base {
      var p := Pow(base, k - 1);
      assert n < base * p;
      QuotientBelow(n, base, p);
      DivideByBase(n, base);
      assert k - 1 >= 1;
      DigitsStep(n, base);
      DigitsLength(n / base, base, k - 1);
    }
  }

  lemma QuotientBelow(n: nat, base: Base, p: nat)
    requires n < base * p
    ensures n / base < p
  {
    DivideByBase(n, base);
    if n / base >= p {
      MulMonotone(base, p, n / base);
    }
  }

  lemma MulMonotone(b: nat, x: int, y: int)
    requires x <= y
    ensures b * x <= b * y
  {
    assert b * y - b * x == b * (y - x);
  }

  /** Past one digit, the digit string is the digits of the quotient followed by the last digit. */
  lemma DigitsStep(n: nat, base: Base)
    requires n >= base
    ensures Digits(n, base) == Digits(n / base, base) + [DigitChar(n % base)]
  {
    DivideByBase(n, base);
  }

  lemma QuotientAtLeast(n: nat, base: Base, p: nat)
    requires base * p <= n
    ensures n / base >= p
  {
    DivideByBase(n, base);
    if n / base < p {
      MulMonotone(base, n / base + 1, p);
    }
  }

  lemma {:induction false} DigitsLengthAtLeast(n: nat, base: Base, k: nat)
    requires k >= 1 && Pow(base, k - 1) <= n
    ensures |Digits(n, base)| >= k
    decreases k
  {
    if k > 1 {
      var p := Pow(base, k - 2);
      assert base * p <= n;
      MulMonotone(base, 1, p);
      QuotientAtLeast(n, base, p);
      DigitsStep(n, base);
      DigitsLengthAtLeast(n / base, base, k - 1);
    }
  }

  /** The rendered width: at least the requested width, and exactly it when the digits fit. */
  lemma FormatIntWidth(x: int, base: Base, width: nat, k: nat)
    requires k >= 1 && -(Pow(base, k) as int) < x < Pow(base, k)
    requires (if x < 0 then k + 1 else k) <= width
    ensures |FormatInt(x, base, width)| == width
  {
    DigitsLength(if x < 0 then -x else x, base, k);
  }

  /** Everything fmt prints for an integer is a digit of the base or the minus sign. */
  lemma FormatIntChars(x: int, base: Base, width: nat)
    ensures forall i :: 0 <= i < |FormatInt(x, base, width)| ==>
      FormatInt(x, base, width)[i] == '-' || IsDigit(FormatInt(x, base, width)[i], base)
  {
    var d := Digits(if x < 0 then -x else x, base);
    var p := PadLeft(d, if x < 0 then width - 1 else width);
    forall i | 0 <= i < |p| ensures IsDigit(p[i], base) {
      if i >= |p| - |d| {
        assert p[i] == p[|p| - |d|..][i - (|p| - |d|)];
      }
    }
  }
}
