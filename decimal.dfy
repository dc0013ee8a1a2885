/**
 * Decimal rendering of integers: `std::to_string(int)` for the line number, and the
 * zero-padded fields that `std::format` writes for calendar values. Each rendering has a
 * parser beside it, and the lemmas prove that parsing gives back the rendered number.
 */
module Decimal {
  import opened Wrappers

  /** The C++ `int` that carries the line number: 32-bit two's complement. */
  newtype Int32 = x: int | -0x8000_0000 <= x < 0x8000_0000

  predicate IsDigit(c: char) {
    '0' <= c <= '9'
  }

  predicate AllDigits(s: string) {
    forall i :: 0 <= i < |s| ==> IsDigit(s[i])
  }

  function DigitChar(d: nat): (c: char)
    requires d < 10
    ensures IsDigit(c)
  {
    ('0' as int + d) as char
  }

  function DigitValue(c: char): (d: nat)
    requires IsDigit(c)
    ensures d < 10
    ensures DigitChar(d) == c
  {
    c as int - '0' as int
  }

  function Pow10(k: nat): (p: nat)
    ensures p >= 1
  {
    if k == 0 then 1 else 10 * Pow10(k - 1)
  }

  /** The shortest decimal rendering of `n`: at least one digit, no leading zero. */
  function NatDigits(n: nat): (s: string)
    ensures |s| >= 1 && AllDigits(s)
    ensures s[0] == '0' ==> n == 0
    ensures n < 10 <==> |s| == 1
    decreases n
  {
    if n < 10 then [DigitChar(n)] else NatDigits(n / 10) + [DigitChar(n % 10)]
  }

  /** The value of a string of digits, most significant first; the empty string is 0. */
  function ParseDigits(s: string): nat
    requires AllDigits(s)
  {
    if s == [] then 0 else ParseDigits(s[..|s| - 1]) * 10 + DigitValue(s[|s| - 1])
  }

  /** A non-empty all-digit field, read as a number; anything else is rejected. */
  function ParseField(s: string): (r: Option<nat>)
    ensures r.Some? <==> s != [] && AllDigits(s)
  {
    if s != [] && AllDigits(s) then Some(ParseDigits(s)) else None
  }

  /** `std::to_string(int)`: a '-' only for negative values, then the digits of the magnitude. */
  function IntToString(i: Int32): (s: string)
    ensures |s| >= 1
    ensures s[0] == '-' <==> i < 0
    ensures i < 0 ==> |s| >= 2 && AllDigits(s[1..])
    ensures i >= 0 ==> AllDigits(s)
  {
    if i < 0 then "-" + NatDigits(-(i as int)) else NatDigits(i as int)
  }

  /** Reads an optionally negative decimal integer, rejecting empty or non-digit text. */
  function ParseInt(s: string): Option<int> {
    if |s| >= 2 && s[0] == '-' && AllDigits(s[1..]) then Some(0 - ParseDigits(s[1..]) as int)
    else if s != [] && AllDigits(s) then Some(ParseDigits(s))
    else None
  }

  /** A run of `k` '0' characters. */
  function Zeros(k: nat): (s: string)
    ensures |s| == k && AllDigits(s)
    ensures forall i :: 0 <= i < k ==> s[i] == '0'
  {
    seq(k, _ => '0')
  }

  /** `n` left-padded with '0' to at least `width` characters, as `%Y`, `%m` and `%S` do. */
  function PadDigits(n: nat, width: nat): (s: string)
    ensures |s| >= width && |s| >= 1 && AllDigits(s)
  {
    var d := NatDigits(n);
    if |d| < width then Zeros(width - |d|) + d else d
  }

  /** Parsing the rendering of a natural number gives back that number. */
  lemma {:induction false} ParseNatDigits(n: nat)
    ensures ParseDigits(NatDigits(n)) == n
    decreases n
  {
    if n >= 10 {
      var s := NatDigits(n);
      assert s[..|s| - 1] == NatDigits(n / 10);
      ParseNatDigits(n / 10);
    }
  }

  /** `std::to_string` is inverted by ParseInt, so distinct line numbers render differently. */
  lemma IntToStringRoundTrip(i: Int32)
    ensures ParseInt(IntToString(i)) == Some(i as int)
  {
    var s := IntToString(i);
    if i < 0 {
      var d := NatDigits(-(i as int));
      assert s == "-" + d && s[1..] == d;
      ParseNatDigits(-(i as int));
      assert ParseInt(s) == Some(0 - ParseDigits(d) as int);
    } else {
      var d := NatDigits(i as int);
      assert IsDigit(d[0]) && s == d;
      ParseNatDigits(i as int);
      assert ParseInt(s) == Some(ParseDigits(d) as int);
    }
  }

  lemma {:induction false} ParseZeros(k: nat)
    ensures ParseDigits(Zeros(k)) == 0
  {
    if k > 0 {
      assert Zeros(k)[..k - 1] == Zeros(k - 1);
      ParseZeros(k - 1);
    }
  }

  /** Leading zeros do not change the value of a digit string. */
  lemma {:induction false} ParseLeadingZeros(k: nat, s: string)
    requires AllDigits(s)
    ensures ParseDigits(Zeros(k) + s) == ParseDigits(s)
    decreases |s|
  {
    if s == [] {
      assert Zeros(k) + s == Zeros(k);
      ParseZeros(k);
    } else {
      var t := Zeros(k) + s;
      assert t[..|t| - 1] == Zeros(k) + s[..|s| - 1];
      ParseLeadingZeros(k, s[..|s| - 1]);
    }
  }

  /** A number below 10^k needs at most k digits. */
  lemma {:induction false} NatDigitsLength(n: nat, k: nat)
    requires 1 <= k && n < Pow10(k)
    ensures |NatDigits(n)| <= k
    decreases k
  {
    if n >= 10 {
      assert k >= 2;
      assert n / 10 < Pow10(k - 1);
      NatDigitsLength(n / 10, k - 1);
    }
  }

  /** A padded field parses back to its number and, when the number fits, is exactly `width` long. */
  lemma PadDigitsRoundTrip(n: nat, width: nat)
    ensures |PadDigits(n, width)| >= width
    ensures 1 <= width && n < Pow10(width) ==> |PadDigits(n, width)| == width
    ensures PadDigits(n, width) != []
    ensures ParseField(PadDigits(n, width)) == Some(n)
  {
    var d := NatDigits(n);
    ParseNatDigits(n);
    if |d| < width {
      ParseLeadingZeros(width - |d|, d);
    }
    if 1 <= width && n < Pow10(width) {
      NatDigitsLength(n, width);
    }
  }
}
