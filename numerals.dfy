/**
 * `strconv.FormatInt` in bases 10 and 16, `fmt`'s `%d`, and the `%04s`
 * zero padding, with the parsers that invert them.
 */
module Numerals {
  import opened GoStrings

  const DigitChars := "0123456789abcdef"

  function Pow(b: nat, k: nat): (r: nat)
    ensures b >= 2 ==> r >= 1
  {
    if k == 0 then 1 else b * Pow(b, k - 1)
  }

  /** The value of one digit: `0`-`9`, then lower-case `a`-`f`. */
  function DigitValue(c: char): nat {
    if '0' <= c <= '9' then c as int - '0' as int
    else if 'a' <= c <= 'f' then c as int - 'a' as int + 10
    else 0
  }

  predicate IsDigit(c: char, base: nat) {
    ('0' <= c <= '9' && (c as int - '0' as int) < base) ||
    ('a' <= c <= 'f' && (c as int - 'a' as int + 10) < base)
  }

  predicate AllDigits(s: string, base: nat) {
    forall i :: 0 <= i < |s| ==> IsDigit(s[i], base)
  }

  /** strconv.FormatInt(n, base) for n >= 0: most significant digit first, no leading zero. */
  function FormatUint(n: nat, base: nat): (r: string)
    requires base == 10 || base == 16
    ensures |r| >= 1 && AllDigits(r, base)
    ensures |r| > 1 ==> r[0] != '0'
    decreases n
  {
    if n < base then [DigitChars[n]]
    else
      assert n % base < base && n / base < n;
      FormatUint(n / base, base) + [DigitChars[n % base]]
  }

  /** Reads a string of digits back as a number (digits outside the base count as 0). */
  function ParseUint(s: string, base: nat): nat {
    if s == [] then 0 else ParseUint(s[..|s| - 1], base) * base + DigitValue(s[|s| - 1])
  }

  /** strconv.FormatInt(n, base), with a leading `-` for negative numbers. */
  function FormatInt(n: int, base: nat): (r: string)
    requires base == 10 || base == 16
    ensures |r| >= 1
    ensures r[0] == '-' <==> n < 0
    ensures AllDigits(if n < 0 then r[1..] else r, base)
  {
    if n < 0 then "-" + FormatUint(-n, base) else FormatUint(n, base)
  }

  function ParseInt(s: string, base: nat): (r: int) {
    if |s| > 0 && s[0] == '-' then 0 - ParseUint(s[1..], base) as int else ParseUint(s, base)
  }

  /** fmt.Sprintf("%d", n) */
  function Decimal(n: int): string {
    FormatInt(n, 10)
  }

  function Zeros(k: nat): (r: string)
    ensures |r| == k && forall i :: 0 <= i < k ==> r[i] == '0'
  {
    if k == 0 then "" else "0" + Zeros(k - 1)
  }

  /** fmt.Sprintf("%0<width>s", s): left-pad with `0` to `width` bytes; never truncates. */
  function PadZeros(s: string, width: nat): (r: string)
    ensures |r| == if |s| >= width then |s| else width
    ensures HasSuffix(r, s)
  {
    if |s| >= width then s else Zeros(width - |s|) + s
  }

  lemma DigitRoundTrip(d: nat, base: nat)
    requires (base == 10 || base == 16) && d < base
    ensures DigitValue(DigitChars[d]) == d && IsDigit(DigitChars[d], base)
  {
  }

  /** Parsing a formatted number gives the number back. */
  lemma {:induction false} ParseFormatUint(n: nat, base: nat)
    requires base == 10 || base == 16
    ensures ParseUint(FormatUint(n, base), base) == n
    decreases n
  {
    if n < base {
      DigitRoundTrip(n, base);
      assert [DigitChars[n]][..0] == "";
    } else {
      var hi := FormatUint(n / base, base);
      var s := hi + [DigitChars[n % base]];
      assert s[..|s| - 1] == hi;
      ParseFormatUint(n / base, base);
      DigitRoundTrip(n % base, base);
    }
  }

  lemma ParseFormatInt(n: int, base: nat)
    requires base == 10 || base == 16
    ensures ParseInt(FormatInt(n, base), base) == n
  {
    if n < 0 {
      var s := "-" + FormatUint(-n, base);
      assert s[1..] == FormatUint(-n, base);
      ParseFormatUint(-n, base);
    } else {
      var s := FormatUint(n, base);
      assert s[0] != '-' by { assert IsDigit(s[0], base); }
      ParseFormatUint(n, base);
    }
  }

  /** A number has at most `k` digits exactly when it is below base^k. */
  lemma {:induction false} FormatUintLength(n: nat, base: nat, k: nat)
    requires (base == 10 || base == 16) && k >= 1
    ensures |FormatUint(n, base)| <= k <==> n < Pow(base, k)
    decreases n
  {
    if n < base {
      assert Pow(base, k) == base * Pow(base, k - 1);
      assert Pow(base, k - 1) >= 1;
    } else if k == 1 {
      assert Pow(base, 1) == base;
    } else {
      FormatUintLength(n / base, base, k - 1);
      assert Pow(base, k) == base * Pow(base, k - 1);
      DivBound(n, base, Pow(base, k - 1));
    }
  }

  lemma DivBound(n: nat, base: nat, m: nat)
    requires base == 10 || base == 16
    ensures n / base < m <==> n < base * m
  {
  }

  /** Leading zeros do not change a parsed value. */
  lemma {:induction false} ParseLeadingZeros(k: nat, s: string, base: nat)
    ensures ParseUint(Zeros(k) + s, base) == ParseUint(s, base)
    decreases |s|, k
  {
    if s == [] {
      assert Zeros(k) + s == Zeros(k);
      if k > 0 {
        assert Zeros(k)[..k - 1] == Zeros(k - 1);
        ParseLeadingZeros(k - 1, "", base);
        assert Zeros(k - 1) + "" == Zeros(k - 1);
      }
    } else {
      var t := Zeros(k) + s;
      assert t[..|t| - 1] == Zeros(k) + s[..|s| - 1];
      ParseLeadingZeros(k, s[..|s| - 1], base);
    }
  }

  lemma PadZerosDigits(s: string, width: nat, base: nat)
    requires (base == 10 || base == 16) && AllDigits(s, base)
    ensures AllDigits(PadZeros(s, width), base)
    ensures ParseUint(PadZeros(s, width), base) == ParseUint(s, base)
  {
    if |s| < width {
      ParseLeadingZeros(width - |s|, s, base);
      var r := PadZeros(s, width);
      forall i | 0 <= i < |r| ensures IsDigit(r[i], base) {
        if i >= width - |s| { assert r[i] == s[i - (width - |s|)]; }
      }
    }
  }
}
