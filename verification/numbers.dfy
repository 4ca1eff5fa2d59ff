/**
 * Machine integers, decimal digit strings and Rust's integer parsing
 * (`str::parse::<u64>()` and `str::parse::<i32>()`) and rendering (`to_string`).
 */
module Numbers {
  import opened Wrappers

  const U64_LIMIT: int := 0x1_0000_0000_0000_0000
  const U64_MAX: int := U64_LIMIT - 1
  const I32_MIN: int := -0x8000_0000
  const I32_MAX: int := 0x7FFF_FFFF

  /** Rust's `u64`. */
  type U64 = x: int | 0 <= x < U64_LIMIT

  /** Rust's `i32`. */
  type I32 = x: int | I32_MIN <= x <= I32_MAX

  predicate IsDigit(c: char) {
    '0' <= c <= '9'
  }

  predicate AllDigits(s: string) {
    forall i :: 0 <= i < |s| ==> IsDigit(s[i])
  }

  function DigitValue(c: char): (d: nat)
    requires IsDigit(c)
    ensures d < 10
  {
    c as int - '0' as int
  }

  function DigitChar(d: nat): (c: char)
    requires d < 10
    ensures IsDigit(c) && DigitValue(c) == d
  {
    ('0' as int + d) as char
  }

  /** The value of a string of decimal digits, most significant digit first. */
  function DigitsValue(s: string): nat
    requires AllDigits(s)
  {
    if |s| == 0 then 0 else DigitsValue(s[..|s| - 1]) * 10 + DigitValue(s[|s| - 1])
  }

  /** Appending a digit shifts the value one decimal place. */
  lemma DigitsValueSnoc(s: string, c: char)
    requires AllDigits(s) && IsDigit(c)
    ensures AllDigits(s + [c])
    ensures DigitsValue(s + [c]) == DigitsValue(s) * 10 + DigitValue(c)
  {
    assert (s + [c])[..|s|] == s;
  }

  /** A digit string of length n has a value below 10^n. */
  function Pow10(n: nat): (p: nat)
    ensures p >= 1
  {
    if n == 0 then 1 else 10 * Pow10(n - 1)
  }

  lemma {:induction false} DigitsValueBound(s: string)
    requires AllDigits(s)
    ensures DigitsValue(s) < Pow10(|s|)
  {
    if |s| > 0 {
      DigitsValueBound(s[..|s| - 1]);
    }
  }

  /**
   * Rust's `to_string` on a non-negative integer: the shortest decimal
   * rendering, so "0" for zero and no leading zero otherwise.
   */
  function DecimalString(n: nat): (s: string)
    ensures |s| >= 1 && AllDigits(s)
    ensures DigitsValue(s) == n
    ensures |s| > 1 ==> s[0] != '0'
  {
    if n < 10 then [DigitChar(n)]
    else
      var prefix := DecimalString(n / 10);
      DigitsValueSnoc(prefix, DigitChar(n % 10));
      prefix + [DigitChar(n % 10)]
  }

  /** A digit string that does not start with '0' has a positive value. */
  lemma {:induction false} DigitsValuePositive(s: string)
    requires |s| >= 1 && AllDigits(s) && s[0] != '0'
    ensures DigitsValue(s) >= 1
  {
    if |s| > 1 {
      DigitsValuePositive(s[..|s| - 1]);
    }
  }

  /** A digit string without a leading zero is the rendering of its own value. */
  lemma {:induction false} DecimalStringOfDigits(s: string)
    requires |s| >= 1 && AllDigits(s) && (|s| > 1 ==> s[0] != '0')
    ensures DecimalString(DigitsValue(s)) == s
  {
    if |s| > 1 {
      var prefix := s[..|s| - 1];
      DigitsValuePositive(prefix);
      DecimalStringOfDigits(prefix);
      DecimalStringSnoc(DigitsValue(prefix), DigitValue(s[|s| - 1]));
      assert s == prefix + [s[|s| - 1]];
    }
  }

  /** The rendering of `10 * n + d` for a positive `n` is that of `n` followed by the digit `d`. */
  lemma DecimalStringSnoc(n: nat, d: nat)
    requires n >= 1 && d < 10
    ensures DecimalString(10 * n + d) == DecimalString(n) + [DigitChar(d)]
  {
  }

  /** Rust's `to_string` on an `i32`: a '-' sign before the magnitude of a negative value. */
  function I32ToString(x: I32): (s: string)
    ensures |s| >= 1
    ensures s[0] == '-' <==> x < 0
  {
    if x < 0 then "-" + DecimalString(-(x as int)) else DecimalString(x)
  }

  /** The digits of an integer literal after an optional leading sign, or None when the sign is alone. */
  function DigitsAfterSign(s: string, signs: set<char>): Option<string>
  {
    if |s| == 0 then None
    else if s[0] in signs then (if |s| == 1 then None else Some(s[1..]))
    else Some(s)
  }

  /**
   * Rust's `str::parse::<u64>()`: an optional '+', then one or more ASCII
   * digits whose value fits in 64 bits. No whitespace is skipped.
   */
  function ParseU64(s: string): (r: Result<U64>)
    ensures |s| == 0 ==> r.Err?
    ensures r.Ok? ==> exists k :: 0 <= k <= 1 && k < |s| && AllDigits(s[k..]) && DigitsValue(s[k..]) == r.value
    ensures |s| > 0 && AllDigits(s) && DigitsValue(s) <= U64_MAX ==> r == Ok(DigitsValue(s))
  {
    match DigitsAfterSign(s, {'+'})
    case None => Err
    case Some(digits) =>
      if AllDigits(digits) && DigitsValue(digits) <= U64_MAX then
        assert digits == s[|s| - |digits|..];
        Ok(DigitsValue(digits))
      else Err
  }

  /** A '-' anywhere in the text makes `u64` parsing fail. */
  lemma ParseU64RejectsDash(s: string)
    requires '-' in s
    ensures ParseU64(s).Err?
  {
    var i :| 0 <= i < |s| && s[i] == '-';
    match DigitsAfterSign(s, {'+'})
    case None =>
    case Some(digits) =>
      var k := |s| - |digits|;
      assert digits == s[k..];
      assert k <= i;
      assert digits[i - k] == '-';
  }

  /**
   * Rust's `str::parse::<i32>()`: an optional '+' or '-', then one or more
   * ASCII digits whose signed value fits in 32 bits.
   */
  function ParseI32(s: string): (r: Result<I32>)
    ensures |s| == 0 ==> r.Err?
    ensures |s| > 0 && AllDigits(s) && DigitsValue(s) <= I32_MAX ==> r == Ok(DigitsValue(s))
  {
    match DigitsAfterSign(s, {'+', '-'})
    case None => Err
    case Some(digits) =>
      if !AllDigits(digits) then Err
      else
        var v: int := if s[0] == '-' then 0 - DigitsValue(digits) else DigitsValue(digits);
        if I32_MIN <= v <= I32_MAX then Ok(v) else Err
  }

  /** Rendering a `u64` and parsing it back gives the same value. */
  lemma ParseU64RoundTrip(n: U64)
    ensures ParseU64(DecimalString(n)) == Ok(n)
  {
  }

  /** Rendering an `i32` and parsing it back gives the same value. */
  lemma ParseI32RoundTrip(x: I32)
    ensures ParseI32(I32ToString(x)) == Ok(x)
  {
    var s := I32ToString(x);
    if x < 0 {
      var d := DecimalString(-(x as int));
      assert s[1..] == d;
      assert DigitsAfterSign(s, {'+', '-'}) == Some(d);
    } else {
      assert IsDigit(s[0]);
      assert DigitsAfterSign(s, {'+', '-'}) == Some(s);
    }
  }
}
