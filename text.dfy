/**
 * String helpers that the line formatter and the message normaliser are
 * built from: `String.prototype.repeat`, ASCII upper-casing, the
 * formatter's inner `alignText`, and the decimal rendering of integers
 * that `Number.prototype.toString` and `BigInt.prototype.toString` produce.
 */
module Text {

  /** `fill.repeat(n)` for a one-character fill string. */
  function Repeat(fill: char, n: nat): (r: string)
    ensures |r| == n
    ensures forall i :: 0 <= i < n ==> r[i] == fill
  {
    if n == 0 then [] else [fill] + Repeat(fill, n - 1)
  }

  /** `String.prototype.toUpperCase` restricted to the ASCII letters. */
  function UpperChar(c: char): (u: char)
    ensures 'a' <= c <= 'z' ==> u as int == c as int - 32
    ensures !('a' <= c <= 'z') ==> u == c
    ensures !('a' <= u <= 'z')
  {
    if 'a' <= c <= 'z' then (c as int - 32) as char else c
  }

  function Upper(s: string): (r: string)
    ensures |r| == |s|
    ensures forall i :: 0 <= i < |s| ==> r[i] == UpperChar(s[i])
  {
    seq(|s|, i requires 0 <= i < |s| => UpperChar(s[i]))
  }

  /** Upper-casing twice is upper-casing once. */
  lemma UpperIdempotent(s: string)
    ensures Upper(Upper(s)) == Upper(s)
  {
    var u := Upper(s);
    assert forall i :: 0 <= i < |u| ==> UpperChar(u[i]) == u[i];
  }

  /** A slice index after JavaScript's clamping into `0..len`. */
  function Clamp(i: int, len: nat): nat
  {
    if i < 0 then 0 else if i > len then len else i
  }

  /**
   * `s.slice(0, end)`: a negative `end` counts back from the end of the
   * string, an `end` past the end is cut to the length.
   */
  function SliceTo(s: string, end: int): (r: string)
    ensures |r| <= |s| && r == s[..|r|]
    ensures |r| == Clamp(if end < 0 then |s| + end else end, |s|)
  {
    if end < 0 then
      (if |s| + end >= 0 then s[..|s| + end] else [])
    else if end <= |s| then s[..end]
    else s
  }

  /**
   * The formatter's `alignText(str, length, fillChar)`: a string no longer
   * than `width` is padded on the left with `fill`; a longer one keeps its
   * first `width - 1` characters and ends in the truncation marker '-'.
   * For `width == 0` the slice end is -1, which JavaScript reads as "all
   * but the last character".
   */
  function AlignText(s: string, width: nat, fill: char): (r: string)
    ensures |s| <= width ==> |r| == width && r[width - |s|..] == s
    ensures |s| <= width ==> forall i :: 0 <= i < width - |s| ==> r[i] == fill
    ensures |s| > width >= 1 ==> |r| == width && r[..width - 1] == s[..width - 1] && r[width - 1] == '-'
    ensures |s| > width == 0 ==> r == s[..|s| - 1] + "-"
  {
    if |s| <= width then Repeat(fill, width - |s|) + s
    else SliceTo(s, width - 1) + "-"
  }

  /** For every width of at least one the aligned field has exactly that width. */
  lemma AlignTextWidth(s: string, width: nat, fill: char)
    requires width >= 1
    ensures |AlignText(s, width, fill)| == width
  {
  }

  /** Leading `fill` characters removed: the inverse of left padding. */
  function StripLeft(r: string, fill: char): (s: string)
    ensures |s| <= |r| && s == r[|r| - |s|..]
    ensures s == [] || s[0] != fill
    ensures forall i :: 0 <= i < |r| - |s| ==> r[i] == fill
  {
    if r != [] && r[0] == fill then
      var s := StripLeft(r[1..], fill);
      assert r[1..][|r| - 1 - |s|..] == r[|r| - |s|..];
      assert forall i :: 1 <= i < |r| - |s| ==> r[i] == r[1..][i - 1];
      s
    else r
  }

  /**
   * Padding is undone by stripping the fill again, as long as the field
   * did not itself begin with the fill character.
   */
  lemma {:induction false} StripPadding(s: string, n: nat, fill: char)
    requires s == [] || s[0] != fill
    ensures StripLeft(Repeat(fill, n) + s, fill) == s
  {
    var padded := Repeat(fill, n) + s;
    if n == 0 {
      assert padded == s;
    } else {
      assert padded[0] == fill;
      assert padded[1..] == Repeat(fill, n - 1) + s;
      assert StripLeft(padded, fill) == StripLeft(Repeat(fill, n - 1) + s, fill);
      StripPadding(s, n - 1, fill);
    }
  }

  /** An aligned field that was not truncated gives its text back. */
  lemma AlignTextStrip(s: string, width: nat, fill: char)
    requires |s| <= width
    requires s == [] || s[0] != fill
    ensures StripLeft(AlignText(s, width, fill), fill) == s
  {
    assert AlignText(s, width, fill) == Repeat(fill, width - |s|) + s;
    StripPadding(s, width - |s|, fill);
  }

  // ---------------------------------------------------------------
  // Decimal rendering of integers
  // ---------------------------------------------------------------

  predicate IsDigit(c: char) { '0' <= c <= '9' }

  function DigitChar(d: nat): (c: char)
    requires d < 10
    ensures IsDigit(c) && c as int - '0' as int == d
  {
    ('0' as int + d) as char
  }

  /** The decimal digits of `n`, most significant first, without leading zeros. */
  function Digits(n: nat): (r: string)
    ensures |r| >= 1
    ensures forall i :: 0 <= i < |r| ==> IsDigit(r[i])
    ensures r[0] == '0' ==> n == 0 && |r| == 1
    decreases n
  {
    if n < 10 then [DigitChar(n)] else Digits(n / 10) + [DigitChar(n % 10)]
  }

  /** The number a string of digits denotes. */
  function DigitsValue(s: string): (v: int)
    requires forall i :: 0 <= i < |s| ==> IsDigit(s[i])
    ensures v >= 0
  {
    if s == [] then 0
    else
      assert IsDigit(s[|s| - 1]);
      10 * DigitsValue(s[..|s| - 1]) + (s[|s| - 1] as int - '0' as int)
  }

  /** `toString()` of an integral number or of a bigint: an optional '-' and the digits. */
  function DecimalString(n: int): (r: string)
    ensures n >= 0 ==> r == Digits(n)
    ensures n < 0 ==> r == "-" + Digits(-n)
  {
    if n < 0 then "-" + Digits(-n) else Digits(n)
  }

  /** The one rendering `toString()` gives: no leading zero unless the number is 0, and never "-0". */
  predicate CanonicalDecimal(s: string)
    requires |s| >= 1
  {
    if s[0] == '-' then |s| >= 2 && s[1] != '0' else s[0] == '0' ==> |s| == 1
  }

  /** The number a decimal string (as produced above) denotes. */
  function DecimalValue(s: string): int
    requires |s| >= 1
    requires forall i :: (if s[0] == '-' then 1 else 0) <= i < |s| ==> IsDigit(s[i])
  {
    if s[0] == '-' then -DigitsValue(s[1..]) else DigitsValue(s)
  }

  lemma {:induction false} DigitsRoundTrip(n: nat)
    ensures DigitsValue(Digits(n)) == n
    decreases n
  {
    if n >= 10 {
      var d := Digits(n);
      assert d[..|d| - 1] == Digits(n / 10);
      DigitsRoundTrip(n / 10);
    }
  }

  /** Reading back the decimal rendering gives the number: rendering loses nothing. */
  lemma DecimalRoundTrip(n: int)
    ensures var s := DecimalString(n);
      |s| >= 1 &&
      (forall i :: (if s[0] == '-' then 1 else 0) <= i < |s| ==> IsDigit(s[i])) &&
      CanonicalDecimal(s) &&
      DecimalValue(s) == n
  {
    var s := DecimalString(n);
    if n < 0 {
      assert s[1..] == Digits(-n);
      DigitsRoundTrip(-n);
    } else {
      DigitsRoundTrip(n);
    }
  }

  /** Different integers render differently. */
  lemma DecimalStringInjective(m: int, n: int)
    requires DecimalString(m) == DecimalString(n)
    ensures m == n
  {
    DecimalRoundTrip(m);
    DecimalRoundTrip(n);
  }
}
