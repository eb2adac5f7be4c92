/** String helpers the transforms rely on: SQL quote escaping, the `i32`
    parse test used for lottery-ticket notes, and first-character search. */
module Text {
  import opened Wrappers

  const Quote: char := '\''

  /** Number of single quotes in `s`. */
  function CountQuotes(s: string): nat
  {
    if |s| == 0 then 0 else (if s[0] == Quote then 1 else 0) + CountQuotes(s[1..])
  }

  /** `s` with every single quote removed. */
  function DropQuotes(s: string): string
  {
    if |s| == 0 then [] else (if s[0] == Quote then [] else [s[0]]) + DropQuotes(s[1..])
  }

  /** `escape_quote`: every `'` becomes `''`; every other character is copied. */
  function EscapeQuote(s: string): (r: string)
    ensures |r| == |s| + CountQuotes(s)
    ensures DropQuotes(r) == DropQuotes(s)
    ensures CountQuotes(r) == 2 * CountQuotes(s)
    ensures CountQuotes(s) == 0 ==> r == s
  {
    if |s| == 0 then []
    else
      var rest := EscapeQuote(s[1..]);
      if s[0] == Quote then
        assert ([Quote, Quote] + rest)[1..] == [Quote] + rest;
        assert ([Quote] + rest)[1..] == rest;
        [Quote, Quote] + rest
      else
        assert ([s[0]] + rest)[1..] == rest;
        [s[0]] + rest
  }

  /** Collapses each `''` back to `'`; the inverse of `EscapeQuote`. */
  function Unescape(t: string): string
  {
    if |t| == 0 then []
    else if |t| >= 2 && t[0] == Quote && t[1] == Quote then [Quote] + Unescape(t[2..])
    else [t[0]] + Unescape(t[1..])
  }

  lemma {:induction false} UnescapeEscape(s: string)
    ensures Unescape(EscapeQuote(s)) == s
  {
    if |s| > 0 {
      var rest := EscapeQuote(s[1..]);
      UnescapeEscape(s[1..]);
      if s[0] == Quote {
        var t := [Quote, Quote] + rest;
        assert t[2..] == rest;
        assert Unescape(t) == [Quote] + s[1..];
      } else {
        var t := [s[0]] + rest;
        assert t[1..] == rest;
        assert Unescape(t) == [s[0]] + s[1..];
      }
      assert [s[0]] + s[1..] == s;
    }
  }

  /** Distinct texts stay distinct after escaping. */
  lemma EscapeQuoteInjective(a: string, b: string)
    requires EscapeQuote(a) == EscapeQuote(b)
    ensures a == b
  {
    UnescapeEscape(a);
    UnescapeEscape(b);
  }

  const I32Min: int := -0x8000_0000
  const I32Max: int := 0x7fff_ffff

  predicate IsAsciiDigits(d: string)
  {
    forall i :: 0 <= i < |d| ==> '0' <= d[i] <= '9'
  }

  /** Decimal value of an all-digit string, most significant digit first. */
  function DigitsValue(d: string): nat
    requires IsAsciiDigits(d)
  {
    if |d| == 0 then 0
    else DigitsValue(d[..|d| - 1]) * 10 + (d[|d| - 1] as int - '0' as int)
  }

  function Pow10(n: nat): nat
  {
    if n == 0 then 1 else 10 * Pow10(n - 1)
  }

  /** `str::parse::<i32>` succeeds: an optional `+`/`-`, then at least one
      ASCII digit and nothing else, with the value inside the `i32` range. */
  predicate ParsesAsI32(s: string)
  {
    var signed := |s| > 0 && (s[0] == '+' || s[0] == '-');
    var digits := if signed then s[1..] else s;
    && |digits| > 0
    && IsAsciiDigits(digits)
    && (if signed && s[0] == '-' then DigitsValue(digits) <= -I32Min
        else DigitsValue(digits) <= I32Max)
  }

  lemma {:induction false} DigitsValueBound(d: string)
    requires IsAsciiDigits(d)
    ensures DigitsValue(d) < Pow10(|d|)
  {
    if |d| > 0 {
      DigitsValueBound(d[..|d| - 1]);
    }
  }

  /** Any string of one to nine ASCII digits is a parsable `i32`. */
  lemma ShortDigitStringsParse(s: string)
    requires 1 <= |s| <= 9 && IsAsciiDigits(s)
    ensures ParsesAsI32(s)
  {
    DigitsValueBound(s);
    assert Pow10(9) == 1_000_000_000;
    var n := |s|;
    assert Pow10(n) <= Pow10(9) by { Pow10Monotone(n, 9); }
  }

  lemma {:induction false} Pow10Monotone(a: nat, b: nat)
    requires a <= b
    ensures Pow10(a) <= Pow10(b)
  {
    if a < b {
      Pow10Monotone(a, b - 1);
    }
  }

  /** Position of the first occurrence of `c` in `s`, as `str::find` gives it. */
  function FindChar(s: string, c: char): (r: Option<nat>)
    ensures r.None? <==> c !in s
    ensures r.Some? ==> r.value < |s| && s[r.value] == c && c !in s[..r.value]
  {
    if |s| == 0 then None
    else if s[0] == c then Some(0)
    else
      match FindChar(s[1..], c)
      case None => None
      case Some(k) =>
        assert s[..k + 1] == [s[0]] + s[1..][..k];
        Some(k + 1)
  }
}
