/**
 * Rust's `i64` and its `Display` rendering (`to_string`), plus the keycap
 * glyphs (a character followed by U+FE0F U+20E3) in which the language
 * writes its digits.
 */
module Numerals {
  import opened Wrappers

  const MIN_I64: int := -0x8000_0000_0000_0000
  const MAX_I64: int := 0x7FFF_FFFF_FFFF_FFFF

  /** The values of Rust's `i64`. */
  type I64 = x: int | MIN_I64 <= x <= MAX_I64

  predicate InI64(x: int) {
    MIN_I64 <= x <= MAX_I64
  }

  function DigitChar(d: nat): (c: char)
    requires d < 10
    ensures '0' <= c <= '9' && c as int - '0' as int == d
  {
    (d + '0' as int) as char
  }

  predicate IsDigitChar(c: char) {
    '0' <= c <= '9'
  }

  /** Decimal digits of a natural number, most significant first, no leading zero. */
  function NatText(n: nat): (s: string)
    ensures |s| >= 1
    ensures forall i :: 0 <= i < |s| ==> IsDigitChar(s[i])
    ensures n >= 10 ==> s[0] != '0'
    decreases n
  {
    if n < 10 then [DigitChar(n)] else NatText(n / 10) + [DigitChar(n % 10)]
  }

  /** `i64::to_string`: an optional '-' followed by the digits of the magnitude. */
  function DecimalText(n: int): string {
    if n < 0 then "-" + NatText(-n) else NatText(n)
  }

  /** The value of a string of decimal digits (the inverse reading). */
  function DigitsValue(s: string): nat
    requires forall i :: 0 <= i < |s| ==> IsDigitChar(s[i])
  {
    if s == [] then 0
    else
      assert IsDigitChar(s[|s| - 1]);
      DigitsValue(s[..|s| - 1]) * 10 + (s[|s| - 1] as int - '0' as int)
  }

  /** Reads back what `DecimalText` writes. */
  function ParseDecimal(s: string): Option<int> {
    if |s| >= 2 && s[0] == '-' && forall i :: 1 <= i < |s| ==> IsDigitChar(s[i]) then
      var magnitude: int := DigitsValue(s[1..]);
      Some(-magnitude)
    else if |s| >= 1 && forall i :: 0 <= i < |s| ==> IsDigitChar(s[i]) then
      Some(DigitsValue(s))
    else None
  }

  lemma {:induction false} NatTextValue(n: nat)
    ensures DigitsValue(NatText(n)) == n
    decreases n
  {
    if n >= 10 {
      NatTextValue(n / 10);
      var s := NatText(n);
      assert s[..|s| - 1] == NatText(n / 10);
    }
  }

  /** A minus sign followed by digits reads back as the negated digits' value. */
  lemma NegativeTextValue(m: nat)
    requires m > 0
    ensures ParseDecimal("-" + NatText(m)) == Some(-(m as int))
  {
    var s := "-" + NatText(m);
    assert s[1..] == NatText(m);
    assert forall i :: 1 <= i < |s| ==> IsDigitChar(s[i]) by {
      forall i | 1 <= i < |s| ensures IsDigitChar(s[i]) {
        assert s[i] == NatText(m)[i - 1];
      }
    }
    NatTextValue(m);
  }

  lemma DecimalRoundTrip(n: int)
    ensures ParseDecimal(DecimalText(n)) == Some(n)
  {
    if n < 0 {
      NegativeTextValue(-n);
    } else {
      NatTextValue(n);
      assert NatText(n)[0] != '-';
    }
  }

  /** The keycap glyph of one character: the character, U+FE0F, U+20E3. */
  function Keycap(c: char): string {
    [c, '\U{FE0F}', '\U{20E3}']
  }

  /** Every character of `s` turned into its keycap glyph, in order. */
  function Keycaps(s: string): string {
    if s == [] then "" else Keycap(s[0]) + Keycaps(s[1..])
  }

  lemma {:induction false} KeycapsAt(s: string, i: nat)
    requires i < |s|
    ensures |Keycaps(s)| == 3 * |s|
    ensures Keycaps(s)[3 * i] == s[i]
    ensures Keycaps(s)[3 * i + 1] == '\U{FE0F}' && Keycaps(s)[3 * i + 2] == '\U{20E3}'
  {
    if i > 0 {
      KeycapsAt(s[1..], i - 1);
    } else if |s| > 1 {
      KeycapsAt(s[1..], 0);
    }
  }

  /** Every third character, starting with the first: the characters under their keycaps. */
  function Unkeycaps(s: string): string
    decreases |s|
  {
    if |s| < 3 then (if s == [] then "" else [s[0]]) else [s[0]] + Unkeycaps(s[3..])
  }

  /** Reading the keycaps back gives the characters they were made from. */
  lemma {:induction false} UnkeycapsKeycaps(s: string)
    ensures Unkeycaps(Keycaps(s)) == s
  {
    if s != [] {
      UnkeycapsKeycaps(s[1..]);
      assert Keycaps(s)[3..] == Keycaps(s[1..]);
    }
  }
}
