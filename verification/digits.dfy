/**
 The string helpers the chart uses to build day labels and date keys:
 `Number.prototype.toString()` on a natural number, `String.prototype.padStart`
 with a one-character fill, and `String.prototype.slice(-2)`.
 */
module Digits {

  predicate IsDigit(c: char) {
    '0' <= c <= '9'
  }

  predicate AllDigits(s: string) {
    forall i :: 0 <= i < |s| ==> IsDigit(s[i])
  }

  /** The character of decimal digit `d`. */
  function DigitChar(d: nat): (c: char)
    requires d < 10
    ensures IsDigit(c)
    ensures DigitValue(c) == d
  {
    (48 + d) as char
  }

  /** The numeric value of a digit character. */
  function DigitValue(c: char): int {
    c as int - 48
  }

  /** The number a string of decimal digits denotes, most significant digit first. */
  function ParseNat(s: string): int {
    if |s| == 0 then 0 else ParseNat(s[..|s| - 1]) * 10 + DigitValue(s[|s| - 1])
  }

  lemma ParseTwoDigits(a: char, b: char)
    ensures ParseNat([a, b]) == DigitValue(a) * 10 + DigitValue(b)
  {
    assert [a, b][..1] == [a] && [a][..0] == [];
    assert ParseNat([a]) == ParseNat([]) * 10 + DigitValue(a);
    assert ParseNat([a, b]) == ParseNat([a]) * 10 + DigitValue(b);
  }

  /**
   Plain decimal rendering of a natural number: JavaScript's `toString()` for every
   number below 10^21 (from 10^21 up JavaScript switches to exponent notation).
   */
  function NatToString(n: nat): (s: string)
    ensures |s| >= 1 && AllDigits(s)
    ensures ParseNat(s) == n
    ensures |s| > 1 ==> s[0] != '0'
    ensures n < 10 <==> |s| == 1
    ensures 10 <= n < 100 <==> |s| == 2
    decreases n
  {
    if n < 10 then
      [DigitChar(n)]
    else
      var s := NatToString(n / 10) + [DigitChar(n % 10)];
      assert s[..|s| - 1] == NatToString(n / 10);
      s
  }

  /** Parsing is never negative on a digit string, and at least 1 when it has a nonzero digit in front. */
  lemma {:induction false} ParseNatBounds(s: string)
    requires AllDigits(s)
    ensures ParseNat(s) >= 0
    ensures |s| >= 1 && s[0] != '0' ==> ParseNat(s) >= 1
    decreases |s|
  {
    if |s| > 0 {
      var p := s[..|s| - 1];
      ParseNatBounds(p);
      if |p| >= 1 {
        assert p[0] == s[0];
      }
    }
  }

  /** Rendering inverts parsing on digit strings without a superfluous leading zero. */
  lemma {:induction false} NatToStringInvertsParse(s: string)
    requires |s| >= 1 && AllDigits(s)
    requires |s| > 1 ==> s[0] != '0'
    ensures ParseNat(s) >= 0 && NatToString(ParseNat(s)) == s
    decreases |s|
  {
    ParseNatBounds(s);
    var p, c := s[..|s| - 1], s[|s| - 1];
    var n := ParseNat(s);
    if |p| == 0 {
      assert s == [c];
      assert DigitChar(n) == c;
    } else {
      assert p[0] == s[0];
      NatToStringInvertsParse(p);
      ParseNatBounds(p);
      assert n / 10 == ParseNat(p) && n % 10 == DigitValue(c);
      assert DigitChar(n % 10) == c;
      assert s == p + [c];
    }
  }

  /**
   `s.padStart(width, fill)`: `s` itself when it is already at least `width` long,
   otherwise `s` preceded by as many copies of `fill` as make it `width` long.
   */
  function PadStart(s: string, width: nat, fill: char): (r: string)
    ensures |r| == if |s| >= width then |s| else width
    ensures r[|r| - |s|..] == s
    ensures forall i :: 0 <= i < |r| - |s| ==> r[i] == fill
  {
    if |s| >= width then s else seq(width - |s|, _ => fill) + s
  }

  /**
   The two-character day or month number: the tens digit then the units digit below 100,
   the plain rendering from 100 up. `Pad2IsPaddedString` shows this is
   `PadStart(NatToString(n), 2, '0')`, the model of `n.toString().padStart(2, '0')`.
   */
  function Pad2(n: nat): (r: string)
    ensures n < 100 ==> |r| == 2 && AllDigits(r) && ParseNat(r) == n
  {
    if n < 100 then
      var r := [DigitChar(n / 10), DigitChar(n % 10)];
      ParseTwoDigits(r[0], r[1]);
      r
    else
      NatToString(n)
  }

  /** `Pad2(n)` is the padded plain decimal rendering, `n.toString().padStart(2, '0')` below 10^21. */
  lemma Pad2IsPaddedString(n: nat)
    ensures Pad2(n) == PadStart(NatToString(n), 2, '0')
  {
    var s := NatToString(n);
    if n < 10 {
      assert s == [DigitChar(n)];
    } else if n < 100 {
      assert s[..1] == NatToString(n / 10);
      assert s == [DigitChar(n / 10), DigitChar(n % 10)];
    }
  }

  /** Two numbers below 100 have the same padded rendering only when they are equal. */
  lemma Pad2Injective(a: nat, b: nat)
    requires a < 100 && b < 100
    ensures Pad2(a) == Pad2(b) <==> a == b
  {
  }

  /** `s.slice(-2)`: the last two characters, or all of `s` when it is shorter. */
  function Last2(s: string): (r: string)
    ensures |r| == if |s| >= 2 then 2 else |s|
    ensures r == s[|s| - |r|..]
  {
    if |s| >= 2 then s[|s| - 2..] else s
  }
}
