/**
 * Decimal text of unsigned integers, as Rust's `{}` formatting writes it
 * (no sign, no leading zero), and the reading of such text back into a number.
 */
module Decimal {
  import opened Errors

  predicate IsDigit(c: char) {
    '0' <= c <= '9'
  }

  predicate AllDigits(s: string) {
    forall i :: 0 <= i < |s| ==> IsDigit(s[i])
  }

  /** The canonical spelling: non-empty, digits only, no leading zero. */
  predicate Canonical(s: string) {
    |s| > 0 && AllDigits(s) && (s[0] == '0' ==> |s| == 1)
  }

  function DigitValue(c: char): (d: nat)
    requires IsDigit(c)
    ensures d < 10
  {
    (c as int) - ('0' as int)
  }

  function DigitChar(d: nat): (c: char)
    requires d < 10
    ensures IsDigit(c) && DigitValue(c) == d
  {
    (d + '0' as int) as char
  }

  /** `format!("{}", n)` */
  function Dec(n: nat): (s: string)
    ensures Canonical(s)
    ensures s[0] == '0' <==> n == 0
  {
    if n < 10 then [DigitChar(n)] else Dec(n / 10) + [DigitChar(n % 10)]
  }

  /** The number a string of digits denotes, most significant digit first. */
  function DecValue(s: string): nat
    requires AllDigits(s)
  {
    if s == [] then 0 else DecValue(s[..|s| - 1]) * 10 + DigitValue(s[|s| - 1])
  }

  /** Reads canonical decimal text; anything else is rejected. */
  function ParseDec(s: string): Option<nat> {
    if Canonical(s) then Some(DecValue(s)) else None
  }

  lemma {:induction false} DecValueOfDec(n: nat)
    ensures DecValue(Dec(n)) == n
  {
    if n >= 10 {
      var s := Dec(n);
      assert s[..|s| - 1] == Dec(n / 10);
      DecValueOfDec(n / 10);
    }
  }

  /** Printing then reading gives the number back. */
  lemma ParseDecOfDec(n: nat)
    ensures ParseDec(Dec(n)) == Some(n)
  {
    DecValueOfDec(n);
  }

  lemma {:induction false} DecValueZeroOnlyForZeros(s: string)
    requires AllDigits(s) && DecValue(s) == 0
    ensures forall i :: 0 <= i < |s| ==> s[i] == '0'
  {
    if s != [] {
      DecValueZeroOnlyForZeros(s[..|s| - 1]);
      assert forall i :: 0 <= i < |s| - 1 ==> s[..|s| - 1][i] == s[i];
    }
  }

  /** Reading then printing gives the text back: the canonical spelling is unique. */
  lemma {:induction false} DecOfParseDec(s: string, n: nat)
    requires ParseDec(s) == Some(n)
    ensures Dec(n) == s
  {
    if |s| > 1 {
      var p := s[..|s| - 1];
      var d := DigitValue(s[|s| - 1]);
      assert p[0] == s[0] && Canonical(p);
      if DecValue(p) == 0 {
        DecValueZeroOnlyForZeros(p);
      }
      assert n == DecValue(p) * 10 + d && n / 10 == DecValue(p) && n % 10 == d;
      DecOfParseDec(p, DecValue(p));
      assert DigitChar(d) == s[|s| - 1];
      assert s == p + [s[|s| - 1]];
    } else {
      assert s == [s[0]] && s[..0] == [];
    }
  }

  /** Distinct numbers are printed differently. */
  lemma DecInjective(m: nat, n: nat)
    requires Dec(m) == Dec(n)
    ensures m == n
  {
    ParseDecOfDec(m);
    ParseDecOfDec(n);
  }

  /** Position of the first `c` in `s`, or `|s|` when there is none. */
  function IndexOf(s: string, c: char): (k: nat)
    ensures k <= |s|
    ensures k < |s| ==> s[k] == c
    ensures forall i :: 0 <= i < k ==> s[i] != c
  {
    if s == [] then 0 else if s[0] == c then 0 else 1 + IndexOf(s[1..], c)
  }

  /** Decimal text holds no separator, so a separator after it is found right there. */
  lemma IndexOfAfterDigits(p: string, c: char, rest: string)
    requires AllDigits(p) && !IsDigit(c)
    ensures IndexOf(p + [c] + rest, c) == |p|
  {
    var s := p + [c] + rest;
    var k := IndexOf(s, c);
    assert s[|p|] == c;
  }
}
