/**
 * Python's ordering of `str` values (code point by code point, a proper
 * prefix first) and decimal digit strings, as trade ids are compared.
 */
module Strings {

  /** `a <= b` on Python strings. */
  predicate StrLe(a: string, b: string)
    decreases |a|
  {
    a == [] || (b != [] && (a[0] < b[0] || (a[0] == b[0] && StrLe(a[1..], b[1..]))))
  }

  /** `a < b` on Python strings. */
  predicate StrLt(a: string, b: string)
  {
    !StrLe(b, a)
  }

  lemma {:induction false} StrLeTotal(a: string, b: string)
    ensures StrLe(a, b) || StrLe(b, a)
    decreases |a|
  {
    if a != [] && b != [] && a[0] == b[0] {
      StrLeTotal(a[1..], b[1..]);
    }
  }

  lemma {:induction false} StrLeTrans(a: string, b: string, c: string)
    requires StrLe(a, b) && StrLe(b, c)
    ensures StrLe(a, c)
    decreases |a|
  {
    if a != [] && b != [] && c != [] && a[0] == b[0] && b[0] == c[0] {
      StrLeTrans(a[1..], b[1..], c[1..]);
    }
  }

  lemma {:induction false} StrLeAntisym(a: string, b: string)
    requires StrLe(a, b) && StrLe(b, a)
    ensures a == b
    decreases |a|
  {
    if a != [] && b != [] {
      StrLeAntisym(a[1..], b[1..]);
      assert a == [a[0]] + a[1..] && b == [b[0]] + b[1..];
    }
  }

  predicate IsDigit(c: char)
  {
    '0' <= c <= '9'
  }

  function DigitValue(c: char): nat
    requires IsDigit(c)
  {
    (c as int - '0' as int) as nat
  }

  /** A non-empty run of decimal digits without a leading zero (or "0" itself), as `str(n)` prints a natural. */
  predicate IsCanonicalNat(s: string)
  {
    |s| > 0 && AllDigits(s) && (s[0] == '0' ==> |s| == 1)
  }

  predicate AllDigits(s: string)
  {
    forall i :: 0 <= i < |s| ==> IsDigit(s[i])
  }

  /** The value of a digit string, most significant digit first. */
  function DecValue(s: string): nat
    requires AllDigits(s)
    decreases |s|
  {
    if s == [] then 0 else DecValue(s[..|s| - 1]) * 10 + DigitValue(s[|s| - 1])
  }

  /** Both are digit strings and the first is at most the second as a number. */
  predicate NumLe(a: string, b: string)
  {
    AllDigits(a) && AllDigits(b) && DecValue(a) <= DecValue(b)
  }

  function Pow10(n: nat): (r: nat)
    ensures r >= 1
  {
    if n == 0 then 1 else 10 * Pow10(n - 1)
  }

  /** A digit string of length `n` is below `10^n`. */
  lemma {:induction false} DecValueBelow(s: string)
    requires AllDigits(s)
    ensures DecValue(s) < Pow10(|s|)
    decreases |s|
  {
    if s != [] {
      DecValueBelow(s[..|s| - 1]);
    }
  }

  /** A canonical digit string of length `n > 1` is at least `10^(n-1)`. */
  lemma {:induction false} DecValueAtLeast(s: string)
    requires IsCanonicalNat(s) && |s| > 1
    ensures DecValue(s) >= Pow10(|s| - 1)
    decreases |s|
  {
    var init := s[..|s| - 1];
    assert AllDigits(init);
    if |s| > 2 {
      assert IsCanonicalNat(init);
      DecValueAtLeast(init);
    } else {
      assert init[0] != '0';
      assert DecValue(init) == DecValue(init[..0]) * 10 + DigitValue(init[0]);
    }
  }

  /** `DecValue` read from the front: the first digit weighs `10^(n-1)`. */
  lemma {:induction false} DecValueFront(s: string)
    requires AllDigits(s) && |s| > 0
    ensures DecValue(s) == DigitValue(s[0]) * Pow10(|s| - 1) + DecValue(s[1..])
    decreases |s|
  {
    if |s| > 1 {
      var init := s[..|s| - 1];
      DecValueFront(init);
      assert init[1..] == s[1..][..|s[1..]| - 1];
      assert init[0] == s[0];
      var d0, dl := DigitValue(s[0]), DigitValue(s[|s| - 1]);
      var p, v := Pow10(|s| - 2), DecValue(init[1..]);
      assert DecValue(init) == d0 * p + v;
      assert DecValue(s[1..]) == v * 10 + dl;
      assert Pow10(|s| - 1) == 10 * p;
      FrontArith(d0, p, v, dl);
    } else {
      assert s[1..] == [];
      assert s[..0] == [];
    }
  }

  lemma FrontArith(d: nat, p: nat, v: nat, e: nat)
    ensures (d * p + v) * 10 + e == d * (10 * p) + (v * 10 + e)
  {
  }

  /** For digit strings of one length, numeric order is string order. */
  lemma {:induction false} SameLengthOrder(a: string, b: string)
    requires AllDigits(a) && AllDigits(b) && |a| == |b|
    ensures DecValue(a) <= DecValue(b) <==> StrLe(a, b)
    decreases |a|
  {
    if a != [] {
      DecValueFront(a);
      DecValueFront(b);
      DecValueBelow(a[1..]);
      DecValueBelow(b[1..]);
      var p := Pow10(|a| - 1);
      if a[0] < b[0] {
        LeadingDigitDecides(DigitValue(a[0]), DigitValue(b[0]), DecValue(a[1..]), DecValue(b[1..]), p);
      } else if b[0] < a[0] {
        LeadingDigitDecides(DigitValue(b[0]), DigitValue(a[0]), DecValue(b[1..]), DecValue(a[1..]), p);
      } else {
        SameLengthOrder(a[1..], b[1..]);
      }
    }
  }

  /** A smaller leading digit makes a smaller number, whatever follows. */
  lemma LeadingDigitDecides(da: nat, db: nat, ra: nat, rb: nat, p: nat)
    requires da < db && ra < p
    ensures da * p + ra < db * p + rb
  {
    var k := db - da;
    MulDistrib(da, k, p);
    MulAtLeastOne(k, p);
  }

  lemma MulDistrib(x: nat, k: nat, p: nat)
    ensures (x + k) * p == x * p + k * p
  {
  }

  lemma MulAtLeastOne(k: nat, p: nat)
    requires k >= 1
    ensures k * p >= p
  {
    MulDistrib(1, k - 1, p);
  }

  /** For canonical naturals, numeric order is "shorter first, then string order". */
  lemma CanonicalOrder(a: string, b: string)
    requires IsCanonicalNat(a) && IsCanonicalNat(b)
    ensures DecValue(a) < DecValue(b) <==> |a| < |b| || (|a| == |b| && StrLt(a, b))
  {
    if |a| == |b| {
      SameLengthOrder(b, a);
    } else if |a| < |b| {
      DecValueBelow(a);
      DecValueAtLeast(b);
      PowMono(|a|, |b| - 1);
    } else {
      DecValueBelow(b);
      DecValueAtLeast(a);
      PowMono(|b|, |a| - 1);
    }
  }

  lemma {:induction false} PowMono(m: nat, n: nat)
    requires m <= n
    ensures Pow10(m) <= Pow10(n)
    decreases n
  {
    if m < n {
      PowMono(m, n - 1);
    }
  }
}
