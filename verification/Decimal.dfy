/**
 What a printed number means: a digit, perhaps a point and more digits, then an exponent. The
 parser here knows nothing of how the text was produced.
 */
module Decimal {
  import opened Wrappers

  function Pow10(n: nat): (p: nat)
    ensures p > 0
  {
    if n == 0 then 1 else 10 * Pow10(n - 1)
  }

  function DigitChar(d: nat): char
    requires d < 10
  {
    '0' + d as char
  }

  predicate IsDigit(c: char) { '0' <= c <= '9' }

  function DigitOf(c: char): (d: nat)
    requires IsDigit(c)
    ensures d < 10
  {
    (c - '0') as nat
  }

  predicate AllDigits(t: string) { forall i :: 0 <= i < |t| ==> IsDigit(t[i]) }

  function Digits(t: string): nat
    requires AllDigits(t)
  {
    if t == [] then 0 else 10 * Digits(t[..|t| - 1]) + DigitOf(t[|t| - 1])
  }

  function Find(t: string, c: char): (i: nat)
    ensures i <= |t|
  {
    if t == [] || t[0] == c then 0 else 1 + Find(t[1..], c)
  }

  // The number mantissa * 10^exponent.
  datatype Number = Number(mantissa: nat, exponent: int)

  // d or d.ddd: the digits without the point, and how many of them are behind it.
  function ParseMantissa(t: string): Option<Number> {
    if |t| == 1 && IsDigit(t[0]) then Some(Number(DigitOf(t[0]), 0))
    else if |t| >= 3 && t[1] == '.' && AllDigits(t[..1] + t[2..]) then Some(Number(Digits(t[..1] + t[2..]), 2 - |t|))
    else None
  }

  function ParseExponent(t: string): Option<int> {
    if t != [] && t[0] == '-' then
      if |t| > 1 && AllDigits(t[1..]) then Some(0 - Digits(t[1..])) else None
    else
      if t != [] && AllDigits(t) then Some(Digits(t)) else None
  }

  function Parse(t: string): Option<Number> {
    var e := Find(t, 'E');
    if e == |t| then None else
      match (ParseMantissa(t[..e]), ParseExponent(t[e + 1..]))
      case (Some(n), Some(x)) => Some(n.(exponent := n.exponent + x))
      case (_, _) => None
  }

  // The same number, with trailing zeros moved to the exponent.
  predicate Same(n: Number, significand: nat, exponent: int) {
    n.exponent >= exponent && significand == n.mantissa * Pow10(n.exponent - exponent)
  }

  lemma TimesTen(x: nat, y: nat)
    ensures x * (10 * y) == 10 * (x * y)
  {
  }

  lemma {:induction false} DigitsOfConcat(a: string, b: string)
    requires AllDigits(a) && AllDigits(b)
    ensures AllDigits(a + b) && Digits(a + b) == Digits(a) * Pow10(|b|) + Digits(b)
  {
    if b == [] {
      assert a + b == a;
    } else {
      var init, last := b[..|b| - 1], DigitOf(b[|b| - 1]);
      DigitsOfConcat(a, init);
      assert (a + b)[..|a + b| - 1] == a + init;
      TimesTen(Digits(a), Pow10(|init|));
      assert Pow10(|b|) == 10 * Pow10(|init|);
    }
  }

  lemma {:induction false} DigitsOfOne(d: nat)
    requires d < 10
    ensures IsDigit(DigitChar(d)) && DigitOf(DigitChar(d)) == d && Digits([DigitChar(d)]) == d
    ensures DigitChar(d) > '0' <==> d > 0
  {
    assert [DigitChar(d)][..0] == [];
  }

  lemma {:induction false} DigitsOfPair(n: nat)
    requires n < 100
    ensures Digits([DigitChar(n / 10), DigitChar(n % 10)]) == n
  {
    var pair := [DigitChar(n / 10), DigitChar(n % 10)];
    DigitsOfOne(n / 10);
    DigitsOfOne(n % 10);
    assert pair[..1] == [DigitChar(n / 10)];
  }

  lemma {:induction false} Pow10Sum(a: nat, b: nat)
    ensures Pow10(a + b) == Pow10(a) * Pow10(b)
  {
    if a > 0 {
      Pow10Sum(a - 1, b);
      assert Pow10(a + b) == 10 * (Pow10(a - 1) * Pow10(b));
    }
  }

  lemma {:induction false} FindFirst(a: string, c: char, b: string)
    requires c !in a
    ensures Find(a + [c] + b, c) == |a|
  {
    var t := a + [c] + b;
    if a != [] {
      assert t[1..] == a[1..] + [c] + b;
      FindFirst(a[1..], c, b);
    }
  }

  lemma {:induction false} MantissaHasNoE(t: string)
    requires ParseMantissa(t).Some?
    ensures 'E' !in t
  {
    forall i | 0 <= i < |t| ensures t[i] != 'E' {
      if |t| >= 3 && i != 1 {
        var digits := t[..1] + t[2..];
        assert t[i] == digits[if i == 0 then 0 else i - 1];
      }
    }
  }

  // A text put together from its parts parses to their meaning.
  lemma {:induction false} ParseOfParts(mantissa: string, exponent: string)
    requires ParseMantissa(mantissa).Some? && ParseExponent(exponent).Some?
    ensures Parse(mantissa + ['E'] + exponent)
      == Some(Number(ParseMantissa(mantissa).value.mantissa, ParseMantissa(mantissa).value.exponent + ParseExponent(exponent).value))
  {
    var t := mantissa + ['E'] + exponent;
    MantissaHasNoE(mantissa);
    FindFirst(mantissa, 'E', exponent);
    assert t[..|mantissa|] == mantissa && t[|mantissa| + 1..] == exponent;
  }

  // ---------------------------------------------------------------------------------------
  // Texts that are the only ones for their number
  // ---------------------------------------------------------------------------------------

  // The digits of a mantissa, without the point.
  function MantissaDigits(t: string): string
    requires ParseMantissa(t).Some?
  {
    if |t| == 1 then t else t[..1] + t[2..]
  }

  // No zero in front and none at the end.
  predicate NeatMantissa(t: string) { ParseMantissa(t).Some? && t[0] != '0' && t[|t| - 1] != '0' }

  // No zero in front, and so many digits.
  predicate WholeMantissa(t: string, digits: nat) {
    ParseMantissa(t).Some? && t[0] != '0' && |MantissaDigits(t)| == digits
  }

  // A zero, or no zero in front.
  predicate PlainExponent(t: string) { ParseExponent(t).Some? && (t == "0" || t[if t[0] == '-' then 1 else 0] != '0') }

  predicate Canonical(t: string) {
    var e := Find(t, 'E');
    e < |t| && NeatMantissa(t[..e]) && PlainExponent(t[e + 1..])
  }

  predicate Whole(t: string, digits: nat) {
    var e := Find(t, 'E');
    e < |t| && WholeMantissa(t[..e], digits) && PlainExponent(t[e + 1..])
  }

  predicate SameValue(a: Number, b: Number) {
    if a.exponent <= b.exponent then a.mantissa == b.mantissa * Pow10(b.exponent - a.exponent)
    else b.mantissa == a.mantissa * Pow10(a.exponent - b.exponent)
  }

  lemma {:induction false} DigitsBounds(t: string)
    requires AllDigits(t) && t != [] && t[0] != '0'
    ensures Pow10(|t| - 1) <= Digits(t) < Pow10(|t|)
  {
    var last := |t| - 1;
    if last > 0 {
      DigitsBounds(t[..last]);
    } else {
      assert t[..0] == [];
      assert Pow10(0) == 1 && Pow10(1) == 10;
    }
  }

  lemma {:induction false} SameDigits(a: string, b: string)
    requires AllDigits(a) && AllDigits(b) && |a| == |b| && Digits(a) == Digits(b)
    ensures a == b
  {
    if a != [] {
      var last := |a| - 1;
      assert DigitOf(a[last]) == DigitOf(b[last]);
      SameDigits(a[..last], b[..last]);
      assert a == a[..last] + [a[last]] && b == b[..last] + [b[last]];
    }
  }

  lemma {:induction false} Pow10Grows(a: nat, b: nat)
    requires a <= b
    ensures Pow10(a) <= Pow10(b)
  {
    if a < b {
      Pow10Grows(a, b - 1);
    }
  }

  // A number has one number of digits.
  lemma {:induction false} OneLength(n: nat, j: nat, k: nat)
    requires Pow10(j) <= n < Pow10(j + 1) && Pow10(k) <= n < Pow10(k + 1)
    ensures j == k
  {
    if j < k {
      Pow10Grows(j + 1, k);
    } else if k < j {
      Pow10Grows(k + 1, j);
    }
  }

  lemma {:induction false} SamePlainDigits(a: string, b: string)
    requires AllDigits(a) && AllDigits(b) && a != [] && b != [] && a[0] != '0' && b[0] != '0' && Digits(a) == Digits(b)
    ensures a == b
  {
    DigitsBounds(a);
    DigitsBounds(b);
    OneLength(Digits(a), |a| - 1, |b| - 1);
    SameDigits(a, b);
  }

  lemma {:induction false} PlainExponentIs(t: string)
    requires PlainExponent(t)
    ensures t == "0" ==> ParseExponent(t) == Some(0)
    ensures t != "0" && t[0] != '-' ==> AllDigits(t) && t[0] != '0' && ParseExponent(t) == Some(Digits(t)) && Digits(t) > 0
    ensures t != "0" && t[0] == '-' ==> AllDigits(t[1..]) && t[1..] != [] && t[1..][0] != '0'
    ensures t != "0" && t[0] == '-' ==> ParseExponent(t) == Some(0 - Digits(t[1..])) && Digits(t[1..]) > 0
  {
    if t == "0" {
      assert t[..0] == [];
    } else if t[0] == '-' {
      DigitsBounds(t[1..]);
    } else {
      DigitsBounds(t);
    }
  }

  lemma {:induction false} PlainExponentIsUnique(t: string, u: string)
    requires PlainExponent(t) && PlainExponent(u) && ParseExponent(t) == ParseExponent(u)
    ensures t == u
  {
    PlainExponentIs(t);
    PlainExponentIs(u);
    if t != "0" && u != "0" {
      if t[0] == '-' && u[0] == '-' {
        SamePlainDigits(t[1..], u[1..]);
        assert t == ['-'] + t[1..] && u == ['-'] + u[1..];
      } else if t[0] != '-' && u[0] != '-' {
        SamePlainDigits(t, u);
      }
    }
  }

  lemma {:induction false} MantissaIs(t: string)
    requires ParseMantissa(t).Some?
    ensures var d := MantissaDigits(t);
      && AllDigits(d) && d != [] && d[0] == t[0] && d[|d| - 1] == t[|t| - 1]
      && ParseMantissa(t).value == Number(Digits(d), 1 - |d|)
      && t == if |d| == 1 then d else d[..1] + ['.'] + d[1..]
  {
    if |t| == 1 {
      assert t[..0] == [];
    } else {
      var d := MantissaDigits(t);
      assert d[1..] == t[2..];
      assert t == t[..1] + ['.'] + t[2..];
    }
  }

  lemma {:induction false} TimesPow10Bounds(m: nat, k: nat, d: nat)
    requires Pow10(k) <= m < Pow10(k + 1)
    ensures Pow10(k + d) <= m * Pow10(d) < Pow10(k + d + 1)
  {
    Pow10Sum(k, d);
    Pow10Sum(k + 1, d);
    Between(Pow10(k), m, Pow10(k + 1), Pow10(d));
  }

  lemma Between(a: nat, m: nat, b: nat, p: nat)
    requires a <= m < b && p > 0
    ensures a * p <= m * p < b * p
  {
  }

  // Digit strings without a zero in front that stand for the same number, counted from its first
  // digit, have that digit at the same place, and one is the other with zeros behind it.
  lemma {:induction false} SamePlace(a: string, x: int, b: string, y: int)
    requires AllDigits(a) && AllDigits(b) && a != [] && b != [] && a[0] != '0' && b[0] != '0'
    requires x - |a| <= y - |b| && Digits(a) == Digits(b) * Pow10((y - |b|) - (x - |a|))
    ensures x == y && |b| <= |a| && Digits(a) == Digits(b) * Pow10(|a| - |b|)
  {
    DigitsBounds(a);
    DigitsBounds(b);
    var d := (y - |b|) - (x - |a|);
    TimesPow10Bounds(Digits(b), |b| - 1, d);
    OneLength(Digits(a), |a| - 1, |b| - 1 + d);
  }

  lemma {:induction false} ZerosBehind(a: string, b: string)
    requires AllDigits(a) && AllDigits(b) && |b| < |a| && Digits(a) == Digits(b) * Pow10(|a| - |b|)
    ensures a[|a| - 1] == '0'
  {
    TimesTen(Digits(b), Pow10(|a| - |b| - 1));
    assert Digits(a) % 10 == 0;
    assert DigitOf(a[|a| - 1]) == 0;
  }

  lemma {:induction false} SameMantissas(t: string, x: int, u: string, y: int)
    requires ParseMantissa(t).Some? && ParseMantissa(u).Some? && t[0] != '0' && u[0] != '0'
    requires (t[|t| - 1] != '0' && u[|u| - 1] != '0') || |MantissaDigits(t)| == |MantissaDigits(u)|
    requires var a, b := MantissaDigits(t), MantissaDigits(u);
      x - |a| <= y - |b| && Digits(a) == Digits(b) * Pow10((y - |b|) - (x - |a|))
    ensures t == u && x == y
  {
    MantissaIs(t);
    MantissaIs(u);
    var a, b := MantissaDigits(t), MantissaDigits(u);
    SamePlace(a, x, b, y);
    if |b| < |a| {
      ZerosBehind(a, b);
    } else {
      assert Pow10(0) == 1;
      SameDigits(a, b);
    }
  }

  function Meaning(mantissa: string, exponent: int): Number
    requires ParseMantissa(mantissa).Some?
  {
    Number(ParseMantissa(mantissa).value.mantissa, ParseMantissa(mantissa).value.exponent + exponent)
  }

  lemma {:induction false} MeaningsAreUnique(t: string, x: int, u: string, y: int)
    requires ParseMantissa(t).Some? && ParseMantissa(u).Some? && t[0] != '0' && u[0] != '0'
    requires (t[|t| - 1] != '0' && u[|u| - 1] != '0') || |MantissaDigits(t)| == |MantissaDigits(u)|
    requires SameValue(Meaning(t, x), Meaning(u, y))
    ensures t == u && x == y
  {
    MantissaIs(t);
    MantissaIs(u);
    if Meaning(t, x).exponent <= Meaning(u, y).exponent {
      SameMantissas(t, x, u, y);
    } else {
      SameMantissas(u, y, t, x);
    }
  }

  lemma {:induction false} TextsAreUnique(t: string, u: string, m: string, x: string, n: string, y: string)
    requires t == m + ['E'] + x && u == n + ['E'] + y
    requires ParseMantissa(m).Some? && ParseMantissa(n).Some? && m[0] != '0' && n[0] != '0'
    requires (m[|m| - 1] != '0' && n[|n| - 1] != '0') || |MantissaDigits(m)| == |MantissaDigits(n)|
    requires PlainExponent(x) && PlainExponent(y)
    requires SameValue(Meaning(m, ParseExponent(x).value), Meaning(n, ParseExponent(y).value))
    ensures t == u
  {
    MeaningsAreUnique(m, ParseExponent(x).value, n, ParseExponent(y).value);
    PlainExponentIsUnique(x, y);
  }

  lemma {:induction false} FindIs(t: string, c: char)
    requires Find(t, c) < |t|
    ensures t == t[..Find(t, c)] + [c] + t[Find(t, c) + 1..]
  {
    FindHits(t, c);
  }

  lemma {:induction false} FindHits(t: string, c: char)
    ensures Find(t, c) < |t| ==> t[Find(t, c)] == c
  {
    if t != [] && t[0] != c {
      FindHits(t[1..], c);
    }
  }

  lemma {:induction false} ParseIs(t: string, e: nat)
    requires Find(t, 'E') == e < |t| && ParseMantissa(t[..e]).Some? && ParseExponent(t[e + 1..]).Some?
    ensures Parse(t) == Some(Meaning(t[..e], ParseExponent(t[e + 1..]).value)) && t == t[..e] + ['E'] + t[e + 1..]
  {
    FindIs(t, 'E');
  }

  // Two canonical texts of the same number are the same text.
  lemma {:induction false} CanonicalIsUnique(t: string, u: string)
    requires Canonical(t) && Canonical(u) && Parse(t).Some? && Parse(u).Some? && SameValue(Parse(t).value, Parse(u).value)
    ensures t == u
  {
    var e, f := Find(t, 'E'), Find(u, 'E');
    ParseIs(t, e);
    ParseIs(u, f);
    TextsAreUnique(t, u, t[..e], t[e + 1..], u[..f], u[f + 1..]);
  }

  // So are two of the same number of digits.
  lemma {:induction false} WholeIsUnique(t: string, u: string, digits: nat)
    requires Whole(t, digits) && Whole(u, digits) && Parse(t).Some? && Parse(u).Some? && SameValue(Parse(t).value, Parse(u).value)
    ensures t == u
  {
    var e, f := Find(t, 'E'), Find(u, 'E');
    ParseIs(t, e);
    ParseIs(u, f);
    TextsAreUnique(t, u, t[..e], t[e + 1..], u[..f], u[f + 1..]);
  }

  lemma {:induction false} SameIsSameValue(a: Number, b: Number, significand: nat, exponent: int)
    requires Same(a, significand, exponent) && Same(b, significand, exponent)
    ensures SameValue(a, b)
  {
    if a.exponent <= b.exponent {
      CancelPow10(a.mantissa, b.mantissa, a.exponent - exponent, b.exponent - a.exponent);
    } else {
      CancelPow10(b.mantissa, a.mantissa, b.exponent - exponent, a.exponent - b.exponent);
    }
  }

  lemma {:induction false} CancelPow10(m: nat, n: nat, j: nat, k: nat)
    requires m * Pow10(j) == n * Pow10(j + k)
    ensures m == n * Pow10(k)
  {
    Pow10Sum(j, k);
    Cancel(m, n, Pow10(j), Pow10(k), Pow10(j + k));
  }

  lemma Cancel(m: nat, n: nat, p: nat, q: nat, pq: nat)
    requires p > 0 && pq == p * q && m * p == n * pq
    ensures m == n * q
  {
    assert n * (p * q) == (n * q) * p;
    assert (m - n * q) * p == 0;
  }
}
