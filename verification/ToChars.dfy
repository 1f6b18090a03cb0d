/**
 Printing a decimal significand and exponent as d.dddE[-]d. Digits are produced two at a time from
 a 32-bit fixed-point fraction, by multiplications only, and trailing zeros are noticed from the
 size of what remains of the fraction.
 */
module ToChars {
  import opened Wrappers
  import opened Decimal
  import opened Modular

  const TWO32: nat := 0x1_0000_0000

  function Radix100(i: nat): char { if i % 2 == 0 then DigitChar(i / 20 % 10) else DigitChar(i / 2 % 10) }

  function Radix100Head(i: nat): char {
    if i % 2 == 1 then '.' else if i < 20 then DigitChar(i / 2 % 10) else DigitChar(i / 20 % 10)
  }

  // "00" to "99", and the first digit of each with a point behind it.
  const RADIX_100_TABLE: seq<char> := seq(200, i requires 0 <= i < 200 => Radix100(i))
  const RADIX_100_HEAD_TABLE: seq<char> := seq(200, i requires 0 <= i < 200 => Radix100Head(i))

  // ---------------------------------------------------------------------------------------
  // Fixed-point arithmetic
  // ---------------------------------------------------------------------------------------

  // y / 2^32 is s / d, up to an error that no digit of s can notice.
  ghost predicate Scaled(y: nat, d: nat, s: nat, error: nat) {
    d > 0 && y * d == TWO32 * s + error && error < TWO32
  }

  lemma Regroup(a: int, b: int, x: int, d: int)
    ensures (a * b + x) * d == a * (b * d) + x * d
  {
  }

  lemma Monotone(a: int, b: int, d: nat)
    requires a <= b
    ensures a * d <= b * d
  {
  }

  // The digits in front of the point of the fraction, and the fraction that is left.
  lemma {:induction false} SplitScaled(y: nat, d: nat, s: nat, error: nat)
    requires Scaled(y, d, s, error)
    ensures y / TWO32 == s / d && Scaled(y % TWO32, d, s % d, error)
  {
    var q, f := y / TWO32, y % TWO32;
    Regroup(TWO32, q, f, d);
    var qd, fd := q * d, f * d;
    var r := s - qd;
    assert fd == TWO32 * r + error;
    Monotone(0, f, d);
    Monotone(f, TWO32 - 1, d);
    assert 0 <= r < d;
    ModUnique(s, q, r, d);
  }

  lemma {:induction false} NextPair(f: nat, d: nat, r: nat, error: nat)
    requires Scaled(f, 100 * d, r, error) && r < 100 * d
    ensures f * 100 / TWO32 == r / d < 100 && Scaled(f * 100 % TWO32, d, r % d, error)
  {
    assert (f * 100) * d == f * (100 * d);
    assert d > 0;
    SplitScaled(f * 100, d, r, error);
    var q := r / d;
    Monotone(100, if q > 100 then q else 100, d);
  }

  // What is left is small exactly if it is nothing.
  lemma {:induction false} RestIsZero(f: nat, d: nat, r: nat, error: nat)
    requires Scaled(f, d, r, error) && TWO32 % d != 0
    ensures f <= TWO32 / d <==> r == 0
  {
    var q := TWO32 / d;
    var qd := q * d;
    assert TWO32 == qd + TWO32 % d;
    if f <= q {
      Monotone(f, q, d);
    } else {
      Monotone(q + 1, f, d);
      assert (q + 1) * d == qd + d;
    }
  }

  // The magic numbers: each puts the point of s behind its first one or two digits.
  lemma {:induction false} Scale8(s: nat) returns (error: nat)
    requires 1_0000_0000 <= s < 10_0000_0000
    ensures Scaled(s * 1441151882 / 0x200_0000, 1_0000_0000, s, error)
  {
    var y := s * 1441151882 / 0x200_0000;
    error := y * 1_0000_0000 - TWO32 * s;
  }

  lemma {:induction false} Scale6(s: nat) returns (error: nat)
    requires 100_0000 <= s < 1_0000_0000
    ensures Scaled(s * 281474978 / 0x1_0000, 100_0000, s, error)
  {
    var y := s * 281474978 / 0x1_0000;
    error := y * 100_0000 - TWO32 * s;
  }

  // One more in the last place makes it right for small blocks as well.
  lemma {:induction false} Scale6Up(s: nat) returns (error: nat)
    requires s < 1_0000_0000
    ensures Scaled(s * 281474978 / 0x1_0000 + 1, 100_0000, s, error)
  {
    var y := s * 281474978 / 0x1_0000 + 1;
    error := y * 100_0000 - TWO32 * s;
  }

  lemma {:induction false} Scale4(s: nat) returns (error: nat)
    requires s < 100_0000
    ensures Scaled(s * 429497, 1_0000, s, error)
  {
    error := s * 429497 * 1_0000 - TWO32 * s;
  }

  lemma {:induction false} Scale2(s: nat) returns (error: nat)
    requires s < 1_0000
    ensures Scaled(s * 42949673, 100, s, error)
  {
    error := s * 42949673 * 100 - TWO32 * s;
  }

  // ---------------------------------------------------------------------------------------
  // Texts
  // ---------------------------------------------------------------------------------------

  function PairText(n: nat): string
    requires n < 100
  {
    [DigitChar(n / 10), DigitChar(n % 10)]
  }

  // The digits of r, out of `width` digits, with zeros at the end left out.
  ghost predicate TailText(t: string, r: nat, width: nat) {
    && AllDigits(t) && 0 < |t| <= width
    && Digits(t) * Pow10(width - |t|) == r
  }

  // d. or d.ddd with the digits of n.
  ghost predicate OpenText(t: string, n: nat) {
    && |t| >= 2 && t[1] == '.'
    && AllDigits(t[..1] + t[2..]) && Digits(t[..1] + t[2..]) == n
  }

  // A mantissa that, with `shift` added to its exponent, is the number s.
  ghost predicate PrintedAs(t: string, s: nat, shift: int) {
    match ParseMantissa(t)
    case Some(n) => Same(n.(exponent := n.exponent + shift), s, 0)
    case None => false
  }

  lemma {:induction false} PairIsDigits(n: nat)
    requires n < 100
    ensures AllDigits(PairText(n)) && Digits(PairText(n)) == n
    ensures Digits(PairText(n)[..1]) == n / 10
    ensures PairText(n)[1] > '0' <==> n % 10 > 0
  {
    DigitsOfPair(n);
    DigitsOfOne(n / 10);
    DigitsOfOne(n % 10);
    assert PairText(n)[..1] == [DigitChar(n / 10)];
  }

  // The last pair: its second digit is left out if it is a zero.
  lemma {:induction false} TailStops(n: nat, r: nat, width: nat)
    requires 0 < n < 100 && width >= 2 && r == n * Pow10(width - 2)
    ensures TailText(if PairText(n)[1] > '0' then PairText(n) else PairText(n)[..1], r, width)
    ensures PairText(n)[1] > '0' || PairText(n)[0] != '0'
  {
    PairIsDigits(n);
    if n % 10 == 0 {
      assert n == 10 * (n / 10);
      assert Pow10(width - 1) == 10 * Pow10(width - 2);
      assert (n / 10) * (10 * Pow10(width - 2)) == (10 * (n / 10)) * Pow10(width - 2);
    }
  }

  lemma {:induction false} TailGoesOn(t: string, n: nat, r: nat, width: nat)
    requires n < 100 && |t| >= 2 && t[..2] == PairText(n) && TailText(t[2..], r, width)
    ensures TailText(t, n * Pow10(width) + r, width + 2)
  {
    var rest := t[2..];
    assert t == PairText(n) + rest;
    PairIsDigits(n);
    DigitsOfConcat(PairText(n), rest);
    Pow10Sum(|rest|, width - |rest|);
    Regroup(n, Pow10(|rest|), Digits(rest), Pow10(width - |rest|));
  }

  // More digits behind an open mantissa.
  lemma {:induction false} OpenGoesOn(t: string, n: nat, more: string)
    requires OpenText(t, n) && AllDigits(more)
    ensures OpenText(t + more, n * Pow10(|more|) + Digits(more))
  {
    DigitsOfConcat(t[..1] + t[2..], more);
    assert (t + more)[..1] + (t + more)[2..] == t[..1] + t[2..] + more;
  }

  lemma {:induction false} OpenIsClosed(t: string, n: nat, tail: string, r: nat, width: nat)
    requires OpenText(t, n) && TailText(tail, r, width)
    ensures PrintedAs(t + tail, n * Pow10(width) + r, |t| - 2 + width)
  {
    OpenGoesOn(t, n, tail);
    Pow10Sum(|tail|, width - |tail|);
    Regroup(n, Pow10(|tail|), Digits(tail), Pow10(width - |tail|));
  }

  // How many digits s has behind its first one: what printing adds to the exponent.
  function Magnitude(s: nat): nat { if s < 10 then 0 else 1 + Magnitude(s / 10) }

  lemma {:induction false} MagnitudeIs(s: nat, k: nat)
    requires Pow10(k) <= s < Pow10(k + 1)
    ensures Magnitude(s) == k
  {
    if k > 0 {
      MagnitudeIs(s / 10, k - 1);
    }
  }

  lemma {:induction false} MagnitudeOfTwo(s: nat, k: nat)
    requires Pow10(k) <= s < Pow10(k + 2)
    ensures Magnitude(s) == if s >= Pow10(k + 1) then k + 1 else k
  {
    if s >= Pow10(k + 1) {
      MagnitudeIs(s, k + 1);
    } else {
      MagnitudeIs(s, k);
    }
  }

  lemma {:induction false} MagnitudeBounds(s: nat)
    requires s > 0
    ensures Pow10(Magnitude(s)) <= s < Pow10(Magnitude(s) + 1)
  {
    if s >= 10 {
      MagnitudeBounds(s / 10);
    }
  }

  lemma {:induction false} MagnitudeOfBlocks(first: nat, second: nat)
    requires first > 0 && second < 1_0000_0000
    ensures Magnitude(first * 1_0000_0000 + second) == Magnitude(first) + 8
  {
    var k := Magnitude(first);
    MagnitudeBounds(first);
    Pow10Sum(k, 8);
    Pow10Sum(k + 1, 8);
    assert Pow10(8) == 1_0000_0000;
    MagnitudeIs(first * 1_0000_0000 + second, k + 8);
  }

  // ---------------------------------------------------------------------------------------
  // Writing digits
  // ---------------------------------------------------------------------------------------

  lemma TablesAreRight(n: nat)
    requires n < 100
    ensures RADIX_100_TABLE[2 * n] == DigitChar(n / 10) && RADIX_100_TABLE[2 * n + 1] == DigitChar(n % 10)
    ensures RADIX_100_HEAD_TABLE[2 * n] == DigitChar(if n < 10 then n else n / 10) && RADIX_100_HEAD_TABLE[2 * n + 1] == '.'
  {
    var i, j := 2 * n, 2 * n + 1;
    assert i % 2 == 0 && j % 2 == 1 && i / 20 == n / 10 && j / 2 == n && i / 2 == n;
    assert RADIX_100_TABLE[i] == Radix100(i) && RADIX_100_TABLE[j] == Radix100(j);
    assert RADIX_100_HEAD_TABLE[i] == Radix100Head(i) && RADIX_100_HEAD_TABLE[j] == Radix100Head(j);
  }

  method PutPair(buffer: array<char>, at: nat, twoDigits: nat)
    requires twoDigits < 100 && at + 2 <= buffer.Length
    modifies buffer
    ensures buffer[at..at + 2] == PairText(twoDigits)
    ensures buffer[..at] == old(buffer[..at])
  {
    TablesAreRight(twoDigits);
    buffer[at], buffer[at + 1] := RADIX_100_TABLE[twoDigits * 2], RADIX_100_TABLE[twoDigits * 2 + 1];
  }

  // The last two digits, without a zero at the end.
  method PrintTail2(buffer: array<char>, at: nat, fraction: nat, ghost r: nat, ghost error: nat) returns (end: nat)
    requires Scaled(fraction, 100, r, error) && 0 < r < 100 && at + 2 <= buffer.Length
    modifies buffer
    ensures at < end <= at + 2 && TailText(buffer[at..end], r, 2) && buffer[end - 1] != '0'
    ensures buffer[..at] == old(buffer[..at])
  {
    NextPair(fraction, 1, r, error);
    var prod := fraction * 100;
    var twoDigits := prod / TWO32;
    PutPair(buffer, at, twoDigits);
    end := at + 1 + if buffer[at + 1] > '0' then 1 else 0;
    TailStops(twoDigits, r, 2);
    assert buffer[at..end] == if buffer[at + 1] > '0' then PairText(twoDigits) else PairText(twoDigits)[..1];
  }

  // The last four digits, of which two are left out if they are zeros.
  method PrintTail4(buffer: array<char>, at: nat, fraction: nat, ghost r: nat, ghost error: nat) returns (end: nat)
    requires Scaled(fraction, 1_0000, r, error) && 0 < r < 1_0000 && at + 4 <= buffer.Length
    modifies buffer
    ensures at < end <= at + 4 && TailText(buffer[at..end], r, 4) && buffer[end - 1] != '0'
    ensures buffer[..at] == old(buffer[..at])
  {
    NextPair(fraction, 100, r, error);
    var prod := fraction * 100;
    var twoDigits := prod / TWO32;
    PutPair(buffer, at, twoDigits);
    RestIsZero(prod % TWO32, 100, r % 100, error);
    assert Pow10(2) == 100;
    if prod % TWO32 <= TWO32 / 100 {
      end := at + 1 + if buffer[at + 1] > '0' then 1 else 0;
      TailStops(twoDigits, r, 4);
      assert buffer[at..end] == if buffer[at + 1] > '0' then PairText(twoDigits) else PairText(twoDigits)[..1];
    } else {
      end := PrintTail2(buffer, at + 2, prod % TWO32, r % 100, error);
      assert buffer[at..end][..2] == buffer[..at + 2][at..];
      TailGoesOn(buffer[at..end], twoDigits, r % 100, 2);
    }
  }

  method PrintTail6(buffer: array<char>, at: nat, fraction: nat, ghost r: nat, ghost error: nat) returns (end: nat)
    requires Scaled(fraction, 100_0000, r, error) && 0 < r < 100_0000 && at + 6 <= buffer.Length
    modifies buffer
    ensures at < end <= at + 6 && TailText(buffer[at..end], r, 6) && buffer[end - 1] != '0'
    ensures buffer[..at] == old(buffer[..at])
  {
    NextPair(fraction, 1_0000, r, error);
    var prod := fraction * 100;
    var twoDigits := prod / TWO32;
    PutPair(buffer, at, twoDigits);
    RestIsZero(prod % TWO32, 1_0000, r % 1_0000, error);
    assert Pow10(2) == 100 && Pow10(4) == 1_0000;
    if prod % TWO32 <= TWO32 / 1_0000 {
      end := at + 1 + if buffer[at + 1] > '0' then 1 else 0;
      TailStops(twoDigits, r, 6);
      assert buffer[at..end] == if buffer[at + 1] > '0' then PairText(twoDigits) else PairText(twoDigits)[..1];
    } else {
      end := PrintTail4(buffer, at + 2, prod % TWO32, r % 1_0000, error);
      assert buffer[at..end][..2] == buffer[..at + 2][at..];
      TailGoesOn(buffer[at..end], twoDigits, r % 1_0000, 4);
    }
  }

  // ---------------------------------------------------------------------------------------
  // The first block
  // ---------------------------------------------------------------------------------------

  function HeadText(n: nat): string
    requires n < 100
  {
    if n < 10 then [DigitChar(n), '.'] else [DigitChar(n / 10), '.', DigitChar(n % 10)]
  }

  lemma {:induction false} HeadIsOpen(n: nat)
    requires n < 100
    ensures OpenText(HeadText(n), n)
  {
    var t := HeadText(n);
    if n < 10 {
      DigitsOfOne(n);
      assert t[..1] + t[2..] == [DigitChar(n)];
    } else {
      PairIsDigits(n);
      assert t[..1] + t[2..] == PairText(n);
    }
  }

  // Nothing but zeros comes behind the head.
  lemma {:induction false} HeadStops(n: nat, s: nat, width: nat)
    requires 0 < n < 100 && s == n * Pow10(width)
    ensures PrintedAs(if n >= 10 && n % 10 > 0 then HeadText(n) else HeadText(n)[..1], s, width + if n >= 10 then 1 else 0)
  {
    HeadIsOpen(n);
    if n >= 10 && n % 10 == 0 {
      DigitsOfOne(n / 10);
      assert Pow10(width + 1) == 10 * Pow10(width);
      assert (n / 10) * (10 * Pow10(width)) == (10 * (n / 10)) * Pow10(width);
    } else if n < 10 {
      DigitsOfOne(n);
    }
  }

  // The first digit, the point, and the second digit, which may be overwritten later.
  method WriteHead(buffer: array<char>, at: nat, twoDigits: nat)
    requires twoDigits < 100 && at + 3 <= buffer.Length
    modifies buffer
    ensures buffer[at + 2] == DigitChar(twoDigits % 10)
    ensures buffer[at..at + |HeadText(twoDigits)|] == HeadText(twoDigits)
    ensures buffer[..at] == old(buffer[..at])
  {
    TablesAreRight(twoDigits);
    buffer[at], buffer[at + 1] := RADIX_100_HEAD_TABLE[twoDigits * 2], RADIX_100_HEAD_TABLE[twoDigits * 2 + 1];
    buffer[at + 2] := RADIX_100_TABLE[twoDigits * 2 + 1];
  }

  // Where the text ends when only zeros are left.
  method HeadEnd(buffer: array<char>, at: nat, twoDigits: nat, ghost s: nat, ghost width: nat) returns (end: nat)
    requires 0 < twoDigits < 100 && at + 3 <= buffer.Length && s == twoDigits * Pow10(width)
    requires buffer[at + 2] == DigitChar(twoDigits % 10) && buffer[at..at + |HeadText(twoDigits)|] == HeadText(twoDigits)
    ensures at < end <= at + 3 && PrintedAs(buffer[at..end], s, width + if twoDigits >= 10 then 1 else 0)
    ensures buffer[end - 1] != '0'
  {
    end := at + 1 + if twoDigits >= 10 && buffer[at + 2] > '0' then 2 else 0;
    DigitsOfOne(twoDigits % 10);
    HeadStops(twoDigits, s, width);
    assert buffer[at..at + 1] == buffer[at..at + |HeadText(twoDigits)|][..1];
  }

  // What has been written in front of `q` is still there, and closes with what is behind it.
  lemma {:induction false} HeadAndTail(text: string, before: string, twoDigits: nat, s: nat, r: nat, width: nat)
    requires twoDigits < 100 && |HeadText(twoDigits)| < |text|
    requires before == HeadText(twoDigits) == text[..|HeadText(twoDigits)|]
    requires TailText(text[|HeadText(twoDigits)|..], r, width) && s == twoDigits * Pow10(width) + r
    ensures PrintedAs(text, s, width + if twoDigits >= 10 then 1 else 0)
  {
    var h := HeadText(twoDigits);
    HeadIsOpen(twoDigits);
    OpenIsClosed(h, twoDigits, text[|h|..], r, width);
    assert text == h + text[|h|..];
  }

  // The first one or two digits of s, in front of k more, and the fraction that stands for those.
  ghost predicate HeadIs(s: nat, k: nat, d: nat, twoDigits: nat, fraction: nat, error: nat) {
    && d == Pow10(k) && 0 < twoDigits < 100
    && s == twoDigits * d + s % d
    && Scaled(fraction, d, s % d, error)
    && (fraction <= TWO32 / d <==> s % d == 0)
    && Magnitude(s) == k + if twoDigits >= 10 then 1 else 0
  }

  lemma {:induction false} HeadOf(s: nat, k: nat, d: nat, prod: nat, error: nat)
    requires Pow10(k) == d <= s < Pow10(k + 2) == 100 * d && Pow10(k + 1) == 10 * d && TWO32 % d != 0
    requires Scaled(prod, d, s, error)
    ensures HeadIs(s, k, d, prod / TWO32, prod % TWO32, error)
  {
    SplitScaled(prod, d, s, error);
    RestIsZero(prod % TWO32, d, s % d, error);
    MagnitudeOfTwo(s, k);
    HeadBounds(s, s / d, d);
  }

  lemma {:induction false} HeadBounds(s: nat, q: nat, d: nat)
    requires 0 < d <= s < 100 * d && q == s / d
    ensures 0 < q < 100 && (q >= 10 <==> s >= 10 * d) && s == q * d + s % d
  {
    QuotientAtLeast(s, d, 1);
    QuotientAtLeast(s, d, 10);
    QuotientAtLeast(s, d, 100);
  }

  lemma {:induction false} QuotientAtLeast(s: nat, d: nat, n: nat)
    requires d > 0
    ensures s / d >= n <==> s >= n * d
  {
    var q := s / d;
    assert q * d <= s < q * d + d;
    if q >= n {
      Monotone(n, q, d);
    } else {
      Monotone(q + 1, n, d);
    }
  }

  // The one or two digits in front of six more.
  method Head7Or8(s32: nat) returns (twoDigits: nat, fraction: nat, ghost error: nat)
    requires 100_0000 <= s32 < 1_0000_0000
    ensures HeadIs(s32, 6, 100_0000, twoDigits, fraction, error)
  {
    assert Pow10(6) == 100_0000 && Pow10(7) == 1000_0000 && Pow10(8) == 1_0000_0000;
    error := Scale6(s32);
    var prod := s32 * 281474978 / 0x1_0000;
    HeadOf(s32, 6, 100_0000, prod, error);
    twoDigits, fraction := prod / TWO32, prod % TWO32;
  }

  // Those six, unless they are all zero.
  method PrintRest6(buffer: array<char>, at: nat, twoDigits: nat, fraction: nat, ghost s: nat, ghost error: nat) returns (end: nat)
    requires HeadIs(s, 6, 100_0000, twoDigits, fraction, error) && at + 9 <= buffer.Length
    requires buffer[at + 2] == DigitChar(twoDigits % 10) && buffer[at..at + |HeadText(twoDigits)|] == HeadText(twoDigits)
    modifies buffer
    ensures at < end <= at + 9 && PrintedAs(buffer[at..end], s, 6 + if twoDigits >= 10 then 1 else 0) && buffer[end - 1] != '0'
    ensures buffer[..at] == old(buffer[..at])
  {
    if fraction <= TWO32 / 100_0000 {
      end := HeadEnd(buffer, at, twoDigits, s, 6);
    } else {
      var q := at + 2 + if twoDigits >= 10 then 1 else 0;
      end := PrintTail6(buffer, q, fraction, s % 100_0000, error);
      assert buffer[at..q] == buffer[..q][at..];
      HeadAndTail(buffer[at..end], buffer[at..q], twoDigits, s, s % 100_0000, 6);
    }
  }

  method Print7Or8Digits(buffer: array<char>, at: nat, s32: nat, exponent: int) returns (end: nat, exponent': int)
    requires 100_0000 <= s32 < 1_0000_0000 && at + 10 <= buffer.Length
    modifies buffer
    ensures exponent' == exponent + Magnitude(s32)
    ensures at < end <= at + 9 && PrintedAs(buffer[at..end], s32, exponent' - exponent) && buffer[end - 1] != '0'
    ensures buffer[..at] == old(buffer[..at])
  {
    var twoDigits, fraction;
    ghost var error;
    twoDigits, fraction, error := Head7Or8(s32);
    exponent' := exponent + 6 + if twoDigits >= 10 then 1 else 0;
    WriteHead(buffer, at, twoDigits);
    end := PrintRest6(buffer, at, twoDigits, fraction, s32, error);
  }

  method Head5Or6(s32: nat) returns (twoDigits: nat, fraction: nat, ghost error: nat)
    requires 1_0000 <= s32 < 100_0000
    ensures HeadIs(s32, 4, 1_0000, twoDigits, fraction, error)
  {
    assert Pow10(4) == 1_0000 && Pow10(5) == 10_0000 && Pow10(6) == 100_0000;
    error := Scale4(s32);
    var prod := s32 * 429497;
    HeadOf(s32, 4, 1_0000, prod, error);
    twoDigits, fraction := prod / TWO32, prod % TWO32;
  }

  method PrintRest4(buffer: array<char>, at: nat, twoDigits: nat, fraction: nat, ghost s: nat, ghost error: nat) returns (end: nat)
    requires HeadIs(s, 4, 1_0000, twoDigits, fraction, error) && at + 7 <= buffer.Length
    requires buffer[at + 2] == DigitChar(twoDigits % 10) && buffer[at..at + |HeadText(twoDigits)|] == HeadText(twoDigits)
    modifies buffer
    ensures at < end <= at + 7 && PrintedAs(buffer[at..end], s, 4 + if twoDigits >= 10 then 1 else 0) && buffer[end - 1] != '0'
    ensures buffer[..at] == old(buffer[..at])
  {
    if fraction <= TWO32 / 1_0000 {
      end := HeadEnd(buffer, at, twoDigits, s, 4);
    } else {
      var q := at + 2 + if twoDigits >= 10 then 1 else 0;
      end := PrintTail4(buffer, q, fraction, s % 1_0000, error);
      assert buffer[at..q] == buffer[..q][at..];
      HeadAndTail(buffer[at..end], buffer[at..q], twoDigits, s, s % 1_0000, 4);
    }
  }

  method Print5Or6Digits(buffer: array<char>, at: nat, s32: nat, exponent: int) returns (end: nat, exponent': int)
    requires 1_0000 <= s32 < 100_0000 && at + 10 <= buffer.Length
    modifies buffer
    ensures exponent' == exponent + Magnitude(s32)
    ensures at < end <= at + 7 && PrintedAs(buffer[at..end], s32, exponent' - exponent) && buffer[end - 1] != '0'
    ensures buffer[..at] == old(buffer[..at])
  {
    var twoDigits, fraction;
    ghost var error;
    twoDigits, fraction, error := Head5Or6(s32);
    exponent' := exponent + 4 + if twoDigits >= 10 then 1 else 0;
    WriteHead(buffer, at, twoDigits);
    end := PrintRest4(buffer, at, twoDigits, fraction, s32, error);
  }

  method Head3Or4(s32: nat) returns (twoDigits: nat, fraction: nat, ghost error: nat)
    requires 100 <= s32 < 1_0000
    ensures HeadIs(s32, 2, 100, twoDigits, fraction, error)
  {
    assert Pow10(2) == 100 && Pow10(3) == 1000 && Pow10(4) == 1_0000;
    error := Scale2(s32);
    var prod := s32 * 42949673;
    HeadOf(s32, 2, 100, prod, error);
    twoDigits, fraction := prod / TWO32, prod % TWO32;
  }

  method PrintRest2(buffer: array<char>, at: nat, twoDigits: nat, fraction: nat, ghost s: nat, ghost error: nat) returns (end: nat)
    requires HeadIs(s, 2, 100, twoDigits, fraction, error) && at + 5 <= buffer.Length
    requires buffer[at + 2] == DigitChar(twoDigits % 10) && buffer[at..at + |HeadText(twoDigits)|] == HeadText(twoDigits)
    modifies buffer
    ensures at < end <= at + 5 && PrintedAs(buffer[at..end], s, 2 + if twoDigits >= 10 then 1 else 0) && buffer[end - 1] != '0'
    ensures buffer[..at] == old(buffer[..at])
  {
    if fraction <= TWO32 / 100 {
      end := HeadEnd(buffer, at, twoDigits, s, 2);
    } else {
      var q := at + 2 + if twoDigits >= 10 then 1 else 0;
      end := PrintTail2(buffer, q, fraction, s % 100, error);
      assert buffer[at..q] == buffer[..q][at..];
      HeadAndTail(buffer[at..end], buffer[at..q], twoDigits, s, s % 100, 2);
    }
  }

  method Print3Or4Digits(buffer: array<char>, at: nat, s32: nat, exponent: int) returns (end: nat, exponent': int)
    requires 100 <= s32 < 1_0000 && at + 10 <= buffer.Length
    modifies buffer
    ensures exponent' == exponent + Magnitude(s32)
    ensures at < end <= at + 5 && PrintedAs(buffer[at..end], s32, exponent' - exponent) && buffer[end - 1] != '0'
    ensures buffer[..at] == old(buffer[..at])
  {
    var twoDigits, fraction;
    ghost var error;
    twoDigits, fraction, error := Head3Or4(s32);
    exponent' := exponent + 2 + if twoDigits >= 10 then 1 else 0;
    WriteHead(buffer, at, twoDigits);
    end := PrintRest2(buffer, at, twoDigits, fraction, s32, error);
  }

  method Print1Or2Digits(buffer: array<char>, at: nat, s32: nat, exponent: int) returns (end: nat, exponent': int)
    requires 0 < s32 < 100 && at + 10 <= buffer.Length
    modifies buffer
    ensures exponent' == exponent + Magnitude(s32)
    ensures at < end <= at + 3 && PrintedAs(buffer[at..end], s32, exponent' - exponent) && buffer[end - 1] != '0'
    ensures buffer[..at] == old(buffer[..at])
  {
    assert Pow10(0) == 1 && Pow10(1) == 10 && Pow10(2) == 100;
    MagnitudeOfTwo(s32, 0);
    exponent' := exponent + if s32 >= 10 then 1 else 0;
    WriteHead(buffer, at, s32);
    assert Pow10(0) == 1;
    end := HeadEnd(buffer, at, s32, s32, 0);
  }

  // Nine digits: one in front of the point, and four pairs.
  method WriteNineDigits(buffer: array<char>, at: nat, s32: nat)
    requires 1_0000_0000 <= s32 < 10_0000_0000 && at + 10 <= buffer.Length
    modifies buffer
    ensures OpenText(buffer[at..at + 10], s32)
    ensures buffer[..at] == old(buffer[..at])
  {
    ghost var error := Scale8(s32);
    var prod := s32 * 1441151882 / 0x200_0000;
    SplitScaled(prod, 1_0000_0000, s32, error);
    var digit := prod / TWO32;
    TablesAreRight(digit);
    buffer[at], buffer[at + 1] := RADIX_100_HEAD_TABLE[digit * 2], RADIX_100_HEAD_TABLE[digit * 2 + 1];
    ghost var r := s32 % 1_0000_0000;
    WritePairs8(buffer, at + 2, prod % TWO32, r, error);
    assert buffer[at..at + 10][..2] == buffer[..at + 2][at..];
    assert buffer[at..at + 10][2..] == buffer[at + 2..at + 10];
    NineDigits(buffer[at..at + 10], digit, r, s32);
  }

  lemma {:induction false} NineDigits(text: string, digit: nat, r: nat, s: nat)
    requires digit < 10 && |text| == 10 && text[..2] == HeadText(digit)
    requires AllDigits(text[2..]) && Digits(text[2..]) == r && s == digit * 1_0000_0000 + r
    ensures OpenText(text, s)
  {
    HeadIsOpen(digit);
    OpenGoesOn(HeadText(digit), digit, text[2..]);
    assert Pow10(8) == 1_0000_0000;
    assert text == HeadText(digit) + text[2..];
  }

  // A pair, and the digits of the rest behind it.
  lemma {:induction false} PairGoesOn(t: string, n: nat, r: nat, width: nat)
    requires n < 100 && |t| == width + 2 && t[..2] == PairText(n) && AllDigits(t[2..]) && Digits(t[2..]) == r
    ensures AllDigits(t) && Digits(t) == n * Pow10(width) + r
  {
    PairIsDigits(n);
    DigitsOfConcat(PairText(n), t[2..]);
    assert t == PairText(n) + t[2..];
  }

  // All the digits of the rest of a fraction.
  method WritePairs2(buffer: array<char>, at: nat, fraction: nat, ghost r: nat, ghost error: nat)
    requires Scaled(fraction, 100, r, error) && r < 100 && at + 2 <= buffer.Length
    modifies buffer
    ensures AllDigits(buffer[at..at + 2]) && Digits(buffer[at..at + 2]) == r
    ensures buffer[..at] == old(buffer[..at])
  {
    NextPair(fraction, 1, r, error);
    PutPair(buffer, at, fraction * 100 / TWO32);
    PairIsDigits(r);
  }

  method WritePairs4(buffer: array<char>, at: nat, fraction: nat, ghost r: nat, ghost error: nat)
    requires Scaled(fraction, 1_0000, r, error) && r < 1_0000 && at + 4 <= buffer.Length
    modifies buffer
    ensures AllDigits(buffer[at..at + 4]) && Digits(buffer[at..at + 4]) == r
    ensures buffer[..at] == old(buffer[..at])
  {
    NextPair(fraction, 100, r, error);
    var prod := fraction * 100;
    PutPair(buffer, at, prod / TWO32);
    WritePairs2(buffer, at + 2, prod % TWO32, r % 100, error);
    PairGoesOn(buffer[at..at + 4], prod / TWO32, r % 100, 2);
  }

  method WritePairs6(buffer: array<char>, at: nat, fraction: nat, ghost r: nat, ghost error: nat)
    requires Scaled(fraction, 100_0000, r, error) && r < 100_0000 && at + 6 <= buffer.Length
    modifies buffer
    ensures AllDigits(buffer[at..at + 6]) && Digits(buffer[at..at + 6]) == r
    ensures buffer[..at] == old(buffer[..at])
  {
    NextPair(fraction, 1_0000, r, error);
    var prod := fraction * 100;
    PutPair(buffer, at, prod / TWO32);
    WritePairs4(buffer, at + 2, prod % TWO32, r % 1_0000, error);
    PairGoesOn(buffer[at..at + 6], prod / TWO32, r % 1_0000, 4);
  }

  method WritePairs8(buffer: array<char>, at: nat, fraction: nat, ghost r: nat, ghost error: nat)
    requires Scaled(fraction, 1_0000_0000, r, error) && r < 1_0000_0000 && at + 8 <= buffer.Length
    modifies buffer
    ensures AllDigits(buffer[at..at + 8]) && Digits(buffer[at..at + 8]) == r
    ensures buffer[..at] == old(buffer[..at])
  {
    NextPair(fraction, 100_0000, r, error);
    var prod := fraction * 100;
    PutPair(buffer, at, prod / TWO32);
    WritePairs6(buffer, at + 2, prod % TWO32, r % 100_0000, error);
    PairGoesOn(buffer[at..at + 8], prod / TWO32, r % 100_0000, 6);
  }

  // The significand of at most nine digits, and the exponent of its first digit.
  method Print9Digits(buffer: array<char>, at: nat, s32: nat, exponent: int) returns (end: nat, exponent': int)
    requires 0 < s32 < 10_0000_0000 && at + 10 <= buffer.Length
    modifies buffer
    ensures exponent' == exponent + Magnitude(s32)
    ensures at < end <= at + 10 && PrintedAs(buffer[at..end], s32, exponent' - exponent)
    ensures if s32 >= 1_0000_0000 then end == at + 10 else buffer[end - 1] != '0'
    ensures buffer[..at] == old(buffer[..at])
  {
    if s32 >= 1_0000_0000 {
      WriteNineDigits(buffer, at, s32);
      assert Pow10(0) == 1;
      MagnitudeIs(s32, 8);
      return at + 10, exponent + 8;
    } else if s32 >= 100_0000 {
      end, exponent' := Print7Or8Digits(buffer, at, s32, exponent);
    } else if s32 >= 1_0000 {
      end, exponent' := Print5Or6Digits(buffer, at, s32, exponent);
    } else if s32 >= 100 {
      end, exponent' := Print3Or4Digits(buffer, at, s32, exponent);
    } else {
      end, exponent' := Print1Or2Digits(buffer, at, s32, exponent);
    }
  }

  // ---------------------------------------------------------------------------------------
  // The second block of a double
  // ---------------------------------------------------------------------------------------

  // A head with more digits behind it.
  lemma {:induction false} OpenHead(t: string, n: nat, r: nat, width: nat)
    requires n < 100 && |t| == |HeadText(n)| + width && t[..|HeadText(n)|] == HeadText(n)
    requires AllDigits(t[|HeadText(n)|..]) && Digits(t[|HeadText(n)|..]) == r
    ensures OpenText(t, n * Pow10(width) + r)
  {
    HeadIsOpen(n);
    OpenGoesOn(HeadText(n), n, t[|HeadText(n)|..]);
    assert t == HeadText(n) + t[|HeadText(n)|..];
  }

  method OpenSevenOrEight(buffer: array<char>, at: nat, block: nat, exponent: int) returns (end: nat, exponent': int)
    requires 100_0000 <= block < 1_0000_0000 && at + 10 <= buffer.Length
    modifies buffer
    ensures at + 2 <= end <= at + 10 && OpenText(buffer[at..end], block) && exponent' == exponent + Magnitude(block) == exponent + end - at - 2
    ensures buffer[..at] == old(buffer[..at])
  {
    assert Pow10(6) == 100_0000 && Pow10(7) == 1000_0000 && Pow10(8) == 1_0000_0000;
    MagnitudeOfTwo(block, 6);
    ghost var error := Scale6(block);
    var prod := block * 281474978 / 0x1_0000;
    SplitScaled(prod, 100_0000, block, error);
    var twoDigits := prod / TWO32;
    WriteHead(buffer, at, twoDigits);
    var shift := if twoDigits >= 10 then 1 else 0;
    WritePairs6(buffer, at + 2 + shift, prod % TWO32, block % 100_0000, error);
    assert buffer[at..at + 2 + shift] == buffer[..at + 2 + shift][at..];
    OpenHead(buffer[at..at + 2 + shift + 6], twoDigits, block % 100_0000, 6);
    assert Pow10(6) == 100_0000;
    return at + 2 + shift + 6, exponent + 6 + shift;
  }

  method OpenFiveOrSix(buffer: array<char>, at: nat, block: nat, exponent: int) returns (end: nat, exponent': int)
    requires 1_0000 <= block < 100_0000 && at + 10 <= buffer.Length
    modifies buffer
    ensures at + 2 <= end <= at + 10 && OpenText(buffer[at..end], block) && exponent' == exponent + Magnitude(block) == exponent + end - at - 2
    ensures buffer[..at] == old(buffer[..at])
  {
    assert Pow10(4) == 1_0000 && Pow10(5) == 10_0000 && Pow10(6) == 100_0000;
    MagnitudeOfTwo(block, 4);
    ghost var error := Scale4(block);
    var prod := block * 429497;
    SplitScaled(prod, 1_0000, block, error);
    var twoDigits := prod / TWO32;
    WriteHead(buffer, at, twoDigits);
    var shift := if twoDigits >= 10 then 1 else 0;
    WritePairs4(buffer, at + 2 + shift, prod % TWO32, block % 1_0000, error);
    assert buffer[at..at + 2 + shift] == buffer[..at + 2 + shift][at..];
    OpenHead(buffer[at..at + 2 + shift + 4], twoDigits, block % 1_0000, 4);
    assert Pow10(4) == 1_0000;
    return at + 2 + shift + 4, exponent + 4 + shift;
  }

  method OpenThreeOrFour(buffer: array<char>, at: nat, block: nat, exponent: int) returns (end: nat, exponent': int)
    requires 100 <= block < 1_0000 && at + 10 <= buffer.Length
    modifies buffer
    ensures at + 2 <= end <= at + 10 && OpenText(buffer[at..end], block) && exponent' == exponent + Magnitude(block) == exponent + end - at - 2
    ensures buffer[..at] == old(buffer[..at])
  {
    assert Pow10(2) == 100 && Pow10(3) == 1000 && Pow10(4) == 1_0000;
    MagnitudeOfTwo(block, 2);
    ghost var error := Scale2(block);
    var prod := block * 42949673;
    SplitScaled(prod, 100, block, error);
    var twoDigits := prod / TWO32;
    WriteHead(buffer, at, twoDigits);
    var shift := if twoDigits >= 10 then 1 else 0;
    WritePairs2(buffer, at + 2 + shift, prod % TWO32, block % 100, error);
    assert buffer[at..at + 2 + shift] == buffer[..at + 2 + shift][at..];
    OpenHead(buffer[at..at + 2 + shift + 2], twoDigits, block % 100, 2);
    assert Pow10(2) == 100;
    return at + 2 + shift + 2, exponent + 2 + shift;
  }

  method OpenOneOrTwo(buffer: array<char>, at: nat, block: nat, exponent: int) returns (end: nat, exponent': int)
    requires 0 < block < 100 && at + 10 <= buffer.Length
    modifies buffer
    ensures at + 2 <= end <= at + 10 && OpenText(buffer[at..end], block) && exponent' == exponent + Magnitude(block) == exponent + end - at - 2
    ensures buffer[..at] == old(buffer[..at])
  {
    assert Pow10(0) == 1 && Pow10(1) == 10 && Pow10(2) == 100;
    MagnitudeOfTwo(block, 0);
    WriteHead(buffer, at, block);
    HeadIsOpen(block);
    return at + 2 + (if block >= 10 then 1 else 0), exponent + if block >= 10 then 1 else 0;
  }

  // The first block with all its zeros, when a second one follows.
  method PrintFirstBlock(buffer: array<char>, at: nat, block: nat, exponent: int) returns (end: nat, exponent': int)
    requires 0 < block < 1_0000_0000 && at + 10 <= buffer.Length
    modifies buffer
    ensures at + 2 <= end <= at + 10 && OpenText(buffer[at..end], block) && exponent' == exponent + Magnitude(block) == exponent + end - at - 2
    ensures buffer[..at] == old(buffer[..at])
  {
    if block >= 100_0000 {
      end, exponent' := OpenSevenOrEight(buffer, at, block, exponent);
    } else if block >= 1_0000 {
      end, exponent' := OpenFiveOrSix(buffer, at, block, exponent);
    } else if block >= 100 {
      end, exponent' := OpenThreeOrFour(buffer, at, block, exponent);
    } else {
      end, exponent' := OpenOneOrTwo(buffer, at, block, exponent);
    }
  }

  // The eight digits of the second block, without the zeros at the end.
  method PrintSecondBlock(buffer: array<char>, at: nat, block: nat) returns (end: nat)
    requires 0 < block < 1_0000_0000 && at + 8 <= buffer.Length
    modifies buffer
    ensures at < end <= at + 8 && TailText(buffer[at..end], block, 8) && buffer[end - 1] != '0'
    ensures buffer[..at] == old(buffer[..at])
  {
    ghost var error := Scale6Up(block);
    var prod := block * 281474978 / 0x1_0000 + 1;
    SplitScaled(prod, 100_0000, block, error);
    var twoDigits := prod / TWO32;
    PutPair(buffer, at, twoDigits);
    RestIsZero(prod % TWO32, 100_0000, block % 100_0000, error);
    assert Pow10(6) == 100_0000;
    if prod % TWO32 <= TWO32 / 100_0000 {
      end := at + 1 + if buffer[at + 1] > '0' then 1 else 0;
      TailStops(twoDigits, block, 8);
      assert buffer[at..end] == if buffer[at + 1] > '0' then PairText(twoDigits) else PairText(twoDigits)[..1];
    } else {
      end := PrintTail6(buffer, at + 2, prod % TWO32, block % 100_0000, error);
      assert buffer[at..end][..2] == buffer[..at + 2][at..];
      TailGoesOn(buffer[at..end], twoDigits, block % 100_0000, 6);
    }
  }

  // All eight digits of the second block.
  method WriteSecondBlock(buffer: array<char>, at: nat, block: nat)
    requires block < 1_0000_0000 && at + 8 <= buffer.Length
    modifies buffer
    ensures AllDigits(buffer[at..at + 8]) && Digits(buffer[at..at + 8]) == block
    ensures buffer[..at] == old(buffer[..at])
  {
    ghost var error := Scale6Up(block);
    var prod := block * 281474978 / 0x1_0000 + 1;
    SplitScaled(prod, 100_0000, block, error);
    PutPair(buffer, at, prod / TWO32);
    WritePairs6(buffer, at + 2, prod % TWO32, block % 100_0000, error);
    PairGoesOn(buffer[at..at + 8], prod / TWO32, block % 100_0000, 6);
    assert Pow10(6) == 100_0000;
  }

  // Both blocks.
  method PrintTwoBlocks(buffer: array<char>, at: nat, first: nat, second: nat, exponent: int) returns (end: nat, exponent': int)
    requires 0 < first < 10_0000_0000 && 0 < second < 1_0000_0000 && at + 18 <= buffer.Length
    modifies buffer
    ensures exponent' == exponent + Magnitude(first)
    ensures at < end <= at + 18 && PrintedAs(buffer[at..end], first * 1_0000_0000 + second, exponent' - exponent + 8)
    ensures if first >= 1_0000_0000 then end == at + 18 else buffer[end - 1] != '0'
    ensures buffer[..at] == old(buffer[..at])
  {
    var middle;
    middle, exponent' := OpenBlock(buffer, at, first, exponent);
    ghost var head := buffer[at..middle];
    end := CloseBlock(buffer, middle, second, first >= 1_0000_0000);
    assert head == buffer[..middle][at..];
    assert Pow10(8) == 1_0000_0000;
    OpenIsClosed(head, first, buffer[middle..end], second, 8);
    assert buffer[at..end] == head + buffer[middle..end];
  }

  // A first block of nine digits, or of fewer.
  method OpenBlock(buffer: array<char>, at: nat, block: nat, exponent: int) returns (end: nat, exponent': int)
    requires 0 < block < 10_0000_0000 && at + 10 <= buffer.Length
    modifies buffer
    ensures at + 2 <= end <= at + 10 && OpenText(buffer[at..end], block) && exponent' == exponent + Magnitude(block) == exponent + end - at - 2
    ensures block >= 1_0000_0000 ==> end == at + 10
    ensures buffer[..at] == old(buffer[..at])
  {
    if block >= 1_0000_0000 {
      WriteNineDigits(buffer, at, block);
      MagnitudeIs(block, 8);
      return at + 10, exponent + 8;
    }
    end, exponent' := PrintFirstBlock(buffer, at, block, exponent);
  }

  // The second block: behind nine digits there are no zeros to leave out.
  method CloseBlock(buffer: array<char>, at: nat, block: nat, whole: bool) returns (end: nat)
    requires 0 < block < 1_0000_0000 && at + 8 <= buffer.Length
    modifies buffer
    ensures at < end <= at + 8 && TailText(buffer[at..end], block, 8)
    ensures if whole then end == at + 8 else buffer[end - 1] != '0'
    ensures buffer[..at] == old(buffer[..at])
  {
    if whole {
      WriteSecondBlock(buffer, at, block);
      end := at + 8;
      assert Pow10(0) == 1;
    } else {
      end := PrintSecondBlock(buffer, at, block);
    }
  }

  // ---------------------------------------------------------------------------------------
  // The exponent
  // ---------------------------------------------------------------------------------------

  // Division by ten, and the remainder, with one multiplication each.
  lemma {:induction false} TensAndOnes(e: nat)
    requires e < 1000
    ensures e * 6554 / 0x1_0000 == e / 10 && e * 6554 % 0x1_0000 * 5 / 0x8000 == e % 10
  {
    var q, r := e / 10, e % 10;
    ModUnique(e * 6554, q, 4 * q + 6554 * r, 0x1_0000);
    ModUnique((4 * q + 6554 * r) * 5, r, 20 * q + 2 * r, 0x8000);
  }

  lemma {:induction false} DigitsOfThree(e: nat)
    requires 100 <= e < 1000
    ensures Digits(PairText(e / 10) + [DigitChar(e % 10)]) == e
  {
    PairIsDigits(e / 10);
    DigitsOfOne(e % 10);
    DigitsOfConcat(PairText(e / 10), [DigitChar(e % 10)]);
    assert Pow10(1) == 10;
  }

  // At most three digits.
  method PrintExponentDigits(buffer: array<char>, at: nat, e: nat) returns (end: nat)
    requires e < 1000 && at + (if e < 100 then 2 else 3) <= buffer.Length
    modifies buffer
    ensures at < end <= at + 3 && (e < 100 ==> end <= at + 2)
    ensures AllDigits(buffer[at..end]) && Digits(buffer[at..end]) == e
    ensures if e == 0 then buffer[at..end] == "0" else buffer[at] != '0'
    ensures buffer[..at] == old(buffer[..at])
  {
    if e >= 100 {
      TensAndOnes(e);
      var prod := e * 6554;
      var d1 := prod / 0x1_0000;
      prod := prod % 0x1_0000 * 5;
      var d2 := prod / 0x8000;
      PutPair(buffer, at, d1);
      buffer[at + 2] := DigitChar(d2);
      end := at + 3;
      DigitsOfThree(e);
      assert buffer[at..end] == PairText(d1) + [DigitChar(d2)];
    } else if e >= 10 {
      PutPair(buffer, at, e);
      end := at + 2;
      PairIsDigits(e);
    } else {
      buffer[at] := DigitChar(e);
      end := at + 1;
      DigitsOfOne(e);
      assert buffer[at..end] == [DigitChar(e)];
    }
  }

  lemma NegativeExponent(t: string)
    requires |t| >= 2 && t[0] == '-' && AllDigits(t[1..])
    ensures ParseExponent(t) == Some(0 - Digits(t[1..])) && (t[1] != '0' ==> PlainExponent(t))
  {
  }

  lemma PositiveExponent(t: string)
    requires t != [] && AllDigits(t)
    ensures ParseExponent(t) == Some(Digits(t)) && (t == "0" || t[0] != '0' ==> PlainExponent(t))
  {
    assert IsDigit(t[0]);
  }

  method PrintExponent(buffer: array<char>, at: nat, exponent: int) returns (end: nat)
    requires -1000 < exponent < 1000 && at + (if -100 < exponent < 100 then 4 else 5) <= buffer.Length
    modifies buffer
    ensures at + 2 <= end <= at + 5 && (-100 < exponent < 100 ==> end <= at + 4)
    ensures buffer[at] == 'E' && ParseExponent(buffer[at + 1..end]) == Some(exponent) && PlainExponent(buffer[at + 1..end])
    ensures buffer[..at] == old(buffer[..at])
  {
    buffer[at] := 'E';
    ghost var marked := buffer[..at + 1];
    if exponent < 0 {
      end := PrintNegative(buffer, at + 1, -exponent);
    } else {
      end := PrintExponentDigits(buffer, at + 1, exponent);
      PositiveExponent(buffer[at + 1..end]);
    }
    assert buffer[..at + 1] == marked && buffer[at] == marked[at];
  }

  method PrintNegative(buffer: array<char>, at: nat, e: nat) returns (end: nat)
    requires 0 < e < 1000 && at + (if e < 100 then 3 else 4) <= buffer.Length
    modifies buffer
    ensures at + 2 <= end <= at + 4 && (e < 100 ==> end <= at + 3)
    ensures ParseExponent(buffer[at..end]) == Some(0 - e) && PlainExponent(buffer[at..end])
    ensures buffer[..at] == old(buffer[..at])
  {
    buffer[at] := '-';
    ghost var signed := buffer[..at + 1];
    end := PrintExponentDigits(buffer, at + 1, e);
    assert buffer[..at + 1] == signed && buffer[at] == signed[at];
    assert buffer[at..end][1..] == buffer[at + 1..end];
    NegativeExponent(buffer[at..end]);
  }

  // ---------------------------------------------------------------------------------------
  // Whole numbers
  // ---------------------------------------------------------------------------------------

  // A mantissa that shifts the point behind its first digit has no zero there.
  lemma {:induction false} MantissaStarts(t: string, s: nat)
    requires PrintedAs(t, s, Magnitude(s)) && s > 0
    ensures t[0] != '0'
  {
    MantissaIs(t);
    MagnitudeBounds(s);
    var d := MantissaDigits(t);
    if d[0] == '0' {
      ZeroInFront(d);
      var k := Magnitude(s) + 1 - |d|;
      TimesBelow(Digits(d), |d| - 1, k);
    }
  }

  lemma {:induction false} ZeroInFront(d: string)
    requires AllDigits(d) && d != [] && d[0] == '0'
    ensures Digits(d) < Pow10(|d| - 1)
  {
    var last := |d| - 1;
    if last > 0 {
      ZeroInFront(d[..last]);
    } else {
      assert d[..0] == [];
    }
  }

  lemma {:induction false} TimesBelow(m: nat, j: nat, k: nat)
    requires m < Pow10(j)
    ensures m * Pow10(k) < Pow10(j + k)
  {
    Pow10Sum(j, k);
    Between(m, m, Pow10(j), Pow10(k));
  }

  lemma {:induction false} PartsAreCanonical(mantissa: string, exponent: string)
    requires ParseMantissa(mantissa).Some? && mantissa[0] != '0' && PlainExponent(exponent)
    ensures mantissa[|mantissa| - 1] != '0' ==> Canonical(mantissa + ['E'] + exponent)
    ensures |mantissa| >= 2 ==> Whole(mantissa + ['E'] + exponent, |mantissa| - 1)
  {
    var t := mantissa + ['E'] + exponent;
    MantissaHasNoE(mantissa);
    FindFirst(mantissa, 'E', exponent);
    assert t[..|mantissa|] == mantissa && t[|mantissa| + 1..] == exponent;
  }

  // A text with a mantissa of so many characters, of which this is the last one.
  predicate Neat(t: string, length: nat, last: char) {
    && (last != '0' ==> Canonical(t))
    && (length >= 2 ==> Whole(t, length - 1))
  }

  lemma {:induction false} PartsParse(t: string, mantissa: string, exponent: string, significand: nat, e: int, e': int)
    requires |mantissa| < |t| && t[..|mantissa|] == mantissa && t[|mantissa|] == 'E' && t[|mantissa| + 1..] == exponent
    requires PrintedAs(mantissa, significand, e' - e) && ParseExponent(exponent) == Some(e') && PlainExponent(exponent)
    requires significand > 0 && e' - e == Magnitude(significand)
    ensures Parse(t).Some? && Same(Parse(t).value, significand, e)
    ensures mantissa != [] && Neat(t, |mantissa|, mantissa[|mantissa| - 1])
  {
    assert t == mantissa + ['E'] + exponent;
    ParseOfParts(mantissa, exponent);
    MantissaStarts(mantissa, significand);
    PartsAreCanonical(mantissa, exponent);
  }

  // How the text of a number is written: it has no zero in front or at the end of its digits, unless
  // the first block has nine digits; then it has all the digits of its blocks.
  predicate WellWritten(t: string, significand: nat, limit: nat) {
    if significand < limit then Canonical(t) else Whole(t, WholeDigits(significand, limit))
  }

  function WholeDigits(significand: nat, limit: nat): nat {
    if limit == 1_0000_0000 || significand % 1_0000_0000 == 0 then 9 else 17
  }

  // The same of its mantissa.
  predicate Shaped(significand: nat, limit: nat, length: int, last: char) {
    if significand < limit then last != '0' else length == WholeDigits(significand, limit) + 1
  }

  // There is one such text.
  lemma {:induction false} OnlyText(t: string, u: string, significand: nat, exponent: int, limit: nat)
    requires Parse(t).Some? && Same(Parse(t).value, significand, exponent) && WellWritten(t, significand, limit)
    requires Parse(u).Some? && Same(Parse(u).value, significand, exponent) && WellWritten(u, significand, limit)
    ensures t == u
  {
    SameIsSameValue(Parse(t).value, Parse(u).value, significand, exponent);
    if significand < limit {
      CanonicalIsUnique(t, u);
    } else {
      WholeIsUnique(t, u, WholeDigits(significand, limit));
    }
  }

  lemma ShapedIsWell(t: string, significand: nat, limit: nat, length: nat, last: char)
    requires Neat(t, length, last) && Shaped(significand, limit, length, last)
    ensures WellWritten(t, significand, limit)
  {
  }

  // The exponent behind the mantissa completes the text.
  method Finish(buffer: array<char>, at: nat, middle: nat, significand: nat, exponent: int, printed: int, ghost limit: nat) returns (end: nat)
    requires at < middle && -1000 < printed < 1000 && middle + (if -100 < printed < 100 then 4 else 5) <= buffer.Length
    requires PrintedAs(buffer[at..middle], significand, printed - exponent)
    requires significand > 0 && printed - exponent == Magnitude(significand)
    requires Shaped(significand, limit, middle - at, buffer[middle - 1])
    modifies buffer
    ensures middle + 2 <= end <= middle + 5 && (-100 < printed < 100 ==> end <= middle + 4)
    ensures Parse(buffer[at..end]).Some? && Same(Parse(buffer[at..end]).value, significand, exponent)
    ensures WellWritten(buffer[at..end], significand, limit)
    ensures buffer[..at] == old(buffer[..at])
  {
    ghost var mantissa, before := buffer[at..middle], buffer[..middle];
    assert mantissa[|mantissa| - 1] == buffer[middle - 1] && before[at..] == mantissa;
    end := PrintExponent(buffer, middle, printed);
    ghost var text := buffer[at..end];
    assert text[..|mantissa|] == buffer[..middle][at..];
    assert text[|mantissa|] == 'E' && text[|mantissa| + 1..] == buffer[middle + 1..end];
    assert buffer[..at] == before[..at];
    FinishedText(text, mantissa, significand, exponent, printed, limit);
  }

  lemma {:induction false} FinishedText(t: string, mantissa: string, significand: nat, e: int, e': int, limit: nat)
    requires 0 < |mantissa| < |t| && t[..|mantissa|] == mantissa && t[|mantissa|] == 'E'
    requires ParseExponent(t[|mantissa| + 1..]) == Some(e') && PlainExponent(t[|mantissa| + 1..])
    requires PrintedAs(mantissa, significand, e' - e) && significand > 0 && e' - e == Magnitude(significand)
    requires Shaped(significand, limit, |mantissa|, mantissa[|mantissa| - 1])
    ensures Parse(t).Some? && Same(Parse(t).value, significand, e) && WellWritten(t, significand, limit)
  {
    PartsParse(t, mantissa, t[|mantissa| + 1..], significand, e, e');
    ShapedIsWell(t, significand, limit, |mantissa|, mantissa[|mantissa| - 1]);
  }

  // The significand of a binary64 number, and the exponent of its first digit.
  method PrintSignificand(buffer: array<char>, at: nat, significand: nat, exponent: int) returns (middle: nat, printed: int)
    requires 0 < significand < 10_0000_0000_0000_0000 && at + 18 <= buffer.Length
    modifies buffer
    ensures at < middle <= at + 18 && printed == exponent + Magnitude(significand)
    ensures PrintedAs(buffer[at..middle], significand, Magnitude(significand))
    ensures Shaped(significand, 1_0000_0000_0000_0000, middle - at, buffer[middle - 1])
    ensures buffer[..at] == old(buffer[..at])
  {
    if significand >= 1_0000_0000 {
      var firstBlock := significand / 1_0000_0000;
      var secondBlock := (significand % TWO32 - firstBlock * 1_0000_0000 % TWO32) % TWO32;
      SecondBlockIsRemainder(significand);
      MagnitudeOfBlocks(firstBlock, secondBlock);
      if secondBlock == 0 {
        middle, printed := Print9Digits(buffer, at, firstBlock, exponent + 8);
        FirstBlockIsPrinted(buffer[at..middle], significand, firstBlock, Magnitude(firstBlock));
      } else {
        middle, printed := PrintTwoBlocks(buffer, at, firstBlock, secondBlock, exponent + 8);
      }
    } else {
      middle, printed := Print9Digits(buffer, at, significand, exponent);
    }
  }

  // The characters for a binary64 significand and exponent. They parse back to the same number, and
  // no other text of the kind does.
  method ToCharsDouble(buffer: array<char>, at: nat, significand: nat, exponent: int) returns (end: nat)
    requires 0 < significand < 10_0000_0000_0000_0000 && -1000 < exponent + Magnitude(significand) < 1000
    requires at + 23 <= buffer.Length
    modifies buffer
    ensures at + 3 <= end <= at + 23
    ensures Parse(buffer[at..end]).Some? && Same(Parse(buffer[at..end]).value, significand, exponent)
    ensures WellWritten(buffer[at..end], significand, 1_0000_0000_0000_0000)
    ensures buffer[..at] == old(buffer[..at])
  {
    var middle, printed := PrintSignificand(buffer, at, significand, exponent);
    end := Finish(buffer, at, middle, significand, exponent, printed, 1_0000_0000_0000_0000);
  }

  lemma WrappedDifference(a: int, b: int)
    ensures (a % TWO32 - b % TWO32) % TWO32 == (a - b) % TWO32
  {
  }

  lemma {:induction false} SecondBlockIsRemainder(s: nat)
    ensures (s % TWO32 - s / 1_0000_0000 * 1_0000_0000 % TWO32) % TWO32 == s % 1_0000_0000
  {
    var d := s / 1_0000_0000 * 1_0000_0000;
    WrappedDifference(s, d);
  }

  lemma {:induction false} FirstBlockIsPrinted(t: string, s: nat, firstBlock: nat, shift: int)
    requires PrintedAs(t, firstBlock, shift) && s == firstBlock * 1_0000_0000
    ensures PrintedAs(t, s, shift + 8)
  {
    assert Pow10(8) == 1_0000_0000;
    PrintedMore(t, firstBlock, shift, 8);
  }

  lemma {:induction false} PrintedMore(t: string, s: nat, shift: int, width: nat)
    requires PrintedAs(t, s, shift)
    ensures PrintedAs(t, s * Pow10(width), shift + width)
  {
    var n := ParseMantissa(t).value;
    Pow10Sum(n.exponent + shift, width);
    Regroup(n.mantissa, Pow10(n.exponent + shift), 0, Pow10(width));
  }

  // The characters for a binary32 significand and exponent.
  method ToCharsFloat(buffer: array<char>, at: nat, significand: nat, exponent: int) returns (end: nat)
    requires 0 < significand < 10_0000_0000 && -100 < exponent + Magnitude(significand) < 100
    requires at + 14 <= buffer.Length
    modifies buffer
    ensures at + 3 <= end <= at + 14
    ensures Parse(buffer[at..end]).Some? && Same(Parse(buffer[at..end]).value, significand, exponent)
    ensures WellWritten(buffer[at..end], significand, 1_0000_0000)
    ensures buffer[..at] == old(buffer[..at])
  {
    var middle, printed := Print9Digits(buffer, at, significand, exponent);
    end := Finish(buffer, at, middle, significand, exponent, printed, 1_0000_0000);
  }

  // ---------------------------------------------------------------------------------------
  // Any double
  // ---------------------------------------------------------------------------------------

  // sign(1) + significand(17) + decimal_point(1) + exp_marker(1) + exp_sign(1) + exp(3)
  const MAX_OUTPUT_STRING_LENGTH: nat := 24

  datatype Value = Nonzero(significand: nat, exponent: int) | Zero | Infinite | NotANumber {
    predicate Printable() {
      Nonzero? ==> 0 < significand < 10_0000_0000_0000_0000 && -1000 < exponent + Magnitude(significand) < 1000
    }
  }

  // What the text without its sign has to be.
  predicate Shows(t: string, v: Value) {
    match v
    case Nonzero(significand, exponent) =>
      Parse(t).Some? && Same(Parse(t).value, significand, exponent) && WellWritten(t, significand, 1_0000_0000_0000_0000)
    case Zero => t == "0E0"
    case Infinite => t == "Infinity"
    case NotANumber => t == "NaN"
  }

  method WriteText(buffer: array<char>, at: nat, text: string) returns (end: nat)
    requires at + |text| <= buffer.Length
    modifies buffer
    ensures end == at + |text| && buffer[at..end] == text && buffer[..at] == old(buffer[..at])
  {
    for i := 0 to |text|
      invariant buffer[at..at + i] == text[..i] && buffer[..at] == old(buffer[..at])
    {
      buffer[at + i] := text[i];
    }
    end := at + |text|;
  }

  // A NaN has no sign; everything else shows it.
  method ToCharsN(buffer: array<char>, negative: bool, value: Value) returns (end: nat)
    requires value.Printable() && MAX_OUTPUT_STRING_LENGTH <= buffer.Length
    modifies buffer
    ensures 0 < end <= MAX_OUTPUT_STRING_LENGTH
    ensures if negative && value != NotANumber then buffer[0] == '-' && Shows(buffer[1..end], value) else Shows(buffer[..end], value)
  {
    if negative && value != NotANumber {
      buffer[0] := '-';
      end := WriteValue(buffer, 1, value);
      assert buffer[..1][0] == '-';
    } else {
      end := WriteValue(buffer, 0, value);
      assert buffer[..end] == buffer[0..end];
    }
  }

  method WriteValue(buffer: array<char>, at: nat, value: Value) returns (end: nat)
    requires value.Printable() && at + 23 <= buffer.Length
    modifies buffer
    ensures at < end <= at + 23 && Shows(buffer[at..end], value) && buffer[..at] == old(buffer[..at])
  {
    match value
    case Nonzero(significand, exponent) => end := ToCharsDouble(buffer, at, significand, exponent);
    case Zero => end := WriteText(buffer, at, "0E0");
    case Infinite => end := WriteText(buffer, at, "Infinity");
    case NotANumber => end := WriteText(buffer, at, "NaN");
  }
}
