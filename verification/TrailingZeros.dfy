/**
 Removing the trailing decimal zeros of a significand without a division: a word that is divisible
 by 10 or 100 is recognised, and divided, by multiplying it with the inverse of 5 or 25 modulo the
 word size and rotating; divisibility by 10^8 is read off the product with ceil(2^90 / 10^8).
 */
module TrailingZeros {
  import opened Decimal
  import opened Modular
  import opened WideArithmetic

  // A word size 2^k (k >= 2) together with the inverse of 5 modulo it.
  datatype Radix = Radix(word: nat, inverse: nat, carry: nat) {
    ghost predicate Valid() {
      && word >= 8 && word % 4 == 0
      && inverse < word
      && inverse * 5 == 1 + carry * word
    }

    // The inverse of 25, as the source computes it.
    function Inverse25(): nat
      requires word > 0
    {
      (inverse * inverse) % word
    }
  }

  const RADIX32: Radix := Radix(0x1_0000_0000, 0xcccc_cccd, 4)
  const RADIX64: Radix := Radix(0x1_0000_0000_0000_0000, 0xcccc_cccc_cccc_cccd, 4)

  // Rotation to the right by r bits, for p == 2^r: the low r bits become the high ones.
  function Rotr(n: nat, p: nat, word: nat): nat
    requires p > 0
  {
    n / p + (n % p) * (word / p)
  }

  lemma RadicesAreValid()
    ensures RADIX32.Valid() && RADIX64.Valid()
  {
  }

  lemma {:induction false} Inverse25Inverts(radix: Radix) returns (k: int)
    requires radix.Valid()
    ensures radix.Inverse25() * 25 == 1 + k * radix.word
  {
    var i, w, c := radix.inverse, radix.word, radix.carry;
    var q := (i * i) / w;
    assert i * i == q * w + radix.Inverse25();
    calc {
      (i * i) * 25;
      (i * 5) * (i * 5);
      (1 + c * w) * (1 + c * w);
      1 + c * w + (c * w) * (1 + c * w);
      { assert (c * w) * (1 + c * w) == (c * (1 + c * w)) * w; }
      1 + c * w + (c * (1 + c * w)) * w;
    }
    k := c + c * (1 + c * w) - q * 25;
    assert (q * w) * 25 == (q * 25) * w;
  }

  // m is n times the inverse of odd, modulo the word size, so m times odd is n.
  lemma {:induction false} TimesInverse(n: nat, odd: nat, inverse: nat, k: int, word: nat)
    requires 0 < word && n < word && inverse * odd == 1 + k * word
    ensures (((n * inverse) % word) * odd) % word == n
  {
    var q, m := (n * inverse) / word, (n * inverse) % word;
    assert n * inverse == q * word + m;
    calc {
      m * odd;
      (n * inverse - q * word) * odd;
      (n * inverse) * odd - (q * word) * odd;
      { assert (n * inverse) * odd == n * (inverse * odd); }
      { assert (q * word) * odd == (q * odd) * word; }
      n * (1 + k * word) - (q * odd) * word;
      { assert n * (k * word) == (n * k) * word; }
      n + (n * k) * word - (q * odd) * word;
      (n * k - q * odd) * word + n;
    }
    ModUnique(m * odd, n * k - q * odd, n, word);
  }

  // A multiple of odd is divided by it.
  lemma {:induction false} InverseDivides(j: nat, odd: nat, inverse: nat, k: int, word: nat)
    requires 0 < word && j < word && inverse * odd == 1 + k * word
    ensures ((j * odd) * inverse) % word == j
  {
    calc {
      (j * odd) * inverse;
      j * (odd * inverse);
      j * (1 + k * word);
      { assert j * (k * word) == (j * k) * word; }
      (j * k) * word + j;
    }
    ModUnique((j * odd) * inverse, j * k, j, word);
  }

  // q fits under the bound exactly if q times the divisor fits in a word.
  lemma {:induction false} UnderBound(q: nat, d: nat, word: nat)
    requires d > 0 && word > 0
    ensures q <= (word - 1) / d <==> q * d < word
  {
    var b := (word - 1) / d;
    assert b * d <= word - 1 < b * d + d;
    if q <= b {
      assert q * d <= b * d;
    } else {
      assert q * d >= (b + 1) * d == b * d + d;
    }
  }

  // Rotating a word that is not a multiple of p brings a bit to the top, and the result is too big.
  lemma {:induction false} BitsAtTheTop(m: nat, p: nat, v: nat, odd: nat)
    requires p > 0 && v > 0 && odd >= 2 && m % p > 0
    ensures (m / p + (m % p) * v) * (odd * p) >= 2 * (v * p)
  {
    var t, q := m % p, m / p + (m % p) * v;
    TimesMonotone(v, 1, t);
    assert v * t == t * v && q >= v;
    TimesMonotone(odd * p, v, q);
    TimesMonotone(v * p, 2, odd);
    assert (odd * p) * v == (v * p) * odd;
    assert (odd * p) * q == q * (odd * p);
  }

  // A rotated word below the bound has lost no bits: it is a plain quotient.
  lemma {:induction false} SmallRotation(m: nat, p: nat, v: nat, word: nat, odd: nat)
    requires p > 0 && v > 0 && word == v * p && odd >= 2
    requires Rotr(m, p, word) * (odd * p) < word
    ensures m == Rotr(m, p, word) * p
  {
    ModUnique(word, v, 0, p);
    if m % p > 0 {
      BitsAtTheTop(m, p, v, odd);
    }
  }

  lemma {:induction false} RotationMeansMultiple(n: nat, m: nat, q: nat, odd: nat, p: nat, word: nat)
    requires word > 0 && (m * odd) % word == n && m == q * p && q * (odd * p) < word
    ensures n == q * (odd * p)
  {
    assert (q * p) * odd == q * (odd * p);
    ModUnique(m * odd, 0, m * odd, word);
  }

  lemma {:induction false} MultipleMeansRotation(j: nat, odd: nat, p: nat, v: nat, inverse: nat, k: int, word: nat)
    requires j * (odd * p) < word && word == v * p && v > 0 && p > 0 && odd >= 2
    requires inverse * odd == 1 + k * word
    ensures Rotr(((j * (odd * p)) * inverse) % word, p, word) == j
  {
    var x := j * p;
    assert j * (odd * p) == x * odd;
    assert x * odd >= x * 1;
    InverseDivides(x, odd, inverse, k, word);
    ModUnique(x, j, 0, p);
  }

  // The divisibility test by d == odd * p: it succeeds on exactly the multiples, with the quotient.
  lemma {:induction false} RotateTest(n: nat, odd: nat, p: nat, v: nat, d: nat, inverse: nat, k: int, word: nat)
    requires 0 < n < word && word == v * p && v > 0 && p > 0 && odd >= 2
    requires inverse * odd == 1 + k * word && odd * p == d > 0
    ensures Rotr((n * inverse) % word, p, word) <= (word - 1) / d <==> n % d == 0
    ensures n % d == 0 ==> Rotr((n * inverse) % word, p, word) == n / d
  {
    var m := (n * inverse) % word;
    var q := Rotr(m, p, word);
    UnderBound(q, d, word);
    if q * d < word {
      SmallRotation(m, p, v, word, odd);
      TimesInverse(n, odd, inverse, k, word);
      RotationMeansMultiple(n, m, q, odd, p, word);
      ModUnique(n, q, 0, d);
    } else {
      NoMultiple(n, odd, p, v, d, inverse, k, word);
    }
  }

  lemma {:induction false} NoMultiple(n: nat, odd: nat, p: nat, v: nat, d: nat, inverse: nat, k: int, word: nat)
    requires n < word && word == v * p && v > 0 && p > 0 && odd >= 2
    requires inverse * odd == 1 + k * word && odd * p == d > 0
    ensures n % d == 0 ==> Rotr((n * inverse) % word, p, word) * d < word
  {
    if n % d == 0 {
      var j := n / d;
      assert n == j * d;
      MultipleMeansRotation(j, odd, p, v, inverse, k, word);
    }
  }

  ghost predicate Removed(n: nat, m: nat, zeros: nat) { n == m * Pow10(zeros) }

  // What is promised: n without its trailing zeros, and their number.
  ghost predicate Stripped(n: nat, m: nat, s: nat) {
    Removed(n, m, s) && m % 10 != 0
  }

  lemma {:induction false} StrippedIsUnique(n: nat, m: nat, s: nat, m': nat, s': nat)
    requires Stripped(n, m, s) && Stripped(n, m', s')
    ensures m == m' && s == s'
    decreases s + s'
  {
    StrippedStep(n, m, s);
    StrippedStep(n, m', s');
    if s > 0 && s' > 0 {
      StrippedIsUnique(n / 10, m, s - 1, m', s' - 1);
    }
  }

  lemma {:induction false} StrippedStep(n: nat, m: nat, s: nat)
    requires Stripped(n, m, s)
    ensures s == 0 <==> n % 10 != 0
    ensures s == 0 ==> n == m
    ensures s > 0 ==> Stripped(n / 10, m, s - 1)
  {
    if s > 0 {
      var rest := m * Pow10(s - 1);
      assert m * Pow10(s) == 10 * rest;
      ModUnique(n, rest, 0, 10);
    }
  }

  // s |= 1 for an even s.
  function SetLowBit(s: nat): (r: nat) {
    if s % 2 == 0 then s + 1 else s
  }

  lemma {:induction false} OneMore(n: nat, m: nat, zeros: nat)
    requires Removed(n, m, zeros) && m % 10 == 0
    ensures Removed(n, m / 10, zeros + 1)
    ensures (m / 10) % 10 == 0 <==> m % 100 == 0
  {
    var k := m / 10;
    assert m == 10 * k;
    MovedTen(k, Pow10(zeros));
    TensOfHundreds(m, k);
  }

  lemma MovedTen(k: nat, p: nat)
    ensures (10 * k) * p == k * (10 * p)
  {
  }

  lemma TensOfHundreds(m: nat, k: nat)
    requires m == 10 * k
    ensures k % 10 == 0 <==> m % 100 == 0
  {
  }

  lemma TensInHundreds(m: nat, k: nat)
    requires m == 100 * k
    ensures m % 10 == 0 && m / 10 == 10 * k && (m / 10) % 10 == 0 && (m / 10) / 10 == k
  {
  }

  lemma {:induction false} TwoMore(n: nat, m: nat, zeros: nat)
    requires Removed(n, m, zeros) && m % 100 == 0
    ensures Removed(n, m / 100, zeros + 2)
  {
    TensInHundreds(m, m / 100);
    OneMore(n, m, zeros);
    OneMore(n, m / 10, zeros + 1);
  }

  // Whether 100 divides n, and the quotient if so.
  method DivideBy100(n: nat, radix: Radix) returns (divides: bool, q: nat)
    requires radix.Valid() && 0 < n < radix.word
    ensures divides <==> n % 100 == 0
    ensures divides ==> q == n / 100
  {
    ghost var k := Inverse25Inverts(radix);
    RotateTest(n, 25, 4, radix.word / 4, 100, radix.Inverse25(), k, radix.word);
    q := Rotr((n * radix.Inverse25()) % radix.word, 4, radix.word);
    divides := q <= (radix.word - 1) / 100;
  }

  method DivideBy10(n: nat, radix: Radix) returns (divides: bool, q: nat)
    requires radix.Valid() && 0 < n < radix.word
    ensures divides <==> n % 10 == 0
    ensures divides ==> q == n / 10
  {
    RotateTest(n, 5, 2, radix.word / 2, 10, radix.inverse, radix.carry, radix.word);
    q := Rotr((n * radix.inverse) % radix.word, 2, radix.word);
    divides := q <= (radix.word - 1) / 10;
  }

  // The loop that the source has once for each width: two zeros at a time, then one. It counts
  // on from an even number of zeros already removed.
  method RemovePairsThenOne(n: nat, zeros: nat, radix: Radix) returns (m: nat, s: nat, ghost removed: nat)
    requires radix.Valid() && 0 < n < radix.word && zeros % 2 == 0
    ensures s == zeros + removed && Stripped(n, m, removed)
  {
    m, s := n, zeros;
    removed := 0;
    assert Removed(n, n, 0);
    var divides, q := DivideBy100(m, radix);
    while divides
      invariant 0 < m <= n && s == zeros + removed && s % 2 == 0
      invariant Removed(n, m, removed)
      invariant divides <==> m % 100 == 0
      invariant divides ==> q == m / 100
      decreases m
    {
      TwoMore(n, m, removed);
      m, s, removed := q, s + 2, removed + 2;
      divides, q := DivideBy100(m, radix);
    }
    divides, q := DivideBy10(m, radix);
    if divides {
      OneMore(n, m, removed);
      m, s, removed := q, SetLowBit(s), removed + 1;
    }
  }

  // binary32
  method RemoveTrailingZeros32(n: nat) returns (m: nat, s: nat)
    requires 0 < n < 0x1_0000_0000
    ensures Stripped(n, m, s)
  {
    RadicesAreValid();
    ghost var removed;
    m, s, removed := RemovePairsThenOne(n, 0, RADIX32);
  }

  // ceil(2^90 / 10^8), and the excess of 10^8 times it over 2^90.
  const MAGIC: nat := 12379400392853802749
  const EXCESS: nat := 875776

  lemma {:induction false} MagicTest(n: nat)
    requires n < 0x1_0000_0000_0000_0000
    ensures n * MAGIC / 0x400_0000_0000_0000_0000_0000 == n / 100_000_000
    ensures n * MAGIC % 0x400_0000_0000_0000_0000_0000 < MAGIC <==> n % 100_000_000 == 0
  {
    var q, r := n / 100_000_000, n % 100_000_000;
    assert n == q * 100_000_000 + r;
    assert q <= 184467440738;
    var rest := q * EXCESS + r * MAGIC;
    assert n * MAGIC == q * 0x400_0000_0000_0000_0000_0000 + rest by {
      assert (q * 100_000_000) * MAGIC == q * (100_000_000 * MAGIC);
      assert 100_000_000 * MAGIC == 0x400_0000_0000_0000_0000_0000 + EXCESS;
    }
    ModUnique(n * MAGIC, q, rest, 0x400_0000_0000_0000_0000_0000);
  }

  // The two halves of the 128-bit product carry the test: the low 26 bits of the upper half and
  // the lower half are the product modulo 2^90.
  lemma {:induction false} HalvesOfProduct(x: nat)
    requires x < 0x1_0000_0000_0000_0000_0000_0000_0000_0000
    ensures x / 0x1_0000_0000_0000_0000 / 0x400_0000 == x / 0x400_0000_0000_0000_0000_0000
    ensures (x / 0x1_0000_0000_0000_0000) % 0x400_0000 == 0 ==>
              x % 0x400_0000_0000_0000_0000_0000 == x % 0x1_0000_0000_0000_0000
    ensures (x / 0x1_0000_0000_0000_0000) % 0x400_0000 != 0 ==>
              x % 0x400_0000_0000_0000_0000_0000 >= 0x1_0000_0000_0000_0000
  {
  }

  // The test of the source, on the halves of the product.
  lemma {:induction false} TestByTenToTheEighth(n: nat, product: nat, high: nat, low: nat)
    requires n < 0x1_0000_0000_0000_0000 && product == n * MAGIC
    requires high == product / 0x1_0000_0000_0000_0000 && low == product % 0x1_0000_0000_0000_0000
    ensures high % 0x400_0000 == 0 && low < MAGIC <==> n % 100_000_000 == 0
    ensures high / 0x400_0000 == n / 100_000_000
  {
    MagicTest(n);
    assert product < 0x1_0000_0000_0000_0000_0000_0000_0000_0000;
    HalvesOfProduct(product);
  }

  lemma {:induction false} EightMore(n: nat, m: nat, s: nat)
    requires Stripped(n, m, s)
    ensures Stripped(100_000_000 * n, m, s + 8)
  {
    EightMoreTimes(m, s);
  }

  lemma QuotientIn32Bits(n: nat, n32: nat)
    requires 0 < n && n % 100_000_000 == 0 && n / 100_000_000 < 0x1_0000_0000
    requires n32 == (n / 100_000_000) % 0x1_0000_0000
    ensures 0 < n32 < 0x1_0000_0000 && n == 100_000_000 * n32
  {
  }

  // Whether 10^8 divides n, and the quotient rounded down.
  method DivideByTenToTheEighth(n: nat) returns (divides: bool, quotient: nat)
    requires n < 0x1_0000_0000_0000_0000
    ensures divides <==> n % 100_000_000 == 0
    ensures quotient == n / 100_000_000
  {
    var nm := Umul128(n, MAGIC);
    var high, low := nm.high, nm.low;
    WideHalves(nm);
    TestByTenToTheEighth(n, nm.Value(), high, low);
    divides := high % 0x400_0000 == 0 && low < MAGIC;
    quotient := high / 0x400_0000;
  }

  // binary64. The quotient by 10^8 is kept in 32 bits, which loses nothing below 2^32 * 10^8,
  // and in particular for the significands below 10^16 that occur.
  method RemoveTrailingZeros64(n: nat) returns (m: nat, s: nat)
    requires 0 < n < 0x1_0000_0000_0000_0000
    requires n % 100_000_000 == 0 ==> n / 100_000_000 < 0x1_0000_0000
    ensures Stripped(n, m, s)
  {
    RadicesAreValid();
    var divides, quotient := DivideByTenToTheEighth(n);
    if divides {
      var n32 := quotient % 0x1_0000_0000;
      QuotientIn32Bits(n, n32);
      ghost var removed;
      m, s, removed := RemovePairsThenOne(n32, 8, RADIX32);
      EightMore(n32, m, removed);
    } else {
      ghost var removed;
      m, s, removed := RemovePairsThenOne(n, 0, RADIX64);
    }
  }

  // Where the quotient does not fit 32 bits, whatever the zeros of the truncated quotient, adding
  // eight to them is not what is promised for n. (A quotient truncated to 0 has no end of zeros.)
  lemma {:induction false} TruncatedQuotient(n: nat, high: nat, m: nat, s: nat)
    requires n < 0x1_0000_0000_0000_0000 && high == n * MAGIC / 0x1_0000_0000_0000_0000
    requires n % 100_000_000 == 0 && n / 100_000_000 >= 0x1_0000_0000
    requires (high / 0x400_0000) % 0x1_0000_0000 == m * Pow10(s)
    ensures !Stripped(n, m, s + 8)
  {
    TestByTenToTheEighth(n, n * MAGIC, high, (n * MAGIC) % 0x1_0000_0000_0000_0000);
    if Stripped(n, m, s + 8) {
      EightMoreTimes(m, s);
    }
  }

  lemma {:induction false} EightMoreTimes(m: nat, s: nat)
    ensures m * Pow10(s + 8) == 100_000_000 * (m * Pow10(s))
  {
    Pow10Sum(s, 8);
    assert Pow10(8) == 100_000_000;
    assert m * (Pow10(s) * Pow10(8)) == (m * Pow10(s)) * Pow10(8);
  }
}
