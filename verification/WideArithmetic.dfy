/**
 The wide multiplications of the float printer, from 32-bit limbs, and its divisions by
 multiplication. Words are natural numbers below a power of two; every sum and product that the
 source computes in a word is reduced to it.
 */
module WideArithmetic {
  import opened Modular

  const W32: nat := 0x1_0000_0000
  const W64: nat := 0x1_0000_0000_0000_0000
  const W128: nat := 0x1_0000_0000_0000_0000_0000_0000_0000_0000

  type uint32 = x: nat | x < 0x1_0000_0000
  type uint64 = x: nat | x < 0x1_0000_0000_0000_0000

  function Low32(x: nat): uint32 { x % 0x1_0000_0000 }

  function High32(x: uint64): uint32 { x / 0x1_0000_0000 }

  function Low64(x: nat): uint64 { x % 0x1_0000_0000_0000_0000 }

  datatype Wide = Wide(high: uint64, low: uint64) {
    function Value(): nat { high * 0x1_0000_0000_0000_0000 + low }
  }

  lemma CarryIsSeen(high: uint64, low: uint64, n: uint64)
    ensures Low64(high + if Low64(low + n) < low then 1 else 0) * 0x1_0000_0000_0000_0000 + Low64(low + n)
            == (high * 0x1_0000_0000_0000_0000 + low + n) % W128
  {
  }

  // The 128-bit accumulator, with the portable addition of a word.
  class Uint128 {
    var high: uint64
    var low: uint64

    function Value(): nat
      reads this
    {
      high * 0x1_0000_0000_0000_0000 + low
    }

    constructor (high: uint64, low: uint64)
      ensures this.high == high && this.low == low
    {
      this.high, this.low := high, low;
    }

    // operator+=: it wraps around at 2^128 and nowhere else.
    method AddAssign(n: uint64)
      modifies this
      ensures Value() == (old(Value()) + n) % W128
    {
      var sum: uint64 := Low64(low + n);
      CarryIsSeen(high, low, n);
      high := Low64(high + if sum < low then 1 else 0);
      low := sum;
    }
  }

  lemma {:induction false} Product32(x: uint32, y: uint32)
    ensures x * y <= 0xFFFF_FFFE_0000_0001
  {
    TimesMonotone(x, y, 0xFFFF_FFFF);
    TimesMonotone(0xFFFF_FFFF, x, 0xFFFF_FFFF);
    assert x * 0xFFFF_FFFF == 0xFFFF_FFFF * x;
  }

  function Umul64(x: uint32, y: uint32): (r: uint64)
    ensures r == x * y
  {
    Product32(x, y);
    x * y
  }

  lemma {:induction false} WordProduct(x: nat, y: nat, w: nat)
    requires x < w && y < w
    ensures x * y <= (w - 1) * (w - 1)
  {
    TimesMonotone(x, y, w - 1);
    TimesMonotone(w - 1, x, w - 1);
    assert x * (w - 1) == (w - 1) * x;
  }

  // The product of two words by their halves.
  lemma {:induction false} ProductOfHalves(a: nat, b: nat, c: nat, d: nat, w: nat)
    ensures (a * w + b) * (c * w + d) == (a * c) * (w * w) + (a * d + b * c) * w + b * d
  {
    calc {
      (a * w + b) * (c * w + d);
      (a * w) * (c * w + d) + b * (c * w + d);
      { assert (a * w) * (c * w + d) == (a * w) * (c * w) + (a * w) * d; }
      { assert b * (c * w + d) == b * (c * w) + b * d; }
      (a * w) * (c * w) + (a * w) * d + b * (c * w) + b * d;
      { assert (a * w) * (c * w) == (a * c) * (w * w); }
      { assert (a * w) * d == (a * d) * w && b * (c * w) == (b * c) * w; }
      { assert (a * d + b * c) * w == (a * d) * w + (b * c) * w; }
      (a * c) * (w * w) + (a * d + b * c) * w + b * d;
    }
  }

  lemma {:induction false} LimbProducts(x: uint64, y: uint64)
    ensures (High32(x) * High32(y)) * 0x1_0000_0000_0000_0000
              + (High32(x) * Low32(y) + Low32(x) * High32(y)) * 0x1_0000_0000 + Low32(x) * Low32(y) == x * y
    ensures x * y < W128
  {
    WordProduct(x, y, 0x1_0000_0000_0000_0000);
    ProductOfHalves(High32(x), Low32(x), High32(y), Low32(y), 0x1_0000_0000);
    assert x == High32(x) * 0x1_0000_0000 + Low32(x);
    assert y == High32(y) * 0x1_0000_0000 + Low32(y);
  }

  function Intermediate(ad: uint64, bc: uint64, bd: uint64): (r: uint64) {
    High32(bd) + Low32(ad) + Low32(bc)
  }

  function UpperLimbs(ac: uint64, bc: uint64, ad: uint64, bd: uint64): uint64 {
    Low64(ac + High32(Intermediate(ad, bc, bd)) + High32(ad) + High32(bc))
  }

  function LowerLimbs(bc: uint64, ad: uint64, bd: uint64): uint64 {
    Low64(Low64(Intermediate(ad, bc, bd) * 0x1_0000_0000) + Low32(bd))
  }

  lemma CarriesSum(ac: nat, bc: uint64, ad: uint64, bd: uint64, m: uint64, product: nat)
    requires product == ac * 0x1_0000_0000_0000_0000 + (ad + bc) * 0x1_0000_0000 + bd
    requires m == High32(bd) + Low32(ad) + Low32(bc)
    ensures (ac + High32(m) + High32(ad) + High32(bc)) * 0x1_0000_0000_0000_0000
              + Low32(m) * 0x1_0000_0000 + Low32(bd) == product
  {
  }

  lemma ShiftedHalf(m: nat)
    ensures Low64(m * 0x1_0000_0000) == Low32(m) * 0x1_0000_0000
  {
  }

  // The limbs of a 128-bit number, put together with their carries; no sum leaves its word.
  lemma {:induction false} Carries(ac: uint64, bc: uint64, ad: uint64, bd: uint64, product: nat)
    requires product == ac * 0x1_0000_0000_0000_0000 + (ad + bc) * 0x1_0000_0000 + bd
    requires product < 0x1_0000_0000_0000_0000_0000_0000_0000_0000
    ensures UpperLimbs(ac, bc, ad, bd) * 0x1_0000_0000_0000_0000 + LowerLimbs(bc, ad, bd) == product
  {
    var m := Intermediate(ad, bc, bd);
    CarriesSum(ac, bc, ad, bd, m, product);
    ShiftedHalf(m);
    var high: nat := ac + High32(m) + High32(ad) + High32(bc);
    assert high * 0x1_0000_0000_0000_0000 <= product;
    assert UpperLimbs(ac, bc, ad, bd) == high;
    assert LowerLimbs(bc, ad, bd) == Low32(m) * 0x1_0000_0000 + Low32(bd);
  }

  // The exact 128-bit product.
  function Umul128(x: uint64, y: uint64): (r: Wide)
    ensures r.Value() == x * y
  {
    var a: uint32, b: uint32, c: uint32, d: uint32 := High32(x), Low32(x), High32(y), Low32(y);
    var ac, bc, ad, bd := Umul64(a, c), Umul64(b, c), Umul64(a, d), Umul64(b, d);
    LimbProducts(x, y);
    Carries(ac, bc, ad, bd, x * y);
    Wide(UpperLimbs(ac, bc, ad, bd), LowerLimbs(bc, ad, bd))
  }

  function Umul128Upper64(x: uint64, y: uint64): (r: uint64)
    ensures r == x * y / W64
  {
    var a: uint32, b: uint32, c: uint32, d: uint32 := High32(x), Low32(x), High32(y), Low32(y);
    var ac, bc, ad, bd := Umul64(a, c), Umul64(b, c), Umul64(a, d), Umul64(b, d);
    LimbProducts(x, y);
    Carries(ac, bc, ad, bd, x * y);
    UpperLimbs(ac, bc, ad, bd)
  }

  // ------------------------------------------------------------------ 192 and 96 bits

  lemma {:induction false} SplitFactor(x: uint64, y: Wide)
    ensures x * y.Value() == (x * y.high) * 0x1_0000_0000_0000_0000 + x * y.low
    ensures x * y.high <= (W64 - 1) * (W64 - 1) && x * y.low <= (W64 - 1) * (W64 - 1)
  {
    WordProduct(x, y.high, 0x1_0000_0000_0000_0000);
    WordProduct(x, y.low, 0x1_0000_0000_0000_0000);
    assert x * (y.high * 0x1_0000_0000_0000_0000) == (x * y.high) * 0x1_0000_0000_0000_0000;
  }

  lemma UpperOfSum(high: nat, low: nat)
    requires high <= (W64 - 1) * (W64 - 1) && low <= (W64 - 1) * (W64 - 1)
    ensures (high + low / W64) % W128 == (high * W64 + low) / W64
  {
  }

  lemma {:induction false} UpperProduct(x: uint64, y: Wide, upper: nat)
    requires upper == (x * y.high + x * y.low / W64) % W128
    ensures upper == x * y.Value() / W64
  {
    SplitFactor(x, y);
    UpperOfSum(x * y.high, x * y.low);
  }

  // The upper 128 of the 192 bits; nothing is carried out of them.
  method Umul192Upper128(x: uint64, y: Wide) returns (upper: Wide)
    ensures upper.Value() == x * y.Value() / W64
  {
    var p := Umul128(x, y.high);
    var carried := Umul128Upper64(x, y.low);
    var r := new Uint128(p.high, p.low);
    r.AddAssign(carried);
    upper := Wide(r.high, r.low);
    UpperProduct(x, y, upper.Value());
  }

  lemma {:induction false} LowerOfWide(high: nat, wh: uint64, wl: uint64)
    ensures Low64(Low64(high) + wh) * 0x1_0000_0000_0000_0000 + wl
            == (high * 0x1_0000_0000_0000_0000 + (wh * 0x1_0000_0000_0000_0000 + wl)) % W128
  {
    var q, v := (high + wh) / 0x1_0000_0000_0000_0000, (high + wh) % 0x1_0000_0000_0000_0000;
    assert Low64(Low64(high) + wh) == v;
    ModUnique(high * 0x1_0000_0000_0000_0000 + (wh * 0x1_0000_0000_0000_0000 + wl), q,
              v * 0x1_0000_0000_0000_0000 + wl, 0x1_0000_0000_0000_0000_0000_0000_0000_0000);
  }

  lemma WideHalves(w: Wide)
    ensures w.high == w.Value() / W64 && w.low == w.Value() % W64
  {
  }

  lemma {:induction false} LowerProduct(x: uint64, y: Wide, high: nat, p: Wide)
    requires high == x * y.high && p.Value() == x * y.low
    ensures Wide(Low64(Low64(high) + p.high), p.low).Value() == x * y.Value() % W128
  {
    SplitFactor(x, y);
    LowerOfWide(high, p.high, p.low);
    SameRemainder(x * y.Value(), high * 0x1_0000_0000_0000_0000 + (p.high * 0x1_0000_0000_0000_0000 + p.low));
  }

  lemma SameRemainder(a: nat, b: nat)
    requires a == b
    ensures a % W128 == b % 0x1_0000_0000_0000_0000_0000_0000_0000_0000
  {
  }

  // The lower 128 of the 192 bits.
  function Umul192Lower128(x: uint64, y: Wide): (lower: Wide)
    ensures lower.Value() == x * y.Value() % W128
  {
    var high: nat := x * y.high;
    var highLow := Umul128(x, y.low);
    LowerProduct(x, y, high, highLow);
    Wide(Low64(Low64(high) + highLow.high), highLow.low)
  }

  lemma SplitFactor32(x: uint32, y: uint64)
    ensures x * y == (x * High32(y)) * 0x1_0000_0000 + x * Low32(y)
  {
    assert y == High32(y) * 0x1_0000_0000 + Low32(y);
    assert x * (High32(y) * 0x1_0000_0000) == (x * High32(y)) * 0x1_0000_0000;
  }

  lemma UpperOf96(xyh: nat, xyl: uint64, product: nat)
    requires xyh <= 0xFFFF_FFFE_0000_0001 && product == xyh * 0x1_0000_0000 + xyl
    ensures Low64(xyh + High32(xyl)) == product / W32
  {
  }

  // The upper 64 of 96 bits.
  function Umul96Upper64(x: uint32, y: uint64): (r: uint64)
    ensures r == x * y / W32
  {
    var xyh, xyl := Umul64(x, High32(y)), Umul64(x, Low32(y));
    SplitFactor32(x, y);
    Product32(x, High32(y));
    UpperOf96(xyh, xyl, x * y);
    Low64(xyh + High32(xyl))
  }

  // The form taken where a 128-bit product is built in agrees with the portable one.
  lemma {:induction false} Umul96Forms(x: uint32, y: uint64)
    ensures Umul128Upper64(x * 0x1_0000_0000, y) == Umul96Upper64(x, y)
  {
    assert (x * 0x1_0000_0000) * y == (x * y) * 0x1_0000_0000;
  }

  function Umul96Lower64(x: uint32, y: uint64): uint64 { Low64(x * y) }

  // ------------------------------------------------------------------ compute_mul

  function Pow2(n: nat): (p: nat)
    ensures p > 0
  {
    if n == 0 then 1 else 2 * Pow2(n - 1)
  }

  lemma {:induction false} Pow2Sum(a: nat, b: nat)
    ensures Pow2(a + b) == Pow2(a) * Pow2(b)
  {
    if a > 0 {
      Pow2Sum(a - 1, b);
      assert Pow2(a + b) == 2 * (Pow2(a - 1) * Pow2(b));
    }
  }

  lemma {:induction false} Pow2Doubles(n: nat, p: nat)
    requires Pow2(n) == p
    ensures Pow2(n + n) == p * p
  {
    Pow2Sum(n, n);
  }

  lemma {:induction false} WordSizes(a: nat, b: nat)
    ensures a + b == 32 ==> Pow2(a) * Pow2(b) == W32
    ensures a + b == 64 ==> Pow2(a) * Pow2(b) == W64
  {
    var n := 8;
    assert Pow2(n) == 0x100;
    Pow2Doubles(n, 0x100);
    Pow2Doubles(n + n, 0x1_0000);
    Pow2Doubles(n + n + n + n, 0x1_0000_0000);
    Pow2Sum(a, b);
  }

  // The bits of x from the unit's place on, as many as size has values.
  function Bits(x: nat, unit: nat, size: nat): nat
    requires unit > 0 && size > 0
  {
    (x / unit) % size
  }

  datatype Mul = Mul(result: nat, isInteger: bool)
  datatype Parity = Parity(parity: bool, isInteger: bool)

  // binary32: the upper 32 bits of the 96-bit product, and whether the next 32 bits are 0.
  function ComputeMul32(u: uint32, cache: uint64): (r: Mul)
    ensures r.result == u * cache / W64
    ensures r.isInteger <==> Bits(u * cache, W32, W32) == 0
  {
    var r := Umul96Upper64(u, cache);
    QuotientOfProduct(u * cache, W32, W32);
    Mul(High32(r), Low32(r) == 0)
  }

  // binary64: the upper 64 bits of the 192-bit product, and whether the next 64 bits are 0.
  method ComputeMul64(u: uint64, cache: Wide) returns (r: Mul)
    ensures r.result == u * cache.Value() / W128
    ensures r.isInteger <==> Bits(u * cache.Value(), W64, W64) == 0
  {
    var w := Umul192Upper128(u, cache);
    WideHalves(w);
    QuotientOfProduct(u * cache.Value(), W64, W64);
    r := Mul(w.high, w.low == 0);
  }

  lemma {:induction false} QuotientOfSum(k: nat, y: nat, d: nat)
    requires d > 0
    ensures (k * d + y) / d == k + y / d
  {
    assert (k + y / d) * d == k * d + (y / d) * d;
    ModUnique(k * d + y, k + y / d, y % d, d);
  }

  lemma {:induction false} QuotientOfProduct(x: nat, a: nat, b: nat)
    requires a > 0 && b > 0 && a * b > 0
    ensures x / (a * b) == (x / a) / b
  {
    var q, r := x / a, x % a;
    var s, t := q / b, q % b;
    assert x == a * q + r && q == b * s + t;
    assert a * q == a * (b * s) + a * t;
    assert a * (b * s) == s * (a * b);
    TimesMonotone(a, t, b - 1);
    assert a * (b - 1) == a * b - a;
    ModUnique(x, s, a * t + r, a * b);
  }

  lemma Regroup(q: nat, unit: nat, size: nat, rest: nat)
    ensures q * (unit * (size * rest)) == ((q * rest) * size) * unit
  {
    assert q * (unit * (size * rest)) == (q * (size * rest)) * unit;
    assert q * (size * rest) == (q * rest) * size;
  }

  // Truncating to a word keeps the bits below.
  lemma {:induction false} TruncationKeepsBits(x: nat, word: nat, unit: nat, size: nat, rest: nat)
    requires unit > 0 && size > 0 && word > 0 && word == unit * (size * rest)
    ensures Bits(x % word, unit, size) == Bits(x, unit, size)
  {
    var q, y := x / word, x % word;
    var hi := q * rest;
    assert x == q * word + y;
    Regroup(q, unit, size, rest);
    QuotientOfSum(hi * size, y, unit);
    ModShift(y / unit, hi, size);
  }

  // binary32. The second shift is by 32 - beta, so beta is at most 32.
  function ComputeMulParity32(twoF: uint32, cache: uint64, beta: nat): (r: Parity)
    requires 1 <= beta <= 32
    ensures r.parity <==> Bits(twoF * cache, Pow2(64 - beta), 2) == 1
    ensures r.isInteger <==> Bits(twoF * cache, Pow2(32 - beta), W32) == 0
  {
    Parity32Bits(twoF * cache, beta);
    ParityOf32(Umul96Lower64(twoF, cache), beta)
  }

  function ParityOf32(r: nat, beta: nat): Parity
    requires 1 <= beta <= 32
  {
    Parity((r / Pow2(64 - beta)) % 2 != 0, Low32(r / Pow2(32 - beta)) == 0)
  }

  lemma {:induction false} Parity32Bits(x: nat, beta: nat)
    requires 1 <= beta <= 32
    ensures ParityOf32(Low64(x), beta).parity <==> Bits(x, Pow2(64 - beta), 2) == 1
    ensures ParityOf32(Low64(x), beta).isInteger <==> Bits(x, Pow2(32 - beta), W32) == 0
  {
    WordSizes(64 - beta, beta);
    TruncationKeepsBits(x, 0x1_0000_0000_0000_0000, Pow2(64 - beta), 2, Pow2(beta - 1));
    WordSizes(32 - beta, beta);
    WordTimes(Pow2(32 - beta), Pow2(beta));
    TruncationKeepsBits(x, 0x1_0000_0000_0000_0000, Pow2(32 - beta), W32, Pow2(beta));
  }

  lemma WordTimes(a: nat, b: nat)
    requires a * b == W32
    ensures a * (W32 * b) == W64
  {
    assert a * (W32 * b) == (a * b) * W32;
  }

  lemma {:induction false} StraddleParts(high: nat, b: nat, d: nat, lower: nat, w: nat)
    requires b > 0 && d > 0 && b * d == w && lower < b
    ensures (high * b + lower) % w == 0 <==> (high * b) % w == 0 && lower == 0
  {
    var q, r := high / d, high % d;
    assert high == d * q + r;
    assert b * high == b * (d * q) + b * r;
    assert b * (d * q) == q * w by {
      assert b * (d * q) == q * (b * d);
    }
    TimesMonotone(b, r, d - 1);
    assert b * (d - 1) == b * d - b;
    assert high * b == b * high;
    ModUnique(high * b, q, b * r, w);
    ModUnique(high * b + lower, q, b * r + lower, w);
  }

  lemma {:induction false} SmallQuotient(x: nat, b: nat, d: nat)
    requires b > 0 && d > 0 && x < b * d
    ensures x / d < b
  {
    assert (x / d) * d <= x;
    if x / d >= b {
      TimesMonotone(d, b, x / d);
    }
  }

  // The word that straddles the two halves of a wide number, beta bits into the upper one, taken
  // together from its two parts.
  lemma {:induction false} Straddle(high: uint64, low: uint64, b: nat, d: nat)
    requires b > 0 && d > 0 && b * d == W64
    ensures Bits(high * W64 + low, d, W64) == 0 <==> Low64(high * b) == 0 && low / d == 0
  {
    assert high * W64 == (high * b) * d;
    QuotientOfSum(high * b, low, d);
    SmallQuotient(low, b, d);
    StraddleParts(high, b, d, low / d, W64);
  }

  // binary64
  function ComputeMulParity64(twoF: uint64, cache: Wide, beta: nat): (r: Parity)
    requires 1 <= beta < 64
    ensures r.parity <==> Bits(twoF * cache.Value(), W64 * Pow2(64 - beta), 2) == 1
    ensures r.isInteger <==> Bits(twoF * cache.Value(), Pow2(64 - beta), W64) == 0
  {
    ParityBits(twoF * cache.Value(), Umul192Lower128(twoF, cache), beta);
    ParityOf(Umul192Lower128(twoF, cache), beta)
  }

  function ParityOf(r: Wide, beta: nat): Parity
    requires 1 <= beta < 64
  {
    Parity((r.high / Pow2(64 - beta)) % 2 != 0, Low64(r.high * Pow2(beta)) == 0 && r.low / Pow2(64 - beta) == 0)
  }

  lemma {:induction false} ParityBits(x: nat, r: Wide, beta: nat)
    requires 1 <= beta < 64 && r.Value() == x % W128
    ensures ParityOf(r, beta).parity <==> Bits(x, W64 * Pow2(64 - beta), 2) == 1
    ensures ParityOf(r, beta).isInteger <==> Bits(x, Pow2(64 - beta), W64) == 0
  {
    WordSizes(beta, 64 - beta);
    UpperBit(x, r, Pow2(beta - 1), Pow2(64 - beta));
    StraddlingBits(x, r, Pow2(beta), Pow2(64 - beta));
  }

  lemma {:induction false} UpperBit(x: nat, r: Wide, h: nat, d: nat)
    requires h > 0 && d > 0 && (2 * h) * d == W64 && r.Value() == x % W128
    ensures W64 * d > 0 && Bits(x, W64 * d, 2) == (r.high / d) % 2
  {
    assert (W64 * d) * (2 * h) == ((2 * h) * d) * W64;
    TruncationKeepsBits(x, W128, W64 * d, 2, h);
    QuotientOfProduct(r.Value(), W64, d);
    WideHalves(r);
  }

  lemma {:induction false} StraddlingBits(x: nat, r: Wide, b: nat, d: nat)
    requires b > 0 && d > 0 && b * d == W64 && r.Value() == x % W128
    ensures Bits(x, d, W64) == 0 <==> Low64(r.high * b) == 0 && r.low / d == 0
  {
    assert d * (W64 * b) == (b * d) * W64;
    TruncationKeepsBits(x, W128, d, W64, b);
    Straddle(r.high, r.low, b, d);
  }

  // ------------------------------------------------------------------ division by multiplication

  // Floor division by d as a multiplication with magic, and a division by scale: exact as long
  // as what is left over stays below scale; what is left over then tells divisibility.
  lemma {:induction false} Reciprocal(n: nat, d: nat, magic: nat, scale: nat, excess: nat)
    requires d > 0 && scale > 0 && magic * d == scale + excess
    ensures n / d * excess + n % d * magic < scale ==>
              n * magic / scale == n / d && n * magic % scale == n / d * excess + n % d * magic
  {
    var q, r := n / d, n % d;
    assert n * magic == q * scale + (q * excess + r * magic) by {
      assert (q * d + r) * magic == q * (magic * d) + r * magic;
      assert q * (scale + excess) == q * scale + q * excess;
    }
    if q * excess + r * magic < scale {
      ModUnique(n * magic, q, q * excess + r * magic, scale);
    }
  }

  // n / 100 for 32-bit n
  function DivideBy100(n: uint32): (q: uint32)
    ensures q == n / 100
  {
    Reciprocal(n, 100, 1374389535, 0x20_0000_0000, 28);
    (n * 1374389535 / 0x20_0000_0000) % 0x1_0000_0000
  }

  const LIMIT1000: nat := 15534100272597517998

  // n times the magic number, over 2^71, with quotient and remainder of n by 1000.
  lemma {:induction false} Scaled1000(n: nat, q: nat, r: nat)
    requires n == 1000 * q + r
    ensures n * 2361183241434822607 == q * 0x80_0000_0000_0000_0000 + (q * 152 + r * 2361183241434822607)
  {
  }

  // The multiplication divides a 64-bit n by 1000 exactly if n is within the limit or does not end
  // in 999; otherwise it is one too many. So the limit cannot be raised.
  lemma {:induction false} LimitIsSharp(n: uint64)
    ensures Umul128Upper64(n, 2361183241434822607) / 128 ==
            if n <= LIMIT1000 || n % 1000 != 999 then n / 1000 else n / 1000 + 1
  {
    var q, r := n / 1000, n % 1000;
    var rest := q * 152 + r * 2361183241434822607;
    var product := n * 2361183241434822607;
    Scaled1000(n, q, r);
    if n <= LIMIT1000 || r != 999 {
      RestIsSmall(n, q, r);
      ModUnique(product, q, rest, 0x80_0000_0000_0000_0000);
    } else {
      ModUnique(product, q + 1, rest - 0x80_0000_0000_0000_0000, 0x80_0000_0000_0000_0000);
    }
    QuotientOfProduct(product, 0x1_0000_0000_0000_0000, 128);
  }

  lemma RestIsSmall(n: uint64, q: nat, r: nat)
    requires n == 1000 * q + r && r < 1000 && (n <= 15534100272597517998 || r != 999)
    ensures q * 152 + r * 2361183241434822607 < 0x80_0000_0000_0000_0000
  {
  }

  // n / 1000 for 64-bit n <= nMax: by multiplication only if the largest n allows it.
  function DivideBy1000(n: uint64, nMax: uint64): (q: nat)
    requires n <= nMax
    ensures q == n / 1000
  {
    if nMax <= 15534100272597517998 then
      LimitIsSharp(n);
      Umul128Upper64(n, 2361183241434822607) / 128
    else
      n / 1000
  }

  // The magic numbers for small n, by the power of ten.
  datatype SmallDivisor = SmallDivisor(power: nat, magic: nat)

  const BY10: SmallDivisor := SmallDivisor(10, 6554)
  const BY100: SmallDivisor := SmallDivisor(100, 656)

  // In place, and exact up to the next power of ten.
  method CheckDivisibilityAndDivide(n: uint32, info: SmallDivisor) returns (divides: bool, q: uint32)
    requires info == BY10 || info == BY100
    requires n <= 10 * info.power
    ensures divides <==> n % info.power == 0
    ensures q == n / info.power
  {
    SmallReciprocal(n, info);
    var m := (n * info.magic) % 0x1_0000_0000;
    divides := m % 0x1_0000 < info.magic;
    q := m / 0x1_0000;
  }

  lemma {:induction false} SmallReciprocal(n: nat, info: SmallDivisor)
    requires info == BY10 || info == BY100
    requires n <= 10 * info.power
    ensures n * info.magic < 0x1_0000_0000
    ensures n * info.magic / 0x1_0000 == n / info.power
    ensures n * info.magic % 0x1_0000 < info.magic <==> n % info.power == 0
  {
    if info == BY10 {
      Reciprocal(n, 10, 6554, 0x1_0000, 4);
    } else {
      Reciprocal(n, 100, 656, 0x1_0000, 64);
    }
  }

  function SmallDivision(n: uint32, info: SmallDivisor): (q: uint32)
    requires info == BY10 || info == BY100
    requires n <= 10 * info.power
    ensures q == n / info.power
  {
    SmallReciprocal(n, info);
    ((n * info.magic) % 0x1_0000_0000) / 0x1_0000
  }
}
