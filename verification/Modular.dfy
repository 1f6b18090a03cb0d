// Remainders by a size that is not a literal, and powers of two as masks.
module Modular {
  import opened Words

  lemma {:induction false} SmallMultiple(k: int, m: int, s: int)
    requires k * m == s && -m < s < m
    ensures k == 0
  {
  }

  lemma TimesMonotone(d: nat, k: int, l: int)
    ensures k <= l ==> d * k <= d * l
  {
  }

  lemma MultipleOfMultiple(d: int, q: int, m: int, w: int)
    requires w == q * m
    ensures d * w == (d * q) * m
  {
  }

  lemma {:induction false} ModUnique(x: int, d: int, r: int, m: int)
    requires 0 <= r < m && x == d * m + r
    ensures x % m == r && x / m == d
  {
    var d', r' := x / m, x % m;
    assert x == d' * m + r';
    assert (d - d') * m == d * m - d' * m;
    SmallMultiple(d - d', m, r' - r);
  }

  lemma {:induction false} ModShift(x: int, q: int, m: int)
    requires m > 0
    ensures (x + q * m) % m == x % m
  {
    var d, r := x / m, x % m;
    assert x == d * m + r;
    assert (d + q) * m == d * m + q * m;
    ModUnique(x + q * m, d + q, r, m);
  }

  lemma {:induction false} ModInjective(a: int, b: int, m: int)
    requires m > 0 && a % m == b % m && -m < a - b < m
    ensures a == b
  {
    var d, d' := a / m, b / m;
    assert a == d * m + a % m && b == d' * m + b % m;
    assert (d - d') * m == d * m - d' * m;
    SmallMultiple(d - d', m, a - b);
  }

  lemma {:induction false} ModOfMod(a: int, b: int, m: int)
    requires m > 0
    ensures (a % m + b) % m == (a + b) % m
  {
    var d, r := a / m, a % m;
    assert a == d * m + r;
    ModShift(r + b, d, m);
  }

  ghost predicate PowerOfTwo(n: nat) {
    n == 1 || (n > 1 && n % 2 == 0 && PowerOfTwo(n / 2))
  }

  // Masking with size - 1, for a power of two.
  function Mask(x: nat, size: nat): nat
    requires size > 0
  {
    x % size
  }

  lemma {:induction false} PowerDivides(size: nat, w: nat) returns (q: nat)
    requires PowerOfTwo(size) && PowerOfTwo(w) && size <= w
    ensures w == q * size
    decreases w
  {
    if size == w {
      q := 1;
    } else if size == 1 {
      q := w;
    } else {
      q := PowerDivides(size / 2, w / 2);
      assert 2 * (q * (size / 2)) == q * (2 * (size / 2));
    }
  }

  lemma {:induction false} PowerProduct(a: nat, b: nat)
    requires PowerOfTwo(a) && PowerOfTwo(b)
    ensures PowerOfTwo(a * b)
  {
    if a > 1 {
      PowerProduct(a / 2, b);
      var c := (a / 2) * b;
      assert a * b == 2 * c by { assert 2 * ((a / 2) * b) == (2 * (a / 2)) * b; }
      assert c > 0 by { assert (a / 2) * b >= 1 * 1; }
      ModUnique(a * b, c, 0, 2);
    }
  }

  lemma WordIsPowerOfTwo()
    ensures PowerOfTwo(0x1_0000_0000_0000_0000)
  {
    PowerProduct(2, 2);
    PowerProduct(4, 4);
    PowerProduct(0x10, 0x10);
    PowerProduct(0x100, 0x100);
    PowerProduct(0x1_0000, 0x1_0000);
    PowerProduct(0x1_0000_0000, 0x1_0000_0000);
  }

  // Wrapping around the word range does not disturb a masked value.
  lemma {:induction false} MaskOfWord(x: int, size: nat)
    requires PowerOfTwo(size) && size <= 0x1_0000_0000_0000_0000
    ensures Mask(Word(x), size) == x % size
  {
    WordIsPowerOfTwo();
    var q := PowerDivides(size, 0x1_0000_0000_0000_0000);
    var d := x / 0x1_0000_0000_0000_0000;
    assert x == Word(x) + d * 0x1_0000_0000_0000_0000;
    assert d * 0x1_0000_0000_0000_0000 == (d * q) * size by {
      MultipleOfMultiple(d, q, size, 0x1_0000_0000_0000_0000);
    }
    ModShift(Word(x), d * q, size);
  }
}
