/**
  Bit operations on unbounded naturals, as the queues use them: masking an index
  with a power of two minus one, and rounding a capacity up to a power of two by
  smearing its top bit downwards.
 */
module Bits {

  function Pow2(k: nat): (r: nat)
    ensures r >= 1
  {
    if k == 0 then 1 else 2 * Pow2(k - 1)
  }

  ghost predicate IsPow2(n: nat) {
    exists k: nat :: Pow2(k) == n
  }

  /** Bitwise and. */
  function And(x: nat, y: nat): nat {
    if x == 0 || y == 0 then 0 else 2 * And(x / 2, y / 2) + (if x % 2 == 1 && y % 2 == 1 then 1 else 0)
  }

  /** Bitwise or. */
  function Or(x: nat, y: nat): nat
    decreases x
  {
    if x == 0 then y
    else if y == 0 then x
    else 2 * Or(x / 2, y / 2) + (if x % 2 == 1 || y % 2 == 1 then 1 else 0)
  }

  /** Logical right shift. */
  function Shr(x: nat, k: nat): nat {
    if k == 0 then x else Shr(x / 2, k - 1)
  }

  lemma {:induction false} Pow2Add(a: nat, b: nat)
    ensures Pow2(a + b) == Pow2(a) * Pow2(b)
  {
    if a != 0 {
      Pow2Add(a - 1, b);
      assert Pow2(a) * Pow2(b) == 2 * (Pow2(a - 1) * Pow2(b));
    }
  }

  lemma {:induction false} Pow2Monotone(a: nat, b: nat)
    requires a <= b
    ensures Pow2(a) <= Pow2(b)
  {
    if a < b { Pow2Monotone(a, b - 1); }
  }

  lemma Pow2StrictlyMonotone(a: nat, b: nat)
    requires Pow2(a) < Pow2(b)
    ensures a < b
  {
    if b <= a { Pow2Monotone(b, a); }
  }

  lemma QuotientUnique(d: int, q: int, r: int, q': int, r': int)
    requires 0 <= r < d && 0 <= r' < d && q * d + r == q' * d + r'
    ensures q == q' && r == r'
  {
    assert (q' - q) * d == q' * d - q * d;
    assert (q - q') * d == q * d - q' * d;
    if q < q' {
      MulAtLeast(q' - q, d);
    } else if q' < q {
      MulAtLeast(q - q', d);
    }
  }

  lemma MulAtLeast(a: int, d: int)
    requires a >= 1 && d >= 0
    ensures a * d >= d
  {
    assert a * d == (a - 1) * d + d;
  }

  /** Quotient and remainder are determined by x == q * d + r. */
  lemma DivUnique(x: int, d: int, q: int, r: int)
    requires d > 0 && 0 <= r < d && x == q * d + r
    ensures x / d == q && x % d == r
  {
    var q', r' := x / d, x % d;
    assert x == q' * d + r';
    QuotientUnique(d, q, r, q', r');
  }

  /** Masking with 2^k - 1 is the remainder modulo 2^k. */
  lemma {:induction false} AndMask(x: nat, k: nat)
    ensures And(x, Pow2(k) - 1) == x % Pow2(k)
  {
    if x == 0 {
      DivUnique(0, Pow2(k), 0, 0);
    } else if k == 0 {
      DivUnique(x, 1, x, 0);
    } else {
      AndMask(x / 2, k - 1);
      assert (Pow2(k) - 1) / 2 == Pow2(k - 1) - 1 && (Pow2(k) - 1) % 2 == 1;
      ModDoubled(x, Pow2(k - 1));
    }
  }

  lemma ModDoubled(x: nat, m: nat)
    requires m >= 1
    ensures x % (2 * m) == 2 * ((x / 2) % m) + x % 2
  {
    var q, r := (x / 2) / m, (x / 2) % m;
    assert x == 2 * (q * m + r) + x % 2;
    assert 2 * (q * m) == q * (2 * m);
    DivUnique(x, 2 * m, q, 2 * r + x % 2);
  }

  /** Where the j-th element of a history lives in a ring of n places. */
  function Place(j: nat, n: nat): (k: nat)
    requires n > 0
    ensures k < n
  {
    j % n
  }

  lemma PlacesDiffer(i: nat, j: nat, n: nat)
    requires n > 0 && i < j < i + n
    ensures Place(i, n) != Place(j, n)
  {
    if i % n == j % n {
      assert j - i == (j / n) * n - (i / n) * n == (j / n - i / n) * n;
      QuotientUnique(n, 0, j - i, j / n - i / n, 0);
    }
  }

  lemma PlaceAgain(i: nat, n: nat)
    requires n > 0
    ensures Place(i + n, n) == Place(i, n)
  {
    var q, r := i / n, i % n;
    assert i + n == (q + 1) * n + r;
    DivUnique(i + n, n, q + 1, r);
  }

  /** A power-of-two ring index advances by one and wraps to zero. */
  lemma MaskedIncrement(x: nat, size: nat)
    requires IsPow2(size) && x < size
    ensures And(x + 1, size - 1) == if x + 1 == size then 0 else x + 1
  {
    var k: nat :| Pow2(k) == size;
    AndMask(x + 1, k);
    if x + 1 == size {
      DivUnique(x + 1, size, 1, 0);
    } else {
      DivUnique(x + 1, size, 0, x + 1);
    }
  }

  lemma ModOfMultiple(x: nat, a: nat, b: nat)
    requires a > 0 && b > 0
    ensures a * b > 0 && (x % (a * b)) % b == x % b
  {
    var w := a * b;
    var q, r := x / w, x % w;
    var q2, r2 := r / b, r % b;
    Regroup(q, a, b, q2, r2);
    DivUnique(x, b, q * a + q2, r2);
  }

  lemma Regroup(q: int, a: int, b: int, q2: int, r2: int)
    ensures q * (a * b) + (q2 * b + r2) == (q * a + q2) * b + r2
  {
  }

  /** A counter that wraps at 2^width still masks to the unbounded counter's remainder. */
  lemma WrappedIndex(x: nat, width: nat, k: nat)
    requires k <= width
    ensures And(x % Pow2(width), Pow2(k) - 1) == x % Pow2(k)
  {
    AndMask(x % Pow2(width), k);
    Pow2Add(width - k, k);
    ModOfMultiple(x, Pow2(width - k), Pow2(k));
  }

  lemma {:induction false} ShrShr(x: nat, a: nat, b: nat)
    ensures Shr(Shr(x, a), b) == Shr(x, a + b)
  {
    if a != 0 { ShrShr(x / 2, a - 1, b); }
  }

  lemma {:induction false} ShrZero(x: nat, k: nat)
    ensures Shr(x, k) == 0 <==> x < Pow2(k)
    ensures Shr(x, k) <= x
  {
    if k != 0 { ShrZero(x / 2, k - 1); }
  }

  lemma {:induction false} ShrOnes(m: nat, j: nat)
    requires j <= m
    ensures Shr(Pow2(m) - 1, j) == Pow2(m - j) - 1
  {
    if j != 0 {
      assert (Pow2(m) - 1) / 2 == Pow2(m - 1) - 1;
      ShrOnes(m - 1, j - 1);
    }
  }

  lemma {:induction false} ShrOr(x: nat, y: nat, k: nat)
    ensures Shr(Or(x, y), k) == Or(Shr(x, k), Shr(y, k))
    decreases k
  {
    if k != 0 {
      OrHalf(x, y);
      ShrOr(x / 2, y / 2, k - 1);
    }
  }

  lemma OrZero(x: nat)
    ensures Or(x, 0) == x
  {
  }

  lemma OrHalf(x: nat, y: nat)
    ensures Or(x, y) / 2 == Or(x / 2, y / 2)
  {
    OrZero(x / 2);
  }

  lemma {:induction false} OrLowOnes(x: nat, m: nat, q: nat)
    requires Shr(x, q) == Pow2(m) - 1
    ensures Or(x, Pow2(q) - 1) == Pow2(m + q) - 1
  {
    if q == 0 {
      OrZero(x);
    } else if x == 0 {
      ShrZero(0, q);
    } else {
      assert (Pow2(q) - 1) / 2 == Pow2(q - 1) - 1 && (Pow2(q) - 1) % 2 == 1;
      OrLowOnes(x / 2, m, q - 1);
    }
  }

  /** The top m of the h+1 significant bits of x are all ones. */
  ghost predicate TopOnes(x: nat, h: nat, m: nat) {
    m <= h + 1 && x < Pow2(h + 1) && Shr(x, h + 1 - m) == Pow2(m) - 1
  }

  /** One smearing step doubles the run of ones at the top. */
  lemma SmearStep(x: nat, h: nat, m: nat)
    requires TopOnes(x, h, m)
    ensures TopOnes(Or(x, Shr(x, m)), h, if 2 * m <= h + 1 then 2 * m else h + 1)
  {
    hide Shr, Or, Pow2;
    var m2 := if 2 * m <= h + 1 then 2 * m else h + 1;
    var d, q := h + 1 - m2, m2 - m;
    var a := Shr(x, d);
    ShrShr(x, m, d);
    ShrShr(x, d, m);
    ShrShr(x, d, q);
    assert Shr(a, q) == Pow2(m) - 1;
    ShrShr(a, q, m - q);
    ShrOnes(m, m - q);
    assert Shr(Shr(x, m), d) == Shr(a, m) == Pow2(q) - 1;
    ShrOr(x, Shr(x, m), d);
    OrLowOnes(a, m, q);
    ShrOr(x, Shr(x, m), h + 1);
    ShrZero(x, h + 1);
    ShrZero(x, m);
    ShrZero(Shr(x, m), h + 1);
    ShrZero(Or(x, Shr(x, m)), h + 1);
    OrZero(0);
  }

  /** The position of the most significant set bit. */
  lemma {:induction false} TopBit(x: nat) returns (h: nat)
    requires x >= 1
    ensures Pow2(h) <= x < Pow2(h + 1)
  {
    if x == 1 {
      h := 0;
      assert Pow2(1) == 2;
    } else {
      var g := TopBit(x / 2);
      h := g + 1;
      assert Pow2(h) == 2 * Pow2(g) && Pow2(h + 1) == 2 * Pow2(g + 1);
    }
  }

  lemma TopBitIsOne(x: nat, h: nat)
    requires Pow2(h) <= x < Pow2(h + 1)
    ensures TopOnes(x, h, 1)
  {
    ShrShr(x, h, 1);
    ShrZero(x, h);
    ShrZero(x, h + 1);
    assert Shr(Shr(x, h), 1) == Shr(x, h) / 2;
    assert Pow2(1) == 2;
  }

  const WORD_BITS: nat := 64

  /** The least power of two that is not below n. */
  ghost predicate IsLeastPow2AtLeast(p: nat, n: nat) {
    IsPow2(p) && n <= p && forall k: nat :: Pow2(k) >= n ==> p <= Pow2(k)
  }

  /** What smearing leaves: the full mask below the top bit of capacity - 1. */
  lemma SmearedMask(capacity: nat, start: nat, h: nat, mask: nat, width: nat)
    requires start == if capacity == 0 then Pow2(width) - 1 else capacity - 1
    requires capacity < Pow2(width)
    requires start == 0 ==> mask == 0
    requires start != 0 ==> Pow2(h) <= start < Pow2(h + 1) && mask == Pow2(h + 1) - 1
    ensures mask < Pow2(width) && IsPow2(mask + 1)
    ensures capacity == 0 ==> mask == Pow2(width) - 1
    ensures capacity >= 1 ==> IsLeastPow2AtLeast(mask + 1, capacity)
  {
    if start == 0 {
      assert Pow2(0) == 1;
    } else {
      assert Pow2(h + 1) == mask + 1;
      Pow2StrictlyMonotone(h, width);
      Pow2Monotone(h + 1, width);
      if capacity >= 1 {
        forall k: nat | Pow2(k) >= capacity ensures mask + 1 <= Pow2(k) {
          Pow2StrictlyMonotone(h, k);
          Pow2Monotone(h + 1, k);
        }
      } else if h + 1 < width {
        Pow2Monotone(h + 1, width - 1);
      }
    }
  }

  /**
    The capacity mask of the circular buffer, and the common part of the block
    queue's rounding: decrement (wrapping at 64 bits), then smear by 1, 2, 4 and by
    8, 16, 32 in the loop.
   */
  method RoundUpMask(capacity: nat) returns (mask: nat)
    requires capacity < Pow2(WORD_BITS)
    ensures capacity == 0 ==> mask == Pow2(WORD_BITS) - 1
    ensures capacity >= 1 ==> IsLeastPow2AtLeast(mask + 1, capacity)
    ensures mask < Pow2(WORD_BITS)
    ensures IsPow2(mask + 1)
  {
    var x: nat := if capacity == 0 then Pow2(WORD_BITS) - 1 else capacity - 1;
    ghost var h: nat := 0;
    if x != 0 {
      h := TopBit(x);
      Pow2StrictlyMonotone(h, WORD_BITS);
    }
    mask := Smear(x, h);
    SmearedMask(capacity, x, h, mask, WORD_BITS);
  }

  /** The top `reach` bits below bit h, or all of them, are ones. */
  ghost predicate Smeared(x: nat, h: nat, reach: nat) {
    x != 0 && TopOnes(x, h, if reach <= h + 1 then reach else h + 1)
  }

  lemma SmearDoubles(x: nat, h: nat, shift: nat)
    requires shift >= 1 && Smeared(x, h, shift)
    ensures Smeared(Or(x, Shr(x, shift)), h, 2 * shift)
  {
    if shift <= h + 1 {
      SmearStep(x, h, shift);
    } else {
      Pow2Monotone(h + 1, shift);
      ShrZero(x, shift);
      OrZero(x);
    }
    var m := if 2 * shift <= h + 1 then 2 * shift else h + 1;
    Pow2Monotone(1, m);
    assert Pow2(1) == 2;
    ShrZero(0, h + 1 - m);
  }

  /** The smearing sequence: shifts 1, 2, 4, then 8, 16, 32. */
  method Smear(start: nat, ghost h: nat) returns (x: nat)
    requires start != 0 ==> Pow2(h) <= start < Pow2(h + 1) && h < 64
    ensures start == 0 ==> x == 0
    ensures start != 0 ==> x == Pow2(h + 1) - 1
  {
    x := start;
    if start != 0 { TopBitIsOne(start, h); }
    x := SmearBy(x, 1, h);
    x := SmearBy(x, 2, h);
    x := SmearBy(x, 4, h);
    var i := 1;
    while i < 8
      invariant i == 1 || i == 2 || i == 4 || i == 8
      invariant start == 0 ==> x == 0
      invariant start != 0 ==> Smeared(x, h, i * 8)
      decreases 8 - i
    {
      x := SmearBy(x, i * 8, h);
      i := i * 2;
    }
  }

  /** x |= x >> shift. */
  method SmearBy(x: nat, shift: nat, ghost h: nat) returns (y: nat)
    requires shift >= 1
    requires x != 0 ==> Smeared(x, h, shift)
    ensures x == 0 ==> y == 0
    ensures x != 0 ==> Smeared(y, h, 2 * shift)
    ensures y == Or(x, Shr(x, shift))
  {
    y := Or(x, Shr(x, shift));
    if x != 0 {
      SmearDoubles(x, h, shift);
    } else {
      ShrZero(0, shift);
    }
  }

  lemma HalfWord()
    ensures Pow2(WORD_BITS) == 2 * Pow2(WORD_BITS - 1) && Pow2(WORD_BITS - 1) >= 2
  {
    assert Pow2(WORD_BITS) == 2 * Pow2(WORD_BITS - 1);
    assert Pow2(WORD_BITS - 1) == 2 * Pow2(WORD_BITS - 2);
  }

  /** A mask of all ones is what rounds up everything from half a word on. */
  lemma FullMask(x: nat, mask: nat)
    requires x < Pow2(WORD_BITS) && mask < Pow2(WORD_BITS)
    requires x == 0 ==> mask == Pow2(WORD_BITS) - 1
    requires x >= 1 ==> IsLeastPow2AtLeast(mask + 1, x)
    ensures mask + 1 == Pow2(WORD_BITS) <==> x == 0 || x > Pow2(WORD_BITS - 1)
  {
    hide Pow2;
    HalfWord();
    if x > Pow2(WORD_BITS - 1) {
      var k: nat :| Pow2(k) == mask + 1;
      Pow2StrictlyMonotone(WORD_BITS - 1, k);
      Pow2Monotone(WORD_BITS, k);
    } else if x >= 1 {
      assert mask + 1 <= Pow2(WORD_BITS - 1);
    }
  }

  /** ceilToPow2: the least power of two, or zero where that does not fit a word. */
  method CeilToPow2(x: nat) returns (r: nat)
    requires x < Pow2(WORD_BITS)
    ensures 1 <= x <= Pow2(WORD_BITS - 1) ==> IsLeastPow2AtLeast(r, x) && r >= 1
    ensures x == 0 || x > Pow2(WORD_BITS - 1) ==> r == 0
  {
    hide Pow2, IsPow2, IsLeastPow2AtLeast;
    var mask := RoundUpMask(x);
    r := (mask + 1) % Pow2(WORD_BITS);
    FullMask(x, mask);
    if mask + 1 == Pow2(WORD_BITS) {
      DivUnique(mask + 1, Pow2(WORD_BITS), 1, 0);
    } else {
      DivUnique(mask + 1, Pow2(WORD_BITS), 0, mask + 1);
    }
  }
}
