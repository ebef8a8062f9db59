/**
  Bit fields of machine words held as naturals: what the shift-and-mask expressions
  `(w >> lo) & mask` and `(w & ~(mask << lo)) | ((v & mask) << lo)` do to every bit,
  and hence to every other field of the word.
 */
module BitFields {
  import opened Bits

  predicate Bit(x: nat, i: nat) {
    if i == 0 then x % 2 == 1 else Bit(x / 2, i - 1)
  }

  /** Left shift, without truncation. */
  function Shl(x: nat, k: nat): nat {
    if k == 0 then x else 2 * Shl(x, k - 1)
  }

  function Mask(width: nat): nat { Pow2(width) - 1 }

  /** Complement within n bits. */
  function Not(n: nat, x: nat): nat {
    if x < Pow2(n) then Pow2(n) - 1 - x else 0
  }

  /** The field of the given width starting at bit lo. */
  function Get(w: nat, lo: nat, width: nat): nat {
    And(Shr(w, lo), Mask(width))
  }

  /** A 32-bit word with that field replaced by the low bits of v. */
  function Put(w: nat, lo: nat, width: nat, v: nat): nat {
    Or(And(w, Not(32, Shl(Mask(width), lo))), Shl(And(v, Mask(width)), lo))
  }

  lemma Powers()
    ensures Pow2(1) == 2 && Pow2(2) == 4 && Pow2(3) == 8 && Pow2(5) == 0x20 && Pow2(6) == 0x40
    ensures Pow2(8) == 0x100 && Pow2(10) == 0x400 && Pow2(16) == 0x1_0000 && Pow2(24) == 0x100_0000
    ensures Pow2(26) == 0x400_0000 && Pow2(29) == 0x2000_0000 && Pow2(30) == 0x4000_0000
    ensures Pow2(31) == 0x8000_0000 && Pow2(32) == 0x1_0000_0000
  {
    Pow2Add(8, 2);
    Pow2Add(8, 8);
    Pow2Add(16, 8);
    Pow2Add(24, 2);
    Pow2Add(26, 3);
    Pow2Add(29, 1);
    Pow2Add(30, 1);
    Pow2Add(31, 1);
  }

  // ------------------------------------------------------------------ bit by bit

  lemma {:induction false} BitsDetermine(x: nat, y: nat)
    requires forall i: nat :: Bit(x, i) == Bit(y, i)
    ensures x == y
    decreases x + y
  {
    assert Bit(x, 0) == Bit(y, 0);
    if x != 0 || y != 0 {
      forall i: nat ensures Bit(x / 2, i) == Bit(y / 2, i) {
        assert Bit(x, i + 1) == Bit(y, i + 1);
      }
      BitsDetermine(x / 2, y / 2);
    }
  }

  lemma {:induction false} BitZero(i: nat)
    ensures !Bit(0, i)
  {
    if i != 0 { BitZero(i - 1); }
  }

  lemma {:induction false} BitAnd(x: nat, y: nat, i: nat)
    ensures Bit(And(x, y), i) == (Bit(x, i) && Bit(y, i))
    decreases i
  {
    BitZero(i);
    if i != 0 { BitAnd(x / 2, y / 2, i - 1); }
  }

  lemma {:induction false} BitOr(x: nat, y: nat, i: nat)
    ensures Bit(Or(x, y), i) == (Bit(x, i) || Bit(y, i))
    decreases i
  {
    BitZero(i);
    if i != 0 {
      OrHalf(x, y);
      BitOr(x / 2, y / 2, i - 1);
    }
  }

  lemma {:induction false} BitShr(x: nat, k: nat, i: nat)
    ensures Bit(Shr(x, k), i) == Bit(x, k + i)
  {
    if k != 0 { BitShr(x / 2, k - 1, i); }
  }

  lemma {:induction false} BitShl(x: nat, k: nat, i: nat)
    ensures Bit(Shl(x, k), i) == (i >= k && Bit(x, i - k))
  {
    if k != 0 && i != 0 { BitShl(x, k - 1, i - 1); }
  }

  lemma {:induction false} BitNot(n: nat, x: nat, i: nat)
    requires x < Pow2(n)
    ensures Bit(Not(n, x), i) == (i < n && !Bit(x, i))
    decreases n
  {
    if n == 0 {
      BitZero(i);
    } else if i != 0 {
      assert Not(n, x) / 2 == Not(n - 1, x / 2);
      BitNot(n - 1, x / 2, i - 1);
    }
  }

  lemma {:induction false} BitMask(k: nat, i: nat)
    ensures Bit(Mask(k), i) == (i < k)
  {
    BitZero(i);
    if k != 0 && i != 0 {
      assert Mask(k) / 2 == Mask(k - 1);
      BitMask(k - 1, i - 1);
    }
  }

  /** Below 2^n exactly when no bit at or above n is set. */
  lemma {:induction false} BitsBelow(x: nat, n: nat, i: nat)
    requires x < Pow2(n) && n <= i
    ensures !Bit(x, i)
  {
    if n == 0 { BitZero(i); } else { BitsBelow(x / 2, n - 1, i - 1); }
  }

  lemma {:induction false} BelowFromBits(x: nat, n: nat)
    requires forall i: nat :: n <= i ==> !Bit(x, i)
    ensures x < Pow2(n)
    decreases x, n
  {
    if x != 0 {
      forall i: nat | (if n == 0 then 0 else n - 1) <= i ensures !Bit(x / 2, i) {
        assert !Bit(x, i + 1);
      }
      if n == 0 {
        assert !Bit(x, 0);
        BelowFromBits(x / 2, 0);
      } else {
        BelowFromBits(x / 2, n - 1);
      }
    }
  }

  lemma GetBit(w: nat, lo: nat, width: nat, i: nat)
    ensures Bit(Get(w, lo, width), i) == (i < width && Bit(w, lo + i))
  {
    BitAnd(Shr(w, lo), Mask(width), i);
    BitShr(w, lo, i);
    BitMask(width, i);
  }

  lemma {:induction false} ShlBound(x: nat, a: nat, k: nat)
    requires x < Pow2(a)
    ensures Shl(x, k) < Pow2(a + k)
  {
    if k != 0 { ShlBound(x, a, k - 1); }
  }

  lemma MaskBelow(width: nat)
    ensures Mask(width) < Pow2(width)
  {
  }

  /** The bits of a word after a field is replaced. */
  lemma PutBit(w: nat, lo: nat, width: nat, v: nat, i: nat)
    requires lo + width <= 32
    ensures Bit(Put(w, lo, width, v), i)
         == if lo <= i < lo + width then Bit(v, i - lo) else i < 32 && Bit(w, i)
  {
    hide And, Or, Shl, Mask, Not, Bit, Pow2;
    var m := Shl(Mask(width), lo);
    MaskBelow(width);
    ShlBound(Mask(width), width, lo);
    Pow2Monotone(lo + width, 32);
    BitOr(And(w, Not(32, m)), Shl(And(v, Mask(width)), lo), i);
    BitAnd(w, Not(32, m), i);
    BitNot(32, m, i);
    BitShl(Mask(width), lo, i);
    BitShl(And(v, Mask(width)), lo, i);
    if i >= lo {
      BitMask(width, i - lo);
      BitAnd(v, Mask(width), i - lo);
    }
  }

  // ------------------------------------------------------------------ field laws

  lemma PutBound(w: nat, lo: nat, width: nat, v: nat)
    requires lo + width <= 32
    ensures Put(w, lo, width, v) < Pow2(32)
  {
    hide *;
    forall i: nat | 32 <= i ensures !Bit(Put(w, lo, width, v), i) {
      PutBit(w, lo, width, v, i);
    }
    BelowFromBits(Put(w, lo, width, v), 32);
  }

  /** Reading back the field that was written. */
  lemma GetPutSame(w: nat, lo: nat, width: nat, v: nat)
    requires lo + width <= 32
    ensures Get(Put(w, lo, width, v), lo, width) == v % Pow2(width)
  {
    hide *;
    var p := Put(w, lo, width, v);
    forall i: nat ensures Bit(Get(p, lo, width), i) == Bit(Get(v, 0, width), i) {
      GetBit(p, lo, width, i);
      GetBit(v, 0, width, i);
      PutBit(w, lo, width, v, lo + i);
    }
    BitsDetermine(Get(p, lo, width), Get(v, 0, width));
    GetLow(v, width);
  }

  lemma GetLow(v: nat, width: nat)
    ensures Get(v, 0, width) == v % Pow2(width)
  {
    AndMask(v, width);
  }

  /** Every field that does not overlap the one written is unchanged. */
  lemma GetPutOther(w: nat, lo: nat, width: nat, v: nat, lo2: nat, width2: nat)
    requires lo + width <= 32 && lo2 + width2 <= 32
    requires lo2 + width2 <= lo || lo + width <= lo2
    ensures Get(Put(w, lo, width, v), lo2, width2) == Get(w, lo2, width2)
  {
    hide *;
    var p := Put(w, lo, width, v);
    forall i: nat ensures Bit(Get(p, lo2, width2), i) == Bit(Get(w, lo2, width2), i) {
      GetBit(p, lo2, width2, i);
      GetBit(w, lo2, width2, i);
      if i < width2 { PutBit(w, lo, width, v, lo2 + i); }
    }
    BitsDetermine(Get(p, lo2, width2), Get(w, lo2, width2));
  }

  /** Setting one bit by a plain or. */
  lemma SetBit(w: nat, lo: nat)
    requires w < Pow2(32) && lo < 32
    ensures Or(w, Shl(1, lo)) == Put(w, lo, 1, 1)
  {
    hide *;
    forall i: nat ensures Bit(Or(w, Shl(1, lo)), i) == Bit(Put(w, lo, 1, 1), i) {
      BitOr(w, Shl(1, lo), i);
      BitShl(1, lo, i);
      PutBit(w, lo, 1, 1, i);
      if i >= lo { BitOne(i - lo); }
      if i >= 32 { BitsBelow(w, 32, i); }
    }
    BitsDetermine(Or(w, Shl(1, lo)), Put(w, lo, 1, 1));
  }

  /** Clearing one bit by a plain and. */
  lemma ClearBit(w: nat, lo: nat)
    requires lo < 32
    ensures And(w, Not(32, Shl(1, lo))) == Put(w, lo, 1, 0)
  {
    hide *;
    OneBelow(lo);
    forall i: nat ensures Bit(And(w, Not(32, Shl(1, lo))), i) == Bit(Put(w, lo, 1, 0), i) {
      BitAnd(w, Not(32, Shl(1, lo)), i);
      BitNot(32, Shl(1, lo), i);
      BitShl(1, lo, i);
      PutBit(w, lo, 1, 0, i);
      if i >= lo {
        BitOne(i - lo);
        BitZero(i - lo);
      }
    }
    BitsDetermine(And(w, Not(32, Shl(1, lo))), Put(w, lo, 1, 0));
  }

  lemma BitOne(i: nat)
    ensures Bit(1, i) == (i == 0)
  {
    if i != 0 { BitZero(i - 1); }
  }

  lemma OneBelow(lo: nat)
    requires lo < 32
    ensures Shl(1, lo) < Pow2(32)
  {
    ShlBound(1, 1, lo);
    Pow2Monotone(1 + lo, 32);
  }

  // ------------------------------------------------------------------ little-endian words

  function ReadLe32(b0: nat, b1: nat, b2: nat, b3: nat): nat {
    Or(Or(Or(b0, Shl(b1, 8)), Shl(b2, 16)), Shl(b3, 24))
  }

  /** Byte k of a word: (v >> 8k) & 0xff. */
  function ByteOf(v: nat, k: nat): (b: nat)
    ensures b < 256
  {
    AndMask(Shr(v, 8 * k), 8);
    Powers();
    Get(v, 8 * k, 8)
  }

  lemma ReadBit(b0: nat, b1: nat, b2: nat, b3: nat, i: nat)
    ensures Bit(ReadLe32(b0, b1, b2, b3), i)
         == (Bit(b0, i) || (i >= 8 && Bit(b1, i - 8)) || (i >= 16 && Bit(b2, i - 16)) || (i >= 24 && Bit(b3, i - 24)))
  {
    BitOr(Or(Or(b0, Shl(b1, 8)), Shl(b2, 16)), Shl(b3, 24), i);
    BitOr(Or(b0, Shl(b1, 8)), Shl(b2, 16), i);
    BitOr(b0, Shl(b1, 8), i);
    BitShl(b1, 8, i);
    BitShl(b2, 16, i);
    BitShl(b3, 24, i);
  }

  /** A word written to four bytes reads back. */
  lemma ReadOfWrite(v: nat)
    requires v < Pow2(32)
    ensures ReadLe32(ByteOf(v, 0), ByteOf(v, 1), ByteOf(v, 2), ByteOf(v, 3)) == v
  {
    hide *;
    hide ByteOf;
    var r := ReadLe32(ByteOf(v, 0), ByteOf(v, 1), ByteOf(v, 2), ByteOf(v, 3));
    forall i: nat ensures Bit(r, i) == Bit(v, i) {
      ReadBit(ByteOf(v, 0), ByteOf(v, 1), ByteOf(v, 2), ByteOf(v, 3), i);
      ByteBit(v, 0, i);
      if i >= 8 { ByteBit(v, 1, i - 8); }
      if i >= 16 { ByteBit(v, 2, i - 16); }
      if i >= 24 { ByteBit(v, 3, i - 24); }
      if i >= 32 { BitsBelow(v, 32, i); }
    }
    BitsDetermine(r, v);
  }

  lemma ByteBit(v: nat, k: nat, i: nat)
    ensures Bit(ByteOf(v, k), i) == (i < 8 && Bit(v, 8 * k + i))
  {
    GetBit(v, 8 * k, 8, i);
  }

  lemma ReadBound(b0: nat, b1: nat, b2: nat, b3: nat)
    requires b0 < Pow2(8) && b1 < Pow2(8) && b2 < Pow2(8) && b3 < Pow2(8)
    ensures ReadLe32(b0, b1, b2, b3) < Pow2(32)
  {
    hide *;
    forall i: nat | 32 <= i ensures !Bit(ReadLe32(b0, b1, b2, b3), i) {
      ReadBit(b0, b1, b2, b3, i);
      BitsBelow(b0, 8, i);
      BitsBelow(b1, 8, i - 8);
      BitsBelow(b2, 8, i - 16);
      BitsBelow(b3, 8, i - 24);
    }
    BelowFromBits(ReadLe32(b0, b1, b2, b3), 32);
  }

  /** Four bytes read as a word are its bytes. */
  lemma WriteOfRead(b0: nat, b1: nat, b2: nat, b3: nat)
    requires b0 < Pow2(8) && b1 < Pow2(8) && b2 < Pow2(8) && b3 < Pow2(8)
    ensures var w := ReadLe32(b0, b1, b2, b3);
            ByteOf(w, 0) == b0 && ByteOf(w, 1) == b1 && ByteOf(w, 2) == b2 && ByteOf(w, 3) == b3
  {
    hide *;
    var w := ReadLe32(b0, b1, b2, b3);
    forall i: nat ensures Bit(ByteOf(w, 0), i) == Bit(b0, i) && Bit(ByteOf(w, 1), i) == Bit(b1, i)
                       && Bit(ByteOf(w, 2), i) == Bit(b2, i) && Bit(ByteOf(w, 3), i) == Bit(b3, i) {
      ByteBit(w, 0, i);
      ByteBit(w, 1, i);
      ByteBit(w, 2, i);
      ByteBit(w, 3, i);
      ReadBit(b0, b1, b2, b3, i);
      ReadBit(b0, b1, b2, b3, 8 + i);
      ReadBit(b0, b1, b2, b3, 16 + i);
      ReadBit(b0, b1, b2, b3, 24 + i);
      AboveByte(b0, i);
      AboveByte(b1, i);
      AboveByte(b2, i);
      AboveByte(b3, i);
      AboveByte(b0, 8 + i);
      AboveByte(b0, 16 + i);
      AboveByte(b0, 24 + i);
      AboveByte(b1, 8 + i);
      AboveByte(b1, 16 + i);
      AboveByte(b2, 8 + i);
    }
    BitsDetermine(ByteOf(w, 0), b0);
    BitsDetermine(ByteOf(w, 1), b1);
    BitsDetermine(ByteOf(w, 2), b2);
    BitsDetermine(ByteOf(w, 3), b3);
  }

  lemma AboveByte(b: nat, i: nat)
    requires b < Pow2(8)
    ensures i >= 8 ==> !Bit(b, i)
  {
    if i >= 8 { BitsBelow(b, 8, i); }
  }
}
