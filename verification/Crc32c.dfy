/**
  CRC32C as the spectrum transport computes it: a table of 256 words built bit by bit and
  applied byte by byte, against division one message bit at a time by the reflected
  Castagnoli polynomial (section 12.1 of RFC 3720).
 */
module Crc32c {

  const POLY: bv32 := 0x82F63B78

  // The word operations are named so that proofs can treat them as symbols.
  function Xor(a: bv32, b: bv32): bv32 { a ^ b }
  function Half(a: bv32): bv32 { a >> 1 }
  predicate Odd(a: bv32) { a & 1 == 1 }
  function LowByte(a: bv32): bv32 { a & 0xff }
  function HighBytes(a: bv32): bv32 { a & 0xffff_ff00 }
  function ShiftByte(a: bv32): bv32 { a >> 8 }
  function Bit(on: bool): bv32 { if on then 1 else 0 }
  function Term(on: bool): bv32 { if on then POLY else 0 }
  function Byte(b: bv8): bv32 { b as bv32 }

  /** One division step: shift out the low bit, and subtract the polynomial if it was set. */
  function Shift(crc: bv32): bv32 {
    Xor(Half(crc), Term(Odd(crc)))
  }

  function Shifts(crc: bv32, n: nat): bv32
    decreases n
  {
    if n == 0 then crc else Shifts(Shift(crc), n - 1)
  }

  // ------------------------------------------------------------------ one bit at a time

  /** Feed the low n bits of b, least significant first. */
  function FeedBits(crc: bv32, b: bv32, n: nat): bv32
    decreases n
  {
    if n == 0 then crc else FeedBits(Shift(Xor(crc, Bit(Odd(b)))), Half(b), n - 1)
  }

  /** The remainder after a whole message. */
  function Divide(crc: bv32, data: seq<bv8>): bv32
    decreases data
  {
    if data == [] then crc else Divide(FeedBits(crc, Byte(data[0]), 8), data[1..])
  }

  /** CRC32C: all ones before, complemented after. */
  function Crc(data: seq<bv8>): bv32 {
    Xor(Divide(0xffff_ffff, data), 0xffff_ffff)
  }

  // ------------------------------------------------------------------ algebra of the step

  lemma Interchange(a: bv32, b: bv32, c: bv32, d: bv32)
    ensures Xor(Xor(a, b), Xor(c, d)) == Xor(Xor(a, c), Xor(b, d))
  {
    hide Xor;
    XorAssoc(a, b, Xor(c, d));
    XorAssoc(b, c, d);
    XorComm(b, c);
    XorAssoc(c, b, d);
    XorAssoc(a, c, Xor(b, d));
  }

  lemma XorComm(a: bv32, b: bv32)
    ensures Xor(a, b) == Xor(b, a)
  {
  }

  lemma XorAssoc(a: bv32, b: bv32, c: bv32)
    ensures Xor(Xor(a, b), c) == Xor(a, Xor(b, c))
  {
  }

  lemma HalfOfXor(a: bv32, b: bv32)
    ensures Half(Xor(a, b)) == Xor(Half(a), Half(b))
    ensures Odd(Xor(a, b)) <==> Odd(a) != Odd(b)
  {
  }

  lemma TermOfXor(p: bool, q: bool)
    ensures Term(p != q) == Xor(Term(p), Term(q))
  {
  }

  lemma ShiftLinear(a: bv32, b: bv32)
    ensures Shift(Xor(a, b)) == Xor(Shift(a), Shift(b))
  {
    hide Xor, Half, Odd, Term;
    HalfOfXor(a, b);
    TermOfXor(Odd(a), Odd(b));
    Interchange(Half(a), Half(b), Term(Odd(a)), Term(Odd(b)));
  }

  lemma ShiftInjective(a: bv32, b: bv32)
    requires Shift(a) == Shift(b)
    ensures a == b
  {
  }

  lemma {:induction false} ShiftsLinear(a: bv32, b: bv32, n: nat)
    ensures Shifts(Xor(a, b), n) == Xor(Shifts(a, n), Shifts(b, n))
    decreases n
  {
    hide Xor, Shift;
    if n != 0 {
      ShiftLinear(a, b);
      ShiftsLinear(Shift(a), Shift(b), n - 1);
    }
  }

  lemma {:induction false} ShiftsInjective(a: bv32, b: bv32, n: nat)
    requires Shifts(a, n) == Shifts(b, n)
    ensures a == b
    decreases n
  {
    hide Shift;
    if n != 0 {
      ShiftsInjective(Shift(a), Shift(b), n - 1);
      ShiftInjective(a, b);
    }
  }

  lemma {:induction false} ShiftsAdd(a: bv32, m: nat, n: nat)
    ensures Shifts(Shifts(a, m), n) == Shifts(a, m + n)
    decreases m
  {
    hide Shift;
    if m != 0 { ShiftsAdd(Shift(a), m - 1, n); }
  }

  /** A word with its low bit clear is only shifted. */
  lemma ShiftEven(a: bv32)
    requires !Odd(a)
    ensures Shift(a) == Half(a)
  {
  }

  /** Division steps drop clear low bits. */
  function Halves(a: bv32, n: nat): bv32
    decreases n
  {
    if n == 0 then a else Halves(Half(a), n - 1)
  }

  predicate LowClear(a: bv32, n: nat)
    decreases n
  {
    n == 0 || (!Odd(a) && LowClear(Half(a), n - 1))
  }

  lemma {:induction false} ShiftsDrop(a: bv32, n: nat)
    requires LowClear(a, n)
    ensures Shifts(a, n) == Halves(a, n)
    decreases n
  {
    hide Shift, Half, Odd;
    if n != 0 {
      ShiftEven(a);
      ShiftsDrop(Half(a), n - 1);
    }
  }

  lemma HighBytesClear(a: bv32)
    ensures LowClear(HighBytes(a), 8) && Halves(HighBytes(a), 8) == ShiftByte(a)
  {
    var h := HighBytes(a);
    var h1 := Half(h);
    var h2 := Half(h1);
    var h3 := Half(h2);
    var h4 := Half(h3);
    var h5 := Half(h4);
    var h6 := Half(h5);
    var h7 := Half(h6);
    assert !Odd(h) && !Odd(h1) && !Odd(h2) && !Odd(h3) && !Odd(h4) && !Odd(h5) && !Odd(h6) && !Odd(h7);
    assert Half(h7) == ShiftByte(a);
    hide Half, Odd, ShiftByte, HighBytes;
    assert LowClear(h7, 1) && LowClear(h6, 2) && LowClear(h5, 3) && LowClear(h4, 4);
    assert LowClear(h3, 5) && LowClear(h2, 6) && LowClear(h1, 7);
    assert Halves(h4, 4) == Halves(h6, 2) == Half(h7);
    assert Halves(h, 8) == Halves(h2, 6) == Halves(h4, 4);
  }

  lemma SplitBytes(a: bv32)
    ensures Xor(LowByte(a), HighBytes(a)) == a
  {
  }

  /** Eight steps from any word: the table entry of its low byte, and the rest shifted. */
  lemma ByteStep(a: bv32)
    ensures Shifts(a, 8) == Xor(Shifts(LowByte(a), 8), ShiftByte(a))
  {
    hide Xor, Shifts, LowByte, HighBytes, ShiftByte, Shift, LowClear, Halves;
    SplitBytes(a);
    ShiftsLinear(LowByte(a), HighBytes(a), 8);
    HighBytesClear(a);
    ShiftsDrop(HighBytes(a), 8);
  }

  function Even(a: bv32): bv32 { a & 0xffff_fffe }

  lemma OddSplits(b: bv32)
    requires Odd(b)
    ensures Xor(1, Even(b)) == b
  {
  }

  lemma EvenSplits(b: bv32)
    requires !Odd(b)
    ensures Xor(0, Even(b)) == b
  {
  }

  lemma EvenHalves(b: bv32)
    ensures !Odd(Even(b)) && Half(Even(b)) == Half(b)
  {
  }

  lemma SplitBit(crc: bv32, b: bv32)
    ensures Xor(Xor(crc, Bit(Odd(b))), Even(b)) == Xor(crc, b)
  {
    hide Xor, Odd, Even;
    if Odd(b) { OddSplits(b); } else { EvenSplits(b); }
    XorAssoc(crc, Bit(Odd(b)), Even(b));
  }

  lemma FoldBit(crc: bv32, b: bv32)
    ensures Xor(Shift(Xor(crc, Bit(Odd(b)))), Half(b)) == Shift(Xor(crc, b))
  {
    hide Xor, Shift, Half, Odd, Bit, Even;
    SplitBit(crc, b);
    EvenHalves(b);
    ShiftLinear(Xor(crc, Bit(Odd(b))), Even(b));
    ShiftEven(Even(b));
  }

  /** Feeding bits one at a time is feeding them together. */
  lemma {:induction false} FeedIsShifts(crc: bv32, b: bv32, n: nat)
    requires Halves(b, n) == 0
    ensures FeedBits(crc, b, n) == Shifts(Xor(crc, b), n)
    decreases n
  {
    if n == 0 {
      assert Xor(crc, b) == crc;
    } else {
      hide Shift, Xor, Half, Odd, Bit;
      FeedIsShifts(Shift(Xor(crc, Bit(Odd(b)))), Half(b), n - 1);
      FoldBit(crc, b);
    }
  }

  lemma ByteHalves(b: bv8)
    ensures Halves(Byte(b), 8) == 0
  {
    var h := Byte(b);
    var h4 := Half(Half(Half(Half(h))));
    assert Half(Half(Half(Half(h4)))) == 0;
    hide Half, Byte;
    assert Halves(h, 8) == Halves(Half(Half(h)), 6) == Halves(h4, 4);
    assert Halves(h4, 4) == Halves(Half(Half(h4)), 2);
  }

  /** The state after one message byte. */
  function AfterByte(crc: bv32, b: bv8): bv32 {
    Shifts(Xor(crc, Byte(b)), 8)
  }

  /** Bit at a time, the state after a byte is eight steps from the state with the byte folded in. */
  lemma FeedByte(crc: bv32, b: bv8)
    ensures FeedBits(crc, Byte(b), 8) == AfterByte(crc, b)
  {
    hide Xor, Byte, Shifts, FeedBits, Halves;
    ByteHalves(b);
    FeedIsShifts(crc, Byte(b), 8);
  }

  // ------------------------------------------------------------------ the table

  /** (crc ^ byte) & 0xff, the index into the table. */
  function Index(crc: bv32, b: bv8): bv8 { ((crc ^ (b as bv32)) & 0xff) as bv8 }

  lemma IndexIsLowByte(crc: bv32, b: bv8)
    ensures Byte(Index(crc, b)) == LowByte(Xor(crc, Byte(b)))
    ensures ShiftByte(Xor(crc, Byte(b))) == ShiftByte(crc)
  {
  }

  /** Where a byte's entry is. */
  function Position(b: bv8): (i: nat)
    ensures i < 256
  {
    b as int
  }

  lemma ZeroPosition()
    ensures Position(0) == 0
  {
  }

  lemma NextPosition(b: bv8)
    requires Position(b) < 255
    ensures Position(b + 1) == Position(b) + 1
  {
  }

  /** The table holds eight division steps of each byte. */
  ghost predicate TableOk(table: seq<bv32>) {
    |table| == 256 && forall b: bv8 :: table[Position(b)] == Shifts(Byte(b), 8)
  }

  /** One table lookup advances the division by a whole byte. */
  lemma TableStep(table: seq<bv32>, crc: bv32, b: bv8)
    requires TableOk(table)
    ensures Xor(table[Position(Index(crc, b))], ShiftByte(crc)) == FeedBits(crc, Byte(b), 8)
  {
    assert table[Position(Index(crc, b))] == Shifts(Byte(Index(crc, b)), 8);
    hide Xor, Byte, Shifts, FeedBits, LowByte, ShiftByte, Index, TableOk, Position;
    FeedByte(crc, b);
    IndexIsLowByte(crc, b);
    ByteStep(Xor(crc, Byte(b)));
  }

  lemma {:induction false} ShiftsNext(a: bv32, n: nat)
    ensures Shifts(a, n + 1) == Shift(Shifts(a, n))
    decreases n
  {
    hide Shift;
    if n != 0 { ShiftsNext(Shift(a), n - 1); }
  }

  lemma SameByte(b: bv8, c: bv8)
    requires Position(b) == Position(c)
    ensures b == c
  {
  }

  method TableEntry(byte: bv8) returns (crc: bv32)
    ensures crc == Shifts(Byte(byte), 8)
  {
    hide Shift, Shifts, Byte;
    crc := Byte(byte);
    NoShifts(crc);
    for bit := 0 to 8
      invariant crc == Shifts(Byte(byte), bit)
    {
      ShiftsNext(Byte(byte), bit);
      crc := Shift(crc);
    }
  }

  /** The first n entries are right. */
  ghost predicate TableUpTo(table: seq<bv32>, n: nat) {
    |table| == 256 && forall b: bv8 :: Position(b) < n ==> table[Position(b)] == Shifts(Byte(b), 8)
  }

  lemma TableGrows(table: seq<bv32>, n: nat, byte: bv8)
    requires TableUpTo(table, n) && Position(byte) == n
    ensures TableUpTo(table[n := Shifts(Byte(byte), 8)], n + 1)
  {
    hide Shifts, Byte, Position;
    var table' := table[n := Shifts(Byte(byte), 8)];
    forall b: bv8 | Position(b) < n + 1 ensures table'[Position(b)] == Shifts(Byte(b), 8) {
      if Position(b) == n { SameByte(b, byte); }
    }
  }

  lemma TableDone(table: seq<bv32>)
    requires TableUpTo(table, 256)
    ensures TableOk(table)
  {
    hide Shifts, Byte;
  }

  method BuildTable() returns (table: array<bv32>)
    ensures fresh(table) && TableOk(table[..])
  {
    hide Shifts, Byte, TableOk, Position;
    table := new bv32[256];
    assert TableUpTo(table[..], 0);
    hide TableUpTo;
    var byte: bv8 := 0;        // the loop counter as a word
    assert Position(byte) == 0 by { ZeroPosition(); }
    for i := 0 to 256
      invariant TableUpTo(table[..], i)
      invariant i < 256 ==> Position(byte) == i
    {
      var entry := TableEntry(byte);
      TableGrows(table[..], i, byte);
      assert table[..][i := entry] == table[..][i := Shifts(Byte(byte), 8)];
      table[i] := entry;
      if i < 255 {
        NextPosition(byte);
        byte := byte + 1;
      }
    }
    TableDone(table[..]);
  }

  lemma NoShifts(a: bv32)
    ensures Shifts(a, 0) == a
  {
  }

  /** spectrum_crc32c */
  method SpectrumCrc32c(data: seq<bv8>) returns (crc: bv32)
    ensures crc == Crc(data)
  {
    hide Shift, Shifts, FeedBits, Xor, ShiftByte, Index, Byte, TableOk, Position;
    var table := BuildTable();
    crc := 0xffff_ffff;
    for i := 0 to |data|
      invariant TableOk(table[..])
      invariant Divide(crc, data[i..]) == Divide(0xffff_ffff, data)
    {
      TableStep(table[..], crc, data[i]);
      TableSize(table[..]);
      crc := Xor(table[Position(Index(crc, data[i]))], ShiftByte(crc));
      assert data[i..][1..] == data[i + 1..];
    }
    crc := Xor(crc, 0xffff_ffff);
  }

  lemma TableSize(table: seq<bv32>)
    requires TableOk(table)
    ensures |table| == 256
  {
  }

  // ------------------------------------------------------------------ bursts of up to four bytes

  function ShiftUp(a: bv32): bv32 { a << 8 }

  /** The bytes of a burst as one word, first byte lowest. */
  function Pack(data: seq<bv8>): bv32 {
    if data == [] then 0 else Xor(Byte(data[0]), ShiftUp(Pack(data[1..])))
  }

  /** Nothing above the low bytes. */
  predicate Fits(a: bv32, bytes: nat) {
    if bytes == 0 then a == 0 else Fits(ShiftByte(a), bytes - 1)
  }

  predicate TopClear(a: bv32) { a & 0xff00_0000 == 0 }

  lemma ThreeBytes(a: bv32)
    requires ShiftByte(ShiftByte(ShiftByte(a))) == 0
    ensures TopClear(a)
  {
  }

  lemma ShiftZero()
    ensures ShiftByte(0) == 0
  {
  }

  lemma FitsBelowTop(a: bv32, bytes: nat)
    requires bytes < 4 && Fits(a, bytes)
    ensures TopClear(a)
  {
    hide ShiftByte, TopClear;
    ShiftZero();
    var x, y := ShiftByte(a), ShiftByte(ShiftByte(a));
    assert bytes == 0 ==> a == 0;
    assert bytes == 1 ==> Fits(x, 0);
    assert bytes == 2 ==> Fits(x, 1) && Fits(y, 0);
    assert bytes == 3 ==> Fits(x, 2) && Fits(y, 1) && Fits(ShiftByte(y), 0);
    ThreeBytes(a);
  }

  lemma LowOfPacked(b: bv8, rest: bv32)
    ensures LowByte(Xor(Byte(b), ShiftUp(rest))) == Byte(b)
  {
  }

  lemma RestOfPacked(b: bv8, rest: bv32)
    requires TopClear(rest)
    ensures ShiftByte(Xor(Byte(b), ShiftUp(rest))) == rest
  {
  }

  lemma UpDown(rest: bv32)
    requires TopClear(rest)
    ensures ShiftByte(ShiftUp(rest)) == rest && HighBytes(ShiftUp(rest)) == ShiftUp(rest)
  {
  }

  lemma {:induction false} PackFits(data: seq<bv8>)
    requires |data| <= 4
    ensures Fits(Pack(data), |data|)
    decreases data
  {
    hide Xor, Byte, ShiftUp, ShiftByte, TopClear;
    if data != [] {
      PackFits(data[1..]);
      FitsBelowTop(Pack(data[1..]), |data| - 1);
      RestOfPacked(data[0], Pack(data[1..]));
    }
  }

  lemma BytesDiffer(a: bv8, b: bv8)
    requires Byte(a) == Byte(b)
    ensures a == b
  {
  }

  lemma PackedByte(b: bv8, rest: bv32, c: bv8, rest': bv32)
    requires TopClear(rest) && TopClear(rest')
    requires Xor(Byte(b), ShiftUp(rest)) == Xor(Byte(c), ShiftUp(rest'))
    ensures b == c && rest == rest'
  {
    hide Xor, Byte, ShiftUp, ShiftByte, TopClear, LowByte;
    LowOfPacked(b, rest);
    LowOfPacked(c, rest');
    BytesDiffer(b, c);
    RestOfPacked(b, rest);
    RestOfPacked(c, rest');
  }

  /** Different bursts pack to different words. */
  lemma {:induction false} PackInjective(u: seq<bv8>, v: seq<bv8>)
    requires |u| == |v| <= 4 && Pack(u) == Pack(v)
    ensures u == v
    decreases u
  {
    if u != [] {
      hide Fits, Xor, Byte, ShiftUp, TopClear;
      PackFits(u[1..]);
      PackFits(v[1..]);
      FitsBelowTop(Pack(u[1..]), |u| - 1);
      FitsBelowTop(Pack(v[1..]), |v| - 1);
      PackedByte(u[0], Pack(u[1..]), v[0], Pack(v[1..]));
      PackInjective(u[1..], v[1..]);
      assert u == [u[0]] + u[1..] && v == [v[0]] + v[1..];
    }
  }

  /** Dividing a short burst is folding it into the state and shifting. */
  lemma {:induction false} BurstIsShifts(crc: bv32, data: seq<bv8>)
    requires |data| <= 4
    ensures Divide(crc, data) == Shifts(Xor(crc, Pack(data)), 8 * |data|)
    decreases data
  {
    hide Fits, TopClear, Xor, Byte, ShiftUp, Shift, Shifts, FeedBits, ShiftByte, HighBytes;
    if data == [] {
      NoShifts(crc);
      XorZero(crc);
    } else {
      var b, rest := data[0], Pack(data[1..]);
      FeedByte(crc, b);
      BurstIsShifts(AfterByte(crc, b), data[1..]);
      PackFits(data[1..]);
      FitsBelowTop(rest, |data| - 1);
      FoldRest(crc, b, rest);
      ShiftsAdd(Xor(crc, Pack(data)), 8, 8 * (|data| - 1));
    }
  }

  lemma XorZero(a: bv32)
    ensures Xor(a, 0) == a
  {
  }

  lemma FoldRest(crc: bv32, b: bv8, rest: bv32)
    requires TopClear(rest)
    ensures Xor(AfterByte(crc, b), rest) == Shifts(Xor(crc, Xor(Byte(b), ShiftUp(rest))), 8)
  {
    hide TopClear, Xor, Byte, ShiftUp, Shift, Shifts, ShiftByte, HighBytes, LowClear, Halves;
    XorAssoc(crc, Byte(b), ShiftUp(rest));
    ShiftsLinear(Xor(crc, Byte(b)), ShiftUp(rest), 8);
    UpDown(rest);
    HighBytesClear(ShiftUp(rest));
    ShiftsDrop(ShiftUp(rest), 8);
  }

  lemma {:induction false} DivideAppend(crc: bv32, a: seq<bv8>, b: seq<bv8>)
    ensures Divide(crc, a + b) == Divide(Divide(crc, a), b)
    decreases a
  {
    hide FeedBits, Byte;
    if a == [] {
      assert a + b == b;
    } else {
      assert (a + b)[0] == a[0] && (a + b)[1..] == a[1..] + b;
      DivideAppend(FeedBits(crc, Byte(a[0]), 8), a[1..], b);
    }
  }

  /** Different states stay different under any common suffix. */
  lemma {:induction false} DivideInjective(crc: bv32, crc': bv32, data: seq<bv8>)
    requires Divide(crc, data) == Divide(crc', data)
    ensures crc == crc'
    decreases data
  {
    hide FeedBits, Byte, Shifts, Xor;
    if data != [] {
      FeedByte(crc, data[0]);
      FeedByte(crc', data[0]);
      DivideInjective(AfterByte(crc, data[0]), AfterByte(crc', data[0]), data[1..]);
      ShiftsInjective(Xor(crc, Byte(data[0])), Xor(crc', Byte(data[0])), 8);
      XorCancel(crc, crc', Byte(data[0]));
    }
  }

  lemma XorCancel(a: bv32, b: bv32, c: bv32)
    requires Xor(a, c) == Xor(b, c)
    ensures a == b
  {
  }

  lemma BurstIsDetected(prefix: seq<bv8>, u: seq<bv8>, v: seq<bv8>, suffix: seq<bv8>)
    requires |u| == |v| <= 4 && u != v
    ensures Crc(prefix + u + suffix) != Crc(prefix + v + suffix)
  {
    hide Xor, Divide, Shifts, Pack;
    var start: bv32 := 0xffff_ffff;
    var s := Divide(start, prefix);
    DivideAppend(start, prefix + u, suffix);
    DivideAppend(start, prefix + v, suffix);
    DivideAppend(start, prefix, u);
    DivideAppend(start, prefix, v);
    BurstIsShifts(s, u);
    BurstIsShifts(s, v);
    if Crc(prefix + u + suffix) == Crc(prefix + v + suffix) {
      XorCancel(Divide(start, prefix + u + suffix), Divide(start, prefix + v + suffix), start);
      DivideInjective(Divide(s, u), Divide(s, v), suffix);
      ShiftsInjective(Xor(s, Pack(u)), Xor(s, Pack(v)), 8 * |u|);
      XorCancelLeft(s, Pack(u), Pack(v));
      PackInjective(u, v);
    }
  }

  lemma XorCancelLeft(a: bv32, b: bv32, c: bv32)
    requires Xor(a, b) == Xor(a, c)
    ensures b == c
  {
  }

  /** Two messages that differ only inside four consecutive bytes have different CRCs. */
  lemma CrcDetectsBurst(m: seq<bv8>, m': seq<bv8>, i: nat)
    requires |m| == |m'| && m != m'
    requires forall k :: 0 <= k < |m| && !(i <= k < i + 4) ==> m[k] == m'[k]
    ensures Crc(m) != Crc(m')
  {
    hide Crc;
    var lo := if i < |m| then i else |m|;
    var hi := if i + 4 < |m| then i + 4 else |m|;
    assert m == m[..lo] + m[lo..hi] + m[hi..] && m' == m[..lo] + m'[lo..hi] + m[hi..];
    BurstIsDetected(m[..lo], m[lo..hi], m'[lo..hi], m[hi..]);
  }

  // ------------------------------------------------------------------ the published check value

  function EightShifts(x: bv32): bv32 {
    Shift(Shift(Shift(Shift(Shift(Shift(Shift(Shift(x))))))))
  }

  lemma ShiftsIsEight(x: bv32)
    ensures Shifts(x, 8) == EightShifts(x)
  {
    hide Shift;
    assert Shifts(x, 8) == Shifts(Shift(Shift(x)), 6) == Shifts(Shift(Shift(Shift(Shift(x)))), 4);
  }

  /** One message byte, from one remainder to the next. */
  lemma ByteFed(crc: bv32, b: bv8, next: bv32, rest: seq<bv8>)
    requires EightShifts(Xor(crc, Byte(b))) == next
    ensures Divide(crc, [b] + rest) == Divide(next, rest)
  {
    hide Shifts, Xor, FeedBits, EightShifts, Byte;
    FeedByte(crc, b);
    ShiftsIsEight(Xor(crc, Byte(b)));
    assert ([b] + rest)[1..] == rest;
  }

  /** The nine digits in ASCII, the message check values are given for. */
  const DIGITS: seq<bv8> := [0x31, 0x32, 0x33, 0x34, 0x35, 0x36, 0x37, 0x38, 0x39]

  lemma FirstDigits()
    ensures Divide(0xffff_ffff, DIGITS[0..]) == Divide(0xef84_d04d, DIGITS[3..])
  {
    hide Divide, Shifts, FeedBits;
    ByteFed(0xffff_ffff, 0x31, 0x6f0a_661c, DIGITS[1..]);
    ByteFed(0x6f0a_661c, 0x32, 0x8caa_3b9f, DIGITS[2..]);
    ByteFed(0x8caa_3b9f, 0x33, 0xef84_d04d, DIGITS[3..]);
    assert DIGITS[0..] == [0x31] + DIGITS[1..];
    assert DIGITS[1..] == [0x32] + DIGITS[2..];
    assert DIGITS[2..] == [0x33] + DIGITS[3..];
  }

  lemma MiddleDigits()
    ensures Divide(0xef84_d04d, DIGITS[3..]) == Divide(0xbeca_8e79, DIGITS[6..])
  {
    hide Divide, Shifts, FeedBits;
    ByteFed(0xef84_d04d, 0x34, 0x09c5_0b11, DIGITS[4..]);
    ByteFed(0x09c5_0b11, 0x35, 0xe72e_dcca, DIGITS[5..]);
    ByteFed(0xe72e_dcca, 0x36, 0xbeca_8e79, DIGITS[6..]);
    assert DIGITS[3..] == [0x34] + DIGITS[4..];
    assert DIGITS[4..] == [0x35] + DIGITS[5..];
    assert DIGITS[5..] == [0x36] + DIGITS[6..];
  }

  lemma LastDigits()
    ensures Divide(0xbeca_8e79, DIGITS[6..]) == Divide(0x1cf9_6d7c, DIGITS[9..])
  {
    hide Divide, Shifts, FeedBits;
    ByteFed(0xbeca_8e79, 0x37, 0xedbd_6815, DIGITS[7..]);
    ByteFed(0xedbd_6815, 0x38, 0x9f78_7f65, DIGITS[8..]);
    ByteFed(0x9f78_7f65, 0x39, 0x1cf9_6d7c, DIGITS[9..]);
    assert DIGITS[6..] == [0x37] + DIGITS[7..];
    assert DIGITS[7..] == [0x38] + DIGITS[8..];
    assert DIGITS[8..] == [0x39] + DIGITS[9..];
  }

  /** CRC32C of the nine digits is the published check value, and of nothing zero. */
  lemma CheckValue()
    ensures Crc(DIGITS) == 0xe306_9283 && Crc([]) == 0
  {
    hide Shifts, FeedBits, Shift;
    FirstDigits();
    MiddleDigits();
    LastDigits();
    assert DIGITS[0..] == DIGITS && DIGITS[9..] == [];
  }
}
