/**
  Requantization of offset-binary Q,I samples to two's-complement I,Q at eight, four and
  two bits, in place, in scalar and in 512-bit vector form.
 */
module Quantize {

  // ------------------------------------------------------------------ bytes

  function Flip(b: bv8): bv8 { b ^ 0x80 }

  /** I in the low nibble, Q in the high one. */
  function Pack4(q: bv8, i: bv8): bv8 { (Flip(i) >> 4) | (Flip(q) & 0xf0) }

  /** I0, Q0, I1, Q1 from the low end. */
  function Pack2(q0: bv8, i0: bv8, q1: bv8, i1: bv8): bv8 {
    (Flip(i0) >> 6) | ((Flip(q0) >> 6) << 2) | ((Flip(i1) >> 6) << 4) | ((Flip(q1) >> 6) << 6)
  }

  // ------------------------------------------------------------------ buffers

  /** Byte k after requantizing bytes [start, start + n) to eight bits. */
  function Byte8(s: seq<bv8>, start: nat, n: nat, k: nat): bv8
    requires start + n <= |s| && k < |s|
  {
    if k < start || start + n <= k then s[k]
    else if (k - start) % 2 == 1 then Flip(s[k - 1])
    else if k + 1 < start + n then Flip(s[k + 1])
    else Flip(s[k])
  }

  /** The k-th packed byte of a buffer. */
  function Packed4(s: seq<bv8>, k: nat): bv8
    requires 2 * k + 1 < |s|
  {
    Pack4(s[2 * k], s[2 * k + 1])
  }

  function Packed2(s: seq<bv8>, k: nat): bv8
    requires 4 * k + 3 < |s|
  {
    Pack2(s[4 * k], s[4 * k + 1], s[4 * k + 2], s[4 * k + 3])
  }

  ghost predicate Is8(s: seq<bv8>, start: nat, n: nat, t: seq<bv8>) {
    start + n <= |s| && |t| == |s| && forall k :: 0 <= k < |s| ==> t[k] == Byte8(s, start, n, k)
  }

  /** The first `out` bytes packed from s, the rest of it untouched. */
  ghost predicate Is4(s: seq<bv8>, out: nat, t: seq<bv8>) {
    && 2 * out <= |s| && |t| == |s|
    && (forall k :: 0 <= k < out ==> t[k] == Packed4(s, k))
    && (forall k :: out <= k < |s| ==> t[k] == s[k])
  }

  ghost predicate Is2(s: seq<bv8>, out: nat, t: seq<bv8>) {
    && 4 * out <= |s| && |t| == |s|
    && (forall k :: 0 <= k < out ==> t[k] == Packed2(s, k))
    && (forall k :: out <= k < |s| ==> t[k] == s[k])
  }

  /** Packing the next pair reads bytes not yet overwritten. */
  lemma Next4(s: seq<bv8>, out: nat, t: seq<bv8>)
    requires Is4(s, out, t) && 2 * out + 1 < |s|
    ensures t[2 * out] == s[2 * out] && t[2 * out + 1] == s[2 * out + 1]
    ensures Is4(s, out + 1, t[out := Packed4(s, out)])
  {
    hide Packed4;
  }

  lemma Next2(s: seq<bv8>, out: nat, t: seq<bv8>)
    requires Is2(s, out, t) && 4 * out + 3 < |s|
    ensures forall j :: 4 * out <= j < 4 * out + 4 ==> t[j] == s[j]
    ensures Is2(s, out + 1, t[out := Packed2(s, out)])
  {
    hide Packed2;
  }

  // ------------------------------------------------------------------ scalar forms

  method Quantize8Scalar(buf: array<bv8>, start: nat, bytes: nat)
    requires start + bytes <= buf.Length
    modifies buf
    ensures Is8(old(buf[..]), start, bytes, buf[..])
  {
    hide Flip;
    ghost var s := buf[..];
    var i := 0;
    while i + 1 < bytes
      invariant 0 <= i <= bytes && i % 2 == 0
      invariant forall k :: 0 <= k < start + i ==> buf[k] == Byte8(s, start, bytes, k)
      invariant forall k :: start + i <= k < buf.Length ==> buf[k] == s[k]
    {
      var q := buf[start + i];
      var inPhase := buf[start + i + 1];
      buf[start + i] := Flip(inPhase);
      buf[start + i + 1] := Flip(q);
      i := i + 2;
    }
    if i < bytes { buf[start + i] := Flip(buf[start + i]); }
  }

  method Quantize4Scalar(buf: array<bv8>, bytes: nat)
    requires bytes <= buf.Length
    modifies buf
    ensures Is4(old(buf[..]), bytes / 2, buf[..])
  {
    Tail4(buf, buf[..], 0, 0, bytes);
  }

  /** The pairwise loop, shared by both forms: it reads at `from` and beyond, and writes behind. */
  method Tail4(buf: array<bv8>, ghost s: seq<bv8>, from: nat, to: nat, bytes: nat)
    requires bytes <= buf.Length == |s| && from == 2 * to && from <= bytes
    requires Is4(s, to, buf[..])
    modifies buf
    ensures Is4(s, bytes / 2, buf[..])
  {
    hide Is4, Pack4;
    var in_, out := from, to;
    while in_ + 1 < bytes
      invariant in_ == 2 * out && in_ <= bytes
      invariant Is4(s, out, buf[..])
    {
      Next4(s, out, buf[..]);
      assert buf[..][in_] == buf[in_] && buf[..][in_ + 1] == buf[in_ + 1];
      buf[out] := Pack4(buf[in_], buf[in_ + 1]);
      out := out + 1;
      in_ := in_ + 2;
    }
  }

  method Quantize2(buf: array<bv8>, bytes: nat)
    requires bytes <= buf.Length
    modifies buf
    ensures Is2(old(buf[..]), bytes / 4, buf[..])
  {
    ghost var s := buf[..];
    assert Is2(s, 0, buf[..]);
    hide Is2, Pack2;
    var in_, out := 0, 0;
    while in_ + 3 < bytes
      invariant in_ == 4 * out && in_ <= bytes
      invariant Is2(s, out, buf[..])
    {
      Next2(s, out, buf[..]);
      assert forall j :: in_ <= j < in_ + 4 ==> buf[..][j] == buf[j];
      buf[out] := Pack2(buf[in_], buf[in_ + 1], buf[in_ + 2], buf[in_ + 3]);
      out := out + 1;
      in_ := in_ + 4;
    }
  }

  // ------------------------------------------------------------------ 512-bit vectors

  /** Sixty-four bytes, or thirty-two little-endian 16-bit lanes. */
  type Vector = v: seq<bv8> | |v| == 64 witness seq(64, _ => 0)

  function Join(lo: bv8, hi: bv8): bv16 { (lo as bv16) | ((hi as bv16) << 8) }
  function LowOf(lane: bv16): bv8 { (lane & 0xff) as bv8 }
  function HighOf(lane: bv16): bv8 { (lane >> 8) as bv8 }

  /** The same operation on every lane. */
  function MapLanes(v: Vector, f: bv16 -> bv16): Vector {
    seq(64, i requires 0 <= i < 64 =>
      var lane := f(Join(v[i / 2 * 2], v[i / 2 * 2 + 1]));
      if i % 2 == 0 then LowOf(lane) else HighOf(lane))
  }

  /** Arithmetic right shift of a 16-bit lane by four. */
  function Sra4(x: bv16): bv16 { (x >> 4) | (if x >= 0x8000 then 0xf000 else 0) }

  function Sll8(x: bv16): bv16 { x << 8 }
  function Srl8(x: bv16): bv16 { x >> 8 }
  function Or8(a: bv8, b: bv8): bv8 { a | b }
  function And8(a: bv8, b: bv8): bv8 { a & b }
  function Xor8(a: bv8, b: bv8): bv8 { a ^ b }

  // _mm512_slli_epi16(v, 8), _mm512_srli_epi16(v, 8), _mm512_srai_epi16(v, 4)
  function Slli8(v: Vector): Vector { MapLanes(v, Sll8) }
  function Srli8(v: Vector): Vector { MapLanes(v, Srl8) }
  function Srai4(v: Vector): Vector { MapLanes(v, Sra4) }

  // _mm512_or_si512, _mm512_and_si512 and _mm512_xor_si512, the last two against a repeated byte
  function OrV(v: Vector, w: Vector): Vector { seq(64, i requires 0 <= i < 64 => Or8(v[i], w[i])) }
  function AndB(v: Vector, b: bv8): Vector { seq(64, i requires 0 <= i < 64 => And8(v[i], b)) }
  function XorB(v: Vector, b: bv8): Vector { seq(64, i requires 0 <= i < 64 => Xor8(v[i], b)) }

  lemma LaneShifts(lo: bv8, hi: bv8)
    ensures var x := Join(lo, hi);
            LowOf(Sll8(x)) == 0 && HighOf(Sll8(x)) == lo && LowOf(Srl8(x)) == hi && HighOf(Srl8(x)) == 0
  {
  }

  lemma LaneSra(lo: bv8, hi: bv8)
    ensures var x := Sra4(Join(lo, hi));
            And8(LowOf(x), 0x0f) == Nibble(lo) && And8(HighOf(x), 0x0f) == Nibble(hi)
  {
  }

  function Nibble(b: bv8): bv8 { b >> 4 }

  lemma OrZero(b: bv8)
    ensures Or8(b, 0) == b == Or8(0, b) && Xor8(b, 0x80) == Flip(b)
  {
  }

  /** The vector step of the eight-bit form swaps and flips each pair. */
  lemma SwapStep(v: Vector, i: nat)
    requires i < 64
    ensures XorB(OrV(Slli8(v), Srli8(v)), 0x80)[i] == Flip(if i % 2 == 0 then v[i + 1] else v[i - 1])
  {
    hide Join, LowOf, HighOf, Sll8, Srl8, Or8, Xor8, Flip;
    LaneShifts(v[i / 2 * 2], v[i / 2 * 2 + 1]);
    OrZero(if i % 2 == 0 then v[i + 1] else v[i - 1]);
  }

  /** The vector step of the four-bit form leaves the top nibble of each flipped byte. */
  lemma NibbleStep(v: Vector, i: nat)
    requires i < 64
    ensures AndB(Srai4(XorB(v, 0x80)), 0x0f)[i] == Nibble(Flip(v[i]))
  {
    hide Join, LowOf, HighOf, Sra4, And8, Xor8, Flip, Nibble;
    var w := XorB(v, 0x80);
    LaneSra(w[i / 2 * 2], w[i / 2 * 2 + 1]);
    OrZero(v[i]);
  }

  function HighNibble(b: bv8): bv8 { b << 4 }

  lemma PackNibbles(q: bv8, i: bv8)
    ensures Or8(Nibble(Flip(i)), HighNibble(Nibble(Flip(q)))) == Pack4(q, i)
  {
  }

  // ------------------------------------------------------------------ vector forms

  method Quantize8Avx512(buf: array<bv8>, bytes: nat)
    requires bytes <= buf.Length
    modifies buf
    ensures Is8(old(buf[..]), 0, bytes, buf[..])
  {
    hide Flip, XorB, OrV, Slli8, Srli8;
    ghost var s := buf[..];
    var i := 0;
    while i + 64 <= bytes
      invariant 0 <= i <= bytes && i % 2 == 0
      invariant forall k :: 0 <= k < i ==> buf[k] == Byte8(s, 0, bytes, k)
      invariant forall k :: i <= k < buf.Length ==> buf[k] == s[k]
    {
      var samples: Vector := buf[i..i + 64];
      var iq := OrV(Slli8(samples), Srli8(samples));
      var out := XorB(iq, 0x80);
      forall j | 0 <= j < 64 ensures out[j] == Byte8(s, 0, bytes, i + j) {
        SwapStep(samples, j);
      }
      StoreVector(buf, i, out);
      forall k | i <= k < i + 64 ensures buf[k] == Byte8(s, 0, bytes, k) {
        assert buf[i + (k - i)] == out[k - i];
      }
      i := i + 64;
    }
    ghost var t := buf[..];
    Quantize8Scalar(buf, i, bytes - i);
    forall k | 0 <= k < |s| ensures buf[k] == Byte8(s, 0, bytes, k) {
      assert buf[..][k] == Byte8(t, i, bytes - i, k);
    }
  }

  method StoreVector(buf: array<bv8>, at: nat, v: seq<bv8>)
    requires at + |v| <= buf.Length
    modifies buf
    ensures forall j :: 0 <= j < |v| ==> buf[at + j] == v[j]
    ensures forall k :: 0 <= k < at || at + |v| <= k < buf.Length ==> buf[k] == old(buf[k])
  {
    for j := 0 to |v|
      invariant forall k :: 0 <= k < j ==> buf[at + k] == v[k]
      invariant forall k :: 0 <= k < at || at + j <= k < buf.Length ==> buf[k] == old(buf[k])
    {
      buf[at + j] := v[j];
    }
  }

  function PairAt(s: seq<bv8>, k: nat): bv8
    requires 2 * k + 1 < |s|
  {
    Or8(s[2 * k + 1], HighNibble(s[2 * k]))
  }

  /** The first pairs of the scratch array packed into its front. */
  ghost predicate Paired(s: seq<bv8>, half: nat, t: seq<bv8>) {
    && half <= 32 && |s| == |t| == 64
    && (forall k :: 0 <= k < half ==> t[k] == PairAt(s, k))
    && (forall k :: half <= k < 64 ==> t[k] == s[k])
  }

  lemma NextPair(s: seq<bv8>, half: nat, t: seq<bv8>)
    requires Paired(s, half, t) && half < 32
    ensures t[2 * half] == s[2 * half] && t[2 * half + 1] == s[2 * half + 1]
    ensures Paired(s, half + 1, t[half := PairAt(s, half)])
  {
    hide PairAt;
  }

  method PackScratch(nibbles: array<bv8>)
    requires nibbles.Length == 64
    modifies nibbles
    ensures Paired(old(nibbles[..]), 32, nibbles[..])
  {
    ghost var s := nibbles[..];
    var i := 0;
    assert Paired(s, 0, nibbles[..]);
    hide Or8, HighNibble, Paired;
    for half := 0 to 32
      invariant i == 2 * half && Paired(s, half, nibbles[..])
    {
      NextPair(s, half, nibbles[..]);
      assert nibbles[..][i] == nibbles[i] && nibbles[..][i + 1] == nibbles[i + 1];
      nibbles[half] := Or8(nibbles[i + 1], HighNibble(nibbles[i]));
      i := i + 2;
    }
  }

  method Quantize4Avx512(buf: array<bv8>, bytes: nat)
    requires bytes <= buf.Length
    modifies buf
    ensures Is4(old(buf[..]), bytes / 2, buf[..])
  {
    ghost var s := buf[..];
    var in_, out := 0, 0;
    assert Is4(s, out, buf[..]);
    hide Pack4;
    while in_ + 64 <= bytes
      invariant in_ == 2 * out && in_ <= bytes
      invariant Is4(s, out, buf[..])
    {
      assert buf[in_..in_ + 64] == s[in_..in_ + 64] by { Unread(s, out, buf[..], in_); }
      var packed := PackVector(buf[in_..in_ + 64]);
      ghost var t := buf[..];
      StoreVector(buf, out, packed);
      Stored4(s, out, t, packed, buf[..]);
      in_ := in_ + 64;
      out := out + 32;
    }
    Tail4(buf, s, in_, out, bytes);
  }

  /** Input not yet reached is as it was. */
  lemma Unread(s: seq<bv8>, out: nat, t: seq<bv8>, in_: nat)
    requires Is4(s, out, t) && in_ == 2 * out && in_ + 64 <= |s|
    ensures t[in_..in_ + 64] == s[in_..in_ + 64]
  {
    hide Packed4;
  }

  lemma Stored4(s: seq<bv8>, out: nat, t: seq<bv8>, packed: seq<bv8>, t': seq<bv8>)
    requires Is4(s, out, t) && 2 * out + 64 <= |s| && |packed| == 32 && |t'| == |t|
    requires forall j :: 0 <= j < 32 ==> packed[j] == Packed4(s[2 * out..2 * out + 64], j)
    requires forall j :: 0 <= j < 32 ==> t'[out + j] == packed[j]
    requires forall k :: 0 <= k < out || out + 32 <= k < |t| ==> t'[k] == t[k]
    ensures Is4(s, out + 32, t')
  {
    hide Pack4;
    forall k | out <= k < out + 32 ensures t'[k] == Packed4(s, k) {
      assert t'[out + (k - out)] == packed[k - out];
    }
  }

  /** One vector of input to half a vector of output. */
  method PackVector(v: Vector) returns (packed: seq<bv8>)
    ensures |packed| == 32 && forall j :: 0 <= j < 32 ==> packed[j] == Packed4(v, j)
  {
    hide Flip, XorB, AndB, Srai4, Pack4, Nibble, Or8, HighNibble;
    var quantized := AndB(Srai4(XorB(v, 0x80)), 0x0f);
    var nibbles := new bv8[64];
    StoreVector(nibbles, 0, quantized);
    forall k | 0 <= k < 64 ensures nibbles[k] == Nibble(Flip(v[k])) {
      assert nibbles[0 + k] == quantized[k];
      NibbleStep(v, k);
    }
    ghost var s := nibbles[..];
    PackScratch(nibbles);
    packed := nibbles[..32];
    forall j | 0 <= j < 32 ensures packed[j] == Packed4(v, j) {
      assert nibbles[..][j] == PairAt(s, j);
      PackNibbles(v[2 * j], v[2 * j + 1]);
    }
  }

  // ------------------------------------------------------------------ dispatch

  method Quantize8(buf: array<bv8>, bytes: nat, avx512: bool)
    requires bytes <= buf.Length
    modifies buf
    ensures Is8(old(buf[..]), 0, bytes, buf[..])
  {
    if avx512 { Quantize8Avx512(buf, bytes); } else { Quantize8Scalar(buf, 0, bytes); }
  }

  method Quantize4(buf: array<bv8>, bytes: nat, avx512: bool)
    requires bytes <= buf.Length
    modifies buf
    ensures Is4(old(buf[..]), bytes / 2, buf[..])
  {
    if avx512 { Quantize4Avx512(buf, bytes); } else { Quantize4Scalar(buf, bytes); }
  }

  /** The bytes a payload becomes at each width; other widths are not written. */
  function Requantized(s: seq<bv8>, bits: nat): seq<bv8> {
    if bits == 8 then seq(|s|, k requires 0 <= k < |s| => Byte8(s, 0, |s|, k))
    else if bits == 4 then seq(|s| / 2, k requires 0 <= k < |s| / 2 => Packed4(s, k))
    else if bits == 2 then seq(|s| / 4, k requires 0 <= k < |s| / 4 => Packed2(s, k))
    else []
  }

  /** One payload, in place, at the configured width. */
  method QuantizePayload(buf: array<bv8>, bits: nat, avx512: bool)
    requires bits in {8, 4, 2}
    modifies buf
    ensures |Requantized(old(buf[..]), bits)| <= buf.Length
    ensures buf[..|Requantized(old(buf[..]), bits)|] == Requantized(old(buf[..]), bits)
  {
    hide Byte8, Packed4, Packed2;
    if bits == 8 {
      Quantize8(buf, buf.Length, avx512);
      assert buf[..buf.Length] == buf[..];
    } else if bits == 4 {
      Quantize4(buf, buf.Length, avx512);
    } else {
      Quantize2(buf, buf.Length);
    }
  }
}
