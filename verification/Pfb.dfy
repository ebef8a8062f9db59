/**
  The polyphase filter bank on its ring buffer, and the reordering after the transform,
  in exact arithmetic.
 */
module Pfb {
  import opened Bits

  /** A complex sample. */
  datatype Complex = Complex(re: real, im: real)

  const ZERO := Complex(0.0, 0.0)

  const SCALE := 1.0 / 127.0

  /** Offset-binary Q,I to complex. */
  function Convert(q: bv8, i: bv8): Complex {
    Complex((i as int - 128) as real * SCALE, (q as int - 128) as real * SCALE)
  }

  function MulAdd(acc: Complex, x: Complex, h: real): Complex {
    Complex(acc.re + x.re * h, acc.im + x.im * h)
  }

  // ------------------------------------------------------------------ the direct form

  /** Sample p of block n; the history before the first block is zero. */
  function SampleAt(blocks: seq<seq<Complex>>, n: int, p: nat): Complex {
    if 0 <= n < |blocks| && p < |blocks[n]| then blocks[n][p] else ZERO
  }

  /** The sum of the real parts over the first t taps of the last `taps` blocks, oldest first. */
  function RealSum(blocks: seq<seq<Complex>>, h: seq<real>, size: nat, taps: nat, p: nat, t: nat): real
    requires t <= taps && |h| == taps * size && p < size
    decreases t
  {
    if t == 0 then 0.0
    else
      TapInRange(t - 1, taps, size, p);
      RealSum(blocks, h, size, taps, p, t - 1) + h[(t - 1) * size + p] * SampleAt(blocks, |blocks| - taps + t - 1, p).re
  }

  /** The sum of the imaginary parts. */
  function ImagSum(blocks: seq<seq<Complex>>, h: seq<real>, size: nat, taps: nat, p: nat, t: nat): real
    requires t <= taps && |h| == taps * size && p < size
    decreases t
  {
    if t == 0 then 0.0
    else
      TapInRange(t - 1, taps, size, p);
      ImagSum(blocks, h, size, taps, p, t - 1) + h[(t - 1) * size + p] * SampleAt(blocks, |blocks| - taps + t - 1, p).im
  }

  function Direct(blocks: seq<seq<Complex>>, h: seq<real>, size: nat, taps: nat, p: nat, t: nat): Complex
    requires t <= taps && |h| == taps * size && p < size
  {
    Complex(RealSum(blocks, h, size, taps, p, t), ImagSum(blocks, h, size, taps, p, t))
  }

  lemma TapInRange(t: nat, taps: nat, size: nat, p: nat)
    requires t < taps && p < size
    ensures 0 <= t * size + p < taps * size
  {
    assert taps * size == t * size + (taps - t) * size;
    MulAtLeast(taps - t, size);
  }

  /** Only the last `taps` blocks matter. */
  lemma {:induction false} DirectOfWindow(blocks: seq<seq<Complex>>, window: seq<seq<Complex>>, h: seq<real>,
                                          size: nat, taps: nat, p: nat, t: nat)
    requires t <= taps && |h| == taps * size && p < size && |window| == taps <= |blocks|
    requires blocks[|blocks| - taps..] == window
    ensures Direct(blocks, h, size, taps, p, t) == Direct(window, h, size, taps, p, t)
    decreases t
  {
    if t > 0 {
      DirectOfWindow(blocks, window, h, size, taps, p, t - 1);
      assert blocks[|blocks| - taps..][t - 1] == blocks[|blocks| - taps + (t - 1)];
    }
  }

  // ------------------------------------------------------------------ the ring

  /** Where the k-th sample of the stream is kept. */
  ghost predicate RingOk(blocks: seq<seq<Complex>>, ring: seq<Complex>, size: nat, taps: nat) {
    && size >= 1 && taps >= 1 && |ring| == taps * size
    && forall b: nat, p: nat {:trigger Slot(b, taps, size, p)} :: |blocks| <= b < |blocks| + taps && p < size ==>
         ring[Slot(b, taps, size, p)] == SampleAt(blocks, b - taps, p)
  }

  /** Block b of the stream lies in the place of b modulo the number of taps. */
  function Slot(b: nat, taps: nat, size: nat, p: nat): (i: nat)
    requires taps >= 1 && p < size
    ensures i < taps * size
  {
    TapInRange(Place(b, taps), taps, size, p);
    Place(b, taps) * size + p
  }

  /** The single conditional subtraction of the kernel is the remainder. */
  lemma SubtractionIsModulo(x: nat, w: nat)
    requires w >= 1 && x < 2 * w
    ensures (if x >= w then x - w else x) == x % w
  {
    if x >= w { DivUnique(x, w, 1, x - w); } else { DivUnique(x, w, 0, x); }
  }

  /** The place of a block t steps ahead of the head, without division. */
  lemma WrappedSlot(n: nat, t: nat, taps: nat, size: nat, p: nat)
    requires t < taps && p < size
    ensures var i := Place(n, taps) * size + t * size + p;
            var w := taps * size;
            && 0 <= i < 2 * w
            && (if i >= w then i - w else i) == Slot(n + t, taps, size, p)
  {
    var a := Place(n, taps);
    var i, w := a * size + t * size + p, taps * size;
    assert (a + t) * size == a * size + t * size;
    PlacePlus(n, t, taps);
    if a + t < taps {
      TapInRange(a + t, taps, size, p);
    } else {
      assert (a + t - taps) * size == a * size + t * size - taps * size;
      TapInRange(a + t - taps, taps, size, p);
    }
  }

  lemma PlacePlus(n: nat, t: nat, taps: nat)
    requires t < taps
    ensures Place(n + t, taps) == if Place(n, taps) + t < taps then Place(n, taps) + t else Place(n, taps) + t - taps
  {
    var q, r := n / taps, n % taps;
    if r + t < taps {
      DivUnique(n + t, taps, q, r + t);
    } else {
      assert (q + 1) * taps == q * taps + taps;
      DivUnique(n + t, taps, q + 1, r + t - taps);
    }
  }

  /** Different blocks within a ring's length never share a slot. */
  lemma SlotsDiffer(n: nat, b: nat, taps: nat, size: nat, p: nat, p': nat)
    requires taps >= 1 && p < size && p' < size && n < b < n + taps
    ensures Slot(n, taps, size, p) != Slot(b, taps, size, p')
  {
    PlacesDiffer(n, b, taps);
    if Slot(n, taps, size, p) == Slot(b, taps, size, p') {
      QuotientUnique(size, Place(n, taps), p, Place(b, taps), p');
    }
  }

  /** Writing a block at the head makes it the newest of the ring. */
  lemma RingNext(blocks: seq<seq<Complex>>, ring: seq<Complex>, ring': seq<Complex>, block: seq<Complex>, size: nat,
                 taps: nat)
    requires RingOk(blocks, ring, size, taps) && |block| == size && |ring'| == |ring|
    requires forall p: nat :: p < size ==> ring'[Slot(|blocks|, taps, size, p)] == block[p]
    requires var at := Place(|blocks|, taps) * size;
             forall i :: 0 <= i < |ring| && !(at <= i < at + size) ==> ring'[i] == ring[i]
    ensures RingOk(blocks + [block], ring', size, taps)
  {
    hide Place, Slot;
    var n, blocks' := |blocks|, blocks + [block];
    forall b: nat, p: nat | n + 1 <= b < n + 1 + taps && p < size
      ensures ring'[Slot(b, taps, size, p)] == SampleAt(blocks', b - taps, p)
    {
      if b == n + taps {
        SlotAgain(n, taps, size, p);
      } else {
        OutsideBlock(n, b, taps, size, p);
        assert ring[Slot(b, taps, size, p)] == SampleAt(blocks, b - taps, p);
      }
    }
  }

  lemma SlotAgain(n: nat, taps: nat, size: nat, p: nat)
    requires taps >= 1 && p < size
    ensures Slot(n + taps, taps, size, p) == Slot(n, taps, size, p)
  {
    PlaceAgain(n, taps);
  }

  lemma OutsideBlock(n: nat, b: nat, taps: nat, size: nat, p: nat)
    requires taps >= 1 && p < size && n < b < n + taps
    ensures !(Place(n, taps) * size <= Slot(b, taps, size, p) < Place(n, taps) * size + size)
  {
    var i := Slot(b, taps, size, p);
    if Place(n, taps) * size <= i < Place(n, taps) * size + size {
      SlotsDiffer(n, b, taps, size, i - Place(n, taps) * size, p);
    }
  }

  /** The samples of a raw block: Q in the even bytes, I in the odd ones. */
  function Samples(raw: seq<bv8>, size: nat): (s: seq<Complex>)
    requires |raw| == 2 * size
    ensures |s| == size
  {
    seq(size, i requires 0 <= i < size => Convert(raw[2 * i], raw[2 * i + 1]))
  }

  class FilterBank {
    const size: nat
    const taps: nat
    const h: seq<real>
    const ring: array<Complex>
    var head: nat
    ghost var blocks: seq<seq<Complex>>

    ghost predicate Valid()
      reads this, ring
    {
      && size >= 1 && taps >= 1 && |h| == taps * size && ring.Length == taps * size
      && head == Place(|blocks|, taps) * size
      && RingOk(blocks, ring[..], size, taps)
    }

    constructor (size: nat, taps: nat, h: seq<real>)
      requires size >= 1 && taps >= 1 && |h| == taps * size
      ensures Valid() && fresh(ring) && blocks == [] && this.size == size && this.taps == taps && this.h == h
    {
      this.size, this.taps, this.h := size, taps, h;
      ring := new Complex[taps * size](_ => ZERO);
      head, blocks := 0, [];
      DivUnique(0, taps, 0, 0);
    }

    /** uint8_offsetIQ_to_ring */
    method OffsetIqToRing(raw: seq<bv8>, w: nat)
      requires |raw| == 2 * size && w == ring.Length && head + size <= w
      modifies ring
      ensures forall k :: head <= k < head + size ==> ring[k] == Samples(raw, size)[k - head]
      ensures forall i :: 0 <= i < w && !(head <= i < head + size) ==> ring[i] == old(ring[i])
    {
      hide Convert;
      for idx := 0 to size
        invariant forall k :: head <= k < head + idx ==> ring[k] == Samples(raw, size)[k - head]
        invariant forall i :: 0 <= i < w && !(head <= i < head + idx) ==> ring[i] == old(ring[i])
      {
        InRing(head + idx, w);
        ring[(head + idx) % w] := Convert(raw[2 * idx], raw[2 * idx + 1]);
      }
    }

    /** A new block, and the advance of the head. */
    method Store(raw: seq<bv8>)
      requires Valid() && |raw| == 2 * size
      modifies this, ring
      ensures Valid() && blocks == old(blocks) + [Samples(raw, size)]
    {
      hide Samples, RingOk, Place;
      ghost var before, n := ring[..], |blocks|;
      SlotIsHead(n, taps, size);
      OffsetIqToRing(raw, ring.Length);
      ghost var block := Samples(raw, size);
      forall p: nat | p < size ensures ring[..][Slot(n, taps, size, p)] == block[p] {
        assert Slot(n, taps, size, p) == head + p;
      }
      RingNext(blocks, before, ring[..], block, size, taps);
      HeadNext(n, taps, size);
      head := (head + size) % ring.Length;
      blocks := blocks + [block];
    }

    /** kernel_pfb_sum: the ring read from the head gives the direct sum, oldest block first. */
    method Sum() returns (output: seq<Complex>)
      requires Valid()
      ensures |output| == size
      ensures forall p :: 0 <= p < size ==> output[p].re == RealSum(blocks, h, size, taps, p, taps)
      ensures forall p :: 0 <= p < size ==> output[p].im == ImagSum(blocks, h, size, taps, p, taps)
    {
      output := [];
      for p := 0 to size
        invariant |output| == p
        invariant forall k :: 0 <= k < p ==> output[k] == Direct(blocks, h, size, taps, k, taps)
      {
        var acc := SumAt(p);
        output := output + [acc];
      }
    }

    method SumAt(p: nat) returns (acc: Complex)
      requires Valid() && p < size
      ensures acc == Direct(blocks, h, size, taps, p, taps)
    {
      hide Place, SampleAt;
      acc := ZERO;
      var w := taps * size;
      for t := 0 to taps
        invariant acc == Direct(blocks, h, size, taps, p, t)
      {
        WrappedSlot(|blocks|, t, taps, size, p);
        TapInRange(t, taps, size, p);
        var idx := head + t * size + p;
        if idx >= w { idx := idx - w; }
        assert idx == Slot(|blocks| + t, taps, size, p);
        assert ring[..][idx] == SampleAt(blocks, |blocks| + t - taps, p);
        acc := MulAdd(acc, ring[idx], h[t * size + p]);
      }
    }
  }

  lemma SlotIsHead(n: nat, taps: nat, size: nat)
    requires taps >= 1 && size >= 1
    ensures Place(n, taps) * size + size <= taps * size
    ensures forall p: nat :: p < size ==> Slot(n, taps, size, p) == Place(n, taps) * size + p
  {
    TapInRange(Place(n, taps), taps, size, size - 1);
  }

  lemma InRing(i: nat, w: nat)
    requires i < w
    ensures i % w == i
  {
    DivUnique(i, w, 0, i);
  }

  lemma HeadNext(n: nat, taps: nat, size: nat)
    requires taps >= 1 && size >= 1
    ensures taps * size >= 1 && (Place(n, taps) * size + size) % (taps * size) == Place(n + 1, taps) * size
  {
    var a, w := Place(n, taps), taps * size;
    MulAtLeast(taps, size);
    assert (a + 1) * size == a * size + size;
    if taps == 1 {
      assert Place(n, 1) == 0 && Place(n + 1, 1) == 0;
      DivUnique(size, w, 1, 0);
    } else {
      PlacePlus(n, 1, taps);
      if a + 1 < taps {
        TapInRange(a + 1, taps, size, 0);
        DivUnique(a * size + size, w, 0, (a + 1) * size);
      } else {
        DivUnique(a * size + size, w, 1, 0);
      }
    }
  }

  // ------------------------------------------------------------------ reordering after the transform

  /** The halves exchanged; with an odd length the last element stays. */
  function Shifted<T>(s: seq<T>): seq<T> {
    var half := |s| / 2;
    seq(|s|, i requires 0 <= i < |s| => if i < half then s[i + half] else if i < 2 * half then s[i - half] else s[i])
  }

  /** fftshift_1d, every thread of the first half swapping one pair. */
  method FftShift<T>(data: array<T>)
    modifies data
    ensures data[..] == Shifted(old(data[..]))
  {
    var half := data.Length / 2;
    ghost var s := data[..];
    for idx := 0 to half
      invariant forall i :: 0 <= i < idx ==> data[i] == s[i + half] && data[i + half] == s[i]
      invariant forall i :: idx <= i < half || half + idx <= i < data.Length ==> data[i] == s[i]
    {
      var tmp := data[idx];
      data[idx] := data[idx + half];
      data[idx + half] := tmp;
    }
    forall i | 0 <= i < data.Length ensures data[i] == Shifted(s)[i] {
      if half <= i < 2 * half { assert data[(i - half) + half] == s[i - half]; }
    }
  }

  /** It is its own inverse. */
  lemma ShiftIsInvolution<T>(s: seq<T>)
    ensures Shifted(Shifted(s)) == s
  {
  }

  /** At even length it is rotation by half, putting zero frequency in the middle. */
  lemma ShiftIsRotation<T>(s: seq<T>, i: nat)
    requires |s| % 2 == 0 && i < |s|
    ensures Shifted(s)[i] == s[(i + |s| / 2) % |s|]
  {
    var n := |s|;
    if i < n / 2 { DivUnique(i + n / 2, n, 0, i + n / 2); } else { DivUnique(i + n / 2, n, 1, i - n / 2); }
  }

  /** At odd length it is not: the last element never moves, where rotation would bring another. */
  lemma OddShiftKeepsLast<T>(s: seq<T>)
    requires |s| % 2 == 1
    ensures Shifted(s)[|s| - 1] == s[|s| - 1]
    ensures |s| >= 3 ==> (|s| - 1 + |s| / 2) % |s| != |s| - 1
  {
    var n := |s|;
    if n >= 3 { DivUnique(n - 1 + n / 2, n, 1, n / 2 - 1); }
  }
}
