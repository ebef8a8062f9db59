/**
  The Python reader's decoder of complex payloads, and the round trip through the
  receiver's requantizers.
 */
module Decode {
  import opened Quantize

  /** A complex sample. */
  datatype Sample = Sample(re: int, im: int)

  datatype Decoded = Samples(samples: seq<Sample>) | OddByteCount | UnsupportedWidth

  /** Two's-complement value of a byte, as numpy's int8 view. */
  function Signed8(b: bv8): int { if b < 0x80 then b as int else b as int - 256 }

  /** (v ^ sign) - sign */
  function SignedField(v: bv8, sign: bv8): int { (v ^ sign) as int - sign as int }

  function LowNibble(b: bv8): bv8 { b & 0x0f }
  function HighNibbleOf(b: bv8): bv8 { b >> 4 }
  function Field0(b: bv8): bv8 { b & 0x03 }
  function Field1(b: bv8): bv8 { (b >> 2) & 0x03 }
  function Field2(b: bv8): bv8 { (b >> 4) & 0x03 }
  function Field3(b: bv8): bv8 { b >> 6 }

  function DecodePayload(payload: seq<bv8>, bits: nat): Decoded {
    if bits == 8 then
      if |payload| % 2 != 0 then OddByteCount
      else Samples(seq(|payload| / 2, m requires 0 <= m < |payload| / 2 =>
             Sample(Signed8(payload[2 * m]), Signed8(payload[2 * m + 1]))))
    else if bits == 4 then
      Samples(seq(|payload|, m requires 0 <= m < |payload| =>
        Sample(SignedField(LowNibble(payload[m]), 8), SignedField(HighNibbleOf(payload[m]), 8))))
    else if bits == 2 then
      Samples(seq(2 * |payload|, m requires 0 <= m < 2 * |payload| =>
        if m % 2 == 0
        then Sample(SignedField(Field0(payload[m / 2]), 2), SignedField(Field1(payload[m / 2]), 2))
        else Sample(SignedField(Field2(payload[m / 2]), 2), SignedField(Field3(payload[m / 2]), 2))))
    else UnsupportedWidth
  }

  // ------------------------------------------------------------------ one component

  /** An offset-binary byte with its low bits dropped: floor((x - 128) / step). */
  function Truncated(x: bv8, step: int): int
    requires step > 0
  {
    (x as int - 128) / step
  }

  lemma Flip8(x: bv8)
    ensures Signed8(Flip(x)) == Truncated(x, 1)
  {
  }

  lemma ShiftedFour(x: bv8)
    ensures (x >> 4) as int == x as int / 16
  {
  }

  lemma ShiftedSix(x: bv8)
    ensures (x >> 6) as int == x as int / 64
  {
  }

  lemma Nibbles(q: bv8, i: bv8)
    ensures LowNibble(Pack4(q, i)) ^ 8 == i >> 4 && HighNibbleOf(Pack4(q, i)) ^ 8 == q >> 4
  {
  }

  lemma FieldsLow(q0: bv8, i0: bv8, q1: bv8, i1: bv8)
    ensures Field0(Pack2(q0, i0, q1, i1)) ^ 2 == i0 >> 6 && Field1(Pack2(q0, i0, q1, i1)) ^ 2 == q0 >> 6
  {
  }

  lemma FieldsHigh(q0: bv8, i0: bv8, q1: bv8, i1: bv8)
    ensures Field2(Pack2(q0, i0, q1, i1)) ^ 2 == i1 >> 6 && Field3(Pack2(q0, i0, q1, i1)) ^ 2 == q1 >> 6
  {
  }

  lemma FloorHalf(x: int)
    ensures (x - 128) / 16 == x / 16 - 8 && (x - 128) / 64 == x / 64 - 2
  {
  }

  lemma Component4(v: bv8, x: bv8)
    requires v ^ 8 == x >> 4
    ensures SignedField(v, 8) == Truncated(x, 16)
  {
    ShiftedFour(x);
    FloorHalf(x as int);
  }

  lemma Component2(v: bv8, x: bv8)
    requires v ^ 2 == x >> 6
    ensures SignedField(v, 2) == Truncated(x, 64)
  {
    ShiftedSix(x);
    FloorHalf(x as int);
  }

  // ------------------------------------------------------------------ whole payloads

  function StepOf(bits: nat): int { if bits == 8 then 1 else if bits == 4 then 16 else 64 }

  /** Sample m of the input: Q first, then I. */
  function Expected(s: seq<bv8>, m: nat, bits: nat): Sample
    requires 2 * m + 1 < |s|
  {
    Sample(Truncated(s[2 * m + 1], StepOf(bits)), Truncated(s[2 * m], StepOf(bits)))
  }

  lemma RoundTrip8(s: seq<bv8>, payload: seq<bv8>, m: nat)
    requires payload == Requantized(s, 8) && |s| % 2 == 0 && 2 * m + 1 < |s|
    ensures Sample(Signed8(payload[2 * m]), Signed8(payload[2 * m + 1])) == Expected(s, m, 8)
  {
    hide Signed8, Truncated, Flip;
    Flip8(s[2 * m]);
    Flip8(s[2 * m + 1]);
  }

  lemma RoundTrip4(s: seq<bv8>, m: nat)
    requires 2 * m + 1 < |s|
    ensures var b := Packed4(s, m);
            Sample(SignedField(LowNibble(b), 8), SignedField(HighNibbleOf(b), 8)) == Expected(s, m, 4)
  {
    hide SignedField, Truncated, Pack4, LowNibble, HighNibbleOf;
    Nibbles(s[2 * m], s[2 * m + 1]);
    Component4(LowNibble(Packed4(s, m)), s[2 * m + 1]);
    Component4(HighNibbleOf(Packed4(s, m)), s[2 * m]);
  }

  lemma RoundTrip2(s: seq<bv8>, k: nat)
    requires 4 * k + 3 < |s|
    ensures var b := Packed2(s, k);
            && Sample(SignedField(Field0(b), 2), SignedField(Field1(b), 2)) == Expected(s, 2 * k, 2)
            && Sample(SignedField(Field2(b), 2), SignedField(Field3(b), 2)) == Expected(s, 2 * k + 1, 2)
  {
    hide SignedField, Truncated, Pack2, Field0, Field1, Field2, Field3;
    var b := Packed2(s, k);
    FieldsLow(s[4 * k], s[4 * k + 1], s[4 * k + 2], s[4 * k + 3]);
    FieldsHigh(s[4 * k], s[4 * k + 1], s[4 * k + 2], s[4 * k + 3]);
    Component2(Field0(b), s[4 * k + 1]);
    Component2(Field1(b), s[4 * k]);
    Component2(Field2(b), s[4 * k + 3]);
    Component2(Field3(b), s[4 * k + 2]);
  }

  /** The samples read back are the samples sent, truncated. */
  ghost predicate ReadsBack(s: seq<bv8>, bits: nat, payload: seq<bv8>) {
    var d := DecodePayload(payload, bits);
    && d.Samples? && |d.samples| == |s| / 2
    && forall m :: 0 <= m < |s| / 2 ==> d.samples[m] == Expected(s, m, bits)
  }

  lemma Decode8(s: seq<bv8>, payload: seq<bv8>)
    requires |s| % 2 == 0 && payload == Requantized(s, 8)
    ensures ReadsBack(s, 8, payload)
  {
    hide Truncated, Signed8, Expected;
    forall m | 0 <= m < |s| / 2 ensures DecodePayload(payload, 8).samples[m] == Expected(s, m, 8) {
      RoundTrip8(s, payload, m);
    }
  }

  lemma Decode4(s: seq<bv8>, payload: seq<bv8>)
    requires |s| % 2 == 0 && payload == Requantized(s, 4)
    ensures ReadsBack(s, 4, payload)
  {
    hide SignedField, Expected, Packed4;
    forall m | 0 <= m < |s| / 2 ensures DecodePayload(payload, 4).samples[m] == Expected(s, m, 4) {
      RoundTrip4(s, m);
    }
  }

  lemma Decode2(s: seq<bv8>, payload: seq<bv8>)
    requires |s| % 4 == 0 && payload == Requantized(s, 2)
    ensures ReadsBack(s, 2, payload)
  {
    hide SignedField, Expected, Packed2;
    forall m | 0 <= m < |s| / 2 ensures DecodePayload(payload, 2).samples[m] == Expected(s, m, 2) {
      RoundTrip2(s, m / 2);
    }
  }

  /**
    The reader gets back, for every sample, floor((I - 128) / 2^(8-N)) and
    floor((Q - 128) / 2^(8-N)), in that order, at every width N.
   */
  lemma DecodeOfWritten(s: seq<bv8>, bits: nat, payload: seq<bv8>)
    requires bits in {8, 4, 2} && |s| % (if bits == 2 then 4 else 2) == 0 && payload == Requantized(s, bits)
    ensures ReadsBack(s, bits, payload)
  {
    hide Requantized, ReadsBack;
    if bits == 8 {
      Decode8(s, payload);
    } else if bits == 4 {
      Decode4(s, payload);
    } else {
      Decode2(s, payload);
    }
  }

  /** Truncation moves each component down by less than one step. */
  lemma TruncationError(x: bv8, bits: nat)
    requires bits in {8, 4, 2}
    ensures 0 <= (x as int - 128) - Truncated(x, StepOf(bits)) * StepOf(bits) < StepOf(bits)
  {
    FloorError(x as int - 128);
  }

  lemma FloorError(d: int)
    ensures 0 <= d - d / 1 * 1 < 1 && 0 <= d - d / 16 * 16 < 16 && 0 <= d - d / 64 * 64 < 64
  {
  }

  /** A frame filled with 0x80 is read as zero voltage at every width. */
  lemma FillIsZeroVoltage(s: seq<bv8>, bits: nat, payload: seq<bv8>)
    requires bits in {8, 4, 2} && |s| % (if bits == 2 then 4 else 2) == 0 && payload == Requantized(s, bits)
    requires forall k :: 0 <= k < |s| ==> s[k] == 0x80
    ensures var d := DecodePayload(payload, bits);
            d.Samples? && forall m :: 0 <= m < |d.samples| ==> d.samples[m] == Sample(0, 0)
  {
    DecodeOfWritten(s, bits, payload);
    hide DecodePayload, Requantized;
    assert Truncated(0x80, StepOf(bits)) == 0;
  }
}
