/**
  Timestamps of results: the group delay of the filter bank, the saturating compensation,
  and the centre of an integration.
 */
module Timing {
  import opened Units
  import opened Integration

  const SAMPLES_PER_PACKET := 4096
  const SAMPLING_RATE := 256_000_000

  datatype Result = Ok(ns: nat) | InvalidArgument

  /** llround of a non-negative quotient: to nearest, halves away from zero. */
  function RoundedQuotient(num: nat, den: nat): nat
    requires den > 0
  {
    (2 * num + den) / (2 * den)
  }

  /** The quotient is within half of what it rounds, and halves go up. */
  lemma RoundsToNearest(num: nat, den: nat)
    requires den > 0
    ensures var r := RoundedQuotient(num, den); 2 * num - den < 2 * den * r <= 2 * num + den
  {
    var n, d := 2 * num + den, 2 * den;
    assert n == n / d * d + n % d;
  }

  function PfbGroupDelayNs(taps: nat, fftSize: nat, rate: nat): Result {
    if taps == 0 || fftSize == 0 || rate == 0 then InvalidArgument
    else Ok(RoundedQuotient((taps - 1) * fftSize * NS_PER_SEC, 2 * rate))
  }

  function CompensateDelayNs(timestamp: nat, delay: nat): nat {
    if delay > timestamp then 0 else timestamp - delay
  }

  /** The compensated time is the least, from zero on, that is no more than the delay early. */
  lemma CompensationSaturates(timestamp: nat, delay: nat, other: nat)
    requires timestamp <= other + delay
    ensures var r := CompensateDelayNs(timestamp, delay); timestamp <= r + delay && r <= other
  {
  }

  /** One filter-bank block of the given number of packets, at the receiver's sampling rate. */
  function FftPeriodNs(batchsize: nat): nat {
    RoundedQuotient(batchsize * SAMPLES_PER_PACKET * NS_PER_SEC, SAMPLING_RATE)
  }

  function CentreNs(first: nat, last: nat, period: nat): nat
    requires first <= last
  {
    first + (last - first + period) / 2
  }

  /** A block lasts exactly as long as its packets. */
  lemma PeriodIsExact(batchsize: nat)
    ensures FftPeriodNs(batchsize) == batchsize * FRAME_NS
  {
  }

  /** The group delay is half a block per extra tap, without rounding. */
  lemma DelayIsExact(taps: nat, batchsize: nat)
    requires taps >= 1 && batchsize >= 1
    ensures PfbGroupDelayNs(taps, batchsize * SAMPLES_PER_PACKET, SAMPLING_RATE)
            == Ok((taps - 1) * (batchsize * (FRAME_NS / 2)))
  {
    var m := (taps - 1) * batchsize;
    assert (taps - 1) * (batchsize * SAMPLES_PER_PACKET) * NS_PER_SEC == m * (SAMPLES_PER_PACKET * NS_PER_SEC);
    assert (taps - 1) * (batchsize * (FRAME_NS / 2)) == m * (FRAME_NS / 2);
    ExactQuotient(m);
  }

  lemma ExactQuotient(m: nat)
    ensures RoundedQuotient(m * (SAMPLES_PER_PACKET * NS_PER_SEC), 2 * SAMPLING_RATE) == m * (FRAME_NS / 2)
  {
  }

  // ------------------------------------------------------------------ an integration without calibration

  /** Consecutive blocks are one period apart. */
  ghost predicate Spaced(blocks: seq<Input>, from: nat, to: nat, period: nat) {
    forall m :: from <= m < to < |blocks| ==> blocks[m + 1].timestamp == blocks[m].timestamp + period
  }

  /** Without calibration an integration is made of consecutive blocks. */
  lemma {:induction false} MembersConsecutive(c: Config, blocks: seq<Input>, g: Group, i: nat)
    requires !c.cal && GroupOk(c, blocks, g) && i < |g.members|
    ensures g.members[i] == g.members[0] + i
    decreases i
  {
    hide Length;
    if i > 0 {
      MembersConsecutive(c, blocks, g, i - 1);
      var m := g.members[i - 1] + 1;
      if m != g.members[i] {
        assert !g.on;
        assert g.members[i] <= g.members[|g.members| - 1];
        assert blocks[m].valid && Contributes(c, blocks[m], false);
        assert m in g.members;
        var j :| 0 <= j < |g.members| && g.members[j] == m;
      }
    }
  }

  lemma {:induction false} SpacedSpan(blocks: seq<Input>, from: nat, n: nat, period: nat)
    requires from + n < |blocks| && Spaced(blocks, from, from + n, period)
    ensures blocks[from + n].timestamp == blocks[from].timestamp + n * period
    decreases n
  {
    if n > 0 {
      SpacedSpan(blocks, from, n - 1, period);
      assert n * period == (n - 1) * period + period;
      assert blocks[from + (n - 1) + 1].timestamp == blocks[from + (n - 1)].timestamp + period;
    }
  }

  /** Last and first timestamps of a result are its length less one periods apart. */
  lemma ResultSpan(c: Config, blocks: seq<Input>, g: Group, period: nat)
    requires !c.cal && GroupOk(c, blocks, g)
    requires Spaced(blocks, g.members[0], g.members[|g.members| - 1], period)
    ensures var first, last := blocks[g.members[0]].timestamp, blocks[g.members[|g.members| - 1]].timestamp;
            last == first + (Length(c) - 1) * period
  {
    var n := |g.members| - 1;
    MembersConsecutive(c, blocks, g, n);
    assert g.members[n] < |blocks|;
    SpacedSpan(blocks, g.members[0], n, period);
  }

  /** Halving sums of even numbers. */
  lemma Halves(a: nat, b: nat)
    ensures (2 * a) / 2 == a && (2 * a + 2 * b) / 2 == a + b
  {
  }

  /**
    The compensated centre of a result is the midpoint of the raw samples that fed it: from
    the start of the history of its first block to the end of its last, when the
    compensation does not saturate.
   */
  lemma CentreIsMidpoint(first: nat, length: nat, taps: nat, batchsize: nat)
    requires length >= 1 && taps >= 1 && batchsize >= 1
    requires PfbGroupDelayNs(taps, batchsize * SAMPLES_PER_PACKET, SAMPLING_RATE).ns
               <= CentreNs(first, first + (length - 1) * FftPeriodNs(batchsize), FftPeriodNs(batchsize))
    ensures var period := FftPeriodNs(batchsize);
            var last := first + (length - 1) * period;
            var delay := PfbGroupDelayNs(taps, batchsize * SAMPLES_PER_PACKET, SAMPLING_RATE).ns;
            var rawStart, rawEnd := first - (taps - 1) * period, last + period;
            2 * CompensateDelayNs(CentreNs(first, last, period), delay) == rawStart + rawEnd
  {
    PeriodIsExact(batchsize);
    DelayIsExact(taps, batchsize);
    var h := batchsize * (FRAME_NS / 2);
    var period := FftPeriodNs(batchsize);
    assert period == 2 * h;
    assert (length - 1) * period + period == 2 * (length * h) by {
      assert (length - 1) * period + period == length * period;
      assert length * (2 * h) == 2 * (length * h);
    }
    assert (taps - 1) * period == 2 * ((taps - 1) * h) by { assert (taps - 1) * (2 * h) == 2 * ((taps - 1) * h); }
    Halves(length * h, 0);
    hide FftPeriodNs, PfbGroupDelayNs;
  }
}
