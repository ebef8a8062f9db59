/**
  The time of a published result, from the packet numbers of the batches that fed it.
 */
module ResultTime {
  import opened Bits
  import opened BitFields
  import opened Units
  import opened Vdif
  import VdifTime
  import opened Integration
  import opened Timing
  import Accumulators

  lemma EpochFits(h: Header)
    ensures Read(h, ReferenceEpoch) < 64
  {
    AndMask(Shr(Word(h, 1), 24), 6);
    Powers();
    hide And, Shr, Word, Pow2;
  }

  /** The header stamped with a batch's first packet number tells that packet's time. */
  lemma StampedTime(h: Header, id: nat)
    requires id < Pow2(30) * FRAMES_PER_SECOND
    ensures Read(h, ReferenceEpoch) < 64
    ensures var g := WithPacketId(h, id);
            VdifTime.Timestamp(Read(g, ReferenceEpoch), Read(g, Seconds), Read(g, FrameNumber)).Ok?
            && VdifTime.Timestamp(Read(g, ReferenceEpoch), Read(g, Seconds), Read(g, FrameNumber)).ns
               == VdifTime.PacketTime(Read(h, ReferenceEpoch), id)
  {
    EpochFits(h);
    hide WithPacketId, Read, Pow2, VdifTime.ScanLeaps;
    WithPacketIdFields(h, id, ReferenceEpoch);
    WithPacketIdFields(h, id, Seconds);
    WithPacketIdFields(h, id, FrameNumber);
    SecondsFit(id);
  }

  lemma SecondsFit(id: nat)
    requires id < Pow2(30) * FRAMES_PER_SECOND
    ensures id / FRAMES_PER_SECOND % Pow2(30) == id / FRAMES_PER_SECOND
  {
    Powers();
    hide Pow2;
    SmallMod(id / FRAMES_PER_SECOND, 0x4000_0000);
  }

  /** Block m was stamped with the first packet number of batch b0 + m, under one epoch. */
  ghost predicate TimedByPackets(blocks: seq<Input>, epoch: nat, batchsize: nat, b0: nat, from: nat, to: nat)
    requires epoch < 64
  {
    forall m :: from <= m <= to && m < |blocks| ==>
        blocks[m].timestamp == VdifTime.PacketTime(epoch, BatchStart(b0 + m, batchsize))
  }

  function BatchStart(b: nat, batchsize: nat): nat { b * batchsize }

  /** No packet after the first of batch lo, up to the first of batch hi, enters a leap second. */
  ghost predicate NoLeap(epoch: nat, lo: nat, hi: nat)
    requires epoch < 64
  {
    forall id :: lo < id <= hi ==> !VdifTime.EntersLeap(epoch, id)
  }

  lemma {:induction false} BatchStartMonotone(a: nat, b: nat, batchsize: nat)
    requires a <= b
    ensures BatchStart(a, batchsize) <= BatchStart(b, batchsize)
    decreases b
  {
    if a < b {
      BatchStartMonotone(a, b - 1, batchsize);
      assert BatchStart(b, batchsize) == BatchStart(b - 1, batchsize) + batchsize;
    }
  }

  /** Away from leap seconds, consecutive blocks are one period apart. */
  lemma BlocksAreSpaced(blocks: seq<Input>, epoch: nat, batchsize: nat, b0: nat, from: nat, to: nat)
    requires epoch < 64 && from <= to < |blocks| && TimedByPackets(blocks, epoch, batchsize, b0, from, to)
    requires NoLeap(epoch, BatchStart(b0 + from, batchsize), BatchStart(b0 + to, batchsize))
    ensures Spaced(blocks, from, to, FftPeriodNs(batchsize))
  {
    hide VdifTime.PacketTime, FftPeriodNs, NoLeap, BatchStart;
    PeriodIsExact(batchsize);
    forall m: nat | from <= m < to ensures blocks[m + 1].timestamp == blocks[m].timestamp + FftPeriodNs(batchsize) {
      BatchStep(epoch, batchsize, b0 + from, b0 + m, b0 + to);
      assert b0 + (m + 1) == (b0 + m) + 1;
    }
  }

  lemma BatchStep(epoch: nat, batchsize: nat, lo: nat, b: nat, hi: nat)
    requires epoch < 64 && lo <= b < hi
    requires NoLeap(epoch, BatchStart(lo, batchsize), BatchStart(hi, batchsize))
    ensures VdifTime.PacketTime(epoch, BatchStart(b + 1, batchsize))
         == VdifTime.PacketTime(epoch, BatchStart(b, batchsize)) + batchsize * FRAME_NS
  {
    hide VdifTime.PacketTime, VdifTime.EntersLeap;
    BatchStartMonotone(lo, b, batchsize);
    BatchStartMonotone(b + 1, hi, batchsize);
    var id := BatchStart(b, batchsize);
    assert BatchStart(b + 1, batchsize) == id + batchsize;
    hide BatchStart;
    VdifTime.PacketSpan(epoch, id, batchsize);
  }

  /**
    Without calibration and with no leap second inside, every published result spans its
    length less one periods, and its compensated centre is the midpoint of the raw samples
    that fed it, filter-bank history included, unless the compensation saturates.
   */
  lemma ResultIsCentred(c: Config, blocks: seq<Input>, published: seq<Accumulators.Result>, k: nat,
                        epoch: nat, batchsize: nat, b0: nat, taps: nat)
    requires !c.cal && Accumulators.PublishedOk(c, blocks, published) && k < |published|
    requires epoch < 64 && batchsize >= 1 && taps >= 1
    requires k < |Groups(c, blocks)| && |Groups(c, blocks)[k].members| > 0
    requires var g := Groups(c, blocks)[k].members;
             && TimedByPackets(blocks, epoch, batchsize, b0, g[0], g[|g| - 1])
             && NoLeap(epoch, BatchStart(b0 + g[0], batchsize), BatchStart(b0 + g[|g| - 1], batchsize))
    ensures var period, r := FftPeriodNs(batchsize), published[k];
            var delay := PfbGroupDelayNs(taps, batchsize * SAMPLES_PER_PACKET, SAMPLING_RATE).ns;
            && r.last == r.first + (Length(c) - 1) * period && r.first <= r.last
            && (delay <= CentreNs(r.first, r.last, period) ==>
                  2 * CompensateDelayNs(CentreNs(r.first, r.last, period), delay)
                    == (r.first - (taps - 1) * period) + (r.last + period))
  {
    hide Groups, FftPeriodNs, PfbGroupDelayNs, Spaced, NoLeap, TimedByPackets, BatchStart;
    Accumulators.EveryResultIsExact(c, blocks, published, k);
    var g := Groups(c, blocks)[k];
    FirstToLast(c, blocks, g);
    BlocksAreSpaced(blocks, epoch, batchsize, b0, g.members[0], g.members[|g.members| - 1]);
    ResultSpan(c, blocks, g, FftPeriodNs(batchsize));
    hide GroupOk, Accumulators.Sum;
    var period, r := FftPeriodNs(batchsize), published[k];
    DelayExists(taps, batchsize);
    if PfbGroupDelayNs(taps, batchsize * SAMPLES_PER_PACKET, SAMPLING_RATE).ns <= CentreNs(r.first, r.last, period) {
      CentreIsMidpoint(r.first, Length(c), taps, batchsize);
    }
  }

  lemma FirstToLast(c: Config, blocks: seq<Input>, g: Group)
    requires GroupOk(c, blocks, g)
    ensures g.members[0] <= g.members[|g.members| - 1] < |blocks|
  {
  }

  lemma DelayExists(taps: nat, batchsize: nat)
    requires taps >= 1 && batchsize >= 1
    ensures PfbGroupDelayNs(taps, batchsize * SAMPLES_PER_PACKET, SAMPLING_RATE).Ok?
  {
    DelayIsExact(taps, batchsize);
  }
}
