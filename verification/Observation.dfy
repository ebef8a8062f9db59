/**
  A whole observation, from the packets of two polarizations to published results: the
  outputs of the alignment, the noise cycle learned from the batches and the times stamped
  on them are the inputs of the integration.
 */
module Observation {
  import opened Bits
  import opened Units
  import opened Vdif
  import VdifTime
  import opened BatchAssembly
  import opened BatchAcceptance
  import opened BatchCorrectness
  import HO = HeaderOrigin
  import opened BasebandFrames
  import opened Alignment
  import opened EndToEnd
  import N = NoiseCycle
  import I = Integration
  import A = Accumulators
  import RT = ResultTime
  import T = Timing

  type VdifBatch = Batch<Header, Payload>

  /** The time read from a batch's first header. */
  function TimeOf(batch: VdifBatch): VdifTime.Result {
    if batch.hdrs == [] then VdifTime.OutOfRange
    else
      var h := batch.hdrs[0];
      VdifTime.Timestamp(Read(h, ReferenceEpoch), Read(h, Seconds), Read(h, FrameNumber))
  }

  function TimeNs(batch: VdifBatch): nat { if TimeOf(batch).Ok? then TimeOf(batch).ns else 0 }

  function NoiseFlag(batch: VdifBatch): bool { batch.noiseState != [] && batch.noiseState[0] == 1 }

  /** Batch k of the aligned sequence, on the first polarization. */
  function Aligned(queue: seq<VdifBatch>, first: nat, m: nat, k: nat): VdifBatch
    requires first <= m && m + k - first < |queue|
  {
    queue[m + k - first]
  }

  /** The noise cycle as known at block k. */
  function NoiseAt(queue: seq<VdifBatch>, first: nat, m: nat, k: nat): N.Noise
    requires first <= m && m + k - first < |queue|
    decreases k
  {
    var batch := Aligned(queue, first, m, k);
    N.Learned(if k == 0 then N.UNKNOWN else NoiseAt(queue, first, m, k - 1), NoiseFlag(batch), TimeNs(batch))
  }

  /** What the integration is given for block k. */
  function InputAt(cycle: N.Cycle, queue: seq<VdifBatch>, first: nat, m: nat, k: nat, o: Output, power: I.Vec): I.Input
    requires first <= m && m + k - first < |queue|
  {
    var t, noise := TimeNs(Aligned(queue, first, m, k)), NoiseAt(queue, first, m, k);
    I.Input(t, o.valid, noise.on, N.IsNoiseBlank(cycle, noise.start, t) != N.Blank(false), power)
  }

  /** Everything an observation is made of. */
  datatype Setup = Setup(
    c: Config<Header, Payload>, bits: nat, threadId: nat, calMode: bool,
    rawA: seq<RawPacket>, rawB: seq<RawPacket>, taps: nat, cycle: N.Cycle,
    outputs: seq<Output>, powers: seq<I.Vec>)

  function PacketsA(s: Setup): seq<Packet<Header, Payload>> { ParseAll(s.rawA, s.calMode) }
  function PacketsB(s: Setup): seq<Packet<Header, Payload>> { ParseAll(s.rawB, s.calMode) }

  function TakenA(s: Setup): seq<Packet<Header, Payload>>
    requires s.c.batchsize >= 1
  {
    Accepted(s.c.batchsize, PacketsA(s))
  }

  function TakenB(s: Setup): seq<Packet<Header, Payload>>
    requires s.c.batchsize >= 1
  {
    Accepted(s.c.batchsize, PacketsB(s))
  }

  function QueueA(s: Setup): seq<VdifBatch>
    requires ConfigSized(s)
  {
    ReceiveAll(s.c, PacketsA(s)).queue
  }

  function QueueB(s: Setup): seq<VdifBatch>
    requires ConfigSized(s)
  {
    ReceiveAll(s.c, PacketsB(s)).queue
  }

  predicate ConfigSized(s: Setup) { s.c.batchsize >= 1 && s.c.poolSize >= 2 }

  /** The batch of the first packet taken. */
  function FirstBatch(a: seq<Packet<Header, Payload>>, size: nat): nat {
    if a == [] || size == 0 then 0 else a[0].id / size
  }

  function FirstA(s: Setup): nat
    requires ConfigSized(s)
  {
    FirstBatch(TakenA(s), s.c.batchsize)
  }

  function FirstB(s: Setup): nat
    requires ConfigSized(s)
  {
    FirstBatch(TakenB(s), s.c.batchsize)
  }

  /** The first aligned batch number. */
  function Origin(s: Setup): nat
    requires ConfigSized(s)
  {
    Max(FirstA(s), FirstB(s))
  }

  /** A spectral observation of two streams, its outputs those of the alignment worker. */
  ghost predicate Observed(s: Setup) {
    && ConfigSized(s) && s.bits >= 1 && s.taps >= 1
    && s.c == VdifConfig(s.c.batchsize, s.c.poolSize, false, s.bits, s.threadId)
    && TakenA(s) != [] && TakenB(s) != []
    && |s.powers| == |s.outputs| <= Pairs(Delivered(QueueA(s)), FirstA(s), Delivered(QueueB(s)), FirstB(s))
    && forall k: nat :: k < |s.outputs| ==>
         OutputOk(Delivered(QueueA(s)), FirstA(s), Delivered(QueueB(s)), FirstB(s), s.taps, k, s.outputs[k])
  }

  lemma InRange(s: Setup, k: nat)
    requires Observed(s) && k < |s.outputs|
    ensures FirstA(s) <= Origin(s) && Origin(s) + k - FirstA(s) < |QueueA(s)|
  {
    DeliveredLength(QueueA(s));
    DeliveredLength(QueueB(s));
    hide QueueA, QueueB, FirstA, FirstB, OutputOk, Delivered;
  }

  /** The inputs of the integration. */
  ghost function Inputs(s: Setup): (r: seq<I.Input>)
    requires Observed(s)
    ensures |r| == |s.outputs|
  {
    seq(|s.outputs|, k requires 0 <= k < |s.outputs| =>
      InRange(s, k);
      InputAt(s.cycle, QueueA(s), FirstA(s), Origin(s), k, s.outputs[k], s.powers[k]))
  }

  lemma InputIs(s: Setup, k: nat)
    requires Observed(s) && k < |s.outputs|
    ensures FirstA(s) <= Origin(s) && Origin(s) + k - FirstA(s) < |QueueA(s)|
    ensures Inputs(s)[k] == InputAt(s.cycle, QueueA(s), FirstA(s), Origin(s), k, s.outputs[k], s.powers[k])
  {
    InRange(s, k);
    hide InputAt, QueueA, FirstA, Origin, Observed;
  }

  // ------------------------------------------------------------------ every packet of every result

  /** Block k is valid exactly when every packet of its window arrived on both polarizations. */
  lemma ValidInput(s: Setup, k: nat)
    requires Observed(s) && k < |s.outputs|
    ensures Inputs(s)[k].valid <==>
              && k + 1 >= s.taps && (FirstA(s) == FirstB(s) || k >= s.taps)
              && forall id :: Start(s.c, Origin(s) + k + 1 - s.taps) <= id < Start(s.c, Origin(s) + k + 1)
                   ==> Has(TakenA(s), id) && Has(TakenB(s), id)
  {
    hide OutputOk, Delivered, VdifConfig, Start, Has, Inputs, QueueA, QueueB, TakenA, TakenB, FirstA, FirstB, Stream;
    InputIs(s, k);
    StreamsAre(s);
    ValidMeansEveryPacket(s.c, TakenA(s), FirstA(s), QueueA(s), TakenB(s), FirstB(s), QueueB(s), s.taps, k,
      s.outputs[k]);
  }

  lemma StreamsAre(s: Setup)
    requires ConfigSized(s) && TakenA(s) != [] && TakenB(s) != []
    ensures Stream(s.c, TakenA(s), FirstA(s), QueueA(s)) && Stream(s.c, TakenB(s), FirstB(s), QueueB(s))
  {
    hide ReceiveAll, Accepted, ParseAll, Stream;
    ReceiverGivesStream(s.c, PacketsA(s));
    ReceiverGivesStream(s.c, PacketsB(s));
  }

  /** Every packet of block k itself. */
  lemma OwnPackets(s: Setup, k: nat)
    requires Observed(s) && k < |s.outputs| && Inputs(s)[k].valid
    ensures Has(TakenA(s), Start(s.c, Origin(s) + k))
  {
    hide *;
    ObservedSizes(s);
    ValidInput(s, k);
    StartMonotone(s.c, Origin(s) + k + 1 - s.taps, Origin(s) + k);
    StartNext(s.c, Origin(s) + k);
  }

  /** The packet of that number was taken, and says whether the noise source was on. */
  ghost predicate NoiseSays(a: seq<Packet<Header, Payload>>, id: nat, on: bool) {
    exists j :: 0 <= j < |a| && a[j].id == id && (on <==> a[j].noise == 1)
  }

  /** The noise state of a valid block is the one its first packet carries. */
  lemma NoiseOfFirstPacket(s: Setup, k: nat)
    requires Observed(s) && k < |s.outputs| && Inputs(s)[k].valid
    ensures NoiseSays(TakenA(s), Start(s.c, Origin(s) + k), Inputs(s)[k].on)
  {
    hide *;
    ObservedSizes(s);
    OwnPackets(s, k);
    BatchAt(s, k);
    NoiseFromBatch(s.c, TakenA(s), Origin(s) + k, QueueA(s)[Origin(s) + k - FirstA(s)]);
  }

  lemma NoiseFromBatch(c: Config<Header, Payload>, a: seq<Packet<Header, Payload>>, b: nat, batch: VdifBatch)
    requires HandedOver(c, a, b, batch) && Has(a, Start(c, b))
    ensures NoiseSays(a, Start(c, b), NoiseFlag(batch))
  {
    hide HandedOver, Start;
    var j :| 0 <= j < |a| && a[j].id == Start(c, b);
    FirstSlot(c, a, b, batch, j);
  }

  /**
    The noise state of any block, valid or not, is that of the packet leading its batch: the
    first taken of the batch itself or, if nothing of it arrived, of the latest one before.
   */
  lemma NoiseOfLeader(s: Setup, k: nat) returns (j: nat)
    requires Observed(s) && k < |s.outputs|
    ensures s.c.batchsize >= 1 && j < |TakenA(s)| && Leads(s.c.batchsize, TakenA(s), j, Origin(s) + k)
    ensures Inputs(s)[k].on <==> TakenA(s)[j].noise == 1
  {
    hide Observed, Inputs, TakenA, QueueA, FirstA, Origin, HandedOver, ConfigSized, Leads;
    ObservedSizes(s);
    BatchAt(s, k);
    j := LeaderOf(s.c, TakenA(s), Origin(s) + k, QueueA(s)[Origin(s) + k - FirstA(s)]);
  }

  lemma LeaderOf(c: Config<Header, Payload>, a: seq<Packet<Header, Payload>>, b: nat, batch: VdifBatch) returns (j: nat)
    requires HandedOver(c, a, b, batch)
    ensures c.batchsize >= 1 && j < |a| && Leads(c.batchsize, a, j, b)
    ensures batch.noiseState != [] && batch.noiseState[0] == a[j].noise
  {
    hide Start, CountIn, HasAll, Stamped, Dated, MarkedMissing, Padded, HoldsAll, Leads, HandedHeader;
    j :| HandedLedBy(c, a, j, b, batch);
  }

  /** The batch behind block k, and what of it the block carries. */
  lemma BatchAt(s: Setup, k: nat)
    requires Observed(s) && k < |s.outputs|
    ensures FirstA(s) <= Origin(s) && Origin(s) + k - FirstA(s) < |QueueA(s)|
    ensures var batch := QueueA(s)[Origin(s) + k - FirstA(s)];
            && HandedOver(s.c, TakenA(s), Origin(s) + k, batch)
            && Inputs(s)[k].on == NoiseFlag(batch) && Inputs(s)[k].timestamp == TimeNs(batch)
  {
    hide OutputOk, Delivered, Pairs, VdifConfig, Inputs, QueueA, QueueB, TakenA, TakenB, FirstA, FirstB, HandedOver,
         N.IsNoiseBlank, Start, TimeNs, NoiseFlag;
    InputIs(s, k);
    StreamsAre(s);
    var j := Origin(s) + k - FirstA(s);
    assert HandedOver(s.c, TakenA(s), FirstA(s) + j, QueueA(s)[j]);
  }

  // ------------------------------------------------------------------ which blocks are blanked

  /** The noise states and the times of the blocks up to k. */
  ghost function Flags(s: Setup, k: nat): (r: seq<bool>)
    requires Observed(s) && k < |s.outputs|
    ensures |r| == k + 1 && forall j :: 0 <= j <= k ==> r[j] == Inputs(s)[j].on
  {
    seq(k + 1, j requires 0 <= j < k + 1 => Inputs(s)[j].on)
  }

  ghost function Times(s: Setup, k: nat): (r: seq<nat>)
    requires Observed(s) && k < |s.outputs|
    ensures |r| == k + 1 && forall j :: 0 <= j <= k ==> r[j] == Inputs(s)[j].timestamp
  {
    seq(k + 1, j requires 0 <= j < k + 1 => Inputs(s)[j].timestamp)
  }

  lemma InputFields(s: Setup, k: nat)
    requires Observed(s) && k < |s.outputs|
    ensures FirstA(s) <= Origin(s) && Origin(s) + k - FirstA(s) < |QueueA(s)|
    ensures var noise, x := NoiseAt(QueueA(s), FirstA(s), Origin(s), k), Inputs(s)[k];
            && x.on == noise.on && x.blank == (N.IsNoiseBlank(s.cycle, noise.start, x.timestamp) != N.Blank(false))
            && noise == N.Learned(if k == 0 then N.UNKNOWN else NoiseAt(QueueA(s), FirstA(s), Origin(s), k - 1),
                                  x.on, x.timestamp)
  {
    hide Inputs, QueueA, FirstA, Origin, Observed, N.IsNoiseBlank, TimeNs, NoiseFlag;
    InputIs(s, k);
  }

  /** What is known of the noise cycle at block k follows from the states and times of the blocks alone. */
  lemma {:induction false} CycleKnown(s: Setup, k: nat)
    requires Observed(s) && k < |s.outputs|
    ensures FirstA(s) <= Origin(s) && Origin(s) + k - FirstA(s) < |QueueA(s)|
    ensures N.KnownAfter(Flags(s, k), Times(s, k), NoiseAt(QueueA(s), FirstA(s), Origin(s), k))
    decreases k
  {
    hide Inputs, QueueA, FirstA, Origin, Observed, NoiseAt, N.KnownAfter, N.Learned, N.IsNoiseBlank;
    ObservedSizes(s);
    InputFields(s, k);
    var x := Inputs(s)[k];
    if k == 0 {
      NothingKnown();
      N.KnownNext([], [], N.UNKNOWN, x.on, x.timestamp);
      assert Flags(s, 0) == [] + [x.on] && Times(s, 0) == [] + [x.timestamp];
    } else {
      CycleKnown(s, k - 1);
      var before := NoiseAt(QueueA(s), FirstA(s), Origin(s), k - 1);
      N.KnownNext(Flags(s, k - 1), Times(s, k - 1), before, x.on, x.timestamp);
      assert Flags(s, k) == Flags(s, k - 1) + [x.on] && Times(s, k) == Times(s, k - 1) + [x.timestamp];
    }
  }

  lemma NothingKnown()
    ensures N.KnownAfter([], [], N.UNKNOWN)
  {
  }

  /**
    Block k is blanked exactly when a transition of the cycle that began with the last block e
    with which the source came on is within the guard of its time.
   */
  lemma BlankedNearTransitions(s: Setup, k: nat, e: nat)
    requires Observed(s) && k < |s.outputs| && N.CycleOk(s.cycle) && s.cycle.period >= 1
    requires N.LastEdge(Flags(s, k), e) && 0 < Inputs(s)[e].timestamp < N.WORD
    ensures var start, t := Inputs(s)[e].timestamp, Inputs(s)[k].timestamp;
            Inputs(s)[k].blank <==> N.NearTransition(s.cycle, start, N.Unwrapped(start, t))
  {
    hide Inputs, QueueA, FirstA, Origin, Observed, NoiseAt, N.Learned, N.IsNoiseBlank, N.LastEdge, N.NearTransition;
    InputFields(s, k);
    CycleKnown(s, k);
    EdgeBelow(Flags(s, k), e);
    N.BlankIsExact(s.cycle, Inputs(s)[e].timestamp, Inputs(s)[k].timestamp);
  }

  lemma EdgeBelow(flags: seq<bool>, e: nat)
    requires N.LastEdge(flags, e)
    ensures e < |flags|
  {
  }

  /** Before the source has come on nothing is blanked. */
  lemma NothingBlankedBefore(s: Setup, k: nat)
    requires Observed(s) && k < |s.outputs| && forall e: nat :: e <= k ==> !N.ComesOn(Flags(s, k), e)
    ensures !Inputs(s)[k].blank
  {
    hide Inputs, QueueA, FirstA, Origin, Observed, NoiseAt, N.Learned, N.ComesOn;
    InputFields(s, k);
    CycleKnown(s, k);
  }

  lemma FirstSlot(c: Config<Header, Payload>, a: seq<Packet<Header, Payload>>, b: nat, batch: VdifBatch, j: nat)
    requires HandedOver(c, a, b, batch) && j < |a| && a[j].id == Start(c, b)
    ensures batch.noiseState != [] && batch.noiseState[0] == a[j].noise
  {
    hide Start, CountIn, HasAll, Stamped, Dated, MarkedMissing, Padded;
    assert Holds(c, batch, a[j], a[j].id - Start(c, b));
  }

  // ------------------------------------------------------------------ the time of every block

  /** A batch handed over tells the time of its first packet, under its header's epoch. */
  lemma BatchTime(c: Config<Header, Payload>, bits: nat, threadId: nat, a: seq<Packet<Header, Payload>>, b: nat,
                  batch: VdifBatch)
    requires bits >= 1 && c == VdifConfig(c.batchsize, c.poolSize, c.baseband, bits, threadId)
    requires HandedOver(c, a, b, batch) && Start(c, b) < IdLimit()
    ensures batch.hdrs != [] && Read(batch.hdrs[0], ReferenceEpoch) < 64
    ensures TimeOf(batch).Ok?
    ensures TimeOf(batch).ns == VdifTime.PacketTime(Read(batch.hdrs[0], ReferenceEpoch), Start(c, b))
  {
    hide WithPacketId, Write, Baseband, ZeroVoltage, CountIn, Stamped, HasAll, HoldsAll, Padded, Start, Read, Pow2,
         VdifTime.Timestamp;
    var h, id := batch.hdrs[0], Start(c, b);
    if Dated(c, h, id) {
      var g :| h == c.withPacketId(g, id);
      RT.StampedTime(g, id);
      WithPacketIdFields(g, id, ReferenceEpoch);
    } else {
      var g :| h == Mark(c, g, id);
      var stamped := WithPacketId(g, id);
      RT.StampedTime(g, id);
      WithPacketIdFields(g, id, ReferenceEpoch);
      ReadWrite(stamped, Invalid, 1, ReferenceEpoch);
      ReadWrite(stamped, Invalid, 1, Seconds);
      ReadWrite(stamped, Invalid, 1, FrameNumber);
    }
  }

  /** All packets of the first polarization count from one epoch. */
  ghost predicate OneEpoch(s: Setup, epoch: nat) {
    forall k :: 0 <= k < |s.rawA| ==> Read(s.rawA[k].header, ReferenceEpoch) == epoch
  }

  lemma BasebandKeepsEpoch(h: Header, bits: nat, threadId: nat, payloadBytes: nat)
    requires bits >= 1
    ensures Read(Baseband(h, bits, threadId, payloadBytes), ReferenceEpoch) == Read(h, ReferenceEpoch)
  {
    hide Read, Write;
    var h0 := Write(h, EDV, 1);
    var h1 := Write(h0, FrameLength, FrameBytes(bits, payloadBytes) / 8);
    var h2 := Write(h1, Complex, 1);
    var h3 := Write(h2, BitsPerSample, bits - 1);
    var h4 := Write(h3, Log2Channels, 0);
    var h5 := Write(h4, Version, 1);
    ReadWrite(h, EDV, 1, ReferenceEpoch);
    ReadWrite(h0, FrameLength, FrameBytes(bits, payloadBytes) / 8, ReferenceEpoch);
    ReadWrite(h1, Complex, 1, ReferenceEpoch);
    ReadWrite(h2, BitsPerSample, bits - 1, ReferenceEpoch);
    ReadWrite(h3, Log2Channels, 0, ReferenceEpoch);
    ReadWrite(h4, Version, 1, ReferenceEpoch);
    ReadWrite(h5, ThreadID, threadId, ReferenceEpoch);
  }

  function EpochIs(epoch: nat): Header -> bool { (h: Header) => Read(h, ReferenceEpoch) == epoch }

  lemma EpochIsClosed(c: Config<Header, Payload>, bits: nat, threadId: nat, epoch: nat)
    requires bits >= 1 && c == VdifConfig(c.batchsize, c.poolSize, c.baseband, bits, threadId)
    ensures HO.Closed(c, EpochIs(epoch))
  {
    hide Read, Write, WithPacketId, Baseband;
    forall h: Header, id: nat ensures Read(WithPacketId(h, id), ReferenceEpoch) == Read(h, ReferenceEpoch) {
      WithPacketIdFields(h, id, ReferenceEpoch);
    }
    forall h: Header
      ensures Read(Baseband(h, bits, threadId, PAYLOAD_BYTES), ReferenceEpoch) == Read(h, ReferenceEpoch)
    {
      BasebandKeepsEpoch(h, bits, threadId, PAYLOAD_BYTES);
    }
    forall h: Header ensures Read(Write(h, Invalid, 1), ReferenceEpoch) == Read(h, ReferenceEpoch) {
      ReadWrite(h, Invalid, 1, ReferenceEpoch);
    }
  }

  /** Every batch handed over then has a first header of that epoch. */
  lemma EpochOfBatch(s: Setup, epoch: nat, j: nat)
    requires Observed(s) && OneEpoch(s, epoch) && j < |QueueA(s)|
    ensures QueueA(s)[j].hdrs != []
    ensures QueueA(s)[j].headerValid ==> Read(QueueA(s)[j].hdrs[0], ReferenceEpoch) == epoch
  {
    EpochIsClosed(s.c, s.bits, s.threadId, epoch);
    forall k | 0 <= k < |PacketsA(s)| ensures EpochIs(epoch)(PacketsA(s)[k].header) {
      assert PacketsA(s)[k].header == s.rawA[k].header;
    }
    hide Read, VdifConfig, HO.Closed, Delivered, OutputOk, Pairs, ReceiveAll, Accepted;
    HO.ReceiveAllFrom(s.c, EpochIs(epoch), PacketsA(s));
    assert HO.FirstIs(s.c, EpochIs(epoch), QueueA(s)[j]);
  }

  /** Block k carries the time of the first packet of batch Origin + k. */
  lemma InputTime(s: Setup, epoch: nat, k: nat)
    requires Observed(s) && OneEpoch(s, epoch) && k < |s.outputs| && Start(s.c, Origin(s) + k) < IdLimit()
    ensures epoch < 64 && Inputs(s)[k].timestamp == VdifTime.PacketTime(epoch, Start(s.c, Origin(s) + k))
  {
    hide Observed, Inputs, TakenA, QueueA, FirstA, Origin, HandedOver, Read, VdifTime.PacketTime, TimeOf, Start,
         ConfigSized, IdLimit, VdifConfig;
    ObservedSizes(s);
    BatchAt(s, k);
    var b := Origin(s) + k;
    var batch := QueueA(s)[b - FirstA(s)];
    EpochOfBatch(s, epoch, b - FirstA(s));
    HandedOverHeader(s.c, TakenA(s), b, batch);
    BatchTime(s.c, s.bits, s.threadId, TakenA(s), b, batch);
  }

  lemma HandedOverHeader(c: Config<Header, Payload>, a: seq<Packet<Header, Payload>>, b: nat, batch: VdifBatch)
    requires HandedOver(c, a, b, batch)
    ensures batch.headerValid
  {
  }

  // ------------------------------------------------------------------ published results

  /** Every packet of the filter bank's window at block k arrived on both polarizations. */
  ghost predicate WholeWindow(s: Setup, k: nat)
    requires ConfigSized(s)
  {
    && k + 1 >= s.taps
    && forall id :: Start(s.c, Origin(s) + k + 1 - s.taps) <= id < Start(s.c, Origin(s) + k + 1)
         ==> Has(TakenA(s), id) && Has(TakenB(s), id)
  }

  /**
    Every published result is the exact sum of blocks of one noise state, consecutive but for
    blocks of the other state and blanked ones, and every packet that could have entered any
    of them arrived.
   */
  lemma ResultsAreWhole(s: Setup, ic: I.Config, published: seq<A.Result>, j: nat)
    requires Observed(s) && A.PublishedOk(ic, Inputs(s), published) && j < |published|
    ensures j < |I.Groups(ic, Inputs(s))| && I.GroupOk(ic, Inputs(s), I.Groups(ic, Inputs(s))[j])
    ensures var g := I.Groups(ic, Inputs(s))[j];
            && published[j].on == g.on && |published[j].data| == ic.size
            && (forall i :: 0 <= i < ic.size ==> published[j].data[i] == A.Total(Inputs(s), g.members, i))
            && forall i :: 0 <= i < |g.members| ==> g.members[i] < |s.outputs| && WholeWindow(s, g.members[i])
  {
    hide Observed, Inputs, WholeWindow, I.Groups, A.Total, I.Gapless, ConfigSized;
    ObservedSizes(s);
    A.EveryResultIsExact(ic, Inputs(s), published, j);
    var g := I.Groups(ic, Inputs(s))[j];
    forall i | 0 <= i < |g.members| ensures g.members[i] < |s.outputs| && WholeWindow(s, g.members[i]) {
      WindowOf(s, g.members[i]);
    }
  }

  lemma WindowOf(s: Setup, k: nat)
    requires Observed(s) && k < |Inputs(s)| && Inputs(s)[k].valid
    ensures ConfigSized(s) && k < |s.outputs| && WholeWindow(s, k)
  {
    ValidInput(s, k);
  }

  /**
    Without calibration, and with no leap second inside, every published result spans its
    length less one periods and is centred on the raw samples that fed it.
   */
  lemma ResultsAreCentred(s: Setup, ic: I.Config, published: seq<A.Result>, j: nat, epoch: nat)
    requires Observed(s) && OneEpoch(s, epoch) && !ic.cal
    requires A.PublishedOk(ic, Inputs(s), published) && j < |published| && epoch < 64
    requires j < |I.Groups(ic, Inputs(s))| && |I.Groups(ic, Inputs(s))[j].members| > 0
    requires var g := I.Groups(ic, Inputs(s))[j].members;
             && Start(s.c, Origin(s) + g[|g| - 1]) < IdLimit()
             && RT.NoLeap(epoch, Start(s.c, Origin(s) + g[0]), Start(s.c, Origin(s) + g[|g| - 1]))
    ensures var period, r := T.FftPeriodNs(s.c.batchsize), published[j];
            var delay := T.PfbGroupDelayNs(s.taps, s.c.batchsize * T.SAMPLES_PER_PACKET, T.SAMPLING_RATE).ns;
            && r.last == r.first + (I.Length(ic) - 1) * period && r.first <= r.last
            && (delay <= T.CentreNs(r.first, r.last, period) ==>
                  2 * T.CompensateDelayNs(T.CentreNs(r.first, r.last, period), delay)
                    == (r.first - (s.taps - 1) * period) + (r.last + period))
  {
    hide Observed, Inputs, Origin, I.Groups, T.FftPeriodNs, T.PfbGroupDelayNs, RT.NoLeap, A.PublishedOk,
         VdifTime.PacketTime, Start, RT.BatchStart, ConfigSized, OneEpoch, IdLimit;
    ObservedSizes(s);
    var blocks, m := Inputs(s), Origin(s);
    var g := I.Groups(ic, blocks)[j].members;
    BatchStarts(s, m + g[0]);
    BatchStarts(s, m + g[|g| - 1]);
    Timed(s, epoch, g[0], g[|g| - 1]);
    RT.ResultIsCentred(ic, blocks, published, j, epoch, s.c.batchsize, m, s.taps);
  }

  lemma Timed(s: Setup, epoch: nat, from: nat, to: nat)
    requires Observed(s) && OneEpoch(s, epoch) && epoch < 64 && Start(s.c, Origin(s) + to) < IdLimit()
    ensures RT.TimedByPackets(Inputs(s), epoch, s.c.batchsize, Origin(s), from, to)
  {
    hide Observed, Inputs, Origin, VdifTime.PacketTime, Start, RT.BatchStart, ConfigSized, OneEpoch, IdLimit;
    ObservedSizes(s);
    var m := Origin(s);
    forall k: nat | from <= k <= to && k < |Inputs(s)|
      ensures Inputs(s)[k].timestamp == VdifTime.PacketTime(epoch, RT.BatchStart(m + k, s.c.batchsize))
    {
      StartMonotone(s.c, m + k, m + to);
      BatchStarts(s, m + k);
      InputTime(s, epoch, k);
    }
  }

  lemma BatchStarts(s: Setup, b: nat)
    ensures RT.BatchStart(b, s.c.batchsize) == Start(s.c, b)
  {
  }

  lemma ObservedSizes(s: Setup)
    requires Observed(s)
    ensures s.c.batchsize >= 1 && s.taps >= 1 && ConfigSized(s) && s.bits >= 1
    ensures s.c == VdifConfig(s.c.batchsize, s.c.poolSize, false, s.bits, s.threadId) && !s.c.baseband
  {
  }
}
