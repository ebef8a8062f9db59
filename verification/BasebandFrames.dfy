/**
  Batch assembly on VDIF headers: what the headers of a batch handed over say, for any
  loss pattern.
 */
module BasebandFrames {
  import opened Bits
  import opened Units
  import opened Vdif
  import opened BatchAssembly
  import opened BatchAcceptance
  import opened BatchCorrectness

  type Payload = seq<bv8>

  /** Packet numbers a header can carry. */
  function IdLimit(): nat { Pow2(30) * FRAMES_PER_SECOND }

  function ZeroVoltage(): Payload { seq(PAYLOAD_BYTES, _ => 0x80) }

  function VdifConfig(batchsize: nat, poolSize: nat, baseband: bool, bits: nat, threadId: nat): Config<Header, Payload>
    requires bits >= 1
  {
    Config(batchsize, poolSize, baseband,
           (h: Header, id: nat) => WithPacketId(h, id),
           (h: Header) => Baseband(h, bits, threadId, PAYLOAD_BYTES),
           (h: Header) => Write(h, Invalid, 1),
           ZeroVoltage(), seq(HEADER_SIZE, _ => 0), seq(PAYLOAD_BYTES, _ => 0))
  }

  /** A packet as the loop reads it. */
  function Parse(header: Header, payload: Payload, calMode: bool): Packet<Header, Payload> {
    var m := ReadMetadata(header, calMode);
    Packet(PacketIdOf(m), m.noiseSourceState, header, payload)
  }

  ghost predicate Parsed(p: Packet<Header, Payload>) { p.id == PacketId(p.header) }

  ghost predicate AllParsed(packets: seq<Packet<Header, Payload>>) {
    forall k :: 0 <= k < |packets| ==> Parsed(packets[k])
  }

  /** The bytes of a packet: a header and a payload, as they arrive. */
  datatype RawPacket = RawPacket(header: Header, payload: Payload)

  /** A stream of packets as the loop reads it. */
  function ParseAll(raw: seq<RawPacket>, calMode: bool): seq<Packet<Header, Payload>> {
    seq(|raw|, k requires 0 <= k < |raw| => Parse(raw[k].header, raw[k].payload, calMode))
  }

  lemma ParseAllParsed(raw: seq<RawPacket>, calMode: bool)
    ensures AllParsed(ParseAll(raw, calMode))
  {
    forall k | 0 <= k < |raw| ensures Parsed(Parse(raw[k].header, raw[k].payload, calMode)) {
      ParseParses(raw[k].header, raw[k].payload, calMode);
    }
    hide Parse, Parsed;
  }

  lemma ParseParses(header: Header, payload: Payload, calMode: bool)
    ensures Parsed(Parse(header, payload, calMode))
  {
    hide And, Word;
  }

  lemma {:induction false} AcceptedParsed(size: nat, packets: seq<Packet<Header, Payload>>)
    requires size >= 1 && AllParsed(packets)
    ensures AllParsed(Accepted(size, packets))
    decreases |packets|
  {
    hide Parsed, Taken;
    if packets != [] { AcceptedParsed(size, packets[..|packets| - 1]); }
  }

  /** The formats the receiver accepts are valid VDIF formats. */
  lemma FormatOk(bits: nat)
    requires bits in {8, 4, 2}
    ensures BasebandFormatOk(bits, PAYLOAD_BYTES)
  {
    Pow2Monotone(32, 64);
    BitFields.Powers();
    hide Pow2;
  }

  lemma MarkedId(h: Header, id: nat)
    requires id < IdLimit()
    ensures PacketId(Write(WithPacketId(h, id), Invalid, 1)) == id
    ensures Read(Write(WithPacketId(h, id), Invalid, 1), Invalid) == 1
  {
    hide WithPacketId, Write, Read, ReadMetadata, Pow2;
    var g := WithPacketId(h, id);
    PacketIdRoundTrip(h, id);
    ReadWrite(g, Invalid, 1, Seconds);
    ReadWrite(g, Invalid, 1, FrameNumber);
    ReadWrite(g, Invalid, 1, Invalid);
    MetadataFields(g, false);
    MetadataFields(Write(g, Invalid, 1), false);
    BitFields.Powers();
  }

  lemma DatedId(h: Header, id: nat)
    requires id < IdLimit()
    ensures PacketId(WithPacketId(h, id)) == id
  {
    PacketIdRoundTrip(h, id);
  }

  /** The two flags of the first word are those of the packet. */
  ghost predicate SameFlags(h: Header, g: Header) {
    Read(h, Invalid) == Read(g, Invalid) && Read(h, Legacy) == Read(g, Legacy)
  }

  /** A frame that arrived, in a batch handed over in baseband mode. */
  lemma PresentFrame(c: Config<Header, Payload>, bits: nat, threadId: nat,
                     a: seq<Packet<Header, Payload>>, b: nat, batch: Batch<Header, Payload>, k: nat)
    requires bits in {8, 4, 2} && AllParsed(a) && c.baseband && HandedOver(c, a, b, batch)
    requires c == VdifConfig(c.batchsize, c.poolSize, true, bits, threadId)
    requires k < |a| && a[k].id < IdLimit() && Start(c, b) <= a[k].id < Start(c, b) + c.batchsize
    ensures var i := a[k].id - Start(c, b);
            && PacketId(batch.hdrs[i]) == a[k].id && batch.buffer[i] == a[k].payload
            && SameFlags(batch.hdrs[i], a[k].header)
               && Formatted(batch.hdrs[i], bits, threadId % 1024, FrameBytes(bits, PAYLOAD_BYTES))
  {
    hide Formatted, SameFlags, PacketId, Read, IdLimit, WithPacketId, Baseband, ZeroVoltage, CountIn, Stamped, HasAll,
         Dated, Padded, Start, HandedLed;
    var i := a[k].id - Start(c, b);
    assert Holds(c, batch, a[k], i);
    OwnHeaderFields(bits, threadId, a[k], i);
  }

  /** A frame that never arrived. */
  lemma MissingFrame(c: Config<Header, Payload>, bits: nat, threadId: nat,
                     a: seq<Packet<Header, Payload>>, b: nat, batch: Batch<Header, Payload>, i: nat)
    requires c.baseband && HandedOver(c, a, b, batch) && 1 <= bits
    requires c == VdifConfig(c.batchsize, c.poolSize, true, bits, threadId)
    requires i < c.batchsize && Start(c, b) + i < IdLimit() && !Has(a, Start(c, b) + i)
    ensures PacketId(batch.hdrs[i]) == Start(c, b) + i
    ensures Read(batch.hdrs[i], Invalid) == 1 && batch.buffer[i] == ZeroVoltage()
  {
    hide PacketId, Read, IdLimit, WithPacketId, Write, Baseband, ZeroVoltage, CountIn, Stamped, HasAll, Dated,
         HoldsAll, Has, HandedLed;
    var id := Start(c, b) + i;
    hide Start;
    assert MarkedMissing(c, batch.hdrs[i], id);
    var g :| batch.hdrs[i] == Mark(c, g, id);
    MarkedId(g, id);
  }

  /** Stamping and marking leave all but three fields alone. */
  predicate Stays(f: Field) { !f.Invalid? && !f.Seconds? && !f.FrameNumber? }

  lemma MarkKeeps(h: Header, id: nat, f: Field)
    requires Stays(f)
    ensures Read(WithPacketId(h, id), f) == Read(h, f) && Read(Write(WithPacketId(h, id), Invalid, 1), f) == Read(h, f)
  {
    hide WithPacketId, Write, Read, Pow2;
    WithPacketIdFields(h, id, f);
    ReadWrite(WithPacketId(h, id), Invalid, 1, f);
  }

  /**
    A frame that never arrived carries the header of the packet that leads its batch, in the
    receiver's format, except for its number and its mark.
   */
  lemma FilledFields(c: Config<Header, Payload>, bits: nat, threadId: nat, a: seq<Packet<Header, Payload>>, b: nat,
                     batch: Batch<Header, Payload>, i: nat, k: nat, f: Field)
    requires c.baseband && HandedOver(c, a, b, batch) && HandedLedBy(c, a, k, b, batch) && 1 <= bits && Stays(f)
    requires c == VdifConfig(c.batchsize, c.poolSize, true, bits, threadId)
    requires i < c.batchsize && !Has(a, Start(c, b) + i)
    ensures Read(batch.hdrs[i], f) == Read(Baseband(a[k].header, bits, threadId, PAYLOAD_BYTES), f)
  {
    hide Read, IdLimit, WithPacketId, Write, Baseband, ZeroVoltage, CountIn, Stamped, HasAll, Dated, MarkedMissing,
         HoldsAll, Has, Leads, Start, HandedLed;
    var own := Baseband(a[k].header, bits, threadId, PAYLOAD_BYTES);
    var start := Start(c, a[k].id / c.batchsize);
    MarkKeeps(own, start, f);
    MarkKeeps(WithPacketId(own, start), Start(c, b), f);
    MarkKeeps(BaseHeader(c, a[k], b), Start(c, b), f);
    MarkKeeps(batch.hdrs[0], Start(c, b) + i, f);
  }

  lemma FilledIsFormatted(c: Config<Header, Payload>, bits: nat, threadId: nat, a: seq<Packet<Header, Payload>>, b: nat,
                          batch: Batch<Header, Payload>, i: nat)
    requires bits in {8, 4, 2} && c.baseband && HandedOver(c, a, b, batch)
    requires c == VdifConfig(c.batchsize, c.poolSize, true, bits, threadId)
    requires Sized(c, batch) && i < c.batchsize && !Has(a, Start(c, b) + i)
    ensures Formatted(batch.hdrs[i], bits, threadId % 1024, FrameBytes(bits, PAYLOAD_BYTES))
  {
    hide Read, VdifConfig, Baseband, HandedLedBy, Has, Start, CountIn, Stamped, HasAll, HoldsAll, Padded, Dated,
         MarkedMissing, BasebandFormatOk;
    var k: nat :| HandedLedBy(c, a, k, b, batch);
    LeaderExists(c, a, k, b, batch);
    FormatOk(bits);
    BasebandIsFormatted(a[k].header, bits, threadId, PAYLOAD_BYTES);
    FilledFields(c, bits, threadId, a, b, batch, i, k, Complex);
    FilledFields(c, bits, threadId, a, b, batch, i, k, Log2Channels);
    FilledFields(c, bits, threadId, a, b, batch, i, k, BitsPerSample);
    FilledFields(c, bits, threadId, a, b, batch, i, k, ThreadID);
    FilledFields(c, bits, threadId, a, b, batch, i, k, FrameLength);
  }

  lemma LeaderExists(c: Config<Header, Payload>, a: seq<Packet<Header, Payload>>, k: nat, b: nat,
                     batch: Batch<Header, Payload>)
    requires Sized(c, batch) && c.batchsize >= 1 && HandedLedBy(c, a, k, b, batch)
    ensures k < |a|
  {
  }

  /** The header kept for a packet that arrived. */
  lemma OwnHeaderFields(bits: nat, threadId: nat, p: Packet<Header, Payload>, i: nat)
    requires bits in {8, 4, 2} && Parsed(p) && p.id < IdLimit()
    ensures var configured := Baseband(p.header, bits, threadId, PAYLOAD_BYTES);
            var h := if i == 0 then WithPacketId(configured, p.id) else configured;
            PacketId(h) == p.id && SameFlags(h, p.header)
              && Formatted(h, bits, threadId % 1024, FrameBytes(bits, PAYLOAD_BYTES))
  {
    hide PacketId, Read, Baseband, WithPacketId, IdLimit, BasebandFormatOk, Formatted;
    FormatOk(bits);
    var configured := Baseband(p.header, bits, threadId, PAYLOAD_BYTES);
    BasebandKeepsPacketId(p.header, bits, threadId, PAYLOAD_BYTES);
    BasebandFields(p.header, bits, threadId, PAYLOAD_BYTES, Invalid);
    BasebandFields(p.header, bits, threadId, PAYLOAD_BYTES, Legacy);
    BasebandIsFormatted(p.header, bits, threadId, PAYLOAD_BYTES);
    DatedId(configured, p.id);
    WithPacketIdFields(configured, p.id, Invalid);
    WithPacketIdFields(configured, p.id, Legacy);
    WithPacketIdFormatted(configured, p.id, bits, threadId % 1024, FrameBytes(bits, PAYLOAD_BYTES));
  }

  /**
    Frame i of the batch carries packet number id in the receiver's format: with the payload
    and flags that arrived under that number, or marked invalid and at zero voltage if none did.
   */
  ghost predicate FrameIs(a: seq<Packet<Header, Payload>>, id: nat, batch: Batch<Header, Payload>, i: nat, bits: nat,
                          threadId: nat) {
    && i < |batch.hdrs| && i < |batch.buffer|
    && PacketId(batch.hdrs[i]) == id
    && Formatted(batch.hdrs[i], bits, threadId % 1024, FrameBytes(bits, PAYLOAD_BYTES))
    && (!Has(a, id) ==> Read(batch.hdrs[i], Invalid) == 1 && batch.buffer[i] == ZeroVoltage())
    && (forall k :: 0 <= k < |a| && a[k].id == id ==>
          batch.buffer[i] == a[k].payload && SameFlags(batch.hdrs[i], a[k].header))
  }

  /** The packet number of frame i of batch j, counted from the first packet taken. */
  function FrameId(first: nat, batchsize: nat, j: nat, i: nat): nat { first + j * batchsize + i }

  /**
    Fixed cadence: for any stream of packets and any losses, frame i of the j-th batch
    handed over carries the packet number that follows its predecessor's; a frame that
    arrived keeps its payload, and one that never did is marked invalid and holds zero
    voltage. All are in the receiver's format.
   */
  lemma FixedCadence(c: Config<Header, Payload>, bits: nat, threadId: nat,
                     raw: seq<RawPacket>, calMode: bool, packets: seq<Packet<Header, Payload>>, j: nat, i: nat)
    requires ConfigOk(c) && bits in {8, 4, 2} && packets == ParseAll(raw, calMode)
    requires c.baseband && c == VdifConfig(c.batchsize, c.poolSize, true, bits, threadId)
    requires Accepted(c.batchsize, packets) != []
    requires j < |ReceiveAll(c, packets).queue| && i < c.batchsize
    requires FrameId(Accepted(c.batchsize, packets)[0].id, c.batchsize, j, i) < IdLimit()
    ensures var s, a := ReceiveAll(c, packets), Accepted(c.batchsize, packets);
            FrameIs(a, FrameId(a[0].id, c.batchsize, j, i), s.queue[j], i, bits, threadId)
  {
    hide *;
    ConfigSizes(c);
    var a := Accepted(c.batchsize, packets);
    var batch := ReceiveAll(c, packets).queue[j];
    QueueEntry(c, packets, j);
    ParseAllParsed(raw, calMode);
    AcceptedParsed(c.batchsize, packets);
    StartPlus(c, a[0].id, a[0].id / c.batchsize, j, i);
    HandedOverFrame(c, bits, threadId, a, a[0].id / c.batchsize + j, batch, i);
  }

  /** Frame i of a batch handed over, arrived or not. */
  lemma HandedOverFrame(c: Config<Header, Payload>, bits: nat, threadId: nat,
                        a: seq<Packet<Header, Payload>>, b: nat, batch: Batch<Header, Payload>, i: nat)
    requires bits in {8, 4, 2} && AllParsed(a) && c.baseband && HandedOver(c, a, b, batch)
    requires c == VdifConfig(c.batchsize, c.poolSize, true, bits, threadId)
    requires Sized(c, batch) && i < c.batchsize && Start(c, b) + i < IdLimit()
    ensures FrameIs(a, Start(c, b) + i, batch, i, bits, threadId)
  {
    hide HandedOver, VdifConfig, PacketId, Read, IdLimit, ZeroVoltage, Start, AllParsed, SameFlags, Formatted;
    var id := Start(c, b) + i;
    if !Has(a, id) {
      MissingFrame(c, bits, threadId, a, b, batch, i);
      FilledIsFormatted(c, bits, threadId, a, b, batch, i);
    } else {
      forall k: nat | k < |a| && a[k].id == id
        ensures PacketId(batch.hdrs[i]) == id && batch.buffer[i] == a[k].payload
             && SameFlags(batch.hdrs[i], a[k].header)
                && Formatted(batch.hdrs[i], bits, threadId % 1024, FrameBytes(bits, PAYLOAD_BYTES))
      {
        PresentFrame(c, bits, threadId, a, b, batch, k);
      }
    }
  }

  lemma ConfigSizes(c: Config<Header, Payload>)
    requires ConfigOk(c)
    ensures c.batchsize >= 1 && c.poolSize >= 1
  {
  }

  lemma StartPlus(c: Config<Header, Payload>, first: nat, b: nat, j: nat, i: nat)
    requires first == Start(c, b)
    ensures Start(c, b + j) + i == FrameId(first, c.batchsize, j, i)
  {
  }

  /** In every mode the first header of a batch carries the batch's first packet number. */
  lemma BatchIsDated(c: Config<Header, Payload>, bits: nat, threadId: nat, a: seq<Packet<Header, Payload>>,
                     b: nat, batch: Batch<Header, Payload>)
    requires bits >= 1 && c == VdifConfig(c.batchsize, c.poolSize, c.baseband, bits, threadId)
    requires HandedOver(c, a, b, batch) && Start(c, b) < IdLimit()
    ensures PacketId(batch.hdrs[0]) == Start(c, b)
  {
    hide PacketId, IdLimit, WithPacketId, Write, Baseband, ZeroVoltage, CountIn, Stamped, HasAll, HoldsAll, Padded,
         Start;
    if Dated(c, batch.hdrs[0], Start(c, b)) {
      var g :| batch.hdrs[0] == c.withPacketId(g, Start(c, b));
      DatedId(g, Start(c, b));
    } else {
      var g :| batch.hdrs[0] == Mark(c, g, Start(c, b));
      MarkedId(g, Start(c, b));
    }
  }
}
