/**
  The VDIF data frame header: 32 bytes read as eight little-endian words and divided
  into bit fields, the setters that rewrite one field in place, the packet number that
  the receiver derives from it, and the header as the Python reader parses it.
 */
module Vdif {
  import opened Bits
  import opened BitFields
  import opened Units

  const HEADER_SIZE := 32
  const WORDS := 8

  type Byte = x: int | 0 <= x < 256

  type Header = h: seq<Byte> | |h| == HEADER_SIZE witness seq(HEADER_SIZE, _ => 0)

  /** Word k of a header; words past the last read as zero. */
  function Word(h: Header, k: nat): nat {
    if k < WORDS then ReadLe32(h[4 * k], h[4 * k + 1], h[4 * k + 2], h[4 * k + 3]) else 0
  }

  function WithWord(h: Header, k: nat, w: nat): Header {
    if k < WORDS
    then h[4 * k := ByteOf(w, 0)][4 * k + 1 := ByteOf(w, 1)][4 * k + 2 := ByteOf(w, 2)][4 * k + 3 := ByteOf(w, 3)]
    else h
  }

  lemma WordBound(h: Header, k: nat)
    ensures Word(h, k) < Pow2(32)
  {
    if k < WORDS {
      Powers();
      ReadBound(h[4 * k], h[4 * k + 1], h[4 * k + 2], h[4 * k + 3]);
    }
  }

  lemma WordOfWithWord(h: Header, k: nat, w: nat, j: nat)
    requires k < WORDS && w < Pow2(32)
    ensures Word(WithWord(h, k, w), j) == if j == k then w else Word(h, j)
  {
    hide ReadLe32, ByteOf, Pow2;
    ReadOfWrite(w);
    var h' := WithWord(h, k, w);
    assert h'[4 * k] == ByteOf(w, 0) && h'[4 * k + 1] == ByteOf(w, 1) && h'[4 * k + 2] == ByteOf(w, 2)
           && h'[4 * k + 3] == ByteOf(w, 3);
    if j < WORDS && j != k {
      assert h'[4 * j] == h[4 * j] && h'[4 * j + 1] == h[4 * j + 1] && h'[4 * j + 2] == h[4 * j + 2]
             && h'[4 * j + 3] == h[4 * j + 3];
    }
  }

  // ------------------------------------------------------------------ fields

  /** Every bit of the header belongs to one of these. */
  datatype Field =
    | Seconds | Invalid | Legacy
    | FrameNumber | ReferenceEpoch | Unassigned
    | FrameLength | Log2Channels | Version
    | StationID | ThreadID | BitsPerSample | Complex
    | UserData | EDV
    | Extended5 | Extended6
    | NoiseSource | Extended7

  datatype Span = Span(word: nat, lo: nat, width: nat)

  function SpanOf(f: Field): Span {
    match f
    case Seconds => Span(0, 0, 30)
    case Invalid => Span(0, 30, 1)
    case Legacy => Span(0, 31, 1)
    case FrameNumber => Span(1, 0, 24)
    case ReferenceEpoch => Span(1, 24, 6)
    case Unassigned => Span(1, 30, 2)
    case FrameLength => Span(2, 0, 24)
    case Log2Channels => Span(2, 24, 5)
    case Version => Span(2, 29, 3)
    case StationID => Span(3, 0, 16)
    case ThreadID => Span(3, 16, 10)
    case BitsPerSample => Span(3, 26, 5)
    case Complex => Span(3, 31, 1)
    case UserData => Span(4, 0, 24)
    case EDV => Span(4, 24, 8)
    case Extended5 => Span(5, 0, 32)
    case Extended6 => Span(6, 0, 32)
    case NoiseSource => Span(7, 0, 1)
    case Extended7 => Span(7, 1, 31)
  }

  function Read(h: Header, f: Field): nat {
    Get(Word(h, SpanOf(f).word), SpanOf(f).lo, SpanOf(f).width)
  }

  function Write(h: Header, f: Field, v: nat): Header {
    var p := SpanOf(f);
    WithWord(h, p.word, Put(Word(h, p.word), p.lo, p.width, v))
  }

  /** Distinct fields never share a bit. */
  lemma FieldsDisjoint(f: Field, g: Field)
    requires f != g && SpanOf(f).word == SpanOf(g).word
    ensures var p, q := SpanOf(f), SpanOf(g); p.lo + p.width <= q.lo || q.lo + q.width <= p.lo
  {
  }

  lemma SpanFits(f: Field)
    ensures var p := SpanOf(f); p.word < WORDS && p.lo + p.width <= 32
  {
  }

  /** Writing a field changes that field and nothing else in the header. */
  lemma ReadWrite(h: Header, f: Field, v: nat, g: Field)
    ensures Read(Write(h, f, v), g) == if f == g then v % Pow2(SpanOf(f).width) else Read(h, g)
  {
    SpanFits(f);
    SpanFits(g);
    hide SpanOf, Pow2, Get, Put, Word, WithWord;
    var p, q := SpanOf(f), SpanOf(g);
    var w := Word(h, p.word);
    PutBound(w, p.lo, p.width, v);
    WordOfWithWord(h, p.word, Put(w, p.lo, p.width, v), q.word);
    if f == g {
      GetPutSame(w, p.lo, p.width, v);
    } else if p.word == q.word {
      FieldsDisjoint(f, g);
      GetPutOther(w, p.lo, p.width, v, q.lo, q.width);
    }
  }

  /** The field that holds a given bit of a given word. */
  function FieldAt(word: nat, i: nat): (f: Field)
    requires word < WORDS && i < 32
    ensures var p := SpanOf(f); p.word == word && p.lo <= i < p.lo + p.width
  {
    match word
    case 0 => if i < 30 then Seconds else if i == 30 then Invalid else Legacy
    case 1 => if i < 24 then FrameNumber else if i < 30 then ReferenceEpoch else Unassigned
    case 2 => if i < 24 then FrameLength else if i < 29 then Log2Channels else Version
    case 3 => if i < 16 then StationID else if i < 26 then ThreadID else if i < 31 then BitsPerSample else Complex
    case 4 => if i < 24 then UserData else EDV
    case 5 => Extended5
    case 6 => Extended6
    case 7 => if i < 1 then NoiseSource else Extended7
  }

  /** The fields are the whole header: equal fields, equal bytes. */
  lemma FieldsDetermine(h: Header, h': Header)
    requires forall f :: Read(h, f) == Read(h', f)
    ensures h == h'
  {
    forall k: nat | k < WORDS ensures h[4 * k..4 * k + 4] == h'[4 * k..4 * k + 4] {
      WordFromFields(h, h', k);
      BytesFromWord(h, h', k);
    }
    forall i | 0 <= i < HEADER_SIZE ensures h[i] == h'[i] {
      var k := i / 4;
      assert h[4 * k..4 * k + 4][i % 4] == h'[4 * k..4 * k + 4][i % 4];
    }
  }

  lemma WordFromFields(h: Header, h': Header, k: nat)
    requires k < WORDS && forall f :: Read(h, f) == Read(h', f)
    ensures Word(h, k) == Word(h', k)
  {
    hide Get, Pow2, Word;
    forall i: nat ensures Bit(Word(h, k), i) == Bit(Word(h', k), i) {
      if i < 32 {
        var f := FieldAt(k, i);
        var p := SpanOf(f);
        assert Read(h, f) == Read(h', f);
        GetBit(Word(h, k), p.lo, p.width, i - p.lo);
        GetBit(Word(h', k), p.lo, p.width, i - p.lo);
      } else {
        WordBound(h, k);
        WordBound(h', k);
        BitsBelow(Word(h, k), 32, i);
        BitsBelow(Word(h', k), 32, i);
      }
    }
    BitsDetermine(Word(h, k), Word(h', k));
  }

  lemma BytesFromWord(h: Header, h': Header, k: nat)
    requires k < WORDS && Word(h, k) == Word(h', k)
    ensures h[4 * k..4 * k + 4] == h'[4 * k..4 * k + 4]
  {
    Powers();
    WriteOfRead(h[4 * k], h[4 * k + 1], h[4 * k + 2], h[4 * k + 3]);
    WriteOfRead(h'[4 * k], h'[4 * k + 1], h'[4 * k + 2], h'[4 * k + 3]);
    hide ReadLe32, ByteOf, Pow2;
  }

  // ------------------------------------------------------------------ the packet number

  datatype Metadata = Metadata(secondsFromEpoch: nat, frameNumber: nat, noiseSourceState: nat)

  function PacketIdOf(m: Metadata): nat {
    m.secondsFromEpoch * FRAMES_PER_SECOND + m.frameNumber
  }

  /** What the receive loop reads from a packet. */
  function ReadMetadata(h: Header, readNoiseSource: bool): Metadata {
    Metadata(And(Word(h, 0), 0x3fff_ffff), And(Word(h, 1), 0x00ff_ffff),
             if readNoiseSource then And(Word(h, 7), 1) else 0)
  }

  function PacketId(h: Header): nat {
    PacketIdOf(ReadMetadata(h, false))
  }

  function WithPacketId(h: Header, id: nat): Header {
    Write(Write(h, Seconds, id / FRAMES_PER_SECOND % Pow2(32)), FrameNumber, id % FRAMES_PER_SECOND % Pow2(32))
  }

  lemma MetadataFields(h: Header, readNoiseSource: bool)
    ensures var m := ReadMetadata(h, readNoiseSource);
            && m.secondsFromEpoch == Read(h, Seconds) && m.frameNumber == Read(h, FrameNumber)
            && m.noiseSourceState == if readNoiseSource then Read(h, NoiseSource) else 0
  {
    Powers();
  }

  /** Storing a packet number changes the two time fields and no other. */
  lemma WithPacketIdFields(h: Header, id: nat, g: Field)
    ensures Read(WithPacketId(h, id), g)
         == if g == Seconds then id / FRAMES_PER_SECOND % Pow2(30)
            else if g == FrameNumber then id % FRAMES_PER_SECOND else Read(h, g)
  {
    hide Write, Read, Pow2;
    var s, n := id / FRAMES_PER_SECOND, id % FRAMES_PER_SECOND;
    var h1 := Write(h, Seconds, s % Pow2(32));
    ReadWrite(h, Seconds, s % Pow2(32), g);
    ReadWrite(h1, FrameNumber, n % Pow2(32), g);
    WordThenSeconds(s);
    Powers();
  }

  lemma WordThenSeconds(s: nat)
    ensures s % Pow2(32) % Pow2(30) == s % Pow2(30)
  {
    Powers();
    ModOfMultiple(s, 4, 0x4000_0000);
  }

  /** A stored packet number reads back exactly when its seconds fit the 30-bit field. */
  lemma PacketIdRoundTrip(h: Header, id: nat)
    ensures PacketId(WithPacketId(h, id)) == id <==> id < Pow2(30) * FRAMES_PER_SECOND
  {
    var h' := WithPacketId(h, id);
    WithPacketIdFields(h, id, Seconds);
    WithPacketIdFields(h, id, FrameNumber);
    MetadataFields(h', false);
    Powers();
    hide WithPacketId, ReadMetadata, Read, Pow2;
  }

  // ------------------------------------------------------------------ the baseband format

  /** The arguments for which configureBaseband does not throw. */
  predicate BasebandFormatOk(bits: nat, payloadBytes: nat) {
    && 1 <= bits <= 32 && payloadBytes <= (Pow2(64) - 1) / bits && (payloadBytes * bits) % 8 == 0
    && FrameBytes(bits, payloadBytes) % 8 == 0 && FrameBytes(bits, payloadBytes) <= 0x00ff_ffff * 8
  }

  function FrameBytes(bits: nat, payloadBytes: nat): nat {
    HEADER_SIZE + payloadBytes * bits / 8
  }

  function Baseband(h: Header, bits: nat, threadId: nat, payloadBytes: nat): Header
    requires 1 <= bits
  {
    var h1 := Write(Write(h, EDV, 1), FrameLength, FrameBytes(bits, payloadBytes) / 8);
    var h2 := Write(Write(h1, Complex, 1), BitsPerSample, bits - 1);
    Write(Write(Write(h2, Log2Channels, 0), Version, 1), ThreadID, threadId)
  }

  /** What the format leaves in each field. */
  function BasebandField(h: Header, bits: nat, threadId: nat, payloadBytes: nat, g: Field): nat
    requires 1 <= bits
  {
    match g
    case EDV => 1
    case FrameLength => FrameBytes(bits, payloadBytes) / 8
    case Complex => 1
    case BitsPerSample => bits - 1
    case Log2Channels => 0
    case Version => 1
    case ThreadID => threadId % 1024
    case _ => Read(h, g)
  }

  lemma BasebandFields(h: Header, bits: nat, threadId: nat, payloadBytes: nat, g: Field)
    requires BasebandFormatOk(bits, payloadBytes)
    ensures Read(Baseband(h, bits, threadId, payloadBytes), g) == BasebandField(h, bits, threadId, payloadBytes, g)
  {
    hide Pow2, Read, Write;
    var units := FrameBytes(bits, payloadBytes) / 8;
    var h0 := Write(h, EDV, 1);
    var h1 := Write(h0, FrameLength, units);
    var h2 := Write(h1, Complex, 1);
    var h3 := Write(h2, BitsPerSample, bits - 1);
    var h4 := Write(h3, Log2Channels, 0);
    var h5 := Write(h4, Version, 1);
    FitsIn(EDV, 1);
    FitsIn(FrameLength, units);
    FitsIn(Complex, 1);
    FitsIn(BitsPerSample, bits - 1);
    FitsIn(Log2Channels, 0);
    FitsIn(Version, 1);
    hide SpanOf;
    ReadWrite(h, EDV, 1, g);
    ReadWrite(h0, FrameLength, units, g);
    ReadWrite(h1, Complex, 1, g);
    ReadWrite(h2, BitsPerSample, bits - 1, g);
    ReadWrite(h3, Log2Channels, 0, g);
    ReadWrite(h4, Version, 1, g);
    ReadWrite(h5, ThreadID, threadId, g);
    ThreadWidth();
  }

  /** A value that fits its field is stored unreduced. */
  lemma FitsIn(f: Field, v: nat)
    requires v <= 1 || (f.BitsPerSample? && v < 32) || (f.FrameLength? && v < 0x100_0000)
    ensures v % Pow2(SpanOf(f).width) == v
  {
    Powers();
    SpanWidth(f);
    hide SpanOf;
    if !f.BitsPerSample? && !f.FrameLength? { Pow2Monotone(1, SpanOf(f).width); }
    hide Pow2;
    SmallMod(v, Pow2(SpanOf(f).width));
  }

  lemma SpanWidth(f: Field)
    ensures SpanOf(f).width >= 1
    ensures f.BitsPerSample? ==> SpanOf(f).width == 5
    ensures f.FrameLength? ==> SpanOf(f).width == 24
  {
  }

  lemma ThreadWidth()
    ensures Pow2(SpanOf(ThreadID).width) == 1024
  {
    Powers();
  }

  /** The two fields that may not hold what they are given. */
  lemma WidthWraps(h: Header, bits: nat, threadId: nat, payloadBytes: nat)
    requires 1 <= bits
    ensures Read(Baseband(h, bits, threadId, payloadBytes), BitsPerSample) == (bits - 1) % 32
  {
    hide Pow2, Read, Write, SpanOf;
    var units := FrameBytes(bits, payloadBytes) / 8;
    var h1 := Write(Write(h, EDV, 1), FrameLength, units);
    var h2 := Write(h1, Complex, 1);
    var h3 := Write(h2, BitsPerSample, bits - 1);
    var h4 := Write(h3, Log2Channels, 0);
    var h5 := Write(h4, Version, 1);
    Powers();
    SpanWidth(BitsPerSample);
    ReadWrite(h2, BitsPerSample, bits - 1, BitsPerSample);
    ReadWrite(h3, Log2Channels, 0, BitsPerSample);
    ReadWrite(h4, Version, 1, BitsPerSample);
    ReadWrite(h5, ThreadID, threadId, BitsPerSample);
  }

  lemma LengthWraps(h: Header, bits: nat, threadId: nat, payloadBytes: nat)
    requires 1 <= bits
    ensures Read(Baseband(h, bits, threadId, payloadBytes), FrameLength)
         == FrameBytes(bits, payloadBytes) / 8 % 0x0100_0000
  {
    hide Pow2, Read, Write, SpanOf;
    var units := FrameBytes(bits, payloadBytes) / 8;
    var h1 := Write(Write(h, EDV, 1), FrameLength, units);
    var h2 := Write(h1, Complex, 1);
    var h3 := Write(h2, BitsPerSample, bits - 1);
    var h4 := Write(h3, Log2Channels, 0);
    var h5 := Write(h4, Version, 1);
    Powers();
    SpanWidth(FrameLength);
    ReadWrite(Write(h, EDV, 1), FrameLength, units, FrameLength);
    ReadWrite(h1, Complex, 1, FrameLength);
    ReadWrite(h2, BitsPerSample, bits - 1, FrameLength);
    ReadWrite(h3, Log2Channels, 0, FrameLength);
    ReadWrite(h4, Version, 1, FrameLength);
    ReadWrite(h5, ThreadID, threadId, FrameLength);
  }

  /**
    For payloads of whole bytes that a word can count the bits of, the format is accepted
    exactly when the header can hold the sample width and the frame length asked for.
   */
  lemma AcceptedExactly(h: Header, bits: nat, threadId: nat, payloadBytes: nat)
    requires 1 <= bits && payloadBytes * bits < Pow2(64) && (payloadBytes * bits) % 8 == 0
    ensures var r := Baseband(h, bits, threadId, payloadBytes);
            BasebandFormatOk(bits, payloadBytes) <==>
              Read(r, BitsPerSample) + 1 == bits && Read(r, FrameLength) * 8 == FrameBytes(bits, payloadBytes)
  {
    hide Pow2, Read, Baseband;
    WidthWraps(h, bits, threadId, payloadBytes);
    LengthWraps(h, bits, threadId, payloadBytes);
    QuotientBound(payloadBytes, bits, Pow2(64) - 1);
  }

  lemma QuotientBound(x: nat, d: nat, limit: nat)
    requires d >= 1 && x * d <= limit
    ensures x <= limit / d
  {
    var y := limit - x * d;
    assert y == y / d * d + y % d;
    assert (x + y / d) * d == x * d + y / d * d;
    DivUnique(limit, d, x + y / d, y % d);
  }

  /** The format does not disturb the packet number. */
  lemma BasebandKeepsPacketId(h: Header, bits: nat, threadId: nat, payloadBytes: nat)
    requires BasebandFormatOk(bits, payloadBytes)
    ensures PacketId(Baseband(h, bits, threadId, payloadBytes)) == PacketId(h)
  {
    var h' := Baseband(h, bits, threadId, payloadBytes);
    BasebandFields(h, bits, threadId, payloadBytes, Seconds);
    BasebandFields(h, bits, threadId, payloadBytes, FrameNumber);
    MetadataFields(h, false);
    MetadataFields(h', false);
    hide Baseband, ReadMetadata, Read, Pow2, BasebandFormatOk;
  }

  /** The format fields of a frame as the receiver sets them. */
  ghost predicate Formatted(h: Header, bits: nat, threadId: nat, frameBytes: nat) {
    && Read(h, Complex) == 1 && Read(h, Log2Channels) == 0 && Read(h, BitsPerSample) + 1 == bits
    && Read(h, ThreadID) == threadId && Read(h, FrameLength) * 8 == frameBytes
  }

  lemma BasebandIsFormatted(h: Header, bits: nat, threadId: nat, payloadBytes: nat)
    requires BasebandFormatOk(bits, payloadBytes)
    ensures Formatted(Baseband(h, bits, threadId, payloadBytes), bits, threadId % 1024, FrameBytes(bits, payloadBytes))
  {
    hide Baseband, Read, Pow2;
    BasebandFields(h, bits, threadId, payloadBytes, Complex);
    BasebandFields(h, bits, threadId, payloadBytes, Log2Channels);
    BasebandFields(h, bits, threadId, payloadBytes, BitsPerSample);
    BasebandFields(h, bits, threadId, payloadBytes, ThreadID);
    BasebandFields(h, bits, threadId, payloadBytes, FrameLength);
  }

  /** Storing a packet number leaves the format alone. */
  lemma WithPacketIdFormatted(h: Header, id: nat, bits: nat, threadId: nat, frameBytes: nat)
    requires Formatted(h, bits, threadId, frameBytes)
    ensures Formatted(WithPacketId(h, id), bits, threadId, frameBytes)
  {
    hide WithPacketId, Read, Pow2;
    WithPacketIdFields(h, id, Complex);
    WithPacketIdFields(h, id, Log2Channels);
    WithPacketIdFields(h, id, BitsPerSample);
    WithPacketIdFields(h, id, ThreadID);
    WithPacketIdFields(h, id, FrameLength);
  }

  // ------------------------------------------------------------------ the Python reader

  datatype ParsedHeader = ParsedHeader(
    invalid: bool, legacy: bool, secondsFromEpoch: nat, referenceEpoch: nat, frameNumber: nat,
    version: nat, log2Channels: nat, frameBytes: nat, stationId: nat, threadId: nat,
    bitsPerSample: nat, complexData: bool, edv: nat)

  datatype ParseResult = Parsed(header: ParsedHeader) | WrongLength(length: nat)

  function ParseHeader(data: seq<Byte>): ParseResult {
    if |data| != HEADER_SIZE then WrongLength(|data|) else
    Parsed(ParsedHeader(
      And(Shr(Word(data, 0), 31), 1) == 1, And(Shr(Word(data, 0), 30), 1) == 1, And(Word(data, 0), 0x3FFFFFFF),
      And(Shr(Word(data, 1), 24), 0x3F), And(Word(data, 1), 0x00FFFFFF),
      And(Shr(Word(data, 2), 29), 0x7), And(Shr(Word(data, 2), 24), 0x1F), And(Word(data, 2), 0x00FFFFFF) * 8,
      And(Word(data, 3), 0xFFFF), And(Shr(Word(data, 3), 16), 0x03FF), And(Shr(Word(data, 3), 26), 0x1F) + 1,
      And(Shr(Word(data, 3), 31), 1) == 1, And(Shr(Word(data, 4), 24), 0xFF)))
  }

  /**
    The Python reader agrees with the C++ fields everywhere but on the two top bits of the
    first word, which it reads the other way round.
   */
  lemma ReaderAgrees(h: Header)
    ensures ParseHeader(h) == Parsed(ParsedHeader(
      Read(h, Legacy) == 1, Read(h, Invalid) == 1, Read(h, Seconds), Read(h, ReferenceEpoch), Read(h, FrameNumber),
      Read(h, Version), Read(h, Log2Channels), Read(h, FrameLength) * 8, Read(h, StationID), Read(h, ThreadID),
      Read(h, BitsPerSample) + 1, Read(h, Complex) == 1, Read(h, EDV)))
  {
    hide Pow2, And, Shr, Word, Read;
    ReaderFirstWords(h);
    ReaderWord2(h);
    ReaderWord34(h);
    ReaderTop34(h);
  }

  lemma ReaderFirstWords(h: Header)
    ensures And(Shr(Word(h, 0), 31), 1) == Read(h, Legacy) && And(Shr(Word(h, 0), 30), 1) == Read(h, Invalid)
    ensures And(Word(h, 0), 0x3FFFFFFF) == Read(h, Seconds) && And(Word(h, 1), 0x00FFFFFF) == Read(h, FrameNumber)
    ensures And(Shr(Word(h, 1), 24), 0x3F) == Read(h, ReferenceEpoch)
  {
    hide Pow2, And, Shr, Word;
    LowField(Word(h, 0), 30);
    LowField(Word(h, 1), 24);
    Powers();
  }

  lemma ReaderWord2(h: Header)
    ensures And(Shr(Word(h, 2), 29), 0x7) == Read(h, Version)
    ensures And(Shr(Word(h, 2), 24), 0x1F) == Read(h, Log2Channels)
    ensures And(Word(h, 2), 0x00FFFFFF) == Read(h, FrameLength)
  {
    hide Pow2, And, Shr, Word;
    LowField(Word(h, 2), 24);
    Powers();
  }

  lemma ReaderWord34(h: Header)
    ensures And(Word(h, 3), 0xFFFF) == Read(h, StationID)
    ensures And(Shr(Word(h, 3), 16), 0x03FF) == Read(h, ThreadID)
    ensures And(Shr(Word(h, 3), 26), 0x1F) == Read(h, BitsPerSample)
  {
    hide Pow2, And, Shr, Word;
    LowField(Word(h, 3), 16);
    Powers();
  }

  lemma ReaderTop34(h: Header)
    ensures And(Shr(Word(h, 3), 31), 1) == Read(h, Complex) && And(Shr(Word(h, 4), 24), 0xFF) == Read(h, EDV)
  {
    hide Pow2, And, Shr, Word;
    Powers();
  }

  lemma LowField(w: nat, width: nat)
    ensures Get(w, 0, width) == And(w, Pow2(width) - 1)
  {
  }

  /** Hence a frame the receiver marks invalid is taken for a legacy one, unless both bits agree. */
  lemma InvalidReadAsLegacy(h: Header)
    ensures ParseHeader(Write(h, Invalid, 1)).header.legacy
    ensures ParseHeader(Write(h, Invalid, 1)).header.invalid <==> Read(h, Legacy) == 1
    ensures (Read(h, Invalid) == 1 <==> ParseHeader(h).header.invalid) <==>
            (Read(h, Invalid) == 1 <==> Read(h, Legacy) == 1)
  {
    ReaderAgrees(h);
    ReaderAgrees(Write(h, Invalid, 1));
    ReadWrite(h, Invalid, 1, Invalid);
    ReadWrite(h, Invalid, 1, Legacy);
    Powers();
    hide Write, Read, ParseHeader, Pow2;
  }

  /** A header formatted by the receiver, as the reader sees it. */
  lemma ReaderSeesBaseband(h: Header, bits: nat, threadId: nat, payloadBytes: nat)
    requires BasebandFormatOk(bits, payloadBytes)
    ensures var p := ParseHeader(Baseband(h, bits, threadId, payloadBytes));
            && p.Parsed? && p.header.complexData && p.header.log2Channels == 0 && p.header.version == 1
            && p.header.edv == 1 && p.header.bitsPerSample == bits && p.header.threadId == threadId % 1024
            && p.header.frameBytes == HEADER_SIZE + payloadBytes * bits / 8
            && p.header.secondsFromEpoch * FRAMES_PER_SECOND + p.header.frameNumber == PacketId(h)
  {
    hide Baseband, Read, ParseHeader, ReadMetadata, Pow2;
    var h' := Baseband(h, bits, threadId, payloadBytes);
    ReaderAgrees(h');
    BasebandFields(h, bits, threadId, payloadBytes, EDV);
    BasebandFields(h, bits, threadId, payloadBytes, Complex);
    BasebandFields(h, bits, threadId, payloadBytes, Log2Channels);
    BasebandFields(h, bits, threadId, payloadBytes, Version);
    BasebandFields(h, bits, threadId, payloadBytes, BitsPerSample);
    BasebandFields(h, bits, threadId, payloadBytes, ThreadID);
    BasebandFields(h, bits, threadId, payloadBytes, FrameLength);
    BasebandFields(h, bits, threadId, payloadBytes, Seconds);
    BasebandFields(h, bits, threadId, payloadBytes, FrameNumber);
    MetadataFields(h, false);
  }

  // ------------------------------------------------------------------ the header object

  datatype Result<T> = Ok(value: T) | OutOfRange | InvalidArgument

  class HeaderBuffer {
    const bytes: array<Byte>

    ghost predicate Valid() { bytes.Length == HEADER_SIZE }

    ghost function Value(): Header
      requires Valid()
      reads bytes
    {
      bytes[..]
    }

    constructor ()
      ensures Valid() && fresh(bytes) && forall f :: Read(Value(), f) == 0
    {
      bytes := new Byte[HEADER_SIZE](_ => 0);
      new;
      forall f ensures Read(Value(), f) == 0 { ZeroField(Value(), f); }
    }

    method CopyIn(buf: seq<Byte>) returns (r: Result<()>)
      requires Valid()
      modifies bytes
      ensures r == (if |buf| < HEADER_SIZE then InvalidArgument else Ok(()))
      ensures Value() == if r.Ok? then buf[..HEADER_SIZE] else old(Value())
    {
      if |buf| < HEADER_SIZE { return InvalidArgument; }
      for i := 0 to HEADER_SIZE
        invariant bytes[..i] == buf[..i]
      {
        bytes[i] := buf[i];
      }
      assert bytes[..] == bytes[..HEADER_SIZE];
      return Ok(());
    }

    method GetWord(index: nat) returns (r: Result<nat>)
      requires Valid()
      ensures r == if index >= WORDS then OutOfRange else Ok(Word(Value(), index))
    {
      if index >= WORDS { return OutOfRange; }
      var p := 4 * index;
      return Ok(ReadLe32(bytes[p], bytes[p + 1], bytes[p + 2], bytes[p + 3]));
    }

    method SetWord(index: nat, value: nat) returns (r: Result<()>)
      requires Valid()
      modifies bytes
      ensures r == (if index >= WORDS then OutOfRange else Ok(()))
      ensures Value() == WithWord(old(Value()), index, value)
    {
      if index >= WORDS { return OutOfRange; }
      var p := 4 * index;
      bytes[p] := ByteOf(value, 0);
      bytes[p + 1] := ByteOf(value, 1);
      bytes[p + 2] := ByteOf(value, 2);
      bytes[p + 3] := ByteOf(value, 3);
      return Ok(());
    }

    method SetSecondsFromEpoch(sec: nat)
      requires Valid()
      modifies bytes
      ensures Value() == Write(old(Value()), Seconds, sec)
    {
      hide Pow2, And, Or, Word, WithWord, Not, Shl, Mask;
      MaskLiterals();
      var w := GetWord(0);
      var _ := SetWord(0, Or(And(w.value, 0xc000_0000), And(sec, 0x3fff_ffff)));
    }

    method SetFrameNumber(n: nat)
      requires Valid()
      modifies bytes
      ensures Value() == Write(old(Value()), FrameNumber, n)
    {
      hide Pow2, And, Or, Word, WithWord, Not, Shl, Mask;
      MaskLiterals();
      var w := GetWord(1);
      var _ := SetWord(1, Or(And(w.value, 0xff00_0000), And(n, 0xff_ffff)));
    }

    method SetFlag(f: Field, v: bool)
      requires Valid() && SpanOf(f).width == 1
      modifies bytes
      ensures Value() == Write(old(Value()), f, if v then 1 else 0)
    {
      var p := SpanOf(f);
      SpanFits(f);
      hide Pow2, And, Or, Word, WithWord, Put, Shl, Not, SpanOf;
      var w := GetWord(p.word);
      WordBound(Value(), p.word);
      SetBit(w.value, p.lo);
      ClearBit(w.value, p.lo);
      if v {
        var _ := SetWord(p.word, Or(w.value, Shl(1, p.lo)));
      } else {
        var _ := SetWord(p.word, And(w.value, Not(32, Shl(1, p.lo))));
      }
    }

    method SetPacketId(id: nat)
      requires Valid()
      modifies bytes
      ensures Value() == WithPacketId(old(Value()), id)
    {
      SetSecondsFromEpoch(id / FRAMES_PER_SECOND % Pow2(32));
      SetFrameNumber(id % FRAMES_PER_SECOND % Pow2(32));
    }

    method SetBitsPerSample(bits: Byte)
      requires Valid()
      modifies bytes
      ensures 1 <= bits <= 32 ==> Value() == Write(old(Value()), BitsPerSample, bits - 1)
      ensures Value() == WithWord(old(Value()), 3, BitsWord(Word(old(Value()), 3), bits))
    {
      hide Pow2, And, Or, Word, WithWord, Put, BitsWord;
      var w := GetWord(3);
      var _ := SetWord(3, BitsWord(w.value, bits));
      if 1 <= bits <= 32 { BitsWordIsPut(w.value, bits); }
    }

    method SetFrameLength(frameBytes: nat)
      requires Valid()
      modifies bytes
      ensures Value() == Write(old(Value()), FrameLength, frameBytes / 8)
    {
      hide Pow2, And, Or, Word, WithWord, Not, Shl, Mask;
      MaskLiterals();
      var w := GetWord(2);
      var _ := SetWord(2, Or(And(w.value, 0xff00_0000), And(frameBytes / 8, 0xff_ffff)));
    }

    /** Version, channel count, thread and EDV: the masked and shifted setters. */
    method SetShifted(f: Field, v: nat)
      requires Valid() && f in {Version, Log2Channels, ThreadID, EDV}
      modifies bytes
      ensures Value() == Write(old(Value()), f, v)
    {
      var p := SpanOf(f);
      SpanFits(f);
      var m := Mask(p.width);
      hide Pow2, And, Or, Word, WithWord, Shl, Not, SpanOf;
      var w := GetWord(p.word);
      var _ := SetWord(p.word, Or(And(w.value, Not(32, Shl(m, p.lo))), Shl(And(v, m), p.lo)));
    }

    method ConfigureBaseband(bits: Byte, threadId: nat, payloadBytes: nat) returns (r: Result<()>)
      requires Valid()
      modifies bytes
      ensures r == (if BasebandFormatOk(bits, payloadBytes) then Ok(()) else InvalidArgument)
      ensures Value() == if r.Ok? then Baseband(old(Value()), bits, threadId, payloadBytes) else old(Value())
    {
      hide Pow2, Write;
      if bits == 0 || bits > 32 { return InvalidArgument; }
      if payloadBytes > (Pow2(64) - 1) / bits || (payloadBytes * bits) % 8 != 0 { return InvalidArgument; }
      var frameBytes := FrameBytes(bits, payloadBytes);
      if frameBytes % 8 != 0 || frameBytes > 0x00ff_ffff * 8 { return InvalidArgument; }
      SetShifted(EDV, 1);
      SetFrameLength(frameBytes);
      SetFlag(Complex, true);
      SetBitsPerSample(bits);
      SetShifted(Log2Channels, 0);
      SetShifted(Version, 1);
      SetShifted(ThreadID, threadId);
      return Ok(());
    }
  }

  lemma ZeroField(h: Header, f: Field)
    requires forall i :: 0 <= i < HEADER_SIZE ==> h[i] == 0
    ensures Read(h, f) == 0
  {
    SpanFits(f);
    var p := SpanOf(f);
    hide SpanOf, Get, ReadLe32, Bit;
    assert Word(h, p.word) == ReadLe32(0, 0, 0, 0);
    forall i: nat ensures Bit(Read(h, f), i) == Bit(0, i) {
      GetBit(Word(h, p.word), p.lo, p.width, i);
      ZeroWord(p.lo + i);
      BitZero(i);
    }
    BitsDetermine(Read(h, f), 0);
  }

  lemma ZeroWord(i: nat)
    ensures !Bit(ReadLe32(0, 0, 0, 0), i)
  {
    hide Bit, ReadLe32;
    ReadBit(0, 0, 0, 0, i);
    forall j: nat ensures !Bit(0, j) { BitZero(j); }
  }

  /** The literal masks of the unshifted setters. */
  lemma MaskLiterals()
    ensures Mask(30) == 0x3fff_ffff && Not(32, Shl(Mask(30), 0)) == 0xc000_0000
    ensures Mask(24) == 0xff_ffff && Not(32, Shl(Mask(24), 0)) == 0xff00_0000
    ensures forall x: nat :: Shl(x, 0) == x
  {
    Powers();
  }

  /** (bits - 1) << 26 is or-ed in unmasked; it wraps at the word for a zero argument. */
  function BitsWord(w: nat, bits: Byte): nat {
    Or(And(w, Not(32, Shl(Mask(5), 26))), Shl((bits - 1) % 0x1_0000_0000, 26) % 0x1_0000_0000)
  }

  lemma BitsWordIsPut(w: nat, bits: Byte)
    requires 1 <= bits <= 32
    ensures BitsWord(w, bits) == Put(w, 26, 5, bits - 1)
  {
    hide Pow2, And, Or, Shl, Not;
    Powers();
    AndMask(bits - 1, 5);
    ShlBound(bits - 1, 5, 26);
    SmallMod(bits - 1, 0x20);
    SmallMod(bits - 1, 0x1_0000_0000);
    SmallMod(Shl(bits - 1, 26), 0x1_0000_0000);
  }

  lemma SmallMod(x: nat, m: nat)
    requires x < m
    ensures x % m == x
  {
    DivUnique(x, m, 0, x);
  }
}
