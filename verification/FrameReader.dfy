/**
  The Python reader of recorded files: frame after frame, it parses the header, refuses
  what it does not support, and keeps statistics of the packet numbers it sees.
 */
module FrameReader {
  import opened Bits
  import opened Units
  import opened Vdif

  datatype Option<T> = None | Some(value: T)

  datatype Frame = Frame(header: Header, payload: seq<Byte>)

  datatype ReadError =
    | TruncatedHeader | LegacyHeader | BadFrameLength | NotComplex | ManyChannels | TruncatedFrame | FormatChanged

  datatype Format = Format(bits: nat, complex: bool, thread: nat)

  datatype Stats = Stats(
    framesRead: nat, framesUsed: nat, invalidFrames: nat, missingFrames: nat,
    duplicateFrames: nat, reorderedFrames: nat, truncatedBytes: nat)

  /** What the generator remembers between frames, and what it has yielded. */
  datatype State = State(
    format: Option<Format>, previous: Option<nat>, stats: Stats, yielded: seq<Frame>, error: Option<ReadError>)

  const INITIAL := State(None, None, Stats(0, 0, 0, 0, 0, 0, 0), [], None)

  // ------------------------------------------------------------------ one frame

  /** The checks made on a header before its payload is read. */
  function HeaderError(h: ParsedHeader): Option<ReadError> {
    if h.legacy then Some(LegacyHeader)
    else if h.frameBytes < HEADER_SIZE then Some(BadFrameLength)
    else if !h.complexData then Some(NotComplex)
    else if h.log2Channels != 0 then Some(ManyChannels)
    else None
  }

  function FormatOf(h: ParsedHeader): Format { Format(h.bitsPerSample, h.complexData, h.threadId) }

  function IdOf(h: ParsedHeader): nat { h.secondsFromEpoch * FRAMES_PER_SECOND + h.frameNumber }

  /** The statistics after a packet number is compared with the one before. */
  function Counted(stats: Stats, previous: Option<nat>, id: nat): Stats {
    if previous.None? then stats
    else
      var difference := id - previous.value;
      if difference > 1 then stats.(missingFrames := stats.missingFrames + (difference - 1))
      else if difference == 0 then stats.(duplicateFrames := stats.duplicateFrames + 1)
      else if difference < 0 then stats.(reorderedFrames := stats.reorderedFrames + 1)
      else stats
  }

  /** After a complete frame. */
  function AfterFrame(s: State, h: ParsedHeader, f: Frame): State {
    var stats := s.stats.(framesRead := s.stats.framesRead + 1);
    if s.format.Some? && s.format.value != FormatOf(h) then s.(stats := stats, error := Some(FormatChanged))
    else
      var counted := Counted(stats, s.previous, IdOf(h));
      var s1 := s.(format := Some(FormatOf(h)), previous := Some(IdOf(h)));
      if h.invalid then s1.(stats := counted.(invalidFrames := counted.invalidFrames + 1))
      else s1.(stats := counted.(framesUsed := counted.framesUsed + 1), yielded := s.yielded + [f])
  }

  function Stopped(limit: Option<nat>, s: State): bool {
    s.error.Some? || (limit.Some? && s.stats.framesRead >= limit.value)
  }

  function Step(limit: Option<nat>, s: State, f: Frame): State {
    if Stopped(limit, s) then s
    else
      var h := ParseHeader(f.header).header;
      if HeaderError(h).Some? then s.(error := HeaderError(h)) else AfterFrame(s, h, f)
  }

  function Scan(limit: Option<nat>, s: State, frames: seq<Frame>): State
    decreases frames
  {
    if frames == [] then s else Scan(limit, Step(limit, s, frames[0]), frames[1..])
  }

  // ------------------------------------------------------------------ files

  function Serialize(frames: seq<Frame>): seq<Byte> {
    if frames == [] then [] else frames[0].header + frames[0].payload + Serialize(frames[1..])
  }

  /** The header's length field gives the frame's length. */
  predicate Measured(f: Frame) {
    ParseHeader(f.header).Parsed? && ParseHeader(f.header).header.frameBytes == HEADER_SIZE + |f.payload|
  }

  ghost predicate AllMeasured(frames: seq<Frame>) {
    forall k :: 0 <= k < |frames| ==> Measured(frames[k])
  }

  lemma {:induction false} ScanStopped(limit: Option<nat>, s: State, frames: seq<Frame>)
    requires Stopped(limit, s)
    ensures Scan(limit, s, frames) == s
    decreases frames
  {
    if frames != [] { ScanStopped(limit, s, frames[1..]); }
  }

  lemma {:induction false} SerializeAppend(frames: seq<Frame>, more: seq<Frame>)
    ensures Serialize(frames + more) == Serialize(frames) + Serialize(more)
    decreases frames
  {
    if frames == [] {
      assert frames + more == more;
    } else {
      assert (frames + more)[0] == frames[0] && (frames + more)[1..] == frames[1..] + more;
      SerializeAppend(frames[1..], more);
    }
  }

  lemma {:induction false} ScanAppend(limit: Option<nat>, s: State, frames: seq<Frame>, more: seq<Frame>)
    ensures Scan(limit, s, frames + more) == Scan(limit, Scan(limit, s, frames), more)
    decreases frames
  {
    hide Step;
    if frames == [] {
      assert frames + more == more;
    } else {
      assert (frames + more)[0] == frames[0] && (frames + more)[1..] == frames[1..] + more;
      ScanAppend(limit, Step(limit, s, frames[0]), frames[1..], more);
    }
  }

  /** The end of a file that does not hold another whole frame. */
  predicate Partial(tail: seq<Byte>) {
    || |tail| < HEADER_SIZE
    || var n := ParseHeader(tail[..HEADER_SIZE]).header.frameBytes; n < HEADER_SIZE || |tail| < n
  }

  /** What the reader makes of it. */
  function AtEnd(limit: Option<nat>, s: State, tail: seq<Byte>): State {
    if Stopped(limit, s) || tail == [] then s
    else if |tail| < HEADER_SIZE then
      s.(stats := s.stats.(truncatedBytes := s.stats.truncatedBytes + |tail|), error := Some(TruncatedHeader))
    else
      var h := ParseHeader(tail[..HEADER_SIZE]).header;
      if HeaderError(h).Some? then s.(error := HeaderError(h))
      else s.(stats := s.stats.(framesRead := s.stats.framesRead + 1,
                                truncatedBytes := s.stats.truncatedBytes + (|tail| - HEADER_SIZE)),
              error := Some(TruncatedFrame))
  }

  /** Every file whatever is some whole frames and such an end. */
  lemma {:induction false} EveryFileSplits(data: seq<Byte>) returns (frames: seq<Frame>, tail: seq<Byte>)
    ensures data == Serialize(frames) + tail && AllMeasured(frames) && Partial(tail)
    decreases |data|
  {
    hide ParseHeader;
    if Partial(data) {
      frames, tail := [], data;
    } else {
      ParseSucceeds(data[..HEADER_SIZE]);
      var n := ParseHeader(data[..HEADER_SIZE]).header.frameBytes;
      var f := Frame(data[..HEADER_SIZE], data[HEADER_SIZE..n]);
      var rest;
      rest, tail := EveryFileSplits(data[n..]);
      frames := [f] + rest;
      assert frames[1..] == rest;
      assert data == f.header + f.payload + data[n..];
      assert Serialize(frames) + tail == f.header + f.payload + (Serialize(rest) + tail);
      assert Measured(f);
    }
  }

  /** The first frame of what is left, taken apart. */
  lemma FirstFrame(data: seq<Byte>, frames: seq<Frame>, tail: seq<Byte>)
    requires data == Serialize(frames) + tail && AllMeasured(frames)
    ensures frames == [] ==> data == tail
    ensures frames != [] ==>
              && |data| >= HEADER_SIZE && data[..HEADER_SIZE] == frames[0].header
              && var n := ParseHeader(frames[0].header).header.frameBytes;
              && HEADER_SIZE <= n <= |data| && data[HEADER_SIZE..n] == frames[0].payload
              && data[n..] == Serialize(frames[1..]) + tail && AllMeasured(frames[1..])
  {
    hide ParseHeader;
    if frames != [] {
      var f := frames[0];
      assert Measured(f);
      assert data == f.header + f.payload + (Serialize(frames[1..]) + tail);
    }
  }

  /** The frames of several files in turn. */
  function Flatten(files: seq<seq<Frame>>): seq<Frame> {
    if files == [] then [] else Flatten(files[..|files| - 1]) + files[|files| - 1]
  }

  class Reader {
    const limit: Option<nat>
    var state: State

    constructor (limit: Option<nat>)
      ensures this.limit == limit && state == INITIAL
    {
      this.limit := limit;
      state := INITIAL;
    }

    /**
      One file: the reader sees the whole frames in it and then what is left, if anything is.
      By EveryFileSplits this is said of every file.
     */
    method ReadFile(data: seq<Byte>, ghost frames: seq<Frame>, ghost tail: seq<Byte>)
      modifies this
      ensures data == Serialize(frames) + tail && AllMeasured(frames) && Partial(tail) ==>
                state == AtEnd(limit, Scan(limit, old(state), frames), tail)
    {
      hide Serialize, ParseHeader, HeaderError, AfterFrame, Measured;
      var rest := data;
      ghost var left := frames;
      ghost var isFile := data == Serialize(frames) + tail && AllMeasured(frames) && Partial(tail);
      while !Stopped(limit, state)
        invariant isFile ==> rest == Serialize(left) + tail && AllMeasured(left)
        invariant isFile ==> Scan(limit, state, left) == Scan(limit, old(state), frames)
        decreases |rest|
      {
        if isFile { FirstFrame(rest, left, tail); }
        if |rest| == 0 { return; }
        if |rest| < HEADER_SIZE {
          state := state.(stats := state.stats.(truncatedBytes := state.stats.truncatedBytes + |rest|),
                          error := Some(TruncatedHeader));
          return;
        }
        var header: Header := rest[..HEADER_SIZE];
        ParseSucceeds(header);
        var h := ParseHeader(header).header;
        if HeaderError(h).Some? {
          state := state.(error := HeaderError(h));
          if isFile && left != [] { ScanStopped(limit, state, left[1..]); }
          return;
        }
        ErrorFreeLength(h);
        if |rest| < h.frameBytes {
          state := state.(stats := state.stats.(framesRead := state.stats.framesRead + 1,
                                                truncatedBytes := state.stats.truncatedBytes + (|rest| - HEADER_SIZE)),
                          error := Some(TruncatedFrame));
          return;
        }
        state := AfterFrame(state, h, Frame(header, rest[HEADER_SIZE..h.frameBytes]));
        rest := rest[h.frameBytes..];
        if isFile { left := left[1..]; }
      }
      if isFile { ScanStopped(limit, state, left); }
    }

    /** Several files in turn are read as their frames in turn. */
    method ReadFiles(files: seq<seq<Byte>>, ghost frames: seq<seq<Frame>>)
      requires |frames| == |files|
      modifies this
      ensures (forall k :: 0 <= k < |files| ==> files[k] == Serialize(frames[k]) && AllMeasured(frames[k]))
              ==> state == Scan(limit, old(state), Flatten(frames))
    {
      hide Serialize, AllMeasured, Step;
      ghost var areFrames := forall k :: 0 <= k < |files| ==>
                files[k] == Serialize(frames[k]) && AllMeasured(frames[k]);
      for k := 0 to |files|
        invariant areFrames ==> state == Scan(limit, old(state), Flatten(frames[..k]))
      {
        if Stopped(limit, state) {
          if areFrames { FlattenSplit(limit, old(state), frames, k); }
          return;
        }
        assert files[k] + [] == files[k];
        ReadFile(files[k], frames[k], []);
        if areFrames {
          assert frames[..k + 1][..k] == frames[..k];
          ScanAppend(limit, old(state), Flatten(frames[..k]), frames[k]);
        }
      }
      assert frames[..|files|] == frames;
    }
  }

  /** Once stopped, the files left make no difference. */
  lemma {:induction false} FlattenSplit(limit: Option<nat>, s: State, frames: seq<seq<Frame>>, k: nat)
    requires k <= |frames| && Stopped(limit, Scan(limit, s, Flatten(frames[..k])))
    ensures Scan(limit, s, Flatten(frames)) == Scan(limit, s, Flatten(frames[..k]))
    decreases |frames|
  {
    hide Step;
    if k == |frames| {
      assert frames[..k] == frames;
    } else {
      var n := |frames| - 1;
      assert frames[..n][..k] == frames[..k];
      FlattenSplit(limit, s, frames[..n], k);
      ScanAppend(limit, s, Flatten(frames[..n]), frames[n]);
      ScanStopped(limit, Scan(limit, s, Flatten(frames[..n])), frames[n]);
    }
  }

  lemma ParseSucceeds(h: Header)
    ensures ParseHeader(h).Parsed?
  {
    hide And, Shr, Word;
  }

  lemma ErrorFreeLength(h: ParsedHeader)
    requires HeaderError(h).None?
    ensures h.frameBytes >= HEADER_SIZE
  {
  }

  // ------------------------------------------------------------------ the statistics

  /** The packet number of a frame as the reader sees it. */
  function Number(f: Frame): int { IdOf(ParseHeader(f.header).header) }

  predicate Marked(f: Frame) { ParseHeader(f.header).header.invalid }

  /** The frames not marked, in order. */
  function Unmarked(frames: seq<Frame>): seq<Frame> {
    if frames == [] then []
    else
      var n := |frames| - 1;
      Unmarked(frames[..n]) + if Marked(frames[n]) then [] else [frames[n]]
  }

  /** Frame k has the number of the one before, or a smaller one. */
  predicate Repeated(frames: seq<Frame>, k: nat) {
    0 < k < |frames| && Number(frames[k]) == Number(frames[k - 1])
  }

  predicate SteppedBack(frames: seq<Frame>, k: nat) {
    0 < k < |frames| && Number(frames[k]) < Number(frames[k - 1])
  }

  function Repeats(frames: seq<Frame>): set<nat> { set k: nat | k < |frames| && Repeated(frames, k) }

  function StepsBack(frames: seq<Frame>): set<nat> { set k: nat | k < |frames| && SteppedBack(frames, k) }

  lemma RepeatsNext(frames: seq<Frame>, f: Frame)
    ensures |Repeats(frames + [f])| == |Repeats(frames)| + if Repeated(frames + [f], |frames|) then 1 else 0
  {
    hide Number;
    var n, frames' := |frames|, frames + [f];
    assert forall k: nat :: k < n ==> (Repeated(frames', k) <==> Repeated(frames, k));
    hide Repeated;
    assert n !in Repeats(frames);
    assert Repeats(frames') == Repeats(frames) + (if Repeated(frames', n) then {n} else {});
  }

  lemma StepsBackNext(frames: seq<Frame>, f: Frame)
    ensures |StepsBack(frames + [f])| == |StepsBack(frames)| + if SteppedBack(frames + [f], |frames|) then 1 else 0
  {
    hide Number;
    var n, frames' := |frames|, frames + [f];
    assert forall k: nat :: k < n ==> (SteppedBack(frames', k) <==> SteppedBack(frames, k));
    hide SteppedBack;
    assert n !in StepsBack(frames);
    assert StepsBack(frames') == StepsBack(frames) + (if SteppedBack(frames', n) then {n} else {});
  }

  /** Numbers skipped over, going forward. */
  function Skipped(frames: seq<Frame>): nat {
    if |frames| < 2 then 0
    else
      var n := |frames| - 1;
      var step := Number(frames[n]) - Number(frames[n - 1]);
      Skipped(frames[..n]) + if step > 1 then step - 1 else 0
  }

  /** What the reader has counted and kept, without an error, is what the frames are. */
  ghost predicate Tallied(s: State, frames: seq<Frame>) {
    && s.stats.framesRead == |frames| && s.yielded == Unmarked(frames)
    && s.stats.framesUsed == |s.yielded| && s.stats.invalidFrames == |frames| - |s.yielded|
    && s.stats.duplicateFrames == |Repeats(frames)| && s.stats.reorderedFrames == |StepsBack(frames)|
    && s.stats.missingFrames == Skipped(frames) && s.stats.truncatedBytes == 0
    && s.previous == (if frames == [] then None else Some(Number(frames[|frames| - 1])))
  }

  lemma TalliedNext(s: State, frames: seq<Frame>, f: Frame)
    requires Tallied(s, frames) && s.error.None? && Step(None, s, f).error.None?
    ensures Tallied(Step(None, s, f), frames + [f])
  {
    hide ParseHeader, HeaderError, FormatOf, IdOf, Repeats, StepsBack;
    RepeatsNext(frames, f);
    StepsBackNext(frames, f);
    assert (frames + [f])[..|frames|] == frames;
  }

  /** As long as no error stops it, the reader's statistics are exact for any frames whatever. */
  lemma {:induction false} StatsAreExact(frames: seq<Frame>)
    requires Scan(None, INITIAL, frames).error.None?
    ensures Tallied(Scan(None, INITIAL, frames), frames)
    decreases |frames|
  {
    if frames != [] {
      hide Step, Tallied, Stopped;
      var n := |frames| - 1;
      var s := Scan(None, INITIAL, frames[..n]);
      ScanAppend(None, INITIAL, frames[..n], [frames[n]]);
      assert frames[..n] + [frames[n]] == frames;
      assert Scan(None, s, [frames[n]]) == Scan(None, Step(None, s, frames[n]), []);
      ErrorStays(s, frames[n]);
      StatsAreExact(frames[..n]);
      TalliedNext(s, frames[..n], frames[n]);
    }
  }

  lemma ErrorStays(s: State, f: Frame)
    ensures s.error.Some? ==> Step(None, s, f).error.Some?
  {
    hide ParseHeader, HeaderError, AfterFrame;
  }

  /** A frame the reader supports: not legacy, of a possible length, complex, with one channel. */
  predicate Supported(f: Frame) {
    var h := ParseHeader(f.header).header;
    !h.legacy && h.frameBytes >= HEADER_SIZE && h.complexData && h.log2Channels == 0
  }

  ghost predicate OneFormat(frames: seq<Frame>) {
    forall k :: 0 <= k < |frames| ==> SameFormat(frames[k], frames[0])
  }

  /** The frames have samples of the same width and come from the same thread. */
  predicate SameFormat(f: Frame, g: Frame) {
    var h, k := ParseHeader(f.header).header, ParseHeader(g.header).header;
    h.bitsPerSample == k.bitsPerSample && h.threadId == k.threadId && h.complexData == k.complexData
  }

  ghost predicate AllSupported(frames: seq<Frame>) { forall k :: 0 <= k < |frames| ==> Supported(frames[k]) }

  /** No error is reported exactly when every frame is supported and all have the format of the first. */
  lemma {:induction false} ReadsExactly(frames: seq<Frame>)
    ensures var s := Scan(None, INITIAL, frames);
            && (s.error.None? <==> AllSupported(frames) && OneFormat(frames))
            && (s.error.None? ==> s.format == if frames == [] then None
                                              else Some(FormatOf(ParseHeader(frames[0].header).header)))
    decreases |frames|
  {
    hide ParseHeader, Step;
    if frames != [] {
      var n := |frames| - 1;
      var f := frames[n];
      var s := Scan(None, INITIAL, frames[..n]);
      ScanAppend(None, INITIAL, frames[..n], [f]);
      assert frames[..n] + [f] == frames;
      assert Scan(None, s, [f]) == Scan(None, Step(None, s, f), []);
      ReadsExactly(frames[..n]);
      StepReads(s, f);
      hide SameFormat, Supported;
      assert AllSupported(frames) <==> AllSupported(frames[..n]) && Supported(f);
      assert OneFormat(frames) <==> OneFormat(frames[..n]) && SameFormat(f, frames[0]);
    }
  }

  lemma StepReads(s: State, f: Frame)
    ensures var r, h := Step(None, s, f), FormatOf(ParseHeader(f.header).header);
            && (r.error.None? <==> s.error.None? && Supported(f) && (s.format.None? || s.format.value == h))
            && (r.error.None? ==> r.format == Some(h))
  {
    hide ParseHeader;
  }

  /**
    Conservation: of a recording read in order, the frames that differ from the one before and
    the numbers missing make up the whole range from the first number to the last.
   */
  lemma {:induction false} NothingUnaccounted(frames: seq<Frame>)
    requires frames != [] && |StepsBack(frames)| == 0
    ensures Skipped(frames) + |frames| - |Repeats(frames)| == Number(frames[|frames| - 1]) - Number(frames[0]) + 1
    decreases |frames|
  {
    hide Number, Repeats, StepsBack;
    var n := |frames| - 1;
    if n > 0 {
      var init := frames[..n];
      assert init + [frames[n]] == frames;
      RepeatsNext(init, frames[n]);
      StepsBackNext(init, frames[n]);
      NothingUnaccounted(init);
    } else {
      OneRepeatsNothing(frames[0]);
      assert frames == [frames[0]];
    }
  }

  lemma OneRepeatsNothing(f: Frame)
    ensures |Repeats([f])| == 0
  {
    hide Number;
    assert Repeats([f]) == {};
  }

  // ------------------------------------------------------------------ recordings

  /** Frames of one format, numbered consecutively from id, none of them marked as any exception. */
  ghost predicate CleanRun(frames: seq<Frame>, bits: nat, threadId: nat, id: nat) {
    forall k :: 0 <= k < |frames| ==>
      && Formatted(frames[k].header, bits, threadId, HEADER_SIZE + |frames[k].payload|)
      && PacketId(frames[k].header) == id + k
      && Read(frames[k].header, Invalid) == 0 && Read(frames[k].header, Legacy) == 0
  }

  /** The state after n clean frames numbered up to id. */
  ghost predicate ReadSoFar(s: State, frames: seq<Frame>, bits: nat, threadId: nat, id: nat) {
    && s.error.None? && s.yielded == frames
    && s.stats == Stats(|frames|, |frames|, 0, 0, 0, 0, 0)
    && (frames == [] ==> s.format.None? && s.previous.None?)
    && (frames != [] ==> s.format == Some(Format(bits, true, threadId)) && s.previous == Some(id + |frames| - 1))
  }

  /** How the reader sees a clean frame. */
  lemma SeesClean(h: Header, bits: nat, threadId: nat, payloadBytes: nat)
    requires Formatted(h, bits, threadId, HEADER_SIZE + payloadBytes) && Read(h, Invalid) == 0 && Read(h, Legacy) == 0
    ensures var p := ParseHeader(h);
            && p.Parsed? && HeaderError(p.header).None? && !p.header.invalid
            && FormatOf(p.header) == Format(bits, true, threadId) && IdOf(p.header) == PacketId(h)
  {
    hide ParseHeader, Read, ReadMetadata;
    ReaderAgrees(h);
    MetadataFields(h, false);
  }

  lemma CleanStep(s: State, frames: seq<Frame>, f: Frame, bits: nat, threadId: nat, id: nat)
    requires ReadSoFar(s, frames, bits, threadId, id) && PacketId(f.header) == id + |frames|
    requires Formatted(f.header, bits, threadId, HEADER_SIZE + |f.payload|) && Read(f.header, Invalid) == 0
             && Read(f.header, Legacy) == 0
    ensures ReadSoFar(Step(None, s, f), frames + [f], bits, threadId, id)
  {
    hide ParseHeader, Read, PacketId, HeaderError, FormatOf, IdOf, Formatted;
    SeesClean(f.header, bits, threadId, |f.payload|);
  }

  lemma {:induction false} ReadsCleanRun(frames: seq<Frame>, bits: nat, threadId: nat, id: nat)
    requires CleanRun(frames, bits, threadId, id)
    ensures ReadSoFar(Scan(None, INITIAL, frames), frames, bits, threadId, id)
    decreases |frames|
  {
    hide Read, PacketId, Formatted, Step;
    if frames != [] {
      var n := |frames| - 1;
      var f := frames[n];
      ReadsCleanRun(frames[..n], bits, threadId, id);
      ScanAppend(None, INITIAL, frames[..n], [f]);
      assert frames == frames[..n] + [f];
      var s := Scan(None, INITIAL, frames[..n]);
      hide ReadSoFar;
      CleanStep(s, frames[..n], f, bits, threadId, id);
      assert Scan(None, s, [f]) == Scan(None, Step(None, s, f), []);
    }
  }

  /**
    A recording without exceptions is read back completely, with no frame missing; a frame
    that the receiver marked invalid stops the reader there, because it takes the mark for
    that of a legacy header.
   */
  lemma RecordingIsRead(clean: seq<Frame>, marked: Frame, after: seq<Frame>, bits: nat, threadId: nat, id: nat)
    requires CleanRun(clean, bits, threadId, id) && Read(marked.header, Invalid) == 1
    ensures ReadSoFar(Scan(None, INITIAL, clean), clean, bits, threadId, id)
    ensures var s := Scan(None, INITIAL, clean + [marked] + after);
            s.error == Some(LegacyHeader) && s.yielded == clean
  {
    hide ParseHeader, Read, PacketId, CleanRun;
    ReadsCleanRun(clean, bits, threadId, id);
    var s := Scan(None, INITIAL, clean);
    ReaderAgrees(marked.header);
    var s1 := Step(None, s, marked);
    assert s1.error == Some(LegacyHeader) && s1.yielded == clean;
    ScanAppend(None, INITIAL, clean, [marked] + after);
    assert clean + [marked] + after == clean + ([marked] + after);
    assert ([marked] + after)[0] == marked && ([marked] + after)[1..] == after;
    ScanStopped(None, s1, after);
  }

  /** Clean frames carry their own length. */
  lemma CleanIsMeasured(frames: seq<Frame>, bits: nat, threadId: nat, id: nat)
    requires CleanRun(frames, bits, threadId, id)
    ensures AllMeasured(frames)
  {
    hide ParseHeader, Read, PacketId;
    forall k | 0 <= k < |frames| ensures Measured(frames[k]) { ReaderAgrees(frames[k].header); }
  }
}
