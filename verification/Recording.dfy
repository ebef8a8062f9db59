/**
  The recording as a whole: what the frames of a batch, assembled from any stream of
  packets and written by the recorder, say to a reader.
 */
module Recording {
  import opened Units
  import opened Vdif
  import opened Quantize
  import opened Decode
  import opened BatchAssembly
  import opened BatchAcceptance
  import opened BatchCorrectness
  import opened BasebandFrames
  import FR = FrameReader
  import Recorder

  /** The payload is read as zero voltage throughout. */
  ghost predicate Silent(payload: seq<bv8>, bits: nat) {
    var d := DecodePayload(payload, bits);
    d.Samples? && |d.samples| == PAYLOAD_BYTES / 2 && forall m :: 0 <= m < |d.samples| ==> d.samples[m] == Sample(0, 0)
  }

  lemma FillIsSilent(bits: nat)
    requires bits in {8, 4, 2}
    ensures Silent(Requantized(ZeroVoltage(), bits), bits)
  {
    hide DecodePayload, Requantized, Expected;
    FillIsZeroVoltage(ZeroVoltage(), bits, Requantized(ZeroVoltage(), bits));
    DecodeOfWritten(ZeroVoltage(), bits, Requantized(ZeroVoltage(), bits));
  }

  /**
    Frame i of the j-th batch of a recording: its header carries the packet number that
    follows the frame before it; if that packet never arrived the header is marked invalid
    and the payload reads as zero voltage; otherwise the payload reads as the packet's
    samples.
   */
  ghost predicate FrameReads(a: seq<Packet<Header, Payload>>, id: nat, header: Header, written: seq<bv8>, bits: nat) {
    && PacketId(header) == id
    && (!Has(a, id) ==> Read(header, Invalid) == 1 && Silent(written, bits))
    && (forall k :: 0 <= k < |a| && a[k].id == id ==> |a[k].payload| == PAYLOAD_BYTES ==>
         ReadsBack(a[k].payload, bits, written))
  }

  lemma RecordedFrame(c: Config<Header, Payload>, bits: nat, threadId: nat,
                      raw: seq<RawPacket>, calMode: bool, packets: seq<Packet<Header, Payload>>, j: nat, i: nat)
    requires ConfigOk(c) && bits in {8, 4, 2} && packets == ParseAll(raw, calMode)
    requires c.baseband && c == VdifConfig(c.batchsize, c.poolSize, true, bits, threadId)
    requires Accepted(c.batchsize, packets) != []
    requires j < |ReceiveAll(c, packets).queue| && i < c.batchsize
    requires FrameId(Accepted(c.batchsize, packets)[0].id, c.batchsize, j, i) < IdLimit()
    ensures var batch, a := ReceiveAll(c, packets).queue[j], Accepted(c.batchsize, packets);
            && i < |batch.hdrs| && i < |batch.buffer|
            && FrameReads(a, FrameId(a[0].id, c.batchsize, j, i), batch.hdrs[i],
                          Requantized(batch.buffer[i], bits), bits)
  {
    hide *;
    ConfigSizes(c);
    FixedCadence(c, bits, threadId, raw, calMode, packets, j, i);
    var batch, a := ReceiveAll(c, packets).queue[j], Accepted(c.batchsize, packets);
    FrameReadsBack(a, FrameId(a[0].id, c.batchsize, j, i), batch, i, bits, threadId);
  }

  lemma FrameReadsBack(a: seq<Packet<Header, Payload>>, id: nat, batch: Batch<Header, Payload>, i: nat, bits: nat,
                       threadId: nat)
    requires bits in {8, 4, 2} && FrameIs(a, id, batch, i, bits, threadId)
    ensures i < |batch.hdrs| && i < |batch.buffer|
    ensures FrameReads(a, id, batch.hdrs[i], Requantized(batch.buffer[i], bits), bits)
  {
    hide Silent, Requantized, ReadsBack, PacketId, Read, ZeroVoltage, SameFlags, Formatted;
    FillIsSilent(bits);
    forall k | 0 <= k < |a| && a[k].id == id && |a[k].payload| == PAYLOAD_BYTES
      ensures ReadsBack(a[k].payload, bits, Requantized(batch.buffer[i], bits))
    {
      DecodeOfWritten(a[k].payload, bits, Requantized(a[k].payload, bits));
    }
  }

  // ------------------------------------------------------------------ reading the recording

  /** Headers and payloads as the reader takes them apart. */
  function FramesFrom(hdrs: seq<Header>, payloads: seq<Payload>, bits: nat): seq<FR.Frame>
    requires |hdrs| == |payloads|
  {
    seq(|hdrs|, i requires 0 <= i < |hdrs| => FR.Frame(hdrs[i], Recorder.PayloadAsWritten(payloads[i], bits)))
  }

  /** The frames written for a batch, and for several in turn. */
  function BatchFrames(batch: Batch<Header, Payload>, bits: nat): seq<FR.Frame>
    requires |batch.hdrs| == |batch.buffer|
  {
    FramesFrom(batch.hdrs, batch.buffer, bits)
  }

  function AllFrames(c: Config<Header, Payload>, queue: seq<Batch<Header, Payload>>, bits: nat): seq<FR.Frame>
    requires forall j :: 0 <= j < |queue| ==> Sized(c, queue[j])
  {
    if queue == [] then []
    else
      var last := queue[|queue| - 1];
      assert Sized(c, last);
      AllFrames(c, queue[..|queue| - 1], bits) + BatchFrames(last, bits)
  }

  /** What the recorder writes for a batch is its frames as the reader takes them apart. */
  lemma {:induction false} StreamIsFrames(hdrs: seq<Header>, payloads: seq<Payload>, bits: nat)
    requires |hdrs| == |payloads|
    ensures Recorder.FrameStream(hdrs, payloads, bits) == FR.Serialize(FramesFrom(hdrs, payloads, bits))
    decreases |hdrs|
  {
    hide Recorder.PayloadAsWritten;
    if hdrs != [] {
      var n := |hdrs| - 1;
      StreamIsFrames(hdrs[..n], payloads[..n], bits);
      var front := FramesFrom(hdrs[..n], payloads[..n], bits);
      var last := FR.Frame(hdrs[n], Recorder.PayloadAsWritten(payloads[n], bits));
      FR.SerializeAppend(front, [last]);
      assert FR.Serialize([last]) == last.header + last.payload + FR.Serialize([last][1..]);
      assert front + [last] == FramesFrom(hdrs, payloads, bits);
    }
  }

  /** No packet arrives with either flag of the first word set, and all carry a full payload. */
  ghost predicate Unflagged(a: seq<Packet<Header, Payload>>) {
    forall k :: 0 <= k < |a| ==>
      Read(a[k].header, Invalid) == 0 && Read(a[k].header, Legacy) == 0 && |a[k].payload| == PAYLOAD_BYTES
  }

  /** A frame that arrived is a clean one. */
  lemma PresentIsClean(a: seq<Packet<Header, Payload>>, id: nat, batch: Batch<Header, Payload>, i: nat, bits: nat,
                       threadId: nat)
    requires bits in {8, 4, 2} && FrameIs(a, id, batch, i, bits, threadId) && Unflagged(a) && Has(a, id)
    ensures i < |batch.hdrs| && i < |batch.buffer|
    ensures var h := batch.hdrs[i];
            && PacketId(h) == id && Read(h, Invalid) == 0 && Read(h, Legacy) == 0
            && Formatted(h, bits, threadId % 1024, HEADER_SIZE + |Recorder.PayloadAsWritten(batch.buffer[i], bits)|)
  {
    hide PacketId, Read, Formatted, Recorder.PayloadAsWritten, Requantized, ZeroVoltage;
    var k :| 0 <= k < |a| && a[k].id == id;
    Recorder.RequantizedLength(a[k].payload, bits);
  }

  /** Every frame of a recording, arrived or filled in, has the length its header gives. */
  lemma FrameIsMeasured(a: seq<Packet<Header, Payload>>, id: nat, batch: Batch<Header, Payload>, i: nat, bits: nat,
                        threadId: nat)
    requires bits in {8, 4, 2} && FrameIs(a, id, batch, i, bits, threadId)
    requires forall k :: 0 <= k < |a| ==> |a[k].payload| == PAYLOAD_BYTES
    ensures i < |batch.hdrs| && i < |batch.buffer| && |batch.buffer[i]| == PAYLOAD_BYTES
    ensures FR.Measured(FR.Frame(batch.hdrs[i], Recorder.PayloadAsWritten(batch.buffer[i], bits)))
  {
    hide PacketId, Read, ParseHeader, Recorder.PayloadAsWritten, Requantized, ZeroVoltage, SameFlags;
    FullZeroVoltage();
    Recorder.RequantizedLength(batch.buffer[i], bits);
    FR.ParseSucceeds(batch.hdrs[i]);
    ReaderAgrees(batch.hdrs[i]);
  }

  lemma FullZeroVoltage()
    ensures |ZeroVoltage()| == PAYLOAD_BYTES
  {
  }

  /** So every batch handed over can be recorded, and its file read on from frame to frame. */
  lemma BatchIsMeasured(c: Config<Header, Payload>, bits: nat, threadId: nat,
                        raw: seq<RawPacket>, calMode: bool, packets: seq<Packet<Header, Payload>>, j: nat)
    requires ConfigOk(c) && bits in {8, 4, 2} && packets == ParseAll(raw, calMode)
    requires c.baseband && c == VdifConfig(c.batchsize, c.poolSize, true, bits, threadId)
    requires Accepted(c.batchsize, packets) != []
    requires forall k :: 0 <= k < |Accepted(c.batchsize, packets)| ==>
               |Accepted(c.batchsize, packets)[k].payload| == PAYLOAD_BYTES
    requires j < |ReceiveAll(c, packets).queue|
    requires FrameId(Accepted(c.batchsize, packets)[0].id, c.batchsize, j, c.batchsize - 1) < IdLimit()
    ensures var batch := ReceiveAll(c, packets).queue[j];
            Recordable(batch, c.batchsize) && FR.AllMeasured(BatchFrames(batch, bits))
  {
    hide ReceiveAll, Accepted, VdifConfig, FrameIs, ParseAll, IdLimit, HandedOver, Recorder.PayloadAsWritten,
         FR.Measured;
    var batch, a := ReceiveAll(c, packets).queue[j], Accepted(c.batchsize, packets);
    QueueEntry(c, packets, j);
    forall i: nat | i < c.batchsize
      ensures |batch.buffer[i]| == PAYLOAD_BYTES
      ensures FR.Measured(FR.Frame(batch.hdrs[i], Recorder.PayloadAsWritten(batch.buffer[i], bits)))
    {
      FixedCadence(c, bits, threadId, raw, calMode, packets, j, i);
      FrameIsMeasured(a, FrameId(a[0].id, c.batchsize, j, i), batch, i, bits, threadId);
    }
  }

  /** A complete batch is a clean run. */
  lemma BatchIsClean(c: Config<Header, Payload>, bits: nat, threadId: nat,
                     raw: seq<RawPacket>, calMode: bool, packets: seq<Packet<Header, Payload>>, j: nat)
    requires ConfigOk(c) && bits in {8, 4, 2} && packets == ParseAll(raw, calMode)
    requires c.baseband && c == VdifConfig(c.batchsize, c.poolSize, true, bits, threadId)
    requires Accepted(c.batchsize, packets) != [] && Unflagged(Accepted(c.batchsize, packets))
    requires j < |ReceiveAll(c, packets).queue| && ReceiveAll(c, packets).queue[j].valid
    requires FrameId(Accepted(c.batchsize, packets)[0].id, c.batchsize, j, c.batchsize - 1) < IdLimit()
    ensures var batch := ReceiveAll(c, packets).queue[j];
            && |batch.hdrs| == |batch.buffer| == c.batchsize
            && FR.CleanRun(BatchFrames(batch, bits), bits, threadId % 1024,
               FrameId(Accepted(c.batchsize, packets)[0].id, c.batchsize, j, 0))
  {
    hide ReceiveAll, Accepted, VdifConfig, FrameIs, PacketId, Read, Formatted, Unflagged, ParseAll, IdLimit,
         HandedOver, Has, Recorder.PayloadAsWritten;
    var batch, a := ReceiveAll(c, packets).queue[j], Accepted(c.batchsize, packets);
    QueueEntry(c, packets, j);
    forall i: nat | i < c.batchsize
      ensures var h := batch.hdrs[i];
              && PacketId(h) == FrameId(a[0].id, c.batchsize, j, 0) + i && Read(h, Invalid) == 0 && Read(h, Legacy) == 0
              && Formatted(h, bits, threadId % 1024, HEADER_SIZE + |Recorder.PayloadAsWritten(batch.buffer[i], bits)|)
    {
      FixedCadence(c, bits, threadId, raw, calMode, packets, j, i);
      ValidHasAll(c, a, j, batch, i);
      PresentIsClean(a, FrameId(a[0].id, c.batchsize, j, i), batch, i, bits, threadId);
    }
  }

  lemma ValidHasAll(c: Config<Header, Payload>, a: seq<Packet<Header, Payload>>, j: nat, batch: Batch<Header, Payload>,
                    i: nat)
    requires a != [] && c.batchsize >= 1 && a[0].id == Start(c, a[0].id / c.batchsize)
    requires HandedOver(c, a, a[0].id / c.batchsize + j, batch) && batch.valid && i < c.batchsize
    ensures Has(a, FrameId(a[0].id, c.batchsize, j, i))
  {
    hide Has, CountIn, Stamped, HoldsAll, Padded, FrameId, Start;
    StartPlus(c, a[0].id, a[0].id / c.batchsize, j, i);
  }

  lemma CleanAppend(fs: seq<FR.Frame>, gs: seq<FR.Frame>, bits: nat, threadId: nat, id: nat)
    requires FR.CleanRun(fs, bits, threadId, id) && FR.CleanRun(gs, bits, threadId, id + |fs|)
    ensures FR.CleanRun(fs + gs, bits, threadId, id)
  {
    hide PacketId, Read, Formatted;
  }

  /**
    The batches of a recording that are complete, from the first one on, are read back frame
    for frame, consecutively numbered, with nothing missing.
   */
  lemma {:induction false} CompleteRecordingIsClean(c: Config<Header, Payload>, bits: nat, threadId: nat,
                                                    raw: seq<RawPacket>, calMode: bool,
                                                    packets: seq<Packet<Header, Payload>>, n: nat)
    requires ConfigOk(c) && bits in {8, 4, 2} && packets == ParseAll(raw, calMode)
    requires c.baseband && c == VdifConfig(c.batchsize, c.poolSize, true, bits, threadId)
    requires Accepted(c.batchsize, packets) != [] && Unflagged(Accepted(c.batchsize, packets))
    requires n <= |ReceiveAll(c, packets).queue|
    requires forall j :: 0 <= j < n ==>
              ReceiveAll(c, packets).queue[j].valid && Sized(c, ReceiveAll(c, packets).queue[j])
    requires FrameId(Accepted(c.batchsize, packets)[0].id, c.batchsize, n, 0) <= IdLimit()
    ensures var queue, id := ReceiveAll(c, packets).queue[..n], Accepted(c.batchsize, packets)[0].id;
            var frames := AllFrames(c, queue, bits);
            && |frames| == n * c.batchsize
            && FR.CleanRun(frames, bits, threadId % 1024, id)
            && FR.ReadSoFar(FR.Scan(FR.None, FR.INITIAL, frames), frames, bits, threadId % 1024, id)
    decreases n
  {
    hide ReceiveAll, Accepted, VdifConfig, BatchFrames, FR.CleanRun, FR.ReadSoFar, Unflagged, ParseAll, IdLimit,
         FR.Scan;
    var queue, id := ReceiveAll(c, packets).queue, Accepted(c.batchsize, packets)[0].id;
    if n == 0 {
      NothingIsClean(bits, threadId % 1024, id);
    } else {
      FrameIdStep(id, c.batchsize, n - 1);
      CompleteRecordingIsClean(c, bits, threadId, raw, calMode, packets, n - 1);
      BatchIsClean(c, bits, threadId, raw, calMode, packets, n - 1);
      BatchFramesLength(queue[n - 1], bits);
      assert queue[..n][..n - 1] == queue[..n - 1];
      CleanAppend(AllFrames(c, queue[..n - 1], bits), BatchFrames(queue[n - 1], bits), bits, threadId % 1024, id);
    }
    FR.ReadsCleanRun(AllFrames(c, queue[..n], bits), bits, threadId % 1024, id);
  }

  lemma NothingIsClean(bits: nat, threadId: nat, id: nat)
    ensures FR.CleanRun([], bits, threadId, id)
  {
  }

  lemma BatchFramesLength(batch: Batch<Header, Payload>, bits: nat)
    requires |batch.hdrs| == |batch.buffer|
    ensures |BatchFrames(batch, bits)| == |batch.hdrs|
  {
  }

  lemma FrameIdStep(id: nat, size: nat, n: nat)
    requires size >= 1
    ensures FrameId(id, size, n + 1, 0) == FrameId(id, size, n, 0) + size == FrameId(id, size, n, size - 1) + 1
    ensures FrameId(id, size, n, 0) == id + n * size && (n + 1) * size == n * size + size
  {
  }

  // ------------------------------------------------------------------ files

  /** The frames in each closed file, and in the current one. */
  datatype Allotted = Allotted(closed: seq<seq<FR.Frame>>, current: seq<FR.Frame>)

  /** Where whole batches go, when each is written completely. */
  function Allot(batches: seq<seq<FR.Frame>>, limit: nat, canCreate: seq<bool>): Allotted
    requires |canCreate| == |batches|
  {
    if batches == [] then Allotted([], [])
    else
      var n := |batches| - 1;
      var p := Allot(batches[..n], limit, canCreate[..n]);
      if p.current != [] && |FR.Serialize(p.current)| + |FR.Serialize(batches[n])| > limit && canCreate[n]
      then Allotted(p.closed + [p.current], batches[n])
      else Allotted(p.closed, p.current + batches[n])
  }

  /** What the recorder makes of the same batches, by its own rule of rotation. */
  function Written(batches: seq<seq<FR.Frame>>, limit: nat, canCreate: seq<bool>): Recorder.Files
    requires |canCreate| == |batches|
  {
    if batches == [] then Recorder.Files([], [])
    else
      var n := |batches| - 1;
      var bytes := FR.Serialize(batches[n]);
      var turned := Recorder.Turned(Written(batches[..n], limit, canCreate[..n]), |bytes|, limit, canCreate[n]);
      turned.(current := turned.current + bytes)
  }

  function SerializeAll(files: seq<seq<FR.Frame>>): seq<seq<Byte>> {
    seq(|files|, k requires 0 <= k < |files| => FR.Serialize(files[k]))
  }

  lemma NoFramesNoBytes(frames: seq<FR.Frame>)
    ensures FR.Serialize(frames) == [] <==> frames == []
  {
  }

  /** Each file is the bytes of its frames, and together they are the frames of the batches. */
  ghost predicate FilesAre(p: Allotted, w: Recorder.Files, batches: seq<seq<FR.Frame>>) {
    && w.closed == SerializeAll(p.closed) && w.current == FR.Serialize(p.current)
    && FR.Flatten(p.closed + [p.current]) == FR.Flatten(batches)
  }

  lemma NewFile(p: Allotted, w: Recorder.Files, batches: seq<seq<FR.Frame>>, batch: seq<FR.Frame>)
    requires FilesAre(p, w, batches)
    ensures FilesAre(Allotted(p.closed + [p.current], batch),
            Recorder.Files(w.closed + [w.current], FR.Serialize(batch)), batches + [batch])
  {
    hide FR.Serialize, FR.Flatten;
    FlattenLast(p.closed + [p.current], batch);
    FlattenLast(batches, batch);
  }

  lemma SameFile(p: Allotted, w: Recorder.Files, batches: seq<seq<FR.Frame>>, batch: seq<FR.Frame>)
    requires FilesAre(p, w, batches)
    ensures FilesAre(Allotted(p.closed, p.current + batch), Recorder.Files(w.closed, w.current + FR.Serialize(batch)),
            batches + [batch])
  {
    hide FR.Serialize, FR.Flatten;
    FR.SerializeAppend(p.current, batch);
    FlattenLast(p.closed, p.current);
    FlattenLast(p.closed, p.current + batch);
    FlattenLast(batches, batch);
  }

  /**
    Every file of a recording, closed or current, is a sequence of whole frames, and in turn
    they hold exactly the batches recorded.
   */
  lemma {:induction false} FilesHoldWholeFrames(batches: seq<seq<FR.Frame>>, limit: nat, canCreate: seq<bool>)
    requires |canCreate| == |batches|
    ensures FilesAre(Allot(batches, limit, canCreate), Written(batches, limit, canCreate), batches)
    decreases |batches|
  {
    if batches == [] {
      NothingAllotted(limit);
    } else {
      var n := |batches| - 1;
      FilesHoldWholeFrames(batches[..n], limit, canCreate[..n]);
      var p, w := Allot(batches[..n], limit, canCreate[..n]), Written(batches[..n], limit, canCreate[..n]);
      NoFramesNoBytes(p.current);
      assert w.current == FR.Serialize(p.current);
      NewFile(p, w, batches[..n], batches[n]);
      SameFile(p, w, batches[..n], batches[n]);
      hide FR.Serialize, FR.Flatten, FilesAre;
      assert batches[..n] + [batches[n]] == batches;
      assert [] + FR.Serialize(batches[n]) == FR.Serialize(batches[n]);
    }
  }

  lemma NothingAllotted(limit: nat)
    ensures FilesAre(Allot([], limit, []), Written([], limit, []), [])
  {
    FlattenLast([], []);
  }

  lemma FlattenLast(files: seq<seq<FR.Frame>>, last: seq<FR.Frame>)
    ensures FR.Flatten(files + [last]) == FR.Flatten(files) + last
  {
    assert (files + [last])[..|files|] == files;
  }

  lemma {:induction false} AllottedMeasured(batches: seq<seq<FR.Frame>>, limit: nat, canCreate: seq<bool>)
    requires |canCreate| == |batches| && forall b :: 0 <= b < |batches| ==> FR.AllMeasured(batches[b])
    ensures var p := Allot(batches, limit, canCreate);
            FR.AllMeasured(p.current) && forall k :: 0 <= k < |p.closed| ==> FR.AllMeasured(p.closed[k])
    decreases |batches|
  {
    hide FR.Serialize, FR.Measured;
    if batches != [] {
      var n := |batches| - 1;
      assert FR.AllMeasured(batches[n]);
      AllottedMeasured(batches[..n], limit, canCreate[..n]);
    }
  }

  // ------------------------------------------------------------------ the recorder's loop

  /** The frames of each batch. */
  function FramesOf(queue: seq<Batch<Header, Payload>>, size: nat, bits: nat): (batches: seq<seq<FR.Frame>>)
    requires forall j :: 0 <= j < |queue| ==> Recordable(queue[j], size)
    ensures |batches| == |queue|
  {
    seq(|queue|, j requires 0 <= j < |queue| =>
      assert Recordable(queue[j], size); BatchFrames(queue[j], bits))
  }

  /** A batch of so many headers and full payloads. */
  predicate Recordable(batch: Batch<Header, Payload>, size: nat) {
    && |batch.hdrs| == |batch.buffer| == size
    && forall i :: 0 <= i < size ==> |batch.buffer[i]| == PAYLOAD_BYTES
  }

  /** The files when of batch j only the first ns[j] bytes are written. */
  function WrittenParts(batches: seq<seq<FR.Frame>>, ns: seq<nat>, limit: nat, canCreate: seq<bool>): Recorder.Files
    requires |canCreate| == |ns| == |batches|
  {
    if batches == [] then Recorder.Files([], [])
    else
      var n := |batches| - 1;
      var before := WrittenParts(batches[..n], ns[..n], limit, canCreate[..n]);
      AfterBatch(before, FR.Serialize(batches[n]), ns[n], limit, canCreate[n])
  }

  function AfterBatch(files: Recorder.Files, bytes: seq<Byte>, n: nat, limit: nat, canCreate: bool): Recorder.Files {
    var turned := Recorder.Turned(files, |bytes|, limit, canCreate);
    turned.(current := turned.current + bytes[..if n <= |bytes| then n else |bytes|])
  }

  /** What the status of a batch says of the bytes written. */
  ghost predicate Reports(status: Recorder.Status, n: nat, bytes: seq<Byte>, outcomes: seq<Recorder.Outcome>) {
    n <= |bytes| && (status.Done? ==> n == |bytes|) && (Recorder.Progress(outcomes) ==> !status.Error?)
  }

  lemma {:induction false} CompleteWrites(batches: seq<seq<FR.Frame>>, ns: seq<nat>, limit: nat, canCreate: seq<bool>)
    requires |canCreate| == |ns| == |batches| && forall j :: 0 <= j < |ns| ==> ns[j] == |FR.Serialize(batches[j])|
    ensures WrittenParts(batches, ns, limit, canCreate) == Written(batches, limit, canCreate)
    decreases |batches|
  {
    if batches != [] {
      var n := |batches| - 1;
      CompleteWrites(batches[..n], ns[..n], limit, canCreate[..n]);
      assert FR.Serialize(batches[n])[..ns[n]] == FR.Serialize(batches[n]);
    }
  }

  /** The payloads of a batch as they lie in its slot of the pool. */
  method Deliver(payloads: seq<Payload>, slot: seq<array<bv8>>)
    requires |payloads| == |slot|
    requires forall k :: 0 <= k < |slot| ==> slot[k].Length == |payloads[k]|
    requires forall j, k :: 0 <= j < k < |slot| ==> slot[j] != slot[k]
    modifies set k | 0 <= k < |slot| :: slot[k]
    ensures Recorder.Values(slot, |slot|) == payloads
  {
    for i := 0 to |slot|
      invariant forall k :: 0 <= k < i ==> slot[k][..] == payloads[k]
    {
      forall m | 0 <= m < slot[i].Length { slot[i][m] := payloads[i][m]; }
    }
  }

  /** One batch through its slot, added to the files. */
  method RecordBatch(r: Recorder.Baseband, batch: Batch<Header, Payload>, slot: seq<array<bv8>>,
                     bits: nat, avx512: bool, canCreate: bool, outcomes: seq<Recorder.Outcome>)
    returns (status: Recorder.Status, ghost n: nat)
    requires r.Valid() && bits in {8, 4, 2} && Recordable(batch, |slot|)
    requires forall k :: 0 <= k < |slot| ==> slot[k].Length == PAYLOAD_BYTES
    requires forall j, k :: 0 <= j < k < |slot| ==> slot[j] != slot[k]
    modifies r, set k | 0 <= k < |slot| :: slot[k]
    ensures r.Valid()
    ensures var bytes := FR.Serialize(BatchFrames(batch, bits));
            && Reports(status, n, bytes, outcomes)
            && Recorder.Files(r.closed, r.contents)
               == AfterBatch(old(Recorder.Files(r.closed, r.contents)), bytes, n, r.maxFileSize, canCreate)
  {
    hide FR.Serialize, FramesFrom, Recorder.FrameStream, Recorder.PayloadAsWritten, Recorder.Progress, Recorder.Concat;
    Deliver(batch.buffer, slot);
    assert batch.hdrs[..|slot|] == batch.hdrs;
    StreamIsFrames(batch.hdrs, batch.buffer, bits);
    status, n := r.Recode(|slot|, batch.hdrs, slot, bits, avx512, canCreate, outcomes);
  }

  /**
    The recorder's loop over any batches, with whatever the file system does: the files are
    the batches' frames in turn, each batch up to what was written of it, under the rule of
    rotation; with complete writes they are all of it.
   */
  method RecordAll(r: Recorder.Baseband, queue: seq<Batch<Header, Payload>>, slot: seq<array<bv8>>,
                   bits: nat, avx512: bool, canCreate: seq<bool>, outcomes: seq<seq<Recorder.Outcome>>)
    returns (statuses: seq<Recorder.Status>, ghost ns: seq<nat>)
    requires r.Valid() && r.closed == [] && r.contents == [] && bits in {8, 4, 2}
    requires |canCreate| == |outcomes| == |queue| && forall j :: 0 <= j < |queue| ==> Recordable(queue[j], |slot|)
    requires forall k :: 0 <= k < |slot| ==> slot[k].Length == PAYLOAD_BYTES
    requires forall j, k :: 0 <= j < k < |slot| ==> slot[j] != slot[k]
    modifies r, set k | 0 <= k < |slot| :: slot[k]
    ensures r.Valid() && |statuses| == |ns| == |queue|
    ensures var batches := FramesOf(queue, |slot|, bits);
            && AllReported(batches, statuses, ns, outcomes)
            && Recorder.Files(r.closed, r.contents) == WrittenParts(batches, ns, r.maxFileSize, canCreate)
            && ((forall j :: 0 <= j < |ns| ==> statuses[j].Done?) ==>
                  Recorder.Files(r.closed, r.contents) == Written(batches, r.maxFileSize, canCreate))
  {
    hide FR.Serialize, BatchFrames, AfterBatch, Recordable, AllReported, Written, WrittenParts;
    statuses, ns := [], [];
    ghost var batches := FramesOf(queue, |slot|, bits);
    NothingReported(batches, outcomes, r.maxFileSize, canCreate);
    for j := 0 to |queue|
      invariant r.Valid() && |statuses| == |ns| == j
      invariant AllReported(batches, statuses, ns, outcomes)
      invariant Recorder.Files(r.closed, r.contents) == WrittenParts(batches[..j], ns, r.maxFileSize, canCreate[..j])
    {
      var status, n := RecordBatch(r, queue[j], slot, bits, avx512, canCreate[j], outcomes[j]);
      PartsNext(batches, ns, n, r.maxFileSize, canCreate, j);
      ReportedNext(batches, statuses, ns, outcomes, status, n);
      statuses, ns := statuses + [status], ns + [n];
    }
    assert batches[..|queue|] == batches && canCreate[..|queue|] == canCreate;
    if forall j :: 0 <= j < |ns| ==> statuses[j].Done? {
      DoneIsComplete(batches, statuses, ns, outcomes);
      CompleteWrites(batches, ns, r.maxFileSize, canCreate);
    }
  }

  /** What the statuses of the batches so far say of the bytes written. */
  ghost predicate AllReported(batches: seq<seq<FR.Frame>>, statuses: seq<Recorder.Status>, ns: seq<nat>,
                              outcomes: seq<seq<Recorder.Outcome>>) {
    && |statuses| == |ns| <= |outcomes| == |batches|
    && forall j :: 0 <= j < |ns| ==> Reports(statuses[j], ns[j], FR.Serialize(batches[j]), outcomes[j])
  }

  lemma NothingReported(batches: seq<seq<FR.Frame>>, outcomes: seq<seq<Recorder.Outcome>>, limit: nat,
                        canCreate: seq<bool>)
    requires |outcomes| == |batches|
    ensures AllReported(batches, [], [], outcomes) && WrittenParts([], [], limit, []) == Recorder.Files([], [])
  {
  }

  lemma ReportedNext(batches: seq<seq<FR.Frame>>, statuses: seq<Recorder.Status>, ns: seq<nat>,
                     outcomes: seq<seq<Recorder.Outcome>>, status: Recorder.Status, n: nat)
    requires AllReported(batches, statuses, ns, outcomes) && |ns| < |batches|
    requires Reports(status, n, FR.Serialize(batches[|ns|]), outcomes[|ns|])
    ensures AllReported(batches, statuses + [status], ns + [n], outcomes)
  {
    hide FR.Serialize, Reports;
  }

  lemma PartsNext(batches: seq<seq<FR.Frame>>, ns: seq<nat>, n: nat, limit: nat, canCreate: seq<bool>, j: nat)
    requires |canCreate| == |batches| && j == |ns| < |batches|
    ensures WrittenParts(batches[..j + 1], ns + [n], limit, canCreate[..j + 1])
         == AfterBatch(WrittenParts(batches[..j], ns, limit, canCreate[..j]), FR.Serialize(batches[j]), n, limit,
           canCreate[j])
  {
    hide FR.Serialize, AfterBatch;
    assert batches[..j + 1][..j] == batches[..j] && canCreate[..j + 1][..j] == canCreate[..j] && (ns + [n])[..j] == ns;
  }

  lemma DoneIsComplete(batches: seq<seq<FR.Frame>>, statuses: seq<Recorder.Status>, ns: seq<nat>,
                       outcomes: seq<seq<Recorder.Outcome>>)
    requires |ns| == |batches| && AllReported(batches, statuses, ns, outcomes)
    requires forall j :: 0 <= j < |ns| ==> statuses[j].Done?
    ensures forall j :: 0 <= j < |ns| ==> ns[j] == |FR.Serialize(batches[j])|
  {
    hide FR.Serialize;
  }

  // ------------------------------------------------------------------ reading it back

  /** The batches the loop records, one after the other, are the frames of the recording. */
  lemma {:induction false} BatchesAreAllFrames(c: Config<Header, Payload>, queue: seq<Batch<Header, Payload>>,
                                               bits: nat)
    requires forall j :: 0 <= j < |queue| ==> Sized(c, queue[j]) && Recordable(queue[j], c.batchsize)
    ensures FR.Flatten(FramesOf(queue, c.batchsize, bits)) == AllFrames(c, queue, bits)
    decreases |queue|
  {
    hide BatchFrames;
    if queue != [] {
      var n := |queue| - 1;
      BatchesAreAllFrames(c, queue[..n], bits);
      assert FramesOf(queue, c.batchsize, bits)[..n] == FramesOf(queue[..n], c.batchsize, bits);
    }
  }

  /** The files of a recording of measured frames, read in turn from the start, give all its frames. */
  method ReadRecording(batches: seq<seq<FR.Frame>>, limit: nat, canCreate: seq<bool>) returns (r: FR.Reader)
    requires |canCreate| == |batches| && forall b :: 0 <= b < |batches| ==> FR.AllMeasured(batches[b])
    ensures fresh(r) && r.state == FR.Scan(FR.None, FR.INITIAL, FR.Flatten(batches))
  {
    hide FR.Serialize, FR.AllMeasured, FR.Scan, FR.Flatten;
    var files := Written(batches, limit, canCreate);
    ghost var p := Allot(batches, limit, canCreate);
    FilesHoldWholeFrames(batches, limit, canCreate);
    AllottedMeasured(batches, limit, canCreate);
    r := new FR.Reader(FR.None);
    r.ReadFiles(files.closed + [files.current], p.closed + [p.current]);
  }
}
