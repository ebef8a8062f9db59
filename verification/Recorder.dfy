/**
  The baseband recorder: batches are requantized in place and written as VDIF frames
  through `writev`, which may write any part of what it is given, to files of bounded
  size.
 */
module Recorder {
  import opened Quantize
  import opened Units
  import opened Vdif

  /** What one writev call does: bytes written, EINTR, or another error. */
  datatype Outcome = Wrote(n: nat) | Interrupted | Failed

  /** Finished; an error or no progress; or the given calls were not enough. */
  datatype Status = Done | Error | Unfinished

  function Concat(parts: seq<seq<Byte>>): seq<Byte> {
    if parts == [] then [] else parts[0] + Concat(parts[1..])
  }

  lemma {:induction false} ConcatSplit(parts: seq<seq<Byte>>, k: nat)
    requires k <= |parts|
    ensures Concat(parts) == Concat(parts[..k]) + Concat(parts[k..])
    decreases k
  {
    if k == 0 {
      assert parts[..0] == [] && parts[0..] == parts;
    } else {
      ConcatSplit(parts[1..], k - 1);
      assert parts[1..][..k - 1] == parts[..k][1..] && parts[1..][k - 1..] == parts[k..];
    }
  }

  /** No empty buffers are passed. */
  ghost predicate NoEmpty(parts: seq<seq<Byte>>) {
    forall k :: 0 <= k < |parts| ==> parts[k] != []
  }

  /** No call fails or makes no progress. */
  ghost predicate Progress(outcomes: seq<Outcome>) {
    forall k :: 0 <= k < |outcomes| ==> outcomes[k].Interrupted? || (outcomes[k].Wrote? && outcomes[k].n > 0)
  }

  lemma NonEmptyConcat(parts: seq<seq<Byte>>)
    requires parts != [] && parts[0] != []
    ensures Concat(parts) != []
  {
  }

  /** The values of a batch's payload buffers. */
  ghost function Values(payloads: seq<array<bv8>>, n: nat): (v: seq<seq<bv8>>)
    requires n <= |payloads|
    reads set k | 0 <= k < n :: payloads[k]
    ensures |v| == n && forall k :: 0 <= k < n ==> v[k] == payloads[k][..]
  {
    if n == 0 then [] else Values(payloads, n - 1) + [payloads[n - 1][..]]
  }

  /** Bytes of one frame's payload at the given width. */
  function PayloadBytes(bits: nat): nat { PAYLOAD_BYTES * bits / 8 }

  /** The files of a recording: those closed, and the one being written. */
  datatype Files = Files(closed: seq<seq<Byte>>, current: seq<Byte>)

  /** A new file is due when the current one holds something and the batch would pass the limit. */
  function Turned(files: Files, batchBytes: nat, limit: nat, canCreate: bool): Files {
    if files.current != [] && |files.current| + batchBytes > limit && canCreate
    then Files(files.closed + [files.current], []) else files
  }

  class Baseband {
    const iovMax: nat
    const maxFileSize: nat
    var iov: seq<seq<Byte>>          // each entry: the bytes from iov_base, iov_len of them
    var contents: seq<Byte>          // of the current file
    var currentSize: nat
    var fileIndex: nat
    ghost var closed: seq<seq<Byte>> // the files before it

    ghost predicate Valid()
      reads this
    {
      iovMax >= 1 && currentSize == |contents|
    }

    /** Everything recorded, across files. */
    ghost function Recorded(): seq<Byte>
      reads this
    {
      Concat(closed) + contents
    }

    constructor (iovMax: nat, maxFileSize: nat)
      requires iovMax >= 1
      ensures Valid() && this.iovMax == iovMax && this.maxFileSize == maxFileSize
      ensures closed == [] && contents == [] && Recorded() == [] && fileIndex == 1
    {
      this.iovMax, this.maxFileSize := iovMax, maxFileSize;
      iov, contents, currentSize, fileIndex, closed := [], [], 0, 1, [];
    }

    /** create_file, which succeeds or not as the file system decides. */
    method CreateFile(succeeds: bool) returns (ok: bool)
      requires Valid()
      modifies this
      ensures Valid() && ok == succeeds && Recorded() == old(Recorded())
      ensures ok ==>
                && contents == [] && currentSize == 0 && fileIndex == old(fileIndex) + 1
                && closed == old(closed) + [old(contents)]
      ensures !ok ==>
                && contents == old(contents) && currentSize == old(currentSize)
                && fileIndex == old(fileIndex) && closed == old(closed)
    {
      ok := succeeds;
      if !ok { return; }
      ConcatSplit(closed + [contents], |closed|);
      assert (closed + [contents])[..|closed|] == closed && (closed + [contents])[|closed|..] == [contents];
      assert Concat([contents]) == contents + Concat([contents][1..]) == contents;
      closed := closed + [contents];
      contents, currentSize, fileIndex := [], 0, fileIndex + 1;
    }

    /** Skip what was written: whole entries first, then part of one. */
    method Consume(first: nat, written: nat) returns (next: nat)
      requires first <= |iov| && written <= |Concat(iov[first..])|
      modifies this`iov
      ensures first <= next <= |iov| == |old(iov)|
      ensures Concat(iov[next..]) == old(Concat(iov[first..]))[written..]
      ensures old(NoEmpty(iov[first..])) ==> NoEmpty(iov[next..])
    {
      next := first;
      ghost var rest := Concat(iov[first..])[written..];
      ghost var noEmpty := NoEmpty(iov[first..]);
      var remaining: nat := written;
      while remaining != 0 && next < |iov|
        invariant first <= next <= |iov| == |old(iov)|
        invariant remaining <= |Concat(iov[next..])| && Concat(iov[next..])[remaining..] == rest
        invariant noEmpty ==> NoEmpty(iov[next..])
        decreases remaining, |iov| - next
      {
        assert iov[next..][0] == iov[next] && iov[next..][1..] == iov[next + 1..];
        assert Concat(iov[next..]) == iov[next] + Concat(iov[next + 1..]);
        if remaining >= |iov[next]| {
          remaining := remaining - |iov[next]|;
          next := next + 1;
        } else {
          ghost var tail := iov[next + 1..];
          iov := iov[next := iov[next][remaining..]];
          assert iov[next..][1..] == tail;
          remaining := 0;
        }
      }
      assert Concat(iov[next..])[0..] == Concat(iov[next..]);
    }

    /**
      Write every entry, whatever parts the calls accept: the bytes written are a prefix of
      the entries' concatenation, and all of it when the calls do.
     */
    method WriteAllIov(outcomes: seq<Outcome>) returns (status: Status, ghost n: nat)
      requires iovMax >= 1
      modifies this`iov, this`contents, this`currentSize
      ensures n <= |old(Concat(iov))|
      ensures contents == old(contents) + old(Concat(iov))[..n] && currentSize == old(currentSize) + n
      ensures status.Done? ==> n == |old(Concat(iov))|
      ensures Progress(outcomes) && old(NoEmpty(iov)) ==> !status.Error?
    {
      hide Concat;
      ghost var all := Concat(iov);
      n := 0;
      var first, call := 0, 0;
      assert iov[0..] == iov;
      while first < |iov|
        invariant first <= |iov| && call <= |outcomes| && n <= |all|
        invariant Concat(iov[first..]) == all[n..]
        invariant contents == old(contents) + all[..n] && currentSize == old(currentSize) + n
        invariant old(NoEmpty(iov)) ==> NoEmpty(iov[first..])
        decreases |outcomes| - call
      {
        if call >= |outcomes| { return Unfinished, n; }
        var outcome := outcomes[call];
        call := call + 1;
        if outcome.Interrupted? { continue; }
        if outcome.Failed? { return Error, n; }
        var count := if iovMax < |iov| - first then iovMax else |iov| - first;
        var given := Concat(iov[first..first + count]);
        GivenIsPrefix(iov, first, count);
        var written := if outcome.n <= |given| then outcome.n else |given|;
        if written == 0 {
          if old(NoEmpty(iov)) { FirstNotEmpty(iov, first, count); }
          return Error, n;
        }
        contents := contents + given[..written];
        currentSize := currentSize + written;
        assert given[..written] == all[n..n + written];
        assert all[..n + written] == all[..n] + all[n..n + written];
        assert all[n..][written..] == all[n + written..];
        first := Consume(first, written);
        n := n + written;
      }
      assert iov[first..] == [];
      NothingLeft();
      return Done, n;
    }

    /** Requantize the frames in place and describe them to writev. */
    method PrepareFrames(hdrs: seq<Header>, payloads: seq<array<bv8>>, count: nat, bits: nat, avx512: bool)
      requires bits in {8, 4, 2} && count <= |hdrs| && count <= |payloads|
      requires forall k :: 0 <= k < |payloads| ==> payloads[k].Length == PAYLOAD_BYTES
      requires forall j, k :: 0 <= j < k < |payloads| ==> payloads[j] != payloads[k]
      modifies this`iov, set k | 0 <= k < |payloads| :: payloads[k]
      ensures iov == Buffers(hdrs[..count], old(Values(payloads, count)), bits)
    {
      hide Requantized, AsBytes;
      ghost var vals := Values(payloads, count);
      iov := [];
      for i := 0 to count
        invariant iov == Buffers(hdrs[..i], vals[..i], bits)
        invariant forall k :: i <= k < count ==> payloads[k][..] == vals[k]
      {
        QuantizePayload(payloads[i], bits, avx512);
        RequantizedLength(vals[i], bits);
        iov := iov + [hdrs[i], AsBytes(payloads[i][..PayloadBytes(bits)])];
        assert hdrs[..i + 1][..i] == hdrs[..i] && vals[..i + 1][..i] == vals[..i];
      }
      assert vals[..count] == vals;
    }

    /** Start a new file exactly if this batch would take the current one past its limit. */
    method Rotate(batchBytes: nat, canCreate: bool)
      requires Valid()
      modifies this
      ensures Valid() && Recorded() == old(Recorded())
      ensures var files := Turned(Files(old(closed), old(contents)), batchBytes, maxFileSize, canCreate);
              closed == files.closed && contents == files.current
      ensures fileIndex - |closed| == old(fileIndex) - |old(closed)|
    {
      if currentSize != 0 && currentSize + batchBytes > maxFileSize {
        var _ := CreateFile(canCreate);
      }
    }

    /** Write the prepared frames behind the current file. */
    method WriteFrames(outcomes: seq<Outcome>, ghost frames: seq<Byte>) returns (status: Status, ghost n: nat)
      requires Valid() && Concat(iov) == frames && NoEmpty(iov)
      modifies this`iov, this`contents, this`currentSize
      ensures Valid() && n <= |frames| && contents == old(contents) + frames[..n]
      ensures Recorded() == old(Recorded()) + frames[..n]
      ensures status.Done? ==> n == |frames|
      ensures Progress(outcomes) ==> !status.Error?
    {
      hide Concat, Progress, NoEmpty;
      status, n := WriteAllIov(outcomes);
      assert Concat(closed) + (old(contents) + frames[..n]) == Concat(closed) + old(contents) + frames[..n];
    }

    /**
      One batch: refused and untouched, or written behind what is already recorded, all of it
      when the calls write all. A file grows past its limit only by a batch too long for any.
     */
    method Recode(count: int, hdrs: seq<Header>, payloads: seq<array<bv8>>, bits: nat, avx512: bool,
                  canCreate: bool, outcomes: seq<Outcome>) returns (status: Status, ghost n: nat)
      requires Valid()
      requires forall k :: 0 <= k < |payloads| ==> payloads[k].Length == PAYLOAD_BYTES
      requires forall j, k :: 0 <= j < k < |payloads| ==> payloads[j] != payloads[k]
      modifies this, set k | 0 <= k < |payloads| :: payloads[k]
      ensures Valid()
      ensures !Acceptable(count, |hdrs|, |payloads|, bits) ==>
                status.Error? && n == 0 && Recorded() == old(Recorded()) && contents == old(contents)
      ensures Acceptable(count, |hdrs|, |payloads|, bits) ==>
                var frames := FrameStream(hdrs[..count], old(Values(payloads, count)), bits);
                && n <= |frames| && Recorded() == old(Recorded()) + frames[..n]
                && (status.Done? ==> n == |frames|)
                && (Progress(outcomes) ==> !status.Error?)
                && (canCreate ==> |contents| <= maxFileSize || contents == frames[..n])
                && var files := Turned(Files(old(closed), old(contents)), |frames|, maxFileSize, canCreate);
                   closed == files.closed && contents == files.current + frames[..n]
    {
      hide Concat, FrameStream, Buffers, PayloadAsWritten, Progress, NoEmpty, PayloadBytes;
      n := 0;
      if !Acceptable(count, |hdrs|, |payloads|, bits) { return Error, 0; }
      ghost var vals := Values(payloads, count);
      ghost var frames := FrameStream(hdrs[..count], vals, bits);
      BatchLength(hdrs[..count], vals, bits);
      Rotate(count * (HEADER_SIZE + PayloadBytes(bits)), canCreate);
      PrepareFrames(hdrs, payloads, count, bits, avx512);
      BuffersAreFrames(hdrs[..count], vals, bits);
      BuffersNotEmpty(hdrs[..count], vals, bits);
      status, n := WriteFrames(outcomes, frames);
      assert [] + frames[..n] == frames[..n];
    }
  }

  /** The batches the recorder does not refuse. */
  predicate Acceptable(count: int, headers: nat, payloads: nat, bits: nat) {
    0 <= count <= headers && count <= payloads && bits in {8, 4, 2}
  }

  lemma BatchLength(hdrs: seq<Header>, payloads: seq<seq<bv8>>, bits: nat)
    requires |hdrs| == |payloads| && bits in {8, 4, 2}
    requires forall j :: 0 <= j < |payloads| ==> |payloads[j]| == PAYLOAD_BYTES
    ensures |FrameStream(hdrs, payloads, bits)| == |hdrs| * (HEADER_SIZE + PayloadBytes(bits))
  {
    hide PayloadAsWritten, FrameStream;
    forall j | 0 <= j < |payloads| ensures |PayloadAsWritten(payloads[j], bits)| == PayloadBytes(bits) {
      RequantizedLength(payloads[j], bits);
    }
    StreamLength(hdrs, payloads, bits, PayloadBytes(bits));
  }

  lemma RequantizedLength(s: seq<bv8>, bits: nat)
    requires |s| == PAYLOAD_BYTES && bits in {8, 4, 2}
    ensures |Requantized(s, bits)| == |PayloadAsWritten(s, bits)| == PayloadBytes(bits) > 0
  {
  }

  lemma {:induction false} BuffersNotEmpty(hdrs: seq<Header>, payloads: seq<seq<bv8>>, bits: nat)
    requires |hdrs| == |payloads| && bits in {8, 4, 2}
    requires forall j :: 0 <= j < |payloads| ==> |payloads[j]| == PAYLOAD_BYTES
    ensures NoEmpty(Buffers(hdrs, payloads, bits))
    decreases |hdrs|
  {
    hide PayloadAsWritten;
    if hdrs != [] {
      var n := |hdrs| - 1;
      BuffersNotEmpty(hdrs[..n], payloads[..n], bits);
      RequantizedLength(payloads[n], bits);
    }
  }

  lemma NothingLeft()
    ensures Concat([]) == []
  {
  }

  lemma GivenIsPrefix(iov: seq<seq<Byte>>, first: nat, count: nat)
    requires first + count <= |iov|
    ensures Concat(iov[first..first + count]) <= Concat(iov[first..])
  {
    ConcatSplit(iov[first..], count);
    assert iov[first..][..count] == iov[first..first + count];
  }

  lemma FirstNotEmpty(iov: seq<seq<Byte>>, first: nat, count: nat)
    requires first + count <= |iov| && count >= 1 && NoEmpty(iov[first..])
    ensures Concat(iov[first..first + count]) != []
  {
    assert iov[first..][0] != [];
    NonEmptyConcat(iov[first..first + count]);
  }

  // ------------------------------------------------------------------ frames

  function AsByte(b: bv8): Byte { b as int }

  /** A payload as bytes of a file. */
  function AsBytes(s: seq<bv8>): seq<Byte> { seq(|s|, i requires 0 <= i < |s| => AsByte(s[i])) }

  /** The payload bytes written for a frame. */
  function PayloadAsWritten(s: seq<bv8>, bits: nat): seq<Byte> { AsBytes(Requantized(s, bits)) }

  /** The buffers passed for the frames of a batch: header and payload in turn. */
  function Buffers(hdrs: seq<Header>, payloads: seq<seq<bv8>>, bits: nat): seq<seq<Byte>>
    requires |hdrs| == |payloads|
  {
    if hdrs == [] then []
    else
      var n := |hdrs| - 1;
      Buffers(hdrs[..n], payloads[..n], bits) + [hdrs[n], PayloadAsWritten(payloads[n], bits)]
  }

  /** The frames of a batch, one after the other. */
  function FrameStream(hdrs: seq<Header>, payloads: seq<seq<bv8>>, bits: nat): seq<Byte>
    requires |hdrs| == |payloads|
  {
    if hdrs == [] then []
    else
      var n := |hdrs| - 1;
      FrameStream(hdrs[..n], payloads[..n], bits) + hdrs[n] + PayloadAsWritten(payloads[n], bits)
  }

  lemma ConcatPair(parts: seq<seq<Byte>>, x: seq<Byte>, y: seq<Byte>)
    ensures Concat(parts + [x, y]) == Concat(parts) + x + y
  {
    ConcatSplit(parts + [x, y], |parts|);
    assert (parts + [x, y])[..|parts|] == parts && (parts + [x, y])[|parts|..] == [x, y];
    assert Concat([x, y]) == x + Concat([x, y][1..]) == x + (y + Concat([x, y][1..][1..]));
    assert Concat(parts + [x, y]) == Concat(parts) + (x + y);
  }

  lemma {:induction false} BuffersAreFrames(hdrs: seq<Header>, payloads: seq<seq<bv8>>, bits: nat)
    requires |hdrs| == |payloads|
    ensures |Buffers(hdrs, payloads, bits)| == 2 * |hdrs|
    ensures Concat(Buffers(hdrs, payloads, bits)) == FrameStream(hdrs, payloads, bits)
    decreases |hdrs|
  {
    hide PayloadAsWritten;
    if hdrs != [] {
      var n := |hdrs| - 1;
      BuffersAreFrames(hdrs[..n], payloads[..n], bits);
      ConcatPair(Buffers(hdrs[..n], payloads[..n], bits), hdrs[n], PayloadAsWritten(payloads[n], bits));
    }
  }

  lemma SliceOfSlice<X>(s: seq<X>, k: nat)
    requires k < |s|
    ensures s[..|s| - 1][..k] == s[..k] && s[..|s| - 1][k..] == s[k..][..|s| - 1 - k]
            && s[k..][|s| - 1 - k] == s[|s| - 1]
  {
  }

  lemma {:induction false} StreamSplit(hdrs: seq<Header>, payloads: seq<seq<bv8>>, bits: nat, k: nat)
    requires |hdrs| == |payloads| && k <= |hdrs|
    ensures FrameStream(hdrs, payloads, bits)
         == FrameStream(hdrs[..k], payloads[..k], bits) + FrameStream(hdrs[k..], payloads[k..], bits)
    decreases |hdrs|
  {
    hide PayloadAsWritten, FrameStream;
    var n := |hdrs|;
    if k == n {
      assert hdrs[..n] == hdrs && payloads[..n] == payloads;
      StreamNone(bits);
    } else {
      SliceOfSlice(hdrs, k);
      SliceOfSlice(payloads, k);
      StreamSplit(hdrs[..n - 1], payloads[..n - 1], bits, k);
      StreamLast(hdrs, payloads, bits);
      StreamLast(hdrs[k..], payloads[k..], bits);
      Reassociate(FrameStream(hdrs[..k], payloads[..k], bits),
        FrameStream(hdrs[k..][..n - 1 - k], payloads[k..][..n - 1 - k], bits),
                  hdrs[n - 1], PayloadAsWritten(payloads[n - 1], bits));
    }
  }

  lemma StreamNone(bits: nat)
    ensures FrameStream([], [], bits) == []
  {
  }

  lemma Reassociate(a: seq<Byte>, b: seq<Byte>, c: seq<Byte>, d: seq<Byte>)
    ensures a + b + c + d == a + (b + c + d)
  {
  }

  lemma StreamLast(hdrs: seq<Header>, payloads: seq<seq<bv8>>, bits: nat)
    requires |hdrs| == |payloads| > 0
    ensures var n := |hdrs| - 1;
            FrameStream(hdrs, payloads, bits)
              == FrameStream(hdrs[..n], payloads[..n], bits) + hdrs[n] + PayloadAsWritten(payloads[n], bits)
  {
    hide PayloadAsWritten;
  }

  /** Frame k follows k frames of equal length, and is its header and its requantized payload. */
  lemma FrameAt(hdrs: seq<Header>, payloads: seq<seq<bv8>>, bits: nat, size: nat, k: nat)
    requires |hdrs| == |payloads| && k < |hdrs|
    requires forall j :: 0 <= j < |payloads| ==> |PayloadAsWritten(payloads[j], bits)| == size
    ensures |FrameStream(hdrs[..k], payloads[..k], bits)| == k * (HEADER_SIZE + size)
    ensures FrameStream(hdrs, payloads, bits)
         == FrameStream(hdrs[..k], payloads[..k], bits) + hdrs[k] + PayloadAsWritten(payloads[k], bits)
            + FrameStream(hdrs[k + 1..], payloads[k + 1..], bits)
  {
    hide PayloadAsWritten;
    StreamLength(hdrs[..k], payloads[..k], bits, size);
    StreamSplit(hdrs, payloads, bits, k + 1);
    assert hdrs[..k + 1][..k] == hdrs[..k] && payloads[..k + 1][..k] == payloads[..k];
  }

  lemma {:induction false} StreamLength(hdrs: seq<Header>, payloads: seq<seq<bv8>>, bits: nat, size: nat)
    requires |hdrs| == |payloads|
    requires forall j :: 0 <= j < |payloads| ==> |PayloadAsWritten(payloads[j], bits)| == size
    ensures |FrameStream(hdrs, payloads, bits)| == |hdrs| * (HEADER_SIZE + size)
    decreases |hdrs|
  {
    hide PayloadAsWritten;
    if hdrs != [] {
      var n := |hdrs| - 1;
      StreamLength(hdrs[..n], payloads[..n], bits, size);
      assert (n + 1) * (HEADER_SIZE + size) == n * (HEADER_SIZE + size) + (HEADER_SIZE + size);
    }
  }
}
