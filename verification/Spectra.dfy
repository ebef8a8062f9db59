/**
  The powers that are summed, from packets: a worker's filter banks are fed the batches of
  both polarizations, and what they give for a valid block depends on the samples of the
  packets of its window alone. The Fourier transform is any function.
 */
module Spectra {
  import opened Units
  import opened Vdif
  import opened BatchAssembly
  import opened BatchAcceptance
  import opened BatchCorrectness
  import opened BasebandFrames
  import opened Alignment
  import opened EndToEnd
  import opened Observation
  import P = Pfb
  import Q = Quantize
  import D = Decode
  import I = Integration
  import A = Accumulators
  import T = Timing

  type Spectrum = seq<P.Complex>

  // ------------------------------------------------------------------ bytes

  function ByteAt(payload: Payload, i: nat): bv8 { if i < |payload| then payload[i] else 0 }

  /** The payloads of a batch as the one buffer they lie in. */
  function BufferOf(payloads: seq<Payload>, size: nat): (raw: seq<bv8>)
    ensures |raw| == 2 * size
  {
    seq(2 * size, i requires 0 <= i < 2 * size =>
      if i / PAYLOAD_BYTES < |payloads| then ByteAt(payloads[i / PAYLOAD_BYTES], i % PAYLOAD_BYTES) else 0)
  }

  /** The payload of the packet taken under a number. */
  function PayloadOf(a: seq<Packet<Header, Payload>>, id: nat): Payload {
    if a == [] then []
    else if a[|a| - 1].id == id then a[|a| - 1].payload
    else PayloadOf(a[..|a| - 1], id)
  }

  /** The bytes of the packets numbered from start on. */
  function PacketBytes(a: seq<Packet<Header, Payload>>, start: nat, size: nat): (raw: seq<bv8>)
    ensures |raw| == 2 * size
  {
    seq(2 * size, i requires 0 <= i < 2 * size => ByteAt(PayloadOf(a, start + i / PAYLOAD_BYTES), i % PAYLOAD_BYTES))
  }

  lemma {:induction false} PayloadFound(a: seq<Packet<Header, Payload>>, id: nat) returns (k: nat)
    requires Has(a, id)
    ensures k < |a| && a[k].id == id && a[k].payload == PayloadOf(a, id)
    decreases |a|
  {
    var n := |a| - 1;
    if a[n].id == id {
      k := n;
    } else {
      var j :| 0 <= j < |a| && a[j].id == id;
      assert a[..n][j].id == id;
      k := PayloadFound(a[..n], id);
    }
  }

  /** A complete batch's buffer is the bytes of its packets. */
  lemma BatchBytes(c: Config<Header, Payload>, a: seq<Packet<Header, Payload>>, b: nat, batch: VdifBatch, size: nat)
    requires HandedOver(c, a, b, batch) && batch.valid && 2 * size == c.batchsize * PAYLOAD_BYTES
    ensures BufferOf(batch.buffer, size) == PacketBytes(a, Start(c, b), size)
  {
    hide PayloadOf, CountIn, Stamped, Dated, MarkedMissing, Padded, Has;
    forall i: nat | i < c.batchsize ensures batch.buffer[i] == PayloadOf(a, Start(c, b) + i) {
      assert Has(a, Start(c, b) + i);
      var k := PayloadFound(a, Start(c, b) + i);
      assert Holds(c, batch, a[k], a[k].id - Start(c, b));
    }
    hide HandedOver, Start;
    forall i | 0 <= i < 2 * size ensures BufferOf(batch.buffer, size)[i] == PacketBytes(a, Start(c, b), size)[i] {
      assert i / PAYLOAD_BYTES < c.batchsize;
    }
  }

  // ------------------------------------------------------------------ what is fed and detected

  /** Complex samples of a block. */
  function Size(s: Setup): nat { s.c.batchsize * T.SAMPLES_PER_PACKET }

  /** The coefficients, the Fourier transform, and whether powers are kept by channel. */
  datatype Bank = Bank(h: seq<real>, transform: Spectrum -> Spectrum, spectral: bool)

  /** What goes to the device for a pair: the batch, or zero bytes when the pair is not good. */
  function Fed(batch: VdifBatch, good: bool, size: nat): (raw: seq<bv8>)
    ensures |raw| == 2 * size
  {
    if good then BufferOf(batch.buffer, size) else seq(2 * size, _ => 0)
  }

  /** Both polarizations have the batch of every pair. */
  lemma BothInRange(s: Setup, k: nat)
    requires Observed(s) && k < |s.outputs|
    ensures FirstA(s) <= Origin(s) && Origin(s) + k - FirstA(s) < |QueueA(s)|
    ensures FirstB(s) <= Origin(s) && Origin(s) + k - FirstB(s) < |QueueB(s)|
  {
    DeliveredLength(QueueA(s));
    DeliveredLength(QueueB(s));
    hide QueueA, QueueB, FirstA, FirstB, OutputOk, Delivered;
  }

  /** The first n blocks as converted. */
  function Converted(raws: seq<seq<bv8>>, n: nat, size: nat): seq<Spectrum>
    requires n <= |raws| && forall k :: 0 <= k < |raws| ==> |raws[k]| == 2 * size
  {
    seq(n, j requires 0 <= j < n => P.Samples(raws[j], size))
  }

  /** Everything fed to a filter bank from its queue, the first aligned batch being number m. */
  function FedFrom(queue: seq<VdifBatch>, first: nat, m: nat, outputs: seq<Output>, size: nat): (raws: seq<seq<bv8>>)
    requires first <= m && (outputs != [] ==> m - first + |outputs| <= |queue|)
    ensures |raws| == |outputs| && forall j :: 0 <= j < |raws| ==> |raws[j]| == 2 * size
  {
    seq(|outputs|, j requires 0 <= j < |outputs| => Fed(queue[m + j - first], outputs[j].inputValid, size))
  }

  ghost function FedA(s: Setup): seq<seq<bv8>>
    requires Observed(s)
  {
    AllInRange(s);
    FedFrom(QueueA(s), FirstA(s), Origin(s), s.outputs, Size(s))
  }

  ghost function FedB(s: Setup): seq<seq<bv8>>
    requires Observed(s)
  {
    AllInRange(s);
    FedFrom(QueueB(s), FirstB(s), Origin(s), s.outputs, Size(s))
  }

  lemma AllInRange(s: Setup)
    requires Observed(s)
    ensures FirstA(s) <= Origin(s) && FirstB(s) <= Origin(s)
    ensures s.outputs != [] ==> Origin(s) - FirstA(s) + |s.outputs| <= |QueueA(s)|
    ensures s.outputs != [] ==> Origin(s) - FirstB(s) + |s.outputs| <= |QueueB(s)|
  {
    hide Observed, QueueA, QueueB, FirstA, FirstB;
    ObservedSizes(s);
    if s.outputs != [] { BothInRange(s, |s.outputs| - 1); }
  }

  /** The blocks of either polarization up to block k, as the filter bank then holds them. */
  ghost function HistoryA(s: Setup, k: nat): (r: seq<Spectrum>)
    requires Observed(s) && k < |s.outputs|
    ensures |r| == k + 1
  {
    Converted(FedA(s), k + 1, Size(s))
  }

  ghost function HistoryB(s: Setup, k: nat): (r: seq<Spectrum>)
    requires Observed(s) && k < |s.outputs|
    ensures |r| == k + 1
  {
    Converted(FedB(s), k + 1, Size(s))
  }

  /** The filter bank's output on the last blocks. */
  function Filtered(blocks: seq<Spectrum>, h: seq<real>, size: nat, taps: nat): (r: Spectrum)
    requires |h| == taps * size
    ensures |r| == size
  {
    seq(size, p requires 0 <= p < size => P.Direct(blocks, h, size, taps, p, taps))
  }

  function BinAt(x: Spectrum, i: nat): P.Complex { if i < |x| then x[i] else P.ZERO }

  /** stokes_IQUV_accumulate: the four terms of channel i. */
  function StokesTerm(x: P.Complex, y: P.Complex, term: nat): real {
    if term == 0 then x.re * x.re + x.im * x.im
    else if term == 1 then y.re * y.re + y.im * y.im
    else if term == 2 then x.re * y.im
    else x.im * y.re
  }

  function Stokes(x: Spectrum, y: Spectrum, size: nat): (r: I.Vec)
    ensures |r| == 4 * size
  {
    seq(4 * size, i requires 0 <= i < 4 * size => StokesTerm(BinAt(x, i / 4), BinAt(y, i / 4), i % 4))
  }

  /** continuum_power_accumulate: the power of all channels. */
  function TotalPower(x: Spectrum, y: Spectrum, size: nat): real {
    if size == 0 then 0.0
    else TotalPower(x, y, size - 1) + (StokesTerm(BinAt(x, size - 1), BinAt(y, size - 1), 0)
                                       + StokesTerm(BinAt(x, size - 1), BinAt(y, size - 1), 1))
  }

  /** What the accumulation kernels add for two filtered blocks. */
  function Detected(bank: Bank, x: Spectrum, y: Spectrum, size: nat): I.Vec {
    var fx, fy := P.Shifted(bank.transform(x)), P.Shifted(bank.transform(y));
    if bank.spectral then Stokes(fx, fy, size) else [TotalPower(fx, fy, size)]
  }

  /** The powers of an observation are those of its filter banks. */
  ghost predicate Powered(s: Setup, bank: Bank) {
    && Observed(s) && |bank.h| == s.taps * Size(s)
    && forall k: nat :: k < |s.outputs| ==> s.powers[k] == FedPower(s, bank, k)
  }

  ghost function FedPower(s: Setup, bank: Bank, k: nat): I.Vec
    requires Observed(s) && |bank.h| == s.taps * Size(s) && k < |s.outputs|
  {
    Detected(bank, Filtered(HistoryA(s, k), bank.h, Size(s), s.taps),
      Filtered(HistoryB(s, k), bank.h, Size(s), s.taps), Size(s))
  }

  // ------------------------------------------------------------------ the window alone

  /** The samples of the packets of consecutive batches, as the converter gives them. */
  function WindowSamples(c: Config<Header, Payload>, a: seq<Packet<Header, Payload>>, first: nat, taps: nat,
                         size: nat): (r: seq<Spectrum>)
    ensures |r| == taps
  {
    seq(taps, t requires 0 <= t < taps => P.Samples(PacketBytes(a, Start(c, first + t), size), size))
  }

  /** The power of block k, computed from the packets of its window and nothing else. */
  ghost function PacketPower(s: Setup, bank: Bank, k: nat): I.Vec
    requires ConfigSized(s) && |bank.h| == s.taps * Size(s) && k + 1 >= s.taps
  {
    var first := Origin(s) + k + 1 - s.taps;
    Detected(bank, Filtered(WindowSamples(s.c, TakenA(s), first, s.taps, Size(s)), bank.h, Size(s), s.taps),
             Filtered(WindowSamples(s.c, TakenB(s), first, s.taps, Size(s)), bank.h, Size(s), s.taps), Size(s))
  }

  lemma FilteredOfWindow(blocks: seq<Spectrum>, window: seq<Spectrum>, h: seq<real>, size: nat, taps: nat)
    requires |h| == taps * size && |window| == taps <= |blocks| && blocks[|blocks| - taps..] == window
    ensures Filtered(blocks, h, size, taps) == Filtered(window, h, size, taps)
  {
    hide P.Direct;
    forall p: nat | p < size
      ensures P.Direct(blocks, h, size, taps, p, taps) == P.Direct(window, h, size, taps, p, taps)
    {
      P.DirectOfWindow(blocks, window, h, size, taps, p, taps);
    }
  }

  /** Every pair in the window of a valid output is good, and so are both its batches. */
  lemma GoodPair(s: Setup, k: nat, j: nat)
    requires Observed(s) && k < |s.outputs| && s.outputs[k].valid && k + 1 - s.taps <= j <= k
    ensures Origin(s) + j - FirstA(s) < |QueueA(s)| && Origin(s) + j - FirstB(s) < |QueueB(s)|
    ensures FirstA(s) <= Origin(s) && FirstB(s) <= Origin(s) && s.outputs[j].inputValid && k + 1 >= s.taps
    ensures QueueA(s)[Origin(s) + j - FirstA(s)].valid && QueueB(s)[Origin(s) + j - FirstB(s)].valid
  {
    hide QueueA, QueueB, FirstA, FirstB, TakenA, TakenB, VdifConfig;
    BothInRange(s, j);
    DeliveredLength(QueueA(s));
    DeliveredLength(QueueB(s));
    assert OutputOk(Delivered(QueueA(s)), FirstA(s), Delivered(QueueB(s)), FirstB(s), s.taps, j, s.outputs[j]);
  }

  lemma StreamEntry(c: Config<Header, Payload>, a: seq<Packet<Header, Payload>>, first: nat, queue: seq<VdifBatch>,
                    j: nat)
    requires Stream(c, a, first, queue) && j < |queue|
    ensures HandedOver(c, a, first + j, queue[j])
  {
  }

  lemma BlockBytes(s: Setup)
    ensures 2 * Size(s) == s.c.batchsize * PAYLOAD_BYTES
  {
  }

  /** Of a valid output, block j of the window was fed its packets' bytes on both polarizations. */
  lemma FedPackets(s: Setup, k: nat, j: nat)
    requires Observed(s) && k < |s.outputs| && s.outputs[k].valid && k + 1 - s.taps <= j <= k
    ensures HistoryA(s, k)[j] == P.Samples(PacketBytes(TakenA(s), Start(s.c, Origin(s) + j), Size(s)), Size(s))
    ensures HistoryB(s, k)[j] == P.Samples(PacketBytes(TakenB(s), Start(s.c, Origin(s) + j), Size(s)), Size(s))
  {
    hide Observed, P.Samples, PacketBytes, BufferOf, QueueA, QueueB, FirstA, FirstB, TakenA, TakenB, Origin, Size,
         Stream, HandedOver, Start, ConfigSized;
    ObservedSizes(s);
    GoodPair(s, k, j);
    TakenSome(s);
    StreamsAre(s);
    BlockBytes(s);
    StreamEntry(s.c, TakenA(s), FirstA(s), QueueA(s), Origin(s) + j - FirstA(s));
    StreamEntry(s.c, TakenB(s), FirstB(s), QueueB(s), Origin(s) + j - FirstB(s));
    BatchBytes(s.c, TakenA(s), Origin(s) + j, QueueA(s)[Origin(s) + j - FirstA(s)], Size(s));
    BatchBytes(s.c, TakenB(s), Origin(s) + j, QueueB(s)[Origin(s) + j - FirstB(s)], Size(s));
  }

  lemma TakenSome(s: Setup)
    requires Observed(s)
    ensures ConfigSized(s) && TakenA(s) != [] && TakenB(s) != []
  {
  }

  lemma WindowEntered(s: Setup, k: nat)
    requires Observed(s) && k < |s.outputs| && s.outputs[k].valid
    ensures ConfigSized(s) && s.taps <= k + 1
  {
    ObservedSizes(s);
    GoodPair(s, k, k);
  }

  /** The power of a valid block is a function of its own window's packets. */
  lemma PowerOfWindow(s: Setup, bank: Bank, k: nat)
    requires Powered(s, bank) && k < |s.outputs| && s.outputs[k].valid
    ensures ConfigSized(s) && s.taps <= k + 1 && s.powers[k] == PacketPower(s, bank, k)
  {
    hide Observed, HistoryA, HistoryB, P.Samples, PacketBytes, TakenA, TakenB, Origin, Size, Start, Detected,
         ConfigSized, Filtered;
    WindowEntered(s, k);
    var first := Origin(s) + k + 1 - s.taps;
    var wA, wB := WindowSamples(s.c, TakenA(s), first, s.taps, Size(s)),
      WindowSamples(s.c, TakenB(s), first, s.taps, Size(s));
    var lastA, lastB := HistoryA(s, k)[k + 1 - s.taps..], HistoryB(s, k)[k + 1 - s.taps..];
    forall t: nat | t < s.taps ensures lastA[t] == wA[t] && lastB[t] == wB[t] {
      FedPackets(s, k, k + 1 - s.taps + t);
      assert Origin(s) + (k + 1 - s.taps + t) == first + t;
    }
    assert lastA == wA && lastB == wB;
    FilteredOfWindow(HistoryA(s, k), wA, bank.h, Size(s), s.taps);
    FilteredOfWindow(HistoryB(s, k), wB, bank.h, Size(s), s.taps);
  }

  // ------------------------------------------------------------------ results

  /** The sum of term i of the powers of the given blocks, from their packets. */
  ghost function PacketTotal(s: Setup, bank: Bank, g: seq<nat>, i: nat): real
    requires ConfigSized(s) && |bank.h| == s.taps * Size(s) && forall k :: 0 <= k < |g| ==> g[k] + 1 >= s.taps
  {
    if g == [] then 0.0
    else
      var power := PacketPower(s, bank, g[|g| - 1]);
      PacketTotal(s, bank, g[..|g| - 1], i) + if i < |power| then power[i] else 0.0
  }

  lemma {:induction false} TotalIsPacketTotal(s: Setup, bank: Bank, g: seq<nat>, i: nat)
    requires Powered(s, bank) && forall k :: 0 <= k < |g| ==> g[k] < |s.outputs| && Inputs(s)[g[k]].valid
    ensures ConfigSized(s) && forall k :: 0 <= k < |g| ==> g[k] + 1 >= s.taps
    ensures A.Total(Inputs(s), g, i) == PacketTotal(s, bank, g, i)
    decreases |g|
  {
    hide Observed, Inputs, PacketPower, ConfigSized, Size, FedPower;
    ObservedSizes(s);
    if g != [] {
      var n := |g| - 1;
      assert g[..n] + [g[n]] == g;
      TotalIsPacketTotal(s, bank, g[..n], i);
      InputPower(s, g[n]);
      PowerOfWindow(s, bank, g[n]);
    }
  }

  lemma InputPower(s: Setup, k: nat)
    requires Observed(s) && k < |s.outputs|
    ensures Inputs(s)[k].power == s.powers[k] && Inputs(s)[k].valid == s.outputs[k].valid
  {
    hide Inputs, QueueA, FirstA, Origin, NoiseAt, Observed;
    InputIs(s, k);
  }

  /**
    Every published result is the sum, over the blocks of its integration, of the powers of
    the samples of the packets in each block's window, filtered, transformed and detected.
   */
  lemma ResultsAreSpectra(s: Setup, bank: Bank, ic: I.Config, published: seq<A.Result>, j: nat)
    requires Powered(s, bank) && A.PublishedOk(ic, Inputs(s), published) && j < |published|
    ensures j < |I.Groups(ic, Inputs(s))| && I.GroupOk(ic, Inputs(s), I.Groups(ic, Inputs(s))[j]) && ConfigSized(s)
    ensures var g := I.Groups(ic, Inputs(s))[j].members;
            && (forall i :: 0 <= i < |g| ==> g[i] + 1 >= s.taps)
            && |published[j].data| == ic.size
            && forall i :: 0 <= i < ic.size ==> published[j].data[i] == PacketTotal(s, bank, g, i)
  {
    hide Observed, Inputs, I.Groups, A.Total, I.Gapless, ConfigSized, Size, FedPower, PacketTotal;
    ObservedSizes(s);
    A.EveryResultIsExact(ic, Inputs(s), published, j);
    var g := I.Groups(ic, Inputs(s))[j].members;
    TotalIsPacketTotal(s, bank, g, 0);
    forall i: nat | i < ic.size ensures published[j].data[i] == PacketTotal(s, bank, g, i) {
      TotalIsPacketTotal(s, bank, g, i);
    }
  }

  // ------------------------------------------------------------------ the two modes agree

  /** The power of the first n channels of a spectral result. */
  function ChannelPower(v: I.Vec, n: nat): real
    requires 4 * n <= |v|
  {
    if n == 0 then 0.0 else ChannelPower(v, n - 1) + (v[4 * (n - 1)] + v[4 * (n - 1) + 1])
  }

  /** The continuum power is the sum of both polarizations' powers over the channels. */
  lemma {:induction false} ContinuumIsSpectralTotal(x: Spectrum, y: Spectrum, size: nat, n: nat)
    requires n <= size
    ensures TotalPower(x, y, n) == ChannelPower(Stokes(x, y, size), n)
    decreases n
  {
    hide StokesTerm, BinAt;
    if n > 0 { ContinuumIsSpectralTotal(x, y, size, n - 1); }
  }

  function Times(x: P.Complex, y: P.Complex): P.Complex {
    P.Complex(x.re * y.re - x.im * y.im, x.re * y.im + x.im * y.re)
  }

  function Conjugate(x: P.Complex): P.Complex { P.Complex(x.re, -x.im) }

  /**
    The four numbers kept for a channel, in terms of complex products: the two powers, and two
    whose difference is the imaginary part of conj(x) y and whose sum is that of x y.
   */
  lemma StokesOfChannel(x: Spectrum, y: Spectrum, size: nat, i: nat)
    requires i < size
    ensures var v, a, b := Stokes(x, y, size), BinAt(x, i), BinAt(y, i);
            && v[4 * i] == Times(Conjugate(a), a).re && v[4 * i + 1] == Times(Conjugate(b), b).re
            && v[4 * i + 2] - v[4 * i + 3] == Times(Conjugate(a), b).im
            && v[4 * i + 2] + v[4 * i + 3] == Times(a, b).im
  {
    hide BinAt;
    assert (4 * i + 2) / 4 == i && (4 * i + 3) / 4 == i;
  }

  /** Channel i of what is added for a block is bin i of the transform, rotated by half. */
  lemma DetectedChannel(bank: Bank, x: Spectrum, y: Spectrum, size: nat, i: nat)
    requires bank.spectral && size % 2 == 0 && i < size && |bank.transform(x)| == |bank.transform(y)| == size
    ensures var v, bin := Detected(bank, x, y, size), (i + size / 2) % size;
            var a, b := bank.transform(x)[bin], bank.transform(y)[bin];
            && |v| == 4 * size
            && v[4 * i] == Times(Conjugate(a), a).re && v[4 * i + 1] == Times(Conjugate(b), b).re
            && v[4 * i + 2] - v[4 * i + 3] == Times(Conjugate(a), b).im
            && v[4 * i + 2] + v[4 * i + 3] == Times(a, b).im
  {
    hide Stokes, Times, Conjugate;
    P.ShiftIsRotation(bank.transform(x), i);
    P.ShiftIsRotation(bank.transform(y), i);
    StokesOfChannel(P.Shifted(bank.transform(x)), P.Shifted(bank.transform(y)), size, i);
  }

  /** stokes_IQUV_accumulate, every thread adding the terms of one channel. */
  method StokesAccumulate(x: Spectrum, y: Spectrum, sum: array<real>)
    requires |x| == |y| && sum.Length == 4 * |x|
    modifies sum
    ensures sum[..] == A.Add(old(sum[..]), Stokes(x, y, |x|))
  {
    hide Stokes;
    ghost var before := sum[..];
    for idx := 0 to |x|
      invariant forall i :: 0 <= i < 4 * idx ==> sum[i] == before[i] + Stokes(x, y, |x|)[i]
      invariant forall i :: 4 * idx <= i < sum.Length ==> sum[i] == before[i]
    {
      var xx := x[idx].re * x[idx].re + x[idx].im * x[idx].im;
      var yy := y[idx].re * y[idx].re + y[idx].im * y[idx].im;
      FourTerms(x, y, idx, xx, yy);
      sum[4 * idx] := sum[4 * idx] + xx;
      sum[4 * idx + 1] := sum[4 * idx + 1] + yy;
      sum[4 * idx + 2] := sum[4 * idx + 2] + x[idx].re * y[idx].im;
      sum[4 * idx + 3] := sum[4 * idx + 3] + x[idx].im * y[idx].re;
    }
    assert sum[..] == A.Add(before, Stokes(x, y, |x|));
  }

  lemma FourTerms(x: Spectrum, y: Spectrum, i: nat, xx: real, yy: real)
    requires |x| == |y| && i < |x|
    requires xx == x[i].re * x[i].re + x[i].im * x[i].im && yy == y[i].re * y[i].re + y[i].im * y[i].im
    ensures var v := Stokes(x, y, |x|);
            && v[4 * i] == xx && v[4 * i + 1] == yy
            && v[4 * i + 2] == x[i].re * y[i].im && v[4 * i + 3] == x[i].im * y[i].re
  {
    assert (4 * i + 2) / 4 == i && (4 * i + 3) / 4 == i;
  }

  // ------------------------------------------------------------------ the samples are the recorded ones

  /**
    The filter bank converts a payload to the samples the Python reader decodes from the same
    payload recorded at eight bits, up to the scale.
   */
  lemma SamplesAsRecorded(raw: seq<bv8>, size: nat, m: nat)
    requires |raw| == 2 * size && m < size
    ensures var d := D.DecodePayload(Q.Requantized(raw, 8), 8);
            && d.Samples? && |d.samples| == size
            && P.Samples(raw, size)[m].re == d.samples[m].re as real / 127.0
            && P.Samples(raw, size)[m].im == d.samples[m].im as real / 127.0
  {
    hide D.DecodePayload, Q.Requantized;
    D.Decode8(raw, Q.Requantized(raw, 8));
  }

  // ------------------------------------------------------------------ the worker's loop

  /** One polarization's bank, fed block after block, gives the outputs that are detected. */
  method FilterAll(fb: P.FilterBank, raws: seq<seq<bv8>>) returns (outputs: seq<Spectrum>)
    requires fb.Valid() && fb.blocks == [] && forall k :: 0 <= k < |raws| ==> |raws[k]| == 2 * fb.size
    modifies fb, fb.ring
    ensures |outputs| == |raws|
    ensures forall k :: 0 <= k < |raws| ==>
              outputs[k] == Filtered(Converted(raws, k + 1, fb.size), fb.h, fb.size, fb.taps)
  {
    hide P.Samples, P.RealSum, P.ImagSum, P.RingOk, Filtered, Converted;
    outputs := [];
    NoneConverted(raws, fb.size);
    for k := 0 to |raws|
      invariant fb.Valid() && |outputs| == k && fb.blocks == Converted(raws, k, fb.size)
      invariant forall i :: 0 <= i < k ==>
                  outputs[i] == Filtered(Converted(raws, i + 1, fb.size), fb.h, fb.size, fb.taps)
    {
      fb.Store(raws[k]);
      ConvertedNext(raws, k, fb.size);
      var output := fb.Sum();
      OutputIsFiltered(output, fb.blocks, fb.h, fb.size, fb.taps);
      outputs := outputs + [output];
    }
  }

  lemma NoneConverted(raws: seq<seq<bv8>>, size: nat)
    requires forall k :: 0 <= k < |raws| ==> |raws[k]| == 2 * size
    ensures Converted(raws, 0, size) == []
  {
  }

  lemma ConvertedNext(raws: seq<seq<bv8>>, n: nat, size: nat)
    requires n < |raws| && forall k :: 0 <= k < |raws| ==> |raws[k]| == 2 * size
    ensures Converted(raws, n + 1, size) == Converted(raws, n, size) + [P.Samples(raws[n], size)]
  {
    hide P.Samples;
  }

  lemma OutputIsFiltered(output: Spectrum, blocks: seq<Spectrum>, h: seq<real>, size: nat, taps: nat)
    requires |h| == taps * size && |output| == size
    requires forall p :: 0 <= p < size ==> output[p].re == P.RealSum(blocks, h, size, taps, p, taps)
    requires forall p :: 0 <= p < size ==> output[p].im == P.ImagSum(blocks, h, size, taps, p, taps)
    ensures output == Filtered(blocks, h, size, taps)
  {
    hide P.RealSum, P.ImagSum;
  }
}
