/**
  Packet batching in the receive loop. Out-of-order, lossy packets become a gap-free
  sequence of numbered batches, stored in a pool that is used round robin. The loop is
  stated for any header type H and payload type P; BasebandFrames gives it VDIF headers.
 */
module BatchAssembly {
  /** A packet as the loop sees it: its number and noise flag are read from the header. */
  datatype Packet<H, P> = Packet(id: nat, noise: nat, header: H, payload: P)

  /**
    What the loop is configured with: setPacketId, configureBaseband and
    setInvalid(true) on headers, and the payload that stands for zero voltage.
   */
  datatype Config<!H, P> = Config(
    batchsize: nat, poolSize: nat, baseband: bool,
    withPacketId: (H, nat) -> H, configured: H -> H, invalidated: H -> H, zeroVoltage: P,
    blankHeader: H, blankPayload: P)

  ghost predicate ConfigOk<H, P>(c: Config<H, P>) {
    c.batchsize >= 1 && c.poolSize >= 2
  }

  datatype Batch<H, P> = Batch(
    batchId: nat, receivedCount: nat, headerValid: bool, valid: bool,
    pktId: seq<nat>, noiseState: seq<nat>, buffer: seq<P>, hdrs: seq<H>)

  /** The loop's variables, and the batches it has handed to the queue, as they were handed over. */
  datatype State<H, P> = State(
    pool: seq<Batch<H, P>>, poolIdx: nat, prebatch: nat, expected: nat,
    lost: nat, lossEvents: nat, lateOrDuplicate: nat,
    template: H, haveTemplate: bool, lastNoise: nat,
    queue: seq<Batch<H, P>>)

  /** The first packet number of a batch. */
  function Start<H, P>(c: Config<H, P>, b: nat): nat { b * c.batchsize }

  lemma StartNext<H, P>(c: Config<H, P>, b: nat)
    ensures Start(c, b + 1) == Start(c, b) + c.batchsize
  {
  }

  lemma {:induction false} StartMonotone<H, P>(c: Config<H, P>, a: nat, b: nat)
    requires a <= b
    ensures Start(c, a) <= Start(c, b)
    decreases b
  {
    if a < b {
      StartNext(c, b - 1);
      StartMonotone(c, a, b - 1);
    }
  }

  // ------------------------------------------------------------------ the loop body

  function BlankBatch<H, P>(c: Config<H, P>): Batch<H, P> {
    Batch(0, 0, false, false, seq(c.batchsize, _ => 0), seq(c.batchsize, _ => 0),
          seq(c.batchsize, _ => c.blankPayload), seq(c.batchsize, _ => c.blankHeader))
  }

  function Initial<H, P>(c: Config<H, P>): State<H, P> {
    State(seq(c.poolSize, _ => BlankBatch(c)), 0, 0, 0, 0, 0, 0, c.blankHeader, false, 0, [])
  }

  predicate Sized<H, P>(c: Config<H, P>, b: Batch<H, P>) {
    |b.pktId| == c.batchsize && |b.noiseState| == c.batchsize && |b.buffer| == c.batchsize && |b.hdrs| == c.batchsize
  }

  predicate PoolSized<H, P>(c: Config<H, P>, s: State<H, P>) {
    && c.batchsize >= 1
    && |s.pool| == c.poolSize && s.poolIdx < c.poolSize && forall q :: 0 <= q < c.poolSize ==> Sized(c, s.pool[q])
  }

  /** prepare_batch */
  function Prepared<H, P>(c: Config<H, P>, s: State<H, P>, stale: Batch<H, P>, b: nat): (r: Batch<H, P>)
    requires Sized(c, stale) && c.batchsize >= 1
    ensures Sized(c, r)
  {
    var batch := stale.(batchId := b, receivedCount := 0, valid := false, headerValid := s.haveTemplate);
    if s.haveTemplate
    then batch.(hdrs := stale.hdrs[0 := c.withPacketId(s.template, Start(c, b))],
                noiseState := stale.noiseState[0 := s.lastNoise])
    else batch
  }

  /** The frame is one that never arrived. */
  predicate Missing<H, P>(c: Config<H, P>, batch: Batch<H, P>, i: nat)
    requires Sized(c, batch) && i < c.batchsize
  {
    batch.pktId[i] != Start(c, batch.batchId) + i
  }

  /** The header synthesised for a missing frame. */
  function Mark<H, P>(c: Config<H, P>, h: H, id: nat): H {
    c.invalidated(c.withPacketId(h, id))
  }

  function FilledHeader<H, P>(c: Config<H, P>, batch: Batch<H, P>, i: nat): H
    requires Sized(c, batch) && i < c.batchsize
  {
    if !Missing(c, batch, i) then batch.hdrs[i]
    else if i == 0 then Mark(c, batch.hdrs[0], Start(c, batch.batchId))
    else Mark(c, FilledHeader(c, batch, 0), Start(c, batch.batchId) + i)
  }

  function FilledPayload<H, P>(c: Config<H, P>, batch: Batch<H, P>, i: nat): P
    requires Sized(c, batch) && i < c.batchsize
  {
    if Missing(c, batch, i) then c.zeroVoltage else batch.buffer[i]
  }

  /** finalize_batch */
  function Finalized<H, P>(c: Config<H, P>, batch: Batch<H, P>): (r: Batch<H, P>)
    requires Sized(c, batch)
    ensures Sized(c, r)
  {
    var b := batch.(valid := batch.headerValid && batch.receivedCount == c.batchsize);
    if !c.baseband || b.valid || !b.headerValid then b
    else b.(hdrs := seq(c.batchsize, i requires 0 <= i < c.batchsize => FilledHeader(c, batch, i)),
            buffer := seq(c.batchsize, i requires 0 <= i < c.batchsize => FilledPayload(c, batch, i)))
  }

  /** One turn of the loop that advances across completed batches. */
  function AdvanceOne<H, P>(c: Config<H, P>, s: State<H, P>): (r: State<H, P>)
    requires PoolSized(c, s)
    ensures PoolSized(c, r)
  {
    var done := Finalized(c, s.pool[s.poolIdx]);
    var next := if s.poolIdx + 1 >= c.poolSize then 0 else s.poolIdx + 1;
    var pool := s.pool[s.poolIdx := done];
    s.(queue := s.queue + [done], prebatch := s.prebatch + 1, poolIdx := next,
       pool := pool[next := Prepared(c, s, pool[next], s.prebatch + 1)])
  }

  function Advance<H, P>(c: Config<H, P>, s: State<H, P>, target: nat): (r: State<H, P>)
    requires PoolSized(c, s)
    ensures PoolSized(c, r)
    decreases target - s.prebatch
  {
    if s.prebatch < target then Advance(c, AdvanceOne(c, s), target) else s
  }

  /** The first header of a batch, taken from the first packet to arrive for it. */
  function FirstHeader<H, P>(c: Config<H, P>, p: Packet<H, P>, b: nat): H {
    c.withPacketId(if c.baseband then c.configured(p.header) else p.header, Start(c, b))
  }

  /** The batch after packet p of batch number b is stored at index i. */
  function Stored<H, P>(c: Config<H, P>, batch: Batch<H, P>, p: Packet<H, P>, b: nat, i: nat): (r: Batch<H, P>)
    requires Sized(c, batch) && i < c.batchsize
    ensures Sized(c, r)
  {
    var noise := batch.noiseState[i := p.noise];
    var hdrs := if c.baseband then batch.hdrs[i := c.configured(p.header)] else batch.hdrs;
    var b1 := batch.(pktId := batch.pktId[i := p.id], buffer := batch.buffer[i := p.payload],
                     receivedCount := batch.receivedCount + 1);
    if batch.receivedCount == 0
    then b1.(hdrs := hdrs[0 := FirstHeader(c, p, b)], noiseState := noise[0 := p.noise], headerValid := true)
    else b1.(hdrs := hdrs, noiseState := noise)
  }

  function Store<H, P>(c: Config<H, P>, s: State<H, P>, p: Packet<H, P>, b: nat, i: nat): (r: State<H, P>)
    requires PoolSized(c, s) && i < c.batchsize
    ensures PoolSized(c, r)
  {
    var batch := s.pool[s.poolIdx];
    var s1 := s.(pool := s.pool[s.poolIdx := Stored(c, batch, p, b, i)]);
    if batch.receivedCount == 0
    then s1.(template := FirstHeader(c, p, b), haveTemplate := true, lastNoise := p.noise)
    else s1
  }

  /** Accepting the packet that opens the first batch. */
  function Begin<H, P>(c: Config<H, P>, s: State<H, P>, p: Packet<H, P>, b: nat): (r: State<H, P>)
    requires PoolSized(c, s)
    ensures PoolSized(c, r)
  {
    s.(expected := p.id + 1, prebatch := b,
       pool := s.pool[s.poolIdx := Prepared(c, s, s.pool[s.poolIdx], b)])
  }

  /** Accepting a packet at or ahead of the expected number. */
  function Expect<H, P>(s: State<H, P>, p: Packet<H, P>): State<H, P>
    requires s.expected <= p.id
  {
    s.(expected := p.id + 1, lost := s.lost + (p.id - s.expected),
       lossEvents := s.lossEvents + (if p.id > s.expected then 1 else 0))
  }

  /** The sequence check and what follows it, for one packet. */
  function Receive<H, P>(c: Config<H, P>, s: State<H, P>, p: Packet<H, P>): (r: State<H, P>)
    requires PoolSized(c, s)
    ensures PoolSized(c, r)
  {
    var b, i := p.id / c.batchsize, p.id % c.batchsize;
    if s.expected == 0 then
      if i != 0 then s else Store(c, Begin(c, s, p, b), p, b, i)
    else if p.id < s.expected then s.(lateOrDuplicate := s.lateOrDuplicate + 1)
    else Store(c, Advance(c, Expect(s, p), b), p, b, i)
  }

  function ReceiveAll<H, P>(c: Config<H, P>, packets: seq<Packet<H, P>>): (s: State<H, P>)
    requires c.batchsize >= 1 && c.poolSize >= 1
    ensures PoolSized(c, s)
  {
    if packets == [] then Initial(c)
    else Receive(c, ReceiveAll(c, packets[..|packets| - 1]), packets[|packets| - 1])
  }
}
