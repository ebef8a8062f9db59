/**
  Batch assembly refines its specification: whatever the stream, the batches handed over
  are numbered consecutively and hold exactly the packets taken.
 */
module BatchCorrectness {
  import opened Bits
  import opened BatchAssembly
  import opened BatchAcceptance

  /** A header stamped with a packet number. */
  ghost predicate Dated<H(!new), P>(c: Config<H, P>, h: H, id: nat) {
    exists g :: h == c.withPacketId(g, id)
  }

  ghost predicate MarkedMissing<H(!new), P>(c: Config<H, P>, h: H, id: nat) {
    exists g :: h == Mark(c, g, id)
  }

  /** The header kept for a packet that arrived, in baseband mode. */
  function OwnHeader<H(!new), P>(c: Config<H, P>, p: Packet<H, P>, i: nat): H {
    if i == 0 then c.withPacketId(c.configured(p.header), p.id) else c.configured(p.header)
  }

  /** Packet p is what slot i holds. */
  ghost predicate Holds<H(!new), P>(c: Config<H, P>, batch: Batch<H, P>, p: Packet<H, P>, i: nat)
    requires Sized(c, batch) && i < c.batchsize
  {
    batch.buffer[i] == p.payload && batch.noiseState[i] == p.noise
      && (c.baseband ==> batch.hdrs[i] == OwnHeader(c, p, i))
  }

  /** Every packet taken whose number falls in the batch is in its slot. */
  ghost predicate HoldsAll<H(!new), P>(c: Config<H, P>, a: seq<Packet<H, P>>, start: nat, batch: Batch<H, P>)
    requires Sized(c, batch)
  {
    forall k :: 0 <= k < |a| && start <= a[k].id < start + c.batchsize ==> Holds(c, batch, a[k], a[k].id - start)
  }

  /** A slot's number is the expected one exactly when that packet was taken. */
  ghost predicate Stamped<H(!new), P>(c: Config<H, P>, a: seq<Packet<H, P>>, start: nat, batch: Batch<H, P>)
    requires Sized(c, batch)
  {
    forall i :: 0 <= i < c.batchsize ==> (batch.pktId[i] == start + i <==> Has(a, start + i))
  }

  /** The first header given to batch b on account of packet p, which may be of an earlier batch. */
  function BaseHeader<H(!new), P>(c: Config<H, P>, p: Packet<H, P>, b: nat): H
    requires c.batchsize >= 1
  {
    var own := FirstHeader(c, p, p.id / c.batchsize);
    if p.id / c.batchsize == b then own else c.withPacketId(own, Start(c, b))
  }

  /** The first header and the first noise state are those packet k, leading the batch, gives it. */
  ghost predicate LedBy<H(!new), P>(c: Config<H, P>, a: seq<Packet<H, P>>, k: nat, b: nat, batch: Batch<H, P>)
    requires Sized(c, batch) && c.batchsize >= 1
  {
    && k < |a| && Leads(c.batchsize, a, k, b)
    && batch.noiseState[0] == a[k].noise && batch.hdrs[0] == BaseHeader(c, a[k], b)
  }

  ghost predicate Led<H(!new), P>(c: Config<H, P>, a: seq<Packet<H, P>>, b: nat, batch: Batch<H, P>)
    requires Sized(c, batch) && c.batchsize >= 1
  {
    exists k: nat :: LedBy(c, a, k, b, batch)
  }

  /** The header of the first frame when the batch is handed over: marked if it had to be filled in. */
  ghost function HandedHeader<H(!new), P>(c: Config<H, P>, a: seq<Packet<H, P>>, p: Packet<H, P>, b: nat): H
    requires c.batchsize >= 1
  {
    if c.baseband && !Has(a, Start(c, b)) then Mark(c, BaseHeader(c, p, b), Start(c, b)) else BaseHeader(c, p, b)
  }

  ghost predicate HandedLedBy<H(!new), P>(c: Config<H, P>, a: seq<Packet<H, P>>, k: nat, b: nat, batch: Batch<H, P>)
    requires Sized(c, batch) && c.batchsize >= 1
  {
    && k < |a| && Leads(c.batchsize, a, k, b)
    && batch.noiseState[0] == a[k].noise && batch.hdrs[0] == HandedHeader(c, a, a[k], b)
  }

  ghost predicate HandedLed<H(!new), P>(c: Config<H, P>, a: seq<Packet<H, P>>, b: nat, batch: Batch<H, P>)
    requires Sized(c, batch) && c.batchsize >= 1
  {
    exists k: nat :: HandedLedBy(c, a, k, b, batch)
  }

  /** The template and the noise state remembered are those of packet k, which leads batch b. */
  ghost predicate RemembersOf<H(!new), P>(c: Config<H, P>, a: seq<Packet<H, P>>, k: nat, b: nat, s: State<H, P>)
    requires c.batchsize >= 1
  {
    && k < |a| && Leads(c.batchsize, a, k, b)
    && s.lastNoise == a[k].noise && s.template == FirstHeader(c, a[k], a[k].id / c.batchsize)
  }

  ghost predicate Remembers<H(!new), P>(c: Config<H, P>, a: seq<Packet<H, P>>, b: nat, s: State<H, P>)
    requires c.batchsize >= 1
  {
    exists k: nat :: RemembersOf(c, a, k, b, s)
  }

  /** The batch being filled. */
  ghost predicate BatchOk<H(!new), P>(c: Config<H, P>, a: seq<Packet<H, P>>, b: nat, batch: Batch<H, P>) {
    && Sized(c, batch) && c.batchsize >= 1 && batch.batchId == b && batch.headerValid
    && batch.receivedCount == CountIn(a, Start(c, b), c.batchsize)
    && Stamped(c, a, Start(c, b), batch) && HoldsAll(c, a, Start(c, b), batch)
    && Dated(c, batch.hdrs[0], Start(c, b)) && Led(c, a, b, batch)
  }

  /** Missing frames carry zero voltage and a dated header marked invalid, made of the first one. */
  ghost predicate Padded<H(!new), P>(c: Config<H, P>, a: seq<Packet<H, P>>, start: nat, batch: Batch<H, P>)
    requires Sized(c, batch)
  {
    forall i :: 0 <= i < c.batchsize && !Has(a, start + i)
      ==> && batch.buffer[i] == c.zeroVoltage && MarkedMissing(c, batch.hdrs[i], start + i)
          && (i > 0 ==> batch.hdrs[i] == Mark(c, batch.hdrs[0], start + i))
  }

  /** What a batch is when it is handed over. */
  ghost predicate HandedOver<H(!new), P>(c: Config<H, P>, a: seq<Packet<H, P>>, b: nat, batch: Batch<H, P>) {
    && Sized(c, batch) && c.batchsize >= 1 && batch.batchId == b && batch.headerValid
    && batch.receivedCount == CountIn(a, Start(c, b), c.batchsize)
    && (batch.valid <==> HasAll(a, Start(c, b), c.batchsize))
    && Stamped(c, a, Start(c, b), batch) && HoldsAll(c, a, Start(c, b), batch)
    && (Dated(c, batch.hdrs[0], Start(c, b)) || MarkedMissing(c, batch.hdrs[0], Start(c, b)))
    && (c.baseband ==> Padded(c, a, Start(c, b), batch))
    && HandedLed(c, a, b, batch)
  }

  ghost predicate Stale<H(!new), P>(c: Config<H, P>, batch: Batch<H, P>, bound: nat) {
    forall i :: 0 <= i < |batch.pktId| ==> batch.pktId[i] < bound
  }

  ghost predicate AllBelow<H(!new), P>(a: seq<Packet<H, P>>, bound: nat) {
    forall k :: 0 <= k < |a| ==> a[k].id < bound
  }

  ghost predicate QueueOk<H(!new), P>(c: Config<H, P>, a: seq<Packet<H, P>>, first: nat, queue: seq<Batch<H, P>>) {
    forall j :: 0 <= j < |queue| ==> HandedOver(c, a, first + j, queue[j])
  }

  ghost predicate PoolStale<H(!new), P>(c: Config<H, P>, pool: seq<Batch<H, P>>, bound: nat) {
    forall q :: 0 <= q < |pool| ==> Stale(c, pool[q], bound)
  }

  /** Slots handed over and not yet reused hold what was handed over. */
  ghost predicate PoolKeeps<H(!new), P>(size: nat, pool: seq<Batch<H, P>>, queue: seq<Batch<H, P>>) {
    size >= 1 && |pool| == size
    && forall j: nat {:trigger Place(j, size)} :: |queue| < j + size && j < |queue| ==> pool[Place(j, size)] == queue[j]
  }

  /** Holds throughout, once a packet has been taken; first is the first batch number. */
  ghost predicate Mid<H(!new), P>(c: Config<H, P>, a: seq<Packet<H, P>>, first: nat, s: State<H, P>) {
    && PoolSized(c, s) && s.haveTemplate
    && s.prebatch == first + |s.queue| && s.poolIdx == Place(|s.queue|, c.poolSize)
    && BatchOk(c, a, s.prebatch, s.pool[s.poolIdx]) && Remembers(c, a, s.prebatch, s)
    && PoolStale(c, s.pool, Start(c, s.prebatch) + c.batchsize)
    && QueueOk(c, a, first, s.queue)
    && AllBelow(a, Start(c, s.prebatch) + c.batchsize) && Increasing(a)
  }

  // ------------------------------------------------------------------ one batch

  lemma CountGrows<H(!new), P>(a: seq<Packet<H, P>>, p: Packet<H, P>, lo: nat, n: nat)
    ensures CountIn(a + [p], lo, n) == CountIn(a, lo, n) + if lo <= p.id < lo + n then 1 else 0
  {
    assert (a + [p])[..|a|] == a;
  }

  lemma HandedOverGrows<H(!new), P>(c: Config<H, P>, a: seq<Packet<H, P>>, b: nat, batch: Batch<H, P>, p: Packet<H, P>)
    requires HandedOver(c, a, b, batch) && Start(c, b) + c.batchsize <= p.id
    ensures HandedOver(c, a + [p], b, batch)
  {
    hide Start, Holds, Dated, MarkedMissing, CountIn;
    CountGrows(a, p, Start(c, b), c.batchsize);
    forall id: nat | id < p.id ensures Has(a + [p], id) <==> Has(a, id) {
      HasGrows(a, p, id);
    }
    hide Has, HandedLed;
    HandedLedGrows(c, a, b, batch, p);
  }

  lemma HandedLedGrows<H(!new), P>(c: Config<H, P>, a: seq<Packet<H, P>>, b: nat, batch: Batch<H, P>, p: Packet<H, P>)
    requires Sized(c, batch) && c.batchsize >= 1 && HandedLed(c, a, b, batch) && Start(c, b) + c.batchsize <= p.id
    ensures HandedLed(c, a + [p], b, batch)
  {
    hide Has, Leads, BaseHeader, Start, Mark;
    var k: nat :| HandedLedBy(c, a, k, b, batch);
    HasGrows(a, p, Start(c, b));
    StartNext(c, b);
    BatchNotBefore(c, b + 1, p.id);
    LeadsGrows(c.batchsize, a, k, b, p);
    assert (a + [p])[k] == a[k];
    assert HandedLedBy(c, a + [p], k, b, batch);
  }

  /** prepare_batch on a stale slot gives an empty batch: no old number can be mistaken. */
  lemma PreparedOk<H(!new), P>(c: Config<H, P>, a: seq<Packet<H, P>>, s: State<H, P>, stale: Batch<H, P>, b: nat)
    requires Sized(c, stale) && c.batchsize >= 1 && s.haveTemplate
    requires AllBelow(a, Start(c, b)) && Stale(c, stale, Start(c, b)) && Remembers(c, a, b, s)
    ensures BatchOk(c, a, b, Prepared(c, s, stale, b))
  {
    hide Start, Led, Remembers;
    CountNone(a, Start(c, b), c.batchsize);
    var batch := Prepared(c, s, stale, b);
    assert batch.hdrs[0] == c.withPacketId(s.template, Start(c, b));
    PreparedLed(c, a, s, stale, b);
  }

  lemma PreparedLed<H(!new), P>(c: Config<H, P>, a: seq<Packet<H, P>>, s: State<H, P>, stale: Batch<H, P>, b: nat)
    requires Sized(c, stale) && c.batchsize >= 1 && s.haveTemplate && AllBelow(a, Start(c, b)) && Remembers(c, a, b, s)
    ensures Led(c, a, b, Prepared(c, s, stale, b))
  {
    hide Leads, Start, FirstHeader;
    var k: nat :| RemembersOf(c, a, k, b, s);
    NotYet(c, b, a[k].id);
    assert LedBy(c, a, k, b, Prepared(c, s, stale, b));
  }

  lemma NotYet<H(!new), P>(c: Config<H, P>, b: nat, id: nat)
    requires c.batchsize >= 1 && id < Start(c, b)
    ensures id / c.batchsize < b
  {
    IdSplits(c, id);
    if b <= id / c.batchsize { StartMonotone(c, b, id / c.batchsize); }
  }

  lemma FilledHeaderMarked<H(!new), P>(c: Config<H, P>, batch: Batch<H, P>, i: nat)
    requires Sized(c, batch) && i < c.batchsize && Missing(c, batch, i)
    ensures MarkedMissing(c, FilledHeader(c, batch, i), Start(c, batch.batchId) + i)
  {
    hide Start;
  }

  /** finalize_batch, when the batch is complete or the mode is not baseband. */
  lemma FinalizedPlain<H(!new), P>(c: Config<H, P>, a: seq<Packet<H, P>>, b: nat, batch: Batch<H, P>)
    requires BatchOk(c, a, b, batch) && Increasing(a)
    requires !c.baseband || batch.receivedCount == c.batchsize
    ensures HandedOver(c, a, b, Finalized(c, batch))
  {
    hide Start, Dated, MarkedMissing, CountIn, Has, Led, HandedLed;
    CountFull(a, Start(c, b), c.batchsize);
    FinalizedLed(c, a, b, batch);
  }

  lemma FinalizedLed<H(!new), P>(c: Config<H, P>, a: seq<Packet<H, P>>, b: nat, batch: Batch<H, P>)
    requires BatchOk(c, a, b, batch) && Increasing(a)
    ensures HandedLed(c, a, b, Finalized(c, batch))
  {
    hide Start, Dated, CountIn, Has, HoldsAll, Leads, BaseHeader, Mark;
    CountFull(a, Start(c, b), c.batchsize);
    var k: nat :| LedBy(c, a, k, b, batch);
    assert Finalized(c, batch).noiseState == batch.noiseState;
    assert batch.pktId[0] == Start(c, b) + 0 <==> Has(a, Start(c, b) + 0);
    assert HandedLedBy(c, a, k, b, Finalized(c, batch));
  }

  /** finalize_batch, when frames are missing from a baseband batch. */
  lemma FinalizedPadded<H(!new), P>(c: Config<H, P>, a: seq<Packet<H, P>>, b: nat, batch: Batch<H, P>)
    requires BatchOk(c, a, b, batch) && Increasing(a)
    requires c.baseband && batch.receivedCount != c.batchsize
    ensures HandedOver(c, a, b, Finalized(c, batch))
  {
    hide Start, Dated, MarkedMissing, CountIn, Has, HoldsAll, Stamped, Padded, Led, HandedLed;
    CountFull(a, Start(c, b), c.batchsize);
    FinalizedLed(c, a, b, batch);
    FinalizedPads(c, a, b, batch);
    FinalizedHolds(c, a, b, batch);
  }

  lemma FinalizedPads<H(!new), P>(c: Config<H, P>, a: seq<Packet<H, P>>, b: nat, batch: Batch<H, P>)
    requires BatchOk(c, a, b, batch) && c.baseband && batch.receivedCount != c.batchsize
    ensures Padded(c, a, Start(c, b), Finalized(c, batch)) && Stamped(c, a, Start(c, b), Finalized(c, batch))
  {
    hide Start, Dated, MarkedMissing, CountIn, Has, HoldsAll, Led;
    var done := Finalized(c, batch);
    forall i: nat | i < c.batchsize && !Has(a, Start(c, b) + i)
      ensures done.buffer[i] == c.zeroVoltage && MarkedMissing(c, done.hdrs[i], Start(c, b) + i)
      ensures i > 0 ==> done.hdrs[i] == Mark(c, done.hdrs[0], Start(c, b) + i)
    {
      assert Missing(c, batch, i);
      FilledHeaderMarked(c, batch, i);
    }
  }

  lemma FinalizedHolds<H(!new), P>(c: Config<H, P>, a: seq<Packet<H, P>>, b: nat, batch: Batch<H, P>)
    requires BatchOk(c, a, b, batch) && c.baseband && batch.receivedCount != c.batchsize
    ensures var done := Finalized(c, batch);
            && HoldsAll(c, a, Start(c, b), done)
            && (Dated(c, done.hdrs[0], Start(c, b)) || MarkedMissing(c, done.hdrs[0], Start(c, b)))
  {
    hide Start, Dated, MarkedMissing, CountIn, Holds, Finalized, Led;
    var start := Start(c, b);
    var done := Finalized(c, batch);
    forall k | 0 <= k < |a| && start <= a[k].id < start + c.batchsize
      ensures Holds(c, done, a[k], a[k].id - start)
    {
      assert Has(a, start + (a[k].id - start));
      KeptSlot(c, batch, a[k], a[k].id - start);
    }
    FirstFilled(c, batch);
  }

  /** Filling leaves the slots that arrived alone. */
  lemma KeptSlot<H(!new), P>(c: Config<H, P>, batch: Batch<H, P>, p: Packet<H, P>, i: nat)
    requires Sized(c, batch) && i < c.batchsize && !Missing(c, batch, i) && Holds(c, batch, p, i)
    ensures Holds(c, Finalized(c, batch), p, i)
  {
    hide Start;
  }

  lemma FirstFilled<H(!new), P>(c: Config<H, P>, batch: Batch<H, P>)
    requires Sized(c, batch) && c.batchsize >= 1
    ensures var h, id := Finalized(c, batch).hdrs[0], Start(c, batch.batchId);
            h == batch.hdrs[0] || MarkedMissing(c, h, id)
  {
    hide Start, MarkedMissing;
    if Missing(c, batch, 0) { FilledHeaderMarked(c, batch, 0); }
  }

  lemma FinalizedOk<H(!new), P>(c: Config<H, P>, a: seq<Packet<H, P>>, b: nat, batch: Batch<H, P>)
    requires BatchOk(c, a, b, batch) && Increasing(a)
    ensures HandedOver(c, a, b, Finalized(c, batch))
  {
    if !c.baseband || batch.receivedCount == c.batchsize {
      FinalizedPlain(c, a, b, batch);
    } else {
      FinalizedPadded(c, a, b, batch);
    }
  }

  /** Storing the next packet of the batch. */
  lemma StoredOk<H(!new), P>(c: Config<H, P>, a: seq<Packet<H, P>>, b: nat, batch: Batch<H, P>, p: Packet<H, P>)
    requires BatchOk(c, a, b, batch) && AllBelow(a, p.id)
    requires Start(c, b) <= p.id < Start(c, b) + c.batchsize
    ensures BatchOk(c, a + [p], b, Stored(c, batch, p, b, p.id - Start(c, b)))
  {
    hide Start, HoldsAll, CountIn, Has, Dated, Stored, Led;
    var start := Start(c, b);
    var i := p.id - start;
    var batch' := Stored(c, batch, p, b, i);
    StoredLed(c, a, b, batch, p);
    CountGrows(a, p, start, c.batchsize);
    if batch.receivedCount != 0 { SomeBelow(a, start, c.batchsize, p); }
    StoredEffect(c, batch, p, b, i);
    StoredStamps(c, a, start, batch, p, batch'.pktId);
    StoredHolds(c, a, b, batch, p);
  }

  /** The first packet of a batch takes over the lead; later ones leave it alone. */
  lemma StoredLed<H(!new), P>(c: Config<H, P>, a: seq<Packet<H, P>>, b: nat, batch: Batch<H, P>, p: Packet<H, P>)
    requires BatchOk(c, a, b, batch) && AllBelow(a, p.id)
    requires Start(c, b) <= p.id < Start(c, b) + c.batchsize
    ensures Led(c, a + [p], b, Stored(c, batch, p, b, p.id - Start(c, b)))
  {
    hide Start, HoldsAll, Stamped, CountIn, Has, Dated, Leads, FirstHeader, AllBelow;
    LastBatch(c, b, p.id);
    if batch.receivedCount == 0 {
      NewLeader(c, a, b, p);
      assert (a + [p])[|a|] == p;
      assert LedBy(c, a + [p], |a|, b, Stored(c, batch, p, b, p.id - Start(c, b)));
    } else {
      SomeBelow(a, Start(c, b), c.batchsize, p);
      var k: nat :| LedBy(c, a, k, b, batch);
      SameLeader(c, a, b, k, p);
      assert (a + [p])[k] == a[k];
      assert LedBy(c, a + [p], k, b, Stored(c, batch, p, b, p.id - Start(c, b)));
    }
  }

  lemma NewLeader<H(!new), P>(c: Config<H, P>, a: seq<Packet<H, P>>, b: nat, p: Packet<H, P>)
    requires c.batchsize >= 1 && CountIn(a, Start(c, b), c.batchsize) == 0 && AllBelow(a, p.id)
             && p.id / c.batchsize == b
    requires p.id < Start(c, b) + c.batchsize
    ensures Leads(c.batchsize, a + [p], |a|, b)
  {
    hide Start, CountIn, Leads;
    forall j: nat | j < |a| ensures a[j].id / c.batchsize < p.id / c.batchsize {
      NoneIn(a, Start(c, b), c.batchsize, j);
      NotYet(c, b, a[j].id);
    }
    FirstLeads(c.batchsize, a, p);
  }

  /** When something of the batch has been taken its leader is one of its own. */
  lemma SameLeader<H(!new), P>(c: Config<H, P>, a: seq<Packet<H, P>>, b: nat, k: nat, p: Packet<H, P>)
    requires c.batchsize >= 1 && CountIn(a, Start(c, b), c.batchsize) > 0 && Leads(c.batchsize, a, k, b)
    requires p.id / c.batchsize == b
    ensures k < |a| && a[k].id / c.batchsize == b && Leads(c.batchsize, a + [p], k, b)
  {
    hide Start, CountIn;
    var j := SomeIn(a, Start(c, b), c.batchsize);
    LastBatch(c, b, a[j].id);
    LeadsGrows(c.batchsize, a, k, b, p);
  }

  lemma {:induction false} SomeIn<H(!new), P>(a: seq<Packet<H, P>>, lo: nat, n: nat) returns (j: nat)
    requires CountIn(a, lo, n) > 0
    ensures j < |a| && lo <= a[j].id < lo + n
    decreases |a|
  {
    if lo <= a[|a| - 1].id < lo + n { j := |a| - 1; } else { j := SomeIn(a[..|a| - 1], lo, n); }
  }

  lemma StoredEffect<H(!new), P>(c: Config<H, P>, batch: Batch<H, P>, p: Packet<H, P>, b: nat, i: nat)
    requires Sized(c, batch) && i < c.batchsize && (batch.receivedCount == 0 || (i != 0 && batch.headerValid))
    ensures var batch' := Stored(c, batch, p, b, i);
            && batch'.batchId == batch.batchId && batch'.receivedCount == batch.receivedCount + 1 && batch'.headerValid
            && batch'.pktId == batch.pktId[i := p.id]
            && (batch'.hdrs[0] == batch.hdrs[0] || Dated(c, batch'.hdrs[0], Start(c, b)))
  {
    hide Start;
    if batch.receivedCount == 0 { assert Stored(c, batch, p, b, i).hdrs[0] == FirstHeader(c, p, b); }
  }

  lemma StoredStamps<H(!new), P>(c: Config<H, P>, a: seq<Packet<H, P>>, start: nat, batch: Batch<H, P>,
                                 p: Packet<H, P>, ids: seq<nat>)
    requires Sized(c, batch) && Stamped(c, a, start, batch) && start <= p.id < start + c.batchsize
    requires ids == batch.pktId[p.id - start := p.id]
    ensures forall i :: 0 <= i < c.batchsize ==> (ids[i] == start + i <==> Has(a + [p], start + i))
  {
    hide Has;
    forall i | 0 <= i < c.batchsize ensures ids[i] == start + i <==> Has(a + [p], start + i) {
      HasGrows(a, p, start + i);
    }
  }

  /** A batch that has received something is past its first slot. */
  lemma {:induction false} SomeBelow<H(!new), P>(a: seq<Packet<H, P>>, lo: nat, n: nat, p: Packet<H, P>)
    requires CountIn(a, lo, n) > 0 && AllBelow(a, p.id)
    ensures p.id > lo
    decreases |a|
  {
    if !(lo <= a[|a| - 1].id < lo + n) { SomeBelow(a[..|a| - 1], lo, n, p); }
  }

  lemma {:induction false} NoneIn<H(!new), P>(a: seq<Packet<H, P>>, lo: nat, n: nat, k: nat)
    requires CountIn(a, lo, n) == 0 && k < |a|
    ensures !(lo <= a[k].id < lo + n)
    decreases |a|
  {
    if k < |a| - 1 { NoneIn(a[..|a| - 1], lo, n, k); }
  }

  lemma StoredHolds<H(!new), P>(c: Config<H, P>, a: seq<Packet<H, P>>, b: nat, batch: Batch<H, P>, p: Packet<H, P>)
    requires BatchOk(c, a, b, batch) && AllBelow(a, p.id)
    requires Start(c, b) <= p.id < Start(c, b) + c.batchsize
    ensures HoldsAll(c, a + [p], Start(c, b), Stored(c, batch, p, b, p.id - Start(c, b)))
  {
    hide Start, Stamped, Dated, Led;
    var start := Start(c, b);
    var i := p.id - start;
    var batch' := Stored(c, batch, p, b, i);
    if batch.receivedCount != 0 { SomeBelow(a, start, c.batchsize, p); }
    hide CountIn;
    assert Holds(c, batch', p, i);
    forall k | 0 <= k < |a| && start <= a[k].id < start + c.batchsize
      ensures Holds(c, batch', a[k], a[k].id - start)
    {
      assert Holds(c, batch, a[k], a[k].id - start);
      if batch.receivedCount == 0 { NoneIn(a, start, c.batchsize, k); }
    }
  }

  // ------------------------------------------------------------------ the whole loop

  lemma NextIndex(n: nat, size: nat)
    requires size >= 1
    ensures Place(n + 1, size) == if Place(n, size) + 1 >= size then 0 else Place(n, size) + 1
  {
    var q, r := n / size, n % size;
    if r + 1 >= size {
      assert n + 1 == (q + 1) * size + 0;
      DivUnique(n + 1, size, q + 1, 0);
    } else {
      DivUnique(n + 1, size, q, r + 1);
    }
  }

  lemma AdvanceOneKeeps<H(!new), P>(c: Config<H, P>, a: seq<Packet<H, P>>, first: nat, s: State<H, P>)
    requires Mid(c, a, first, s) && ConfigOk(c)
    ensures Mid(c, a, first, AdvanceOne(c, s))
  {
    hide Start, BatchOk, HandedOver, Finalized, Prepared, Place, Remembers;
    var batch := s.pool[s.poolIdx];
    var s' := AdvanceOne(c, s);
    var next := s'.poolIdx;
    NextIndex(|s.queue|, c.poolSize);
    FinalizedOk(c, a, s.prebatch, batch);
    StartNext(c, s.prebatch);
    assert next != s.poolIdx;
    assert Stale(c, s.pool[next], Start(c, s.prebatch + 1));
    RemembersNext(c, a, s.prebatch, s);
    PreparedOk(c, a, s, s.pool[next], s.prebatch + 1);
    RemembersSame(c, a, s.prebatch + 1, s, s');
    AdvanceOneStale(c, s);
  }

  /** Nothing of the next batch has been taken, so the same packet leads it. */
  lemma RemembersNext<H(!new), P>(c: Config<H, P>, a: seq<Packet<H, P>>, b: nat, s: State<H, P>)
    requires c.batchsize >= 1 && Remembers(c, a, b, s) && AllBelow(a, Start(c, b + 1))
    ensures Remembers(c, a, b + 1, s)
  {
    hide Start, Leads, FirstHeader;
    var k: nat :| RemembersOf(c, a, k, b, s);
    forall j: nat | j < |a| ensures a[j].id / c.batchsize <= b {
      NotYet(c, b + 1, a[j].id);
    }
    LeadsLater(c.batchsize, a, k, b);
    assert RemembersOf(c, a, k, b + 1, s);
  }

  lemma RemembersSame<H(!new), P>(c: Config<H, P>, a: seq<Packet<H, P>>, b: nat, s: State<H, P>, s': State<H, P>)
    requires c.batchsize >= 1 && Remembers(c, a, b, s) && s'.lastNoise == s.lastNoise && s'.template == s.template
    ensures Remembers(c, a, b, s')
  {
    hide Leads, FirstHeader;
    var k: nat :| RemembersOf(c, a, k, b, s);
    assert RemembersOf(c, a, k, b, s');
  }

  lemma StoreRemembers<H(!new), P>(c: Config<H, P>, a: seq<Packet<H, P>>, s: State<H, P>, p: Packet<H, P>)
    requires PoolSized(c, s) && BatchOk(c, a, s.prebatch, s.pool[s.poolIdx]) && Remembers(c, a, s.prebatch, s)
    requires AllBelow(a, p.id) && Start(c, s.prebatch) <= p.id < Start(c, s.prebatch) + c.batchsize
    ensures Remembers(c, a + [p], s.prebatch, Store(c, s, p, s.prebatch, p.id - Start(c, s.prebatch)))
  {
    hide Start, Stored, CountIn, Leads, FirstHeader, Stamped, HoldsAll, Dated, Led, AllBelow;
    var b := s.prebatch;
    var s' := Store(c, s, p, b, p.id - Start(c, b));
    LastBatch(c, b, p.id);
    if s.pool[s.poolIdx].receivedCount == 0 {
      NewLeader(c, a, b, p);
      assert (a + [p])[|a|] == p;
      assert RemembersOf(c, a + [p], |a|, b, s');
    } else {
      var k: nat :| RemembersOf(c, a, k, b, s);
      SameLeader(c, a, b, k, p);
      assert (a + [p])[k] == a[k];
      assert RemembersOf(c, a + [p], k, b, s');
    }
  }

  lemma AdvanceOnePool<H(!new), P>(c: Config<H, P>, s: State<H, P>)
    requires PoolSized(c, s) && PoolKeeps(c.poolSize, s.pool, s.queue) && s.poolIdx == Place(|s.queue|, c.poolSize)
    ensures PoolKeeps(c.poolSize, AdvanceOne(c, s).pool, AdvanceOne(c, s).queue)
  {
    var s' := AdvanceOne(c, s);
    var n := |s.queue|;
    hide Finalized, Prepared;
    NextIndex(n, c.poolSize);
    hide Place;
    forall j: nat | n + 1 < j + c.poolSize && j < n + 1 ensures s'.pool[Place(j, c.poolSize)] == s'.queue[j] {
      PlacesDiffer(j, n + 1, c.poolSize);
      if j < n { PlacesDiffer(j, n, c.poolSize); }
    }
  }

  lemma AdvanceOneStale<H(!new), P>(c: Config<H, P>, s: State<H, P>)
    requires PoolSized(c, s) && PoolStale(c, s.pool, Start(c, s.prebatch) + c.batchsize)
    ensures PoolStale(c, AdvanceOne(c, s).pool, Start(c, s.prebatch + 1) + c.batchsize)
  {
    hide Start;
    StartNext(c, s.prebatch);
    var batch := s.pool[s.poolIdx];
    assert Finalized(c, batch).pktId == batch.pktId;
    assert Stale(c, Finalized(c, batch), Start(c, s.prebatch + 1));
    forall b: nat, q | 0 <= q < c.poolSize ensures Prepared(c, s, s.pool[q], b).pktId == s.pool[q].pktId {}
    hide Finalized, Prepared;
  }

  lemma {:induction false} AdvanceKeeps<H(!new), P>(c: Config<H, P>, a: seq<Packet<H, P>>, first: nat, s: State<H, P>,
                                                    target: nat)
    requires Mid(c, a, first, s) && ConfigOk(c) && s.prebatch <= target
    ensures var r := Advance(c, s, target);
            && Mid(c, a, first, r) && r.prebatch == target
            && r == s.(queue := r.queue, prebatch := r.prebatch, poolIdx := r.poolIdx, pool := r.pool)
    decreases target - s.prebatch
  {
    if s.prebatch < target {
      AdvanceOneKeeps(c, a, first, s);
      AdvanceKeeps(c, a, first, AdvanceOne(c, s), target);
    }
    hide Mid;
  }

  lemma StoreKeeps<H(!new), P>(c: Config<H, P>, a: seq<Packet<H, P>>, first: nat, s: State<H, P>, p: Packet<H, P>)
    requires Mid(c, a, first, s) && AllBelow(a, p.id)
    requires Start(c, s.prebatch) <= p.id < Start(c, s.prebatch) + c.batchsize
    ensures Mid(c, a + [p], first, Store(c, s, p, s.prebatch, p.id - Start(c, s.prebatch)))
  {
    hide Start, BatchOk, QueueOk, PoolStale, Place, Store, Stored, Remembers;
    var i := p.id - Start(c, s.prebatch);
    StoreRemembers(c, a, s, p);
    StoreEffect(c, s, p, s.prebatch, i);
    StoredOk(c, a, s.prebatch, s.pool[s.poolIdx], p);
    StorePoolStale(c, s, p, s.prebatch, i, Start(c, s.prebatch) + c.batchsize);
    QueueGrows(c, a, first, s.queue, p, s.prebatch);
  }

  lemma QueueGrows<H(!new), P>(c: Config<H, P>, a: seq<Packet<H, P>>, first: nat, queue: seq<Batch<H, P>>,
                               p: Packet<H, P>, b: nat)
    requires QueueOk(c, a, first, queue) && Start(c, b) <= p.id && b == first + |queue|
    ensures QueueOk(c, a + [p], first, queue)
  {
    hide Start, HandedOver;
    forall j | 0 <= j < |queue| ensures HandedOver(c, a + [p], first + j, queue[j]) {
      StartMonotone(c, first + j + 1, b);
      StartNext(c, first + j);
      HandedOverGrows(c, a, first + j, queue[j], p);
    }
  }

  lemma StorePoolStale<H(!new), P>(c: Config<H, P>, s: State<H, P>, p: Packet<H, P>, b: nat, i: nat, bound: nat)
    requires PoolSized(c, s) && PoolStale(c, s.pool, bound) && p.id < bound && i < c.batchsize
    ensures PoolStale(c, Store(c, s, p, b, i).pool, bound)
  {
    StoredStale(c, s.pool[s.poolIdx], p, b, i, bound);
    hide Stored, Stale;
  }

  lemma StorePool<H(!new), P>(c: Config<H, P>, s: State<H, P>, p: Packet<H, P>, b: nat, i: nat)
    requires PoolSized(c, s) && PoolKeeps(c.poolSize, s.pool, s.queue) && s.poolIdx == Place(|s.queue|, c.poolSize)
             && i < c.batchsize
    ensures PoolKeeps(c.poolSize, Store(c, s, p, b, i).pool, s.queue)
  {
    var s' := Store(c, s, p, b, i);
    hide Stored, Place;
    forall j: nat | |s.queue| < j + c.poolSize && j < |s.queue| ensures s'.pool[Place(j, c.poolSize)] == s'.queue[j] {
      PlacesDiffer(j, |s.queue|, c.poolSize);
    }
  }

  lemma StoredStale<H(!new), P>(c: Config<H, P>, batch: Batch<H, P>, p: Packet<H, P>, b: nat, i: nat, bound: nat)
    requires Sized(c, batch) && i < c.batchsize && Stale(c, batch, bound) && p.id < bound
    ensures Stale(c, Stored(c, batch, p, b, i), bound)
  {
    assert Stored(c, batch, p, b, i).pktId == batch.pktId[i := p.id];
  }

  /** The first packet taken, on untouched storage whose numbers are all zero. */
  lemma FirstBatchOk<H(!new), P>(c: Config<H, P>, s: State<H, P>, p: Packet<H, P>, b: nat)
    requires ConfigOk(c) && p.id == Start(c, b) && !s.haveTemplate
    ensures BatchOk(c, [p], b, Stored(c, Prepared(c, s, BlankBatch(c), b), p, b, 0))
  {
    hide Start;
    var batch := Stored(c, Prepared(c, s, BlankBatch(c), b), p, b, 0);
    assert CountIn([p], p.id, c.batchsize) == CountIn([p][..0], p.id, c.batchsize) + 1;
    assert batch.hdrs[0] == FirstHeader(c, p, b);
    assert [p][0].id == p.id;
    assert Stamped(c, [p], p.id, batch);
    assert HoldsAll(c, [p], p.id, batch);
    LastBatch(c, b, p.id);
    LeadsAlone(c.batchsize, p);
    assert LedBy(c, [p], 0, b, batch);
  }

  lemma LeadsAlone<H(!new), P>(size: nat, p: Packet<H, P>)
    requires size >= 1
    ensures Leads(size, [p], 0, p.id / size)
  {
    var q := p.id / size;
  }

  lemma BeginKeeps<H(!new), P>(c: Config<H, P>, p: Packet<H, P>, b: nat)
    requires ConfigOk(c) && p.id == Start(c, b)
    ensures var r := Store(c, Begin(c, Initial(c), p, b), p, b, 0);
            && Mid(c, [p], b, r) && r.expected == p.id + 1 && r.prebatch == b
            && r.lost == 0 && r.lossEvents == 0 && r.lateOrDuplicate == 0
  {
    hide Start, BatchOk, Leads;
    var s := Initial(c);
    FirstBatchOk(c, s, p, b);
    LastBatch(c, b, p.id);
    LeadsAlone(c.batchsize, p);
    var s' := Store(c, Begin(c, s, p, b), p, b, 0);
    assert RemembersOf(c, [p], 0, b, s');
    DivUnique(0, c.poolSize, 0, 0);
    assert Stale(c, BlankBatch(c), p.id + c.batchsize);
    assert Stored(c, Prepared(c, s, BlankBatch(c), b), p, b, 0).pktId == BlankBatch(c).pktId[0 := p.id];
    hide Stored, Prepared, BlankBatch;
  }

  // ------------------------------------------------------------------ every stream

  /** Sequence accounting after the given stream, with a the packets taken from it. */
  ghost predicate Counted<H(!new), P>(c: Config<H, P>, packets: seq<Packet<H, P>>, a: seq<Packet<H, P>>, s: State<H, P>)
    requires c.batchsize >= 1 && a != []
  {
    && s.expected == a[|a| - 1].id + 1
    && s.lost + |a| == s.expected - a[0].id
    && s.lossEvents == Gaps(a)
    && s.lateOrDuplicate + |a| == |packets| - FirstAligned(c.batchsize, packets)
    && Start(c, s.prebatch) <= a[|a| - 1].id
  }

  ghost predicate Inv<H(!new), P>(c: Config<H, P>, packets: seq<Packet<H, P>>, s: State<H, P>)
    requires c.batchsize >= 1
  {
    var a := Accepted(c.batchsize, packets);
    && Greatest(c.batchsize, packets, a)
    && (a == [] ==> s == Initial(c))
    && (a != [] ==> Counted(c, packets, a, s) && Mid(c, a, a[0].id / c.batchsize, s))
  }

  lemma IdSplits<H(!new), P>(c: Config<H, P>, id: nat)
    requires c.batchsize >= 1
    ensures Start(c, id / c.batchsize) + id % c.batchsize == id && id % c.batchsize < c.batchsize
  {
  }

  lemma BatchNotBefore<H(!new), P>(c: Config<H, P>, b: nat, id: nat)
    requires c.batchsize >= 1 && Start(c, b) <= id
    ensures b <= id / c.batchsize
  {
    IdSplits(c, id);
    if id / c.batchsize < b {
      StartNext(c, id / c.batchsize);
      StartMonotone(c, id / c.batchsize + 1, b);
    }
  }

  lemma FirstPacketKeeps<H(!new), P>(c: Config<H, P>, packets: seq<Packet<H, P>>, s: State<H, P>)
    requires ConfigOk(c) && packets != [] && Inv(c, packets[..|packets| - 1], s)
    requires Accepted(c.batchsize, packets[..|packets| - 1]) == []
    ensures Inv(c, packets, Receive(c, s, packets[|packets| - 1]))
  {
    hide Start, Mid, Store, Begin, Greatest, Initial;
    var n := |packets| - 1;
    var p := packets[n];
    GreatestNext(c.batchsize, packets, []);
    NoneYet(c.batchsize, packets);
    InitialIs(c);
    if p.id % c.batchsize == 0 {
      IdSplits(c, p.id);
      BeginKeeps(c, p, p.id / c.batchsize);
      assert Accepted(c.batchsize, packets) == [p];
    }
  }

  /** With nothing taken before it, a packet is taken exactly when it opens a batch. */
  lemma NoneYet<H(!new), P>(size: nat, packets: seq<Packet<H, P>>)
    requires size >= 1 && packets != [] && Greatest(size, packets[..|packets| - 1], [])
    ensures var n := |packets| - 1;
            && (Taken(size, packets, n) <==> packets[n].id % size == 0)
            && (Taken(size, packets, n) ==> FirstAligned(size, packets) == n)
  {
  }

  lemma InitialIs<H(!new), P>(c: Config<H, P>)
    ensures var s := Initial(c);
              s.expected == 0 && s.lost == 0 && s.lossEvents == 0 && s.lateOrDuplicate == 0 && s.queue == []
  {
  }

  lemma LatePacketKeeps<H(!new), P>(c: Config<H, P>, packets: seq<Packet<H, P>>, s: State<H, P>)
    requires ConfigOk(c) && packets != [] && Inv(c, packets[..|packets| - 1], s)
    requires Accepted(c.batchsize, packets[..|packets| - 1]) != [] && packets[|packets| - 1].id < s.expected
    ensures Inv(c, packets, Receive(c, s, packets[|packets| - 1]))
  {
    hide Mid, FirstAligned, Start, Taken, Greatest;
    var n := |packets| - 1;
    var a := Accepted(c.batchsize, packets[..n]);
    TakenNext(c.batchsize, packets, a);
    GreatestNext(c.batchsize, packets, a);
    MidSized(c, a, a[0].id / c.batchsize, s);
    LateMid(c, a, a[0].id / c.batchsize, s);
    assert Accepted(c.batchsize, packets) == a;
  }

  lemma LateMid<H(!new), P>(c: Config<H, P>, a: seq<Packet<H, P>>, first: nat, s: State<H, P>)
    requires Mid(c, a, first, s)
    ensures Mid(c, a, first, s.(lateOrDuplicate := s.lateOrDuplicate + 1))
  {
    hide BatchOk, QueueOk, PoolStale, Place, Start, Remembers;
    RemembersSame(c, a, s.prebatch, s, s.(lateOrDuplicate := s.lateOrDuplicate + 1));
  }

  /** The batches after a packet beyond the last one taken. */
  lemma NextPacketMid<H(!new), P>(c: Config<H, P>, a: seq<Packet<H, P>>, first: nat, s: State<H, P>, p: Packet<H, P>)
    requires ConfigOk(c) && Mid(c, a, first, s) && AllBelow(a, p.id) && 0 < s.expected <= p.id
    requires Start(c, s.prebatch) <= p.id
    ensures var r := Receive(c, s, p);
            && Mid(c, a + [p], first, r) && Start(c, r.prebatch) <= p.id
            && r.expected == p.id + 1 && r.lost == s.lost + (p.id - s.expected)
            && r.lossEvents == s.lossEvents + (if p.id > s.expected then 1 else 0)
            && r.lateOrDuplicate == s.lateOrDuplicate
  {
    hide BatchOk, QueueOk, PoolStale, Place, Start, Store, Advance, Remembers;
    var b := p.id / c.batchsize;
    IdSplits(c, p.id);
    BatchNotBefore(c, s.prebatch, p.id);
    var s1 := Expect(s, p);
    RemembersSame(c, a, s.prebatch, s, s1);
    assert Mid(c, a, first, s1);
    AdvanceKeeps(c, a, first, s1, b);
    var s2 := Advance(c, s1, b);
    StoreKeeps(c, a, first, s2, p);
    StoreEffect(c, s2, p, b, p.id % c.batchsize);
  }

  lemma NextPacketKeeps<H(!new), P>(c: Config<H, P>, packets: seq<Packet<H, P>>, s: State<H, P>)
    requires ConfigOk(c) && packets != [] && Inv(c, packets[..|packets| - 1], s)
    requires Accepted(c.batchsize, packets[..|packets| - 1]) != [] && packets[|packets| - 1].id >= s.expected
    ensures Inv(c, packets, Receive(c, s, packets[|packets| - 1]))
  {
    hide Mid, FirstAligned, Start, Receive, Greatest, Taken;
    var n := |packets| - 1;
    var p := packets[n];
    var a := Accepted(c.batchsize, packets[..n]);
    TakenNext(c.batchsize, packets, a);
    GreatestNext(c.batchsize, packets, a);
    assert Accepted(c.batchsize, packets) == a + [p];
    AcceptedBelow(c.batchsize, packets[..n], p.id);
    MidSized(c, a, a[0].id / c.batchsize, s);
    NextPacketMid(c, a, a[0].id / c.batchsize, s, p);
    assert (a + [p])[..|a|] == a;
    hide Accepted;
  }

  lemma MidSized<H(!new), P>(c: Config<H, P>, a: seq<Packet<H, P>>, first: nat, s: State<H, P>)
    requires Mid(c, a, first, s)
    ensures PoolSized(c, s)
  {
  }

  lemma AcceptedBelow<H(!new), P>(size: nat, packets: seq<Packet<H, P>>, id: nat)
    requires size >= 1 && Greatest(size, packets, Accepted(size, packets))
    ensures var a := Accepted(size, packets); a != [] && a[|a| - 1].id < id ==> AllBelow(a, id)
  {
  }

  lemma StoreEffect<H(!new), P>(c: Config<H, P>, s: State<H, P>, p: Packet<H, P>, b: nat, i: nat)
    requires PoolSized(c, s) && i < c.batchsize
    ensures var r := Store(c, s, p, b, i);
            && r.expected == s.expected && r.lost == s.lost && r.lossEvents == s.lossEvents
            && r.lateOrDuplicate == s.lateOrDuplicate && r.prebatch == s.prebatch && r.queue == s.queue
            && r.poolIdx == s.poolIdx && (s.haveTemplate ==> r.haveTemplate)
            && r.pool[r.poolIdx] == Stored(c, s.pool[s.poolIdx], p, b, i)
  {
  }

  lemma {:induction false} ReceiveAllOk<H(!new), P>(c: Config<H, P>, packets: seq<Packet<H, P>>)
    requires ConfigOk(c)
    ensures Inv(c, packets, ReceiveAll(c, packets))
    decreases |packets|
  {
    if packets != [] {
      var n := |packets| - 1;
      ReceiveAllOk(c, packets[..n]);
      var s := ReceiveAll(c, packets[..n]);
      hide Inv;
      if Accepted(c.batchsize, packets[..n]) == [] {
        FirstPacketKeeps(c, packets, s);
      } else if packets[n].id < s.expected {
        LatePacketKeeps(c, packets, s);
      } else {
        NextPacketKeeps(c, packets, s);
      }
    }
  }

  // ------------------------------------------------------------------ the pool

  /** The current slot follows the last one handed over, and slots not yet reused are as they were. */
  ghost predicate PoolOk<H(!new), P>(c: Config<H, P>, s: State<H, P>) {
    PoolSized(c, s) && s.poolIdx == Place(|s.queue|, c.poolSize) && PoolKeeps(c.poolSize, s.pool, s.queue)
  }

  lemma AdvanceOneKeepsPool<H(!new), P>(c: Config<H, P>, s: State<H, P>)
    requires PoolOk(c, s)
    ensures PoolOk(c, AdvanceOne(c, s))
  {
    hide Finalized, Prepared, PoolKeeps, Place;
    NextIndex(|s.queue|, c.poolSize);
    AdvanceOnePool(c, s);
  }

  lemma {:induction false} AdvanceKeepsPool<H(!new), P>(c: Config<H, P>, s: State<H, P>, target: nat)
    requires PoolOk(c, s)
    ensures PoolOk(c, Advance(c, s, target))
    decreases target - s.prebatch
  {
    if s.prebatch < target {
      AdvanceOneKeepsPool(c, s);
      AdvanceKeepsPool(c, AdvanceOne(c, s), target);
    }
  }

  lemma StoreKeepsPool<H(!new), P>(c: Config<H, P>, s: State<H, P>, p: Packet<H, P>, b: nat, i: nat)
    requires PoolOk(c, s) && i < c.batchsize
    ensures PoolOk(c, Store(c, s, p, b, i))
  {
    hide Store, PoolKeeps, Place;
    StorePool(c, s, p, b, i);
    StoreEffect(c, s, p, b, i);
  }

  lemma BeginPool<H(!new), P>(c: Config<H, P>, s: State<H, P>, p: Packet<H, P>, b: nat)
    requires PoolOk(c, s)
    ensures PoolOk(c, Begin(c, s, p, b))
  {
    var s' := Begin(c, s, p, b);
    hide Prepared, Place;
    forall j: nat | |s.queue| < j + c.poolSize && j < |s.queue|
      ensures s'.pool[Place(j, c.poolSize)] == s'.queue[j]
    {
      PlacesDiffer(j, |s.queue|, c.poolSize);
    }
  }

  lemma ReceiveKeepsPool<H(!new), P>(c: Config<H, P>, s: State<H, P>, p: Packet<H, P>)
    requires PoolOk(c, s)
    ensures PoolOk(c, Receive(c, s, p))
  {
    hide PoolKeeps, Store, Advance, Place, Begin;
    var b := p.id / c.batchsize;
    if s.expected == 0 {
      BeginPool(c, s, p, b);
      StoreKeepsPool(c, Begin(c, s, p, b), p, b, p.id % c.batchsize);
    } else if p.id >= s.expected {
      AdvanceKeepsPool(c, Expect(s, p), b);
      StoreKeepsPool(c, Advance(c, Expect(s, p), b), p, b, p.id % c.batchsize);
    }
  }

  lemma {:induction false} ReceiveAllPool<H(!new), P>(c: Config<H, P>, packets: seq<Packet<H, P>>)
    requires ConfigOk(c)
    ensures PoolOk(c, ReceiveAll(c, packets))
    decreases |packets|
  {
    if packets == [] {
      DivUnique(0, c.poolSize, 0, 0);
    } else {
      hide PoolOk, Receive;
      var n := |packets| - 1;
      ReceiveAllPool(c, packets[..n]);
      ReceiveKeepsPool(c, ReceiveAll(c, packets[..n]), packets[n]);
    }
  }

  /**
    Whatever the stream: batch numbers run consecutively from the first packet taken, every
    taken or skipped number is accounted for, each batch handed over counts, stores and
    marks exactly the packets taken in its range, and stays as it was handed over until
    its slot comes round again.
   */
  lemma BatchAssemblyIsExact<H(!new), P>(c: Config<H, P>, packets: seq<Packet<H, P>>)
    requires ConfigOk(c)
    ensures var a, s := Accepted(c.batchsize, packets), ReceiveAll(c, packets);
            && Increasing(a)
            && (a == [] ==> s.queue == [] && s.lost == 0 && s.lateOrDuplicate == 0)
            && (a != [] ==>
              var first := a[0].id / c.batchsize;
              && a[0].id == Start(c, first)
              && |a| + s.lost == a[|a| - 1].id + 1 - a[0].id && s.expected == a[|a| - 1].id + 1
              && |a| + s.lateOrDuplicate == |packets| - FirstAligned(c.batchsize, packets)
              && s.lossEvents == Gaps(a)
              && |s.queue| == a[|a| - 1].id / c.batchsize - first
              && (forall j :: 0 <= j < |s.queue| ==> HandedOver(c, a, first + j, s.queue[j]))
              && s.poolIdx == Place(|s.queue|, c.poolSize) && PoolKeeps(c.poolSize, s.pool, s.queue))
  {
    hide HandedOver, BatchOk, PoolStale, PoolKeeps, Start, Accepted, ReceiveAll, FirstAligned, Place;
    ReceiveAllOk(c, packets);
    ReceiveAllPool(c, packets);
    var a, s := Accepted(c.batchsize, packets), ReceiveAll(c, packets);
    if a != [] {
      LastBatch(c, s.prebatch, a[|a| - 1].id);
      FirstOpens(c, packets);
    }
  }

  /** One batch handed over. */
  lemma QueueEntry<H(!new), P>(c: Config<H, P>, packets: seq<Packet<H, P>>, j: nat)
    requires ConfigOk(c) && j < |ReceiveAll(c, packets).queue|
    ensures var a := Accepted(c.batchsize, packets);
            && a != [] && a[0].id == Start(c, a[0].id / c.batchsize)
            && HandedOver(c, a, a[0].id / c.batchsize + j, ReceiveAll(c, packets).queue[j])
            && Sized(c, ReceiveAll(c, packets).queue[j])
  {
    hide ReceiveAll, Accepted, PoolKeeps, Gaps, FirstAligned, Increasing, Start, Stamped, HoldsAll, Padded, HasAll,
         CountIn;
    BatchAssemblyIsExact(c, packets);
  }

  lemma LastBatch<H(!new), P>(c: Config<H, P>, b: nat, id: nat)
    requires c.batchsize >= 1
    ensures Start(c, b) <= id < Start(c, b) + c.batchsize ==> id / c.batchsize == b
  {
    if Start(c, b) <= id < Start(c, b) + c.batchsize { DivUnique(id, c.batchsize, b, id - Start(c, b)); }
  }

  lemma FirstOpens<H(!new), P>(c: Config<H, P>, packets: seq<Packet<H, P>>)
    requires c.batchsize >= 1 && Accepted(c.batchsize, packets) != []
    ensures var id := Accepted(c.batchsize, packets)[0].id; id == Start(c, id / c.batchsize)
  {
    AcceptedGreatest(c.batchsize, packets);
    IdSplits(c, Accepted(c.batchsize, packets)[0].id);
  }
}
