/**
  The receiver and its queue together. The receive loop passes pool slots to its consumer
  through the blocking circular buffer, and its steps interleave with every step inside the
  buffer and with the consumer's, which may overwrite the payloads of the batch it holds.
 */
module BatchPipeline {
  import opened Bits
  import opened BatchAssembly
  import opened BatchAcceptance
  import BC = BatchCorrectness
  import BP = BatchPool
  import CB = CircularBuffer

  /** Where the receive loop stands. */
  datatype Phase<H, P> =
    | Ready                                    // between packets
    | Advancing(p: Packet<H, P>, b: nat)       // accepted p of batch b, closing the batches before it
    | Offered(p: Packet<H, P>, b: nat)         // inside try_enqueue or wait_enqueue

  /** The loop, the queue of slot numbers, and the packets taken from the network so far. */
  datatype Pipeline<H, P> = Pipeline(
    recv: State<H, P>, phase: Phase<H, P>, buffer: CB.Buffer<nat>, arrived: seq<Packet<H, P>>)

  datatype Action<H, P> =
    | Arrive(p: Packet<H, P>)
    | Offer                                    // finalize the batch and call try_enqueue
    | Insist                                   // try_enqueue failed: call wait_enqueue
    | MoveOn                                   // enqueued: on to the next slot
    | Keep                                     // store the accepted packet
    | QueueStep(luck: bool)                    // a step inside the enqueue call
    | Dequeue(patience: CB.Patience)           // the consumer is done with its batch and asks for one
    | ConsumerStep(luck: bool)
    | Overwrite(payloads: seq<P>)              // the consumer changes the payloads of its batch in place

  /** The slot of the batch the consumer has taken and not yet given up. */
  function Held(b: CB.Buffer<nat>): nat {
    if b.consumer.CGot? then b.consumer.value else 0
  }

  function WithPayloads<H, P>(s: State<H, P>, slot: nat, payloads: seq<P>): State<H, P>
    requires slot < |s.pool|
  {
    s.(pool := s.pool[slot := s.pool[slot].(buffer := payloads)])
  }

  /** The first half of a turn of the advancing loop: the batch as it is handed over. */
  function HandOver<H, P>(c: Config<H, P>, s: State<H, P>): (r: State<H, P>)
    requires PoolSized(c, s)
    ensures PoolSized(c, r)
  {
    var done := Finalized(c, s.pool[s.poolIdx]);
    s.(queue := s.queue + [done], pool := s.pool[s.poolIdx := done])
  }

  /** The second half: the next slot prepared. */
  function NextSlot<H, P>(c: Config<H, P>, s: State<H, P>): (r: State<H, P>)
    requires PoolSized(c, s)
    ensures PoolSized(c, r)
  {
    var next := if s.poolIdx + 1 >= c.poolSize then 0 else s.poolIdx + 1;
    s.(prebatch := s.prebatch + 1, poolIdx := next,
       pool := s.pool[next := Prepared(c, s, s.pool[next], s.prebatch + 1)])
  }

  lemma HalvesMakeTurn<H, P>(c: Config<H, P>, s: State<H, P>)
    requires PoolSized(c, s)
    ensures NextSlot(c, HandOver(c, s)) == AdvanceOne(c, s)
  {
    hide Finalized;
  }

  function Step<H, P>(c: Config<H, P>, w: Pipeline<H, P>, a: Action<H, P>): (r: Pipeline<H, P>)
    requires PoolSized(c, w.recv)
    ensures PoolSized(c, r.recv)
  {
    match a
    case Arrive(p) =>
      if !w.phase.Ready? then w
      else if 0 < w.recv.expected <= p.id
      then w.(recv := Expect(w.recv, p), phase := Advancing(p, p.id / c.batchsize), arrived := w.arrived + [p])
      else w.(recv := Receive(c, w.recv, p), arrived := w.arrived + [p])
    case Offer =>
      if w.phase.Advancing? && w.recv.prebatch < w.phase.b
      then w.(recv := HandOver(c, w.recv), phase := Offered(w.phase.p, w.phase.b),
              buffer := CB.Step(w.buffer, CB.Enqueue(w.recv.poolIdx, CB.Try)))
      else w
    case Insist =>
      if w.phase.Offered? && w.buffer.producer.PRefused?
      then w.(buffer := CB.Step(w.buffer, CB.Enqueue(w.recv.poolIdx, CB.Forever))) else w
    case MoveOn =>
      if w.phase.Offered? && w.buffer.producer.PIdle?
      then w.(recv := NextSlot(c, w.recv), phase := Advancing(w.phase.p, w.phase.b)) else w
    case Keep =>
      if w.phase.Advancing? && w.recv.prebatch >= w.phase.b
      then w.(recv := Store(c, w.recv, w.phase.p, w.phase.b, w.phase.p.id % c.batchsize), phase := Ready) else w
    case QueueStep(luck) => w.(buffer := CB.Step(w.buffer, CB.ProducerStep(luck)))
    case Dequeue(patience) => w.(buffer := CB.Step(w.buffer, CB.Dequeue(patience)))
    case ConsumerStep(luck) => w.(buffer := CB.Step(w.buffer, CB.ConsumerStep(luck)))
    case Overwrite(payloads) =>
      if w.buffer.consumer.CGot? && Held(w.buffer) < c.poolSize && |payloads| == c.batchsize
      then w.(recv := WithPayloads(w.recv, Held(w.buffer), payloads)) else w
  }

  function Run<H, P>(c: Config<H, P>, w: Pipeline<H, P>, actions: seq<Action<H, P>>): (r: Pipeline<H, P>)
    requires PoolSized(c, w.recv)
    ensures PoolSized(c, r.recv)
    decreases actions
  {
    if actions == [] then w else Run(c, Step(c, w, actions[0]), actions[1..])
  }

  /** Before the first packet, with a queue of two places fewer than the pool has slots. */
  function Launch<H, P>(c: Config<H, P>, mask: nat): Pipeline<H, P>
    requires c.poolSize >= 2
  {
    Pipeline(Initial(c), Ready, CB.Empty(c.poolSize - 2, mask, c.poolSize - 2, mask + 1), [])
  }

  // ------------------------------------------------------------------ the queue's side

  /** The j-th slot passed is the j-th in round-robin order, and so is the one being passed. */
  ghost predicate InOrder(b: CB.Buffer<nat>, pool: nat) {
    && pool >= 1 && (forall j: nat :: j < |b.sent| ==> b.sent[j] == Place(j, pool))
    && (b.producer.PWaiting? || b.producer.PIndex? || b.producer.PWrite? ==> b.producer.item == Place(|b.sent|, pool))
  }

  /** The call has put its item into the queue. */
  predicate Passed(p: CB.Producer<nat>) { p.PSignal? || p.PSignalling? || p.PIdle? }

  lemma QueueKeepsOrder(b: CB.Buffer<nat>, pool: nat, a: CB.Action<nat>)
    requires InOrder(b, pool) && CB.Inv(b)
    requires a.Enqueue? && CB.PResting(b.producer) ==> a.item == Place(|b.sent|, pool)
    ensures InOrder(CB.Step(b, a), pool)
  {
    hide CB.S.Step, Place, CB.Wrap, And, CB.Inv;
  }

  /** A step of the call moves the item into the queue once, and only once. */
  lemma CallProgress(b: CB.Buffer<nat>, luck: bool)
    requires CB.Inv(b) && !b.producer.PIdle?
    ensures var b' := CB.Step(b, CB.ProducerStep(luck));
            && (Passed(b'.producer) <==> Passed(b.producer) || b.producer.PWrite?)
            && |b'.sent| == |b.sent| + (if b.producer.PWrite? then 1 else 0)
            && (b.producer.PRefused? ==> b' == b)
  {
    CB.StepKeeps(b, CB.ProducerStep(luck));
    assert !CB.Step(b, CB.ProducerStep(luck)).fault;
    hide CB.S.Step, CB.Wrap, And, CB.Inv;
  }

  lemma OtherThread(b: CB.Buffer<nat>, a: CB.Action<nat>)
    requires CB.Inv(b) && (a.Dequeue? || a.ConsumerStep?)
    ensures CB.Step(b, a).producer == b.producer && CB.Step(b, a).sent == b.sent
    ensures |CB.Step(b, a).received| >= |b.received|
  {
    hide CB.S.Step, CB.Wrap, And, CB.Inv;
  }

  lemma ReceivedSame(b: CB.Buffer<nat>, a: CB.Action<nat>)
    requires a.Enqueue? || a.ProducerStep?
    ensures CB.Step(b, a).received == b.received
  {
    hide CB.S.Step, CB.Wrap, And;
  }

  // ------------------------------------------------------------------ the pool's side

  /** The batch in a slot, exactly or up to the payloads its consumer may have changed. */
  predicate Matches<H(==), P(==)>(batch: Batch<H, P>, handed: Batch<H, P>, exactly: bool) {
    if exactly then batch == handed else batch.(buffer := handed.buffer) == handed
  }

  /**
    Batches handed over from number low on are in their slots as they were handed over,
    those the consumer has taken up to their payloads.
   */
  ghost predicate Intact<H, P>(size: nat, pool: seq<Batch<H, P>>, queue: seq<Batch<H, P>>, low: int, taken: nat) {
    && size >= 1 && |pool| == size
    && forall j: nat {:trigger Place(j, size)} :: low <= j < |queue| ==>
         Matches(pool[Place(j, size)], queue[j], j >= taken)
  }

  /** Writing the slot of number n disturbs none of the batches less than a round before it. */
  lemma WriteNext<H, P>(size: nat, pool: seq<Batch<H, P>>, queue: seq<Batch<H, P>>, taken: nat, n: nat,
                        batch: Batch<H, P>)
    requires Intact(size, pool, queue, n - size + 1, taken) && |queue| <= n
    ensures Intact(size, pool[Place(n, size) := batch], queue, n - size + 1, taken)
  {
    hide Place, Matches;
    forall j: nat | n - size + 1 <= j < |queue| ensures Place(j, size) != Place(n, size) {
      PlacesDiffer(j, n, size);
    }
  }

  lemma IntactFrom<H, P>(size: nat, pool: seq<Batch<H, P>>, queue: seq<Batch<H, P>>, low: int, taken: nat, low': int,
                         taken': nat)
    requires Intact(size, pool, queue, low, taken) && low <= low' && taken <= taken'
    ensures Intact(size, pool, queue, low', taken')
  {
  }

  /** Payloads written into the slot of a batch already taken. */
  lemma OverwriteIntact<H, P>(c: Config<H, P>, s: State<H, P>, low: int, taken: nat, j: nat, payloads: seq<P>)
    requires PoolSized(c, s) && Intact(c.poolSize, s.pool, s.queue, low, taken) && |s.queue| <= low + c.poolSize
    requires low <= j < taken && j < |s.queue|
    ensures Intact(c.poolSize, WithPayloads(s, Place(j, c.poolSize), payloads).pool, s.queue, low, taken)
  {
    hide Place;
    forall k: nat | low <= k < |s.queue| && k != j ensures Place(k, c.poolSize) != Place(j, c.poolSize) {
      if k < j { PlacesDiffer(k, j, c.poolSize); } else { PlacesDiffer(j, k, c.poolSize); }
    }
  }

  lemma HandOverIntact<H, P>(c: Config<H, P>, s: State<H, P>, taken: nat)
    requires PoolSized(c, s) && s.poolIdx == Place(|s.queue|, c.poolSize)
    requires Intact(c.poolSize, s.pool, s.queue, |s.queue| - c.poolSize + 1, taken)
    ensures var r := HandOver(c, s);
            Intact(c.poolSize, r.pool, r.queue, |r.queue| - c.poolSize, taken)
              && r.poolIdx == Place(|r.queue| - 1, c.poolSize)
  {
    hide Finalized, Place;
    WriteNext(c.poolSize, s.pool, s.queue, taken, |s.queue|, Finalized(c, s.pool[s.poolIdx]));
  }

  lemma NextSlotIntact<H(!new), P>(c: Config<H, P>, s: State<H, P>, taken: nat)
    requires PoolSized(c, s) && |s.queue| >= 1 && s.poolIdx == Place(|s.queue| - 1, c.poolSize)
    requires Intact(c.poolSize, s.pool, s.queue, |s.queue| - c.poolSize, taken)
    ensures var r := NextSlot(c, s);
            Intact(c.poolSize, r.pool, r.queue, |r.queue| - c.poolSize + 1, taken)
              && r.poolIdx == Place(|r.queue|, c.poolSize)
  {
    hide Prepared, Place, Matches;
    BC.NextIndex(|s.queue| - 1, c.poolSize);
    IntactFrom(c.poolSize, s.pool, s.queue, |s.queue| - c.poolSize, taken, |s.queue| - c.poolSize + 1, taken);
    WriteNext(c.poolSize, s.pool, s.queue, taken, |s.queue|, NextSlot(c, s).pool[NextSlot(c, s).poolIdx]);
  }

  /** A change of the current slot alone. */
  lemma CurrentSlotIntact<H, P>(c: Config<H, P>, s: State<H, P>, r: State<H, P>, taken: nat)
    requires PoolSized(c, s) && s.poolIdx == Place(|s.queue|, c.poolSize)
    requires Intact(c.poolSize, s.pool, s.queue, |s.queue| - c.poolSize + 1, taken)
    requires r.queue == s.queue && r.poolIdx == s.poolIdx && PoolSized(c, r)
    requires r.pool == s.pool[s.poolIdx := r.pool[s.poolIdx]]
    ensures Intact(c.poolSize, r.pool, r.queue, |r.queue| - c.poolSize + 1, taken)
  {
    hide Place;
    WriteNext(c.poolSize, s.pool, s.queue, taken, |s.queue|, r.pool[s.poolIdx]);
  }

  lemma QuietReceive<H, P>(c: Config<H, P>, s: State<H, P>, p: Packet<H, P>)
    requires PoolSized(c, s) && !(0 < s.expected <= p.id)
    ensures var r := Receive(c, s, p);
            r.queue == s.queue && r.poolIdx == s.poolIdx && r.pool == s.pool[s.poolIdx := r.pool[s.poolIdx]]
  {
    hide Prepared, Stored;
  }

  lemma StoreQuiet<H, P>(c: Config<H, P>, s: State<H, P>, p: Packet<H, P>, b: nat, i: nat)
    requires PoolSized(c, s) && i < c.batchsize
    ensures var r := Store(c, s, p, b, i);
            r.queue == s.queue && r.poolIdx == s.poolIdx && r.pool == s.pool[s.poolIdx := r.pool[s.poolIdx]]
  {
    hide Stored;
  }

  // ------------------------------------------------------------------ the accounting

  /** A batch has just been handed over, and its slot not yet left. */
  ghost predicate HandedOut<H(!new), P>(c: Config<H, P>, a: seq<Packet<H, P>>, first: nat, s: State<H, P>) {
    && PoolSized(c, s) && s.haveTemplate
    && |s.queue| >= 1 && s.prebatch + 1 == first + |s.queue| && s.poolIdx == Place(|s.queue| - 1, c.poolSize)
    && BC.PoolStale(c, s.pool, Start(c, s.prebatch) + c.batchsize)
    && BC.QueueOk(c, a, first, s.queue) && BC.Remembers(c, a, s.prebatch, s)
    && BC.AllBelow(a, Start(c, s.prebatch) + c.batchsize) && Increasing(a)
  }

  lemma HandOverOk<H(!new), P>(c: Config<H, P>, a: seq<Packet<H, P>>, first: nat, s: State<H, P>)
    requires BC.Mid(c, a, first, s)
    ensures HandedOut(c, a, first, HandOver(c, s))
  {
    BC.FinalizedOk(c, a, s.prebatch, s.pool[s.poolIdx]);
    FinalizedIds(c, s.pool[s.poolIdx]);
    BC.RemembersSame(c, a, s.prebatch, s, HandOver(c, s));
    hide Start, BC.BatchOk, BC.HandedOver, Finalized, Place, BC.Remembers;
  }

  lemma FinalizedIds<H, P>(c: Config<H, P>, batch: Batch<H, P>)
    requires Sized(c, batch)
    ensures Finalized(c, batch).pktId == batch.pktId
  {
  }

  lemma NextSlotOk<H(!new), P>(c: Config<H, P>, a: seq<Packet<H, P>>, first: nat, s: State<H, P>)
    requires HandedOut(c, a, first, s)
    ensures BC.Mid(c, a, first, NextSlot(c, s)) && NextSlot(c, s).prebatch == s.prebatch + 1
  {
    hide Start, BC.BatchOk, BC.HandedOver, Prepared, Place, BC.Remembers;
    var r := NextSlot(c, s);
    BC.NextIndex(|s.queue| - 1, c.poolSize);
    StartNext(c, s.prebatch);
    BC.RemembersNext(c, a, s.prebatch, s);
    BC.RemembersSame(c, a, s.prebatch + 1, s, r);
    assert BC.Stale(c, s.pool[r.poolIdx], Start(c, s.prebatch + 1));
    BC.PreparedOk(c, a, s, s.pool[r.poolIdx], s.prebatch + 1);
    PreparedIds(c, s, s.pool[r.poolIdx], s.prebatch + 1);
  }

  lemma PreparedIds<H, P>(c: Config<H, P>, s: State<H, P>, stale: Batch<H, P>, b: nat)
    requires Sized(c, stale) && c.batchsize >= 1
    ensures Prepared(c, s, stale, b).pktId == stale.pktId
  {
  }

  /** Payloads of another slot do not matter to the batch being filled. */
  lemma OverwriteMid<H(!new), P>(c: Config<H, P>, a: seq<Packet<H, P>>, first: nat, s: State<H, P>, slot: nat,
                                 payloads: seq<P>)
    requires BC.Mid(c, a, first, s) && slot < c.poolSize && slot != s.poolIdx && |payloads| == c.batchsize
    ensures BC.Mid(c, a, first, WithPayloads(s, slot, payloads))
  {
    hide Start, BC.BatchOk, BC.HandedOver, Place, BC.Remembers;
    BC.RemembersSame(c, a, s.prebatch, s, WithPayloads(s, slot, payloads));
  }

  lemma OverwriteHandedOut<H(!new), P>(c: Config<H, P>, a: seq<Packet<H, P>>, first: nat, s: State<H, P>, slot: nat,
                                       payloads: seq<P>)
    requires HandedOut(c, a, first, s) && slot < c.poolSize && |payloads| == c.batchsize
    ensures HandedOut(c, a, first, WithPayloads(s, slot, payloads))
  {
    hide Start, BC.HandedOver, Place, BC.Remembers;
    BC.RemembersSame(c, a, s.prebatch, s, WithPayloads(s, slot, payloads));
  }

  /** The counters after a packet is accepted, before it is stored. */
  ghost predicate Expected<H(!new), P>(c: Config<H, P>, packets: seq<Packet<H, P>>, a: seq<Packet<H, P>>,
                                       s: State<H, P>)
    requires c.batchsize >= 1 && a != []
  {
    && s.expected == a[|a| - 1].id + 1
    && s.lost + |a| == s.expected - a[0].id
    && s.lossEvents == Gaps(a)
    && s.lateOrDuplicate + |a| == |packets| - FirstAligned(c.batchsize, packets)
  }

  /** The packet in hand is the last to arrive and is taken; `before` were taken earlier. */
  ghost predicate InHand<H(!new), P>(c: Config<H, P>, arrived: seq<Packet<H, P>>, p: Packet<H, P>, b: nat,
                                     before: seq<Packet<H, P>>)
    requires c.batchsize >= 1
  {
    && before != [] && Accepted(c.batchsize, arrived) == before + [p] && b == p.id / c.batchsize
    && Greatest(c.batchsize, arrived, before + [p]) && BC.AllBelow(before, p.id)
  }

  function Before<H, P>(a: seq<Packet<H, P>>): seq<Packet<H, P>> { if a == [] then [] else a[..|a| - 1] }

  /** The receive loop's accounting, at every point of the loop. */
  ghost predicate Accounted<H(!new), P>(c: Config<H, P>, w: Pipeline<H, P>)
    requires c.batchsize >= 1
  {
    var a := Accepted(c.batchsize, w.arrived);
    match w.phase
    case Ready => BC.Inv(c, w.arrived, w.recv)
    case Advancing(p, b) =>
      && a != [] && InHand(c, w.arrived, p, b, Before(a)) && Expected(c, w.arrived, a, w.recv)
      && BC.Mid(c, Before(a), a[0].id / c.batchsize, w.recv) && w.recv.prebatch <= b
    case Offered(p, b) =>
      && a != [] && InHand(c, w.arrived, p, b, Before(a)) && Expected(c, w.arrived, a, w.recv)
      && HandedOut(c, Before(a), a[0].id / c.batchsize, w.recv) && w.recv.prebatch < b
  }

  // ------------------------------------------------------------------ together

  ghost predicate QueueSide<H, P>(c: Config<H, P>, w: Pipeline<H, P>) {
    && CB.Inv(w.buffer) && w.buffer.maxcap + 2 == c.poolSize && InOrder(w.buffer, c.poolSize)
    && (!w.phase.Offered? ==> CB.PResting(w.buffer.producer) && |w.buffer.sent| == |w.recv.queue|)
    && (w.phase.Offered? ==> |w.buffer.sent| == |w.recv.queue| - (if Passed(w.buffer.producer) then 0 else 1))
  }

  /** The oldest number whose slot is still as it was. */
  function Oldest<H, P>(c: Config<H, P>, w: Pipeline<H, P>): int {
    |w.recv.queue| - c.poolSize + if w.phase.Offered? then 0 else 1
  }

  ghost predicate PoolSide<H, P>(c: Config<H, P>, w: Pipeline<H, P>) {
    && PoolSized(c, w.recv) && c.poolSize >= 2
    && Intact(c.poolSize, w.recv.pool, w.recv.queue, Oldest(c, w), |w.buffer.received|)
    && (!w.phase.Offered? ==> w.recv.poolIdx == Place(|w.recv.queue|, c.poolSize))
    && (w.phase.Offered? ==> |w.recv.queue| >= 1 && w.recv.poolIdx == Place(|w.recv.queue| - 1, c.poolSize))
  }

  ghost predicate Inv<H(!new), P>(c: Config<H, P>, w: Pipeline<H, P>) {
    PoolSide(c, w) && QueueSide(c, w) && Accounted(c, w)
  }

  // ------------------------------------------------------------------ every step keeps it

  lemma ArriveAccounted<H(!new), P>(c: Config<H, P>, w: Pipeline<H, P>, p: Packet<H, P>)
    requires PoolSized(c, w.recv) && c.poolSize >= 2 && Accounted(c, w) && w.phase.Ready?
    ensures Accounted(c, Step(c, w, Arrive(p)))
  {
    var packets := w.arrived + [p];
    assert packets[..|packets| - 1] == w.arrived && packets[|packets| - 1] == p;
    hide BC.Mid, Receive, Greatest, FirstAligned, Taken;
    var a := Accepted(c.batchsize, w.arrived);
    if a == [] {
      InitialExpects(c);
      BC.FirstPacketKeeps(c, packets, w.recv);
    } else if p.id < w.recv.expected {
      BC.LatePacketKeeps(c, packets, w.recv);
    } else {
      AcceptsNext(c, w, p);
    }
  }

  lemma InitialExpects<H, P>(c: Config<H, P>)
    ensures Initial(c).expected == 0
  {
  }

  /** A number beyond the last one taken is taken. */
  lemma AcceptsNext<H(!new), P>(c: Config<H, P>, w: Pipeline<H, P>, p: Packet<H, P>)
    requires PoolSized(c, w.recv) && Accounted(c, w) && w.phase.Ready?
    requires Accepted(c.batchsize, w.arrived) != [] && w.recv.expected <= p.id
    ensures 0 < w.recv.expected && Accounted(c, Step(c, w, Arrive(p)))
  {
    hide BC.Mid, InHand, Expected, Greatest, Accepted, Gaps, FirstAligned, Start;
    var packets, a := w.arrived + [p], Accepted(c.batchsize, w.arrived);
    TakesIt(c, w.arrived, p);
    CountsIt(c, w.arrived, a, w.recv, p);
    BC.BatchNotBefore(c, w.recv.prebatch, p.id);
    assert Before(a + [p]) == a;
    ExpectMid(c, a, a[0].id / c.batchsize, w.recv, p);
  }

  lemma TakesIt<H(!new), P>(c: Config<H, P>, arrived: seq<Packet<H, P>>, p: Packet<H, P>)
    requires c.batchsize >= 1
    requires var a := Accepted(c.batchsize, arrived);
             a != [] && Greatest(c.batchsize, arrived, a) && a[|a| - 1].id < p.id
    ensures var a := Accepted(c.batchsize, arrived);
            && InHand(c, arrived + [p], p, p.id / c.batchsize, a) && Accepted(c.batchsize, arrived + [p]) == a + [p]
            && FirstAligned(c.batchsize, arrived + [p]) == FirstAligned(c.batchsize, arrived)
  {
    hide FirstAligned, Taken, Greatest;
    var packets, a := arrived + [p], Accepted(c.batchsize, arrived);
    assert packets[..|packets| - 1] == arrived && packets[|packets| - 1] == p;
    TakenNext(c.batchsize, packets, a);
    GreatestNext(c.batchsize, packets, a);
    BC.AcceptedBelow(c.batchsize, arrived, p.id);
  }

  lemma CountsIt<H(!new), P>(c: Config<H, P>, arrived: seq<Packet<H, P>>, a: seq<Packet<H, P>>, s: State<H, P>,
                             p: Packet<H, P>)
    requires c.batchsize >= 1 && a != [] && BC.Counted(c, arrived, a, s) && s.expected <= p.id
    requires FirstAligned(c.batchsize, arrived + [p]) == FirstAligned(c.batchsize, arrived)
    ensures Expected(c, arrived + [p], a + [p], Expect(s, p))
  {
    hide FirstAligned, Start;
    GapsNext(a, p);
    hide Gaps;
  }

  lemma GapsNext<H, P>(a: seq<Packet<H, P>>, p: Packet<H, P>)
    requires a != []
    ensures Gaps(a + [p]) == Gaps(a) + if p.id > a[|a| - 1].id + 1 then 1 else 0
  {
    assert (a + [p])[..|a|] == a;
  }

  lemma ExpectMid<H(!new), P>(c: Config<H, P>, a: seq<Packet<H, P>>, first: nat, s: State<H, P>, p: Packet<H, P>)
    requires BC.Mid(c, a, first, s) && s.expected <= p.id
    ensures BC.Mid(c, a, first, Expect(s, p))
  {
    hide BC.BatchOk, BC.QueueOk, BC.PoolStale, Place, Start, BC.Remembers;
    BC.RemembersSame(c, a, s.prebatch, s, Expect(s, p));
  }

  lemma KeepAccounted<H(!new), P>(c: Config<H, P>, w: Pipeline<H, P>)
    requires PoolSized(c, w.recv) && Accounted(c, w) && w.phase.Advancing? && w.recv.prebatch >= w.phase.b
    ensures Accounted(c, Step(c, w, Keep))
  {
    hide BC.Mid, FirstAligned, Greatest, Start, Store, Accepted, Gaps;
    var p, b := w.phase.p, w.phase.b;
    var a := Accepted(c.batchsize, w.arrived);
    BC.IdSplits(c, p.id);
    BC.StoreKeeps(c, Before(a), a[0].id / c.batchsize, w.recv, p);
    BC.StoreEffect(c, w.recv, p, b, p.id % c.batchsize);
    assert Before(a) + [p] == a;
  }

  lemma ArriveKeeps<H(!new), P>(c: Config<H, P>, w: Pipeline<H, P>, p: Packet<H, P>)
    requires Inv(c, w)
    ensures Inv(c, Step(c, w, Arrive(p)))
  {
    hide CB.Inv, InOrder, Place, Intact, Accounted, Receive, PoolSized;
    if w.phase.Ready? {
      ArriveAccounted(c, w, p);
      if !(0 < w.recv.expected <= p.id) {
        QuietReceive(c, w.recv, p);
        CurrentSlotIntact(c, w.recv, Receive(c, w.recv, p), |w.buffer.received|);
      }
    }
  }

  lemma CallStarts(b: CB.Buffer<nat>, pool: nat, a: CB.Action<nat>)
    requires CB.Inv(b) && InOrder(b, pool) && a.Enqueue? && CB.PResting(b.producer) && a.item == Place(|b.sent|, pool)
    ensures var b' := CB.Step(b, a);
            && CB.Inv(b') && InOrder(b', pool) && b'.maxcap == b.maxcap
            && b'.sent == b.sent && b'.producer.PWaiting? && b'.received == b.received
  {
    hide CB.Inv, InOrder, Place, CB.S.Step;
    CB.StepKeeps(b, a);
    QueueKeepsOrder(b, pool, a);
  }

  lemma OfferKeeps<H(!new), P>(c: Config<H, P>, w: Pipeline<H, P>)
    requires Inv(c, w)
    ensures Inv(c, Step(c, w, Offer))
  {
    hide CB.Inv, InOrder, Place, Intact, BC.Mid, HandOver, HandedOut, InHand, Expected, CB.Step, BC.Inv;
    if w.phase.Advancing? && w.recv.prebatch < w.phase.b {
      var a := Accepted(c.batchsize, w.arrived);
      HandOverIntact(c, w.recv, |w.buffer.received|);
      HandOverOk(c, Before(a), a[0].id / c.batchsize, w.recv);
      HandOverFields(c, w.recv);
      ExpectedSame(c, w.arrived, a, w.recv, HandOver(c, w.recv));
      CallStarts(w.buffer, c.poolSize, CB.Enqueue(w.recv.poolIdx, CB.Try));
    }
  }

  lemma HandOverFields<H, P>(c: Config<H, P>, s: State<H, P>)
    requires PoolSized(c, s)
    ensures var r := HandOver(c, s);
            && |r.queue| == |s.queue| + 1 && r.prebatch == s.prebatch && r.expected == s.expected && r.lost == s.lost
            && r.lossEvents == s.lossEvents && r.lateOrDuplicate == s.lateOrDuplicate
  {
  }

  lemma NextSlotFields<H, P>(c: Config<H, P>, s: State<H, P>)
    requires PoolSized(c, s)
    ensures var r := NextSlot(c, s);
            && r.queue == s.queue && r.prebatch == s.prebatch + 1 && r.expected == s.expected && r.lost == s.lost
            && r.lossEvents == s.lossEvents && r.lateOrDuplicate == s.lateOrDuplicate
  {
  }

  lemma ExpectedSame<H(!new), P>(c: Config<H, P>, packets: seq<Packet<H, P>>, a: seq<Packet<H, P>>, s: State<H, P>,
                                 r: State<H, P>)
    requires c.batchsize >= 1 && a != [] && Expected(c, packets, a, s) && r.expected == s.expected && r.lost == s.lost
    requires r.lossEvents == s.lossEvents && r.lateOrDuplicate == s.lateOrDuplicate
    ensures Expected(c, packets, a, r)
  {
  }

  lemma InsistKeeps<H(!new), P>(c: Config<H, P>, w: Pipeline<H, P>)
    requires Inv(c, w)
    ensures Inv(c, Step(c, w, Insist))
  {
    hide CB.Inv, InOrder, Place, Intact, Accounted, PoolSized, CB.Step;
    if w.phase.Offered? && w.buffer.producer.PRefused? {
      CallStarts(w.buffer, c.poolSize, CB.Enqueue(w.recv.poolIdx, CB.Forever));
      BatchsizeOf(c, w.recv);
      SameAccount(c, w, CB.Step(w.buffer, CB.Enqueue(w.recv.poolIdx, CB.Forever)));
    }
  }

  /** The accounting does not look at the queue. */
  lemma SameAccount<H(!new), P>(c: Config<H, P>, w: Pipeline<H, P>, b: CB.Buffer<nat>)
    requires c.batchsize >= 1 && Accounted(c, w)
    ensures Accounted(c, w.(buffer := b))
  {
  }

  lemma MoveOnKeeps<H(!new), P>(c: Config<H, P>, w: Pipeline<H, P>)
    requires Inv(c, w)
    ensures Inv(c, Step(c, w, MoveOn))
  {
    hide CB.Inv, InOrder, Place, Intact, BC.Mid, NextSlot, HandedOut, InHand, Expected, BC.Inv;
    if w.phase.Offered? && w.buffer.producer.PIdle? {
      var a := Accepted(c.batchsize, w.arrived);
      NextSlotIntact(c, w.recv, |w.buffer.received|);
      NextSlotOk(c, Before(a), a[0].id / c.batchsize, w.recv);
      NextSlotFields(c, w.recv);
      ExpectedSame(c, w.arrived, a, w.recv, NextSlot(c, w.recv));
    }
  }

  lemma KeepKeeps<H(!new), P>(c: Config<H, P>, w: Pipeline<H, P>)
    requires Inv(c, w)
    ensures Inv(c, Step(c, w, Keep))
  {
    hide CB.Inv, InOrder, Place, Intact, Accounted, Store, PoolSized;
    BatchsizeOf(c, w.recv);
    if w.phase.Advancing? && w.recv.prebatch >= w.phase.b {
      KeepAccounted(c, w);
      StoreQuiet(c, w.recv, w.phase.p, w.phase.b, w.phase.p.id % c.batchsize);
      CurrentSlotIntact(c, w.recv, Store(c, w.recv, w.phase.p, w.phase.b, w.phase.p.id % c.batchsize),
        |w.buffer.received|);
    }
  }

  /** A step inside the queue, of either thread. */
  lemma QueueActionKeeps<H(!new), P>(c: Config<H, P>, w: Pipeline<H, P>, a: CB.Action<nat>)
    requires Inv(c, w) && !a.Enqueue?
    ensures Inv(c, w.(buffer := CB.Step(w.buffer, a)))
  {
    hide CB.Inv, InOrder, Place, Intact, Accounted, PoolSized, CB.Step;
    var b' := CB.Step(w.buffer, a);
    CB.StepKeeps(w.buffer, a);
    QueueKeepsOrder(w.buffer, c.poolSize, a);
    BatchsizeOf(c, w.recv);
    SameAccount(c, w, b');
    if a.ProducerStep? {
      ReceivedSame(w.buffer, a);
      if w.buffer.producer.PIdle? { AtRest(w.buffer, a); } else { CallProgress(w.buffer, a.luck); }
    } else {
      OtherThread(w.buffer, a);
    }
    IntactFrom(c.poolSize, w.recv.pool, w.recv.queue, Oldest(c, w), |w.buffer.received|, Oldest(c, w), |b'.received|);
  }

  lemma BatchsizeOf<H, P>(c: Config<H, P>, s: State<H, P>)
    requires PoolSized(c, s)
    ensures c.batchsize >= 1
  {
  }

  lemma AtRest(b: CB.Buffer<nat>, a: CB.Action<nat>)
    requires a.ProducerStep? && b.producer.PIdle?
    ensures CB.Step(b, a) == b
  {
  }

  /** What the consumer took last is less than a round behind, and not in the slot being filled. */
  lemma HeldSlot<H(!new), P>(c: Config<H, P>, w: Pipeline<H, P>)
    requires PoolSide(c, w) && QueueSide(c, w) && w.buffer.consumer.CGot?
    ensures var j := |w.buffer.received| - 1;
            && 0 <= j && Oldest(c, w) <= j < |w.recv.queue| && Held(w.buffer) == Place(j, c.poolSize)
            && (!w.phase.Offered? ==> Place(j, c.poolSize) != w.recv.poolIdx)
  {
    hide CB.Inv, Place, Intact, PoolSized;
    var b := w.buffer;
    CB.CircularBufferIsBoundedFifo(b, []);
    assert CB.Run(b, []) == b;
    var j := |b.received| - 1;
    assert b.received[j] == b.sent[j];
    if !w.phase.Offered? { PlacesDiffer(j, |b.sent|, c.poolSize); }
  }

  lemma OverwriteKeeps<H(!new), P>(c: Config<H, P>, w: Pipeline<H, P>, payloads: seq<P>)
    requires Inv(c, w)
    ensures Inv(c, Step(c, w, Overwrite(payloads)))
  {
    hide CB.Inv, InOrder, Place, Intact, Accounted;
    if w.buffer.consumer.CGot? && |payloads| == c.batchsize {
      HeldSlot(c, w);
      var j := |w.buffer.received| - 1;
      OverwriteIntact(c, w.recv, Oldest(c, w), j + 1, j, payloads);
      OverwriteAccounted(c, w, Place(j, c.poolSize), payloads);
    }
  }

  lemma OverwriteAccounted<H(!new), P>(c: Config<H, P>, w: Pipeline<H, P>, slot: nat, payloads: seq<P>)
    requires PoolSized(c, w.recv) && Accounted(c, w) && slot < c.poolSize && |payloads| == c.batchsize
             && w.recv.queue != []
    requires !w.phase.Offered? ==> slot != w.recv.poolIdx
    ensures Accounted(c, w.(recv := WithPayloads(w.recv, slot, payloads)))
  {
    hide BC.Mid, HandedOut, InHand, Greatest, Accepted;
    var a := Accepted(c.batchsize, w.arrived);
    match w.phase
    case Ready =>
      if a == [] { InitialHasNone(c); } else { OverwriteMid(c, a, a[0].id / c.batchsize, w.recv, slot, payloads); }
    case Advancing(p, b) => OverwriteMid(c, Before(a), a[0].id / c.batchsize, w.recv, slot, payloads);
    case Offered(p, b) => OverwriteHandedOut(c, Before(a), a[0].id / c.batchsize, w.recv, slot, payloads);
  }

  lemma InitialHasNone<H, P>(c: Config<H, P>)
    ensures Initial(c).queue == []
  {
  }

  lemma StepKeeps<H(!new), P>(c: Config<H, P>, w: Pipeline<H, P>, a: Action<H, P>)
    requires Inv(c, w)
    ensures Inv(c, Step(c, w, a))
  {
    hide Inv;
    InvSized(c, w);
    match a
    case Arrive(p) => ArriveKeeps(c, w, p);
    case Offer => OfferKeeps(c, w);
    case Insist => InsistKeeps(c, w);
    case MoveOn => MoveOnKeeps(c, w);
    case Keep => KeepKeeps(c, w);
    case QueueStep(luck) => QueueActionKeeps(c, w, CB.ProducerStep(luck));
    case Dequeue(patience) => QueueActionKeeps(c, w, CB.Dequeue(patience));
    case ConsumerStep(luck) => QueueActionKeeps(c, w, CB.ConsumerStep(luck));
    case Overwrite(payloads) => OverwriteKeeps(c, w, payloads);
  }

  lemma InvSized<H(!new), P>(c: Config<H, P>, w: Pipeline<H, P>)
    requires Inv(c, w)
    ensures PoolSized(c, w.recv)
  {
  }

  lemma {:induction false} RunKeeps<H(!new), P>(c: Config<H, P>, w: Pipeline<H, P>, actions: seq<Action<H, P>>)
    requires Inv(c, w)
    ensures PoolSized(c, w.recv) && Inv(c, Run(c, w, actions))
    decreases actions
  {
    hide Inv, Step;
    InvSized(c, w);
    if actions != [] {
      StepKeeps(c, w, actions[0]);
      RunKeeps(c, Step(c, w, actions[0]), actions[1..]);
    }
  }

  /** The queue fits the pool: the mask is one the buffer's constructor could give. */
  ghost predicate Fits<H, P>(c: Config<H, P>, mask: nat) {
    && c.batchsize >= 1 && c.poolSize >= 2 && c.poolSize - 2 <= mask + 1 && c.poolSize - 2 < CB.S.HALF_WORD
    && mask < Pow2(WORD_BITS) && IsPow2(mask + 1)
  }

  lemma LaunchInv<H(!new), P>(c: Config<H, P>, mask: nat)
    requires Fits(c, mask)
    ensures Inv(c, Launch(c, mask))
  {
    hide CB.Inv, Pow2, IsPow2;
    CB.EmptyInv<nat>(c.poolSize - 2, mask);
    DivUnique(0, c.poolSize, 0, 0);
    BC.ReceiveAllOk(c, []);
    assert ReceiveAll(c, []) == Initial(c);
  }

  // ------------------------------------------------------------------ what every run keeps

  /** Number j is queued, or is the batch its consumer took last. */
  predicate InUse(b: CB.Buffer<nat>, j: nat) { |b.received| <= j + 1 && j < |b.sent| }

  /** The slot the receive loop may be writing is in nobody else's hands. */
  ghost predicate FillingIsOwned<H, P>(w: Pipeline<H, P>) {
    !w.phase.Offered? ==> forall j: nat :: InUse(w.buffer, j) ==> w.buffer.sent[j] != w.recv.poolIdx
  }

  /**
    What is found in a slot is the batch as it was handed over: exactly while it is queued,
    and up to what the consumer itself writes into its payloads once it has taken it.
   */
  ghost predicate ConsumerSeesHandedOver<H, P>(w: Pipeline<H, P>) {
    && (forall j: nat :: InUse(w.buffer, j) ==>
          && j < |w.recv.queue| && w.buffer.sent[j] < |w.recv.pool|
          && Matches(w.recv.pool[w.buffer.sent[j]], w.recv.queue[j], j >= |w.buffer.received|))
    && (w.buffer.consumer.CGot? ==>
          var n := |w.buffer.received|;
          && 0 < n <= |w.recv.queue| && Held(w.buffer) < |w.recv.pool|
          && Matches(w.recv.pool[Held(w.buffer)], w.recv.queue[n - 1], false))
  }

  /**
    For any packets and any interleaving of the receiver, the queue's internals and the
    consumer with its own writes: the slot being filled is neither queued nor being read,
    batches queued or being read are as they were handed over, and between packets the
    receive loop's accounting and every batch handed over are exact.
   */
  lemma PipelineIsSafe<H(!new), P>(c: Config<H, P>, mask: nat, actions: seq<Action<H, P>>)
    requires Fits(c, mask)
    ensures var w := Run(c, Launch(c, mask), actions);
            && w.buffer.received <= w.buffer.sent
            && FillingIsOwned(w) && ConsumerSeesHandedOver(w)
            && (w.phase.Ready? ==> BC.Inv(c, w.arrived, w.recv))
  {
    hide Run, Launch, BC.Inv, Inv, Pow2, IsPow2;
    LaunchInv(c, mask);
    RunKeeps(c, Launch(c, mask), actions);
    Safe(c, Run(c, Launch(c, mask), actions));
  }

  lemma Safe<H(!new), P>(c: Config<H, P>, w: Pipeline<H, P>)
    requires Inv(c, w)
    ensures c.batchsize >= 1 && c.poolSize >= 2
    ensures w.buffer.received <= w.buffer.sent && FillingIsOwned(w) && ConsumerSeesHandedOver(w)
    ensures w.phase.Ready? ==> BC.Inv(c, w.arrived, w.recv)
  {
    hide CB.Inv, Place, BC.Inv, BC.Mid, HandedOut, InHand, Expected, Matches;
    var b := w.buffer;
    CB.CircularBufferIsBoundedFifo(b, []);
    assert CB.Run(b, []) == b;
    forall j: nat | InUse(b, j)
      ensures !w.phase.Offered? ==> b.sent[j] != w.recv.poolIdx
      ensures j < |w.recv.queue| && b.sent[j] < |w.recv.pool|
      ensures Matches(w.recv.pool[b.sent[j]], w.recv.queue[j], j >= |b.received|)
    {
      assert b.sent[j] == Place(j, c.poolSize);
      if !w.phase.Offered? { PlacesDiffer(j, |b.sent|, c.poolSize); }
    }
  }

  /** In terms of packet memory: its slice overlaps none of theirs, on this stream or another. */
  lemma MemoryIsOwned<H(!new), P>(c: Config<H, P>, mask: nat, actions: seq<Action<H, P>>,
                                  poolIndex: nat, otherIndex: nat, otherSlot: nat)
    requires Fits(c, mask) && otherSlot < c.poolSize
    ensures var w := Run(c, Launch(c, mask), actions);
            var x := BP.Offset(poolIndex, w.recv.poolIdx, c.poolSize, c.batchsize);
            var y := BP.Offset(otherIndex, otherSlot, c.poolSize, c.batchsize);
            (!w.phase.Offered?
             && (otherIndex != poolIndex || exists j: nat :: InUse(w.buffer, j) && w.buffer.sent[j] == otherSlot))
            ==> x + c.batchsize <= y || y + c.batchsize <= x
  {
    hide Run, Launch, Inv, Pow2, IsPow2, InUse, BP.Offset, BC.Inv;
    LaunchInv(c, mask);
    RunKeeps(c, Launch(c, mask), actions);
    var w := Run(c, Launch(c, mask), actions);
    Safe(c, w);
    if (poolIndex, w.recv.poolIdx) != (otherIndex, otherSlot) {
      BP.SlicesDisjoint(poolIndex, w.recv.poolIdx, otherIndex, otherSlot, c.poolSize, c.batchsize);
    }
  }
}
