/**
  What every interleaving of the queue of blocks keeps, and what follows: a first-in
  first-out queue, no failed assertion, and no refusal below the requested capacity.
 */
module BlockQueueSafety {
  import opened Bits
  import opened Storage
  import opened BlockQueue
  import opened BlockRing

  /** The heap with the element the consumer has moved out put back until `front` is stored. */
  ghost function View<T>(s: State<T>): (bs: seq<Block<T>>)
    ensures |bs| == |s.blocks|
    ensures forall i :: 0 <= i < |bs| ==>
      |bs[i].data| == |s.blocks[i].data| && bs[i] == s.blocks[i].(data := bs[i].data)
  {
    if s.consumer.CPublish? && s.consumer.fb < |s.blocks|
       && s.consumer.bf < |s.blocks[s.consumer.fb].data|
    then s.blocks[s.consumer.fb := Store(s.blocks[s.consumer.fb], s.consumer.bf, Val(s.consumer.value))]
    else s.blocks
  }

  /** A block reduced to the elements it holds. */
  ghost function Abs<T>(b: Block<T>): Node<T> {
    Node(if BlockOk(b) then Items(b) else [], |b.data|, b.next)
  }

  ghost function Nodes<T>(s: State<T>): (ns: seq<Node<T>>)
    ensures |ns| == |s.blocks|
  {
    seq(|s.blocks|, (i: nat) requires i < |s.blocks| => Abs(View(s)[i]))
  }

  ghost predicate AllOk<T>(s: State<T>) {
    forall i {:trigger View(s)[i]} :: 0 <= i < |s.blocks| ==> BlockOk(View(s)[i])
  }

  /** The element in the block after the tail block, written but not yet published. */
  ghost function Pending<T>(s: State<T>): seq<T> {
    if s.producer.PBusy? && (s.producer.at.PNextPublish? || s.producer.at.PAllocPublish?)
    then [s.producer.element] else []
  }

  /** The producer found tb full; the consumer may since have entered it. */
  ghost predicate LeftBehind<T>(s: State<T>, tb: nat) {
    tb == s.tailBlock && tb < |s.blocks| && (s.frontBlock == tb || FullBlock(s.blocks[tb]))
  }

  /** The producer is moving to nb, the free block after the tail block. */
  ghost predicate MovingTo<T>(s: State<T>, ring: seq<nat>, t: nat, tb: nat, nb: nat) {
    LeftBehind(s, tb) && t + 1 < |ring| && nb == ring[t + 1] && nb < |s.blocks|
  }

  ghost predicate ProducerOk<T>(s: State<T>, ring: seq<nat>, t: nat, unit: nat, built: nat) {
    match s.producer
    case PIdle(o) => o.Refused? ==> o.lengthAtStart >= built
    case PBusy(e, canAlloc, n0, at) =>
      && n0 >= |s.sent| - |s.received|
      && match at
         case PStart => true
         case PTail(tb) => tb == s.tailBlock
         case PReload(tb, bt) => tb == s.tailBlock < |s.blocks| && bt == s.blocks[tb].tail
         case PWrite(tb, bt) =>
           tb == s.tailBlock < |s.blocks| && bt == s.blocks[tb].tail
           && Inc(bt, |s.blocks[tb].data|) != s.blocks[tb].localFront
         case PPublish(tb, bt) =>
           tb == s.tailBlock < |s.blocks| && bt == s.blocks[tb].tail
           && Inc(bt, |s.blocks[tb].data|) != s.blocks[tb].localFront
           && bt < |s.blocks[tb].data| && s.blocks[tb].data[bt] == Val(e)
         case PFull(tb) => LeftBehind(s, tb) && n0 >= |s.blocks[tb].data| - 1
         case PNext(tb) => LeftBehind(s, tb) && t + 1 < |ring|
         case PNextFront(tb, nb) => MovingTo(s, ring, t, tb, nb)
         case PNextTail(tb, nb, nf) =>
           MovingTo(s, ring, t, tb, nb) && nf == s.blocks[nb].front == s.blocks[nb].localFront
         case PNextWrite(tb, nb, nt) =>
           MovingTo(s, ring, t, tb, nb) && nt == s.blocks[nb].tail == s.blocks[nb].localFront
         case PNextStore(tb, nb, nt) =>
           MovingTo(s, ring, t, tb, nb) && nt == s.blocks[nb].tail == s.blocks[nb].localFront
           && nt < |s.blocks[nb].data| && s.blocks[nb].data[nt] == Val(e)
         case PNextPublish(tb, nb) => MovingTo(s, ring, t, tb, nb)
         case PAlloc(tb) => LeftBehind(s, tb)
         case PLink(tb, nb) =>
           && LeftBehind(s, tb) && nb < |s.blocks| && nb !in ring
           && Abs(s.blocks[nb]).items == [e]
           && s.blocks[nb].next == s.blocks[tb].next && |s.blocks[nb].data| > unit
         case PAllocPublish(tb, nb) => MovingTo(s, ring, t, tb, nb)
  }

  /** The consumer is at the front block, which is not the tail block. */
  ghost predicate Behind<T>(s: State<T>, t: nat, fb: nat) {
    t > 0 && fb == s.frontBlock && fb < |s.blocks|
  }

  /** The consumer has found the front block drained and is moving on. */
  ghost predicate Drained<T>(s: State<T>, ring: seq<nat>, t: nat, fb: nat, nb: nat) {
    Behind(s, t, fb) && s.blocks[fb].front == s.blocks[fb].tail
    && t < |ring| && nb == ring[1] && nb < |s.blocks|
  }

  ghost predicate AtElement<T>(s: State<T>, fb: nat, bf: nat) {
    fb == s.frontBlock && fb < |s.blocks| && bf == s.blocks[fb].front && bf != s.blocks[fb].localTail
  }

  ghost predicate ConsumerOk<T>(s: State<T>, ring: seq<nat>, t: nat) {
    match s.consumer
    case CIdle(r) => r.NothingThere? ==> r.sawEmpty
    case CStart => true
    case CFront(fb) => fb == s.frontBlock
    case CReload(fb, bf) => fb == s.frontBlock < |s.blocks| && bf == s.blocks[fb].front
    case CCheckTail(fb, sawEmpty) => fb == s.frontBlock && (t == 0 ==> sawEmpty)
    case CAgain => t > 0
    case CAgainTail(fb) => Behind(s, t, fb)
    case CAgainFront(fb, bt) => Behind(s, t, fb) && bt == s.blocks[fb].tail == s.blocks[fb].localTail
    case CNext(fb) => Behind(s, t, fb) && s.blocks[fb].front == s.blocks[fb].tail
    case CNextFront(fb, nb) => Drained(s, ring, t, fb, nb)
    case CNextTail(fb, nb, nf) => Drained(s, ring, t, fb, nb) && nf == s.blocks[nb].front
    case CAdvance(fb, nb, nf) =>
      Drained(s, ring, t, fb, nb) && nf == s.blocks[nb].front && nf != s.blocks[nb].localTail
    case CRead(fb, bf) => AtElement(s, fb, bf)
    case CPublish(fb, bf, v) => AtElement(s, fb, bf) && bf < |s.blocks[fb].data|
  }

  /** Every block holds at least `unit` elements, and all blocks but one hold at least `built`. */
  ghost predicate Sized<T>(s: State<T>, ring: seq<nat>, unit: nat, built: nat) {
    && (forall i :: 0 <= i < |ring| ==> ring[i] < |s.blocks| && |s.blocks[ring[i]].data| > unit)
    && IsPow2(s.largest) && s.largest > unit >= 1
    && built <= (if |ring| <= 1 then unit else (|ring| - 1) * unit)
  }

  ghost predicate RingOk<T>(s: State<T>, ring: seq<nat>, t: nat) {
    && AllOk(s)
    && Occupied(Nodes(s), ring, t, Pending(s))
    && ring[0] == s.frontBlock && ring[t] == s.tailBlock
    && s.sent == s.received + Contents(Nodes(s), ring, t + 1)
  }

  ghost predicate Core<T>(s: State<T>, ring: seq<nat>, t: nat, unit: nat, built: nat) {
    && !s.fault
    && RingOk(s, ring, t)
    && Sized(s, ring, unit, built)
    && ProducerOk(s, ring, t, unit, built)
    && ConsumerOk(s, ring, t)
  }

  /** The invariant of the queue built for `built` elements in blocks of more than `unit` slots. */
  ghost predicate Inv<T>(s: State<T>, unit: nat, built: nat) {
    exists ring: seq<nat>, t: nat :: Core(s, ring, t, unit, built)
  }

  // ------------------------------------------------------------------ frames

  /** The fields the consumer relies on are as before; ring and tail only grow. */
  ghost predicate ConsumerFrame<T>(s: State<T>, ring: seq<nat>, t: nat, s': State<T>, ring': seq<nat>, t': nat) {
    && s'.consumer == s.consumer && s'.frontBlock == s.frontBlock < |s.blocks| <= |s'.blocks|
    && t <= t' < |ring'| && (0 < t ==> t < |ring| && ring'[1] == ring[1])
    && (forall i {:trigger s'.blocks[i]} :: 0 <= i < |s.blocks| ==>
          s'.blocks[i].front == s.blocks[i].front && s'.blocks[i].localTail == s.blocks[i].localTail
          && |s'.blocks[i].data| == |s.blocks[i].data|)
    && (t > 0 ==> s'.blocks[s.frontBlock].tail == s.blocks[s.frontBlock].tail)
  }

  lemma ConsumerKept<T>(s: State<T>, ring: seq<nat>, t: nat, s': State<T>, ring': seq<nat>, t': nat)
    requires ConsumerOk(s, ring, t) && ConsumerFrame(s, ring, t, s', ring', t')
    ensures ConsumerOk(s', ring', t')
  {
  }

  lemma SizedKept<T>(s: State<T>, s': State<T>, ring: seq<nat>, unit: nat, built: nat)
    requires Sized(s, ring, unit, built) && |s.blocks| <= |s'.blocks|
    requires IsPow2(s'.largest) && s'.largest > unit
    requires forall i {:trigger s'.blocks[i]} :: 0 <= i < |s.blocks| ==> |s'.blocks[i].data| == |s.blocks[i].data|
    ensures Sized(s', ring, unit, built)
  {
  }

  /** The state s' is s with the block i seen as v. */
  ghost predicate Replaced<T>(s: State<T>, s': State<T>, i: nat, v: Block<T>) {
    i < |s.blocks| && View(s') == View(s)[i := v] && BlockOk(v)
  }

  lemma ReplacedNodes<T>(s: State<T>, s': State<T>, i: nat, v: Block<T>)
    requires AllOk(s) && Replaced(s, s', i, v)
    ensures AllOk(s') && Nodes(s') == Nodes(s)[i := Abs(v)]
  {
    assert forall k {:trigger View(s')[k]} :: 0 <= k < |s'.blocks| ==>
      View(s')[k] == if k == i then v else View(s)[k];
  }

  /** A step that replaces one block by one that looks the same keeps the ring. */
  lemma RingKept<T>(s: State<T>, s': State<T>, ring: seq<nat>, t: nat, i: nat, v: Block<T>)
    requires RingOk(s, ring, t) && Replaced(s, s', i, v) && Abs(v) == Abs(View(s)[i])
    requires s'.sent == s.sent && s'.received == s.received && Pending(s') == Pending(s)
    requires s'.frontBlock == s.frontBlock && s'.tailBlock == s.tailBlock
    ensures RingOk(s', ring, t)
  {
    ReplacedNodes(s, s', i, v);
    assert Nodes(s') == Nodes(s);
  }

  /** Facts about the two end blocks that every step starts from. */
  lemma EndFacts<T>(s: State<T>, ring: seq<nat>, t: nat)
    requires RingOk(s, ring, t)
    ensures s.tailBlock < |s.blocks| && s.frontBlock < |s.blocks|
    ensures s.frontBlock == s.tailBlock <==> t == 0
  {
  }

  /** The block after the tail block: neither end, and empty unless an element is pending. */
  lemma NextFacts<T>(s: State<T>, ring: seq<nat>, t: nat)
    requires RingOk(s, ring, t) && t + 1 < |ring|
    ensures ring[t + 1] < |s.blocks| && ring[t + 1] != s.tailBlock && ring[t + 1] != s.frontBlock
    ensures Abs(View(s)[ring[t + 1]]).items == Pending(s)
  {
    assert Nodes(s)[ring[t + 1]].items == Pending(s);
  }

  lemma ItemCount<T>(b: Block<T>)
    requires BlockOk(b)
    ensures |Abs(b).items| == Count(b)
  {
  }

  lemma DoubledPow2(n: nat)
    requires IsPow2(n)
    ensures IsPow2(2 * n)
  {
    var k: nat :| Pow2(k) == n;
    assert Pow2(k + 1) == 2 * n;
  }

  // ------------------------------------------------------------------ producer steps

  lemma RefreshLocalFront<T>(v: Block<T>)
    requires BlockOk(v)
    ensures BlockOk(v.(localFront := v.front)) && Abs(v.(localFront := v.front)) == Abs(v)
  {
    assert Items(v.(localFront := v.front)) == Items(v);
  }

  lemma LeavesConsumerOwn<T>(s: State<T>, ring: seq<nat>, t: nat, t': nat)
    requires s.producer.PBusy? && PInRange(s.producer.at, |s.blocks|) && s.frontBlock < |s.blocks|
    requires t <= t' < |ring| && (t > 0 ==> s.frontBlock != s.tailBlock)
    requires var at := s.producer.at;
             at.PStart? || at.PTail? || at.PReload? || at.PWrite? || at.PPublish? || at.PFull? || at.PNext?
    requires s.producer.at.PPublish? ==> s.producer.at.tb == s.tailBlock
    ensures ConsumerFrame(s, ring, t, ProducerMove(s, true), ring, t')
  {
    match s.producer.at
    case PStart => case PTail(_) => case PReload(_, _) => case PWrite(_, _) => case PPublish(_, _) =>
    case PFull(_) => case PNext(_) =>
  }

  lemma LeavesConsumerNext<T>(s: State<T>, ring: seq<nat>, t: nat, t': nat)
    requires s.producer.PBusy? && PInRange(s.producer.at, |s.blocks|) && s.frontBlock < |s.blocks|
    requires t <= t' < |ring| && (t > 0 ==> s.frontBlock != s.tailBlock)
    requires var at := s.producer.at;
             at.PNextFront? || at.PNextTail? || at.PNextWrite? || at.PNextStore? || at.PNextPublish?
               || at.PAllocPublish?
    requires s.producer.at.PNextStore? ==> s.producer.at.nb != s.frontBlock
    ensures ConsumerFrame(s, ring, t, ProducerMove(s, true), ring, t')
  {
    match s.producer.at
    case PNextFront(_, _) => case PNextTail(_, _, _) => case PNextWrite(_, _, _) =>
    case PNextStore(_, _, _) => case PNextPublish(_, _) => case PAllocPublish(_, _) =>
  }

  lemma LeavesConsumerAlloc<T>(s: State<T>, ring: seq<nat>, t: nat, t': nat, memoryLeft: bool)
    requires s.producer.PBusy? && PInRange(s.producer.at, |s.blocks|) && s.frontBlock < |s.blocks|
    requires t <= t' < |ring| && (t > 0 ==> s.frontBlock != s.tailBlock)
    requires s.producer.at.PAlloc?
    ensures ConsumerFrame(s, ring, t, ProducerMove(s, memoryLeft), ring, t')
  {
  }

  /** No producer step but linking touches what the consumer relies on. */
  lemma ProducerLeavesConsumer<T>(s: State<T>, ring: seq<nat>, t: nat, memoryLeft: bool, t': nat)
    requires s.producer.PBusy? && PInRange(s.producer.at, |s.blocks|) && s.frontBlock < |s.blocks|
    requires t <= t' < |ring| && (t > 0 ==> s.frontBlock != s.tailBlock)
    requires !s.producer.at.PLink?
    requires s.producer.at.PPublish? ==> s.producer.at.tb == s.tailBlock
    requires s.producer.at.PNextStore? ==> s.producer.at.nb != s.frontBlock
    ensures ConsumerFrame(s, ring, t, ProducerMove(s, memoryLeft), ring, t')
  {
    if !s.producer.at.PAlloc? { ProducerShape(s, memoryLeft); }
    hide ConsumerFrame, ProducerMove, PInRange;
    var at := s.producer.at;
    if at.PAlloc? {
      LeavesConsumerAlloc(s, ring, t, t', memoryLeft);
    } else if at.PNextFront? || at.PNextTail? || at.PNextWrite? || at.PNextStore? || at.PNextPublish?
        || at.PAllocPublish? {
      LeavesConsumerNext(s, ring, t, t');
    } else {
      LeavesConsumerOwn(s, ring, t, t');
    }
  }

  lemma SetView<T>(s: State<T>, i: nat, b: Block<T>)
    requires i < |s.blocks| && b.data == s.blocks[i].data
    ensures View(SetBlock(s, i, b)) == View(s)[i := b.(data := View(s)[i].data)]
  {
  }

  /** View depends on the heap and the consumer alone. */
  lemma ViewOf<T>(s: State<T>, s': State<T>)
    requires s'.blocks == s.blocks && s'.consumer == s.consumer
    ensures View(s') == View(s)
  {
  }

  /** A moved-out element is still the front block's first, as far as `front` says. */
  ghost predicate MovedOutOk<T>(s: State<T>) {
    s.consumer.CPublish? ==>
      AtElement(s, s.consumer.fb, s.consumer.bf) && s.consumer.bf < |s.blocks[s.consumer.fb].data|
  }

  /** Everything but the heap and the producer's position is as before. */
  ghost predicate Quiet<T>(s: State<T>, s': State<T>) {
    && s'.consumer == s.consumer && s'.sent == s.sent && s'.received == s.received
    && s'.frontBlock == s.frontBlock && s'.tailBlock == s.tailBlock
  }

  /** Writing index fields of one block, without changing what it holds, keeps the ring. */
  lemma RingField<T>(s: State<T>, s': State<T>, ring: seq<nat>, t: nat, i: nat, b: Block<T>)
    requires RingOk(s, ring, t) && Quiet(s, s') && Pending(s') == Pending(s)
    requires i < |s.blocks| && b.data == s.blocks[i].data && s'.blocks == s.blocks[i := b]
    requires var v := b.(data := View(s)[i].data); BlockOk(v) && Abs(v) == Abs(View(s)[i])
    ensures RingOk(s', ring, t)
  {
    SetView(s, i, b);
    ViewOf(SetBlock(s, i, b), s');
    RingKept(s, s', ring, t, i, b.(data := View(s)[i].data));
  }

  lemma PReloadRing<T>(s: State<T>, s': State<T>, ring: seq<nat>, t: nat, i: nat)
    requires RingOk(s, ring, t) && Quiet(s, s') && Pending(s') == Pending(s)
    requires i < |s.blocks| && s'.blocks == s.blocks[i := s.blocks[i].(localFront := s.blocks[i].front)]
    ensures RingOk(s', ring, t)
  {
    RefreshLocalFront(View(s)[i]);
    RingField(s, s', ring, t, i, s.blocks[i].(localFront := s.blocks[i].front));
  }

  lemma PReloadProducer<T>(s: State<T>, ring: seq<nat>, t: nat, unit: nat, built: nat)
    requires RingOk(s, ring, t) && ProducerOk(s, ring, t, unit, built)
    requires s.producer.PBusy? && s.producer.at.PReload?
    ensures ProducerOk(ProducerMove(s, true), ring, t, unit, built)
  {
    EndFacts(s, ring, t);
    var v := View(s)[s.tailBlock];
    Room(v);
    ItemCount(v);
    ContentsCoverTail(Nodes(s), ring, t);
    assert Nodes(s)[ring[t]] == Abs(v);
  }

  lemma StoreElsewhere<T>(b: Block<T>, i: nat, c: Cell<T>, j: nat, d: Cell<T>)
    requires i < |b.data| && j < |b.data| && i != j
    ensures Store(Store(b, i, c), j, d) == Store(Store(b, j, d), i, c)
  {
    assert b.data[i := c][j := d] == b.data[j := d][i := c];
  }

  lemma PWriteView<T>(s: State<T>, tb: nat, bt: nat, c: Cell<T>)
    requires tb < |s.blocks| && bt < |s.blocks[tb].data|
    requires s.consumer.CPublish? && s.consumer.fb == tb ==> s.consumer.bf != bt
    ensures View(SetBlock(s, tb, Store(s.blocks[tb], bt, c))) == View(s)[tb := Store(View(s)[tb], bt, c)]
  {
    if s.consumer.CPublish? && s.consumer.fb == tb && s.consumer.bf < |s.blocks[tb].data| {
      StoreElsewhere(s.blocks[tb], bt, c, s.consumer.bf, Val(s.consumer.value));
    }
  }

  /** Constructing an element at a block's tail keeps the ring. */
  lemma PWriteRing<T>(s: State<T>, s': State<T>, ring: seq<nat>, t: nat, i: nat, e: T)
    requires RingOk(s, ring, t) && MovedOutOk(s) && Quiet(s, s') && Pending(s') == Pending(s)
    requires i < |s.blocks| && s.blocks[i].tail < |s.blocks[i].data|
    requires s'.blocks == s.blocks[i := Store(s.blocks[i], s.blocks[i].tail, Val(e))]
    ensures RingOk(s', ring, t)
  {
    var v := View(s)[i];
    WriteBeyondTail(v, Val(e));
    PWriteView(s, i, v.tail, Val(e));
    ViewOf(SetBlock(s, i, Store(s.blocks[i], v.tail, Val(e))), s');
    RingKept(s, s', ring, t, i, Store(v, v.tail, Val(e)));
  }

  lemma PushAbs<T>(v: Block<T>, e: T)
    requires BlockOk(v) && Inc(v.tail, |v.data|) != v.localFront && v.data[v.tail] == Val(e)
    ensures var v' := v.(tail := Inc(v.tail, |v.data|));
            BlockOk(v') && Abs(v') == Abs(v).(items := Abs(v).items + [e])
  {
    Room(v);
    Push(v, e);
  }

  /** The heap after storing a block's tail past a constructed element. */
  lemma PStoreNodes<T>(s: State<T>, s': State<T>, i: nat, e: T)
    requires AllOk(s) && MovedOutOk(s) && s'.consumer == s.consumer
    requires i < |s.blocks| && s.blocks[i].tail < |s.blocks[i].data|
    requires s.blocks[i].data[s.blocks[i].tail] == Val(e)
    requires Inc(s.blocks[i].tail, |s.blocks[i].data|) != s.blocks[i].localFront
    requires s'.blocks == s.blocks[i := s.blocks[i].(tail := Inc(s.blocks[i].tail, |s.blocks[i].data|))]
    ensures AllOk(s')
    ensures Nodes(s') == Nodes(s)[i := Nodes(s)[i].(items := Nodes(s)[i].items + [e])]
  {
    var b := s.blocks[i].(tail := Inc(s.blocks[i].tail, |s.blocks[i].data|));
    var v := View(s)[i];
    assert v.data[v.tail] == Val(e) by {
      if s.consumer.CPublish? && s.consumer.fb == i {
        ItemCount(v);
        assert v.front != v.localTail;
      }
    }
    PushAbs(v, e);
    SetView(s, i, b);
    ViewOf(SetBlock(s, i, b), s');
    ReplacedNodes(s, s', i, b.(data := v.data));
  }

  lemma PPublishRing<T>(s: State<T>, ring: seq<nat>, t: nat, unit: nat, built: nat)
    requires RingOk(s, ring, t) && MovedOutOk(s) && ProducerOk(s, ring, t, unit, built)
    requires s.producer.PBusy? && s.producer.at.PPublish?
    ensures RingOk(ProducerMove(s, true), ring, t)
  {
    PublishEffect(s, ring, t, unit, built);
    hide ProducerMove, ProducerOk, MovedOutOk, Nodes, Contents, Inc, View;
    PStoreNodes(s, ProducerMove(s, true), s.tailBlock, s.producer.element);
    PushTail(Nodes(s), ring, t, s.producer.element);
  }

  lemma PublishEffect<T>(s: State<T>, ring: seq<nat>, t: nat, unit: nat, built: nat)
    requires ProducerOk(s, ring, t, unit, built) && s.producer.PBusy? && s.producer.at.PPublish?
    ensures var s', i := ProducerMove(s, true), s.tailBlock;
            && i < |s.blocks| && s.blocks[i].tail < |s.blocks[i].data|
            && s.blocks[i].data[s.blocks[i].tail] == Val(s.producer.element)
            && Inc(s.blocks[i].tail, |s.blocks[i].data|) != s.blocks[i].localFront
            && s'.blocks == s.blocks[i := s.blocks[i].(tail := Inc(s.blocks[i].tail, |s.blocks[i].data|))]
            && s'.consumer == s.consumer && s'.frontBlock == s.frontBlock && s'.tailBlock == s.tailBlock
            && s'.sent == s.sent + [s.producer.element] && s'.received == s.received
            && Pending(s) == [] && Pending(s') == []
  {
    hide Inc;
  }

  /** The tail block's successor is the front block exactly when every block is in use. */
  lemma TailSuccessor<T>(s: State<T>, ring: seq<nat>, t: nat)
    requires RingOk(s, ring, t)
    ensures t < |ring| && s.tailBlock < |s.blocks|
    ensures s.blocks[s.tailBlock].next == s.frontBlock <==> t + 1 == |ring|
  {
    assert Nodes(s)[ring[t]].next == s.blocks[s.tailBlock].next;
  }

  /** With the tail block full and every block in use, at least the built capacity is queued. */
  lemma FullQueue<T>(s: State<T>, ring: seq<nat>, t: nat, unit: nat, built: nat)
    requires RingOk(s, ring, t) && Sized(s, ring, unit, built) && t + 1 == |ring| && LeftBehind(s, s.tailBlock)
    ensures t > 0 ==> |s.sent| - |s.received| >= built
    ensures t == 0 ==> |s.blocks[s.tailBlock].data| - 1 >= built
  {
    hide Occupied, Contents, Nodes, AllOk, IsPow2;
    EndFacts(s, ring, t);
    if t > 0 {
      AllButFrontFull(s, ring, t, unit);
      assert t * unit == (|ring| - 1) * unit;
    }
  }

  /** The step itself, given whether every block is in use. */
  lemma PFullMove<T>(s: State<T>, ring: seq<nat>, t: nat, unit: nat, built: nat)
    requires ProducerOk(s, ring, t, unit, built) && s.producer.PBusy? && s.producer.at.PFull?
    requires s.tailBlock < |s.blocks| && (s.blocks[s.tailBlock].next == s.frontBlock <==> t + 1 == |ring|) && t < |ring|
    requires t + 1 == |ring| ==> s.producer.startLength >= built
    ensures ProducerOk(ProducerMove(s, true), ring, t, unit, built)
  {
    hide Inc, FullBlock, Abs;
  }

  lemma PFullProducer<T>(s: State<T>, ring: seq<nat>, t: nat, unit: nat, built: nat)
    requires RingOk(s, ring, t) && ProducerOk(s, ring, t, unit, built) && Sized(s, ring, unit, built)
    requires s.producer.PBusy? && s.producer.at.PFull?
    ensures ProducerOk(ProducerMove(s, true), ring, t, unit, built)
  {
    hide RingOk, Sized, ProducerMove, FullBlock;
    TailSuccessor(s, ring, t);
    if t + 1 == |ring| { FullQueue(s, ring, t, unit, built); }
    PFullMove(s, ring, t, unit, built);
  }

  /** When the tail block is full and every block is in use, all but the front one are full. */
  lemma AllButFrontFull<T>(s: State<T>, ring: seq<nat>, t: nat, unit: nat)
    requires RingOk(s, ring, t) && t > 0 && s.tailBlock < |s.blocks| && FullBlock(s.blocks[s.tailBlock])
    requires forall i :: 0 <= i < |ring| ==> ring[i] < |s.blocks| && |s.blocks[ring[i]].data| > unit
    ensures |s.sent| - |s.received| >= t * unit
  {
    ItemCount(View(s)[ring[t]]);
    forall i | 0 < i <= t ensures Full(Nodes(s)[ring[i]]) {
      if i == t { assert Nodes(s)[ring[t]] == Abs(View(s)[ring[t]]); }
    }
    assert forall i :: 0 <= i < |ring| ==> Nodes(s)[ring[i]].size > unit;
    ContentsAtLeast(Nodes(s), ring, t, unit);
  }

  lemma PNextTailProducer<T>(s: State<T>, ring: seq<nat>, t: nat, unit: nat, built: nat)
    requires RingOk(s, ring, t) && ProducerOk(s, ring, t, unit, built) && s.producer.PBusy?
    requires s.producer.at.PNextFront? || s.producer.at.PNextTail?
    ensures ProducerOk(ProducerMove(s, true), ring, t, unit, built) && !ProducerMove(s, true).fault == !s.fault
    ensures s.blocks[ring[t + 1]].front == s.blocks[ring[t + 1]].tail
  {
    NextFacts(s, ring, t);
    ItemCount(View(s)[ring[t + 1]]);
  }

  lemma EmptyHasRoom<T>(b: Block<T>)
    requires BlockOk(b) && b.localFront == b.tail
    ensures Inc(b.tail, |b.data|) != b.localFront
  {
    IncIs(b.tail, |b.data|);
  }

  lemma PNextStoreRing<T>(s: State<T>, s': State<T>, ring: seq<nat>, t: nat, e: T)
    requires RingOk(s, ring, t) && MovedOutOk(s) && Quiet(s, s')
    requires t + 1 < |ring| && ring[t + 1] < |s.blocks| && Pending(s) == [] && Pending(s') == [e]
    requires var b := s.blocks[ring[t + 1]];
             b.tail == b.localFront && b.tail < |b.data| && b.data[b.tail] == Val(e)
             && s'.blocks == s.blocks[ring[t + 1] := b.(tail := Inc(b.tail, |b.data|))]
    ensures RingOk(s', ring, t)
  {
    NextFacts(s, ring, t);
    EmptyHasRoom(View(s)[ring[t + 1]]);
    PStoreNodes(s, s', ring[t + 1], e);
    PushPending(Nodes(s), ring, t, e);
    assert Nodes(s)[ring[t + 1]].items + [e] == [e];
  }

  lemma PMoveRing<T>(s: State<T>, ring: seq<nat>, t: nat, unit: nat, built: nat)
    requires RingOk(s, ring, t) && ProducerOk(s, ring, t, unit, built) && s.producer.PBusy?
    requires s.producer.at.PNextPublish? || s.producer.at.PAllocPublish?
    ensures RingOk(ProducerMove(s, true), ring, t + 1)
  {
    hide ProducerOk, ProducerMove, Contents, Inc, BlockOk;
    EndFacts(s, ring, t);
    MoveFacts(s, ring, t, unit, built);
    var s' := ProducerMove(s, true);
    ViewOf(s, s');
    assert Nodes(s') == Nodes(s);
    AdvanceTail(Nodes(s), ring, t, s.producer.element);
  }

  lemma MoveFacts<T>(s: State<T>, ring: seq<nat>, t: nat, unit: nat, built: nat)
    requires RingOk(s, ring, t) && ProducerOk(s, ring, t, unit, built) && s.producer.PBusy?
    requires s.producer.at.PNextPublish? || s.producer.at.PAllocPublish?
    ensures var s' := ProducerMove(s, true);
            && t + 1 < |ring| && s'.blocks == s.blocks && s'.consumer == s.consumer && s'.frontBlock == s.frontBlock
            && s'.tailBlock == ring[t + 1] && s'.sent == s.sent + [s.producer.element] && s'.received == s.received
            && Pending(s) == [s.producer.element] && Pending(s') == []
            && (t == 0 || Full(Nodes(s)[ring[t]]))
  {
    hide RingOk, Inc, FullBlock, Nodes;
    EndFacts(s, ring, t);
    RingEnds(s, ring, t);
    NodesInHeap(s, ring, t);
    assert LeftBehind(s, s.tailBlock);
    if t > 0 { LeftBehindFull(s, ring, t); }
  }

  lemma NodesInHeap<T>(s: State<T>, ring: seq<nat>, t: nat)
    requires RingOk(s, ring, t)
    ensures t < |ring| && ring[t] < |Nodes(s)|
  {
  }

  lemma LeftBehindFull<T>(s: State<T>, ring: seq<nat>, t: nat)
    requires RingOk(s, ring, t) && t > 0 && LeftBehind(s, s.tailBlock)
    ensures t < |ring| && ring[t] < |Nodes(s)| && Full(Nodes(s)[ring[t]])
  {
    EndFacts(s, ring, t);
    RingEnds(s, ring, t);
    hide Occupied, Contents;
    ItemCount(View(s)[ring[t]]);
    assert Nodes(s)[ring[t]] == Abs(View(s)[ring[t]]);
  }

  lemma FreshBlock<T>(size: nat, e: T, next: nat)
    requires IsPow2(size) && size >= 2
    ensures var b := Store(MakeBlock<T>(size), 0, Val(e)).(tail := 1, localTail := 1, next := next);
            BlockOk(b) && Abs(b) == Node([e], size, next)
  {
    var b := Store(MakeBlock<T>(size), 0, Val(e)).(tail := 1, localTail := 1, next := next);
    assert BlockOk(b);
    assert Items(b) == [e];
  }

  lemma PAllocRing<T>(s: State<T>, s': State<T>, ring: seq<nat>, t: nat, b: Block<T>)
    requires RingOk(s, ring, t) && MovedOutOk(s) && Quiet(s, s') && Pending(s) == Pending(s') == []
    requires s'.blocks == s.blocks + [b] && BlockOk(b)
    ensures RingOk(s', ring, t)
  {
    assert forall i :: 0 <= i < |s.blocks| ==> View(s')[i] == View(s)[i];
    assert View(s')[|s.blocks|] == b;
    assert forall i :: 0 <= i < |s.blocks| ==> Nodes(s')[i] == Nodes(s)[i];
    Extended(Nodes(s), Nodes(s'), ring, t, []);
  }

  lemma PLinkRing<T>(s: State<T>, ring: seq<nat>, t: nat, unit: nat, built: nat)
    requires RingOk(s, ring, t) && MovedOutOk(s) && ProducerOk(s, ring, t, unit, built)
    requires s.producer.PBusy? && s.producer.at.PLink?
    ensures t < |ring| && RingOk(ProducerMove(s, true), Inserted(ring, t, s.producer.at.nb), t)
  {
    hide ProducerMove, ProducerOk, MovedOutOk, Contents, Inc, BlockOk;
    EndFacts(s, ring, t);
    LinkFacts(s, ring, t, unit, built);
    var nb, tb := s.producer.at.nb, s.tailBlock;
    var s' := ProducerMove(s, true);
    LinkNodes(s, s', tb, nb);
    LinkBlock(Nodes(s), ring, t, nb, s.producer.element);
  }

  /** Storing a `next` field changes that of one node. */
  lemma LinkNodes<T>(s: State<T>, s': State<T>, tb: nat, nb: nat)
    requires AllOk(s) && tb < |s.blocks| && s'.blocks == s.blocks[tb := s.blocks[tb].(next := nb)]
             && s'.consumer == s.consumer
    ensures AllOk(s') && Nodes(s') == Nodes(s)[tb := Nodes(s)[tb].(next := nb)]
  {
    var v, b := View(s)[tb], s.blocks[tb].(next := nb);
    assert BlockOk(v.(next := nb)) && Items(v.(next := nb)) == Items(v);
    SetView(s, tb, b);
    ViewOf(SetBlock(s, tb, b), s');
    ReplacedNodes(s, s', tb, v.(next := nb));
    hide BlockOk, View;
  }

  lemma LinkFacts<T>(s: State<T>, ring: seq<nat>, t: nat, unit: nat, built: nat)
    requires RingOk(s, ring, t) && MovedOutOk(s) && ProducerOk(s, ring, t, unit, built)
    requires s.producer.PBusy? && s.producer.at.PLink?
    ensures var s', nb, tb := ProducerMove(s, true), s.producer.at.nb, s.tailBlock;
            && t < |ring| && nb < |s.blocks| && nb !in ring && tb < |s.blocks|
            && s'.blocks == s.blocks[tb := s.blocks[tb].(next := nb)]
            && s'.consumer == s.consumer && s'.frontBlock == s.frontBlock && s'.tailBlock == s.tailBlock
            && s'.sent == s.sent && s'.received == s.received
            && Pending(s) == [] && Pending(s') == [s.producer.element]
            && Nodes(s)[nb].items == [s.producer.element] && Nodes(s)[nb].next == Nodes(s)[tb].next
  {
    hide Occupied, Contents, Inc, BlockOk;
    EndFacts(s, ring, t);
    RingEnds(s, ring, t);
    var nb := s.producer.at.nb;
    assert nb != s.frontBlock;
    assert View(s)[nb] == s.blocks[nb];
  }

  lemma Growing(n: nat, unit: nat, built: nat)
    requires n >= 1 && built <= if n <= 1 then unit else (n - 1) * unit
    ensures built <= n * unit
  {
    assert n * unit == (n - 1) * unit + unit;
  }

  lemma PLinkSized<T>(s: State<T>, ring: seq<nat>, t: nat, unit: nat, built: nat)
    requires Sized(s, ring, unit, built) && ProducerOk(s, ring, t, unit, built) && t < |ring|
    requires s.producer.PBusy? && s.producer.at.PLink?
    ensures Sized(ProducerMove(s, true), Inserted(ring, t, s.producer.at.nb), unit, built)
  {
    var s', ring' := ProducerMove(s, true), Inserted(ring, t, s.producer.at.nb);
    forall i | 0 <= i < |ring'| ensures ring'[i] < |s'.blocks| && |s'.blocks[ring'[i]].data| > unit {
      if i != t + 1 { assert ring'[i] == ring[if i <= t then i else i - 1]; }
    }
    Growing(|ring|, unit, built);
  }

  lemma PLinkConsumer<T>(s: State<T>, ring: seq<nat>, t: nat, unit: nat, built: nat)
    requires ConsumerOk(s, ring, t) && ProducerOk(s, ring, t, unit, built) && t < |ring|
    requires s.frontBlock < |s.blocks| && s.producer.PBusy? && s.producer.at.PLink?
    ensures var s', ring' := ProducerMove(s, true), Inserted(ring, t, s.producer.at.nb);
            ProducerOk(s', ring', t, unit, built) && ConsumerOk(s', ring', t)
  {
    ConsumerKept(s, ring, t, ProducerMove(s, true), Inserted(ring, t, s.producer.at.nb), t);
  }

  lemma PAllocEffect<T>(s: State<T>, unit: nat)
    requires s.producer.PBusy? && s.producer.at.PAlloc? && s.producer.at.tb < |s.blocks|
    requires IsPow2(s.largest) && s.largest > unit >= 1
    ensures var s' := ProducerMove(s, true);
            Quiet(s, s') && Pending(s) == Pending(s') == [] && s'.fault == s.fault
            && s'.largest >= s.largest && IsPow2(s'.largest)
            && s'.blocks == s.blocks + [s'.blocks[|s.blocks|]] && BlockOk(s'.blocks[|s.blocks|])
            && Abs(s'.blocks[|s.blocks|]) == Node([s.producer.element], s'.largest, s.blocks[s.producer.at.tb].next)
  {
    DoubledPow2(s.largest);
    var s' := ProducerMove(s, true);
    FreshBlock(s'.largest, s.producer.element, s.blocks[s.producer.at.tb].next);
  }

  lemma PAllocFacts<T>(s: State<T>, ring: seq<nat>, t: nat, unit: nat, built: nat)
    requires RingOk(s, ring, t) && ProducerOk(s, ring, t, unit, built) && Sized(s, ring, unit, built)
    requires s.producer.PBusy? && s.producer.at.PAlloc?
    ensures s.producer.at.tb < |s.blocks| && |s.blocks| !in ring
    ensures IsPow2(s.largest) && s.largest > unit >= 1
  {
    EndFacts(s, ring, t);
  }

  lemma PAllocAfter<T>(s: State<T>, ring: seq<nat>, t: nat, unit: nat, built: nat)
    requires RingOk(s, ring, t) && MovedOutOk(s) && ProducerOk(s, ring, t, unit, built)
    requires Sized(s, ring, unit, built) && s.producer.PBusy? && s.producer.at.PAlloc?
    ensures RingOk(ProducerMove(s, true), ring, t)
  {
    PAllocFacts(s, ring, t, unit, built);
    PAllocEffect(s, unit);
    hide ProducerMove, ProducerOk, Sized, RingOk, BlockOk, Abs, IsPow2, MovedOutOk;
    PAllocRing(s, ProducerMove(s, true), ring, t, ProducerMove(s, true).blocks[|s.blocks|]);
  }

  lemma PAllocProducer<T>(s: State<T>, ring: seq<nat>, t: nat, unit: nat, built: nat)
    requires ProducerOk(s, ring, t, unit, built) && |s.blocks| !in ring
    requires IsPow2(s.largest) && s.largest > unit >= 1
    requires s.producer.PBusy? && s.producer.at.PAlloc? && s.producer.at.tb < |s.blocks|
    ensures ProducerOk(ProducerMove(s, true), ring, t, unit, built)
    ensures ProducerMove(s, true).fault == s.fault
  {
    PAllocEffect(s, unit);
    hide IsPow2, BlockOk, Abs, FullBlock;
  }

  lemma PAllocSized<T>(s: State<T>, ring: seq<nat>, t: nat, unit: nat, built: nat)
    requires Sized(s, ring, unit, built) && s.producer.PBusy? && s.producer.at.PAlloc?
    requires s.producer.at.tb < |s.blocks|
    ensures Sized(ProducerMove(s, true), ring, unit, built)
  {
    DoubledPow2(s.largest);
    SizedKept(s, ProducerMove(s, true), ring, unit, built);
  }

  /** A step that leaves the heap alone keeps the ring. */
  lemma RingUntouched<T>(s: State<T>, s': State<T>, ring: seq<nat>, t: nat)
    requires RingOk(s, ring, t) && Quiet(s, s') && s'.blocks == s.blocks && Pending(s') == Pending(s)
    ensures RingOk(s', ring, t)
  {
    ViewOf(s, s');
    assert Nodes(s') == Nodes(s);
  }

  lemma PNextProducer<T>(s: State<T>, ring: seq<nat>, t: nat, unit: nat, built: nat)
    requires RingOk(s, ring, t) && ProducerOk(s, ring, t, unit, built)
    requires s.producer.PBusy? && s.producer.at.PNext?
    ensures ProducerOk(ProducerMove(s, true), ring, t, unit, built)
  {
    EndFacts(s, ring, t);
    NextFacts(s, ring, t);
    assert Nodes(s)[ring[t]].next == s.blocks[s.tailBlock].next == ring[t + 1];
  }

  /** Where the tail ends up: a publishing step moves it one block on. */
  ghost function TailAfter<T>(s: State<T>, t: nat): nat
    requires s.producer.PBusy?
  {
    if s.producer.at.PNextPublish? || s.producer.at.PAllocPublish? then t + 1 else t
  }

  lemma RingAfterReload<T>(s: State<T>, ring: seq<nat>, t: nat, unit: nat, built: nat)
    requires RingOk(s, ring, t) && s.producer.PBusy? && s.producer.at.PReload?
    requires s.producer.at.tb < |s.blocks|
    ensures RingOk(ProducerMove(s, true), ring, t)
  {
    ReloadBlocks(s);
    hide RingOk, ProducerMove;
    PReloadRing(s, ProducerMove(s, true), ring, t, s.producer.at.tb);
  }

  lemma ReloadBlocks<T>(s: State<T>)
    requires s.producer.PBusy? && s.producer.at.PReload? && s.producer.at.tb < |s.blocks|
    ensures var s', tb := ProducerMove(s, true), s.producer.at.tb;
            Quiet(s, s') && Pending(s) == Pending(s') == []
            && s'.blocks == s.blocks[tb := s.blocks[tb].(localFront := s.blocks[tb].front)]
  {
  }

  lemma RingAfterWrite<T>(s: State<T>, ring: seq<nat>, t: nat, unit: nat, built: nat)
    requires RingOk(s, ring, t) && MovedOutOk(s) && s.producer.PBusy? && s.producer.at.PWrite?
    requires var at := s.producer.at;
             at.tb < |s.blocks| && at.bt == s.blocks[at.tb].tail < |s.blocks[at.tb].data|
    ensures RingOk(ProducerMove(s, true), ring, t)
  {
    PWriteRing(s, ProducerMove(s, true), ring, t, s.producer.at.tb, s.producer.element);
  }

  lemma RingAfterNext<T>(s: State<T>, ring: seq<nat>, t: nat, unit: nat, built: nat)
    requires RingOk(s, ring, t) && MovedOutOk(s) && ProducerOk(s, ring, t, unit, built)
    requires s.producer.PBusy? && (s.producer.at.PNextFront? || s.producer.at.PNextTail?)
    ensures RingOk(ProducerMove(s, true), ring, t)
  {
    PNextTailProducer(s, ring, t, unit, built);
    RefreshEffect(s, ring[t + 1]);
    PReloadRing(s, ProducerMove(s, true), ring, t, ring[t + 1]);
  }

  lemma RefreshEffect<T>(s: State<T>, nb: nat)
    requires s.producer.PBusy? && nb < |s.blocks| && s.blocks[nb].front == s.blocks[nb].tail
    requires s.producer.at.PNextFront? || s.producer.at.PNextTail?
    requires s.producer.at.nb == nb && (s.producer.at.PNextTail? ==> s.producer.at.nf == s.blocks[nb].front)
    ensures var s' := ProducerMove(s, true);
            Quiet(s, s') && Pending(s) == Pending(s') == []
            && s'.blocks == s.blocks[nb := s.blocks[nb].(localFront := s.blocks[nb].front)]
  {
  }

  lemma RingAfterNextWrite<T>(s: State<T>, ring: seq<nat>, t: nat, unit: nat, built: nat)
    requires RingOk(s, ring, t) && MovedOutOk(s) && ProducerOk(s, ring, t, unit, built)
    requires s.producer.PBusy? && (s.producer.at.PNextWrite? || s.producer.at.PNextStore?)
    ensures RingOk(ProducerMove(s, true), ring, t)
  {
    assert BlockOk(View(s)[ring[t + 1]]);
    if s.producer.at.PNextWrite? {
      PWriteRing(s, ProducerMove(s, true), ring, t, ring[t + 1], s.producer.element);
    } else {
      PNextStoreRing(s, ProducerMove(s, true), ring, t, s.producer.element);
    }
  }

  ghost predicate Loading(at: PAt) {
    at.PStart? || at.PTail? || at.PFull? || at.PNext?
  }

  lemma RingAfterLoad<T>(s: State<T>, ring: seq<nat>, t: nat, unit: nat, built: nat)
    requires RingOk(s, ring, t) && s.producer.PBusy? && Loading(s.producer.at)
    requires PInRange(s.producer.at, |s.blocks|)
    ensures RingOk(ProducerMove(s, true), ring, t)
  {
    LoadEffect(s);
    RingUntouched(s, ProducerMove(s, true), ring, t);
  }

  lemma LoadEffect<T>(s: State<T>)
    requires s.producer.PBusy? && Loading(s.producer.at) && PInRange(s.producer.at, |s.blocks|)
    ensures var s' := ProducerMove(s, true);
            Quiet(s, s') && s'.blocks == s.blocks && Pending(s) == Pending(s') == [] && s'.fault == s.fault
  {
  }

  lemma ProducerAfterSimple<T>(s: State<T>, ring: seq<nat>, t: nat, unit: nat, built: nat)
    requires ProducerOk(s, ring, t, unit, built) && s.producer.PBusy?
    requires s.tailBlock < |s.blocks| && s.blocks[s.tailBlock].tail < |s.blocks[s.tailBlock].data|
    requires t + 1 < |ring| ==>
      ring[t + 1] < |s.blocks| && s.blocks[ring[t + 1]].tail < |s.blocks[ring[t + 1]].data|
      && ring[t + 1] != s.tailBlock
    requires var at := s.producer.at;
      at.PStart? || at.PTail? || at.PWrite? || at.PPublish? || at.PNextWrite? || at.PNextStore?
      || at.PNextPublish? || at.PAllocPublish?
    ensures ProducerOk(ProducerMove(s, true), ring, TailAfter(s, t), unit, built)
    ensures ProducerMove(s, true).fault == s.fault
  {
  }

  lemma ProducerFits<T>(s: State<T>, ring: seq<nat>, t: nat, unit: nat, built: nat)
    requires RingOk(s, ring, t) && ProducerOk(s, ring, t, unit, built) && s.producer.PBusy?
    ensures PInRange(s.producer.at, |s.blocks|)
    ensures s.tailBlock < |s.blocks| && s.blocks[s.tailBlock].tail < |s.blocks[s.tailBlock].data|
    ensures t + 1 < |ring| ==>
      ring[t + 1] < |s.blocks| && s.blocks[ring[t + 1]].tail < |s.blocks[ring[t + 1]].data|
      && ring[t + 1] != s.tailBlock && ring[t + 1] != s.frontBlock
    ensures s.frontBlock < |s.blocks| && (t > 0 ==> s.frontBlock != s.tailBlock)
  {
    EndFacts(s, ring, t);
    assert BlockOk(View(s)[s.tailBlock]);
    if t + 1 < |ring| {
      NextFacts(s, ring, t);
      assert BlockOk(View(s)[ring[t + 1]]);
    }
  }

  lemma RingAfter<T>(s: State<T>, ring: seq<nat>, t: nat, unit: nat, built: nat)
    requires RingOk(s, ring, t) && MovedOutOk(s) && ProducerOk(s, ring, t, unit, built)
    requires s.producer.PBusy? && !s.producer.at.PAlloc? && !s.producer.at.PLink?
    ensures RingOk(ProducerMove(s, true), ring, TailAfter(s, t))
  {
    hide RingOk, MovedOutOk, ProducerOk, ProducerMove;
    ProducerFits(s, ring, t, unit, built);
    match s.producer.at
    case PReload(tb, bt) => RingAfterReload(s, ring, t, unit, built);
    case PWrite(tb, bt) => PWriteFacts(s, ring, t, unit, built); RingAfterWrite(s, ring, t, unit, built);
    case PPublish(tb, bt) => PPublishRing(s, ring, t, unit, built);
    case PNextFront(tb, nb) => RingAfterNext(s, ring, t, unit, built);
    case PNextTail(tb, nb, nf) => RingAfterNext(s, ring, t, unit, built);
    case PNextWrite(tb, nb, nt) => RingAfterNextWrite(s, ring, t, unit, built);
    case PNextStore(tb, nb, nt) => RingAfterNextWrite(s, ring, t, unit, built);
    case PNextPublish(tb, nb) => PMoveRing(s, ring, t, unit, built);
    case PAllocPublish(tb, nb) => PMoveRing(s, ring, t, unit, built);
    case _ => RingAfterLoad(s, ring, t, unit, built);
  }

  lemma PWriteFacts<T>(s: State<T>, ring: seq<nat>, t: nat, unit: nat, built: nat)
    requires ProducerOk(s, ring, t, unit, built) && s.producer.PBusy? && s.producer.at.PWrite?
    ensures s.producer.at.tb == s.tailBlock < |s.blocks| && s.producer.at.bt == s.blocks[s.producer.at.tb].tail
  {
  }

  lemma ProducerAfter<T>(s: State<T>, ring: seq<nat>, t: nat, unit: nat, built: nat)
    requires RingOk(s, ring, t) && ProducerOk(s, ring, t, unit, built) && Sized(s, ring, unit, built)
    requires s.producer.PBusy? && !s.producer.at.PAlloc? && !s.producer.at.PLink?
    ensures ProducerOk(ProducerMove(s, true), ring, TailAfter(s, t), unit, built)
    ensures ProducerMove(s, true).fault == s.fault
  {
    hide RingOk, ProducerOk, Sized, ProducerMove;
    ProducerFits(s, ring, t, unit, built);
    match s.producer.at
    case PReload(tb, bt) => ReloadEffect(s); PReloadProducer(s, ring, t, unit, built);
    case PFull(tb) => LoadEffect(s); PFullProducer(s, ring, t, unit, built);
    case PNext(tb) => LoadEffect(s); PNextProducer(s, ring, t, unit, built);
    case PNextFront(tb, nb) => PNextTailProducer(s, ring, t, unit, built);
    case PNextTail(tb, nb, nf) => PNextTailProducer(s, ring, t, unit, built);
    case _ => ProducerAfterSimple(s, ring, t, unit, built);
  }

  lemma ReloadEffect<T>(s: State<T>)
    requires s.producer.PBusy? && s.producer.at.PReload? && s.producer.at.tb < |s.blocks|
    ensures ProducerMove(s, true).fault == s.fault
  {
  }

  /** Sizes never change, and only allocating depends on memory being left. */
  lemma ProducerShape<T>(s: State<T>, memoryLeft: bool)
    requires s.producer.PBusy? && PInRange(s.producer.at, |s.blocks|) && !s.producer.at.PAlloc?
    ensures var s' := ProducerMove(s, memoryLeft);
            s' == ProducerMove(s, true) && |s'.blocks| == |s.blocks| && s'.largest == s.largest
            && forall i {:trigger s'.blocks[i]} :: 0 <= i < |s.blocks| ==> |s'.blocks[i].data| == |s.blocks[i].data|
  {
  }

  lemma ConsumerAfter<T>(s: State<T>, ring: seq<nat>, t: nat, unit: nat, built: nat, memoryLeft: bool)
    requires RingOk(s, ring, t) && ProducerOk(s, ring, t, unit, built) && ConsumerOk(s, ring, t)
    requires s.producer.PBusy? && !s.producer.at.PLink?
    ensures TailAfter(s, t) < |ring|
    ensures ConsumerOk(ProducerMove(s, memoryLeft), ring, TailAfter(s, t))
  {
    ProducerFits(s, ring, t, unit, built);
    assert TailAfter(s, t) < |ring|;
    ProducerLeavesConsumer(s, ring, t, memoryLeft, TailAfter(s, t));
    hide RingOk, ProducerOk, ConsumerOk, ProducerMove;
    ConsumerKept(s, ring, t, ProducerMove(s, memoryLeft), ring, TailAfter(s, t));
  }

  lemma Assembled<T>(s: State<T>, ring: seq<nat>, t: nat, unit: nat, built: nat)
    requires !s.fault && RingOk(s, ring, t) && Sized(s, ring, unit, built)
    requires ProducerOk(s, ring, t, unit, built) && ConsumerOk(s, ring, t)
    ensures Inv(s, unit, built)
  {
    hide RingOk, ProducerOk, ConsumerOk, Sized;
    assert Core(s, ring, t, unit, built);
  }

  lemma PAllocRefused<T>(s: State<T>)
    requires s.producer.PBusy? && s.producer.at.PAlloc? && s.producer.at.tb < |s.blocks|
    ensures var s' := ProducerMove(s, false);
            Quiet(s, s') && s'.blocks == s.blocks && s'.largest == s.largest
            && Pending(s) == Pending(s') == [] && s'.fault == s.fault
  {
  }

  lemma PAllocRefusedProducer<T>(s: State<T>, ring: seq<nat>, t: nat, unit: nat, built: nat)
    requires s.producer.PBusy? && s.producer.at.PAlloc? && s.producer.at.tb < |s.blocks|
    ensures ProducerOk(ProducerMove(s, false), ring, t, unit, built)
  {
  }

  lemma PAllocKeeps<T>(s: State<T>, ring: seq<nat>, t: nat, unit: nat, built: nat, memoryLeft: bool)
    requires Core(s, ring, t, unit, built) && s.producer.PBusy? && s.producer.at.PAlloc?
    ensures Inv(ProducerMove(s, memoryLeft), unit, built)
  {
    assert TailAfter(s, t) == t;
    hide RingOk, ProducerOk, ConsumerOk, Sized, ProducerMove, MovedOutOk, TailAfter, IsPow2, Inv;
    PAllocFacts(s, ring, t, unit, built);
    MovedOut(s, ring, t);
    ConsumerAfter(s, ring, t, unit, built, memoryLeft);
    if !memoryLeft { PAllocRefused(s); }
    if memoryLeft {
      PAllocAfter(s, ring, t, unit, built);
      PAllocProducer(s, ring, t, unit, built);
      PAllocSized(s, ring, t, unit, built);
    } else {
      RingUntouched(s, ProducerMove(s, false), ring, t);
      SizedKept(s, ProducerMove(s, false), ring, unit, built);
      PAllocRefusedProducer(s, ring, t, unit, built);
    }
    Assembled(ProducerMove(s, memoryLeft), ring, t, unit, built);
  }

  lemma PLinkKeeps<T>(s: State<T>, ring: seq<nat>, t: nat, unit: nat, built: nat)
    requires Core(s, ring, t, unit, built) && s.producer.PBusy? && s.producer.at.PLink?
    ensures Inv(ProducerMove(s, true), unit, built)
  {
    ProducerFits(s, ring, t, unit, built);
    assert MovedOutOk(s) && t < |ring| && !ProducerMove(s, true).fault;
    hide RingOk, ProducerOk, ConsumerOk, Sized, ProducerMove, MovedOutOk;
    PLinkRing(s, ring, t, unit, built);
    PLinkSized(s, ring, t, unit, built);
    PLinkConsumer(s, ring, t, unit, built);
    Assembled(ProducerMove(s, true), Inserted(ring, t, s.producer.at.nb), t, unit, built);
  }

  lemma PPlainKeeps<T>(s: State<T>, ring: seq<nat>, t: nat, unit: nat, built: nat)
    requires Core(s, ring, t, unit, built) && s.producer.PBusy? && MovedOutOk(s)
    requires !s.producer.at.PAlloc? && !s.producer.at.PLink? && PInRange(s.producer.at, |s.blocks|)
    ensures Inv(ProducerMove(s, true), unit, built)
  {
    assert IsPow2(s.largest) && s.largest > unit;
    hide RingOk, ProducerOk, ConsumerOk, Sized, ProducerMove, MovedOutOk, PInRange, IsPow2, Inv;
    ProducerShape(s, true);
    RingAfter(s, ring, t, unit, built);
    ProducerAfter(s, ring, t, unit, built);
    ConsumerAfter(s, ring, t, unit, built, true);
    SizedKept(s, ProducerMove(s, true), ring, unit, built);
    Assembled(ProducerMove(s, true), ring, TailAfter(s, t), unit, built);
  }

  lemma CoreFits<T>(s: State<T>, ring: seq<nat>, t: nat, unit: nat, built: nat)
    requires Core(s, ring, t, unit, built)
    ensures MovedOutOk(s)
    ensures s.producer.PBusy? ==> PInRange(s.producer.at, |s.blocks|)
  {
    hide RingOk, ProducerOk, ConsumerOk, Sized, MovedOutOk, PInRange;
    MovedOut(s, ring, t);
    if s.producer.PBusy? { ProducerFits(s, ring, t, unit, built); }
  }

  lemma MovedOut<T>(s: State<T>, ring: seq<nat>, t: nat)
    requires ConsumerOk(s, ring, t)
    ensures MovedOutOk(s)
  {
  }

  /** Every producer step keeps the invariant. */
  lemma ProducerKeeps<T>(s: State<T>, unit: nat, built: nat, memoryLeft: bool)
    requires Inv(s, unit, built) && s.producer.PBusy?
    ensures Inv(ProducerMove(s, memoryLeft), unit, built)
  {
    var ring, t :| Core(s, ring, t, unit, built);
    hide Core, ProducerMove, MovedOutOk, PInRange, Inv;
    CoreFits(s, ring, t, unit, built);
    if s.producer.at.PAlloc? {
      PAllocKeeps(s, ring, t, unit, built, memoryLeft);
    } else {
      ProducerShape(s, memoryLeft);
      if s.producer.at.PLink? {
        PLinkKeeps(s, ring, t, unit, built);
      } else {
        PPlainKeeps(s, ring, t, unit, built);
      }
    }
  }

  // ------------------------------------------------------------------ consumer steps

  /** The fields the producer relies on are as before, wherever the consumer may not write. */
  ghost predicate ProducerFrame<T>(s: State<T>, ring: seq<nat>, t: nat, s': State<T>, ring': seq<nat>, t': nat) {
    && s'.producer == s.producer && s'.tailBlock == s.tailBlock && |s'.blocks| == |s.blocks|
    && s'.sent == s.sent && |s.received| <= |s'.received|
    && (s.frontBlock == s.tailBlock ==> s'.frontBlock == s.frontBlock)
    && |ring'| == |ring| && t < |ring| && t' <= t
    && (t + 1 < |ring| ==> ring'[t' + 1] == ring[t + 1] && ring[t + 1] != s.frontBlock)
    && (forall x :: x in ring' ==> x in ring) && s.frontBlock in ring
    && (forall i {:trigger s'.blocks[i]} :: 0 <= i < |s.blocks| ==>
          && s'.blocks[i].tail == s.blocks[i].tail && s'.blocks[i].localFront == s.blocks[i].localFront
          && s'.blocks[i].next == s.blocks[i].next && |s'.blocks[i].data| == |s.blocks[i].data|
          && (i != s.frontBlock ==>
                s'.blocks[i].front == s.blocks[i].front && s'.blocks[i].data == s.blocks[i].data
                && (i !in ring ==> s'.blocks[i] == s.blocks[i]))
          && (s.blocks[i].tail < |s.blocks[i].data| ==>
                s'.blocks[i].data[s.blocks[i].tail] == s.blocks[i].data[s.blocks[i].tail]))
  }

  lemma ProducerKept<T>(s: State<T>, ring: seq<nat>, t: nat, s': State<T>, ring': seq<nat>, t': nat, unit: nat,
                        built: nat)
    requires ProducerOk(s, ring, t, unit, built) && ProducerFrame(s, ring, t, s', ring', t')
    ensures ProducerOk(s', ring', t', unit, built)
  {
    match s.producer
    case PIdle(_) =>
    case PBusy(_, _, _, at) =>
      match at
      case PStart => case PTail(_) => case PReload(_, _) => case PWrite(_, _) => case PPublish(_, _) =>
      case PFull(_) => case PNext(_) => case PNextFront(_, _) => case PNextTail(_, _, _) =>
      case PNextWrite(_, _, _) => case PNextStore(_, _, _) => case PNextPublish(_, _) =>
      case PAlloc(_) => case PLink(_, _) => case PAllocPublish(_, _) =>
  }

  lemma RefreshLocalTail<T>(v: Block<T>)
    requires BlockOk(v)
    ensures BlockOk(v.(localTail := v.tail)) && Abs(v.(localTail := v.tail)) == Abs(v)
  {
    assert Items(v.(localTail := v.tail)) == Items(v);
  }

  /** Neither before nor after has the consumer an element in hand. */
  ghost predicate EmptyHanded<T>(s: State<T>, s': State<T>) {
    && !s.consumer.CPublish? && !s'.consumer.CPublish? && s'.producer == s.producer
    && s'.sent == s.sent && s'.received == s.received && s'.tailBlock == s.tailBlock
  }

  lemma CLoadRing<T>(s: State<T>, s': State<T>, ring: seq<nat>, t: nat)
    requires RingOk(s, ring, t) && EmptyHanded(s, s') && s'.blocks == s.blocks && s'.frontBlock == s.frontBlock
    ensures RingOk(s', ring, t)
  {
    assert Nodes(s') == Nodes(s);
  }

  lemma CRefreshRing<T>(s: State<T>, s': State<T>, ring: seq<nat>, t: nat, i: nat)
    requires RingOk(s, ring, t) && EmptyHanded(s, s') && s'.frontBlock == s.frontBlock
    requires i < |s.blocks| && s'.blocks == s.blocks[i := s.blocks[i].(localTail := s.blocks[i].tail)]
    ensures RingOk(s', ring, t)
  {
    RefreshLocalTail(View(s)[i]);
    RingKept(s, s', ring, t, i, View(s)[i].(localTail := View(s)[i].tail));
  }

  lemma CAdvanceRing<T>(s: State<T>, s': State<T>, ring: seq<nat>, t: nat)
    requires RingOk(s, ring, t) && EmptyHanded(s, s') && s'.blocks == s.blocks
    requires t > 0 && s.frontBlock < |s.blocks| && s.blocks[s.frontBlock].front == s.blocks[s.frontBlock].tail
    requires s'.frontBlock == ring[1]
    ensures RingOk(s', Rotated(ring), t - 1)
  {
    FrontDrained(s, ring, t);
    hide BlockOk, View, Contents;
    SameNodes(s, s');
    AdvanceFront(Nodes(s), ring, t, Pending(s));
  }

  lemma FrontDrained<T>(s: State<T>, ring: seq<nat>, t: nat)
    requires RingOk(s, ring, t) && s.frontBlock < |s.blocks|
             && s.blocks[s.frontBlock].front == s.blocks[s.frontBlock].tail
    ensures Nodes(s)[ring[0]].items == []
  {
    RingEnds(s, ring, t);
    hide Occupied, Contents;
    ItemCount(View(s)[ring[0]]);
    assert Nodes(s)[ring[0]] == Abs(View(s)[ring[0]]);
  }

  lemma SameNodes<T>(s: State<T>, s': State<T>)
    requires EmptyHanded(s, s') && s'.blocks == s.blocks
    ensures Nodes(s') == Nodes(s) && (AllOk(s) ==> AllOk(s')) && Pending(s') == Pending(s)
  {
    assert View(s') == View(s);
    hide View;
    assert Nodes(s') == Nodes(s);
  }

  lemma CReadRing<T>(s: State<T>, s': State<T>, ring: seq<nat>, t: nat, fb: nat, bf: nat)
    requires RingOk(s, ring, t) && !s.consumer.CPublish? && fb < |s.blocks| && bf < |s.blocks[fb].data|
    requires s.blocks[fb].data[bf].Val?
    requires s' == SetBlock(s, fb, Store(s.blocks[fb], bf, Raw)).(
                     consumer := CPublish(fb, bf, s.blocks[fb].data[bf].value))
    ensures RingOk(s', ring, t)
  {
    assert Store(Store(s.blocks[fb], bf, Raw), bf, s.blocks[fb].data[bf]) == s.blocks[fb];
    assert View(s') == View(s);
    assert Nodes(s') == Nodes(s);
  }

  /** After a pop the freed slot may hold anything. */
  lemma PopAbs<T>(v: Block<T>, c: Cell<T>)
    requires BlockOk(v) && v.front != v.localTail
    ensures var v' := Store(v, v.front, c).(front := Inc(v.front, |v.data|));
            BlockOk(v') && |Abs(v).items| > 0 && v.data[v.front] == Val(Abs(v).items[0])
            && Abs(v') == Abs(v).(items := Abs(v).items[1..])
  {
    Pop(v);
    IncIs(v.front, |v.data|);
    var n := |v.data|;
    var u := v.(front := Inc(v.front, n));
    var v' := Store(u, v.front, c);
    assert forall j: nat :: j < Count(u) ==> At(u.front, j, n) != v.front;
    assert BlockOk(v');
    assert Items(v') == Items(u);
    assert Store(v, v.front, c).(front := Inc(v.front, n)) == v';
  }

  lemma CPublishNodes<T>(s: State<T>, s': State<T>, fb: nat, bf: nat, x: T)
    requires AllOk(s) && s.consumer == CPublish(fb, bf, x) && !s'.consumer.CPublish?
    requires fb < |s.blocks| && bf == s.blocks[fb].front < |s.blocks[fb].data| && bf != s.blocks[fb].localTail
    requires s'.blocks == s.blocks[fb := s.blocks[fb].(front := Inc(bf, |s.blocks[fb].data|))]
    ensures AllOk(s') && |Nodes(s)[fb].items| > 0 && Nodes(s)[fb].items[0] == x
    ensures Nodes(s') == Nodes(s)[fb := Nodes(s)[fb].(items := Nodes(s)[fb].items[1..])]
  {
    var v := View(s)[fb];
    assert v == Store(s.blocks[fb], bf, Val(x));
    PopAbs(v, s.blocks[fb].data[bf]);
    var v' := Store(v, bf, s.blocks[fb].data[bf]).(front := Inc(bf, |v.data|));
    assert v'.data == s.blocks[fb].data;
    assert View(s') == View(s)[fb := v'];
    ReplacedNodes(s, s', fb, v');
  }

  lemma CPublishRing<T>(s: State<T>, s': State<T>, ring: seq<nat>, t: nat, fb: nat, bf: nat, x: T)
    requires RingOk(s, ring, t) && s.consumer == CPublish(fb, bf, x) && !s'.consumer.CPublish?
    requires fb == s.frontBlock < |s.blocks|
    requires bf == s.blocks[fb].front < |s.blocks[fb].data| && bf != s.blocks[fb].localTail
    requires s'.blocks == s.blocks[fb := s.blocks[fb].(front := Inc(bf, |s.blocks[fb].data|))]
    requires s'.sent == s.sent && s'.received == s.received + [x] && s'.producer == s.producer
    requires s'.frontBlock == s.frontBlock && s'.tailBlock == s.tailBlock
    ensures RingOk(s', ring, t)
  {
    RingParts(s, ring, t);
    CPublishNodes(s, s', fb, bf, x) by { hide RingOk, Occupied, Contents; }
    hide RingOk, AllOk, Occupied, Contents, Nodes;
    PopFront(Nodes(s), ring, t, Pending(s));
    Reassociate(s.received, x, Contents(Nodes(s'), ring, t + 1));
    RingFromParts(s', ring, t);
  }

  lemma Reassociate<T>(a: seq<T>, x: T, c: seq<T>)
    ensures a + ([x] + c) == (a + [x]) + c
  {
  }

  lemma RingParts<T>(s: State<T>, ring: seq<nat>, t: nat)
    requires RingOk(s, ring, t)
    ensures AllOk(s) && Occupied(Nodes(s), ring, t, Pending(s)) && t < |ring|
    ensures ring[0] == s.frontBlock && ring[t] == s.tailBlock
    ensures s.sent == s.received + Contents(Nodes(s), ring, t + 1)
  {
  }

  lemma RingFromParts<T>(s: State<T>, ring: seq<nat>, t: nat)
    requires AllOk(s) && Occupied(Nodes(s), ring, t, Pending(s)) && t < |ring|
    requires ring[0] == s.frontBlock && ring[t] == s.tailBlock
    requires s.sent == s.received + Contents(Nodes(s), ring, t + 1)
    ensures RingOk(s, ring, t)
  {
    hide AllOk, Occupied, Contents, Nodes;
  }

  /** The consumer's position refers to blocks of the heap, and its element to a live cell. */
  lemma ConsumerFits<T>(s: State<T>, ring: seq<nat>, t: nat)
    requires RingOk(s, ring, t) && ConsumerOk(s, ring, t)
    ensures CInRange(s.consumer, |s.blocks|)
    ensures s.frontBlock < |s.blocks| && s.frontBlock in ring && t < |ring|
    ensures s.frontBlock == s.tailBlock <==> t == 0
    ensures t + 1 < |ring| ==> ring[t + 1] != s.frontBlock
    ensures s.consumer.CRead? ==>
      var b := s.blocks[s.consumer.fb]; s.consumer.bf < |b.data| && b.data[s.consumer.bf].Val?
    ensures t > 0 ==> ring[1] < |s.blocks| && s.blocks[ring[1]].front != s.blocks[ring[1]].tail && ring[1] != ring[0]
    ensures t > 0 ==> s.blocks[s.frontBlock].next == ring[1]
    ensures t == 0 && s.blocks[s.frontBlock].front == s.blocks[s.frontBlock].tail ==> |s.sent| == |s.received|
  {
    EndFacts(s, ring, t);
    assert ring[0] in ring;
    assert InHeap(Nodes(s), ring) && Distinct(ring);
    ItemCount(View(s)[ring[0]]);
    if t > 0 {
      SecondBlock(s, ring, t);
    } else {
      assert Contents(Nodes(s), ring, 0) == [];
      assert Contents(Nodes(s), ring, 1) == Contents(Nodes(s), ring, 0) + Nodes(s)[ring[0]].items;
      assert Nodes(s)[ring[0]] == Abs(View(s)[ring[0]]);
    }
    if s.consumer.CRead? { LiveFront(View(s)[s.frontBlock]); }
  }

  lemma SecondBlock<T>(s: State<T>, ring: seq<nat>, t: nat)
    requires RingOk(s, ring, t) && t > 0
    ensures ring[1] < |s.blocks| && s.blocks[ring[1]].front != s.blocks[ring[1]].tail
    ensures s.frontBlock < |s.blocks| && s.blocks[s.frontBlock].next == ring[1]
  {
    assert Nodes(s)[ring[0]].next == ring[1];
    assert Nodes(s)[ring[1]] == Abs(View(s)[ring[1]]);
    ItemCount(View(s)[ring[1]]);
  }

  lemma LiveFront<T>(b: Block<T>)
    requires BlockOk(b) && b.front != b.localTail
    ensures b.data[b.front].Val?
  {
    assert At(b.front, 0, |b.data|) == b.front;
  }

  ghost predicate CLoading<T>(c: Consumer<T>) {
    c.CStart? || c.CFront? || c.CCheckTail? || c.CAgain? || c.CAgainFront? || c.CNext? || c.CNextFront? || c.CIdle?
  }

  ghost predicate CRefreshing<T>(c: Consumer<T>) {
    c.CReload? || c.CAgainTail? || c.CNextTail?
  }

  ghost function Refreshed<T>(c: Consumer<T>): nat
    requires CRefreshing(c)
  {
    if c.CNextTail? then c.nb else c.fb
  }

  lemma CLoadEffect<T>(s: State<T>)
    requires CLoading(s.consumer) && CInRange(s.consumer, |s.blocks|)
    ensures var s' := ConsumerMove(s);
            EmptyHanded(s, s') && s'.blocks == s.blocks && s'.frontBlock == s.frontBlock
            && s'.fault == s.fault && s'.largest == s.largest
  {
  }

  lemma CRefreshEffect<T>(s: State<T>)
    requires CRefreshing(s.consumer) && CInRange(s.consumer, |s.blocks|)
    requires s.consumer.CNextTail? ==> s.consumer.nf != s.blocks[s.consumer.nb].tail
    ensures var s', i := ConsumerMove(s), Refreshed(s.consumer);
            EmptyHanded(s, s') && s'.frontBlock == s.frontBlock && s'.fault == s.fault && s'.largest == s.largest
            && s'.blocks == s.blocks[i := s.blocks[i].(localTail := s.blocks[i].tail)]
  {
  }

  /** The new position of the consumer after a step that leaves the front block in place. */
  lemma ConsumerAfterMove<T>(s: State<T>, ring: seq<nat>, t: nat)
    requires ConsumerOk(s, ring, t) && CInRange(s.consumer, |s.blocks|)
    requires s.frontBlock < |s.blocks| && t < |ring| && (t == 0 <==> s.frontBlock == s.tailBlock)
    requires CLoading(s.consumer) || CRefreshing(s.consumer)
    requires t > 0 ==>
              ring[1] < |s.blocks| && s.blocks[ring[1]].front != s.blocks[ring[1]].tail && ring[1] != s.frontBlock
    requires t > 0 ==> s.blocks[s.frontBlock].next == ring[1]
    requires t == 0 && s.blocks[s.frontBlock].front == s.blocks[s.frontBlock].tail ==> |s.sent| == |s.received|
    ensures ConsumerOk(ConsumerMove(s), ring, t)
  {
    match s.consumer
    case CIdle(_) => case CStart => case CFront(_) => case CReload(_, _) => case CCheckTail(_, _) =>
    case CAgain => case CAgainTail(_) => case CAgainFront(_, _) => case CNext(_) =>
    case CNextFront(_, _) => case CNextTail(_, _, _) =>
  }

  lemma CLoadKeeps<T>(s: State<T>, ring: seq<nat>, t: nat, unit: nat, built: nat)
    requires Core(s, ring, t, unit, built) && CLoading(s.consumer)
    ensures Inv(ConsumerMove(s), unit, built)
  {
    ConsumerFits(s, ring, t);
    CLoadEffect(s);
    assert ring[0] == s.frontBlock;
    ConsumerAfterMove(s, ring, t);
    assert IsPow2(s.largest) && s.largest > unit;
    hide RingOk, ConsumerOk, ProducerOk, Sized, ConsumerMove, CLoading, CInRange, IsPow2, Inv;
    CLoadRing(s, ConsumerMove(s), ring, t);
    ProducerKept(s, ring, t, ConsumerMove(s), ring, t, unit, built);
    SizedKept(s, ConsumerMove(s), ring, unit, built);
    Assembled(ConsumerMove(s), ring, t, unit, built);
  }

  lemma CRefreshKeeps<T>(s: State<T>, ring: seq<nat>, t: nat, unit: nat, built: nat)
    requires Core(s, ring, t, unit, built) && CRefreshing(s.consumer)
    ensures Inv(ConsumerMove(s), unit, built)
  {
    hide RingOk, ConsumerOk, ProducerOk, Sized, ConsumerMove, CRefreshing, CInRange, Refreshed, IsPow2, Inv;
    RingEnds(s, ring, t);
    ConsumerFits(s, ring, t);
    RefreshFacts(s, ring, t);
    CRefreshEffect(s);
    ConsumerAfterMove(s, ring, t);
    SizedFacts(s, ring, unit, built);
    CRefreshRing(s, ConsumerMove(s), ring, t, Refreshed(s.consumer));
    ProducerKept(s, ring, t, ConsumerMove(s), ring, t, unit, built);
    SizedKept(s, ConsumerMove(s), ring, unit, built);
    Assembled(ConsumerMove(s), ring, t, unit, built);
  }

  lemma RingEnds<T>(s: State<T>, ring: seq<nat>, t: nat)
    requires RingOk(s, ring, t)
    ensures t < |ring| && ring[0] == s.frontBlock && ring[t] == s.tailBlock
  {
  }

  lemma SizedFacts<T>(s: State<T>, ring: seq<nat>, unit: nat, built: nat)
    requires Sized(s, ring, unit, built)
    ensures IsPow2(s.largest) && s.largest > unit
  {
  }

  /** The block whose tail is reloaded is in the ring. */
  lemma RefreshFacts<T>(s: State<T>, ring: seq<nat>, t: nat)
    requires ConsumerOk(s, ring, t) && CRefreshing(s.consumer) && t < |ring| && ring[0] == s.frontBlock < |s.blocks|
    requires CInRange(s.consumer, |s.blocks|)
    ensures Refreshed(s.consumer) < |s.blocks| && Refreshed(s.consumer) in ring
    ensures s.consumer.CNextTail? ==>
              t > 0 && s.consumer.nb == ring[1] && s.consumer.nf == s.blocks[s.consumer.nb].front
  {
  }

  /** What the three steps that move an element or an end do to the state. */
  lemma CTakeEffect<T>(s: State<T>, ring: seq<nat>, t: nat)
    requires ConsumerOk(s, ring, t) && CInRange(s.consumer, |s.blocks|) && t < |ring|
    requires s.consumer.CAdvance? || s.consumer.CRead? || s.consumer.CPublish?
    requires s.consumer.CRead? ==>
      var b := s.blocks[s.consumer.fb]; s.consumer.bf < |b.data| && b.data[s.consumer.bf].Val?
    ensures var s' := ConsumerMove(s);
            s'.fault == s.fault && s'.largest == s.largest && |s'.blocks| == |s.blocks|
            && (s.consumer.CAdvance? ==>
                      t > 0 && s'.frontBlock == ring[1] && EmptyHanded(s, s') && s'.blocks == s.blocks)
            && ConsumerOk(s', if s.consumer.CAdvance? then Rotated(ring) else ring,
                          if s.consumer.CAdvance? then t - 1 else t)
            && (forall i {:trigger s'.blocks[i]} :: 0 <= i < |s.blocks| ==> |s'.blocks[i].data| == |s.blocks[i].data|)
  {
  }

  lemma CAdvanceFacts<T>(s: State<T>, ring: seq<nat>, t: nat)
    requires RingOk(s, ring, t) && ConsumerOk(s, ring, t) && s.consumer.CAdvance?
    ensures s.frontBlock == ring[0] && s.frontBlock < |s.blocks|
    ensures s.blocks[s.frontBlock].front == s.blocks[s.frontBlock].tail
  {
  }

  lemma CAdvanceParts<T>(s: State<T>, ring: seq<nat>, t: nat, unit: nat, built: nat)
    requires RingOk(s, ring, t) && ConsumerOk(s, ring, t) && Sized(s, ring, unit, built) && s.consumer.CAdvance?
    ensures 0 < t < |ring| && ConsumerMove(s).fault == s.fault
    ensures ConsumerOk(ConsumerMove(s), Rotated(ring), t - 1) && RingOk(ConsumerMove(s), Rotated(ring), t - 1)
    ensures ProducerFrame(s, ring, t, ConsumerMove(s), Rotated(ring), t - 1)
    ensures Sized(ConsumerMove(s), Rotated(ring), unit, built)
  {
    hide RingOk, ConsumerOk, Sized, ConsumerMove, Rotated, ProducerFrame, EmptyHanded, CInRange;
    ConsumerFits(s, ring, t);
    CAdvanceFacts(s, ring, t);
    var s' := ConsumerMove(s);
    CTakeEffect(s, ring, t);
    RotatedSized(s, s', ring, unit, built);
    RotatedFrame(s, s', ring, t);
    CAdvanceRing(s, s', ring, t);
  }

  lemma CAdvanceKeeps<T>(s: State<T>, ring: seq<nat>, t: nat, unit: nat, built: nat)
    requires Core(s, ring, t, unit, built) && s.consumer.CAdvance?
    ensures Inv(ConsumerMove(s), unit, built)
  {
    hide RingOk, ConsumerOk, ProducerOk, Sized, ConsumerMove, Inv, Rotated, ProducerFrame;
    CAdvanceParts(s, ring, t, unit, built);
    ProducerKept(s, ring, t, ConsumerMove(s), Rotated(ring), t - 1, unit, built);
    Assembled(ConsumerMove(s), Rotated(ring), t - 1, unit, built);
  }

  lemma RotatedSized<T>(s: State<T>, s': State<T>, ring: seq<nat>, unit: nat, built: nat)
    requires Sized(s, ring, unit, built) && |ring| >= 1 && s'.blocks == s.blocks && s'.largest == s.largest
    ensures Sized(s', Rotated(ring), unit, built)
  {
    var ring' := Rotated(ring);
    forall i | 0 <= i < |ring'| ensures ring'[i] < |s.blocks| && |s.blocks[ring'[i]].data| > unit {
      assert ring'[i] == ring[if i + 1 < |ring| then i + 1 else 0];
    }
  }

  lemma RotatedFrame<T>(s: State<T>, s': State<T>, ring: seq<nat>, t: nat)
    requires 0 < t < |ring| && EmptyHanded(s, s') && s'.blocks == s.blocks
    requires s.frontBlock == ring[0] && s.frontBlock != s.tailBlock
    requires t + 1 < |ring| ==> ring[t + 1] != s.frontBlock
    ensures ProducerFrame(s, ring, t, s', Rotated(ring), t - 1)
  {
    assert forall x :: x in Rotated(ring) ==> x in ring;
    assert ring[0] in ring;
  }

  lemma CReadFrame<T>(s: State<T>, ring: seq<nat>, t: nat)
    requires s.consumer.CRead? && s.consumer.fb == s.frontBlock < |s.blocks| && s.frontBlock in ring && t < |ring|
    requires var b := s.blocks[s.frontBlock];
             s.consumer.bf < |b.data| && b.data[s.consumer.bf].Val? && s.consumer.bf != b.tail
    requires t + 1 < |ring| ==> ring[t + 1] != s.frontBlock
    ensures ProducerFrame(s, ring, t, ConsumerMove(s), ring, t)
    ensures ConsumerMove(s) == SetBlock(s, s.frontBlock, Store(s.blocks[s.frontBlock], s.consumer.bf, Raw)).(
              consumer := CPublish(s.frontBlock, s.consumer.bf, s.blocks[s.frontBlock].data[s.consumer.bf].value))
  {
  }

  lemma CReadKeeps<T>(s: State<T>, ring: seq<nat>, t: nat, unit: nat, built: nat)
    requires Core(s, ring, t, unit, built) && s.consumer.CRead?
    ensures Inv(ConsumerMove(s), unit, built)
  {
    ConsumerFits(s, ring, t);
    var fb, bf := s.consumer.fb, s.consumer.bf;
    assert fb == s.frontBlock && BlockOk(View(s)[fb]) && bf != s.blocks[fb].tail;
    assert IsPow2(s.largest) && s.largest > unit;
    hide RingOk, ConsumerOk, ProducerOk, Sized, ConsumerMove, Inv, ProducerFrame, BlockOk, IsPow2;
    var s' := ConsumerMove(s);
    CTakeEffect(s, ring, t);
    CReadFrame(s, ring, t);
    CReadRing(s, s', ring, t, fb, bf);
    SizedKept(s, s', ring, unit, built);
    ProducerKept(s, ring, t, s', ring, t, unit, built);
    Assembled(s', ring, t, unit, built);
  }

  lemma CPublishEffect<T>(s: State<T>, ring: seq<nat>, t: nat)
    requires s.consumer.CPublish? && s.consumer.fb == s.frontBlock < |s.blocks| && s.frontBlock in ring && t < |ring|
    requires t + 1 < |ring| ==> ring[t + 1] != s.frontBlock
    ensures var s', b := ConsumerMove(s), s.blocks[s.frontBlock];
            ProducerFrame(s, ring, t, s', ring, t) && !s'.consumer.CPublish?
            && s'.blocks == s.blocks[s.frontBlock := b.(front := Inc(s.consumer.bf, |b.data|))]
            && s'.received == s.received + [s.consumer.value] && s'.frontBlock == s.frontBlock
  {
  }

  lemma CPublishKeeps<T>(s: State<T>, ring: seq<nat>, t: nat, unit: nat, built: nat)
    requires Core(s, ring, t, unit, built) && s.consumer.CPublish?
    ensures Inv(ConsumerMove(s), unit, built)
  {
    ConsumerFits(s, ring, t);
    assert AtElement(s, s.consumer.fb, s.consumer.bf) && s.consumer.bf < |s.blocks[s.consumer.fb].data|;
    assert IsPow2(s.largest) && s.largest > unit;
    hide RingOk, ConsumerOk, ProducerOk, Sized, ConsumerMove, Inv, IsPow2;
    var s' := ConsumerMove(s);
    CTakeEffect(s, ring, t);
    CPublishEffect(s, ring, t);
    CPublishRing(s, s', ring, t, s.consumer.fb, s.consumer.bf, s.consumer.value);
    SizedKept(s, s', ring, unit, built);
    hide ProducerFrame;
    ProducerKept(s, ring, t, s', ring, t, unit, built);
    Assembled(s', ring, t, unit, built);
  }

  /** Every consumer step keeps the invariant. */
  lemma ConsumerKeeps<T>(s: State<T>, unit: nat, built: nat)
    requires Inv(s, unit, built)
    ensures Inv(ConsumerMove(s), unit, built)
  {
    var ring, t :| Core(s, ring, t, unit, built);
    hide Core, Inv, ConsumerMove;
    if CLoading(s.consumer) {
      CLoadKeeps(s, ring, t, unit, built);
    } else if CRefreshing(s.consumer) {
      CRefreshKeeps(s, ring, t, unit, built);
    } else if s.consumer.CAdvance? {
      CAdvanceKeeps(s, ring, t, unit, built);
    } else if s.consumer.CRead? {
      CReadKeeps(s, ring, t, unit, built);
    } else {
      CPublishKeeps(s, ring, t, unit, built);
    }
  }

  /** Starting a call keeps the invariant. */
  lemma CallKeeps<T>(s: State<T>, s': State<T>, unit: nat, built: nat)
    requires Inv(s, unit, built)
    requires (s.producer.PIdle? && s'.producer.PBusy? && s'.producer.at == PStart
              && s'.producer.startLength == |s.sent| - |s.received| && s' == s.(producer := s'.producer))
             || (s.consumer.CIdle? && s' == s.(consumer := CStart))
    ensures Inv(s', unit, built)
  {
    var ring, t :| Core(s, ring, t, unit, built);
    CallRing(s, s', ring, t);
    CallParts(s, s', ring, t, unit, built);
    hide RingOk, ConsumerOk, ProducerOk, Sized, Inv;
    Assembled(s', ring, t, unit, built);
  }

  lemma CallRing<T>(s: State<T>, s': State<T>, ring: seq<nat>, t: nat)
    requires RingOk(s, ring, t) && s'.blocks == s.blocks && Pending(s') == Pending(s)
    requires s'.consumer == s.consumer || (!s.consumer.CPublish? && !s'.consumer.CPublish?)
    requires s'.sent == s.sent && s'.received == s.received
    requires s'.frontBlock == s.frontBlock && s'.tailBlock == s.tailBlock
    ensures RingOk(s', ring, t)
  {
    assert View(s') == View(s);
    assert Nodes(s') == Nodes(s);
  }

  lemma CallParts<T>(s: State<T>, s': State<T>, ring: seq<nat>, t: nat, unit: nat, built: nat)
    requires ConsumerOk(s, ring, t) && ProducerOk(s, ring, t, unit, built) && Sized(s, ring, unit, built)
    requires (s.producer.PIdle? && s'.producer.PBusy? && s'.producer.at == PStart
              && s'.producer.startLength == |s.sent| - |s.received| && s' == s.(producer := s'.producer))
             || (s.consumer.CIdle? && s' == s.(consumer := CStart))
    ensures ConsumerOk(s', ring, t) && ProducerOk(s', ring, t, unit, built) && Sized(s', ring, unit, built)
  {
  }

  /** Every step of every thread keeps the invariant. */
  lemma StepKeeps<T>(s: State<T>, a: Action<T>, unit: nat, built: nat)
    requires Inv(s, unit, built)
    ensures Inv(Step(s, a), unit, built)
  {
    hide Inv, ProducerMove, ConsumerMove;
    match a
    case Enqueue(e, canAlloc) =>
      if s.producer.PIdle? { CallKeeps(s, Step(s, a), unit, built); }
    case ProducerStep(memoryLeft) =>
      if s.producer.PBusy? { ProducerKeeps(s, unit, built, memoryLeft); }
    case Dequeue =>
      if s.consumer.CIdle? { CallKeeps(s, Step(s, a), unit, built); }
    case ConsumerStep => ConsumerKeeps(s, unit, built);
  }

  lemma {:induction false} RunKeeps<T>(s: State<T>, actions: seq<Action<T>>, unit: nat, built: nat)
    requires Inv(s, unit, built)
    ensures Inv(Run(s, actions), unit, built)
    decreases actions
  {
    if actions != [] {
      StepKeeps(s, actions[0], unit, built);
      RunKeeps(Step(s, actions[0]), actions[1..], unit, built);
    }
  }

  // ------------------------------------------------------------------ arguments and results

  /**
    An enqueue call adds its own argument, once, exactly when it reports success; the length
    it reports when refused is the one it started with.
   */
  lemma ArgumentIsSent<T>(s: State<T>, a: Action<T>)
    ensures var p, r := s.producer, Step(s, a);
            && (p.PIdle? && a.Enqueue? ==>
                  && r.sent == s.sent && r.producer.PBusy? && r.producer.element == a.element
                  && r.producer.startLength == |s.sent| - |s.received|)
            && (p.PIdle? && !a.Enqueue? ==> r.sent == s.sent && r.producer == p)
            && (p.PBusy? && r.producer.PBusy? ==>
                  r.sent == s.sent && r.producer.element == p.element && r.producer.startLength == p.startLength)
            && (p.PBusy? && r.producer.PIdle? ==>
                  && r.sent == s.sent + (if r.producer.outcome.Accepted? then [p.element] else [])
                  && (r.producer.outcome.Refused? ==> r.producer.outcome.lengthAtStart == p.startLength))
  {
    hide Inc;
  }

  /** A dequeue call that takes an element returns it. */
  predicate Returned<T(==)>(s: State<T>) {
    s.consumer.CIdle? && s.consumer.result.Got? ==>
      |s.received| > 0 && s.consumer.result.value == s.received[|s.received| - 1]
  }

  /** Each element taken is returned by one call; one that reports nothing has seen the queue empty. */
  lemma ResultIsReceived<T>(s: State<T>, a: Action<T>)
    ensures var c, r := s.consumer, Step(s, a);
            && (Returned(s) ==> Returned(r))
            && (r.received == s.received || (c.CPublish? && r.received == s.received + [c.value] && r.consumer.CIdle?
                                             && r.consumer.result.Got?))
            && (r.consumer.CCheckTail? && r.consumer != c && r.consumer.sawEmpty ==> |r.sent| == |r.received|)
            && (r.consumer.CIdle? && r.consumer != c && r.consumer.result.NothingThere? ==>
                  c.CCheckTail? && c.sawEmpty == r.consumer.result.sawEmpty)
  {
    hide Inc, ProducerMove;
    if a.ProducerStep? && s.producer.PBusy? { ProducerTakesNothing(s, a.memoryLeft); }
  }

  lemma ProducerTakesNothing<T>(s: State<T>, memoryLeft: bool)
    requires s.producer.PBusy?
    ensures ProducerMove(s, memoryLeft).consumer == s.consumer && ProducerMove(s, memoryLeft).received == s.received
  {
    hide Inc;
  }

  lemma {:induction false} RunReturns<T>(s: State<T>, actions: seq<Action<T>>)
    requires Returned(s)
    ensures Returned(Run(s, actions))
    decreases actions
  {
    hide Step, Returned;
    if actions != [] {
      ResultIsReceived(s, actions[0]);
      RunReturns(Step(s, actions[0]), actions[1..]);
    }
  }

  /**
    In every interleaving: no assertion fails and no raw memory is read; what the consumer
    has received is what the producer sent, in order, without loss or repetition, and each
    element is what its call returned; a dequeue that reports nothing saw the queue empty
    during the call; and an enqueue refused for want of room started with at least the
    requested capacity in the queue.
   */
  lemma QueueOfBlocksIsFifo<T>(s: State<T>, actions: seq<Action<T>>, unit: nat, built: nat)
    requires Inv(s, unit, built)
    ensures var r := Run(s, actions);
            && !r.fault
            && r.received <= r.sent
            && (Returned(s) ==> Returned(r))
            && (r.consumer.CIdle? && r.consumer.result.NothingThere? ==> r.consumer.result.sawEmpty)
            && (r.producer.PIdle? && r.producer.outcome.Refused? ==> r.producer.outcome.lengthAtStart >= built)
  {
    RunKeeps(s, actions, unit, built);
    if Returned(s) { RunReturns(s, actions); }
    var r := Run(s, actions);
    var ring, t :| Core(r, ring, t, unit, built);
  }
}
