/**
  The single-producer, single-consumer queue of blocks (ReaderWriterQueue), as a step
  system. Every load or store of a variable the other thread can touch is a step of its
  own; an action sequence is an interleaving of the two threads. The linked ring of
  blocks is a heap of blocks whose `next` fields are heap indices.
 */
module BlockQueue {
  import opened Bits
  import opened Storage

  datatype Block<T> = Block(
    front: nat, localTail: nat,     // owned by the consumer
    tail: nat, localFront: nat,     // owned by the producer
    next: nat,
    data: seq<Cell<T>>)             // sizeMask is SizeMask(|data|)

  datatype EnqueueOutcome = NotCalled | Accepted | Refused(lengthAtStart: int) | NoMemory

  datatype DequeueOutcome<T> = NotAsked | Got(value: T) | NothingThere(sawEmpty: bool)

  /** The producer's position inside inner_enqueue. */
  datatype PAt =
    | PStart                                  // about to load tailBlock
    | PTail(tb: nat)                          // about to load tailBlock->tail
    | PReload(tb: nat, bt: nat)               // about to refresh localFront
    | PWrite(tb: nat, bt: nat)                // about to construct the element
    | PPublish(tb: nat, bt: nat)              // about to store tail
    | PFull(tb: nat)                          // about to compare next with frontBlock
    | PNext(tb: nat)                          // about to load next again
    | PNextFront(tb: nat, nb: nat)            // about to load the next block's front
    | PNextTail(tb: nat, nb: nat, nf: nat)    // about to load the next block's tail
    | PNextWrite(tb: nat, nb: nat, nt: nat)
    | PNextStore(tb: nat, nb: nat, nt: nat)   // about to store the next block's tail
    | PNextPublish(tb: nat, nb: nat)          // about to store tailBlock
    | PAlloc(tb: nat)
    | PLink(tb: nat, nb: nat)                 // about to link the new block
    | PAllocPublish(tb: nat, nb: nat)         // about to store tailBlock

  datatype Producer<T> =
    | PIdle(outcome: EnqueueOutcome)
    | PBusy(element: T, canAlloc: bool, startLength: int, at: PAt)

  /** The consumer's position inside try_dequeue. */
  datatype Consumer<T> =
    | CIdle(result: DequeueOutcome<T>)
    | CStart                                  // about to load frontBlock
    | CFront(fb: nat)                         // about to load front
    | CReload(fb: nat, bf: nat)               // about to refresh localTail
    | CCheckTail(fb: nat, sawEmpty: bool)     // about to load tailBlock
    | CAgain                                  // about to reload frontBlock
    | CAgainTail(fb: nat)                     // about to reload tail
    | CAgainFront(fb: nat, bt: nat)           // about to reload front
    | CNext(fb: nat)                          // about to load next
    | CNextFront(fb: nat, nb: nat)            // about to load the next block's front
    | CNextTail(fb: nat, nb: nat, nf: nat)    // about to load the next block's tail
    | CAdvance(fb: nat, nb: nat, nf: nat)     // about to store frontBlock
    | CRead(fb: nat, bf: nat)                 // about to move the element out
    | CPublish(fb: nat, bf: nat, value: T)    // about to store front

  /**
    The queue, the two threads, and three history variables: the elements whose enqueue
    took effect, the elements dequeued, and whether an assertion or a memory access failed.
   */
  datatype State<T> = State(
    blocks: seq<Block<T>>, frontBlock: nat, tailBlock: nat,
    largest: nat, maxBlock: nat,
    producer: Producer<T>, consumer: Consumer<T>,
    sent: seq<T>, received: seq<T>, fault: bool)

  datatype Action<T> =
    | Enqueue(element: T, canAlloc: bool)     // the producer calls enqueue or try_enqueue
    | ProducerStep(memoryLeft: bool)          // malloc succeeds, where it is called
    | Dequeue                                 // the consumer calls try_dequeue
    | ConsumerStep

  // ------------------------------------------------------------------ the program

  /** size - 1 in a machine word: all ones for a block of no slots. */
  function SizeMask(size: nat): nat { if size == 0 then Pow2(WORD_BITS) - 1 else size - 1 }

  /** (x + 1) & sizeMask */
  function Inc(x: nat, size: nat): nat { And(x + 1, SizeMask(size)) }

  function MakeBlock<T>(size: nat): Block<T> {
    Block(0, 0, 0, 0, 0, seq(size, _ => Raw))
  }

  function PGo<T>(s: State<T>, at: PAt): State<T>
    requires s.producer.PBusy?
  {
    s.(producer := s.producer.(at := at))
  }

  function SetBlock<T>(s: State<T>, i: nat, b: Block<T>): State<T>
    requires i < |s.blocks|
  {
    s.(blocks := s.blocks[i := b])
  }

  predicate PInRange(at: PAt, n: nat) {
    match at
    case PStart => true
    case PTail(tb) => tb < n
    case PReload(tb, bt) => tb < n
    case PWrite(tb, bt) => tb < n
    case PPublish(tb, bt) => tb < n
    case PFull(tb) => tb < n
    case PNext(tb) => tb < n
    case PNextFront(tb, nb) => nb < n
    case PNextTail(tb, nb, nf) => nb < n
    case PNextWrite(tb, nb, nt) => nb < n
    case PNextStore(tb, nb, nt) => nb < n
    case PNextPublish(tb, nb) => true
    case PAlloc(tb) => tb < n
    case PLink(tb, nb) => tb < n
    case PAllocPublish(tb, nb) => true
  }

  function Store<T>(b: Block<T>, i: nat, c: Cell<T>): Block<T>
    requires i < |b.data|
  {
    b.(data := b.data[i := c])
  }

  function Published<T>(s: State<T>): State<T>
    requires s.producer.PBusy?
  {
    s.(sent := s.sent + [s.producer.element], producer := PIdle(Accepted))
  }

  function ProducerMove<T>(s: State<T>, memoryLeft: bool): State<T>
    requires s.producer.PBusy?
  {
    var e := s.producer.element;
    var at := s.producer.at;
    if !PInRange(at, |s.blocks|) then s.(fault := true) else
    match at
    case PStart => PGo(s, PTail(s.tailBlock))
    case PTail(tb) =>
      var b := s.blocks[tb];
      if Inc(b.tail, |b.data|) != b.localFront then PGo(s, PWrite(tb, b.tail))
      else PGo(s, PReload(tb, b.tail))
    case PReload(tb, bt) =>
      var b := s.blocks[tb];
      var s' := SetBlock(s, tb, b.(localFront := b.front));
      if Inc(bt, |b.data|) != b.front then PGo(s', PWrite(tb, bt)) else PGo(s', PFull(tb))
    case PWrite(tb, bt) =>
      if bt >= |s.blocks[tb].data| then s.(fault := true)
      else PGo(SetBlock(s, tb, Store(s.blocks[tb], bt, Val(e))), PPublish(tb, bt))
    case PPublish(tb, bt) =>
      Published(SetBlock(s, tb, s.blocks[tb].(tail := Inc(bt, |s.blocks[tb].data|))))
    case PFull(tb) =>
      if s.blocks[tb].next != s.frontBlock then PGo(s, PNext(tb))
      else if s.producer.canAlloc then PGo(s, PAlloc(tb))
      else s.(producer := PIdle(Refused(s.producer.startLength)))
    case PNext(tb) => PGo(s, PNextFront(tb, s.blocks[tb].next))
    case PNextFront(tb, nb) =>
      var b := s.blocks[nb];
      PGo(SetBlock(s, nb, b.(localFront := b.front)), PNextTail(tb, nb, b.front))
    case PNextTail(tb, nb, nf) =>
      var b := s.blocks[nb];
      if nf != b.tail then s.(fault := true)     // assert(nextBlockFront == nextBlockTail)
      else PGo(SetBlock(s, nb, b.(localFront := nf)), PNextWrite(tb, nb, b.tail))
    case PNextWrite(tb, nb, nt) =>
      if nt >= |s.blocks[nb].data| then s.(fault := true)
      else PGo(SetBlock(s, nb, Store(s.blocks[nb], nt, Val(e))), PNextStore(tb, nb, nt))
    case PNextStore(tb, nb, nt) =>
      var b := s.blocks[nb];
      PGo(SetBlock(s, nb, b.(tail := Inc(nt, |b.data|))), PNextPublish(tb, nb))
    case PNextPublish(tb, nb) => Published(s.(tailBlock := nb))
    case PAlloc(tb) =>
      var size := if s.largest >= s.maxBlock then s.largest else s.largest * 2;
      if !memoryLeft then s.(producer := PIdle(NoMemory))
      else if size == 0 then s.(fault := true)
      else
        var b := Store(MakeBlock<T>(size), 0, Val(e)).(tail := 1, localTail := 1, next := s.blocks[tb].next);
        PGo(s.(blocks := s.blocks + [b], largest := size), PLink(tb, |s.blocks|))
    case PLink(tb, nb) =>
      PGo(SetBlock(s, tb, s.blocks[tb].(next := nb)), PAllocPublish(tb, nb))
    case PAllocPublish(tb, nb) => Published(s.(tailBlock := nb))
  }

  predicate CInRange<T>(c: Consumer<T>, n: nat) {
    match c
    case CIdle(_) => true
    case CStart => true
    case CFront(fb) => fb < n
    case CReload(fb, bf) => fb < n
    case CCheckTail(fb, e) => true
    case CAgain => true
    case CAgainTail(fb) => fb < n
    case CAgainFront(fb, bt) => fb < n
    case CNext(fb) => fb < n
    case CNextFront(fb, nb) => nb < n
    case CNextTail(fb, nb, nf) => nb < n
    case CAdvance(fb, nb, nf) => true
    case CRead(fb, bf) => fb < n
    case CPublish(fb, bf, v) => fb < n
  }

  function ConsumerMove<T>(s: State<T>): State<T> {
    if !CInRange(s.consumer, |s.blocks|) then s.(fault := true) else
    match s.consumer
    case CIdle(_) => s
    case CStart => s.(consumer := CFront(s.frontBlock))
    case CFront(fb) =>
      var b := s.blocks[fb];
      if b.front != b.localTail then s.(consumer := CRead(fb, b.front))
      else s.(consumer := CReload(fb, b.front))
    case CReload(fb, bf) =>
      var b := s.blocks[fb];
      var s' := SetBlock(s, fb, b.(localTail := b.tail));
      if bf != b.tail then s'.(consumer := CRead(fb, bf))
      else s'.(consumer := CCheckTail(fb, |s.sent| == |s.received|))
    case CCheckTail(fb, sawEmpty) =>
      if fb != s.tailBlock then s.(consumer := CAgain)
      else s.(consumer := CIdle(NothingThere(sawEmpty)))
    case CAgain => s.(consumer := CAgainTail(s.frontBlock))
    case CAgainTail(fb) =>
      var b := s.blocks[fb];
      SetBlock(s, fb, b.(localTail := b.tail)).(consumer := CAgainFront(fb, b.tail))
    case CAgainFront(fb, bt) =>
      var b := s.blocks[fb];
      if b.front != bt then s.(consumer := CRead(fb, b.front)) else s.(consumer := CNext(fb))
    case CNext(fb) => s.(consumer := CNextFront(fb, s.blocks[fb].next))
    case CNextFront(fb, nb) => s.(consumer := CNextTail(fb, nb, s.blocks[nb].front))
    case CNextTail(fb, nb, nf) =>
      var b := s.blocks[nb];
      var s' := SetBlock(s, nb, b.(localTail := b.tail));
      if nf == b.tail then s'.(fault := true)    // assert(nextBlockFront != nextBlockTail)
      else s'.(consumer := CAdvance(fb, nb, nf))
    case CAdvance(fb, nb, nf) => s.(frontBlock := nb, consumer := CRead(nb, nf))
    case CRead(fb, bf) =>
      var b := s.blocks[fb];
      if bf >= |b.data| || b.data[bf].Raw? then s.(fault := true)
      else SetBlock(s, fb, Store(b, bf, Raw)).(consumer := CPublish(fb, bf, b.data[bf].value))
    case CPublish(fb, bf, v) =>
      var b := s.blocks[fb];
      SetBlock(s, fb, b.(front := Inc(bf, |b.data|))).(
        received := s.received + [v], consumer := CIdle(Got(v)))
  }

  /** One action of one thread; an action its thread cannot take changes nothing. */
  function Step<T>(s: State<T>, a: Action<T>): State<T> {
    match a
    case Enqueue(e, canAlloc) =>
      if s.producer.PIdle?
      then s.(producer := PBusy(e, canAlloc, |s.sent| - |s.received|, PStart)) else s
    case ProducerStep(memoryLeft) =>
      if s.producer.PBusy? then ProducerMove(s, memoryLeft) else s
    case Dequeue => if s.consumer.CIdle? then s.(consumer := CStart) else s
    case ConsumerStep => ConsumerMove(s)
  }

  function Run<T>(s: State<T>, actions: seq<Action<T>>): State<T>
    decreases actions
  {
    if actions == [] then s else Run(Step(s, actions[0]), actions[1..])
  }

  // ------------------------------------------------------------------ one block

  /** How far y is ahead of x on a ring of n slots. */
  function Dist(x: nat, y: nat, n: nat): int {
    if x <= y then y - x else y + n - x
  }

  function At(x: nat, j: nat, n: nat): nat
    requires x < n && j < n
    ensures At(x, j, n) < n
  {
    if x + j < n then x + j else x + j - n
  }

  lemma IncIs(x: nat, n: nat)
    requires IsPow2(n) && x < n
    ensures Inc(x, n) == if x + 1 == n then 0 else x + 1
  {
    MaskedIncrement(x, n);
  }

  function Count<T>(b: Block<T>): int {
    Dist(b.front, b.tail, |b.data|)
  }

  /** Indices in range, shadow copies that only lag, and every live cell constructed. */
  ghost predicate BlockOk<T>(b: Block<T>) {
    var n := |b.data|;
    && IsPow2(n) && n >= 2
    && b.front < n && b.tail < n && b.localFront < n && b.localTail < n
    && Dist(b.front, b.localTail, n) <= Count(b) <= Dist(b.localFront, b.tail, n)
    && forall j: nat :: j < Count(b) ==> b.data[At(b.front, j, n)].Val?
  }

  ghost function Items<T>(b: Block<T>): seq<T>
    requires BlockOk(b)
  {
    seq(Count(b), (j: nat) requires j < Count(b) => b.data[At(b.front, j, |b.data|)].value)
  }

  ghost predicate FullBlock<T>(b: Block<T>) {
    Count(b) == |b.data| - 1
  }

  lemma WriteBeyondTail<T>(b: Block<T>, c: Cell<T>)
    requires BlockOk(b)
    ensures BlockOk(Store(b, b.tail, c)) && Items(Store(b, b.tail, c)) == Items(b)
  {
    var b' := Store(b, b.tail, c);
    assert forall j: nat :: j < Count(b) ==> At(b.front, j, |b.data|) != b.tail;
    assert Items(b') == Items(b);
  }

  lemma Push<T>(b: Block<T>, e: T)
    requires BlockOk(b) && Inc(b.tail, |b.data|) != b.front && b.data[b.tail] == Val(e)
    requires Inc(b.tail, |b.data|) != b.localFront
    ensures var b' := b.(tail := Inc(b.tail, |b.data|)); BlockOk(b') && Items(b') == Items(b) + [e]
  {
    IncIs(b.tail, |b.data|);
    var b' := b.(tail := Inc(b.tail, |b.data|));
    assert Count(b') == Count(b) + 1;
    assert At(b.front, Count(b), |b.data|) == b.tail;
    assert BlockOk(b');
    assert Items(b') == Items(b) + [e];
  }

  lemma Pop<T>(b: Block<T>)
    requires BlockOk(b) && b.front != b.localTail
    ensures var b' := b.(front := Inc(b.front, |b.data|));
            Count(b) > 0 && BlockOk(b') && Items(b') == Items(b)[1..]
  {
    IncIs(b.front, |b.data|);
    var n := |b.data|;
    var b' := b.(front := Inc(b.front, n));
    assert Count(b') == Count(b) - 1;
    assert forall j: nat :: j < Count(b') ==> At(b'.front, j, n) == At(b.front, j + 1, n);
    assert BlockOk(b');
    assert Items(b') == Items(b)[1..];
  }

  /** A block that is not full has room after its tail, whatever localFront says. */
  lemma Room<T>(b: Block<T>)
    requires BlockOk(b)
    ensures FullBlock(b) <==> Inc(b.tail, |b.data|) == b.front
    ensures Inc(b.tail, |b.data|) != b.localFront ==> !FullBlock(b)
  {
    IncIs(b.tail, |b.data|);
  }
}
