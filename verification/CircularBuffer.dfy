/**
  The blocking circular buffer: a power-of-two array between two semaphores, `slots`
  counting free places and `items` counting filled ones. The producer waits on slots and
  signals items, the consumer waits on items and signals slots; every atomic step of the
  two semaphores interleaves with the accesses to the array.
 */
module CircularBuffer {
  import opened Bits
  import opened Storage
  import BitFields
  import S = Semaphore

  /** try_enqueue, wait_enqueue and wait_enqueue_timed, and their dequeue counterparts. */
  datatype Patience = Try | Forever | Within(timeout: int)

  function ModeOf(p: Patience): S.WaitMode {
    match p
    case Try => S.TryOnly
    case Forever => S.Timed(-1)
    case Within(timeout) => S.Timed(timeout)
  }

  datatype Producer<T> =
    | PIdle
    | PRefused(occupied: int)              // returned false, with this many places taken
    | PWaiting(item: T, patience: Patience)
    | PIndex(item: T)                      // about to take nextSlot
    | PWrite(item: T, i: nat)              // about to construct the element
    | PSignal                              // about to call items->signal()
    | PSignalling

  datatype Consumer<T> =
    | CIdle
    | CRefused(published: int)             // returned false, with this many items on offer
    | CGot(value: T)
    | CWaiting(patience: Patience)
    | CIndex                               // about to take nextItem
    | CRead(i: nat)                        // about to move the element out and destroy it
    | CSignal(value: T)                    // about to call slots_->signal()
    | CSignalling(value: T)

  /** The buffer and the histories of the elements written and read. */
  datatype Buffer<T> = Buffer(
    maxcap: nat, mask: nat, data: seq<Cell<T>>,
    slots: S.Sema, items: S.Sema, nextSlot: nat, nextItem: nat,
    producer: Producer<T>, consumer: Consumer<T>,
    sent: seq<T>, received: seq<T>, fault: bool)

  datatype Action<T> =
    | Enqueue(item: T, patience: Patience)
    | ProducerStep(luck: bool)
    | Dequeue(patience: Patience)
    | ConsumerStep(luck: bool)

  predicate PResting<T>(p: Producer<T>) { p.PIdle? || p.PRefused? }

  predicate CResting<T>(c: Consumer<T>) { c.CIdle? || c.CRefused? || c.CGot? }

  /** A machine word. */
  function Wrap(x: nat): nat { x % Pow2(WORD_BITS) }

  function ProducerMove<T>(b: Buffer<T>, luck: bool): Buffer<T> {
    match b.producer
    case PIdle => b
    case PRefused(_) => b
    case PWaiting(item, patience) =>
      var slots := S.Step(b.slots, S.WaiterStep(luck));
      if slots.waiter == S.WIdle(S.Acquired) then b.(slots := slots, producer := PIndex(item))
      else if slots.waiter.WIdle? then
        if patience.Forever? then b.(slots := S.Step(slots, S.Wait(ModeOf(patience))))
        else b.(slots := slots, producer := PRefused(|b.sent| - slots.signalled))
      else b.(slots := slots)
    case PIndex(item) =>
      b.(nextSlot := Wrap(b.nextSlot + 1), producer := PWrite(item, b.nextSlot))
    case PWrite(item, i) =>
      var k := And(i, b.mask);
      if k >= |b.data| || b.data[k].Val? then b.(fault := true)      // would overwrite a live element
      else b.(data := b.data[k := Val(item)], sent := b.sent + [item], producer := PSignal)
    case PSignal => b.(items := S.Step(b.items, S.Signal(1)), producer := PSignalling)
    case PSignalling =>
      var items := S.Step(b.items, S.SignallerStep);
      b.(items := items, producer := if items.signaller.SIdle? then PIdle else PSignalling)
  }

  function ConsumerMove<T>(b: Buffer<T>, luck: bool): Buffer<T> {
    match b.consumer
    case CIdle => b
    case CRefused(_) => b
    case CGot(_) => b
    case CWaiting(patience) =>
      var items := S.Step(b.items, S.WaiterStep(luck));
      if items.waiter == S.WIdle(S.Acquired) then b.(items := items, consumer := CIndex)
      else if items.waiter.WIdle? then
        if patience.Forever? then b.(items := S.Step(items, S.Wait(ModeOf(patience))))
        else b.(items := items, consumer := CRefused(items.signalled - |b.received|))
      else b.(items := items)
    case CIndex =>
      b.(nextItem := Wrap(b.nextItem + 1), consumer := CRead(b.nextItem))
    case CRead(i) =>
      var k := And(i, b.mask);
      if k >= |b.data| || b.data[k].Raw? then b.(fault := true)
      else b.(data := b.data[k := Raw], received := b.received + [b.data[k].value],
              consumer := CSignal(b.data[k].value))
    case CSignal(v) => b.(slots := S.Step(b.slots, S.Signal(1)), consumer := CSignalling(v))
    case CSignalling(v) =>
      var slots := S.Step(b.slots, S.SignallerStep);
      b.(slots := slots, consumer := if slots.signaller.SIdle? then CGot(v) else CSignalling(v))
  }

  function Step<T>(b: Buffer<T>, a: Action<T>): Buffer<T> {
    match a
    case Enqueue(item, patience) =>
      if PResting(b.producer)
      then b.(slots := S.Step(b.slots, S.Wait(ModeOf(patience))), producer := PWaiting(item, patience)) else b
    case ProducerStep(luck) => ProducerMove(b, luck)
    case Dequeue(patience) =>
      if CResting(b.consumer)
      then b.(items := S.Step(b.items, S.Wait(ModeOf(patience))), consumer := CWaiting(patience)) else b
    case ConsumerStep(luck) => ConsumerMove(b, luck)
  }

  function Run<T>(b: Buffer<T>, actions: seq<Action<T>>): Buffer<T>
    decreases actions
  {
    if actions == [] then b else Run(Step(b, actions[0]), actions[1..])
  }

  // ------------------------------------------------------------------ the invariant

  function One(c: bool): nat { if c then 1 else 0 }

  /** Every permit taken and every signal given is accounted for by the two threads' positions. */
  ghost predicate ProducerOk<T>(b: Buffer<T>) {
    var w := |b.sent|;
    && b.slots.acquired == w + One(b.producer.PIndex?) + One(b.producer.PWrite?)
    && b.nextSlot == Wrap(w + One(b.producer.PWrite?))
    && (b.producer.PWrite? ==> b.producer.i == Wrap(w))
    && b.items.signalled == w - One(b.producer.PSignal?) - One(b.producer.PSignalling? && b.items.signaller.SAdd?)
    && (b.producer.PSignalling? <==> !b.items.signaller.SIdle?)
    && (b.items.signaller.SAdd? ==> b.items.signaller.n == 1)
    && (b.producer.PWaiting? <==> !b.slots.waiter.WIdle?)
    && (b.producer.PRefused? ==> b.producer.occupied == b.maxcap)
  }

  /** The value a dequeue call has taken out and returns. */
  predicate Carrying<T>(c: Consumer<T>) { c.CSignal? || c.CSignalling? || c.CGot? }

  ghost predicate ConsumerOk<T>(b: Buffer<T>) {
    var r := |b.received|;
    && b.items.acquired == r + One(b.consumer.CIndex?) + One(b.consumer.CRead?)
    && b.nextItem == Wrap(r + One(b.consumer.CRead?))
    && (b.consumer.CRead? ==> b.consumer.i == Wrap(r))
    && b.slots.signalled == r - One(b.consumer.CSignal?) - One(b.consumer.CSignalling? && b.slots.signaller.SAdd?)
    && (b.consumer.CSignalling? <==> !b.slots.signaller.SIdle?)
    && (b.slots.signaller.SAdd? ==> b.slots.signaller.n == 1)
    && (b.consumer.CWaiting? <==> !b.items.waiter.WIdle?)
    && (b.consumer.CRefused? ==> b.consumer.published == 0)
    && (Carrying(b.consumer) ==> r > 0 && b.consumer.value == b.received[r - 1])
  }

  /** The array holds exactly the elements sent and not yet received, each in its place. */
  ghost predicate DataOk<T>(b: Buffer<T>) {
    var n, r, w := |b.data|, |b.received|, |b.sent|;
    && n > 0 && r <= w <= r + n && b.received == b.sent[..r]
    && (forall j {:trigger Place(j, n)} :: r <= j < w ==> b.data[Place(j, n)] == Val(b.sent[j]))
    && (forall j {:trigger Place(j, n)} :: w <= j < r + n ==> b.data[Place(j, n)] == Raw)
  }

  ghost predicate Shape<T>(b: Buffer<T>) {
    && |b.data| == b.mask + 1 && b.mask < Pow2(WORD_BITS) && IsPow2(b.mask + 1)
    && b.maxcap <= b.mask + 1 && b.maxcap < S.HALF_WORD
    && S.Inv(b.slots) && S.Inv(b.items) && b.slots.initial == b.maxcap && b.items.initial == 0
  }

  ghost predicate Inv<T>(b: Buffer<T>) {
    !b.fault && Shape(b) && ProducerOk(b) && ConsumerOk(b) && DataOk(b)
  }

  /** What the two semaphores' safety gives: never more than maxcap places taken. */
  lemma Bounds<T>(b: Buffer<T>)
    requires Shape(b) && ProducerOk(b) && ConsumerOk(b)
    ensures |b.received| <= |b.sent| <= |b.received| + b.maxcap
    ensures b.producer.PWrite? ==> |b.sent| < |b.received| + b.maxcap
    ensures b.consumer.CRead? ==> |b.received| < |b.sent|
  {
    hide Pow2, IsPow2, S.Inv;
    S.NeverOveracquired(b.slots);
    S.NeverOveracquired(b.items);
  }

  /** A masked, wrapped index is the place of the unbounded one. */
  lemma IndexIsPlace<T>(b: Buffer<T>, j: nat)
    requires Shape(b)
    ensures And(Wrap(j), b.mask) == Place(j, |b.data|)
  {
    var k: nat :| Pow2(k) == b.mask + 1;
    if k > WORD_BITS { Pow2Monotone(WORD_BITS + 1, k); }
    WrappedIndex(j, WORD_BITS, k);
  }

  lemma WrapIncrement(j: nat)
    ensures Wrap(Wrap(j) + 1) == Wrap(j + 1)
  {
    hide Pow2;
    var m := Pow2(WORD_BITS);
    var q, r := j / m, j % m;
    if r + 1 == m {
      assert j + 1 == (q + 1) * m + 0;
      DivUnique(j + 1, m, q + 1, 0);
      DivUnique(r + 1, m, 1, 0);
    } else {
      assert j + 1 == q * m + (r + 1);
      DivUnique(j + 1, m, q, r + 1);
      DivUnique(r + 1, m, 0, r + 1);
    }
  }

  lemma PWriteData<T>(b: Buffer<T>, b': Buffer<T>, x: T)
    requires DataOk(b) && |b.sent| < |b.received| + |b.data|
    requires b'.data == b.data[Place(|b.sent|, |b.data|) := Val(x)]
    requires b'.sent == b.sent + [x] && b'.received == b.received
    ensures b.data[Place(|b.sent|, |b.data|)] == Raw && DataOk(b')
  {
    var n, r, w := |b.data|, |b.received|, |b.sent|;
    forall j | r <= j < r + n && j != w ensures b'.data[Place(j, n)] == b.data[Place(j, n)] {
      if j < w { PlacesDiffer(j, w, n); } else { PlacesDiffer(w, j, n); }
    }
  }

  lemma CReadData<T>(b: Buffer<T>, b': Buffer<T>)
    requires DataOk(b) && |b.received| < |b.sent|
    requires b'.data == b.data[Place(|b.received|, |b.data|) := Raw]
    requires b'.sent == b.sent && b'.received == b.received + [b.sent[|b.received|]]
    ensures b.data[Place(|b.received|, |b.data|)] == Val(b.sent[|b.received|]) && DataOk(b')
  {
    var n, r := |b.data|, |b.received|;
    forall j | r < j < r + n ensures b'.data[Place(j, n)] == b.data[Place(j, n)] {
      PlacesDiffer(r, j, n);
    }
    PlaceAgain(r, n);
  }

  lemma DataShape<T>(b: Buffer<T>)
    requires DataOk(b)
    ensures |b.data| > 0
  {
  }

  /** A step of one thread that leaves the other's counters and positions leaves it right. */
  lemma ConsumerSame<T>(b: Buffer<T>, b': Buffer<T>)
    requires ConsumerOk(b) && b'.received == b.received && b'.consumer == b.consumer && b'.nextItem == b.nextItem
    requires b'.slots.signalled == b.slots.signalled && b'.slots.signaller == b.slots.signaller
    requires b'.items.acquired == b.items.acquired && b'.items.waiter == b.items.waiter
    ensures ConsumerOk(b')
  {
    hide Wrap;
  }

  lemma ProducerSame<T>(b: Buffer<T>, b': Buffer<T>)
    requires ProducerOk(b) && b'.sent == b.sent && b'.producer == b.producer && b'.nextSlot == b.nextSlot
    requires b'.items.signalled == b.items.signalled && b'.items.signaller == b.items.signaller
    requires b'.slots.acquired == b.slots.acquired && b'.slots.waiter == b.slots.waiter && b'.maxcap == b.maxcap
    ensures ProducerOk(b')
  {
    hide Wrap;
  }

  lemma PWriteKeeps<T>(b: Buffer<T>, luck: bool)
    requires Inv(b) && b.producer.PWrite?
    ensures Inv(ProducerMove(b, luck))
  {
    hide DataOk, ConsumerOk, Wrap, Pow2, IsPow2, Place, And, S.Inv;
    Bounds(b);
    IndexIsPlace(b, |b.sent|);
    DataShape(b);
    var b' := b.(data := b.data[Place(|b.sent|, |b.data|) := Val(b.producer.item)],
                 sent := b.sent + [b.producer.item], producer := PSignal);
    PWriteData(b, b', b.producer.item);
    ConsumerSame(b, b');
    assert ProducerMove(b, luck) == b';
  }

  lemma CReadKeeps<T>(b: Buffer<T>, luck: bool)
    requires Inv(b) && b.consumer.CRead?
    ensures Inv(ConsumerMove(b, luck))
  {
    hide DataOk, ProducerOk, Wrap, Pow2, IsPow2, Place, And, S.Inv;
    Bounds(b);
    IndexIsPlace(b, |b.received|);
    DataShape(b);
    var v := b.sent[|b.received|];
    var b' := b.(data := b.data[Place(|b.received|, |b.data|) := Raw],
                 received := b.received + [v], consumer := CSignal(v));
    CReadData(b, b');
    ProducerSame(b, b');
    assert ConsumerMove(b, luck) == b';
  }

  /** A step that leaves the array alone keeps its meaning. */
  lemma DataSame<T>(b: Buffer<T>, b': Buffer<T>)
    requires DataOk(b) && b'.data == b.data && b'.sent == b.sent && b'.received == b.received
    ensures DataOk(b')
  {
  }

  lemma PWaitingKeeps<T>(b: Buffer<T>, luck: bool)
    requires Inv(b) && b.producer.PWaiting?
    ensures Inv(ProducerMove(b, luck))
  {
    hide ConsumerOk, Wrap, DataOk, Pow2, IsPow2, S.Inv, S.Step;
    S.WaitEffect(b.slots, luck);
    var slots := S.Step(b.slots, S.WaiterStep(luck));
    if slots.waiter.WIdle? {
      assert slots.waiter.outcome.Failed? || slots.waiter.outcome.Acquired?;
      S.WaitStarts(slots, ModeOf(b.producer.patience));
    }
    DataSame(b, ProducerMove(b, luck));
    ConsumerSame(b, ProducerMove(b, luck));
  }

  /** Neither count can pass the capacity, so a signal of one never wraps it. */
  lemma SignalRoom<T>(b: Buffer<T>)
    requires Shape(b) && ProducerOk(b) && ConsumerOk(b)
    ensures b.producer.PSignal? ==> S.Permits(b.items) + 1 < S.HALF_WORD
    ensures b.consumer.CSignal? ==> S.Permits(b.slots) + 1 < S.HALF_WORD
  {
    hide Wrap, Pow2, IsPow2, S.Inv;
    Bounds(b);
  }

  lemma PSignalKeeps<T>(b: Buffer<T>, luck: bool)
    requires Inv(b) && (b.producer.PSignal? || b.producer.PSignalling?)
    ensures Inv(ProducerMove(b, luck))
  {
    hide ConsumerOk, Wrap, DataOk, Pow2, IsPow2, S.Inv, S.Step;
    SignalRoom(b);
    if b.producer.PSignal? { S.SignalStarts(b.items); } else { S.SignalEffect(b.items); }
    DataSame(b, ProducerMove(b, luck));
    ConsumerSame(b, ProducerMove(b, luck));
  }

  lemma PIndexKeeps<T>(b: Buffer<T>, luck: bool)
    requires Inv(b) && b.producer.PIndex?
    ensures Inv(ProducerMove(b, luck))
  {
    hide ConsumerOk, Wrap, DataOk, Pow2, IsPow2, S.Inv;
    WrapIncrement(|b.sent|);
    DataSame(b, ProducerMove(b, luck));
    ConsumerSame(b, ProducerMove(b, luck));
  }

  lemma CWaitingKeeps<T>(b: Buffer<T>, luck: bool)
    requires Inv(b) && b.consumer.CWaiting?
    ensures Inv(ConsumerMove(b, luck))
  {
    hide ProducerOk, Wrap, DataOk, Pow2, IsPow2, S.Inv, S.Step;
    S.WaitEffect(b.items, luck);
    var items := S.Step(b.items, S.WaiterStep(luck));
    if items.waiter.WIdle? {
      assert items.waiter.outcome.Failed? || items.waiter.outcome.Acquired?;
      S.WaitStarts(items, ModeOf(b.consumer.patience));
    }
    DataSame(b, ConsumerMove(b, luck));
    ProducerSame(b, ConsumerMove(b, luck));
  }

  lemma CSignalKeeps<T>(b: Buffer<T>, luck: bool)
    requires Inv(b) && (b.consumer.CSignal? || b.consumer.CSignalling?)
    ensures Inv(ConsumerMove(b, luck))
  {
    hide ProducerOk, Wrap, DataOk, Pow2, IsPow2, S.Inv, S.Step;
    SignalRoom(b);
    if b.consumer.CSignal? { S.SignalStarts(b.slots); } else { S.SignalEffect(b.slots); }
    DataSame(b, ConsumerMove(b, luck));
    ProducerSame(b, ConsumerMove(b, luck));
  }

  lemma CIndexKeeps<T>(b: Buffer<T>, luck: bool)
    requires Inv(b) && b.consumer.CIndex?
    ensures Inv(ConsumerMove(b, luck))
  {
    hide ProducerOk, Wrap, DataOk, Pow2, IsPow2, S.Inv;
    WrapIncrement(|b.received|);
    DataSame(b, ConsumerMove(b, luck));
    ProducerSame(b, ConsumerMove(b, luck));
  }

  lemma ProducerKeeps<T>(b: Buffer<T>, luck: bool)
    requires Inv(b)
    ensures Inv(ProducerMove(b, luck))
  {
    hide Inv;
    match b.producer
    case PIdle =>
    case PRefused(_) =>
    case PWaiting(item, patience) => PWaitingKeeps(b, luck);
    case PIndex(item) => PIndexKeeps(b, luck);
    case PWrite(item, i) => PWriteKeeps(b, luck);
    case PSignal => PSignalKeeps(b, luck);
    case PSignalling => PSignalKeeps(b, luck);
  }

  lemma ConsumerKeeps<T>(b: Buffer<T>, luck: bool)
    requires Inv(b)
    ensures Inv(ConsumerMove(b, luck))
  {
    hide Inv;
    match b.consumer
    case CIdle =>
    case CRefused(_) =>
    case CGot(_) =>
    case CWaiting(patience) => CWaitingKeeps(b, luck);
    case CIndex => CIndexKeeps(b, luck);
    case CRead(i) => CReadKeeps(b, luck);
    case CSignal(v) => CSignalKeeps(b, luck);
    case CSignalling(v) => CSignalKeeps(b, luck);
  }

  lemma CallKeeps<T>(b: Buffer<T>, a: Action<T>)
    requires Inv(b) && (a.Enqueue? || a.Dequeue?)
    ensures Inv(Step(b, a))
  {
    hide Wrap, DataOk, Pow2, IsPow2, S.Inv, S.Step;
    if a.Enqueue? && PResting(b.producer) { S.WaitStarts(b.slots, ModeOf(a.patience)); }
    if a.Dequeue? && CResting(b.consumer) { S.WaitStarts(b.items, ModeOf(a.patience)); }
    DataSame(b, Step(b, a));
  }

  lemma StepKeeps<T>(b: Buffer<T>, a: Action<T>)
    requires Inv(b)
    ensures Inv(Step(b, a)) && Step(b, a).maxcap == b.maxcap
  {
    hide Inv;
    match a
    case Enqueue(item, patience) => CallKeeps(b, a);
    case ProducerStep(luck) => ProducerKeeps(b, luck);
    case Dequeue(patience) => CallKeeps(b, a);
    case ConsumerStep(luck) => ConsumerKeeps(b, luck);
  }

  lemma {:induction false} RunKeeps<T>(b: Buffer<T>, actions: seq<Action<T>>)
    requires Inv(b)
    ensures Inv(Run(b, actions)) && Run(b, actions).maxcap == b.maxcap
    decreases actions
  {
    if actions != [] {
      StepKeeps(b, actions[0]);
      RunKeeps(Step(b, actions[0]), actions[1..]);
    }
  }

  /** A buffer before its first call, with the given count of free places and number of cells. */
  function Empty<T>(capacity: nat, mask: nat, places: int, cells: nat): Buffer<T> {
    Buffer(capacity, mask, seq(cells, _ => Raw), S.New(places), S.New(0), 0, 0, PIdle, CIdle, [], [],
      S.New(places).fault)
  }

  lemma EmptyInv<T>(capacity: nat, mask: nat)
    requires capacity < S.HALF_WORD && capacity <= mask + 1 && mask < Pow2(WORD_BITS) && IsPow2(mask + 1)
    ensures Inv(Empty<T>(capacity, mask, capacity, mask + 1))
  {
    hide Pow2, IsPow2, S.Inv, DataOk;
    S.NewInv(capacity);
    S.NewInv(0);
    EmptyData(Empty<T>(capacity, mask, capacity, mask + 1));
    DivUnique(0, Pow2(WORD_BITS), 0, 0);
  }

  /** The mask the constructor computes. */
  ghost predicate IsMaskFor(mask: nat, capacity: nat) {
    && mask < Pow2(WORD_BITS) && IsPow2(mask + 1)
    && (capacity == 0 ==> mask == Pow2(WORD_BITS) - 1)
    && (capacity >= 1 ==> IsLeastPow2AtLeast(mask + 1, capacity))
  }

  /** A capacity as the semaphore's signed count. */
  function SignedWord(x: nat): int {
    if x < Pow2(WORD_BITS - 1) then x else x - Pow2(WORD_BITS)
  }

  /** The element type: its size, its alignment, and how much of the padding aligning uses up. */
  datatype Layout = Layout(bytes: nat, align: nat, offset: nat)

  ghost predicate LayoutOk(e: Layout) { 1 <= e.align <= e.bytes && e.align < Pow2(WORD_BITS) && e.offset < e.align }

  /** The bytes asked of malloc, before they wrap at a machine word. */
  function BytesAsked(size: nat, e: Layout): int { size * e.bytes + e.align - 1 }

  /** How many elements the allocation has room for. */
  function Cells(size: nat, e: Layout): nat
    requires e.bytes >= 1
  {
    var given := BytesAsked(size, e) % Pow2(WORD_BITS);
    if given >= e.offset then (given - e.offset) / e.bytes else 0
  }

  /** The rounded size, wrapping. */
  function Size(mask: nat): nat { (mask + 1) % Pow2(WORD_BITS) }

  /** What the constructor leaves: the count cast to a signed word, and the cells allocated. */
  function Constructed<T>(capacity: nat, mask: nat, e: Layout): Buffer<T>
    requires e.bytes >= 1
  {
    Empty(capacity, mask, SignedWord(capacity), Cells(Size(mask), e))
  }

  method New<T>(capacity: nat, e: Layout) returns (b: Buffer<T>)
    requires capacity < Pow2(WORD_BITS) && e.bytes >= 1
    ensures IsMaskFor(b.mask, capacity) && b == Constructed(capacity, b.mask, e)
  {
    hide Pow2, IsPow2, IsLeastPow2AtLeast;
    var mask := RoundUpMask(capacity);
    var cells := Cells(Size(mask), e);
    var slots := S.New(SignedWord(capacity));
    b := Buffer(capacity, mask, seq(cells, _ => Raw), slots, S.New(0), 0, 0, PIdle, CIdle, [], [], slots.fault);
  }

  lemma EmptyData<T>(b: Buffer<T>)
    requires |b.data| > 0 && b.sent == [] && b.received == []
    requires forall k :: 0 <= k < |b.data| ==> b.data[k] == Raw
    ensures DataOk(b)
  {
  }

  /**
    No live element has been overwritten and no destroyed one read, what is received is
    what was sent in order, at most `capacity` elements are in the buffer, an enqueue is
    refused only with every place taken, and a dequeue only with nothing on offer.
   */
  predicate Conforms<T(==)>(r: Buffer<T>, capacity: nat) {
    && !r.fault && !r.slots.fault && !r.items.fault
    && r.received <= r.sent
    && |r.sent| - |r.received| <= capacity
    && (r.producer.PRefused? ==> r.producer.occupied == capacity)
    && (r.consumer.CRefused? ==> r.consumer.published == 0)
    && (Carrying(r.consumer) ==> |r.received| > 0 && r.consumer.value == r.received[|r.received| - 1])
  }

  /** The argument of the enqueue call under way, until it is stored. */
  predicate Bringing<T>(p: Producer<T>) { p.PWaiting? || p.PIndex? || p.PWrite? }

  /** An enqueue call stores its own argument, once, and nothing else is ever stored. */
  lemma ArgumentIsStored<T>(b: Buffer<T>, a: Action<T>)
    ensures var p, r := b.producer, Step(b, a);
            && (a.Enqueue? && PResting(p) ==> Bringing(r.producer) && r.producer.item == a.item && r.sent == b.sent)
            && (Bringing(p) ==>
                  || (Bringing(r.producer) && r.producer.item == p.item && r.sent == b.sent)
                  || (r.producer.PSignal? && r.sent == b.sent + [p.item])
                  || (r.producer.PRefused? && r.sent == b.sent))
            && (!Bringing(p) && !a.Enqueue? ==> !Bringing(r.producer) && r.sent == b.sent)
            && (r.producer.PRefused? && r.producer != p ==> r.producer.occupied == |r.sent| - r.slots.signalled)
  {
    hide S.Step, Wrap, And;
  }

  /** Each element taken out is returned by its own dequeue call; a refusal counts what is on offer. */
  lemma ResultIsTaken<T>(b: Buffer<T>, a: Action<T>)
    ensures var c, r := b.consumer, Step(b, a);
            && (r.received == b.received
                || (c.CRead? && r.consumer.CSignal? && r.received == b.received + [r.consumer.value]))
            && (Carrying(r.consumer) && !c.CRead? ==> Carrying(c) && r.consumer.value == c.value)
            && (r.consumer.CRefused? && r.consumer != c ==> r.consumer.published == r.items.signalled - |r.received|)
  {
    hide S.Step, Wrap, And;
  }

  lemma CircularBufferIsBoundedFifo<T>(b: Buffer<T>, actions: seq<Action<T>>)
    requires Inv(b)
    ensures Conforms(Run(b, actions), b.maxcap)
  {
    RunKeeps(b, actions);
    Bounds(Run(b, actions));
    S.NoFault(Run(b, actions).slots);
    S.NoFault(Run(b, actions).items);
    hide S.Inv, DataOk, Pow2, IsPow2;
  }

  // ------------------------------------------------------------------ which capacities work

  lemma HalfWordIs()
    ensures Pow2(WORD_BITS - 1) == S.HALF_WORD && Pow2(WORD_BITS) == 2 * S.HALF_WORD
  {
    hide Pow2;
    Pow2Add(31, 32);
    BitFields.Powers();
    HalfWord();
  }

  /** An allocation whose bytes fit a word has a cell for every place of the array, and no other has. */
  lemma CellsExactly(size: nat, e: Layout)
    requires LayoutOk(e)
    ensures if BytesAsked(size, e) < Pow2(WORD_BITS) then Cells(size, e) == size else Cells(size, e) < size
  {
    hide Pow2;
    var word, asked := Pow2(WORD_BITS), BytesAsked(size, e);
    if asked < word {
      DivUnique(asked, word, 0, asked);
      DivUnique(asked - e.offset, e.bytes, size, e.align - 1 - e.offset);
    } else {
      var q, given := asked / word, asked % word;
      assert asked == q * word + given;
      QuotientAtLeastOne(asked, word);
      MulAtLeast(q, word);
      assert given <= asked - word < size * e.bytes;
      if given >= e.offset { FewerCells(given - e.offset, e.bytes, size); } else { PositiveSize(size, e); }
    }
  }

  lemma QuotientAtLeastOne(x: nat, d: nat)
    requires 0 < d <= x
    ensures x / d >= 1
  {
    assert x == (x / d) * d + x % d;
  }

  lemma MulOrder(a: int, b: int, d: nat)
    requires a <= b
    ensures a * d <= b * d
  {
    assert (b - a) * d == b * d - a * d;
  }

  lemma FewerCells(x: nat, d: nat, n: nat)
    requires d >= 1 && x < n * d
    ensures x / d < n
  {
    assert x == (x / d) * d + x % d;
    if n <= x / d { MulOrder(n, x / d, d); }
  }

  lemma PositiveSize(size: nat, e: Layout)
    requires LayoutOk(e) && BytesAsked(size, e) >= Pow2(WORD_BITS)
    ensures size > 0
  {
    hide Pow2;
  }

  /** The capacities and element types for which nothing wraps but the size of a buffer of no places. */
  ghost predicate Fitting(capacity: nat, mask: nat, e: Layout) {
    capacity < Pow2(WORD_BITS - 1) && BytesAsked(Size(mask), e) < Pow2(WORD_BITS)
  }

  lemma SizeIs(capacity: nat, mask: nat)
    requires capacity < Pow2(WORD_BITS) && IsMaskFor(mask, capacity)
    ensures 1 <= capacity < Pow2(WORD_BITS - 1) ==> capacity <= mask + 1 == Size(mask) < Pow2(WORD_BITS)
    ensures capacity == 0 ==> Size(mask) == 0
    ensures capacity < Pow2(WORD_BITS - 1) ==> SignedWord(capacity) == capacity < S.HALF_WORD
    ensures capacity >= Pow2(WORD_BITS - 1) ==> SignedWord(capacity) < 0
  {
    hide Pow2, IsPow2;
    HalfWordIs();
    HalfWord();
    if capacity == 0 {
      DivUnique(mask + 1, Pow2(WORD_BITS), 1, 0);
    } else if capacity < Pow2(WORD_BITS - 1) {
      assert mask + 1 <= Pow2(WORD_BITS - 1);
      DivUnique(mask + 1, Pow2(WORD_BITS), 0, mask + 1);
    }
  }

  /** Without places no cell is ever touched, so it does not matter that there are none. */
  lemma NoPlaces<T>(b: Buffer<T>)
    requires Inv(b) && b.maxcap == 0
    ensures !b.producer.PWrite? && !b.consumer.CRead?
  {
    Bounds(b);
  }

  lemma ProducerWithoutCells<T>(b: Buffer<T>, mask: nat, luck: bool)
    requires !b.producer.PWrite?
    ensures ProducerMove(b.(data := [], mask := mask), luck) == ProducerMove(b, luck).(data := [], mask := mask)
  {
    hide S.Step, Pow2, And, ModeOf;
  }

  lemma ConsumerWithoutCells<T>(b: Buffer<T>, mask: nat, luck: bool)
    requires !b.consumer.CRead?
    ensures ConsumerMove(b.(data := [], mask := mask), luck) == ConsumerMove(b, luck).(data := [], mask := mask)
  {
    hide S.Step, Pow2, And, ModeOf;
  }

  lemma SameWithoutCells<T>(b: Buffer<T>, mask: nat, a: Action<T>)
    requires !b.producer.PWrite? && !b.consumer.CRead?
    ensures Step(b.(data := [], mask := mask), a) == Step(b, a).(data := [], mask := mask)
  {
    hide S.Step, ModeOf, ProducerMove, ConsumerMove;
    if a.ProducerStep? { ProducerWithoutCells(b, mask, a.luck); }
    if a.ConsumerStep? { ConsumerWithoutCells(b, mask, a.luck); }
  }

  lemma {:induction false} RunWithoutCells<T>(b: Buffer<T>, mask: nat, actions: seq<Action<T>>)
    requires Inv(b) && b.maxcap == 0
    ensures Run(b.(data := [], mask := mask), actions) == Run(b, actions).(data := [], mask := mask)
    decreases actions
  {
    if actions != [] {
      NoPlaces(b);
      SameWithoutCells(b, mask, actions[0]);
      StepKeeps(b, actions[0]);
      hide Inv, Step;
      RunWithoutCells(Step(b, actions[0]), mask, actions[1..]);
    }
  }

  lemma EmptyBufferConforms<T>(mask: nat, actions: seq<Action<T>>)
    ensures Conforms(Run(Empty<T>(0, mask, 0, 0), actions), 0)
  {
    hide Inv, Run, Pow2;
    var b := Empty<T>(0, 0, 0, 1);
    OneIsPow2();
    EmptyInv<T>(0, 0);
    CircularBufferIsBoundedFifo(b, actions);
    RunWithoutCells(b, mask, actions);
    assert b.(data := [], mask := mask) == Empty<T>(0, mask, 0, 0);
  }

  lemma OneIsPow2()
    ensures IsPow2(1) && 0 < Pow2(WORD_BITS)
  {
    assert Pow2(0) == 1;
  }

  /** From 2^63 up the count of free places is negative, and the first enqueue is refused. */
  lemma RefusedAtOnce<T>(capacity: nat, mask: nat, e: Layout, x: T)
    requires capacity < Pow2(WORD_BITS) && SignedWord(capacity) < 0 && e.bytes >= 1
    ensures var r := Run(Constructed<T>(capacity, mask, e), [Enqueue(x, Try), ProducerStep(true)]);
            r.fault && r.producer == PRefused(0) && r.sent == []
  {
    hide Pow2, SignedWord, Cells;
    var b := Constructed<T>(capacity, mask, e);
    var b1 := Step(b, Enqueue(x, Try));
    var b2 := Step(b1, ProducerStep(true));
    assert b2.producer == PRefused(0) && b2.fault;
    hide Step, Constructed;
    assert Run(b1, [ProducerStep(true)]) == Run(b2, []);
    assert Run(b, [Enqueue(x, Try), ProducerStep(true)]) == Run(b1, [ProducerStep(true)]);
  }

  // ------------------------------------------------------------------ too few cells

  /** Between rounds of one enqueue and one dequeue: both indices at k, nothing in the buffer. */
  ghost predicate Rest<T>(b: Buffer<T>, k: nat) {
    && b.producer.PIdle? && CResting(b.consumer) && b.nextSlot == k && b.nextItem == k
    && b.slots.waiter.WIdle? && b.slots.signaller.SIdle? && 1 <= b.slots.count < S.HALF_WORD
    && b.items.waiter.WIdle? && b.items.signaller.SIdle? && b.items.count == 0
    && k <= b.mask < Pow2(WORD_BITS) - 1 && IsPow2(b.mask + 1) && |b.data| <= b.mask
    && (forall i :: 0 <= i < |b.data| ==> b.data[i] == Raw)
  }

  lemma MaskKeeps(k: nat, mask: nat)
    requires k <= mask && IsPow2(mask + 1)
    ensures And(k, mask) == k
  {
    var j: nat :| Pow2(j) == mask + 1;
    AndMask(k, j);
    hide Pow2;
    DivUnique(k, mask + 1, 0, k);
  }

  lemma WordKeeps(k: nat)
    requires k < Pow2(WORD_BITS)
    ensures Wrap(k) == k
  {
    hide Pow2;
    DivUnique(k, Pow2(WORD_BITS), 0, k);
  }

  /** n steps of one thread. */
  function Times<T>(a: Action<T>, n: nat): seq<Action<T>> { if n == 0 then [] else [a] + Times(a, n - 1) }

  lemma {:induction false} RunAppend<T>(b: Buffer<T>, xs: seq<Action<T>>, ys: seq<Action<T>>)
    ensures Run(b, xs + ys) == Run(Run(b, xs), ys)
    decreases xs
  {
    hide Step;
    if xs == [] {
      assert xs + ys == ys;
    } else {
      assert (xs + ys)[0] == xs[0] && (xs + ys)[1..] == xs[1..] + ys;
      RunAppend(Step(b, xs[0]), xs[1..], ys);
    }
  }

  lemma RunFirst<T>(b: Buffer<T>, a: Action<T>, rest: seq<Action<T>>)
    ensures Run(b, [a] + rest) == Run(Step(b, a), rest)
  {
    hide Step;
    assert ([a] + rest)[1..] == rest;
  }

  lemma ThreeTimes<T>(b: Buffer<T>, a: Action<T>)
    ensures Run(b, Times(a, 3)) == Step(Step(Step(b, a), a), a)
  {
    hide Step;
    var b1 := Step(b, a);
    var b2 := Step(b1, a);
    assert Times(a, 3) == [a] + Times(a, 2) && Times(a, 2) == [a] + Times(a, 1) && Times(a, 1) == [a] + Times(a, 0);
    RunFirst(b, a, Times(a, 2));
    RunFirst(b1, a, Times(a, 1));
    RunFirst(b2, a, Times(a, 0));
  }

  /** A wait on the slots that finds a place, and the index that follows. */
  lemma FindsPlace<T>(b: Buffer<T>, x: T)
    requires PResting(b.producer) && b.slots.waiter.WIdle? && 0 < b.slots.count < S.HALF_WORD
    ensures Step(Step(b, Enqueue(x, Try)), ProducerStep(true))
         == b.(slots := b.slots.(waiter := S.WTryTake), producer := PWaiting(x, Try))
  {
    S.TryTakes(b.slots);
    hide Wrap, S.Step, ConsumerMove, And;
    assert Step(b, Enqueue(x, Try)) == b.(slots := b.slots.(waiter := S.WTry(S.TryOnly)), producer := PWaiting(x, Try));
  }

  lemma TakesPlace<T>(b: Buffer<T>, x: T)
    requires PResting(b.producer) && b.slots.waiter.WIdle? && 0 < b.slots.count < S.HALF_WORD
    requires b.nextSlot < Pow2(WORD_BITS) - 1
    ensures var a: Action<T> := ProducerStep(true);
            var slots := b.slots.(waiter := S.WIdle(S.Acquired), count := b.slots.count - 1,
              acquired := b.slots.acquired + 1);
            Step(Step(Step(Step(b, Enqueue(x, Try)), a), a), a)
              == b.(slots := slots, producer := PWrite(x, b.nextSlot), nextSlot := b.nextSlot + 1)
  {
    hide Wrap, Pow2, S.Step, ConsumerMove, And;
    WordKeeps(b.nextSlot + 1);
    S.TryTakes(b.slots);
    FindsPlace(b, x);
    var slots := b.slots.(waiter := S.WIdle(S.Acquired), count := b.slots.count - 1, acquired := b.slots.acquired + 1);
    var b2 := b.(slots := b.slots.(waiter := S.WTryTake), producer := PWaiting(x, Try));
    assert Step(b2, ProducerStep(true)) == b.(slots := slots, producer := PIndex(x));
  }

  /** try_enqueue up to the point of writing. */
  lemma AboutToWrite<T>(b: Buffer<T>, k: nat, x: T)
    requires Rest(b, k)
    ensures var r := Run(b, [Enqueue(x, Try)] + Times(ProducerStep(true), 3));
            && r.producer == PWrite(x, k)
            && r == b.(slots := r.slots, producer := r.producer, nextSlot := k + 1)
            && r.slots.count == b.slots.count - 1 && r.slots.waiter.WIdle? && r.slots.signaller.SIdle?
  {
    hide Pow2, IsPow2, Run, Times, Step;
    TakesPlace(b, x);
    RunFirst(b, Enqueue(x, Try), Times(ProducerStep(true), 3));
    ThreeTimes(Step(b, Enqueue(x, Try)), ProducerStep(true));
  }

  /** With a cell there, the rest of the call. */
  lemma Writes<T>(b: Buffer<T>, k: nat, x: T)
    requires b.producer == PWrite(x, k) && k < |b.data| && k <= b.mask && IsPow2(b.mask + 1) && b.data[k] == Raw
    requires b.items.waiter.WIdle? && b.items.signaller.SIdle? && b.items.count == 0
    ensures var r := Run(b, Times(ProducerStep(true), 3));
            && r == b.(items := r.items, producer := PIdle, data := b.data[k := Val(x)], sent := b.sent + [x])
            && r.items.count == 1 && r.items.waiter.WIdle? && r.items.signaller.SIdle?
  {
    var a: Action<T> := ProducerStep(true);
    MaskKeeps(k, b.mask);
    S.SignalAdds(b.items);
    hide And, IsPow2, S.Step, Run, Times;
    var b1 := b.(producer := PSignal, data := b.data[k := Val(x)], sent := b.sent + [x]);
    assert Step(b, a) == b1;
    var b2 := b1.(items := b.items.(signaller := S.SAdd(1)), producer := PSignalling);
    assert Step(b1, a) == b2;
    ThreeTimes(b, a);
  }

  lemma FindsItem<T>(b: Buffer<T>)
    requires CResting(b.consumer) && b.items.waiter.WIdle? && 0 < b.items.count < S.HALF_WORD
    ensures Step(Step(b, Dequeue(Try)), ConsumerStep(true))
         == b.(items := b.items.(waiter := S.WTryTake), consumer := CWaiting(Try))
  {
    S.TryTakes(b.items);
    hide Wrap, S.Step, ProducerMove, And;
    assert Step(b, Dequeue(Try)) == b.(items := b.items.(waiter := S.WTry(S.TryOnly)), consumer := CWaiting(Try));
  }

  lemma TakesItem<T>(b: Buffer<T>)
    requires CResting(b.consumer) && b.items.waiter.WIdle? && 0 < b.items.count < S.HALF_WORD
    requires b.nextItem < Pow2(WORD_BITS) - 1
    ensures var a: Action<T> := ConsumerStep(true);
            var items := b.items.(waiter := S.WIdle(S.Acquired), count := b.items.count - 1,
              acquired := b.items.acquired + 1);
            Step(Step(Step(Step(b, Dequeue(Try)), a), a), a)
              == b.(items := items, consumer := CRead(b.nextItem), nextItem := b.nextItem + 1)
  {
    hide Wrap, Pow2, S.Step, ProducerMove, And;
    WordKeeps(b.nextItem + 1);
    S.TryTakes(b.items);
    FindsItem(b);
    var items := b.items.(waiter := S.WIdle(S.Acquired), count := b.items.count - 1, acquired := b.items.acquired + 1);
    var b2 := b.(items := b.items.(waiter := S.WTryTake), consumer := CWaiting(Try));
    assert Step(b2, ConsumerStep(true)) == b.(items := items, consumer := CIndex);
  }

  lemma TakesOut<T>(b: Buffer<T>, k: nat, x: T)
    requires b.consumer == CRead(k) && k < |b.data| && b.data[k] == Val(x) && k <= b.mask && IsPow2(b.mask + 1)
    requires b.slots.signaller.SIdle? && 0 <= b.slots.count < S.HALF_WORD - 1
    ensures var a: Action<T> := ConsumerStep(true);
            Step(Step(Step(b, a), a), a)
              == b.(slots := b.slots.(count := b.slots.count + 1, signalled := b.slots.signalled + 1),
                    consumer := CGot(x), data := b.data[k := Raw], received := b.received + [x])
  {
    MaskKeeps(k, b.mask);
    S.SignalAdds(b.slots);
    hide And, IsPow2, S.Step, ProducerMove;
    var b1 := b.(consumer := CSignal(x), data := b.data[k := Raw], received := b.received + [x]);
    assert Step(b, ConsumerStep(true)) == b1;
    var b2 := b1.(slots := b.slots.(signaller := S.SAdd(1)), consumer := CSignalling(x));
    assert Step(b1, ConsumerStep(true)) == b2;
  }

  /** try_dequeue of the one element. */
  function Taking<T>(): seq<Action<T>> {
    [Dequeue(Try)] + Times(ConsumerStep(true), 3) + Times(ConsumerStep(true), 3)
  }

  lemma Reads<T>(b: Buffer<T>, k: nat, x: T)
    requires CResting(b.consumer) && b.nextItem == k < Pow2(WORD_BITS) - 1 && k < |b.data| && b.data[k] == Val(x)
    requires k <= b.mask && IsPow2(b.mask + 1)
    requires b.items.waiter.WIdle? && b.items.signaller.SIdle? && b.items.count == 1
    requires b.slots.waiter.WIdle? && b.slots.signaller.SIdle? && 0 <= b.slots.count < S.HALF_WORD - 1
    ensures var r := Run(b, Taking());
            && r == b.(items := r.items, slots := r.slots, consumer := CGot(x), nextItem := k + 1,
                       data := b.data[k := Raw], received := b.received + [x])
            && r.items.count == 0 && r.items.waiter.WIdle? && r.items.signaller.SIdle?
            && r.slots.count == b.slots.count + 1 && r.slots.waiter.WIdle? && r.slots.signaller.SIdle?
  {
    hide Pow2, IsPow2, Run, Times, Step;
    var three := Times<T>(ConsumerStep(true), 3);
    TakesItem(b);
    RunFirst(b, Dequeue(Try), three);
    ThreeTimes(Step(b, Dequeue(Try)), ConsumerStep(true));
    var b1 := Run(b, [Dequeue(Try)] + three);
    TakesOut(b1, k, x);
    ThreeTimes(b1, ConsumerStep(true));
    RunAppend(b, [Dequeue(Try)] + three, three);
  }

  /** One element in and out. */
  function Round<T>(x: T): seq<Action<T>> {
    [Enqueue(x, Try)] + Times(ProducerStep(true), 3) + Times(ProducerStep(true), 3) + Taking()
  }

  lemma RoundKeeps<T>(b: Buffer<T>, k: nat, x: T)
    requires Rest(b, k) && k < |b.data|
    ensures var r := Run(b, Round(x)); Rest(r, k + 1) && |r.data| == |b.data|
  {
    hide Run, Times, Pow2, IsPow2, Taking;
    var p: Action<T> := ProducerStep(true);
    var start, wait := [Enqueue(x, Try)] + Times(p, 3), Times(p, 3);
    AboutToWrite(b, k, x);
    var b1 := Run(b, start);
    Writes(b1, k, x);
    var b2 := Run(b1, wait);
    Reads(b2, k, x);
    RunAppend(b, start, wait);
    RunAppend(b, start + wait, Taking());
  }

  function Rounds<T>(x: T, n: nat): seq<Action<T>> { if n == 0 then [] else Round(x) + Rounds(x, n - 1) }

  lemma {:induction false} RoundsReach<T>(b: Buffer<T>, k: nat, x: T, n: nat)
    requires Rest(b, k) && k + n == |b.data|
    ensures var r := Run(b, Rounds(x, n)); Rest(r, |b.data|) && |r.data| == |b.data|
    decreases n
  {
    hide Rest;
    if n != 0 {
      RoundKeeps(b, k, x);
      RunAppend(b, Round(x), Rounds(x, n - 1));
      hide Run, Round;
      RoundsReach(Run(b, Round(x)), k + 1, x, n - 1);
    }
  }

  /** With fewer cells than places, one element after the other reaches a place without a cell. */
  function OverrunningRun<T>(x: T, cells: nat): seq<Action<T>> {
    Rounds(x, cells) + ([Enqueue(x, Try)] + Times(ProducerStep(true), 3)) + [ProducerStep(true)]
  }

  lemma FewCellsFail<T>(b: Buffer<T>, x: T)
    requires Rest(b, 0)
    ensures Run(b, OverrunningRun(x, |b.data|)).fault
  {
    hide Run, Times, Pow2, IsPow2, Rounds;
    var u := |b.data|;
    RoundsReach(b, 0, x, u);
    var b1 := Run(b, Rounds(x, u));
    var p: Action<T> := ProducerStep(true);
    var start := [Enqueue(x, Try)] + Times(p, 3);
    AboutToWrite(b1, u, x);
    var b2 := Run(b1, start);
    MaskKeeps(u, b2.mask);
    hide And;
    assert Step(b2, ProducerStep(true)).fault;
    OneStep(b2, ProducerStep(true));
    RunAppend(b, Rounds(x, u), start);
    RunAppend(b, Rounds(x, u) + start, [ProducerStep(true)]);
  }

  lemma OneStep<T>(b: Buffer<T>, a: Action<T>)
    ensures Run(b, [a]) == Step(b, a)
  {
    hide Step;
    assert Run(b, [a]) == Run(Step(b, a), []);
  }

  /**
    The constructed buffer is a bounded queue of its capacity in every interleaving if and
    only if that capacity is below 2^63 and the bytes of its array fit a machine word.
   */
  lemma BufferWorksExactly<T(!new)>(capacity: nat, mask: nat, e: Layout, x: T)
    requires capacity < Pow2(WORD_BITS) && IsMaskFor(mask, capacity) && LayoutOk(e)
    ensures (forall actions: seq<Action<T>> :: Conforms(Run(Constructed<T>(capacity, mask, e), actions), capacity))
       <==> Fitting(capacity, mask, e)
  {
    hide *;
    LayoutSize(e);
    if Fitting(capacity, mask, e) {
      forall actions: seq<Action<T>> ensures Conforms(Run(Constructed<T>(capacity, mask, e), actions), capacity) {
        FittingConforms(capacity, mask, e, actions);
      }
    } else {
      var run := FailingRun(capacity, mask, e, x);
      assert !Conforms(Run(Constructed<T>(capacity, mask, e), run), capacity);
    }
  }

  lemma LayoutSize(e: Layout)
    requires LayoutOk(e)
    ensures e.bytes >= 1
  {
  }

  lemma FittingConforms<T>(capacity: nat, mask: nat, e: Layout, actions: seq<Action<T>>)
    requires capacity < Pow2(WORD_BITS) && IsMaskFor(mask, capacity) && LayoutOk(e) && Fitting(capacity, mask, e)
    ensures Conforms(Run(Constructed<T>(capacity, mask, e), actions), capacity)
  {
    hide Pow2, Run, Inv, IsPow2, IsLeastPow2AtLeast, Empty, Cells, SignedWord, Size, Conforms;
    SizeIs(capacity, mask);
    CellsExactly(Size(mask), e);
    if capacity == 0 {
      EmptyBufferConforms<T>(mask, actions);
    } else {
      EmptyInv<T>(capacity, mask);
      EmptyCapacity<T>(capacity, mask);
      CircularBufferIsBoundedFifo(Empty<T>(capacity, mask, capacity, mask + 1), actions);
    }
  }

  lemma EmptyCapacity<T>(capacity: nat, mask: nat)
    ensures Empty<T>(capacity, mask, capacity, mask + 1).maxcap == capacity
  {
  }

  lemma FailingRun<T>(capacity: nat, mask: nat, e: Layout, x: T) returns (run: seq<Action<T>>)
    requires capacity < Pow2(WORD_BITS) && IsMaskFor(mask, capacity) && LayoutOk(e) && !Fitting(capacity, mask, e)
    ensures !Conforms(Run(Constructed<T>(capacity, mask, e), run), capacity)
  {
    hide Pow2, Run, IsPow2, IsLeastPow2AtLeast, Empty, Cells, SignedWord, Size;
    SizeIs(capacity, mask);
    CellsExactly(Size(mask), e);
    if capacity >= Pow2(WORD_BITS - 1) {
      run := [Enqueue(x, Try), ProducerStep(true)];
      RefusedAtOnce(capacity, mask, e, x);
    } else {
      assert capacity >= 1;
      var b := Constructed<T>(capacity, mask, e);
      RestAtFirst<T>(capacity, mask, Cells(Size(mask), e));
      run := OverrunningRun(x, |b.data|);
      FewCellsFail(b, x);
    }
  }

  lemma RestAtFirst<T>(capacity: nat, mask: nat, cells: nat)
    requires 1 <= capacity < S.HALF_WORD && cells <= mask < Pow2(WORD_BITS) - 1 && IsPow2(mask + 1)
    ensures Rest(Empty<T>(capacity, mask, capacity, cells), 0)
  {
    hide Pow2, IsPow2;
  }
}
