/** Exactly which sizes the queue of blocks works for. */
module BlockQueueExact {
  import opened Bits
  import opened Storage
  import opened BlockQueue
  import opened BlockQueueSafety
  import opened BlockQueueConstruction
  import opened BlockQueueZero

  /** What a queue built for `size` elements promises in every state. */
  predicate Conforms<T(==)>(s: State<T>, size: nat) {
    && !s.fault
    && s.received <= s.sent && Returned(s)
    && (s.consumer.CIdle? && s.consumer.result.NothingThere? ==> s.consumer.result.sawEmpty)
    && (s.producer.PIdle? && s.producer.outcome.Refused? ==> s.producer.outcome.lengthAtStart >= size)
  }

  /** A block of no slots is written to at once. */
  lemma SlotlessFails<T>(m: nat, x: T)
    ensures Run(Start([MakeBlock<T>(0)], 0, m),
                [Enqueue(x, true), ProducerStep(true), ProducerStep(true), ProducerStep(true)]).fault
  {
    MaskOfOnes();
    var s := Start([MakeBlock<T>(0)], 0, m);
    var s1 := Step(s, Enqueue(x, true));
    var s2 := Step(s1, ProducerStep(true));
    var s3 := Step(s2, ProducerStep(true));
    var s4 := Step(s3, ProducerStep(true));
    assert s2.producer.at == PTail(0);
    assert s3.producer.at == PWrite(0, 0);
    assert s4.fault;
    hide Step, Start, MakeBlock;
    assert Run(s3, [ProducerStep(true)]) == Run(s4, []);
    assert Run(s2, [ProducerStep(true), ProducerStep(true)]) == Run(s3, [ProducerStep(true)]);
    assert Run(s1, [ProducerStep(true), ProducerStep(true), ProducerStep(true)])
           == Run(s2, [ProducerStep(true), ProducerStep(true)]);
  }

  lemma MaskOfOnes()
    ensures Inc(0, 0) == 1
  {
    hide Pow2;
    HalfWord();
    AndMask(1, WORD_BITS);
    DivUnique(1, Pow2(WORD_BITS), 0, 1);
  }

  lemma NothingReturned<T>(size: nat, p: nat, maxBlock: nat)
    requires maxBlock >= 2
    ensures Returned(Built<T>(size, p, maxBlock))
  {
  }

  lemma WorkingSizes<T>(size: nat, p: nat, maxBlock: nat, actions: seq<Action<T>>)
    requires 1 <= size < Pow2(WORD_BITS - 1) && IsPow2(maxBlock) && maxBlock >= 2 && RoundedUp(PlusOne(size), p)
    ensures Conforms(Run(Built<T>(size, p, maxBlock), actions), size)
  {
    hide Inv, Run, Built, Pow2, IsPow2, RoundedUp;
    BuiltInv<T>(size, p, maxBlock);
    var unit: nat :| Inv(Built<T>(size, p, maxBlock), unit, size);
    NothingReturned<T>(size, p, maxBlock);
    QueueOfBlocksIsFifo(Built<T>(size, p, maxBlock), actions, unit, size);
  }

  /** The two families of sizes for which the constructor leaves an unusable block. */
  lemma BrokenSizes<T(!new)>(size: nat, p: nat, maxBlock: nat, x: T)
    requires size < Pow2(WORD_BITS) && maxBlock >= 2 && RoundedUp(PlusOne(size), p)
    requires size == 0 || size >= Pow2(WORD_BITS - 1)
    ensures exists actions: seq<Action<T>> :: Run(Built<T>(size, p, maxBlock), actions).fault
  {
    hide Pow2, Run, Start, Circle, IsPow2, PlusOne;
    HalfWord();
    PlusOneIs(size);
    if size == 0 {
      LeastOfOne(p);
      SingleBlock<T>(1);
      assert Built<T>(size, p, maxBlock) == Start([MakeBlock<T>(1)], 1, maxBlock);
      SizeZeroFails(maxBlock, x);
    } else {
      SingleBlock<T>(0);
      assert Built<T>(size, p, maxBlock) == Start([MakeBlock<T>(0)], 0, maxBlock);
      SlotlessFails(maxBlock, x);
    }
  }

  /**
    Over every history from construction, the internal assertions hold, order is kept,
    nothing is lost or repeated and nothing is refused below the requested size, if and only
    if that size is at least one and below 2^63.
   */
  lemma QueueWorksExactly<T(!new)>(size: nat, p: nat, maxBlock: nat, x: T)
    requires size < Pow2(WORD_BITS) && IsPow2(maxBlock) && 2 <= maxBlock < Pow2(WORD_BITS - 1)
             && RoundedUp(PlusOne(size), p)
    ensures (forall actions: seq<Action<T>> :: Conforms(Run(Built<T>(size, p, maxBlock), actions), size))
       <==> 1 <= size < Pow2(WORD_BITS - 1)
  {
    hide Pow2, Run, Built, RoundedUp, IsPow2;
    if 1 <= size < Pow2(WORD_BITS - 1) {
      forall actions: seq<Action<T>> ensures Conforms(Run(Built<T>(size, p, maxBlock), actions), size) {
        WorkingSizes<T>(size, p, maxBlock, actions);
      }
    } else {
      BrokenSizes(size, p, maxBlock, x);
    }
  }
}
