/**
  The queue's constructor. It establishes the invariant for every size from one up to, and
  not including, 2^63; BlockQueueExact shows that it fails for all others.
 */
module BlockQueueConstruction {
  import opened Bits
  import opened Storage
  import opened BlockQueue
  import opened BlockRing
  import opened BlockQueueSafety

  /** n empty blocks of one size, linked in a circle. */
  ghost function Circle<T>(n: nat, size: nat): seq<Block<T>> {
    seq(n, (k: nat) => MakeBlock<T>(size).(next := if k + 1 < n then k + 1 else 0))
  }

  function Start<T>(blocks: seq<Block<T>>, largest: nat, maxBlock: nat): State<T> {
    State(blocks, 0, 0, largest, maxBlock, PIdle(NotCalled), CIdle(NotAsked), [], [], false)
  }

  lemma EmptyBlock<T>(size: nat, next: nat)
    requires IsPow2(size) && size >= 2
    ensures var b := MakeBlock<T>(size).(next := next); BlockOk(b) && Abs(b) == Node([], size, next)
  {
    var b := MakeBlock<T>(size).(next := next);
    assert BlockOk(b);
    assert Items(b) == [];
  }

  lemma CircleNode<T>(n: nat, size: nat, maxBlock: nat, i: nat)
    requires i < n && IsPow2(size) && size >= 2
    ensures var s := Start(Circle<T>(n, size), size, maxBlock);
            BlockOk(View(s)[i]) && Nodes(s)[i] == Node([], size, if i + 1 < n then i + 1 else 0)
  {
    EmptyBlock<T>(size, if i + 1 < n then i + 1 else 0);
  }

  lemma CircleRing<T>(s: State<T>, n: nat, size: nat, ring: seq<nat>)
    requires n >= 1 && |s.blocks| == n && ring == seq(n, (k: nat) => k)
    requires forall i :: 0 <= i < n ==> BlockOk(View(s)[i])
    requires forall i :: 0 <= i < n ==> Nodes(s)[i] == Node([], size, if i + 1 < n then i + 1 else 0)
    requires Pending(s) == [] && s.frontBlock == s.tailBlock == 0 && s.sent == s.received == []
    ensures RingOk(s, ring, 0)
  {
    assert Links(Nodes(s), ring);
    assert Occupied(Nodes(s), ring, 0, []);
    assert Contents(Nodes(s), ring, 0) == [];
  }

  lemma CircleInv<T>(n: nat, size: nat, maxBlock: nat, built: nat)
    requires n >= 1 && IsPow2(size) && size >= 2
    requires built <= if n <= 1 then size - 1 else (n - 1) * (size - 1)
    ensures Inv(Start(Circle<T>(n, size), size, maxBlock), size - 1, built)
  {
    var s := Start(Circle<T>(n, size), size, maxBlock);
    var ring := seq(n, (k: nat) => k);
    forall i | 0 <= i < n
      ensures BlockOk(View(s)[i]) && Nodes(s)[i] == Node([], size, if i + 1 < n then i + 1 else 0)
    {
      CircleNode<T>(n, size, maxBlock, i);
    }
    assert Sized(s, ring, size - 1, built);
    assert ProducerOk(s, ring, 0, size - 1, built) && ConsumerOk(s, ring, 0) && Pending(s) == [];
    hide BlockOk, Nodes, View, Sized, ProducerOk, ConsumerOk, RingOk, Inv, IsPow2;
    CircleRing(s, n, size, ring);
    Assembled(s, ring, 0, size - 1, built);
  }

  /** The number of blocks reserved leaves room for `size` elements in all but one of them. */
  lemma EnoughBlocks(size: nat, maxBlock: nat, n: int)
    requires maxBlock >= 2 && size >= 1 && n == (size + maxBlock * 2 - 3) / (maxBlock - 1)
    ensures n >= 2 && size <= (n - 1) * (maxBlock - 1)
  {
    var d := maxBlock - 1;
    var x := size + 2 * d - 1;
    assert x == n * d + x % d;
    assert (n - 1) * d == n * d - d;
    if n <= 1 { MulLe(n, d); }
  }

  lemma MulLe(n: int, d: nat)
    requires n <= 1
    ensures n * d <= d
  {
    assert (1 - n) * d >= 0;
    assert (1 - n) * d == d - n * d;
  }

  /** ceilToPow2 in a machine word: the least power of two, or zero where that does not fit. */
  ghost predicate RoundedUp(x: nat, p: nat) {
    if 1 <= x <= Pow2(WORD_BITS - 1) then IsLeastPow2AtLeast(p, x) else p == 0
  }

  /** size + 1, wrapping. */
  function PlusOne(size: nat): nat { (size + 1) % Pow2(WORD_BITS) }

  /** The queue built for `size` elements, whose rounded block size is p. */
  ghost function Built<T>(size: nat, p: nat, maxBlock: nat): State<T>
    requires maxBlock >= 2
  {
    if p > maxBlock * 2
    then Start(Circle<T>((size + maxBlock * 2 - 3) / (maxBlock - 1), maxBlock), maxBlock, maxBlock)
    else Start(Circle<T>(1, p), p, maxBlock)
  }

  /**
    ReaderWriterQueue(size): one block when a block of up to twice MAX_BLOCK_SIZE will do,
    otherwise enough blocks of MAX_BLOCK_SIZE and a spare one.
   */
  method New<T>(size: nat, maxBlock: nat) returns (s: State<T>, ghost p: nat)
    requires size < Pow2(WORD_BITS) && 2 <= maxBlock < Pow2(WORD_BITS - 1)
    ensures RoundedUp(PlusOne(size), p) && s == Built(size, p, maxBlock)
  {
    hide Pow2, IsPow2, IsLeastPow2AtLeast, Start, Circle;
    var x := PlusOne(size);
    var largest := CeilToPow2(x);
    p := largest;
    var blocks: seq<Block<T>>;
    if largest > maxBlock * 2 {
      var count := (size + maxBlock * 2 - 3) / (maxBlock - 1);
      largest := maxBlock;
      blocks := ReserveBlocks(count, largest);
    } else {
      blocks := ReserveBlocks(1, largest);
    }
    s := Start(blocks, largest, maxBlock);
  }

  lemma PlusOneIs(size: nat)
    requires size < Pow2(WORD_BITS)
    ensures PlusOne(size) == if size + 1 == Pow2(WORD_BITS) then 0 else size + 1
  {
    hide Pow2;
    if size + 1 == Pow2(WORD_BITS) {
      DivUnique(size + 1, Pow2(WORD_BITS), 1, 0);
    } else {
      DivUnique(size + 1, Pow2(WORD_BITS), 0, size + 1);
    }
  }

  /** The constructed queue satisfies the invariant, with `size` as its guaranteed capacity. */
  lemma BuiltInv<T>(size: nat, p: nat, maxBlock: nat)
    requires 1 <= size < Pow2(WORD_BITS - 1) && IsPow2(maxBlock) && maxBlock >= 2 && RoundedUp(PlusOne(size), p)
    ensures exists unit: nat :: Inv(Built<T>(size, p, maxBlock), unit, size)
  {
    hide Pow2, Inv, Start, Circle, IsPow2, PlusOne;
    HalfWord();
    PlusOneIs(size);
    assert IsPow2(p) && p >= size + 1;
    if p > maxBlock * 2 {
      var count := (size + maxBlock * 2 - 3) / (maxBlock - 1);
      EnoughBlocks(size, maxBlock, count);
      assert Built<T>(size, p, maxBlock) == Start(Circle<T>(count, maxBlock), maxBlock, maxBlock);
      CircleInv<T>(count, maxBlock, maxBlock, size);
      assert Inv(Built<T>(size, p, maxBlock), maxBlock - 1, size);
    } else {
      assert Built<T>(size, p, maxBlock) == Start(Circle<T>(1, p), p, maxBlock);
      CircleInv<T>(1, p, maxBlock, size);
      assert Inv(Built<T>(size, p, maxBlock), p - 1, size);
    }
  }

  lemma SingleBlock<T>(size: nat)
    ensures Circle<T>(1, size) == [MakeBlock<T>(size)]
  {
  }

  /** Allocating blocks in a loop, each new one linked behind the last and back to the first. */
  method ReserveBlocks<T>(count: nat, size: nat) returns (blocks: seq<Block<T>>)
    ensures blocks == Circle<T>(count, size)
  {
    blocks := [];
    var i := 0;
    while i != count
      invariant 0 <= i <= count && blocks == Circle<T>(i, size)
      decreases count - i
    {
      if i != 0 { blocks := blocks[i - 1 := blocks[i - 1].(next := i)]; }
      blocks := blocks + [MakeBlock<T>(size).(next := 0)];
      i := i + 1;
    }
  }

  lemma LeastOfOne(p: nat)
    requires IsLeastPow2AtLeast(p, 1)
    ensures p == 1
  {
    assert Pow2(0) == 1;
  }
}
