/**
  The join of the two polarizations in front of the polyphase filter bank: batches are
  paired by batch number, incomplete pairs are blanked, and outputs are marked invalid
  until the filter bank's whole history is good.
 */
module Alignment {

  /** A batch as the worker sees it. */
  datatype Block = Block(batchId: nat, valid: bool)

  /** One aligned pair: its number, whether it was used as good input, and whether the output is valid. */
  datatype Output = Output(batchId: nat, inputValid: bool, valid: bool)

  // ------------------------------------------------------------------ specification

  /** The queue delivers consecutive batch numbers from first. */
  ghost predicate Consecutive(q: seq<Block>, first: nat) {
    forall k :: 0 <= k < |q| ==> q[k].batchId == first + k
  }

  /** The block numbered id of a queue that starts at first. */
  function At(q: seq<Block>, first: nat, id: nat): Block
    requires first <= id < first + |q|
  {
    q[id - first]
  }

  function Max(a: nat, b: nat): nat { if a < b then b else a }

  /** How many pairs the two queues can give. */
  function Pairs(qa: seq<Block>, a0: nat, qb: seq<Block>, b0: nat): nat {
    var lo := Max(a0, b0);
    var hi := if a0 + |qa| < b0 + |qb| then a0 + |qa| else b0 + |qb|;
    if lo <= hi then hi - lo else 0
  }

  /** Pair k is good input: both batches complete, and nothing skipped to reach it. */
  predicate Good(qa: seq<Block>, a0: nat, qb: seq<Block>, b0: nat, k: nat)
    requires k < Pairs(qa, a0, qb, b0)
  {
    var id := Max(a0, b0) + k;
    (k > 0 || a0 == b0) && At(qa, a0, id).valid && At(qb, b0, id).valid
  }

  /** Output k of the run is what the design promises. */
  ghost predicate OutputOk(qa: seq<Block>, a0: nat, qb: seq<Block>, b0: nat, taps: nat, k: nat, o: Output)
    requires k < Pairs(qa, a0, qb, b0)
  {
    && o.batchId == Max(a0, b0) + k
    && o.inputValid == Good(qa, a0, qb, b0, k)
    && (o.valid <==> k + 1 >= taps && forall j: nat :: k + 1 - taps <= j <= k ==> Good(qa, a0, qb, b0, j))
  }

  /** Blocks since the last bad one, capped at the number of pairs seen. */
  ghost predicate GoodRun(qa: seq<Block>, a0: nat, qb: seq<Block>, b0: nat, n: nat, run: nat)
    requires n <= Pairs(qa, a0, qb, b0)
  {
    && run <= n && (forall j: nat :: n - run <= j < n ==> Good(qa, a0, qb, b0, j))
    && (run < n ==> !Good(qa, a0, qb, b0, n - run - 1))
  }

  /** Blocks still to be marked invalid after a run of good ones. */
  function Countdown(taps: nat, run: nat): nat { if run + 1 <= taps then taps - 1 - run else 0 }

  /** One more pair extends the run or ends it. */
  lemma GoodRunNext(qa: seq<Block>, a0: nat, qb: seq<Block>, b0: nat, n: nat, run: nat)
    requires n < Pairs(qa, a0, qb, b0) && GoodRun(qa, a0, qb, b0, n, run)
    ensures GoodRun(qa, a0, qb, b0, n + 1, if Good(qa, a0, qb, b0, n) then run + 1 else 0)
  {
    hide Good;
  }

  /** The whole window is good exactly when the run covers it. */
  lemma WindowIsRun(qa: seq<Block>, a0: nat, qb: seq<Block>, b0: nat, k: nat, run: nat, taps: nat)
    requires k < Pairs(qa, a0, qb, b0) && GoodRun(qa, a0, qb, b0, k + 1, run)
    ensures run >= taps <==> k + 1 >= taps && forall j: nat :: k + 1 - taps <= j <= k ==> Good(qa, a0, qb, b0, j)
  {
    hide Good;
  }

  lemma GoodIs(qa: seq<Block>, a0: nat, qb: seq<Block>, b0: nat, k: nat)
    requires k < Pairs(qa, a0, qb, b0)
    ensures var id := Max(a0, b0) + k;
            Good(qa, a0, qb, b0, k) <==> (k > 0 || a0 == b0) && At(qa, a0, id).valid && At(qb, b0, id).valid
  {
  }

  lemma NumberOf(q: seq<Block>, first: nat, id: nat)
    requires Consecutive(q, first) && first <= id < first + |q|
    ensures At(q, first, id).batchId == id
  {
  }

  /** An output marked valid exactly when the run of good pairs is long enough is what is promised. */
  lemma OutputIs(qa: seq<Block>, a0: nat, qb: seq<Block>, b0: nat, taps: nat, k: nat, run: nat, o: Output)
    requires k < Pairs(qa, a0, qb, b0) && GoodRun(qa, a0, qb, b0, k + 1, run)
    requires o == Output(Max(a0, b0) + k, Good(qa, a0, qb, b0, k), run >= taps)
    ensures OutputOk(qa, a0, qb, b0, taps, k, o)
  {
    hide Good, GoodRun;
    WindowIsRun(qa, a0, qb, b0, k, run, taps);
  }

  // ------------------------------------------------------------------ the worker

  class Worker {
    const taps: nat
    const queueA: seq<Block>       // everything queue A delivers, in order
    const queueB: seq<Block>
    var nextA: nat                 // how many have been dequeued
    var nextB: nat
    var remaining: nat             // m_pfb_invalid_blocks_remaining
    var outputs: seq<Output>

    /** The first batch numbers of the two queues, and what has been done since. */
    ghost predicate Valid(a0: nat, b0: nat)
      reads this
    {
      && taps >= 1 && Consecutive(queueA, a0) && Consecutive(queueB, b0)
      && nextA <= |queueA| && nextB <= |queueB|
      && var n := |outputs|;
      && n <= Pairs(queueA, a0, queueB, b0)
      && (n == 0 ==> nextA == 0 && nextB == 0 && remaining == taps - 1)
      && (n > 0 ==> a0 + nextA == b0 + nextB == Max(a0, b0) + n)
      && (exists run: nat :: GoodRun(queueA, a0, queueB, b0, n, run) && remaining == Countdown(taps, run))
      && forall k :: 0 <= k < n ==> OutputOk(queueA, a0, queueB, b0, taps, k, outputs[k])
    }

    constructor (taps: nat, queueA: seq<Block>, queueB: seq<Block>, ghost a0: nat, ghost b0: nat)
      requires taps >= 1 && Consecutive(queueA, a0) && Consecutive(queueB, b0)
      ensures Valid(a0, b0) && outputs == []
      ensures this.taps == taps && this.queueA == queueA && this.queueB == queueB
    {
      this.taps := taps;
      this.queueA := queueA;
      this.queueB := queueB;
      nextA, nextB, remaining, outputs := 0, 0, taps - 1, [];
      new;
      assert GoodRun(queueA, a0, queueB, b0, 0, 0);
    }

    /**
      The dequeues of accumulate_one_block: false when a queue has nothing more, where the
      worker would wait. Once aligned, no block is ever skipped.
     */
    method Join(ghost a0: nat, ghost b0: nat) returns (ok: bool, x: Block, y: Block, gap: bool)
      requires Valid(a0, b0)
      modifies this`nextA, this`nextB
      ensures ok <==> |outputs| < Pairs(queueA, a0, queueB, b0)
      ensures ok ==> var id := Max(a0, b0) + |outputs|;
                && x == At(queueA, a0, id) && y == At(queueB, b0, id)
                && a0 + nextA == b0 + nextB == id + 1
                && (gap <==> |outputs| == 0 && a0 != b0)
    {
      ok, gap := false, false;
      x, y := Block(0, false), Block(0, false);
      if nextA >= |queueA| { return; }
      x, nextA := queueA[nextA], nextA + 1;
      if nextB >= |queueB| { return; }
      y, nextB := queueB[nextB], nextB + 1;
      while x.batchId != y.batchId
        invariant 1 <= nextA <= |queueA| && 1 <= nextB <= |queueB|
        invariant x == queueA[nextA - 1] && y == queueB[nextB - 1]
        invariant x.batchId == a0 + nextA - 1 && y.batchId == b0 + nextB - 1
        invariant |outputs| == 0 ==> (nextA == 1 || x.batchId <= b0) && (nextB == 1 || y.batchId <= a0)
        invariant |outputs| == 0 ==> (gap <==> nextA + nextB > 2)
        invariant |outputs| > 0 ==> x.batchId == y.batchId == Max(a0, b0) + |outputs| && !gap
        decreases |queueA| - nextA + |queueB| - nextB
      {
        gap := true;
        if x.batchId < y.batchId {
          if nextA >= |queueA| { return; }
          x, nextA := queueA[nextA], nextA + 1;
        } else {
          if nextB >= |queueB| { return; }
          y, nextB := queueB[nextB], nextB + 1;
        }
      }
      ok := true;
    }

    /** accumulate_one_block, up to the copy to the device. */
    method AccumulateOneBlock(ghost a0: nat, ghost b0: nat) returns (ok: bool)
      requires Valid(a0, b0)
      modifies this
      ensures ok <==> |old(outputs)| < Pairs(queueA, a0, queueB, b0)
      ensures ok ==> Valid(a0, b0) && |outputs| == |old(outputs)| + 1 && old(outputs) <= outputs
      ensures !ok ==> outputs == old(outputs)
    {
      hide Good, GoodRun, OutputOk, Consecutive;
      ghost var n := |outputs|;
      ghost var run: nat :| GoodRun(queueA, a0, queueB, b0, n, run) && remaining == Countdown(taps, run);
      var x, y, gap;
      ok, x, y, gap := Join(a0, b0);
      if !ok { return; }
      var inputValid := !gap && x.valid && y.valid;
      GoodIs(queueA, a0, queueB, b0, n);
      if !inputValid { remaining := taps; }
      var outputValid := remaining == 0;
      if remaining != 0 { remaining := remaining - 1; }
      outputs := outputs + [Output(x.batchId, inputValid, outputValid)];
      ghost var run' := if inputValid then run + 1 else 0;
      GoodRunNext(queueA, a0, queueB, b0, n, run);
      NumberOf(queueA, a0, Max(a0, b0) + n);
      OutputIs(queueA, a0, queueB, b0, taps, n, run', outputs[n]);
      assert remaining == Countdown(taps, run');
    }

    /** Run until a queue is exhausted. */
    method ProcessAll(ghost a0: nat, ghost b0: nat)
      requires Valid(a0, b0)
      modifies this
      ensures |outputs| == Pairs(queueA, a0, queueB, b0)
      ensures forall k :: 0 <= k < |outputs| ==> OutputOk(queueA, a0, queueB, b0, taps, k, outputs[k])
    {
      hide OutputOk, GoodRun;
      var more := true;
      while more
        invariant Valid(a0, b0) || (!more && |outputs| <= Pairs(queueA, a0, queueB, b0))
        invariant !more ==> |outputs| == Pairs(queueA, a0, queueB, b0)
        invariant |outputs| <= Pairs(queueA, a0, queueB, b0)
        invariant forall k :: 0 <= k < |outputs| ==> OutputOk(queueA, a0, queueB, b0, taps, k, outputs[k])
        decreases Pairs(queueA, a0, queueB, b0) - |outputs|, more
      {
        more := AccumulateOneBlock(a0, b0);
      }
    }
  }
}
