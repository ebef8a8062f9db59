/**
  From packets to filter-bank outputs: the batches two receivers hand over, joined by the
  worker, tell exactly which packets arrived.
 */
module EndToEnd {
  import opened BatchAssembly
  import opened BatchAcceptance
  import opened BatchCorrectness
  import opened Alignment

  /** What the worker dequeues from a stream. */
  function Delivered<H, P>(queue: seq<Batch<H, P>>): seq<Block> {
    seq(|queue|, k requires 0 <= k < |queue| => Block(queue[k].batchId, queue[k].valid))
  }

  /** A stream whose batches start at number first, all described by the packets a. */
  ghost predicate Stream<H(!new), P>(c: Config<H, P>, a: seq<Packet<H, P>>, first: nat, queue: seq<Batch<H, P>>) {
    QueueOk(c, a, first, queue) && c.batchsize >= 1
  }

  /** Every stream of packets is one. */
  lemma ReceiverGivesStream<H(!new), P>(c: Config<H, P>, packets: seq<Packet<H, P>>)
    requires ConfigOk(c) && Accepted(c.batchsize, packets) != []
    ensures var a := Accepted(c.batchsize, packets);
            Stream(c, a, a[0].id / c.batchsize, ReceiveAll(c, packets).queue)
  {
    hide HandedOver, ReceiveAll, Accepted;
    var s := ReceiveAll(c, packets);
    forall j | 0 <= j < |s.queue|
      ensures var a := Accepted(c.batchsize, packets); HandedOver(c, a, a[0].id / c.batchsize + j, s.queue[j])
    {
      QueueEntry(c, packets, j);
    }
  }

  lemma StreamIsConsecutive<H(!new), P>(c: Config<H, P>, a: seq<Packet<H, P>>, first: nat, queue: seq<Batch<H, P>>)
    requires Stream(c, a, first, queue)
    ensures Consecutive(Delivered(queue), first)
  {
    forall k | 0 <= k < |queue| ensures queue[k].batchId == first + k {
      assert HandedOver(c, a, first + k, queue[k]);
    }
    hide HandedOver;
  }

  /** The batch numbered b of a stream is valid exactly when all its packets were taken. */
  lemma BlockIsComplete<H(!new), P>(c: Config<H, P>, a: seq<Packet<H, P>>, first: nat, queue: seq<Batch<H, P>>, b: nat)
    requires Stream(c, a, first, queue) && first <= b < first + |queue|
    ensures At(Delivered(queue), first, b).valid <==> HasAll(a, Start(c, b), c.batchsize)
  {
    assert HandedOver(c, a, first + (b - first), queue[b - first]);
    hide Start, HasAll;
  }

  /** Packets of consecutive batches are one range. */
  lemma RangeOfBatches<H(!new), P>(c: Config<H, P>, a: seq<Packet<H, P>>, lo: nat, hi: nat)
    requires c.batchsize >= 1 && lo <= hi
    ensures (forall b :: lo <= b < hi ==> HasAll(a, Start(c, b), c.batchsize))
       <==> (forall id :: Start(c, lo) <= id < Start(c, hi) ==> Has(a, id))
  {
    hide Start, Has;
    if forall b :: lo <= b < hi ==> HasAll(a, Start(c, b), c.batchsize) {
      forall id | Start(c, lo) <= id < Start(c, hi) ensures Has(a, id) {
        var b := id / c.batchsize;
        IdSplits(c, id);
        BatchNotBefore(c, lo, id);
        if hi <= b { StartMonotone(c, hi, b); }
        assert HasAll(a, Start(c, b), c.batchsize);
      }
    }
    if forall id :: Start(c, lo) <= id < Start(c, hi) ==> Has(a, id) {
      forall b | lo <= b < hi ensures HasAll(a, Start(c, b), c.batchsize) {
        StartMonotone(c, lo, b);
        StartNext(c, b);
        StartMonotone(c, b + 1, hi);
      }
    }
  }

  /**
    A filter-bank output is marked valid exactly when num_taps aligned blocks exist, the
    first aligned block, if blocks were skipped to reach it, is no longer in the window, and
    every packet of the window arrived on both polarizations.
   */
  lemma ValidMeansEveryPacket<H(!new), P>(c: Config<H, P>, aA: seq<Packet<H, P>>, a0: nat, queueA: seq<Batch<H, P>>,
                                          aB: seq<Packet<H, P>>, b0: nat, queueB: seq<Batch<H, P>>,
                                          taps: nat, k: nat, o: Output)
    requires Stream(c, aA, a0, queueA) && Stream(c, aB, b0, queueB) && taps >= 1
    requires k < Pairs(Delivered(queueA), a0, Delivered(queueB), b0)
    requires OutputOk(Delivered(queueA), a0, Delivered(queueB), b0, taps, k, o)
    ensures var last := Max(a0, b0) + k;
            o.valid <==>
              && k + 1 >= taps && (a0 == b0 || k >= taps)
              && forall id :: Start(c, last + 1 - taps) <= id < Start(c, last + 1) ==> Has(aA, id) && Has(aB, id)
  {
    hide Start, Has, HasAll, QueueOk, Delivered;
    if k + 1 >= taps {
      var qa, qb := Delivered(queueA), Delivered(queueB);
      var m := Max(a0, b0);
      var lo, hi := m + (k + 1 - taps), m + k + 1;
      forall j: nat | j <= k
        ensures Good(qa, a0, qb, b0, j) <==>
                (j > 0 || a0 == b0) && HasAll(aA, Start(c, m + j), c.batchsize)
                  && HasAll(aB, Start(c, m + j), c.batchsize)
      {
        DeliveredLength(queueA);
        DeliveredLength(queueB);
        BlockIsComplete(c, aA, a0, queueA, m + j);
        BlockIsComplete(c, aB, b0, queueB, m + j);
      }
      hide Good;
      WindowIsRange(c, aA, a0, aB, b0, qa, qb, taps, k);
    }
  }

  lemma DeliveredLength<H(!new), P>(queue: seq<Batch<H, P>>)
    ensures |Delivered(queue)| == |queue|
  {
  }

  lemma WindowIsRange<H(!new), P>(c: Config<H, P>, aA: seq<Packet<H, P>>, a0: nat, aB: seq<Packet<H, P>>, b0: nat,
                                  qa: seq<Block>, qb: seq<Block>, taps: nat, k: nat)
    requires c.batchsize >= 1 && 1 <= taps <= k + 1 && k < Pairs(qa, a0, qb, b0)
    requires forall j: nat :: j <= k ==> (Good(qa, a0, qb, b0, j) <==>
               (j > 0 || a0 == b0) && HasAll(aA, Start(c, Max(a0, b0) + j), c.batchsize)
                 && HasAll(aB, Start(c, Max(a0, b0) + j), c.batchsize))
    ensures var last := Max(a0, b0) + k;
            (forall j: nat :: k + 1 - taps <= j <= k ==> Good(qa, a0, qb, b0, j)) <==>
              && (a0 == b0 || k >= taps)
              && forall id :: Start(c, last + 1 - taps) <= id < Start(c, last + 1) ==> Has(aA, id) && Has(aB, id)
  {
    hide Start, Has, HasAll, Good;
    var m := Max(a0, b0);
    var lo, hi := m + (k + 1 - taps), m + k + 1;
    RangeOfBatches(c, aA, lo, hi);
    RangeOfBatches(c, aB, lo, hi);
    if forall j: nat :: k + 1 - taps <= j <= k ==> Good(qa, a0, qb, b0, j) {
      assert Good(qa, a0, qb, b0, k + 1 - taps);
      forall b | lo <= b < hi
        ensures HasAll(aA, Start(c, b), c.batchsize) && HasAll(aB, Start(c, b), c.batchsize)
      {
        assert Good(qa, a0, qb, b0, b - m) && m + (b - m) == b;
      }
    }
  }
}
