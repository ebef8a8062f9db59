/**
  The receive loop itself: variables updated packet by packet, with the loops that
  advance across completed batches and fill missing frames. Every method is proved to
  compute the corresponding function of BatchAssembly.
 */
module Receiver {
  import opened BatchAssembly

  class Receiver<H(!new), P> {
    const c: Config<H, P>
    var pool: seq<Batch<H, P>>
    var poolIdx: nat
    var prebatch: nat
    var expected: nat
    var lost: nat
    var lossEvents: nat
    var lateOrDuplicate: nat
    var template: H
    var haveTemplate: bool
    var lastNoise: nat
    var queue: seq<Batch<H, P>>

    ghost function Value(): State<H, P>
      reads this
    {
      State(pool, poolIdx, prebatch, expected, lost, lossEvents, lateOrDuplicate, template, haveTemplate, lastNoise,
        queue)
    }

    ghost predicate Valid()
      reads this
    {
      PoolSized(c, Value())
    }

    constructor (c: Config<H, P>)
      requires c.batchsize >= 1 && c.poolSize >= 1
      ensures this.c == c && Valid() && Value() == Initial(c)
    {
      this.c := c;
      pool := seq(c.poolSize, _ => BlankBatch(c));
      poolIdx, prebatch, expected, lost, lossEvents, lateOrDuplicate := 0, 0, 0, 0, 0, 0;
      template, haveTemplate, lastNoise, queue := c.blankHeader, false, 0, [];
    }

    method PrepareBatch(b: nat)
      requires Valid()
      modifies this
      ensures Valid()
      ensures Value() == old(Value()).(
                pool := old(pool)[old(poolIdx) := Prepared(c, old(Value()), old(pool)[old(poolIdx)], b)])
    {
      var batch := pool[poolIdx].(batchId := b, receivedCount := 0, valid := false, headerValid := haveTemplate);
      if haveTemplate {
        batch := batch.(hdrs := batch.hdrs[0 := template]);
        batch := batch.(hdrs := batch.hdrs[0 := c.withPacketId(batch.hdrs[0], Start(c, b))]);
        batch := batch.(noiseState := batch.noiseState[0 := lastNoise]);
        assert batch.hdrs == pool[poolIdx].hdrs[0 := c.withPacketId(template, Start(c, b))];
      }
      pool := pool[poolIdx := batch];
    }

    method FinalizeBatch(batch: Batch<H, P>) returns (done: Batch<H, P>)
      requires Sized(c, batch)
      ensures done == Finalized(c, batch)
    {
      done := batch.(valid := batch.headerValid && batch.receivedCount == c.batchsize);
      if !c.baseband || done.valid || !done.headerValid { return; }
      var hdrs, buffer := done.hdrs, done.buffer;
      for i := 0 to c.batchsize
        invariant |hdrs| == c.batchsize && |buffer| == c.batchsize
        invariant forall k :: 0 <= k < i ==>
                  hdrs[k] == FilledHeader(c, batch, k) && buffer[k] == FilledPayload(c, batch, k)
        invariant forall k :: i <= k < c.batchsize ==> hdrs[k] == batch.hdrs[k] && buffer[k] == batch.buffer[k]
      {
        var expectedId := Start(c, batch.batchId) + i;
        if batch.pktId[i] == expectedId { continue; }
        buffer := buffer[i := c.zeroVoltage];
        hdrs := hdrs[i := hdrs[0]];
        hdrs := hdrs[i := c.withPacketId(hdrs[i], expectedId)];
        hdrs := hdrs[i := c.invalidated(hdrs[i])];
      }
      done := done.(hdrs := hdrs, buffer := buffer);
    }

    method StorePacket(p: Packet<H, P>, b: nat, i: nat)
      requires Valid() && i < c.batchsize
      modifies this
      ensures Valid() && Value() == Store(c, old(Value()), p, b, i)
    {
      var batch := pool[poolIdx];
      batch := batch.(pktId := batch.pktId[i := p.id], noiseState := batch.noiseState[i := p.noise]);
      if c.baseband { batch := batch.(hdrs := batch.hdrs[i := c.configured(p.header)]); }
      if batch.receivedCount == 0 {
        batch := batch.(hdrs := batch.hdrs[0 := FirstHeader(c, p, b)], headerValid := true,
                        noiseState := batch.noiseState[0 := p.noise]);
        template, haveTemplate, lastNoise := batch.hdrs[0], true, p.noise;
      }
      batch := batch.(receivedCount := batch.receivedCount + 1, buffer := batch.buffer[i := p.payload]);
      pool := pool[poolIdx := batch];
    }

    method EnqueueAndMoveOn()
      requires Valid()
      modifies this
      ensures Valid() && Value() == AdvanceOne(c, old(Value())) && prebatch == old(prebatch) + 1
    {
      var done := FinalizeBatch(pool[poolIdx]);
      pool := pool[poolIdx := done];
      queue := queue + [done];
      prebatch := prebatch + 1;
      poolIdx := poolIdx + 1;
      if poolIdx >= |pool| { poolIdx := 0; }
      PrepareBatch(prebatch);
    }

    method OnPacket(p: Packet<H, P>)
      requires Valid()
      modifies this
      ensures Valid() && Value() == Receive(c, old(Value()), p)
    {
      hide Store, AdvanceOne, Sized;
      var b, i := p.id / c.batchsize, p.id % c.batchsize;
      if expected == 0 {
        if i != 0 { return; }
        expected := p.id + 1;
        prebatch := b;
        PrepareBatch(b);
        assert Value() == Begin(c, old(Value()), p, b);
      } else if p.id > expected {
        lost := lost + (p.id - expected);
        lossEvents := lossEvents + 1;
        expected := p.id + 1;
      } else if p.id == expected {
        expected := expected + 1;
      } else {
        lateOrDuplicate := lateOrDuplicate + 1;
        return;
      }
      ghost var s1 := Value();
      assert old(expected) > 0 ==> s1 == Expect(old(Value()), p);
      hide Prepared, Begin, Expect;
      while prebatch < b
        invariant Valid() && Advance(c, Value(), b) == Advance(c, s1, b)
        decreases b - prebatch
      {
        EnqueueAndMoveOn();
      }
      assert Value() == Advance(c, s1, b);
      StorePacket(p, b, i);
    }

    /** A whole stream, from the start. */
    method ReceiveStream(packets: seq<Packet<H, P>>)
      requires Valid() && Value() == Initial(c)
      modifies this
      ensures Valid() && Value() == ReceiveAll(c, packets)
    {
      for k := 0 to |packets|
        invariant Valid() && Value() == ReceiveAll(c, packets[..k])
      {
        assert packets[..k + 1][..k] == packets[..k];
        OnPacket(packets[k]);
      }
      assert packets[..|packets|] == packets;
    }
  }
}
