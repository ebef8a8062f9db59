/**
  Where the headers of batches come from. Any property of headers that all packets have, and
  that stamping, formatting and marking keep, is a property of the first header of every
  batch handed over.
 */
module HeaderOrigin {
  import opened BatchAssembly

  ghost predicate Closed<H(!new), P>(c: Config<H, P>, q: H -> bool) {
    && (forall h, id: nat {:trigger c.withPacketId(h, id)} :: q(h) ==> q(c.withPacketId(h, id)))
    && (forall h {:trigger c.configured(h)} :: q(h) ==> q(c.configured(h)))
    && (forall h {:trigger c.invalidated(h)} :: q(h) ==> q(c.invalidated(h)))
  }

  ghost predicate FirstIs<H, P>(c: Config<H, P>, q: H -> bool, b: Batch<H, P>) {
    Sized(c, b) && c.batchsize >= 1 && (b.headerValid ==> q(b.hdrs[0]))
  }

  ghost predicate AllFrom<H, P>(c: Config<H, P>, q: H -> bool, s: State<H, P>) {
    && PoolSized(c, s) && (s.haveTemplate ==> q(s.template))
    && FirstIs(c, q, s.pool[s.poolIdx])
    && forall j :: 0 <= j < |s.queue| ==> FirstIs(c, q, s.queue[j])
  }

  lemma PreparedFrom<H(!new), P>(c: Config<H, P>, q: H -> bool, s: State<H, P>, stale: Batch<H, P>, b: nat)
    requires Closed(c, q) && Sized(c, stale) && c.batchsize >= 1 && (s.haveTemplate ==> q(s.template))
    ensures FirstIs(c, q, Prepared(c, s, stale, b))
  {
  }

  lemma FinalizedFrom<H(!new), P>(c: Config<H, P>, q: H -> bool, batch: Batch<H, P>)
    requires Closed(c, q) && FirstIs(c, q, batch)
    ensures FirstIs(c, q, Finalized(c, batch))
  {
    if batch.headerValid { assert q(FilledHeader(c, batch, 0)); }
  }

  lemma StoreFrom<H(!new), P>(c: Config<H, P>, q: H -> bool, s: State<H, P>, p: Packet<H, P>, b: nat, i: nat)
    requires Closed(c, q) && AllFrom(c, q, s) && q(p.header) && i < c.batchsize
    ensures AllFrom(c, q, Store(c, s, p, b, i))
  {
    assert q(FirstHeader(c, p, b)) && q(c.configured(p.header));
    assert FirstIs(c, q, Stored(c, s.pool[s.poolIdx], p, b, i));
    hide Stored, FirstHeader;
  }

  lemma AdvanceOneFrom<H(!new), P>(c: Config<H, P>, q: H -> bool, s: State<H, P>)
    requires Closed(c, q) && AllFrom(c, q, s)
    ensures AllFrom(c, q, AdvanceOne(c, s))
  {
    hide Finalized, Prepared;
    FinalizedFrom(c, q, s.pool[s.poolIdx]);
    var r := AdvanceOne(c, s);
    var pool := s.pool[s.poolIdx := Finalized(c, s.pool[s.poolIdx])];
    PreparedFrom(c, q, s, pool[r.poolIdx], s.prebatch + 1);
  }

  lemma {:induction false} AdvanceFrom<H(!new), P>(c: Config<H, P>, q: H -> bool, s: State<H, P>, target: nat)
    requires Closed(c, q) && AllFrom(c, q, s)
    ensures AllFrom(c, q, Advance(c, s, target))
    decreases target - s.prebatch
  {
    if s.prebatch < target {
      AdvanceOneFrom(c, q, s);
      AdvanceFrom(c, q, AdvanceOne(c, s), target);
    }
  }

  lemma ReceiveFrom<H(!new), P>(c: Config<H, P>, q: H -> bool, s: State<H, P>, p: Packet<H, P>)
    requires Closed(c, q) && AllFrom(c, q, s) && q(p.header)
    ensures AllFrom(c, q, Receive(c, s, p))
  {
    hide Store, Advance, Prepared;
    var b := p.id / c.batchsize;
    if s.expected == 0 {
      PreparedFrom(c, q, s, s.pool[s.poolIdx], b);
      StoreFrom(c, q, Begin(c, s, p, b), p, b, p.id % c.batchsize);
    } else if p.id >= s.expected {
      AdvanceFrom(c, q, Expect(s, p), b);
      StoreFrom(c, q, Advance(c, Expect(s, p), b), p, b, p.id % c.batchsize);
    }
  }

  lemma {:induction false} ReceiveAllFrom<H(!new), P>(c: Config<H, P>, q: H -> bool, packets: seq<Packet<H, P>>)
    requires c.batchsize >= 1 && c.poolSize >= 1 && Closed(c, q)
    requires forall k :: 0 <= k < |packets| ==> q(packets[k].header)
    ensures AllFrom(c, q, ReceiveAll(c, packets))
    decreases |packets|
  {
    hide Receive;
    if packets != [] {
      var n := |packets| - 1;
      ReceiveAllFrom(c, q, packets[..n]);
      ReceiveFrom(c, q, ReceiveAll(c, packets[..n]), packets[n]);
    }
  }
}
