/**
  Which packets of a stream the receive loop takes, said without its variables: from the
  first packet that opens a batch onwards, those whose number exceeds all before them.
 */
module BatchAcceptance {
  import opened BatchAssembly

  /** Index of the first packet that opens a batch, or the length if there is none. */
  function FirstAligned<H, P>(size: nat, packets: seq<Packet<H, P>>): (k: nat)
    requires size >= 1
    ensures k <= |packets|
    ensures k < |packets| ==> packets[k].id % size == 0
    ensures forall j :: 0 <= j < k ==> packets[j].id % size != 0
  {
    if packets == [] then 0 else
    var n := |packets| - 1;
    var k := FirstAligned(size, packets[..n]);
    if k < n || packets[n].id % size == 0 then k else n + 1
  }

  /** Packet k is taken: it overtakes every packet since the first that opens a batch. */
  predicate Taken<H, P>(size: nat, packets: seq<Packet<H, P>>, k: nat)
    requires size >= 1 && k < |packets|
  {
    var f := FirstAligned(size, packets);
    f <= k && forall j :: f <= j < k ==> packets[j].id < packets[k].id
  }

  /** The packets taken, in order. */
  function Accepted<H, P>(size: nat, packets: seq<Packet<H, P>>): seq<Packet<H, P>>
    requires size >= 1
  {
    if packets == [] then []
    else
      var n := |packets| - 1;
      Accepted(size, packets[..n]) + if Taken(size, packets, n) then [packets[n]] else []
  }

  ghost predicate Increasing<H, P>(a: seq<Packet<H, P>>) {
    forall i, j :: 0 <= i < j < |a| ==> a[i].id < a[j].id
  }

  /** The last packet taken carries the greatest number since the start. */
  ghost predicate Greatest<H, P>(size: nat, packets: seq<Packet<H, P>>, a: seq<Packet<H, P>>)
    requires size >= 1
  {
    var f := FirstAligned(size, packets);
    && (a == [] <==> f == |packets|)
    && (a != [] ==> a[0] == packets[f])
    && (a != [] ==> forall j :: f <= j < |packets| ==> packets[j].id <= a[|a| - 1].id)
    && (a != [] ==> exists j :: f <= j < |packets| && packets[j] == a[|a| - 1])
    && Increasing(a) && |a| <= |packets| - f
  }

  /** After the start, a packet is taken exactly when its number is beyond the last one taken. */
  lemma TakenNext<H, P>(size: nat, packets: seq<Packet<H, P>>, a: seq<Packet<H, P>>)
    requires size >= 1 && packets != [] && Greatest(size, packets[..|packets| - 1], a) && a != []
    ensures var n := |packets| - 1;
            && FirstAligned(size, packets) == FirstAligned(size, packets[..n]) < n
            && (Taken(size, packets, n) <==> packets[n].id > a[|a| - 1].id)
  {
    var n := |packets| - 1;
    var init := packets[..n];
    var f := FirstAligned(size, init);
    var j :| f <= j < n && init[j] == a[|a| - 1];
    assert packets[j] == a[|a| - 1];
    if packets[n].id > a[|a| - 1].id {
      forall j | f <= j < n ensures packets[j].id < packets[n].id { assert packets[j] == init[j]; }
    }
  }

  lemma {:induction false} AcceptedGreatest<H, P>(size: nat, packets: seq<Packet<H, P>>)
    requires size >= 1
    ensures Greatest(size, packets, Accepted(size, packets))
    decreases |packets|
  {
    if packets != [] {
      var n := |packets| - 1;
      AcceptedGreatest(size, packets[..n]);
      GreatestNext(size, packets, Accepted(size, packets[..n]));
    }
  }

  lemma GreatestNext<H, P>(size: nat, packets: seq<Packet<H, P>>, a: seq<Packet<H, P>>)
    requires size >= 1 && packets != [] && Greatest(size, packets[..|packets| - 1], a)
    ensures var n := |packets| - 1;
            Greatest(size, packets, a + if Taken(size, packets, n) then [packets[n]] else [])
  {
    var n := |packets| - 1;
    var init := packets[..n];
    var f := FirstAligned(size, init);
    if a != [] {
      TakenNext(size, packets, a);
      var j :| f <= j < n && init[j] == a[|a| - 1];
      assert packets[j] == a[|a| - 1] && packets[f] == init[f];
      forall j | f <= j < n ensures packets[j].id <= a[|a| - 1].id { assert packets[j] == init[j]; }
      hide FirstAligned;
    }
  }

  // ------------------------------------------------------------------ counting

  /**
    Packet k is the first taken of the latest batch, not after batch b, of which any packet
    was taken.
   */
  ghost predicate Leads<H, P>(size: nat, a: seq<Packet<H, P>>, k: nat, b: nat)
    requires size >= 1
  {
    && k < |a| && a[k].id / size <= b
    && (forall j :: 0 <= j < k ==> a[j].id / size != a[k].id / size)
    && (forall j :: 0 <= j < |a| ==> a[j].id / size <= a[k].id / size || a[j].id / size > b)
  }

  /** There is only one. */
  lemma LeaderIsUnique<H, P>(size: nat, a: seq<Packet<H, P>>, k: nat, k': nat, b: nat)
    requires size >= 1 && Leads(size, a, k, b) && Leads(size, a, k', b)
    ensures k == k'
  {
  }

  /** It leads later batches too, as long as there is nothing of them. */
  lemma LeadsLater<H, P>(size: nat, a: seq<Packet<H, P>>, k: nat, b: nat)
    requires size >= 1 && Leads(size, a, k, b) && forall j :: 0 <= j < |a| ==> a[j].id / size <= b
    ensures Leads(size, a, k, b + 1)
  {
  }

  lemma LeadsGrows<H, P>(size: nat, a: seq<Packet<H, P>>, k: nat, b: nat, p: Packet<H, P>)
    requires size >= 1 && Leads(size, a, k, b) && (p.id / size > b || p.id / size == a[k].id / size)
    ensures Leads(size, a + [p], k, b)
  {
    var q := p.id / size;
    assert forall j :: 0 <= j < |a| ==> (a + [p])[j] == a[j];
  }

  /** The first packet of a batch leads it. */
  lemma FirstLeads<H, P>(size: nat, a: seq<Packet<H, P>>, p: Packet<H, P>)
    requires size >= 1 && forall j :: 0 <= j < |a| ==> a[j].id / size < p.id / size
    ensures Leads(size, a + [p], |a|, p.id / size)
  {
    assert forall j :: 0 <= j < |a| ==> (a + [p])[j] == a[j];
  }

  ghost predicate Has<H, P>(a: seq<Packet<H, P>>, id: nat) {
    exists k :: 0 <= k < |a| && a[k].id == id
  }

  lemma HasGrows<H, P>(a: seq<Packet<H, P>>, p: Packet<H, P>, id: nat)
    ensures Has(a + [p], id) <==> Has(a, id) || p.id == id
  {
    var a' := a + [p];
    if Has(a, id) {
      var k :| 0 <= k < |a| && a[k].id == id;
      assert a'[k].id == id;
    }
    if p.id == id { assert a'[|a|].id == id; }
  }

  ghost predicate HasAll<H, P>(a: seq<Packet<H, P>>, lo: nat, n: nat) {
    forall id :: lo <= id < lo + n ==> Has(a, id)
  }

  /** How many of the packets have a number in [lo, lo + n). */
  function CountIn<H, P>(a: seq<Packet<H, P>>, lo: nat, n: nat): nat {
    if a == [] then 0
    else CountIn(a[..|a| - 1], lo, n) + if lo <= a[|a| - 1].id < lo + n then 1 else 0
  }

  lemma {:induction false} CountEmptyRange<H, P>(a: seq<Packet<H, P>>, lo: nat)
    ensures CountIn(a, lo, 0) == 0
    decreases |a|
  {
    if a != [] { CountEmptyRange(a[..|a| - 1], lo); }
  }

  /** Packets with distinct numbers: widening the range by one adds at most the packet there. */
  lemma {:induction false} CountWiden<H, P>(a: seq<Packet<H, P>>, lo: nat, n: nat)
    requires Increasing(a)
    ensures CountIn(a, lo, n + 1) == CountIn(a, lo, n) + if Has(a, lo + n) then 1 else 0
    decreases |a|
  {
    if a != [] {
      var k := |a| - 1;
      var init := a[..k];
      CountWiden(init, lo, n);
      forall j | 0 <= j < k ensures init[j].id < a[k].id { assert init[j] == a[j]; }
      assert init + [a[k]] == a;
      HasGrows(init, a[k], lo + n);
    }
  }

  /** The count is full exactly when every number of the range is present. */
  lemma {:induction false} CountFull<H, P>(a: seq<Packet<H, P>>, lo: nat, n: nat)
    requires Increasing(a)
    ensures CountIn(a, lo, n) <= n
    ensures CountIn(a, lo, n) == n <==> HasAll(a, lo, n)
  {
    if n == 0 {
      CountEmptyRange(a, lo);
    } else {
      CountFull(a, lo, n - 1);
      CountWiden(a, lo, n - 1);
    }
  }

  /** No packet below lo + n means nothing to count there. */
  lemma {:induction false} CountNone<H, P>(a: seq<Packet<H, P>>, lo: nat, n: nat)
    requires forall k :: 0 <= k < |a| ==> a[k].id < lo
    ensures CountIn(a, lo, n) == 0
    decreases |a|
  {
    if a != [] { CountNone(a[..|a| - 1], lo, n); }
  }

  /** How often the numbers skip. */
  function Gaps<H, P>(a: seq<Packet<H, P>>): nat {
    if |a| <= 1 then 0
    else Gaps(a[..|a| - 1]) + if a[|a| - 1].id > a[|a| - 2].id + 1 then 1 else 0
  }
}
