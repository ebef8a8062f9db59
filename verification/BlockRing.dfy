/**
  The ring of blocks, each reduced to the elements it holds: how contents and occupancy
  move when an element is pushed or popped, a block is linked in, or an end advances.
 */
module BlockRing {

  datatype Node<T> = Node(items: seq<T>, size: nat, next: nat)

  ghost predicate Full<T>(n: Node<T>) {
    |n.items| == n.size - 1
  }

  ghost predicate InHeap<T>(ns: seq<Node<T>>, ring: seq<nat>) {
    forall i :: 0 <= i < |ring| ==> ring[i] < |ns|
  }

  ghost predicate Distinct(ring: seq<nat>) {
    forall i, j :: 0 <= i < j < |ring| ==> ring[i] != ring[j]
  }

  ghost predicate Links<T>(ns: seq<Node<T>>, ring: seq<nat>) {
    && |ring| >= 1
    && InHeap(ns, ring)
    && Distinct(ring)
    && (forall i {:trigger ns[ring[i]].next} :: 0 <= i < |ring| - 1 ==> ns[ring[i]].next == ring[i + 1])
    && ns[ring[|ring| - 1]].next == ring[0]
  }

  /**
    ring[0] is the front block and ring[t] the tail block. Blocks strictly between are
    full, the tail block is not empty unless it is the front block, and the blocks after
    the tail are empty, but for the one the producer is about to move to.
   */
  ghost predicate Occupied<T>(ns: seq<Node<T>>, ring: seq<nat>, t: nat, pending: seq<T>) {
    && Links(ns, ring)
    && t < |ring|
    && (forall i {:trigger ns[ring[i]]} :: 0 < i < t ==> Full(ns[ring[i]]))
    && (t > 0 ==> ns[ring[t]].items != [])
    && (forall i {:trigger ns[ring[i]]} :: t + 1 < i < |ring| ==> ns[ring[i]].items == [])
    && (t + 1 < |ring| ==> ns[ring[t + 1]].items == pending)
    && (pending != [] ==> t + 1 < |ring|)
  }

  /** The elements of the first k blocks of the ring, oldest first. */
  ghost function Contents<T>(ns: seq<Node<T>>, ring: seq<nat>, k: nat): seq<T> {
    if k == 0 || k > |ring| || ring[k - 1] >= |ns| then []
    else Contents(ns, ring, k - 1) + ns[ring[k - 1]].items
  }

  lemma {:induction false} ContentsSame<T>(
    ns: seq<Node<T>>, ring: seq<nat>, ns': seq<Node<T>>, ring': seq<nat>, k: nat)
    requires InHeap(ns, ring) && InHeap(ns', ring') && k <= |ring| && k <= |ring'|
    requires forall i {:trigger ns[ring[i]]} {:trigger ns'[ring'[i]]} :: 0 <= i < k ==>
             ns[ring[i]].items == ns'[ring'[i]].items
    ensures Contents(ns, ring, k) == Contents(ns', ring', k)
  {
    if k > 0 { ContentsSame(ns, ring, ns', ring', k - 1); }
  }

  /** Two heaps that agree on the blocks of the ring. */
  ghost predicate Agree<T>(ns: seq<Node<T>>, ns': seq<Node<T>>, ring: seq<nat>) {
    && InHeap(ns, ring) && InHeap(ns', ring)
    && forall k {:trigger ns'[ring[k]]} {:trigger ns[ring[k]]} :: 0 <= k < |ring| ==> ns'[ring[k]] == ns[ring[k]]
  }

  lemma AgreeLinks<T>(ns: seq<Node<T>>, ns': seq<Node<T>>, ring: seq<nat>)
    requires Links(ns, ring) && Agree(ns, ns', ring)
    ensures Links(ns', ring)
  {
  }

  lemma AgreeOccupied<T>(ns: seq<Node<T>>, ns': seq<Node<T>>, ring: seq<nat>, t: nat, pending: seq<T>)
    requires Occupied(ns, ring, t, pending) && Agree(ns, ns', ring)
    ensures Occupied(ns', ring, t, pending)
  {
    AgreeLinks(ns, ns', ring);
    hide Links;
  }

  /** Blocks outside the ring do not matter. */
  lemma Extended<T>(ns: seq<Node<T>>, ns': seq<Node<T>>, ring: seq<nat>, t: nat, pending: seq<T>)
    requires Occupied(ns, ring, t, pending) && |ns| <= |ns'|
    requires forall i :: 0 <= i < |ns| ==> ns'[i] == ns[i]
    ensures Occupied(ns', ring, t, pending)
    ensures Contents(ns', ring, t + 1) == Contents(ns, ring, t + 1)
  {
    assert InHeap(ns, ring) && t < |ring|;
    hide Occupied, Links, Contents;
    ExtendedAgree(ns, ns', ring);
    AgreeOccupied(ns, ns', ring, t, pending);
    AgreeContents(ns, ns', ring, t + 1);
  }

  lemma ExtendedAgree<T>(ns: seq<Node<T>>, ns': seq<Node<T>>, ring: seq<nat>)
    requires InHeap(ns, ring) && |ns| <= |ns'|
    requires forall i :: 0 <= i < |ns| ==> ns'[i] == ns[i]
    ensures Agree(ns, ns', ring)
  {
  }

  lemma AgreeContents<T>(ns: seq<Node<T>>, ns': seq<Node<T>>, ring: seq<nat>, k: nat)
    requires Agree(ns, ns', ring) && k <= |ring|
    ensures Contents(ns', ring, k) == Contents(ns, ring, k)
  {
    ContentsSame(ns, ring, ns', ring, k);
  }

  /** The node at ring position p holds other items. */
  lemma ReplaceAt<T>(ns: seq<Node<T>>, ring: seq<nat>, p: nat, n: Node<T>)
    requires Links(ns, ring) && p < |ring| && n.next == ns[ring[p]].next
    ensures var ns' := ns[ring[p] := n];
            Links(ns', ring)
            && ns'[ring[p]] == n
            && forall k {:trigger ns'[ring[k]]} {:trigger ns[ring[k]]} :: 0 <= k < |ring| && k != p ==>
                 ns'[ring[k]] == ns[ring[k]]
  {
    var ns' := ns[ring[p] := n];
    forall k | 0 <= k < |ring| && k != p ensures ns'[ring[k]] == ns[ring[k]] {
      assert ring[k] != ring[p];
    }
  }

  lemma PushTail<T>(ns: seq<Node<T>>, ring: seq<nat>, t: nat, e: T)
    requires Occupied(ns, ring, t, [])
    ensures var n := ns[ring[t]];
            var ns' := ns[ring[t] := n.(items := n.items + [e])];
            Occupied(ns', ring, t, [])
            && Contents(ns', ring, t + 1) == Contents(ns, ring, t + 1) + [e]
  {
    var n := ns[ring[t]].(items := ns[ring[t]].items + [e]);
    ReplaceAt(ns, ring, t, n);
    ContentsSame(ns, ring, ns[ring[t] := n], ring, t);
  }

  lemma PushPending<T>(ns: seq<Node<T>>, ring: seq<nat>, t: nat, e: T)
    requires Occupied(ns, ring, t, []) && t + 1 < |ring|
    ensures var ns' := ns[ring[t + 1] := ns[ring[t + 1]].(items := [e])];
            Occupied(ns', ring, t, [e])
            && Contents(ns', ring, t + 1) == Contents(ns, ring, t + 1)
  {
    var n := ns[ring[t + 1]].(items := [e]);
    ReplaceAt(ns, ring, t + 1, n);
    ContentsSame(ns, ring, ns[ring[t + 1] := n], ring, t + 1);
  }

  lemma AdvanceTail<T>(ns: seq<Node<T>>, ring: seq<nat>, t: nat, e: T)
    requires Occupied(ns, ring, t, [e])
    requires t == 0 || Full(ns[ring[t]])
    ensures t + 1 < |ring| && Occupied(ns, ring, t + 1, [])
    ensures Contents(ns, ring, t + 2) == Contents(ns, ring, t + 1) + [e]
  {
  }

  ghost function Inserted(ring: seq<nat>, t: nat, nb: nat): (ring': seq<nat>)
    requires t < |ring|
    ensures |ring'| == |ring| + 1 && ring'[t + 1] == nb
    ensures forall k :: 0 <= k <= t ==> ring'[k] == ring[k]
    ensures forall k :: t + 1 < k <= |ring| ==> ring'[k] == ring[k - 1]
  {
    ring[..t + 1] + [nb] + ring[t + 1..]
  }

  lemma InsertedDistinct(ring: seq<nat>, t: nat, nb: nat)
    requires t < |ring| && nb !in ring && Distinct(ring)
    ensures Distinct(Inserted(ring, t, nb))
  {
    var ring' := Inserted(ring, t, nb);
    forall i, j | 0 <= i < j < |ring'| ensures ring'[i] != ring'[j] {
      if i == t + 1 { assert ring'[j] in ring; }
      else if j == t + 1 { assert ring'[i] in ring; }
    }
  }

  /** Only the block at position p of the ring is replaced. */
  lemma UpdatedAt<T>(ns: seq<Node<T>>, ring: seq<nat>, p: nat, n: Node<T>)
    requires p < |ring| && InHeap(ns, ring) && Distinct(ring)
    ensures forall k {:trigger ns[ring[p] := n][ring[k]]} {:trigger ns[ring[k]]} ::
      0 <= k < |ring| && k != p ==> ns[ring[p] := n][ring[k]] == ns[ring[k]]
  {
  }

  lemma InsertedNext<T>(ns: seq<Node<T>>, ring: seq<nat>, t: nat, nb: nat, k: nat)
    requires Links(ns, ring) && t < |ring| && k < |ring| && k != t && k != t + 1
    ensures ns[Inserted(ring, t, nb)[k]].next == Inserted(ring, t, nb)[k + 1]
  {
    if k < t {
      assert ns[ring[k]].next == ring[k + 1];
    } else {
      assert ns[ring[k - 1]].next == ring[k];
    }
  }

  lemma LinkBlockLinks<T>(ns: seq<Node<T>>, ring: seq<nat>, t: nat, nb: nat)
    requires Links(ns, ring) && t < |ring|
    requires nb < |ns| && nb !in ring && ns[nb].next == ns[ring[t]].next
    ensures var ns' := ns[ring[t] := ns[ring[t]].(next := nb)];
            var ring' := Inserted(ring, t, nb);
            Links(ns', ring') && InHeap(ns, ring')
            && (forall k {:trigger ns'[ring'[k]]} :: 0 <= k < |ring'| ==> ns'[ring'[k]].items == ns[ring'[k]].items)
            && (forall k {:trigger ns'[ring'[k]]} :: 0 <= k < |ring'| ==> ns'[ring'[k]].size == ns[ring'[k]].size)
  {
    var n := ns[ring[t]].(next := nb);
    var ns' := ns[ring[t] := n];
    var ring' := Inserted(ring, t, nb);
    InsertedDistinct(ring, t, nb);
    assert InHeap(ns, ring');
    UpdatedAt(ns, ring', t, n);
    assert ns[nb].next == ns[ring[t]].next == if t + 1 < |ring| then ring[t + 1] else ring[0];
    forall k | 0 <= k < |ring'| - 1 ensures ns'[ring'[k]].next == ring'[k + 1] {
      if k != t && k != t + 1 { InsertedNext(ns, ring, t, nb, k); }
    }
  }

  /** Linking a fresh one-element block behind the tail block. */
  lemma LinkBlock<T>(ns: seq<Node<T>>, ring: seq<nat>, t: nat, nb: nat, e: T)
    requires Occupied(ns, ring, t, [])
    requires nb < |ns| && nb !in ring && ns[nb].items == [e] && ns[nb].next == ns[ring[t]].next
    ensures var ns' := ns[ring[t] := ns[ring[t]].(next := nb)];
            var ring' := Inserted(ring, t, nb);
            Occupied(ns', ring', t, [e])
            && Contents(ns', ring', t + 1) == Contents(ns, ring, t + 1)
  {
    var ns' := ns[ring[t] := ns[ring[t]].(next := nb)];
    var ring' := Inserted(ring, t, nb);
    LinkBlockLinks(ns, ring, t, nb);
    assert InHeap(ns, ring) && InHeap(ns', ring') && |ns| == |ns'|;
    hide Links, Occupied, Contents, InHeap;
    LinkBlockOccupied(ns, ring, ns', ring', t, nb, e);
    LinkBlockContents(ns, ring, ns', ring', t);
  }

  lemma LinkBlockContents<T>(ns: seq<Node<T>>, ring: seq<nat>, ns': seq<Node<T>>, ring': seq<nat>, t: nat)
    requires InHeap(ns, ring) && InHeap(ns, ring') && InHeap(ns', ring') && t < |ring| && t < |ring'|
    requires forall k :: 0 <= k <= t ==> ring'[k] == ring[k]
    requires forall k {:trigger ns'[ring'[k]]} :: 0 <= k < |ring'| ==> ns'[ring'[k]].items == ns[ring'[k]].items
    ensures Contents(ns', ring', t + 1) == Contents(ns, ring, t + 1)
  {
    ContentsSame(ns, ring, ns', ring', t + 1);
  }

  lemma LinkBlockOccupied<T>(
    ns: seq<Node<T>>, ring: seq<nat>, ns': seq<Node<T>>, ring': seq<nat>, t: nat, nb: nat, e: T)
    requires Occupied(ns, ring, t, []) && Links(ns', ring')
    requires nb < |ns| == |ns'| && ns[nb].items == [e] && ring' == Inserted(ring, t, nb)
    requires InHeap(ns, ring')
    requires forall k {:trigger ns'[ring'[k]]} :: 0 <= k < |ring'| ==> ns'[ring'[k]].items == ns[ring'[k]].items
    requires forall k {:trigger ns'[ring'[k]]} :: 0 <= k < |ring'| ==> ns'[ring'[k]].size == ns[ring'[k]].size
    ensures Occupied(ns', ring', t, [e])
  {
    forall i | t + 1 < i < |ring'| ensures ns'[ring'[i]].items == [] {
      assert ring'[i] == ring[i - 1];
      assert ns[ring[i - 1]].items == [];
    }
    forall i | 0 < i < t ensures Full(ns'[ring'[i]]) {
      assert Full(ns[ring[i]]);
    }
    assert ring'[t] == ring[t];
  }

  lemma ContentsNext<T>(ns: seq<Node<T>>, ring: seq<nat>, k: nat)
    requires k < |ring| && ring[k] < |ns|
    ensures Contents(ns, ring, k + 1) == Contents(ns, ring, k) + ns[ring[k]].items
  {
  }

  lemma {:induction false} ContentsRotated<T>(ns: seq<Node<T>>, ring: seq<nat>, ring': seq<nat>, k: nat)
    requires InHeap(ns, ring) && k < |ring| && ring' == ring[1..] + [ring[0]]
    ensures Contents(ns, ring, k + 1) == ns[ring[0]].items + Contents(ns, ring', k)
  {
    ContentsNext(ns, ring, k);
    if k > 0 {
      assert ring'[k - 1] == ring[k];
      ContentsNext(ns, ring', k - 1);
      hide Contents;
      ContentsRotated(ns, ring, ring', k - 1);
    } else {
      assert Contents(ns, ring, 0) == [];
    }
  }

  ghost function Rotated(ring: seq<nat>): seq<nat>
    requires |ring| >= 1
  {
    ring[1..] + [ring[0]]
  }

  lemma AdvanceFront<T>(ns: seq<Node<T>>, ring: seq<nat>, t: nat, pending: seq<T>)
    requires Occupied(ns, ring, t, pending)
    requires t > 0 && ns[ring[0]].items == []
    ensures var ring' := Rotated(ring);
            Occupied(ns, ring', t - 1, pending)
            && Contents(ns, ring', t) == Contents(ns, ring, t + 1)
  {
    var ring' := Rotated(ring);
    RotatedLinks(ns, ring);
    ContentsRotated(ns, ring, ring', t);
    forall i | 0 < i < t - 1 ensures Full(ns[ring'[i]]) {
      assert Full(ns[ring[i + 1]]);
    }
    forall i | t < i < |ring'| ensures ns[ring'[i]].items == [] {
      if i + 1 < |ring| { assert ns[ring[i + 1]].items == []; }
    }
    assert ring'[t - 1] == ring[t];
  }

  lemma RotatedLinks<T>(ns: seq<Node<T>>, ring: seq<nat>)
    requires Links(ns, ring)
    ensures Links(ns, Rotated(ring))
    ensures forall k :: 0 <= k < |ring| - 1 ==> Rotated(ring)[k] == ring[k + 1]
  {
    var ring' := Rotated(ring);
    forall k | 0 <= k < |ring'| - 1 ensures ns[ring'[k]].next == ring'[k + 1] {
      assert ring'[k] == ring[k + 1];
      assert ns[ring[k + 1]].next == if k + 2 < |ring| then ring[k + 2] else ring[0];
    }
  }

  lemma {:induction false} ContentsPopped<T>(ns: seq<Node<T>>, ns': seq<Node<T>>, ring: seq<nat>, k: nat)
    requires InHeap(ns, ring) && InHeap(ns', ring) && 1 <= k <= |ring|
    requires ns[ring[0]].items != [] && ns'[ring[0]].items == ns[ring[0]].items[1..]
    requires forall i {:trigger ns'[ring[i]]} {:trigger ns[ring[i]]} :: 0 < i < |ring| ==> ns'[ring[i]] == ns[ring[i]]
    ensures Contents(ns, ring, k) == [ns[ring[0]].items[0]] + Contents(ns', ring, k)
  {
    if k == 1 {
      assert Contents(ns, ring, 0) == [] && Contents(ns', ring, 0) == [];
    } else {
      ContentsPopped(ns, ns', ring, k - 1);
    }
  }

  lemma PopFront<T>(ns: seq<Node<T>>, ring: seq<nat>, t: nat, pending: seq<T>)
    requires Occupied(ns, ring, t, pending) && ns[ring[0]].items != []
    ensures var n := ns[ring[0]];
            var ns' := ns[ring[0] := n.(items := n.items[1..])];
            Occupied(ns', ring, t, pending)
            && Contents(ns, ring, t + 1) == [n.items[0]] + Contents(ns', ring, t + 1)
  {
    var n := ns[ring[0]].(items := ns[ring[0]].items[1..]);
    ReplaceAt(ns, ring, 0, n);
    ContentsPopped(ns, ns[ring[0] := n], ring, t + 1);
  }

  /** With k full blocks behind the front one, the queue holds at least k units. */
  lemma {:induction false} ContentsAtLeast<T>(ns: seq<Node<T>>, ring: seq<nat>, k: nat, unit: nat)
    requires InHeap(ns, ring) && k < |ring|
    requires forall i {:trigger ns[ring[i]]} :: 0 <= i < |ring| ==> ns[ring[i]].size > unit
    requires forall i {:trigger ns[ring[i]]} :: 0 < i <= k ==> Full(ns[ring[i]])
    ensures |Contents(ns, ring, k + 1)| >= k * unit
  {
    if k > 0 {
      ContentsAtLeast(ns, ring, k - 1, unit);
      assert k * unit == (k - 1) * unit + unit;
    }
  }

  lemma ContentsCoverTail<T>(ns: seq<Node<T>>, ring: seq<nat>, t: nat)
    requires InHeap(ns, ring) && t < |ring|
    ensures |Contents(ns, ring, t + 1)| >= |ns[ring[t]].items|
  {
  }
}
