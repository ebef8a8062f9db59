/**
  The ring of host result slots between the worker, which fills a slot and then sets its
  `used` flag, and the sender, which reads a used slot and then clears the flag. A full
  ring does not stop the worker; without calibration it even writes the start time of an
  integration into the next slot before that integration is complete.
 */
module HostRing {
  import opened Bits

  const NUM_SLOTS := 16

  datatype Result<D> = Result(first: nat, last: nat, data: D, on: bool)

  datatype Slot<D> = Slot(result: Result<D>, used: bool)

  /** What the worker has written into the slot at its head. */
  datatype Worker<D> = Idle | Started(first: nat) | Filled(result: Result<D>)

  datatype Sender<D> = Polling | Reading | Holding(result: Result<D>)

  datatype Ring<D> = Ring(
    slots: seq<Slot<D>>, head: nat, worker: Worker<D>, idx: nat, sender: Sender<D>,
    published: seq<Result<D>>, sent: seq<Result<D>>)

  datatype Action<D> =
    | Start(first: nat)                             // first_timestamp_ns, without calibration
    | FillRest(last: nat, data: D)                  // the other fields, after Start
    | FillAll(result: Result<D>)                    // all fields at once, under calibration
    | Expose                                        // used := true, and on to the next slot
    | Look                                          // the sender finds its slot used
    | Read                                          // and reads it
    | Release                                       // used := false, and on to the next slot

  function New<D>(d: D): Ring<D> {
    Ring(seq(NUM_SLOTS, _ => Slot(Result(0, 0, d, false), false)), 0, Idle, 0, Polling, [], [])
  }

  ghost predicate Shape<D>(r: Ring<D>) {
    |r.slots| == NUM_SLOTS && r.head < NUM_SLOTS && r.idx < NUM_SLOTS
  }

  function Next(i: nat): nat { (i + 1) % NUM_SLOTS }

  function Step<D>(r: Ring<D>, a: Action<D>): Ring<D>
    requires Shape(r)
  {
    var slot := r.slots[r.head];
    match a
    case Start(first) =>
      if r.worker.Filled? then r
      else r.(slots := r.slots[r.head := slot.(result := slot.result.(first := first))], worker := Started(first))
    case FillRest(last, data) =>
      if !r.worker.Started? then r
      else
        var result := slot.result.(last := last, data := data, on := false);
        r.(slots := r.slots[r.head := slot.(result := result)],
          worker := Filled(Result(r.worker.first, last, data, false)))
    case FillAll(result) =>
      if !r.worker.Idle? then r
      else r.(slots := r.slots[r.head := slot.(result := result)], worker := Filled(result))
    case Expose =>
      if !r.worker.Filled? then r
      else r.(slots := r.slots[r.head := slot.(used := true)], head := Next(r.head), worker := Idle,
              published := r.published + [r.worker.result])
    case Look => if r.sender.Polling? && r.slots[r.idx].used then r.(sender := Reading) else r
    case Read => if r.sender.Polling? then r else r.(sender := Holding(r.slots[r.idx].result))
    case Release =>
      if !r.sender.Holding? then r
      else r.(slots := r.slots[r.idx := r.slots[r.idx].(used := false)], idx := Next(r.idx), sender := Polling,
              sent := r.sent + [r.sender.result])
  }

  ghost predicate Writes<D>(a: Action<D>) { a.Start? || a.FillRest? || a.FillAll? }

  /** The worker writes only into slots that are free at that moment. */
  ghost predicate NeverFull<D>(r: Ring<D>, actions: seq<Action<D>>)
    requires Shape(r)
    decreases actions
  {
    actions != [] ==>
    && (Writes(actions[0]) ==> !r.slots[r.head].used)
    && NeverFull(Step(r, actions[0]), actions[1..])
  }

  function Run<D>(r: Ring<D>, actions: seq<Action<D>>): (r': Ring<D>)
    requires Shape(r)
    ensures Shape(r')
    decreases actions
  {
    if actions == [] then r else Run(Step(r, actions[0]), actions[1..])
  }

  // ------------------------------------------------------------------ the invariant

  /** The used slots are exactly those published and not yet sent, and hold what was published. */
  ghost predicate SlotsOk<D>(r: Ring<D>) {
    var p, s := |r.published|, |r.sent|;
    && |r.slots| == NUM_SLOTS && s <= p <= s + NUM_SLOTS
    && (forall k: nat {:trigger Place(k, NUM_SLOTS)} :: s <= k < p ==>
         r.slots[Place(k, NUM_SLOTS)] == Slot(r.published[k], true))
    && (forall k: nat {:trigger Place(k, NUM_SLOTS)} :: p <= k < s + NUM_SLOTS ==> !r.slots[Place(k, NUM_SLOTS)].used)
  }

  ghost predicate ThreadsOk<D>(r: Ring<D>) {
    var p, s := |r.published|, |r.sent|;
    && |r.slots| == NUM_SLOTS && r.head == Place(p, NUM_SLOTS) && r.idx == Place(s, NUM_SLOTS)
    && r.sent <= r.published
    && (!r.worker.Idle? ==> p < s + NUM_SLOTS)
    && (r.worker.Started? ==> r.slots[r.head].result.first == r.worker.first)
    && (r.worker.Filled? ==> r.slots[r.head].result == r.worker.result)
    && (!r.sender.Polling? ==> s < p)
    && (r.sender.Holding? ==> r.sender.result == r.published[s])
  }

  ghost predicate Inv<D>(r: Ring<D>) {
    Shape(r) && SlotsOk(r) && ThreadsOk(r)
  }

  lemma NewInv<D>(d: D)
    ensures Inv(New(d))
  {
  }

  /** A free slot at the head means the ring is not full. */
  lemma FreeMeansRoom<D>(r: Ring<D>)
    requires Inv(r) && !r.slots[r.head].used
    ensures |r.published| < |r.sent| + NUM_SLOTS
  {
    PlaceAgain(|r.sent|, NUM_SLOTS);
  }

  /** Writing the fields of the free slot at the head leaves the published ones alone. */
  lemma WriteKeepsSlots<D>(r: Ring<D>, result: Result<D>)
    requires Inv(r) && |r.published| < |r.sent| + NUM_SLOTS
    ensures SlotsOk(r.(slots := r.slots[r.head := r.slots[r.head].(result := result)]))
  {
    hide Place;
    forall k: nat | |r.sent| <= k < |r.published| ensures Place(k, NUM_SLOTS) != r.head {
      PlacesDiffer(k, |r.published|, NUM_SLOTS);
    }
  }

  lemma WriteKeeps<D>(r: Ring<D>, a: Action<D>)
    requires Inv(r) && Writes(a) && !r.slots[r.head].used
    ensures Inv(Step(r, a))
  {
    hide SlotsOk, Place;
    FreeMeansRoom(r);
    var r' := Step(r, a);
    WriteKeepsSlots(r, r'.slots[r.head].result);
    SlotsCopy(r.(slots := r.slots[r.head := r.slots[r.head].(result := r'.slots[r.head].result)]), r');
    if !r.sender.Polling? { PlacesDiffer(|r.sent|, |r.published|, NUM_SLOTS); }
  }

  lemma SlotsCopy<D>(r: Ring<D>, r': Ring<D>)
    requires SlotsOk(r) && r'.slots == r.slots && r'.published == r.published && r'.sent == r.sent
    ensures SlotsOk(r')
  {
  }

  lemma ExposeKeeps<D>(r: Ring<D>)
    requires Inv(r)
    ensures Inv(Step(r, Expose))
  {
    if r.worker.Filled? {
      var r' := Step(r, Expose);
      var p := |r.published|;
      WrapNext(p);
      hide Place;
      forall k: nat | |r.sent| <= k < |r.sent| + NUM_SLOTS && k != p ensures Place(k, NUM_SLOTS) != r.head {
        if k < p { PlacesDiffer(k, p, NUM_SLOTS); } else { PlacesDiffer(p, k, NUM_SLOTS); }
      }
      assert SlotsOk(r');
      hide SlotsOk;
    }
  }

  lemma WrapNext(n: nat)
    ensures Next(Place(n, NUM_SLOTS)) == Place(n + 1, NUM_SLOTS)
  {
  }

  lemma ReleaseKeeps<D>(r: Ring<D>)
    requires Inv(r)
    ensures Inv(Step(r, Release))
  {
    if r.sender.Holding? {
      var r' := Step(r, Release);
      var s := |r.sent|;
      WrapNext(s);
      PlaceAgain(s, NUM_SLOTS);
      hide Place;
      forall k: nat | s < k < s + NUM_SLOTS ensures Place(k, NUM_SLOTS) != r.idx {
        PlacesDiffer(s, k, NUM_SLOTS);
      }
      assert SlotsOk(r');
      hide SlotsOk;
      assert r'.sent <= r'.published;
      if !r.worker.Idle? { assert r.head != r.idx; }
    }
  }

  lemma SenderKeeps<D>(r: Ring<D>, a: Action<D>)
    requires Inv(r) && (a.Look? || a.Read?)
    ensures Inv(Step(r, a))
  {
    SlotsCopy(r, Step(r, a));
    assert |r.sent| == |r.published| ==> !r.slots[Place(|r.published|, NUM_SLOTS)].used;
    hide Place;
  }

  lemma {:induction false} RunKeeps<D>(r: Ring<D>, actions: seq<Action<D>>)
    requires Inv(r) && NeverFull(r, actions)
    ensures Inv(Run(r, actions))
    decreases actions
  {
    if actions != [] {
      var a := actions[0];
      if Writes(a) {
        WriteKeeps(r, a);
      } else if a.Expose? {
        ExposeKeeps(r);
      } else if a.Release? {
        ReleaseKeeps(r);
      } else {
        SenderKeeps(r, a);
      }
      hide Inv;
      RunKeeps(Step(r, a), actions[1..]);
    }
  }

  /**
    While the worker only ever writes into free slots, the sender sends every published
    result once, unchanged and in order, and is never more than a ring behind.
   */
  lemma ResultsAreDelivered<D>(d: D, actions: seq<Action<D>>)
    requires NeverFull(New(d), actions)
    ensures var r := Run(New(d), actions);
            r.sent <= r.published && |r.published| <= |r.sent| + NUM_SLOTS
  {
    NewInv(d);
    RunKeeps(New(d), actions);
    hide Run;
  }

  // ------------------------------------------------------------------ a full ring

  lemma {:induction false} RunAppend<D>(r: Ring<D>, xs: seq<Action<D>>, ys: seq<Action<D>>)
    requires Shape(r)
    ensures Run(r, xs + ys) == Run(Run(r, xs), ys)
    decreases xs
  {
    if xs == [] {
      assert xs + ys == ys;
    } else {
      assert (xs + ys)[0] == xs[0] && (xs + ys)[1..] == xs[1..] + ys;
      RunAppend(Step(r, xs[0]), xs[1..], ys);
    }
  }

  /** The worker publishes results one after the other. */
  function Publishing<D>(results: seq<Result<D>>): seq<Action<D>> {
    if results == [] then [] else [FillAll(results[0]), Expose] + Publishing(results[1..])
  }

  lemma PublishOne<D>(r: Ring<D>, result: Result<D>)
    requires Inv(r) && r.worker.Idle? && |r.published| < |r.sent| + NUM_SLOTS
    ensures !r.slots[r.head].used
    ensures var r' := Step(Step(r, FillAll(result)), Expose);
            && Inv(r') && r'.worker.Idle? && r'.sender == r.sender && r'.sent == r.sent
            && r'.published == r.published + [result]
  {
    assert !r.slots[Place(|r.published|, NUM_SLOTS)].used;
    hide Place, SlotsOk;
    WriteKeeps(r, FillAll(result));
    ExposeKeeps(Step(r, FillAll(result)));
  }

  lemma InvShape<D>(r: Ring<D>)
    requires Inv(r)
    ensures Shape(r) && Shape(Step(r, Expose)) && forall x :: Shape(Step(r, FillAll(x)))
  {
  }

  /** As long as there is room, publishing only writes free slots and adds to what waits. */
  lemma {:induction false} PublishMany<D>(r: Ring<D>, results: seq<Result<D>>)
    requires Inv(r) && r.worker.Idle? && |r.published| + |results| <= |r.sent| + NUM_SLOTS
    ensures NeverFull(r, Publishing(results))
    ensures var r' := Run(r, Publishing(results));
            && Inv(r') && r'.worker.Idle? && r'.sender == r.sender && r'.sent == r.sent
            && r'.published == r.published + results
    decreases results
  {
    if results != [] {
      hide Inv, Step;
      var p := Publishing(results);
      var rest := Publishing(results[1..]);
      InvShape(r);
      PublishOne(r, results[0]);
      var r1 := Step(r, FillAll(results[0]));
      var r2 := Step(r1, Expose);
      PublishMany(r2, results[1..]);
      assert p[0] == FillAll(results[0]) && p[1..][0] == Expose && p[1..][1..] == rest;
      assert r.published + [results[0]] + results[1..] == r.published + results;
    }
  }

  /** What the sender does with a slot it finds in use. */
  function SenderRound<D>(): seq<Action<D>> { [Look, Read, Release] }

  /** Wherever it stands, the sender then sends what its slot holds. */
  lemma SenderSends<D>(r: Ring<D>)
    requires Shape(r) && r.slots[r.idx].used
    ensures var r' := Run(r, SenderRound());
            r'.published == r.published && r'.sent == r.sent + [r.slots[r.idx].result]
  {
    var r1 := Step(r, Look);
    var r2 := Step(r1, Read);
    var r3 := Step(r2, Release);
    hide Step;
    assert Run(r2, [Release]) == Run(r3, []);
    assert Run(r1, [Read, Release]) == Run(r2, [Release]);
  }

  /** On a full ring both threads stand at the oldest result waiting. */
  lemma FullAtOldest<D>(r: Ring<D>)
    requires Inv(r) && |r.published| == |r.sent| + NUM_SLOTS
    ensures r.head == r.idx && r.slots[r.idx] == Slot(r.published[|r.sent|], true)
  {
    PlaceAgain(|r.sent|, NUM_SLOTS);
    assert r.slots[Place(|r.sent|, NUM_SLOTS)] == Slot(r.published[|r.sent|], true);
    hide Place;
  }

  lemma TwoSteps<D>(r: Ring<D>, a: Action<D>, b: Action<D>)
    requires Shape(r)
    ensures Run(r, [a, b]) == Step(Step(r, a), b)
  {
    var r1 := Step(r, a);
    var r2 := Step(r1, b);
    hide Step;
    assert Run(r1, [b]) == Run(r2, []);
  }

  /** On a full ring the next result replaces the oldest one waiting, which is never sent. */
  lemma FullRingLosesOldest<D>(r: Ring<D>, result: Result<D>)
    requires Inv(r) && r.worker.Idle? && |r.published| == |r.sent| + NUM_SLOTS
    ensures var r' := Run(r, [FillAll(result), Expose] + SenderRound());
            && r'.published == r.published + [result] && r'.sent == r.sent + [result]
            && (r'.sent <= r'.published <==> result == r.published[|r.sent|])
  {
    FullAtOldest(r);
    hide SlotsOk;
    var r2 := Step(Step(r, FillAll(result)), Expose);
    assert r2.published == r.published + [result] && r2.sent == r.sent && r2.slots[r2.idx] == Slot(result, true);
    assert r2.published[|r.sent|] == r.published[|r.sent|];
    assert r.sent <= r.published;
    TwoSteps(r, FillAll(result), Expose);
    SenderSends(r2);
    RunAppend(r, [FillAll(result), Expose], SenderRound());
    hide ThreadsOk, Step, Run, SenderRound;
  }

  /**
    Without calibration the damage comes earlier: starting an integration while the ring is
    full changes the time of a result that is still waiting.
   */
  lemma EarlyStartChangesOldest<D>(r: Ring<D>, first: nat)
    requires Inv(r) && r.worker.Idle? && |r.published| == |r.sent| + NUM_SLOTS
    ensures var r' := Run(r, [Start(first)] + SenderRound());
            && r'.published == r.published
            && r'.sent == r.sent + [r.published[|r.sent|].(first := first)]
  {
    FullAtOldest(r);
    hide SlotsOk, ThreadsOk;
    var r1 := Step(r, Start(first));
    SenderSends(r1);
    RunAppend(r, [Start(first)], SenderRound());
    hide Step, SenderRound;
    assert Run(r, [Start(first)]) == Run(r1, []);
  }

  ghost predicate SenderOnly<D>(actions: seq<Action<D>>) {
    forall i :: 0 <= i < |actions| ==> actions[i].Look? || actions[i].Read? || actions[i].Release?
  }

  /** The sender neither sees nor changes what only the worker uses. */
  lemma {:induction false} SenderBlind<D>(r: Ring<D>, actions: seq<Action<D>>, head: nat, worker: Worker<D>,
                                          published: seq<Result<D>>)
    requires Shape(r) && SenderOnly(actions) && head < NUM_SLOTS
    ensures Run(r.(head := head, worker := worker, published := published), actions).sent == Run(r, actions).sent
    ensures NeverFull(r, actions)
    decreases actions
  {
    if actions != [] {
      var r' := r.(head := head, worker := worker, published := published);
      assert Step(r', actions[0]) == Step(r, actions[0]).(head := head, worker := worker, published := published);
      SenderBlind(Step(r, actions[0]), actions[1..], head, worker, published);
    }
  }

  /**
    If the sender has just read the oldest result, it is the new one that is lost: the slot
    is released with it, and the sender alone never sends it.
   */
  lemma FullRingLosesNewest<D>(r: Ring<D>, result: Result<D>, later: seq<Action<D>>)
    requires Inv(r) && r.worker.Idle? && r.sender.Holding? && |r.published| == |r.sent| + NUM_SLOTS
    requires SenderOnly(later)
    ensures var r' := Run(r, [FillAll(result), Expose] + [Release]);
            r'.published == r.published + [result] && Run(r', later).sent <= r.published
  {
    FullAtOldest(r);
    ReleaseKeeps(r);
    var r2 := Step(Step(r, FillAll(result)), Expose);
    var r3 := Step(r2, Release);
    var v := Step(r, Release);
    assert r3.slots == v.slots[r.idx := Slot(result, false)];
    hide SlotsOk;
    TwoSteps(r, FillAll(result), Expose);
    RunAppend(r, [FillAll(result), Expose], [Release]);
    assert Run(r2, [Release]) == Run(r3, []);
    var w := v.(slots := r3.slots);
    ReplaceReleased(r, v, w, result);
    assert w == r3.(head := v.head, worker := v.worker, published := v.published);
    SenderBlind(r3, later, v.head, v.worker, v.published);
    SenderBlind(w, later, w.head, w.worker, w.published);
    RunKeeps(w, later);
    SenderKeepsPublished(w, later);
  }

  lemma {:induction false} SenderKeepsPublished<D>(r: Ring<D>, actions: seq<Action<D>>)
    requires Shape(r) && SenderOnly(actions)
    ensures Run(r, actions).published == r.published
    decreases actions
  {
    if actions != [] { SenderKeepsPublished(Step(r, actions[0]), actions[1..]); }
  }

  /** The contents of a slot that is not in use do not matter. */
  lemma ReplaceReleased<D>(r: Ring<D>, v: Ring<D>, w: Ring<D>, result: Result<D>)
    requires Inv(r) && r.sender.Holding? && r.worker.Idle? && v == Step(r, Release) && Inv(v)
    requires w == v.(slots := v.slots[r.idx := Slot(result, false)]) && r.head == r.idx
    ensures Inv(w)
  {
    PlaceAgain(|r.sent|, NUM_SLOTS);
    hide Place;
    forall k: nat | |r.sent| < k < |r.sent| + NUM_SLOTS ensures Place(k, NUM_SLOTS) != r.idx {
      PlacesDiffer(|r.sent|, k, NUM_SLOTS);
    }
    assert SlotsOk(w);
  }

  /**
    From a new ring: sixteen results published into free slots fill it, and one more is
    enough to lose the first.
   */
  lemma SeventeenthResultLosesFirst<D>(d: D, results: seq<Result<D>>, extra: Result<D>)
    requires |results| == NUM_SLOTS
    ensures NeverFull(New(d), Publishing(results))
    ensures var r := Run(New(d), Publishing(results) + ([FillAll(extra), Expose] + SenderRound()));
            && r.published == results + [extra] && r.sent == [extra]
            && (r.sent <= r.published <==> extra == results[0])
  {
    hide Run, Step, NeverFull, SenderRound, Publishing;
    NewInv(d);
    NewEmpty(d);
    PublishMany(New(d), results);
    hide Inv;
    var full := Run(New(d), Publishing(results));
    FullRingLosesOldest(full, extra);
    RunAppend(New(d), Publishing(results), [FillAll(extra), Expose] + SenderRound());
  }

  lemma NewEmpty<D>(d: D)
    ensures var r := New(d); r.published == [] && r.sent == [] && r.worker.Idle? && r.sender.Polling?
  {
  }
}
