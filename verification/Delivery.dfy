/**
  The accumulators and the sender together: the worker's steps on the ring of host slots,
  as the blocks call for them, interleaved in any way with the sender's.
 */
module Delivery {
  import opened Integration
  import opened Accumulators
  import HR = HostRing

  type Action = HR.Action<Vec>

  /** The worker's part of an interleaving. */
  function WorkerOf(actions: seq<Action>): seq<Action> {
    if actions == [] then []
    else (if SendersOwn(actions[0]) then [] else [actions[0]]) + WorkerOf(actions[1..])
  }

  predicate SendersOwn(a: Action) { a.Look? || a.Read? || a.Release? }

  /** What the worker does and publishes does not depend on the sender. */
  lemma {:induction false} SenderUnseen(r: HR.Ring<Vec>, alone: HR.Ring<Vec>, actions: seq<Action>)
    requires HR.Shape(r) && HR.Shape(alone) && r.worker == alone.worker && r.published == alone.published
    ensures HR.Run(r, actions).published == HR.Run(alone, WorkerOf(actions)).published
    decreases actions
  {
    if actions != [] {
      var a, rest := actions[0], WorkerOf(actions[1..]);
      if SendersOwn(a) {
        SenderUnseen(HR.Step(r, a), alone, actions[1..]);
        assert WorkerOf(actions) == rest;
      } else {
        SenderUnseen(HR.Step(r, a), HR.Step(alone, a), actions[1..]);
        assert WorkerOf(actions)[0] == a && WorkerOf(actions)[1..] == rest;
      }
    }
  }

  lemma {:induction false} PublishedGrows(r: HR.Ring<Vec>, actions: seq<Action>)
    requires HR.Shape(r)
    ensures r.published <= HR.Run(r, actions).published
    decreases actions
  {
    if actions != [] { PublishedGrows(HR.Step(r, actions[0]), actions[1..]); }
  }

  lemma PrefixPublished(r: HR.Ring<Vec>, xs: seq<Action>, ys: seq<Action>)
    requires HR.Shape(r) && xs <= ys
    ensures HR.Run(r, xs).published <= HR.Run(r, ys).published
  {
    hide HR.Run;
    assert xs + ys[|xs|..] == ys;
    HR.RunAppend(r, xs, ys[|xs|..]);
    PublishedGrows(HR.Run(r, xs), ys[|xs|..]);
  }

  // ------------------------------------------------------------------ the worker alone

  /** Between blocks; without calibration an open integration has its first time in the slot. */
  ghost predicate WorkerOk(c: Config, blocks: seq<Input>, worker: HR.Worker<Vec>) {
    var g := Open(c, blocks, false);
    && !worker.Filled? && (c.cal ==> worker.Idle?)
    && (!c.cal && g != [] ==> worker == HR.Started(TimeAt(blocks, g[0])))
  }

  lemma PutResult(c: Config, r: HR.Ring<Vec>, result: Result)
    requires HR.Shape(r) && !r.worker.Filled? && (c.cal ==> r.worker.Idle?)
    requires !c.cal ==> r.worker == HR.Started(result.first) && !result.on
    ensures var r' := HR.Run(r, Putting(c, result));
            r'.worker.Idle? && r'.published == r.published + [result]
  {
    HR.TwoSteps(r, Putting(c, result)[0], HR.Expose);
  }

  lemma StartOnly(r: HR.Ring<Vec>, time: nat)
    requires HR.Shape(r) && !r.worker.Filled?
    ensures var r' := HR.Run(r, [HR.Start(time)]);
            r'.worker == HR.Started(time) && r'.published == r.published
  {
    var r' := HR.Step(r, HR.Start(time));
    assert HR.Run(r, [HR.Start(time)]) == HR.Run(r', []);
  }

  /** One block, under calibration. */
  lemma CalBlock(c: Config, blocks: seq<Input>, b: Input, r: HR.Ring<Vec>)
    requires c.cal && HR.Shape(r) && WorkerOk(c, blocks, r.worker) && PublishedOk(c, blocks, r.published)
    ensures var r' := HR.Run(r, BlockActions(c, blocks + [b]));
            WorkerOk(c, blocks + [b], r'.worker) && PublishedOk(c, blocks + [b], r'.published)
  {
    hide PublishedOk, Finished, Open, ResultOf, Putting, HR.Shape;
    var done := Finished(c, blocks + [b], true) + Finished(c, blocks + [b], false);
    AtMostOne(c, blocks, b);
    PublishedNext(c, blocks, b, r.published, done);
    assert r.published + [] == r.published;
    assert BlockActions(c, blocks + [b]) == if done == [] then [] else Putting(c, ResultOf(c, blocks + [b], done[0]));
    RunNothing(r);
    if done != [] { PutResult(c, r, ResultOf(c, blocks + [b], done[0])); }
  }

  lemma AtMostOne(c: Config, blocks: seq<Input>, b: Input)
    ensures |Finished(c, blocks + [b], true) + Finished(c, blocks + [b], false)| <= 1
    ensures !c.cal ==> Finished(c, blocks + [b], true) == []
  {
  }

  /** One block, without calibration. */
  lemma PlainBlockPublishes(c: Config, blocks: seq<Input>, b: Input, r: HR.Ring<Vec>)
    requires !c.cal && HR.Shape(r) && WorkerOk(c, blocks, r.worker) && PublishedOk(c, blocks, r.published)
    ensures var r' := HR.Run(r, BlockActions(c, blocks + [b]));
            WorkerOk(c, blocks + [b], r'.worker) && PublishedOk(c, blocks + [b], r'.published)
  {
    hide PublishedOk, Open, Sum, HR.Run, HR.Shape, Groups;
    var blocks', g := blocks + [b], Open(c, blocks, false);
    assert blocks'[..|blocks|] == blocks;
    var done := Finished(c, blocks', true) + Finished(c, blocks', false);
    AtMostOne(c, blocks, b);
    PublishedNext(c, blocks, b, r.published, done);
    assert r.published + [] == r.published;
    OpenNext(c, blocks, b, false);
    OpenBelow(c, blocks, false);
    var start := if b.valid && g == [] then [HR.Start(b.timestamp)] else [];
    var put := if done == [] then [] else Putting(c, ResultOf(c, blocks', done[0]));
    assert BlockActions(c, blocks') == start + put;
    HR.RunAppend(r, start, put);
    var r1 := HR.Run(r, start);
    RunNothing(r);
    if start != [] { StartOnly(r, b.timestamp); }
    RunNothing(r1);
    if done != [] { PutResult(c, r1, ResultOf(c, blocks', done[0])); }
  }

  lemma RunNothing(r: HR.Ring<Vec>)
    requires HR.Shape(r)
    ensures HR.Run(r, []) == r
  {
  }

  /** The steps the blocks call for publish their exact results. */
  lemma {:induction false} BlocksPublish(c: Config, blocks: seq<Input>)
    ensures var r := HR.Run(HR.New([]), WorkerActions(c, blocks));
            WorkerOk(c, blocks, r.worker) && PublishedOk(c, blocks, r.published)
    decreases |blocks|
  {
    if blocks != [] {
      hide HR.Run, HR.New, WorkerOk, PublishedOk, BlockActions;
      var init, b := blocks[..|blocks| - 1], blocks[|blocks| - 1];
      assert blocks == init + [b];
      BlocksPublish(c, init);
      NewShape();
      HR.RunAppend(HR.New([]), WorkerActions(c, init), BlockActions(c, blocks));
      var r := HR.Run(HR.New([]), WorkerActions(c, init));
      if c.cal { CalBlock(c, init, b, r); } else { PlainBlockPublishes(c, init, b, r); }
    }
  }

  lemma NewShape()
    ensures HR.Shape(HR.New<Vec>([]))
  {
  }

  // ------------------------------------------------------------------ with the sender

  /**
    Whatever the blocks and whatever the interleaving: while the worker writes only into free
    slots, what has been sent is a prefix of the exact results of the blocks' integrations,
    each once and in order, at most a ring behind; all of them when the worker is through.
   */
  lemma ExactResultsAreSentOnce(c: Config, blocks: seq<Input>, actions: seq<Action>)
    requires WorkerOf(actions) <= WorkerActions(c, blocks) && HR.NeverFull(HR.New([]), actions)
    ensures var r, groups := HR.Run(HR.New([]), actions), Groups(c, blocks);
            && |r.sent| <= |r.published| <= |groups| && |r.published| <= |r.sent| + NUM_SLOTS
            && (forall k :: 0 <= k < |r.sent| ==> r.sent[k] == ResultOf(c, blocks, groups[k]))
            && (WorkerOf(actions) == WorkerActions(c, blocks) ==> |r.published| == |groups|)
  {
    hide HR.Run, HR.NeverFull, WorkerOf, WorkerActions, Groups, ResultOf, HR.New;
    NewShape();
    HR.ResultsAreDelivered([], actions);
    SenderUnseen(HR.New([]), HR.New([]), actions);
    PrefixPublished(HR.New([]), WorkerOf(actions), WorkerActions(c, blocks));
    BlocksPublish(c, blocks);
  }

  /** The sender going round n times. */
  function Rounds(n: nat): seq<Action> {
    if n == 0 then [] else HR.SenderRound() + Rounds(n - 1)
  }

  /** Left to itself the sender then sends everything published. */
  lemma {:induction false} SenderCatchesUp(r: HR.Ring<Vec>, n: nat)
    requires HR.Inv(r) && n == |r.published| - |r.sent|
    ensures HR.Run(r, Rounds(n)).sent == r.published
    decreases n
  {
    if n > 0 {
      hide HR.Run, HR.SlotsOk, HR.Step;
      OldestWaits(r);
      HR.SenderSends(r);
      RoundKeeps(r);
      HR.RunAppend(r, HR.SenderRound(), Rounds(n - 1));
      SenderCatchesUp(HR.Run(r, HR.SenderRound()), n - 1);
    } else {
      assert r.sent == r.published;
    }
  }

  lemma OldestWaits(r: HR.Ring<Vec>)
    requires HR.Inv(r) && |r.sent| < |r.published|
    ensures r.slots[r.idx] == HR.Slot(r.published[|r.sent|], true)
  {
  }

  lemma RoundKeeps(r: HR.Ring<Vec>)
    requires HR.Inv(r)
    ensures HR.Inv(HR.Run(r, HR.SenderRound()))
  {
    hide HR.Inv, HR.Step, HR.Run;
    HR.InvShape(r);
    HR.SenderBlind(r, HR.SenderRound(), 0, HR.Idle, []);
    HR.RunKeeps(r, HR.SenderRound());
  }

  /** So from any such run every exact result can still be sent, once and in order. */
  lemma AllCanBeSent(c: Config, blocks: seq<Input>, actions: seq<Action>)
    requires WorkerOf(actions) == WorkerActions(c, blocks) && HR.NeverFull(HR.New([]), actions)
    ensures var r := HR.Run(HR.New([]), actions);
            && |r.sent| <= |r.published|
            && PublishedOk(c, blocks, HR.Run(r, Rounds(|r.published| - |r.sent|)).sent)
  {
    hide HR.Run, HR.NeverFull, WorkerOf, WorkerActions, PublishedOk, HR.New, HR.SlotsOk, WorkerOk;
    NewShape();
    HR.NewInv<Vec>([]);
    HR.RunKeeps(HR.New([]), actions);
    var r := HR.Run(HR.New([]), actions);
    SenderCatchesUp(r, |r.published| - |r.sent|);
    SenderUnseen(HR.New([]), HR.New([]), actions);
    BlocksPublish(c, blocks);
  }
}
