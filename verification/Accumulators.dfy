/**
  The accumulators of the spectrometer: two device sums with their counters and first
  timestamps, cleared on a gap, published into a ring of host slots when full. Every
  published result is proved to be the exact sum of one group of blocks of Integration.
 */
module Accumulators {
  import opened Bits
  import opened Integration
  import HR = HostRing

  const NUM_SLOTS := HR.NUM_SLOTS

  function Zero(n: nat): Vec { seq(n, _ => 0.0) }

  /** The accumulation kernel: every element of a gets its term of b. */
  function Add(a: Vec, b: Vec): Vec {
    seq(|a|, i requires 0 <= i < |a| => a[i] + if i < |b| then b[i] else 0.0)
  }

  /** Term i of a block's powers. */
  function PowerAt(blocks: seq<Input>, k: nat, i: nat): real {
    if k < |blocks| && i < |blocks[k].power| then blocks[k].power[i] else 0.0
  }

  /** The sum of term i over the chosen blocks. */
  function Total(blocks: seq<Input>, g: seq<nat>, i: nat): real {
    if g == [] then 0.0 else Total(blocks, g[..|g| - 1], i) + PowerAt(blocks, g[|g| - 1], i)
  }

  /** The exact sum of the chosen blocks, term by term. */
  function Sum(c: Config, blocks: seq<Input>, g: seq<nat>): Vec {
    seq(c.size, i requires 0 <= i < c.size => Total(blocks, g, i))
  }

  function TimeAt(blocks: seq<Input>, i: nat): nat { if i < |blocks| then blocks[i].timestamp else 0 }

  /** A result as the host ring holds it. */
  type Result = HR.Result<Vec>

  function ResultOf(c: Config, blocks: seq<Input>, g: Group): Result {
    if g.members == [] then HR.Result(0, 0, Zero(c.size), g.on)
    else
      var m := g.members;
      HR.Result(TimeAt(blocks, m[0]), TimeAt(blocks, m[|m| - 1]), Sum(c, blocks, m), g.on)
  }

  /** An accumulator, its counter and its first timestamp stand for the open integration. */
  ghost predicate Tracks(c: Config, blocks: seq<Input>, on: bool, acc: Vec, count: nat, first: nat) {
    var g := Open(c, blocks, on);
    acc == Sum(c, blocks, g) && count == |g| && (g != [] ==> first == TimeAt(blocks, g[0]))
  }

  ghost predicate PublishedOk(c: Config, blocks: seq<Input>, published: seq<Result>) {
    var groups := Groups(c, blocks);
    |published| == |groups| && forall k :: 0 <= k < |groups| ==> published[k] == ResultOf(c, blocks, groups[k])
  }

  type Slot = HR.Slot<Vec>

  /** The last results, short of the slot written next, are in the ring. */
  ghost predicate RingOk(ring: seq<Slot>, head: nat, published: seq<Result>) {
    && |ring| == NUM_SLOTS && head == Place(|published|, NUM_SLOTS)
    && forall k: nat {:trigger Place(k, NUM_SLOTS)} :: |published| < k + NUM_SLOTS && k < |published|
         ==> ring[Place(k, NUM_SLOTS)].result == published[k]
  }

  // ------------------------------------------------------------------ one block

  lemma {:induction false} TotalGrows(blocks: seq<Input>, b: Input, g: seq<nat>, i: nat)
    requires forall k :: 0 <= k < |g| ==> g[k] < |blocks|
    ensures Total(blocks + [b], g, i) == Total(blocks, g, i)
    decreases |g|
  {
    if g != [] {
      var n := |g| - 1;
      assert g[n] < |blocks|;
      TotalGrows(blocks, b, g[..n], i);
      assert (blocks + [b])[g[n]] == blocks[g[n]];
    }
  }

  lemma SumGrows(c: Config, blocks: seq<Input>, b: Input, g: seq<nat>)
    requires forall i :: 0 <= i < |g| ==> g[i] < |blocks|
    ensures Sum(c, blocks + [b], g) == Sum(c, blocks, g)
  {
    hide Total;
    forall i: nat | i < c.size ensures Total(blocks + [b], g, i) == Total(blocks, g, i) {
      TotalGrows(blocks, b, g, i);
    }
  }

  /** The accumulation kernel adds a block to the sum. */
  lemma SumAppend(c: Config, blocks: seq<Input>, g: seq<nat>, k: nat)
    requires k < |blocks|
    ensures Sum(c, blocks, g + [k]) == Add(Sum(c, blocks, g), blocks[k].power)
  {
    assert (g + [k])[..|g|] == g;
    forall i: nat | i < c.size ensures Total(blocks, g + [k], i) == Total(blocks, g, i) + PowerAt(blocks, k, i) {
    }
    hide Total;
  }

  /** Blocks recorded in groups and open integrations exist. */
  lemma OpenBelow(c: Config, blocks: seq<Input>, on: bool)
    ensures forall i :: 0 <= i < |Open(c, blocks, on)| ==> Open(c, blocks, on)[i] < |blocks|
  {
    GroupsAreOk(c, blocks);
    assert OpenOk(c, blocks, on);
    hide Open, Groups;
  }

  /** A valid block of another state, or a blanked one, leaves the accumulator alone. */
  lemma TrackIdle(c: Config, blocks: seq<Input>, b: Input, on: bool, acc: Vec, count: nat, first: nat)
    requires Tracks(c, blocks, on, acc, count, first) && b.valid && !Contributes(c, b, on)
    ensures Tracks(c, blocks + [b], on, acc, count, first) && Finished(c, blocks + [b], on) == []
  {
    hide Open, Sum, Contributes;
    OpenNext(c, blocks, b, on);
    OpenBelow(c, blocks, on);
    SumGrows(c, blocks, b, Open(c, blocks, on));
  }

  /** An invalid block empties it. */
  lemma TrackReset(c: Config, blocks: seq<Input>, b: Input, on: bool, first: nat)
    requires !b.valid
    ensures Tracks(c, blocks + [b], on, Zero(c.size), 0, first) && Finished(c, blocks + [b], on) == []
    ensures Open(c, blocks + [b], on) == []
  {
    OpenNext(c, blocks, b, on);
    hide Open;
  }

  /** A block of its state is added, and completes the integration at the accumulation length. */
  lemma TrackAdd(c: Config, blocks: seq<Input>, b: Input, on: bool, acc: Vec, count: nat, first: nat)
    requires Tracks(c, blocks, on, acc, count, first) && Contributes(c, b, on)
    ensures var blocks', acc', first' := blocks + [b], Add(acc, b.power), if count == 0 then b.timestamp else first;
            if count + 1 >= c.accLen then
              && Finished(c, blocks', on) == [Group(on, Open(c, blocks, on) + [|blocks|])]
              && ResultOf(c, blocks', Finished(c, blocks', on)[0]) == HR.Result(first', b.timestamp, acc', on)
              && Tracks(c, blocks', on, Zero(c.size), 0, 0)
            else Finished(c, blocks', on) == [] && Tracks(c, blocks', on, acc', count + 1, first')
  {
    hide Open, Sum, Contributes, Add;
    var g, blocks' := Open(c, blocks, on), blocks + [b];
    OpenNext(c, blocks, b, on);
    OnlyValid(c, b, on);
    OpenBelow(c, blocks, on);
    SumGrows(c, blocks, b, g);
    SumAppend(c, blocks', g, |blocks|);
    SumNothing(c, blocks');
    assert g != [] ==> (g + [|blocks|])[0] == g[0];
    hide Finished;
  }

  lemma SumNothing(c: Config, blocks: seq<Input>)
    ensures Sum(c, blocks, []) == Zero(c.size)
  {
  }

  lemma ResultGrows(c: Config, blocks: seq<Input>, b: Input, g: Group)
    requires GroupOk(c, blocks, g)
    ensures ResultOf(c, blocks + [b], g) == ResultOf(c, blocks, g)
  {
    SumGrows(c, blocks, b, g.members);
    hide Sum, Contributes;
  }

  /** Results already published stay what they were; the block adds what it finishes. */
  lemma PublishedNext(c: Config, blocks: seq<Input>, b: Input, published: seq<Result>, done: seq<Group>)
    requires PublishedOk(c, blocks, published)
    requires done == Finished(c, blocks + [b], true) + Finished(c, blocks + [b], false) && |done| <= 1
    ensures PublishedOk(c, blocks + [b], published + if done == [] then [] else [ResultOf(c, blocks + [b], done[0])])
  {
    hide Groups, Finished, ResultOf, GroupOk, OpenOk, Ordered, Open;
    GroupsAreOk(c, blocks);
    var groups, blocks' := Groups(c, blocks), blocks + [b];
    GroupsAppend(c, blocks, b);
    forall k | 0 <= k < |groups| ensures ResultOf(c, blocks', groups[k]) == ResultOf(c, blocks, groups[k]) {
      ResultGrows(c, blocks, b, groups[k]);
    }
    assert Groups(c, blocks') == groups + done;
  }

  lemma GroupsAppend(c: Config, blocks: seq<Input>, b: Input)
    ensures Groups(c, blocks + [b])
         == Groups(c, blocks) + (Finished(c, blocks + [b], true) + Finished(c, blocks + [b], false))
  {
    assert (blocks + [b])[..|blocks|] == blocks;
  }

  /**
    Every result published is, term by term, the sum of one group: the accumulation length
    of valid, unblanked blocks of one noise state, with no invalid block from first to last
    and none of that state left out, stamped with the times of its first and last blocks.
   */
  lemma EveryResultIsExact(c: Config, blocks: seq<Input>, published: seq<Result>, k: nat)
    requires PublishedOk(c, blocks, published) && k < |published|
    ensures k < |Groups(c, blocks)| && GroupOk(c, blocks, Groups(c, blocks)[k])
    ensures var g, r := Groups(c, blocks)[k].members, published[k];
            && |g| == Length(c) && g[0] < |blocks| && g[|g| - 1] < |blocks|
            && r.on == Groups(c, blocks)[k].on
            && r.first == blocks[g[0]].timestamp && r.last == blocks[g[|g| - 1]].timestamp
            && |r.data| == c.size && forall i :: 0 <= i < c.size ==> r.data[i] == Total(blocks, g, i)
  {
    GroupsAreOk(c, blocks);
    hide Groups, Total, Gapless, Contributes, OpenOk, Ordered;
  }

  /** The other accumulator is not touched by a block of this one's state. */
  lemma OneState(c: Config, b: Input, on: bool)
    requires Contributes(c, b, on)
    ensures !Contributes(c, b, !on)
  {
  }

  /** Everything a block of one state does, to both accumulators and to what is published. */
  lemma BlockAdded(c: Config, blocks: seq<Input>, b: Input, on: bool, acc: Vec, count: nat, first: nat,
                   published: seq<Result>)
    requires Tracks(c, blocks, on, acc, count, first) && Contributes(c, b, on) && PublishedOk(c, blocks, published)
    ensures var blocks', acc', first' := blocks + [b], Add(acc, b.power), if count == 0 then b.timestamp else first;
            if count + 1 >= c.accLen then
              Tracks(c, blocks', on, Zero(c.size), 0, 0)
              && PublishedOk(c, blocks', published + [HR.Result(first', b.timestamp, acc', on)])
            else Tracks(c, blocks', on, acc', count + 1, first') && PublishedOk(c, blocks', published)
  {
    hide Tracks, Open, Finished, PublishedOk, Sum, Contributes, Add, ResultOf;
    TrackAdd(c, blocks, b, on, acc, count, first);
    OneState(c, b, on);
    OnlyValid(c, b, on);
    NotFinished(c, blocks, b, !on);
    PublishedNext(c, blocks, b, published, Finished(c, blocks + [b], true) + Finished(c, blocks + [b], false));
    assert published + [] == published;
  }

  lemma NotFinished(c: Config, blocks: seq<Input>, b: Input, on: bool)
    requires !Contributes(c, b, on)
    ensures Finished(c, blocks + [b], on) == []
  {
  }

  /** Nothing open needs no first timestamp. */
  lemma NoFirst(c: Config, blocks: seq<Input>, on: bool, acc: Vec, first: nat, first': nat)
    requires Tracks(c, blocks, on, acc, 0, first)
    ensures Tracks(c, blocks, on, acc, 0, first')
  {
  }

  // ------------------------------------------------------------------ what is done to the ring

  /** The steps that put a result into the ring. */
  function Putting(c: Config, r: Result): seq<HR.Action<Vec>> {
    [if c.cal then HR.FillAll(r) else HR.FillRest(r.last, r.data), HR.Expose]
  }

  /** What the worker does to the ring for the last block. */
  function BlockActions(c: Config, blocks: seq<Input>): seq<HR.Action<Vec>>
    requires blocks != []
  {
    var n := |blocks| - 1;
    var done := Finished(c, blocks, true) + Finished(c, blocks, false);
    (if !c.cal && blocks[n].valid && Open(c, blocks[..n], false) == [] then [HR.Start(blocks[n].timestamp)] else [])
    + (if done == [] then [] else Putting(c, ResultOf(c, blocks, done[0])))
  }

  /** And for all of them. */
  function WorkerActions(c: Config, blocks: seq<Input>): seq<HR.Action<Vec>> {
    if blocks == [] then [] else WorkerActions(c, blocks[..|blocks| - 1]) + BlockActions(c, blocks)
  }

  lemma ActionsNext(c: Config, blocks: seq<Input>, b: Input)
    ensures WorkerActions(c, blocks + [b]) == WorkerActions(c, blocks) + BlockActions(c, blocks + [b])
  {
    assert (blocks + [b])[..|blocks|] == blocks;
  }

  /** A block that is not used leaves the ring alone. */
  lemma QuietBlock(c: Config, blocks: seq<Input>, b: Input)
    requires !b.valid || (c.cal && b.blank)
    ensures WorkerActions(c, blocks + [b]) == WorkerActions(c, blocks)
  {
    hide WorkerActions;
    ActionsNext(c, blocks, b);
  }

  /** A block that is used starts, fills and exposes as its accumulator's counter says. */
  lemma UsedBlock(c: Config, blocks: seq<Input>, b: Input, on: bool, acc: Vec, count: nat, first: nat)
    requires Tracks(c, blocks, on, acc, count, first) && Contributes(c, b, on)
    ensures var first' := if count == 0 then b.timestamp else first;
            WorkerActions(c, blocks + [b]) == WorkerActions(c, blocks)
              + (if !c.cal && count == 0 then [HR.Start(b.timestamp)] else [])
              + (if count + 1 < c.accLen then []
                 else Putting(c, HR.Result(first', b.timestamp, Add(acc, b.power), on)))
  {
    hide WorkerActions, Finished, Open, Sum, ResultOf, Add;
    ActionsNext(c, blocks, b);
    TrackAdd(c, blocks, b, on, acc, count, first);
    NotFinished(c, blocks, b, !on);
    assert (blocks + [b])[..|blocks|] == blocks;
  }

  /** The slots, the head and the results published are those of the ring under the steps taken. */
  ghost predicate InStep(c: Config, trace: seq<HR.Action<Vec>>, ring: seq<Slot>, head: nat, published: seq<Result>,
                         started: bool) {
    var r := HR.Run(HR.New([]), trace);
    && |ring| == NUM_SLOTS && head < NUM_SLOTS
    && r.slots == ring && r.head == head && r.published == published && !r.worker.Filled?
    && (c.cal ==> r.worker.Idle?)
    && (!c.cal && started ==> r.worker == HR.Started(ring[head].result.first))
  }

  lemma InStepNew(c: Config)
    ensures InStep(c, [], HR.New<Vec>([]).slots, 0, [], false)
  {
  }

  /** Only without calibration does it matter whether an integration has started. */
  lemma InStepAny(c: Config, trace: seq<HR.Action<Vec>>, ring: seq<Slot>, head: nat, published: seq<Result>,
                  started: bool, started': bool)
    requires InStep(c, trace, ring, head, published, started) && (c.cal || !started')
    ensures InStep(c, trace, ring, head, published, started')
  {
  }

  lemma InStepStart(c: Config, trace: seq<HR.Action<Vec>>, ring: seq<Slot>, head: nat, published: seq<Result>,
                    time: nat)
    requires InStep(c, trace, ring, head, published, false) && !c.cal
    ensures InStep(c, trace + [HR.Start(time)], ring[head := ring[head].(result := ring[head].result.(first := time))],
                   head, published, true)
  {
    var r := HR.Run(HR.New([]), trace);
    HR.RunAppend(HR.New([]), trace, [HR.Start(time)]);
    var r' := HR.Step(r, HR.Start(time));
    assert HR.Run(r, [HR.Start(time)]) == HR.Run(r', []) == r';
  }

  lemma InStepPut(c: Config, trace: seq<HR.Action<Vec>>, ring: seq<Slot>, head: nat, published: seq<Result>, r: Result)
    requires InStep(c, trace, ring, head, published, !c.cal)
    requires !c.cal ==> !r.on && r.first == ring[head].result.first
    ensures InStep(c, trace + Putting(c, r), ring[head := HR.Slot(r, true)], (head + 1) % NUM_SLOTS,
                   published + [r], false)
  {
    var host := HR.Run(HR.New([]), trace);
    var fill := if c.cal then HR.FillAll(r) else HR.FillRest(r.last, r.data);
    HR.RunAppend(HR.New([]), trace, Putting(c, r));
    HR.TwoSteps(host, fill, HR.Expose);
  }

  // ------------------------------------------------------------------ the accumulators

  /** The variables of the accumulators; count is the one without calibration, over the OFF sums. */
  datatype Sums = Sums(on: Vec, idOn: nat, firstOn: nat, off: Vec, idOff: nat, firstOff: nat, count: nat)

  /** They stand for the open integrations; without calibration the slot at the head holds the first time. */
  ghost predicate SumsOk(c: Config, blocks: seq<Input>, v: Sums, headFirst: nat) {
    && (c.cal ==> v.count == 0 && Tracks(c, blocks, true, v.on, v.idOn, v.firstOn)
                  && Tracks(c, blocks, false, v.off, v.idOff, v.firstOff))
    && (!c.cal ==> v.idOn == 0 && v.idOff == 0 && v.on == Zero(c.size)
                   && Tracks(c, blocks, false, v.off, v.count, headFirst))
  }

  function Cleared(c: Config): Sums { Sums(Zero(c.size), 0, 0, Zero(c.size), 0, 0, 0) }

  /** The exact results are published, by the steps the blocks call for. */
  ghost predicate OutputsOk(c: Config, blocks: seq<Input>, published: seq<Result>, trace: seq<HR.Action<Vec>>) {
    PublishedOk(c, blocks, published) && trace == WorkerActions(c, blocks)
  }

  ghost predicate NothingOpen(c: Config, blocks: seq<Input>) {
    Open(c, blocks, true) == [] && Open(c, blocks, false) == []
  }

  lemma NoBlocks(c: Config, headFirst: nat)
    ensures SumsOk(c, [], Cleared(c), headFirst) && OutputsOk(c, [], [], [])
  {
  }

  /** An invalid block: nothing is open, nothing published, and the ring is left alone. */
  lemma GapBlock(c: Config, blocks: seq<Input>, b: Input, v: Sums, headFirst: nat, published: seq<Result>,
                 trace: seq<HR.Action<Vec>>)
    requires !b.valid && SumsOk(c, blocks, v, headFirst) && OutputsOk(c, blocks, published, trace)
    ensures SumsOk(c, blocks + [b], Cleared(c), headFirst) && NothingOpen(c, blocks + [b])
    ensures NothingOpen(c, blocks) ==> SumsOk(c, blocks + [b], v, headFirst) && v.count == 0
    ensures OutputsOk(c, blocks + [b], published, trace)
  {
    hide Open, Finished, PublishedOk, WorkerActions, Sum, Zero;
    SumNothing(c, blocks);
    QuietBlock(c, blocks, b);
    TrackReset(c, blocks, b, true, v.firstOn);
    TrackReset(c, blocks, b, false, v.firstOff);
    TrackReset(c, blocks, b, false, headFirst);
    PublishedNext(c, blocks, b, published, []);
    assert published + [] == published;
  }

  /** A blanked block changes nothing. */
  lemma SkippedBlock(c: Config, blocks: seq<Input>, b: Input, v: Sums, headFirst: nat, published: seq<Result>,
                     trace: seq<HR.Action<Vec>>)
    requires c.cal && b.valid && b.blank && SumsOk(c, blocks, v, headFirst) && OutputsOk(c, blocks, published, trace)
    ensures SumsOk(c, blocks + [b], v, headFirst) && OutputsOk(c, blocks + [b], published, trace)
  {
    hide Open, Finished, PublishedOk, WorkerActions, Tracks;
    QuietBlock(c, blocks, b);
    TrackIdle(c, blocks, b, true, v.on, v.idOn, v.firstOn);
    TrackIdle(c, blocks, b, false, v.off, v.idOff, v.firstOff);
    PublishedNext(c, blocks, b, published, []);
    assert published + [] == published;
  }

  /** A block that is used, with the result it completes or without one. */
  lemma UsedOutputs(c: Config, blocks: seq<Input>, b: Input, on: bool, acc: Vec, count: nat, first: nat,
                    published: seq<Result>, trace: seq<HR.Action<Vec>>)
    requires Tracks(c, blocks, on, acc, count, first) && Contributes(c, b, on) && OutputsOk(c, blocks, published, trace)
    ensures var blocks', acc', first' := blocks + [b], Add(acc, b.power), if count == 0 then b.timestamp else first;
            var r, start := HR.Result(first', b.timestamp, acc', on),
                            if !c.cal && count == 0 then [HR.Start(b.timestamp)] else [];
            if count + 1 >= c.accLen then
              && Tracks(c, blocks', on, Zero(c.size), 0, 0)
              && OutputsOk(c, blocks', published + [r], trace + start + Putting(c, r))
            else Tracks(c, blocks', on, acc', count + 1, first') && OutputsOk(c, blocks', published, trace + start)
  {
    hide Tracks, PublishedOk, Contributes, Add, Zero, WorkerActions, Putting;
    BlockAdded(c, blocks, b, on, acc, count, first, published);
    UsedBlock(c, blocks, b, on, acc, count, first);
  }

  /** A block of the ON state, under calibration. */
  lemma OnBlock(c: Config, blocks: seq<Input>, b: Input, v: Sums, headFirst: nat, published: seq<Result>,
                trace: seq<HR.Action<Vec>>)
    requires c.cal && Contributes(c, b, true) && SumsOk(c, blocks, v, headFirst)
             && OutputsOk(c, blocks, published, trace)
    ensures var blocks', acc := blocks + [b], Add(v.on, b.power);
            var first := if v.idOn == 0 then b.timestamp else v.firstOn;
            var r := HR.Result(first, b.timestamp, acc, true);
            if v.idOn + 1 >= c.accLen then
              && (forall h :: SumsOk(c, blocks', v.(on := Zero(c.size), idOn := 0, firstOn := 0), h))
              && OutputsOk(c, blocks', published + [r], trace + Putting(c, r))
            else
              && SumsOk(c, blocks', v.(on := acc, idOn := v.idOn + 1, firstOn := first), headFirst)
              && OutputsOk(c, blocks', published, trace)
  {
    hide Tracks, OutputsOk, Contributes, Add, Zero, Putting;
    UsedOutputs(c, blocks, b, true, v.on, v.idOn, v.firstOn, published, trace);
    assert trace + [] == trace;
    OneState(c, b, true);
    OnlyValid(c, b, true);
    TrackIdle(c, blocks, b, false, v.off, v.idOff, v.firstOff);
  }

  /** A block of the OFF state, under calibration. */
  lemma OffBlock(c: Config, blocks: seq<Input>, b: Input, v: Sums, headFirst: nat, published: seq<Result>,
                 trace: seq<HR.Action<Vec>>)
    requires c.cal && Contributes(c, b, false) && SumsOk(c, blocks, v, headFirst)
             && OutputsOk(c, blocks, published, trace)
    ensures var blocks', acc := blocks + [b], Add(v.off, b.power);
            var first := if v.idOff == 0 then b.timestamp else v.firstOff;
            var r := HR.Result(first, b.timestamp, acc, false);
            if v.idOff + 1 >= c.accLen then
              && (forall h :: SumsOk(c, blocks', v.(off := Zero(c.size), idOff := 0, firstOff := 0), h))
              && OutputsOk(c, blocks', published + [r], trace + Putting(c, r))
            else
              && SumsOk(c, blocks', v.(off := acc, idOff := v.idOff + 1, firstOff := first), headFirst)
              && OutputsOk(c, blocks', published, trace)
  {
    hide Tracks, OutputsOk, Contributes, Add, Zero, Putting;
    UsedOutputs(c, blocks, b, false, v.off, v.idOff, v.firstOff, published, trace);
    assert trace + [] == trace;
    OneState(c, b, false);
    OnlyValid(c, b, false);
    TrackIdle(c, blocks, b, true, v.on, v.idOn, v.firstOn);
  }

  /** A valid block without calibration. */
  lemma PlainBlock(c: Config, blocks: seq<Input>, b: Input, v: Sums, headFirst: nat, published: seq<Result>,
                   trace: seq<HR.Action<Vec>>)
    requires !c.cal && b.valid && SumsOk(c, blocks, v, headFirst) && OutputsOk(c, blocks, published, trace)
    ensures var blocks', acc := blocks + [b], Add(v.off, b.power);
            var first := if v.count == 0 then b.timestamp else headFirst;
            var r, started := HR.Result(first, b.timestamp, acc, false),
                              trace + if v.count == 0 then [HR.Start(b.timestamp)] else [];
            if v.count + 1 >= c.accLen then
              && (forall h :: SumsOk(c, blocks', v.(off := Zero(c.size), count := 0), h))
              && OutputsOk(c, blocks', published + [r], started + Putting(c, r))
            else
              && SumsOk(c, blocks', v.(off := acc, count := v.count + 1), first)
              && OutputsOk(c, blocks', published, started)
  {
    hide Tracks, OutputsOk, Add, Zero, Putting;
    UsedOutputs(c, blocks, b, false, v.off, v.count, headFirst, published, trace);
    if v.count + 1 >= c.accLen {
      forall h: nat ensures Tracks(c, blocks + [b], false, Zero(c.size), 0, h) {
        NoFirst(c, blocks + [b], false, Zero(c.size), 0, h);
      }
    }
  }

  class StokesAccumulator {
    const c: Config
    var accOn: Vec
    var accOff: Vec
    var idOn: nat
    var idOff: nat
    var id: nat                    // the counter without calibration, over accOff
    var firstOn: nat
    var firstOff: nat
    var resetForGap: bool
    var ring: seq<Slot>
    var head: nat
    ghost var blocks: seq<Input>
    ghost var published: seq<Result>
    ghost var trace: seq<HR.Action<Vec>>   // the steps taken on the ring

    ghost function Value(): Sums
      reads this
    {
      Sums(accOn, idOn, firstOn, accOff, idOff, firstOff, id)
    }

    ghost predicate Valid()
      reads this
    {
      && |ring| == NUM_SLOTS && head < NUM_SLOTS
      && SumsOk(c, blocks, Value(), ring[head].result.first) && (resetForGap ==> NothingOpen(c, blocks))
      && OutputsOk(c, blocks, published, trace)
      && RingOk(ring, head, published) && InStep(c, trace, ring, head, published, id > 0)
    }

    constructor (c: Config)
      ensures Valid() && this.c == c && blocks == [] && published == []
    {
      this.c := c;
      accOn, accOff, idOn, idOff, id, firstOn, firstOff := Zero(c.size), Zero(c.size), 0, 0, 0, 0, 0;
      resetForGap, head := false, 0;
      ring := HR.New<Vec>([]).slots;
      blocks, published, trace := [], [], [];
      new;
      InStepNew(c);
      NoBlocks(c, 0);
    }

    /** Filling the slot at the head and exposing it to the sender, warning or not if it was in use. */
    method Publish(first: nat, last: nat, data: Vec, on: bool)
      requires RingOk(ring, head, published) && InStep(c, trace, ring, head, published, !c.cal)
      requires !c.cal ==> !on && head < |ring| && first == ring[head].result.first
      modifies this`ring, this`head, this`published, this`trace
      ensures RingOk(ring, head, published) && InStep(c, trace, ring, head, published, false)
      ensures |ring| == NUM_SLOTS && head < NUM_SLOTS
      ensures published == old(published) + [HR.Result(first, last, data, on)]
      ensures trace == old(trace) + Putting(c, HR.Result(first, last, data, on))
    {
      hide RingOk, Place, InStep, Putting;
      RingShape(ring, head, published);
      var r := HR.Result(first, last, data, on);
      RingPublish(ring, head, published, r);
      InStepPut(c, trace, ring, head, published, r);
      ring := ring[head := HR.Slot(r, true)];
      head := (head + 1) % NUM_SLOTS;
      published, trace := published + [r], trace + Putting(c, r);
      RingShape(ring, head, published);
    }

    method Clear()
      modifies this`accOn, this`accOff, this`id, this`idOn, this`idOff, this`firstOn, this`firstOff
      ensures Value() == Cleared(c)
    {
      accOn, accOff := Zero(c.size), Zero(c.size);
      id, idOn, idOff := 0, 0, 0;
      firstOn, firstOff := 0, 0;
    }

    /** A block whose filter-bank output is invalid. */
    method Gap(b: Input)
      requires Valid() && !b.valid
      modifies this
      ensures Valid() && blocks == old(blocks) + [b] && published == old(published)
    {
      hide SumsOk, OutputsOk, NothingOpen, RingOk, InStep, Zero;
      GapBlock(c, blocks, b, Value(), ring[head].result.first, published, trace);
      InStepAny(c, trace, ring, head, published, id > 0, false);
      blocks := blocks + [b];
      if !resetForGap {
        Clear();
        resetForGap := true;
      }
    }

    method AccumulateOn(b: Input)
      modifies this`resetForGap, this`accOn, this`idOn, this`firstOn
      ensures !resetForGap && accOn == Add(old(accOn), b.power) && idOn == old(idOn) + 1
      ensures firstOn == if old(idOn) == 0 then b.timestamp else old(firstOn)
    {
      resetForGap := false;
      if idOn == 0 { firstOn := b.timestamp; }
      idOn := idOn + 1;
      accOn := Add(accOn, b.power);
    }

    method RestartOn()
      modifies this`accOn, this`idOn, this`firstOn
      ensures accOn == Zero(c.size) && idOn == 0 && firstOn == 0
    {
      accOn, idOn, firstOn := Zero(c.size), 0, 0;
    }

    /** A block of the ON state, under calibration. */
    method AddOn(b: Input)
      requires Valid() && c.cal && Contributes(c, b, true)
      modifies this
      ensures Valid() && blocks == old(blocks) + [b]
    {
      hide OutputsOk, Tracks, NothingOpen, RingOk, InStep, Zero, Add, Contributes, Putting;
      OnBlock(c, blocks, b, Value(), ring[head].result.first, published, trace);
      blocks := blocks + [b];
      AccumulateOn(b);
      if idOn >= c.accLen {
        Publish(firstOn, b.timestamp, accOn, true);
        RestartOn();
      }
    }

    method AccumulateOff(b: Input)
      modifies this`resetForGap, this`accOff, this`idOff, this`firstOff
      ensures !resetForGap && accOff == Add(old(accOff), b.power) && idOff == old(idOff) + 1
      ensures firstOff == if old(idOff) == 0 then b.timestamp else old(firstOff)
    {
      resetForGap := false;
      if idOff == 0 { firstOff := b.timestamp; }
      idOff := idOff + 1;
      accOff := Add(accOff, b.power);
    }

    method RestartOff()
      modifies this`accOff, this`idOff, this`firstOff
      ensures accOff == Zero(c.size) && idOff == 0 && firstOff == 0
    {
      accOff, idOff, firstOff := Zero(c.size), 0, 0;
    }

    /** A block of the OFF state, under calibration. */
    method AddOff(b: Input)
      requires Valid() && c.cal && Contributes(c, b, false)
      modifies this
      ensures Valid() && blocks == old(blocks) + [b]
    {
      hide OutputsOk, Tracks, NothingOpen, RingOk, InStep, Zero, Add, Contributes, Putting;
      OffBlock(c, blocks, b, Value(), ring[head].result.first, published, trace);
      blocks := blocks + [b];
      AccumulateOff(b);
      if idOff >= c.accLen {
        Publish(firstOff, b.timestamp, accOff, false);
        RestartOff();
      }
    }

    method AccumulatePlain(b: Input)
      requires !c.cal && RingOk(ring, head, published) && InStep(c, trace, ring, head, published, id > 0)
      modifies this`resetForGap, this`accOff, this`id, this`ring, this`trace
      ensures !resetForGap && accOff == Add(old(accOff), b.power) && id == old(id) + 1
      ensures RingOk(ring, head, published) && InStep(c, trace, ring, head, published, true)
      ensures |ring| == |old(ring)| && head < |ring|
      ensures ring[head].result.first == if old(id) == 0 then b.timestamp else old(ring)[head].result.first
      ensures trace == old(trace) + if old(id) == 0 then [HR.Start(b.timestamp)] else []
    {
      hide RingOk, InStep, Add;
      resetForGap := false;
      StartIfNew(b.timestamp);
      id := id + 1;
      accOff := Add(accOff, b.power);
    }

    method RestartPlain()
      modifies this`accOff, this`id
      ensures accOff == Zero(c.size) && id == 0
    {
      id := 0;
      accOff := Zero(c.size);
    }

    /** A block without calibration: its time is written straight into the slot at the head. */
    method AddPlain(b: Input)
      requires Valid() && !c.cal && b.valid
      modifies this
      ensures Valid() && blocks == old(blocks) + [b]
    {
      hide SumsOk, OutputsOk, NothingOpen, RingOk, InStep, Zero, Add, Putting;
      PlainBlock(c, blocks, b, Value(), ring[head].result.first, published, trace);
      blocks := blocks + [b];
      AccumulatePlain(b);
      if id >= c.accLen {
        Publish(ring[head].result.first, b.timestamp, accOff, false);
        RestartPlain();
      }
    }

    /** The start time of a new integration goes straight into the slot at the head. */
    method StartIfNew(time: nat)
      requires !c.cal && RingOk(ring, head, published) && InStep(c, trace, ring, head, published, id > 0)
      modifies this`ring, this`trace
      ensures RingOk(ring, head, published) && InStep(c, trace, ring, head, published, true)
      ensures |ring| == |old(ring)| && head < |ring|
      ensures ring[head].result.first == if id == 0 then time else old(ring)[head].result.first
      ensures trace == old(trace) + if id == 0 then [HR.Start(time)] else []
    {
      hide RingOk, InStep;
      RingShape(ring, head, published);
      if id == 0 {
        StartAtHead(ring, head, published, time);
        InStepStart(c, trace, ring, head, published, time);
        ring := ring[head := ring[head].(result := ring[head].result.(first := time))];
        trace := trace + [HR.Start(time)];
      }
    }

    /** A valid block near a noise-source transition is not used. */
    method Skip(b: Input)
      requires Valid() && c.cal && b.valid && b.blank
      modifies this
      ensures Valid() && blocks == old(blocks) + [b] && published == old(published)
    {
      hide SumsOk, OutputsOk, NothingOpen, RingOk, InStep;
      SkippedBlock(c, blocks, b, Value(), ring[head].result.first, published, trace);
      blocks := blocks + [b];
      resetForGap := false;
    }

    method StokesAcc(b: Input)
      requires Valid()
      modifies this
      ensures Valid() && blocks == old(blocks) + [b]
    {
      hide Valid;
      if !b.valid {
        Gap(b);
      } else if c.cal {
        if b.blank { Skip(b); } else if b.on { AddOn(b); } else { AddOff(b); }
      } else {
        AddPlain(b);
      }
    }

    /** A whole observation. */
    method Observe(inputs: seq<Input>)
      requires Valid() && blocks == []
      modifies this
      ensures Valid() && blocks == inputs
    {
      hide Valid;
      for k := 0 to |inputs|
        invariant Valid() && blocks == inputs[..k]
      {
        assert inputs[..k + 1] == inputs[..k] + [inputs[k]];
        StokesAcc(inputs[k]);
      }
      assert inputs[..|inputs|] == inputs;
    }
  }

  /** The result in the slot at the head is the newest. */
  lemma RingPublish(ring: seq<Slot>, head: nat, published: seq<Result>, r: Result)
    requires RingOk(ring, head, published)
    ensures RingOk(ring[head := HR.Slot(r, true)], (head + 1) % NUM_SLOTS, published + [r])
  {
    var n := |published|;
    HR.WrapNext(n);
    hide Place;
    forall k: nat | n + 1 < k + NUM_SLOTS && k < n ensures Place(k, NUM_SLOTS) != Place(n, NUM_SLOTS) {
      PlacesDiffer(k, n, NUM_SLOTS);
    }
  }

  lemma RingShape(ring: seq<Slot>, head: nat, published: seq<Result>)
    requires RingOk(ring, head, published)
    ensures |ring| == NUM_SLOTS && head < NUM_SLOTS
  {
  }

  /** Writing into the slot at the head disturbs no result the ring still owes. */
  lemma StartAtHead(ring: seq<Slot>, head: nat, published: seq<Result>, time: nat)
    requires RingOk(ring, head, published)
    ensures RingOk(ring[head := ring[head].(result := ring[head].result.(first := time))], head, published)
  {
    hide Place;
    forall k: nat | |published| < k + NUM_SLOTS && k < |published| ensures Place(k, NUM_SLOTS) != head {
      PlacesDiffer(k, |published|, NUM_SLOTS);
    }
  }
}
