/**
  Which blocks an integration is made of, said on the sequence of filter-bank outputs:
  valid, unblanked blocks of one noise state, cut into groups of the accumulation length,
  starting over after every invalid block.
 */
module Integration {

  type Vec = seq<real>

  /** One filter-bank output: its time, validity, noise state, and the powers its kernels add. */
  datatype Input = Input(timestamp: nat, valid: bool, on: bool, blank: bool, power: Vec)

  datatype Config = Config(cal: bool, accLen: nat, size: nat)

  /** The number of blocks per result; a length of zero publishes every block, as one does. */
  function Length(c: Config): (n: nat)
    ensures n >= 1
  {
    if c.accLen == 0 then 1 else c.accLen
  }

  /** The block is added to the ON or to the OFF accumulator; without calibration all are OFF. */
  predicate Contributes(c: Config, b: Input, on: bool) {
    b.valid && if c.cal then !b.blank && b.on == on else !on
  }

  /** The blocks of the unfinished integration of a noise state. */
  function Open(c: Config, blocks: seq<Input>, on: bool): seq<nat> {
    if blocks == [] then []
    else
      var n := |blocks| - 1;
      var before := Open(c, blocks[..n], on);
      if !blocks[n].valid then []
      else if !Contributes(c, blocks[n], on) then before
      else if |before| + 1 >= c.accLen then []
      else before + [n]
  }

  /** A finished integration. */
  datatype Group = Group(on: bool, members: seq<nat>)

  /** The group finished by the last block, if it finishes one. */
  function Finished(c: Config, blocks: seq<Input>, on: bool): seq<Group>
    requires blocks != []
  {
    var n := |blocks| - 1;
    var before := Open(c, blocks[..n], on);
    if Contributes(c, blocks[n], on) && |before| + 1 >= c.accLen then [Group(on, before + [n])] else []
  }

  function Groups(c: Config, blocks: seq<Input>): seq<Group> {
    if blocks == [] then []
    else Groups(c, blocks[..|blocks| - 1]) + Finished(c, blocks, true) + Finished(c, blocks, false)
  }

  // ------------------------------------------------------------------ what an integration is made of

  /** The indices are increasing and each is a block of the given state. */
  ghost predicate Picks(c: Config, blocks: seq<Input>, on: bool, g: seq<nat>) {
    && (forall i, j :: 0 <= i < j < |g| ==> g[i] < g[j])
    && (forall i :: 0 <= i < |g| ==> g[i] < |blocks| && Contributes(c, blocks[g[i]], on))
  }

  /** From its first block up to end, nothing is invalid and no block of the state is left out. */
  ghost predicate Gapless(c: Config, blocks: seq<Input>, on: bool, g: seq<nat>, end: nat) {
    forall m :: 0 <= m < |blocks| && g != [] && g[0] <= m < end ==>
      blocks[m].valid && (Contributes(c, blocks[m], on) ==> m in g)
  }

  ghost predicate GroupOk(c: Config, blocks: seq<Input>, g: Group) {
    && |g.members| == Length(c) && Picks(c, blocks, g.on, g.members)
    && Gapless(c, blocks, g.on, g.members, g.members[|g.members| - 1] + 1)
  }

  ghost predicate OpenOk(c: Config, blocks: seq<Input>, on: bool) {
    var g := Open(c, blocks, on);
    |g| < Length(c) && Picks(c, blocks, on, g) && Gapless(c, blocks, on, g, |blocks|)
  }

  /** Earlier integrations of a state end before later ones, and before the open one, begin. */
  ghost predicate Ordered(groups: seq<Group>, open: seq<nat>, on: bool) {
    && (forall i, j :: 0 <= i < j < |groups| && groups[i].on == on && groups[j].on == on ==>
         Before(groups[i].members, groups[j].members))
    && (forall i :: 0 <= i < |groups| && groups[i].on == on ==> Before(groups[i].members, open))
  }

  ghost predicate Before(g: seq<nat>, h: seq<nat>) {
    forall x, y :: x in g && y in h ==> x < y
  }

  ghost predicate GroupsOk(c: Config, blocks: seq<Input>) {
    var groups := Groups(c, blocks);
    && (forall k :: 0 <= k < |groups| ==> GroupOk(c, blocks, groups[k]))
    && OpenOk(c, blocks, true) && OpenOk(c, blocks, false)
    && Ordered(groups, Open(c, blocks, true), true) && Ordered(groups, Open(c, blocks, false), false)
  }

  lemma PicksGrows(c: Config, blocks: seq<Input>, b: Input, on: bool, g: seq<nat>)
    requires Picks(c, blocks, on, g)
    ensures Picks(c, blocks + [b], on, g)
    ensures Contributes(c, b, on) ==> Picks(c, blocks + [b], on, g + [|blocks|])
  {
    hide Contributes;
  }

  lemma GroupGrows(c: Config, blocks: seq<Input>, b: Input, g: Group)
    requires GroupOk(c, blocks, g)
    ensures GroupOk(c, blocks + [b], g)
  {
    hide Contributes;
  }

  /** The open integration after one more block. */
  lemma OpenNext(c: Config, blocks: seq<Input>, b: Input, on: bool)
    ensures var g := Open(c, blocks, on);
            && Open(c, blocks + [b], on) ==
                 (if !b.valid then [] else if !Contributes(c, b, on) then g
                  else if |g| + 1 >= c.accLen then [] else g + [|blocks|])
            && Finished(c, blocks + [b], on) ==
                 (if Contributes(c, b, on) && |g| + 1 >= c.accLen then [Group(on, g + [|blocks|])] else [])
  {
    assert (blocks + [b])[..|blocks|] == blocks;
  }

  lemma GaplessGrows(c: Config, blocks: seq<Input>, b: Input, on: bool, g: seq<nat>)
    requires Gapless(c, blocks, on, g, |blocks|) && b.valid
    ensures !Contributes(c, b, on) ==> Gapless(c, blocks + [b], on, g, |blocks| + 1)
    ensures Contributes(c, b, on) && (g != [] ==> g[0] < |blocks|) ==>
            Gapless(c, blocks + [b], on, g + [|blocks|], |blocks| + 1)
  {
    hide Contributes;
    var blocks' := blocks + [b];
    forall m | 0 <= m < |blocks| ensures blocks'[m] == blocks[m] {}
    var h := g + [|blocks|];
    assert forall m :: m in g ==> m in h;
    assert |blocks| in h;
  }

  lemma OpenKeeps(c: Config, blocks: seq<Input>, b: Input, on: bool)
    requires OpenOk(c, blocks, on)
    ensures OpenOk(c, blocks + [b], on)
    ensures forall k :: 0 <= k < |Finished(c, blocks + [b], on)| ==>
            GroupOk(c, blocks + [b], Finished(c, blocks + [b], on)[k])
  {
    hide Contributes, Picks, Open, Finished, Gapless;
    var g := Open(c, blocks, on);
    OpenNext(c, blocks, b, on);
    PicksGrows(c, blocks, b, on, g);
    NothingPicked(c, blocks + [b], on);
    OnlyValid(c, b, on);
    if b.valid {
      PicksBelow(c, blocks, on, g);
      GaplessGrows(c, blocks, b, on, g);
    }
  }

  lemma PicksBelow(c: Config, blocks: seq<Input>, on: bool, g: seq<nat>)
    requires Picks(c, blocks, on, g)
    ensures g != [] ==> g[0] < |blocks|
  {
  }

  lemma OnlyValid(c: Config, b: Input, on: bool)
    ensures Contributes(c, b, on) ==> b.valid
  {
  }

  lemma NothingPicked(c: Config, blocks: seq<Input>, on: bool)
    ensures Picks(c, blocks, on, []) && Gapless(c, blocks, on, [], |blocks|)
  {
  }

  lemma OrderKeeps(c: Config, blocks: seq<Input>, b: Input, on: bool)
    requires OpenOk(c, blocks, on) && Ordered(Groups(c, blocks), Open(c, blocks, on), on)
    requires forall k :: 0 <= k < |Groups(c, blocks)| ==> GroupOk(c, blocks, Groups(c, blocks)[k])
    ensures Ordered(Groups(c, blocks) + Finished(c, blocks + [b], on), Open(c, blocks + [b], on), on)
  {
    hide Contributes, Open, Finished, Groups, Gapless;
    OpenNext(c, blocks, b, on);
    forall k, x | 0 <= k < |Groups(c, blocks)| && x in Groups(c, blocks)[k].members ensures x < |blocks| {
      assert GroupOk(c, blocks, Groups(c, blocks)[k]);
    }
    hide GroupOk, OpenOk;
  }

  /** Groups of the other state do not matter to the order. */
  lemma OrderInsert(before: seq<Group>, other: seq<Group>, after: seq<Group>, open: seq<nat>, on: bool)
    requires Ordered(before + after, open, on) && forall k :: 0 <= k < |other| ==> other[k].on != on
    ensures Ordered(before + other + after, open, on)
    ensures Ordered(before + after + other, open, on)
  {
    hide Before;
    var g, h := before + after, before + other + after;
    forall i | 0 <= i < |h| && h[i].on == on
      ensures var k := if i < |before| then i else i - |other|; 0 <= k < |g| && h[i] == g[k]
    {
    }
  }

  lemma {:induction false} GroupsAreOk(c: Config, blocks: seq<Input>)
    ensures GroupsOk(c, blocks)
    decreases |blocks|
  {
    if blocks != [] {
      var n := |blocks| - 1;
      var init, b := blocks[..n], blocks[n];
      assert blocks == init + [b];
      GroupsAreOk(c, init);
      GroupsNext(c, init, b);
    }
  }

  lemma GroupsNext(c: Config, init: seq<Input>, b: Input)
    requires GroupsOk(c, init)
    ensures GroupsOk(c, init + [b])
  {
    hide OpenOk, GroupOk, Open, Finished, Ordered;
    var blocks := init + [b];
    var g := Groups(c, init);
    assert blocks[..|init|] == init;
    var f1, f0 := Finished(c, blocks, true), Finished(c, blocks, false);
    assert Groups(c, blocks) == g + f1 + f0;
    OpenKeeps(c, init, b, true);
    OpenKeeps(c, init, b, false);
    OrderKeeps(c, init, b, true);
    OrderKeeps(c, init, b, false);
    FinishedState(c, blocks);
    OrderInsert(g, f0, f1, Open(c, blocks, true), true);
    OrderInsert(g, f1, f0, Open(c, blocks, false), false);
    forall k | 0 <= k < |g| ensures GroupOk(c, blocks, g[k]) { GroupGrows(c, init, b, g[k]); }
  }

  lemma FinishedState(c: Config, blocks: seq<Input>)
    requires blocks != []
    ensures forall k :: 0 <= k < |Finished(c, blocks, true)| ==> Finished(c, blocks, true)[k].on
    ensures forall k :: 0 <= k < |Finished(c, blocks, false)| ==> !Finished(c, blocks, false)[k].on
  {
  }

  /** No block is used in two results. */
  lemma NoBlockTwice(c: Config, blocks: seq<Input>, i: nat, j: nat, m: nat)
    requires i < j < |Groups(c, blocks)|
    requires m in Groups(c, blocks)[i].members
    ensures m !in Groups(c, blocks)[j].members
  {
    GroupsAreOk(c, blocks);
    var g, h := Groups(c, blocks)[i], Groups(c, blocks)[j];
    hide Groups, Open;
    if g.on == h.on {
      assert Before(g.members, h.members);
    } else {
      assert GroupOk(c, blocks, g) && GroupOk(c, blocks, h);
    }
  }

  // ------------------------------------------------------------------ conservation

  /** Blocks of a state, and results of it, since the last invalid block. */
  function BlocksSinceGap(c: Config, blocks: seq<Input>, on: bool): nat {
    if blocks == [] || !blocks[|blocks| - 1].valid then 0
    else BlocksSinceGap(c, blocks[..|blocks| - 1], on) + if Contributes(c, blocks[|blocks| - 1], on) then 1 else 0
  }

  function ResultsSinceGap(c: Config, blocks: seq<Input>, on: bool): nat {
    if blocks == [] || !blocks[|blocks| - 1].valid then 0
    else ResultsSinceGap(c, blocks[..|blocks| - 1], on) + |Finished(c, blocks, on)|
  }

  lemma SinceGapNext(c: Config, blocks: seq<Input>, b: Input, on: bool)
    ensures BlocksSinceGap(c, blocks + [b], on)
         == if !b.valid then 0 else BlocksSinceGap(c, blocks, on) + if Contributes(c, b, on) then 1 else 0
    ensures ResultsSinceGap(c, blocks + [b], on)
         == if !b.valid then 0 else ResultsSinceGap(c, blocks, on) + |Finished(c, blocks + [b], on)|
  {
    assert (blocks + [b])[..|blocks|] == blocks;
    hide Open, Finished, Contributes;
  }

  lemma OpenShort(c: Config, blocks: seq<Input>, on: bool)
    ensures |Open(c, blocks, on)| < Length(c)
  {
    GroupsAreOk(c, blocks);
    hide Open, Groups, Gapless, Picks, Ordered, GroupOk;
    assert OpenOk(c, blocks, on);
  }

  /** Between gaps every block of a state is in a result or in the open integration. */
  lemma {:induction false} Conservation(c: Config, blocks: seq<Input>, on: bool)
    ensures BlocksSinceGap(c, blocks, on) == Length(c) * ResultsSinceGap(c, blocks, on) + |Open(c, blocks, on)|
    decreases |blocks|
  {
    if blocks != [] {
      hide Open, Finished, Contributes, BlocksSinceGap, ResultsSinceGap;
      var n := |blocks| - 1;
      var init, b := blocks[..n], blocks[n];
      assert blocks == init + [b];
      Conservation(c, init, on);
      OpenShort(c, init, on);
      OpenNext(c, init, b, on);
      SinceGapNext(c, init, b, on);
      OnlyValid(c, b, on);
      Distribute(Length(c), ResultsSinceGap(c, init, on));
    }
  }

  lemma Distribute(n: nat, r: nat)
    ensures n * (r + 1) == n * r + n && n * (r + 0) == n * r && n * 0 == 0
  {
  }
}
