/**
  A queue built for no elements starts with a block of one slot, which can never hold one.
  Once a second block has been added, the producer comes round to the slotless block, and
  the consumer's assertion that the next block is not empty fails.
 */
module BlockQueueZero {
  import opened Storage
  import opened BlockQueue
  import BlockQueueConstruction

  lemma Masks()
    ensures Inc(0, 1) == 0 && Inc(0, 2) == 1 && Inc(1, 2) == 0
  {
  }

  ghost predicate Reaches<T(!new)>(s: State<T>, r: State<T>) {
    exists actions: seq<Action<T>> :: Run(s, actions) == r
  }

  lemma Two<T(!new)>(s: State<T>, a: Action<T>, b: Action<T>)
    ensures Reaches(s, Step(Step(s, a), b))
  {
    assert Run(Step(Step(s, a), b), []) == Step(Step(s, a), b);
    assert Run(Step(s, a), [b]) == Run(Step(Step(s, a), b), []);
    assert Run(s, [a, b]) == Run(Step(s, a), [b]);
  }

  lemma {:induction false} RunAppend<T>(s: State<T>, xs: seq<Action<T>>, ys: seq<Action<T>>)
    ensures Run(s, xs + ys) == Run(Run(s, xs), ys)
    decreases xs
  {
    if xs == [] {
      assert xs + ys == ys;
    } else {
      assert (xs + ys)[0] == xs[0] && (xs + ys)[1..] == xs[1..] + ys;
      RunAppend(Step(s, xs[0]), xs[1..], ys);
    }
  }

  lemma Chain<T(!new)>(s: State<T>, r: State<T>, q: State<T>)
    requires Reaches(s, r) && Reaches(r, q)
    ensures Reaches(s, q)
  {
    var xs :| Run(s, xs) == r;
    var ys :| Run(r, ys) == q;
    RunAppend(s, xs, ys);
  }

  // The states two steps apart: three enqueues, one dequeue in between, two after.
  function Z0<T>(m: nat, x: T): State<T> {
    State([Block(0, 0, 0, 0, 0, [Raw])], 0, 0, 1, m,
          PIdle(NotCalled), CIdle(NotAsked), [], [], false)
  }
  function Z1<T>(m: nat, x: T): State<T> {
    State([Block(0, 0, 0, 0, 0, [Raw])], 0, 0, 1, m,
          PBusy(x, true, 0, PTail(0)), CIdle(NotAsked), [], [], false)
  }
  function Z2<T>(m: nat, x: T): State<T> {
    State([Block(0, 0, 0, 0, 0, [Raw])], 0, 0, 1, m,
          PBusy(x, true, 0, PFull(0)), CIdle(NotAsked), [], [], false)
  }
  function Z3<T>(m: nat, x: T): State<T> {
    State([Block(0, 0, 0, 0, 0, [Raw]), Block(0, 1, 1, 0, 0, [Val(x), Raw])], 0, 0, 2, m,
          PBusy(x, true, 0, PLink(0, 1)), CIdle(NotAsked), [], [], false)
  }
  function Z4<T>(m: nat, x: T): State<T> {
    State([Block(0, 0, 0, 0, 1, [Raw]), Block(0, 1, 1, 0, 0, [Val(x), Raw])], 0, 1, 2, m,
          PIdle(Accepted), CIdle(NotAsked), [x], [], false)
  }
  function Z5<T>(m: nat, x: T): State<T> {
    State([Block(0, 0, 0, 0, 1, [Raw]), Block(0, 1, 1, 0, 0, [Val(x), Raw])], 0, 1, 2, m,
          PIdle(Accepted), CFront(0), [x], [], false)
  }
  function Z6<T>(m: nat, x: T): State<T> {
    State([Block(0, 0, 0, 0, 1, [Raw]), Block(0, 1, 1, 0, 0, [Val(x), Raw])], 0, 1, 2, m,
          PIdle(Accepted), CCheckTail(0, false), [x], [], false)
  }
  function Z7<T>(m: nat, x: T): State<T> {
    State([Block(0, 0, 0, 0, 1, [Raw]), Block(0, 1, 1, 0, 0, [Val(x), Raw])], 0, 1, 2, m,
          PIdle(Accepted), CAgainTail(0), [x], [], false)
  }
  function Z8<T>(m: nat, x: T): State<T> {
    State([Block(0, 0, 0, 0, 1, [Raw]), Block(0, 1, 1, 0, 0, [Val(x), Raw])], 0, 1, 2, m,
          PIdle(Accepted), CNext(0), [x], [], false)
  }
  function Z9<T>(m: nat, x: T): State<T> {
    State([Block(0, 0, 0, 0, 1, [Raw]), Block(0, 1, 1, 0, 0, [Val(x), Raw])], 0, 1, 2, m,
          PIdle(Accepted), CNextTail(0, 1, 0), [x], [], false)
  }
  function Z10<T>(m: nat, x: T): State<T> {
    State([Block(0, 0, 0, 0, 1, [Raw]), Block(0, 1, 1, 0, 0, [Val(x), Raw])], 1, 1, 2, m,
          PIdle(Accepted), CRead(1, 0), [x], [], false)
  }
  function Z11<T>(m: nat, x: T): State<T> {
    State([Block(0, 0, 0, 0, 1, [Raw]), Block(1, 1, 1, 0, 0, [Raw, Raw])], 1, 1, 2, m,
          PIdle(Accepted), CIdle(Got(x)), [x], [x], false)
  }
  function Z12<T>(m: nat, x: T): State<T> {
    State([Block(0, 0, 0, 0, 1, [Raw]), Block(1, 1, 1, 0, 0, [Raw, Raw])], 1, 1, 2, m,
          PBusy(x, true, 0, PTail(1)), CIdle(Got(x)), [x], [x], false)
  }
  function Z13<T>(m: nat, x: T): State<T> {
    State([Block(0, 0, 0, 0, 1, [Raw]), Block(1, 1, 1, 1, 0, [Raw, Raw])], 1, 1, 2, m,
          PBusy(x, true, 0, PWrite(1, 1)), CIdle(Got(x)), [x], [x], false)
  }
  function Z14<T>(m: nat, x: T): State<T> {
    State([Block(0, 0, 0, 0, 1, [Raw]), Block(1, 1, 0, 1, 0, [Raw, Val(x)])], 1, 1, 2, m,
          PIdle(Accepted), CIdle(Got(x)), [x, x], [x], false)
  }
  function Z15<T>(m: nat, x: T): State<T> {
    State([Block(0, 0, 0, 0, 1, [Raw]), Block(1, 1, 0, 1, 0, [Raw, Val(x)])], 1, 1, 2, m,
          PBusy(x, true, 1, PTail(1)), CIdle(Got(x)), [x, x], [x], false)
  }
  function Z16<T>(m: nat, x: T): State<T> {
    State([Block(0, 0, 0, 0, 1, [Raw]), Block(1, 1, 0, 1, 0, [Raw, Val(x)])], 1, 1, 2, m,
          PBusy(x, true, 1, PFull(1)), CIdle(Got(x)), [x, x], [x], false)
  }
  function Z17<T>(m: nat, x: T): State<T> {
    State([Block(0, 0, 0, 0, 1, [Raw]), Block(1, 1, 0, 1, 0, [Raw, Val(x)])], 1, 1, 2, m,
          PBusy(x, true, 1, PNextFront(1, 0)), CIdle(Got(x)), [x, x], [x], false)
  }
  function Z18<T>(m: nat, x: T): State<T> {
    State([Block(0, 0, 0, 0, 1, [Raw]), Block(1, 1, 0, 1, 0, [Raw, Val(x)])], 1, 1, 2, m,
          PBusy(x, true, 1, PNextWrite(1, 0, 0)), CIdle(Got(x)), [x, x], [x], false)
  }
  function Z19<T>(m: nat, x: T): State<T> {
    State([Block(0, 0, 0, 0, 1, [Val(x)]), Block(1, 1, 0, 1, 0, [Raw, Val(x)])], 1, 1, 2, m,
          PBusy(x, true, 1, PNextPublish(1, 0)), CIdle(Got(x)), [x, x], [x], false)
  }
  function Z20<T>(m: nat, x: T): State<T> {
    State([Block(0, 0, 0, 0, 1, [Val(x)]), Block(1, 1, 0, 1, 0, [Raw, Val(x)])], 1, 0, 2, m,
          PIdle(Accepted), CStart, [x, x, x], [x], false)
  }
  function Z21<T>(m: nat, x: T): State<T> {
    State([Block(0, 0, 0, 0, 1, [Val(x)]), Block(1, 1, 0, 1, 0, [Raw, Val(x)])], 1, 0, 2, m,
          PIdle(Accepted), CReload(1, 1), [x, x, x], [x], false)
  }
  function Z22<T>(m: nat, x: T): State<T> {
    State([Block(0, 0, 0, 0, 1, [Val(x)]), Block(1, 0, 0, 1, 0, [Raw, Raw])], 1, 0, 2, m,
          PIdle(Accepted), CPublish(1, 1, x), [x, x, x], [x], false)
  }
  function Z23<T>(m: nat, x: T): State<T> {
    State([Block(0, 0, 0, 0, 1, [Val(x)]), Block(0, 0, 0, 1, 0, [Raw, Raw])], 1, 0, 2, m,
          PIdle(Accepted), CStart, [x, x, x], [x, x], false)
  }
  function Z24<T>(m: nat, x: T): State<T> {
    State([Block(0, 0, 0, 0, 1, [Val(x)]), Block(0, 0, 0, 1, 0, [Raw, Raw])], 1, 0, 2, m,
          PIdle(Accepted), CReload(1, 0), [x, x, x], [x, x], false)
  }
  function Z25<T>(m: nat, x: T): State<T> {
    State([Block(0, 0, 0, 0, 1, [Val(x)]), Block(0, 0, 0, 1, 0, [Raw, Raw])], 1, 0, 2, m,
          PIdle(Accepted), CAgain, [x, x, x], [x, x], false)
  }
  function Z26<T>(m: nat, x: T): State<T> {
    State([Block(0, 0, 0, 0, 1, [Val(x)]), Block(0, 0, 0, 1, 0, [Raw, Raw])], 1, 0, 2, m,
          PIdle(Accepted), CAgainFront(1, 0), [x, x, x], [x, x], false)
  }
  function Z27<T>(m: nat, x: T): State<T> {
    State([Block(0, 0, 0, 0, 1, [Val(x)]), Block(0, 0, 0, 1, 0, [Raw, Raw])], 1, 0, 2, m,
          PIdle(Accepted), CNextFront(1, 0), [x, x, x], [x, x], false)
  }
  function Z28<T>(m: nat, x: T): State<T> {
    State([Block(0, 0, 0, 0, 1, [Val(x)]), Block(0, 0, 0, 1, 0, [Raw, Raw])], 1, 0, 2, m,
          PIdle(Accepted), CNextTail(1, 0, 0), [x, x, x], [x, x], true)
  }

  lemma Eval1<T>(m: nat, x: T)
    requires m >= 2
    ensures Step(Step(Z0(m, x), Enqueue(x, true)), ProducerStep(true)) == Z1(m, x)
  {
    hide Inc;
    Masks();
  }

  lemma Eval2<T>(m: nat, x: T)
    requires m >= 2
    ensures Step(Step(Z1(m, x), ProducerStep(true)), ProducerStep(true)) == Z2(m, x)
  {
    hide Inc;
    Masks();
  }

  lemma Eval3<T>(m: nat, x: T)
    requires m >= 2
    ensures Step(Step(Z2(m, x), ProducerStep(true)), ProducerStep(true)) == Z3(m, x)
  {
    Eval3Full(m, x);
    hide Inc;
    assert MakeBlock<T>(2).data[0 := Val(x)] == [Val(x), Raw];
  }

  lemma Eval3Full<T>(m: nat, x: T)
    ensures Step(Z2(m, x), ProducerStep(true)) == Z2(m, x).(producer := PBusy(x, true, 0, PAlloc(0)))
  {
    hide Inc, MakeBlock;
    Masks();
  }

  lemma Eval4<T>(m: nat, x: T)
    requires m >= 2
    ensures Step(Step(Z3(m, x), ProducerStep(true)), ProducerStep(true)) == Z4(m, x)
  {
    hide Inc, MakeBlock;
    Eval4Link(m, x);
  }

  lemma Eval4Link<T>(m: nat, x: T)
    requires m >= 2
    ensures Step(Z3(m, x), ProducerStep(true))
         == Z4(m, x).(tailBlock := 0, producer := PBusy(x, true, 0, PAllocPublish(0, 1)), sent := [])
  {
    hide Inc, MakeBlock;
    Masks();
  }

  lemma Eval5<T>(m: nat, x: T)
    requires m >= 2
    ensures Step(Step(Z4(m, x), Dequeue), ConsumerStep) == Z5(m, x)
  {
    hide Inc;
    Masks();
  }

  lemma Eval6<T>(m: nat, x: T)
    requires m >= 2
    ensures Step(Step(Z5(m, x), ConsumerStep), ConsumerStep) == Z6(m, x)
  {
    hide Inc;
    Masks();
  }

  lemma Eval7<T>(m: nat, x: T)
    requires m >= 2
    ensures Step(Step(Z6(m, x), ConsumerStep), ConsumerStep) == Z7(m, x)
  {
    hide Inc;
    Masks();
  }

  lemma Eval8<T>(m: nat, x: T)
    requires m >= 2
    ensures Step(Step(Z7(m, x), ConsumerStep), ConsumerStep) == Z8(m, x)
  {
    hide Inc;
    Masks();
  }

  lemma Eval9<T>(m: nat, x: T)
    requires m >= 2
    ensures Step(Step(Z8(m, x), ConsumerStep), ConsumerStep) == Z9(m, x)
  {
    hide Inc;
    Masks();
  }

  lemma Eval10<T>(m: nat, x: T)
    requires m >= 2
    ensures Step(Step(Z9(m, x), ConsumerStep), ConsumerStep) == Z10(m, x)
  {
    hide Inc;
    Masks();
  }

  lemma Eval11<T>(m: nat, x: T)
    requires m >= 2
    ensures Step(Step(Z10(m, x), ConsumerStep), ConsumerStep) == Z11(m, x)
  {
    hide Inc;
    Masks();
    var d: seq<Cell<T>> := [Val(x), Raw];
    assert d[0 := Raw] == [Raw, Raw];
  }

  lemma Eval12<T>(m: nat, x: T)
    requires m >= 2
    ensures Step(Step(Z11(m, x), Enqueue(x, true)), ProducerStep(true)) == Z12(m, x)
  {
    hide Inc;
    Masks();
  }

  lemma Eval13<T>(m: nat, x: T)
    requires m >= 2
    ensures Step(Step(Z12(m, x), ProducerStep(true)), ProducerStep(true)) == Z13(m, x)
  {
    hide Inc;
    Masks();
  }

  lemma Eval14<T>(m: nat, x: T)
    requires m >= 2
    ensures Step(Step(Z13(m, x), ProducerStep(true)), ProducerStep(true)) == Z14(m, x)
  {
    hide Inc;
    Masks();
    var d: seq<Cell<T>> := [Raw, Raw];
    assert d[1 := Val(x)] == [Raw, Val(x)];
  }

  lemma Eval15<T>(m: nat, x: T)
    requires m >= 2
    ensures Step(Step(Z14(m, x), Enqueue(x, true)), ProducerStep(true)) == Z15(m, x)
  {
    hide Inc;
    Masks();
  }

  lemma Eval16<T>(m: nat, x: T)
    requires m >= 2
    ensures Step(Step(Z15(m, x), ProducerStep(true)), ProducerStep(true)) == Z16(m, x)
  {
    hide Inc;
    Masks();
  }

  lemma Eval17<T>(m: nat, x: T)
    requires m >= 2
    ensures Step(Step(Z16(m, x), ProducerStep(true)), ProducerStep(true)) == Z17(m, x)
  {
    hide Inc;
    Masks();
  }

  lemma Eval18<T>(m: nat, x: T)
    requires m >= 2
    ensures Step(Step(Z17(m, x), ProducerStep(true)), ProducerStep(true)) == Z18(m, x)
  {
    hide Inc;
    Masks();
  }

  lemma Eval19<T>(m: nat, x: T)
    requires m >= 2
    ensures Step(Step(Z18(m, x), ProducerStep(true)), ProducerStep(true)) == Z19(m, x)
  {
    hide Inc;
    Masks();
    var d: seq<Cell<T>> := [Raw];
    assert d[0 := Val(x)] == [Val(x)];
  }

  lemma Eval20<T>(m: nat, x: T)
    requires m >= 2
    ensures Step(Step(Z19(m, x), ProducerStep(true)), Dequeue) == Z20(m, x)
  {
    hide Inc;
    Masks();
  }

  lemma Eval21<T>(m: nat, x: T)
    requires m >= 2
    ensures Step(Step(Z20(m, x), ConsumerStep), ConsumerStep) == Z21(m, x)
  {
    hide Inc;
    Masks();
  }

  lemma Eval22<T>(m: nat, x: T)
    requires m >= 2
    ensures Step(Step(Z21(m, x), ConsumerStep), ConsumerStep) == Z22(m, x)
  {
    hide Inc;
    Masks();
    var d: seq<Cell<T>> := [Raw, Val(x)];
    assert d[1 := Raw] == [Raw, Raw];
  }

  lemma Eval23<T>(m: nat, x: T)
    requires m >= 2
    ensures Step(Step(Z22(m, x), ConsumerStep), Dequeue) == Z23(m, x)
  {
    hide Inc;
    Masks();
  }

  lemma Eval24<T>(m: nat, x: T)
    requires m >= 2
    ensures Step(Step(Z23(m, x), ConsumerStep), ConsumerStep) == Z24(m, x)
  {
    hide Inc;
    Masks();
  }

  lemma Eval25<T>(m: nat, x: T)
    requires m >= 2
    ensures Step(Step(Z24(m, x), ConsumerStep), ConsumerStep) == Z25(m, x)
  {
    hide Inc;
    Masks();
  }

  lemma Eval26<T>(m: nat, x: T)
    requires m >= 2
    ensures Step(Step(Z25(m, x), ConsumerStep), ConsumerStep) == Z26(m, x)
  {
    hide Inc;
    Masks();
  }

  lemma Eval27<T>(m: nat, x: T)
    requires m >= 2
    ensures Step(Step(Z26(m, x), ConsumerStep), ConsumerStep) == Z27(m, x)
  {
    hide Inc;
    Masks();
  }

  lemma Eval28<T>(m: nat, x: T)
    requires m >= 2
    ensures Step(Step(Z27(m, x), ConsumerStep), ConsumerStep) == Z28(m, x)
  {
    hide Inc;
    Masks();
  }

  lemma Part1<T(!new)>(m: nat, x: T) requires m >= 2 ensures Reaches(Z0(m, x), Z7(m, x)) {
    hide Step, Reaches;
    Eval1(m, x); Two(Z0(m, x), Enqueue(x, true), ProducerStep(true));
    Eval2(m, x); Two(Z1(m, x), ProducerStep(true), ProducerStep(true));
    Chain(Z0(m, x), Z1(m, x), Z2(m, x));
    Eval3(m, x); Two(Z2(m, x), ProducerStep(true), ProducerStep(true));
    Chain(Z0(m, x), Z2(m, x), Z3(m, x));
    Eval4(m, x); Two(Z3(m, x), ProducerStep(true), ProducerStep(true));
    Chain(Z0(m, x), Z3(m, x), Z4(m, x));
    Eval5(m, x); Two(Z4(m, x), Dequeue, ConsumerStep);
    Chain(Z0(m, x), Z4(m, x), Z5(m, x));
    Eval6(m, x); Two(Z5(m, x), ConsumerStep, ConsumerStep);
    Chain(Z0(m, x), Z5(m, x), Z6(m, x));
    Eval7(m, x); Two(Z6(m, x), ConsumerStep, ConsumerStep);
    Chain(Z0(m, x), Z6(m, x), Z7(m, x));
  }

  lemma Part2<T(!new)>(m: nat, x: T) requires m >= 2 ensures Reaches(Z7(m, x), Z14(m, x)) {
    hide Step, Reaches;
    Eval8(m, x); Two(Z7(m, x), ConsumerStep, ConsumerStep);
    Eval9(m, x); Two(Z8(m, x), ConsumerStep, ConsumerStep);
    Chain(Z7(m, x), Z8(m, x), Z9(m, x));
    Eval10(m, x); Two(Z9(m, x), ConsumerStep, ConsumerStep);
    Chain(Z7(m, x), Z9(m, x), Z10(m, x));
    Eval11(m, x); Two(Z10(m, x), ConsumerStep, ConsumerStep);
    Chain(Z7(m, x), Z10(m, x), Z11(m, x));
    Eval12(m, x); Two(Z11(m, x), Enqueue(x, true), ProducerStep(true));
    Chain(Z7(m, x), Z11(m, x), Z12(m, x));
    Eval13(m, x); Two(Z12(m, x), ProducerStep(true), ProducerStep(true));
    Chain(Z7(m, x), Z12(m, x), Z13(m, x));
    Eval14(m, x); Two(Z13(m, x), ProducerStep(true), ProducerStep(true));
    Chain(Z7(m, x), Z13(m, x), Z14(m, x));
  }

  lemma Part3<T(!new)>(m: nat, x: T) requires m >= 2 ensures Reaches(Z14(m, x), Z21(m, x)) {
    hide Step, Reaches;
    Eval15(m, x); Two(Z14(m, x), Enqueue(x, true), ProducerStep(true));
    Eval16(m, x); Two(Z15(m, x), ProducerStep(true), ProducerStep(true));
    Chain(Z14(m, x), Z15(m, x), Z16(m, x));
    Eval17(m, x); Two(Z16(m, x), ProducerStep(true), ProducerStep(true));
    Chain(Z14(m, x), Z16(m, x), Z17(m, x));
    Eval18(m, x); Two(Z17(m, x), ProducerStep(true), ProducerStep(true));
    Chain(Z14(m, x), Z17(m, x), Z18(m, x));
    Eval19(m, x); Two(Z18(m, x), ProducerStep(true), ProducerStep(true));
    Chain(Z14(m, x), Z18(m, x), Z19(m, x));
    Eval20(m, x); Two(Z19(m, x), ProducerStep(true), Dequeue);
    Chain(Z14(m, x), Z19(m, x), Z20(m, x));
    Eval21(m, x); Two(Z20(m, x), ConsumerStep, ConsumerStep);
    Chain(Z14(m, x), Z20(m, x), Z21(m, x));
  }

  lemma Part4<T(!new)>(m: nat, x: T) requires m >= 2 ensures Reaches(Z21(m, x), Z28(m, x)) {
    hide Step, Reaches;
    Eval22(m, x); Two(Z21(m, x), ConsumerStep, ConsumerStep);
    Eval23(m, x); Two(Z22(m, x), ConsumerStep, Dequeue);
    Chain(Z21(m, x), Z22(m, x), Z23(m, x));
    Eval24(m, x); Two(Z23(m, x), ConsumerStep, ConsumerStep);
    Chain(Z21(m, x), Z23(m, x), Z24(m, x));
    Eval25(m, x); Two(Z24(m, x), ConsumerStep, ConsumerStep);
    Chain(Z21(m, x), Z24(m, x), Z25(m, x));
    Eval26(m, x); Two(Z25(m, x), ConsumerStep, ConsumerStep);
    Chain(Z21(m, x), Z25(m, x), Z26(m, x));
    Eval27(m, x); Two(Z26(m, x), ConsumerStep, ConsumerStep);
    Chain(Z21(m, x), Z26(m, x), Z27(m, x));
    Eval28(m, x); Two(Z27(m, x), ConsumerStep, ConsumerStep);
    Chain(Z21(m, x), Z27(m, x), Z28(m, x));
  }

  /** The state the constructor leaves for size zero leads to a failed assertion. */
  lemma SizeZeroFails<T(!new)>(m: nat, x: T)
    requires m >= 2
    ensures exists actions: seq<Action<T>> :: Run(BlockQueueConstruction.Start([MakeBlock<T>(1)], 1, m), actions).fault
  {
    hide Run, Step;
    Part1(m, x); Part2(m, x); Part3(m, x); Part4(m, x);
    Chain(Z0(m, x), Z7(m, x), Z14(m, x));
    Chain(Z0(m, x), Z14(m, x), Z21(m, x));
    Chain(Z0(m, x), Z21(m, x), Z28(m, x));
    assert MakeBlock<T>(1).data == [Raw];
    assert BlockQueueConstruction.Start([MakeBlock<T>(1)], 1, m) == Z0(m, x);
    var actions :| Run(Z0(m, x), actions) == Z28(m, x);
    assert Run(Z0(m, x), actions).fault;
  }
}
