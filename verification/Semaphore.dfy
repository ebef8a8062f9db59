/**
  The lightweight semaphore: an atomic count in front of a kernel semaphore, for one
  waiting thread and one signalling thread. Each atomic operation is one step; an action
  sequence is an interleaving of the two threads and of the timer.
 */
module Semaphore {

  /** tryWait, or wait with a timeout in microseconds; a negative timeout waits for ever. */
  datatype WaitMode = TryOnly | Timed(timeout: int)

  datatype WaitOutcome = NotCalled | Acquired | Failed

  datatype Waiter =
    | WIdle(outcome: WaitOutcome)
    | WTry(mode: WaitMode)                      // tryWait: about to load the count
    | WTryTake                                  // saw a positive count: about to decrement
    | WSpin(left: nat, timeout: int)            // about to load, or to give up spinning
    | WSpinTake
    | WSub(timeout: int)                        // about to decrement unconditionally
    | WKernel(timeout: int)                     // in the kernel semaphore's wait or timed_wait
    | WRollback                                 // about to increment back
    | WRedo                                     // about to decrement again
    | WKernelTry                                // about to try the kernel semaphore

  datatype Signaller =
    | SIdle
    | SAdd(n: nat)                              // about to add to the count
    | SPost                                     // about to post the kernel semaphore

  /** The semaphore, its two threads, and the history counters `signalled` and `acquired`. */
  datatype Sema = Sema(
    count: int, kernel: nat, waiter: Waiter, signaller: Signaller,
    initial: int, signalled: nat, acquired: nat, fault: bool)

  datatype Action =
    | Wait(mode: WaitMode)
    | WaiterStep(luck: bool)     // luck: a kernel wait that could return either way succeeds
    | Signal(n: nat)
    | SignallerStep

  const SPIN: nat := 1024

  /** One more than the largest count a signed 64-bit word holds. */
  const HALF_WORD: int := 0x8000_0000_0000_0000

  /** A sum or difference of two words, as the word it wraps to. */
  function Signed(x: int): int {
    if x >= HALF_WORD then x - 2 * HALF_WORD else if x < -HALF_WORD then x + 2 * HALF_WORD else x
  }

  /** The constructor, which asserts that the count is not negative. */
  function New(initialCount: int): Sema {
    Sema(initialCount, 0, WIdle(NotCalled), SIdle, initialCount, 0, 0, initialCount < 0)
  }

  /** The wait returns true. */
  function Succeed(s: Sema): Sema {
    s.(waiter := WIdle(Acquired), acquired := s.acquired + 1)
  }

  function WaiterMove(s: Sema, luck: bool): Sema {
    match s.waiter
    case WIdle(_) => s
    case WTry(mode) =>
      if s.count > 0 then s.(waiter := WTryTake)
      else if mode.TryOnly? then s.(waiter := WIdle(Failed))
      else s.(waiter := WSpin(SPIN, mode.timeout))
    case WTryTake => Succeed(s.(count := Signed(s.count - 1)))
    case WSpin(left, timeout) =>
      if left == 0 then s.(waiter := WSub(timeout))
      else if s.count > 0 then s.(waiter := WSpinTake)
      else s.(waiter := WSpin(left - 1, timeout))
    case WSpinTake => Succeed(s.(count := Signed(s.count - 1)))
    case WSub(timeout) =>
      var s' := s.(count := Signed(s.count - 1));
      if s.count > 0 then Succeed(s')
      else if timeout == 0 then s'.(waiter := WRollback)
      else s'.(waiter := WKernel(timeout))
    case WKernel(timeout) =>
      if luck then (if s.kernel > 0 then Succeed(s.(kernel := s.kernel - 1)) else s)   // keeps waiting
      else s.(waiter := WRollback)                                                     // timed out, or failed
    case WRollback =>
      var s' := s.(count := Signed(s.count + 1));
      if s.count < 0 then s'.(waiter := WIdle(Failed)) else s'.(waiter := WRedo)
    case WRedo =>
      var s' := s.(count := Signed(s.count - 1));
      if s.count > 0 then s'.(waiter := WKernelTry) else s'.(waiter := WRollback)
    case WKernelTry =>
      if s.kernel > 0 then Succeed(s.(kernel := s.kernel - 1)) else s.(waiter := WRollback)
  }

  function SignallerMove(s: Sema): Sema {
    match s.signaller
    case SIdle => s
    case SAdd(n) =>
      s.(count := Signed(s.count + n), signalled := s.signalled + n,
         fault := s.fault || s.count < -1,       // assert(oldCount >= -1)
         signaller := if s.count < 0 then SPost else SIdle)
    case SPost => s.(kernel := s.kernel + 1, signaller := SIdle)
  }

  function Step(s: Sema, a: Action): Sema {
    match a
    case Wait(mode) => if s.waiter.WIdle? then s.(waiter := WTry(mode)) else s
    case WaiterStep(luck) => WaiterMove(s, luck)
    case Signal(n) => if s.signaller.SIdle? then s.(signaller := SAdd(n)) else s
    case SignallerStep => SignallerMove(s)
  }

  function Run(s: Sema, actions: seq<Action>): Sema
    decreases actions
  {
    if actions == [] then s else Run(Step(s, actions[0]), actions[1..])
  }

  // ------------------------------------------------------------------ the invariant

  /** The waiter has decremented the count without having acquired. */
  function Owed(w: Waiter): nat {
    if w.WKernel? || w.WRollback? || w.WKernelTry? then 1 else 0
  }

  /** Kernel posts made or about to be made, and not yet taken. */
  function Token(s: Sema): nat {
    s.kernel + (if s.signaller.SPost? then 1 else 0)
  }

  /** Permits given and not acquired, and what the signalling thread is about to add. */
  function Permits(s: Sema): int { s.initial + s.signalled - s.acquired }

  function Adding(s: Sema): nat { if s.signaller.SAdd? then s.signaller.n else 0 }

  ghost predicate Inv(s: Sema) {
    && !s.fault
    && s.count == s.initial + s.signalled - s.acquired - Owed(s.waiter)
    && s.count >= -1 && Permits(s) + Adding(s) < HALF_WORD
    && (s.signaller.SAdd? ==> s.signaller.n >= 1)
    && (s.waiter.WTryTake? || s.waiter.WSpinTake? ==> s.count >= 1)
    && (Owed(s.waiter) == 1 ==> Token(s) == if s.count >= 0 then 1 else 0)
    && (s.waiter.WRedo? ==> Token(s) == 1 && s.count >= 1)
    && (Owed(s.waiter) == 0 && !s.waiter.WRedo? ==> Token(s) == 0 && s.count >= 0)
  }

  /** A signal adds at least one, and no more than a word can hold beside the permits there are. */
  ghost predicate RealSignal(s: Sema, a: Action) {
    a.Signal? && s.signaller.SIdle? ==> a.n >= 1 && Permits(s) + a.n < HALF_WORD
  }

  /** The counts of the signals called, in order, and their sum. */
  function Calls(actions: seq<Action>): seq<nat> {
    if actions == [] then []
    else (if actions[0].Signal? then [actions[0].n] else []) + Calls(actions[1..])
  }

  function Sum(ks: seq<nat>): nat {
    if ks == [] then 0 else ks[0] + Sum(ks[1..])
  }

  ghost predicate Positive(ks: seq<nat>) { forall i :: 0 <= i < |ks| ==> ks[i] >= 1 }

  /** All the signals still to come are real, whatever is acquired meanwhile. */
  ghost predicate RealSignals(s: Sema, actions: seq<Action>) {
    Positive(Calls(actions)) && Permits(s) + Adding(s) + Sum(Calls(actions)) < HALF_WORD
  }

  lemma NewInv(initialCount: int)
    ensures Inv(New(initialCount)) <==> 0 <= initialCount < HALF_WORD
  {
  }

  lemma StepKeeps(s: Sema, a: Action)
    requires Inv(s) && RealSignal(s, a)
    ensures Inv(Step(s, a)) && Step(s, a).acquired >= s.acquired
    ensures Step(s, a).initial == s.initial
  {
  }

  /** A step of the waiting thread: one more acquired, or a failure seen with no permit left. */
  lemma WaitEffect(s: Sema, luck: bool)
    requires Inv(s) && !s.waiter.WIdle?
    ensures var s' := Step(s, WaiterStep(luck));
            && Inv(s') && s'.initial == s.initial && s'.signalled == s.signalled && s'.signaller == s.signaller
            && s'.acquired == s.acquired + (if s'.waiter == WIdle(Acquired) then 1 else 0)
            && (s'.waiter == WIdle(Failed) ==> s'.acquired == s'.initial + s'.signalled)
            && s'.waiter != WIdle(NotCalled)
  {
    StepKeeps(s, WaiterStep(luck));
  }

  /** Starting a wait, from rest. */
  lemma WaitStarts(s: Sema, mode: WaitMode)
    requires Inv(s) && s.waiter.WIdle?
    ensures var s' := Step(s, Wait(mode)); Inv(s') && s' == s.(waiter := s'.waiter) && !s'.waiter.WIdle?
  {
  }

  /** Starting a signal of one, from rest. */
  lemma SignalStarts(s: Sema)
    requires Inv(s) && s.signaller.SIdle? && Permits(s) + 1 < HALF_WORD
    ensures var s' := Step(s, Signal(1)); Inv(s') && s' == s.(signaller := SAdd(1))
  {
  }

  /** A step of the signalling thread: the addition, or the kernel post that follows it. */
  lemma SignalEffect(s: Sema)
    requires Inv(s) && !s.signaller.SIdle? && (s.signaller.SAdd? ==> s.signaller.n == 1)
    ensures var s' := Step(s, SignallerStep);
            && Inv(s') && s'.initial == s.initial && s'.acquired == s.acquired && s'.waiter == s.waiter
            && s'.signalled == s.signalled + (if s.signaller.SAdd? then 1 else 0)
            && !s'.signaller.SAdd? && (s.signaller.SPost? ==> s'.signaller.SIdle?)
  {
    StepKeeps(s, SignallerStep);
  }

  /** A tryWait that finds a permit, step by step. */
  lemma TryTakes(s: Sema)
    requires s.waiter.WIdle? && 0 < s.count < HALF_WORD
    ensures var s1 := Step(s, Wait(TryOnly));
            && s1 == s.(waiter := WTry(TryOnly))
            && Step(s1, WaiterStep(true)) == s.(waiter := WTryTake)
            && Step(s.(waiter := WTryTake), WaiterStep(true))
               == s.(waiter := WIdle(Acquired), count := s.count - 1, acquired := s.acquired + 1)
  {
  }

  /** A signal with nobody waiting, step by step. */
  lemma SignalAdds(s: Sema)
    requires s.signaller.SIdle? && 0 <= s.count < HALF_WORD - 1
    ensures Step(s, Signal(1)) == s.(signaller := SAdd(1))
    ensures Step(s.(signaller := SAdd(1)), SignallerStep) == s.(count := s.count + 1, signalled := s.signalled + 1)
  {
  }

  lemma NoFault(s: Sema)
    requires Inv(s)
    ensures !s.fault
  {
  }

  /** Acquisitions never outrun signals. */
  lemma NeverOveracquired(s: Sema)
    requires Inv(s)
    ensures s.acquired <= s.initial + s.signalled
  {
  }

  /** One action uses up its part of the allowance. */
  lemma StillReal(s: Sema, actions: seq<Action>)
    requires Inv(s) && actions != [] && RealSignals(s, actions)
    ensures RealSignal(s, actions[0]) && RealSignals(Step(s, actions[0]), actions[1..])
  {
    var a, rest := actions[0], Calls(actions[1..]);
    if a.Signal? {
      var calls := Calls(actions);
      assert calls[0] == a.n && calls[1..] == rest;
    } else {
      assert Calls(actions) == rest;
    }
    hide Calls;
    StepKeepsPermits(s, a);
  }

  lemma StepKeepsPermits(s: Sema, a: Action)
    requires Inv(s)
    ensures Permits(Step(s, a)) + Adding(Step(s, a)) <= Permits(s) + Adding(s) + (if a.Signal? then a.n else 0)
  {
  }

  lemma {:induction false} RunKeeps(s: Sema, actions: seq<Action>)
    requires Inv(s) && RealSignals(s, actions)
    ensures Inv(Run(s, actions)) && Run(s, actions).acquired >= s.acquired
    ensures Run(s, actions).initial == s.initial
    decreases actions
  {
    if actions != [] {
      hide RealSignals, Inv, RealSignal, Step;
      StillReal(s, actions);
      StepKeeps(s, actions[0]);
      RunKeeps(Step(s, actions[0]), actions[1..]);
    }
  }

  /**
    The count never drops below -1, the internal assertion holds, waits that succeed never
    exceed the initial count plus what was signalled, and the kernel semaphore never holds
    more than the one post its waiter is owed.
   */
  predicate Safe(initialCount: int, s: Sema) {
    && !s.fault && s.count >= -1
    && s.acquired <= initialCount + s.signalled
    && s.kernel <= 1
    && (s.waiter.WIdle? ==> s.count == initialCount + s.signalled - s.acquired && s.kernel == 0)
  }

  /** In every interleaving whose signals are real, the semaphore is safe. */
  lemma SemaphoreIsSafe(initialCount: nat, actions: seq<Action>)
    requires initialCount < HALF_WORD && RealSignals(New(initialCount), actions)
    ensures Safe(initialCount, Run(New(initialCount), actions))
  {
    RunKeeps(New(initialCount), actions);
  }

  // ------------------------------------------------------------------ failed waits leave no trace

  /** The same history with the waiting thread's actions left out. */
  function Erase(actions: seq<Action>): seq<Action> {
    if actions == [] then []
    else if actions[0].Wait? || actions[0].WaiterStep? then Erase(actions[1..])
    else [actions[0]] + Erase(actions[1..])
  }

  /** r is e plus a waiting thread that has not been signalled. */
  ghost predicate OnlyWaiting(r: Sema, e: Sema) {
    && Token(r) == 0 && e.waiter.WIdle?
    && r.count == e.count - Owed(r.waiter) && r.kernel == e.kernel && r.signaller == e.signaller
    && r.signalled == e.signalled
  }

  lemma TokenStep(r: Sema, a: Action)
    requires Inv(r) && RealSignal(r, a) && Token(r) == 1
    ensures Step(r, a).acquired > r.acquired || Token(Step(r, a)) == 1
  {
  }

  /** Once a post is on its way, only acquiring it ends the wait. */
  lemma {:induction false} TokenStays(r: Sema, actions: seq<Action>)
    requires Inv(r) && RealSignals(r, actions) && Token(r) == 1
    ensures Run(r, actions).acquired > r.acquired || Token(Run(r, actions)) == 1
    decreases actions
  {
    if actions != [] {
      hide Inv, RealSignals, RealSignal, Step, Token;
      var r' := Step(r, actions[0]);
      StillReal(r, actions);
      StepKeeps(r, actions[0]);
      TokenStep(r, actions[0]);
      if r'.acquired > r.acquired {
        RunKeeps(r', actions[1..]);
      } else {
        TokenStays(r', actions[1..]);
      }
    }
  }

  predicate OfWaiter(a: Action) { a.Wait? || a.WaiterStep? }

  lemma WaitingStep(r: Sema, e: Sema, a: Action)
    requires Inv(r) && RealSignal(r, a) && OnlyWaiting(r, e)
    ensures var r' := Step(r, a);
            || r'.acquired > r.acquired || Token(r') == 1
            || OnlyWaiting(r', if OfWaiter(a) then e else Step(e, a))
  {
    StepKeeps(r, a);
  }

  lemma {:induction false} Simulated(r: Sema, e: Sema, actions: seq<Action>)
    requires Inv(r) && RealSignals(r, actions) && OnlyWaiting(r, e)
    ensures var r', e' := Run(r, actions), Run(e, Erase(actions));
            r'.acquired > r.acquired || Token(r') == 1 || OnlyWaiting(r', e')
    decreases actions
  {
    if actions != [] {
      hide Inv, RealSignals, RealSignal, Step, Token, OnlyWaiting;
      var a := actions[0];
      var r1 := Step(r, a);
      StillReal(r, actions);
      StepKeeps(r, a);
      WaitingStep(r, e, a);
      var e1 := if OfWaiter(a) then e else Step(e, a);
      if !OfWaiter(a) {
        assert Erase(actions)[0] == a && Erase(actions)[1..] == Erase(actions[1..]);
      }
      if r1.acquired > r.acquired {
        RunKeeps(r1, actions[1..]);
      } else if Token(r1) == 1 {
        TokenStays(r1, actions[1..]);
      } else {
        Simulated(r1, e1, actions[1..]);
      }
    }
  }

  /** Leaving out the waiting thread gives the same count, kernel semaphore and signaller. */
  predicate SameWithoutWaits(s: Sema, actions: seq<Action>) {
    var r, e := Run(s, actions), Run(s, Erase(actions));
    r.count == e.count && r.kernel == e.kernel && r.signaller == e.signaller && r.signalled == e.signalled
  }

  /** Every wait of the run has returned, and none succeeded. */
  predicate AllFailed(s: Sema, actions: seq<Action>) {
    s.waiter.WIdle? && Run(s, actions).waiter.WIdle? && Run(s, actions).acquired == s.acquired
  }

  /**
    Waits that all return false, in any interleaving with signals, leave the count, the
    kernel semaphore and the signaller exactly as if they had never been made.
   */
  lemma FailedWaitsAreInvisible(s: Sema, actions: seq<Action>)
    requires Inv(s) && RealSignals(s, actions) && AllFailed(s, actions)
    ensures SameWithoutWaits(s, actions)
  {
    RunKeeps(s, actions);
    Simulated(s, s, actions);
  }

  // ------------------------------------------------------------------ signals of nothing

  lemma {:induction false} RunAppend(s: Sema, xs: seq<Action>, ys: seq<Action>)
    ensures Run(s, xs + ys) == Run(Run(s, xs), ys)
    decreases xs
  {
    hide Step;
    if xs == [] {
      assert xs + ys == ys;
    } else {
      assert (xs + ys)[0] == xs[0] && (xs + ys)[1..] == xs[1..] + ys;
      RunAppend(Step(s, xs[0]), xs[1..], ys);
    }
  }

  lemma OneStep(s: Sema, a: Action)
    ensures Run(s, [a]) == Step(s, a)
  {
    hide Step;
    assert Run(s, [a]) == Run(Step(s, a), []);
  }

  /** n steps of the waiting thread alone. */
  function Spins(n: nat): seq<Action> { seq(n, _ => WaiterStep(true)) }

  /** With nothing to take, the waiting thread spins out and enters the kernel. */
  lemma {:induction false} SpinsDown(s: Sema, left: nat, timeout: int)
    requires s.waiter == WSpin(left, timeout) && s.count == 0 && timeout != 0
    ensures Run(s, Spins(left + 2)) == s.(waiter := WKernel(timeout), count := -1)
    decreases left
  {
    var s' := Step(s, WaiterStep(true));
    assert Spins(left + 2)[0] == WaiterStep(true) && Spins(left + 2)[1..] == Spins(left + 1);
    if left == 0 {
      assert Spins(1) == [WaiterStep(true)];
      OneStep(s', WaiterStep(true));
    } else {
      SpinsDown(s', left - 1, timeout);
    }
  }

  /** The run of a waiting thread that finds no permit, into the kernel. */
  function IntoKernel(timeout: int): seq<Action> { [Wait(Timed(timeout)), WaiterStep(true)] + Spins(SPIN + 2) }

  lemma ReachesKernel(s: Sema, timeout: int)
    requires timeout != 0 && s.waiter.WIdle? && s.count == 0
    ensures Run(s, IntoKernel(timeout)) == s.(waiter := WKernel(timeout), count := -1)
  {
    var s1 := Step(s, Wait(Timed(timeout)));
    var s2 := Step(s1, WaiterStep(true));
    assert s2.waiter == WSpin(SPIN, timeout);
    SpinsDown(s2, SPIN, timeout);
    RunAppend(s, [Wait(Timed(timeout)), WaiterStep(true)], Spins(SPIN + 2));
    hide Step, Spins;
    assert Run(s1, [WaiterStep(true)]) == Run(s2, []);
    assert Run(s, [Wait(Timed(timeout)), WaiterStep(true)]) == Run(s1, [WaiterStep(true)]);
  }

  /** Signals called one after the other, with nobody waiting. */
  function Sends(ks: seq<nat>): seq<Action> {
    if ks == [] then [] else [Signal(ks[0]), SignallerStep] + Sends(ks[1..])
  }

  lemma TwoSteps(s: Sema, a: Action, b: Action)
    ensures Run(s, [a, b]) == Step(Step(s, a), b)
  {
    hide Step;
    assert Run(Step(s, a), [b]) == Run(Step(Step(s, a), b), []);
  }

  lemma {:induction false} SendsAdd(s: Sema, ks: seq<nat>)
    requires s.signaller.SIdle? && 0 <= s.count && s.count + Sum(ks) < HALF_WORD
    ensures Run(s, Sends(ks)) == s.(count := s.count + Sum(ks), signalled := s.signalled + Sum(ks))
    decreases ks
  {
    if ks != [] {
      var s' := s.(count := s.count + ks[0], signalled := s.signalled + ks[0]);
      assert Step(Step(s, Signal(ks[0])), SignallerStep) == s';
      TwoSteps(s, Signal(ks[0]), SignallerStep);
      RunAppend(s, [Signal(ks[0]), SignallerStep], Sends(ks[1..]));
      hide Step, Run;
      SendsAdd(s', ks[1..]);
    }
  }

  /** Waits that each take a permit. */
  function Takes(m: nat): seq<Action> {
    if m == 0 then [] else [Wait(TryOnly), WaiterStep(true), WaiterStep(true)] + Takes(m - 1)
  }

  lemma TakeOne(s: Sema)
    requires s.waiter.WIdle? && 0 < s.count < HALF_WORD
    ensures Run(s, [Wait(TryOnly), WaiterStep(true), WaiterStep(true)])
         == s.(count := s.count - 1, acquired := s.acquired + 1, waiter := WIdle(Acquired))
  {
    var s1 := Step(s, Wait(TryOnly));
    TwoSteps(s1, WaiterStep(true), WaiterStep(true));
    assert Run(s, [Wait(TryOnly), WaiterStep(true), WaiterStep(true)]) == Run(s1, [WaiterStep(true), WaiterStep(true)]);
  }

  lemma {:induction false} TakesAll(s: Sema, m: nat)
    requires s.waiter.WIdle? && s.count == m < HALF_WORD
    ensures var r := Run(s, Takes(m));
            r.waiter.WIdle? && r == s.(count := 0, acquired := s.acquired + m, waiter := r.waiter)
    decreases m
  {
    if m != 0 {
      TakeOne(s);
      RunAppend(s, [Wait(TryOnly), WaiterStep(true), WaiterStep(true)], Takes(m - 1));
      hide Run;
      TakesAll(s.(count := s.count - 1, acquired := s.acquired + 1, waiter := WIdle(Acquired)), m - 1);
    }
  }

  /** Every signal of the run adds one of the given counts. */
  ghost predicate SignalsIn(counts: iset<nat>, actions: seq<Action>) {
    forall i :: 0 <= i < |actions| && actions[i].Signal? ==> actions[i].n in counts
  }

  /** A signal of nothing, with a thread in the kernel, posts the kernel semaphore. */
  const EMPTY_SIGNAL: seq<Action> := [Signal(0), SignallerStep, SignallerStep]

  lemma EmptySignalPosts(s: Sema)
    requires s.signaller.SIdle? && s.count == -1
    ensures Run(s, EMPTY_SIGNAL) == s.(kernel := s.kernel + 1, fault := s.fault)
  {
    var s1 := Step(s, Signal(0));
    var s2 := Step(s1, SignallerStep);
    var s3 := Step(s2, SignallerStep);
    assert Run(s2, [SignallerStep]) == Run(s3, []);
    assert Run(s1, [SignallerStep, SignallerStep]) == Run(s2, [SignallerStep]);
  }

  /** The waiter then gets through without a permit, once those there were are taken. */
  function OveracquiringRun(before: seq<nat>, m: nat): seq<Action> {
    Sends(before) + Takes(m) + IntoKernel(-1) + EMPTY_SIGNAL + [WaiterStep(true)]
  }

  lemma EmptySignalOveracquires(n: nat, before: seq<nat>)
    requires n + Sum(before) < HALF_WORD
    ensures !Safe(n, Run(New(n), OveracquiringRun(before, n + Sum(before))))
  {
    hide IntoKernel, Run, EMPTY_SIGNAL, Sends, Takes;
    var m := n + Sum(before);
    SendsAdd(New(n), before);
    var s1 := Run(New(n), Sends(before));
    TakesAll(s1, m);
    var s2 := Run(s1, Takes(m));
    ReachesKernel(s2, -1);
    var s3 := s2.(waiter := WKernel(-1), count := -1);
    EmptySignalPosts(s3);
    RunAppend(New(n), Sends(before), Takes(m));
    RunAppend(New(n), Sends(before) + Takes(m), IntoKernel(-1));
    RunAppend(New(n), Sends(before) + Takes(m) + IntoKernel(-1), EMPTY_SIGNAL);
    RunAppend(New(n), Sends(before) + Takes(m) + IntoKernel(-1) + EMPTY_SIGNAL, [WaiterStep(true)]);
    OneStep(s3.(kernel := s3.kernel + 1), WaiterStep(true));
  }

  /** A signal that takes the count past its word makes it negative. */
  lemma OverflowWraps(n: nat, before: seq<nat>, k: nat)
    requires n + Sum(before) < HALF_WORD <= n + Sum(before) + k && k < HALF_WORD
    ensures !Safe(n, Run(New(n), Sends(before) + [Signal(k), SignallerStep]))
  {
    hide Run, Sends;
    SendsAdd(New(n), before);
    RunAppend(New(n), Sends(before), [Signal(k), SignallerStep]);
    TwoSteps(Run(New(n), Sends(before)), Signal(k), SignallerStep);
  }

  /** Or, if it has timed out, it leaves a post behind that it never made. */
  function LeavingRun(): seq<Action> { IntoKernel(1) + EMPTY_SIGNAL + TIMED_OUT }

  const TIMED_OUT: seq<Action> := [WaiterStep(false), WaiterStep(true)]

  lemma LeavingRunEnds()
    ensures var r := Run(New(0), LeavingRun()); r.waiter == WIdle(Failed) && r.acquired == 0 && r.kernel == 1
  {
    hide IntoKernel, Run, EMPTY_SIGNAL, TIMED_OUT;
    var s := New(0).(waiter := WKernel(1), count := -1);
    ReachesKernel(New(0), 1);
    EmptySignalPosts(s);
    RunAppend(New(0), IntoKernel(1), EMPTY_SIGNAL);
    RunAppend(New(0), IntoKernel(1) + EMPTY_SIGNAL, TIMED_OUT);
    TimesOut(s.(kernel := 1));
  }

  lemma TimesOut(s: Sema)
    requires s.waiter.WKernel? && s.count == -1
    ensures Run(s, TIMED_OUT) == s.(waiter := WIdle(Failed), count := 0)
  {
    var s1 := Step(s, WaiterStep(false));
    OneStep(s1, WaiterStep(true));
    assert Run(s, TIMED_OUT) == Run(s1, [WaiterStep(true)]);
  }

  lemma EmptySignalLeavesPost()
    ensures AllFailed(New(0), LeavingRun()) && !SameWithoutWaits(New(0), LeavingRun())
  {
    hide LeavingRun, Run, Erase;
    LeavingRunEnds();
    ErasedRun();
    EmptySignalAtRest();
  }

  /** Without the waiting thread only the signal is left. */
  lemma ErasedRun()
    ensures Erase(LeavingRun()) == EMPTY_SIGNAL
  {
    EraseSignal();
    assert forall i :: 0 <= i < |TIMED_OUT| ==> TIMED_OUT[i].WaiterStep?;
    hide Erase;
    EraseWaits(IntoKernel(1));
    EraseAppend(IntoKernel(1), EMPTY_SIGNAL);
    EraseAppend(IntoKernel(1) + EMPTY_SIGNAL, TIMED_OUT);
    EraseWaits(TIMED_OUT);
  }

  lemma EraseSignal()
    ensures Erase(EMPTY_SIGNAL) == EMPTY_SIGNAL
  {
    assert Erase([SignallerStep]) == [SignallerStep] + Erase([]);
    assert Erase([SignallerStep, SignallerStep]) == [SignallerStep] + Erase([SignallerStep]);
  }

  /** With no thread waiting, a signal of nothing does nothing. */
  lemma EmptySignalAtRest()
    ensures Run(New(0), EMPTY_SIGNAL).kernel == 0
  {
    var s1 := Step(New(0), Signal(0));
    var s2 := Step(s1, SignallerStep);
    var s3 := Step(s2, SignallerStep);
    assert Run(s2, [SignallerStep]) == Run(s3, []);
    assert Run(s1, [SignallerStep, SignallerStep]) == Run(s2, [SignallerStep]);
  }

  lemma OnlyEmptySignals(counts: iset<nat>)
    requires 0 in counts
    ensures SignalsIn(counts, LeavingRun()) && Sum(Calls(LeavingRun())) == 0
  {
    hide Calls;
    CallsAppend(IntoKernel(1) + EMPTY_SIGNAL, TIMED_OUT);
    CallsAppend(IntoKernel(1), EMPTY_SIGNAL);
    NoCalls(IntoKernel(1));
    NoCalls(TIMED_OUT);
    EmptySignalCalls();
  }

  lemma {:induction false} CallsAppend(xs: seq<Action>, ys: seq<Action>)
    ensures Calls(xs + ys) == Calls(xs) + Calls(ys)
    decreases xs
  {
    if xs == [] {
      assert xs + ys == ys;
    } else {
      assert (xs + ys)[0] == xs[0] && (xs + ys)[1..] == xs[1..] + ys;
      CallsAppend(xs[1..], ys);
    }
  }

  lemma {:induction false} NoCalls(xs: seq<Action>)
    requires forall i :: 0 <= i < |xs| ==> !xs[i].Signal?
    ensures Calls(xs) == []
    decreases xs
  {
    if xs != [] { NoCalls(xs[1..]); }
  }

  lemma EmptySignalCalls()
    ensures Calls(EMPTY_SIGNAL) == [0] && Sum([0]) == 0
  {
    NoCalls([SignallerStep, SignallerStep]);
    assert EMPTY_SIGNAL[1..] == [SignallerStep, SignallerStep];
    assert Sum([0]) == 0 + Sum([0][1..]);
  }

  lemma {:induction false} CallsOfSends(ks: seq<nat>)
    ensures Calls(Sends(ks)) == ks
    decreases ks
  {
    if ks != [] {
      CallsAppend([Signal(ks[0]), SignallerStep], Sends(ks[1..]));
      CallsOfSends(ks[1..]);
      CallsOfOne(ks[0]);
    }
  }

  lemma CallsOfOne(k: nat)
    ensures Calls([Signal(k), SignallerStep]) == [k]
  {
    NoCalls([SignallerStep]);
    assert [Signal(k), SignallerStep][1..] == [SignallerStep];
  }

  lemma {:induction false} TakesCallNothing(m: nat)
    ensures forall i :: 0 <= i < |Takes(m)| ==> !Takes(m)[i].Signal?
    decreases m
  {
    if m != 0 { TakesCallNothing(m - 1); }
  }

  lemma CallsOfOveracquiring(before: seq<nat>, m: nat)
    ensures Calls(OveracquiringRun(before, m)) == before + [0]
  {
    hide Calls, Sends;
    var a, b, k, e := Sends(before), Takes(m), IntoKernel(-1), EMPTY_SIGNAL;
    TakesCallNothing(m);
    CallsOfSends(before);
    NoCalls(b);
    NoCalls(k);
    EmptySignalCalls();
    NoCalls([WaiterStep(true)]);
    CallsAppend(a, b);
    CallsAppend(a + b, k);
    CallsAppend(a + b + k, e);
    CallsAppend(a + b + k + e, [WaiterStep(true)]);
  }

  lemma {:induction false} EraseAppend(xs: seq<Action>, ys: seq<Action>)
    ensures Erase(xs + ys) == Erase(xs) + Erase(ys)
    decreases xs
  {
    if xs == [] {
      assert xs + ys == ys;
    } else {
      assert (xs + ys)[0] == xs[0] && (xs + ys)[1..] == xs[1..] + ys;
      EraseAppend(xs[1..], ys);
    }
  }

  lemma {:induction false} EraseWaits(xs: seq<Action>)
    requires forall i :: 0 <= i < |xs| ==> xs[i].Wait? || xs[i].WaiterStep?
    ensures Erase(xs) == []
    decreases xs
  {
    if xs != [] { EraseWaits(xs[1..]); }
  }

  lemma {:induction false} SumPrefix(ks: seq<nat>, j: nat)
    requires j <= |ks|
    ensures Sum(ks[..j]) <= Sum(ks)
    ensures j < |ks| ==> Sum(ks[..j + 1]) == Sum(ks[..j]) + ks[j]
    decreases ks
  {
    if j > 0 {
      SumPrefix(ks[1..], j - 1);
      assert ks[..j][1..] == ks[1..][..j - 1];
      if j < |ks| { assert ks[..j + 1][1..] == ks[1..][..j]; }
    } else if |ks| > 0 {
      assert ks[..1][1..] == [];
    }
  }

  /** Where a list of signals first goes wrong: it adds nothing, or takes the count past its word. */
  lemma {:induction false} FirstBad(n: nat, ks: seq<nat>) returns (j: nat)
    requires n < HALF_WORD && !(Positive(ks) && n + Sum(ks) < HALF_WORD)
    ensures j < |ks| && n + Sum(ks[..j]) < HALF_WORD
    ensures ks[j] == 0 || n + Sum(ks[..j]) + ks[j] >= HALF_WORD
    decreases |ks|
  {
    var last := |ks| - 1;
    assert ks != [];
    var init := ks[..last];
    SumPrefix(ks, last);
    assert ks[..last + 1] == ks;
    if Positive(init) && n + Sum(init) < HALF_WORD {
      j := last;
    } else {
      j := FirstBad(n, init);
      assert init[..j] == ks[..j];
    }
  }

  /**
    For any initial count and any list of signals: every interleaving that calls those
    signals is safe, if and only if each of them adds at least one and together with the
    initial count they fit a signed word.
   */
  lemma SafeExactly(n: nat, ks: seq<nat>)
    requires n < HALF_WORD && forall i :: 0 <= i < |ks| ==> ks[i] < HALF_WORD
    ensures (forall actions :: Calls(actions) <= ks ==> Safe(n, Run(New(n), actions)))
       <==> Positive(ks) && n + Sum(ks) < HALF_WORD
  {
    hide *;
    if Positive(ks) && n + Sum(ks) < HALF_WORD {
      forall actions | Calls(actions) <= ks ensures Safe(n, Run(New(n), actions)) {
        GoodRun(n, ks, actions);
      }
    } else {
      var run := BadRun(n, ks);
      assert !Safe(n, Run(New(n), run));
    }
  }

  lemma GoodRun(n: nat, ks: seq<nat>, actions: seq<Action>)
    requires Calls(actions) <= ks && Positive(ks) && n + Sum(ks) < HALF_WORD
    ensures Safe(n, Run(New(n), actions))
  {
    hide Run, Calls, Safe, Sum;
    var calls := Calls(actions);
    assert calls == ks[..|calls|];
    SumPrefix(ks, |calls|);
    assert Positive(calls);
    SemaphoreIsSafe(n, actions);
  }

  lemma BadRun(n: nat, ks: seq<nat>) returns (run: seq<Action>)
    requires n < HALF_WORD && (forall i :: 0 <= i < |ks| ==> ks[i] < HALF_WORD)
    requires !(Positive(ks) && n + Sum(ks) < HALF_WORD)
    ensures Calls(run) <= ks && !Safe(n, Run(New(n), run))
  {
    hide Run, Calls, Safe, Sum, Sends, OveracquiringRun, New;
    var j := FirstBad(n, ks);
    var before := ks[..j];
    if ks[j] == 0 {
      run := OveracquiringRun(before, n + Sum(before));
      EmptySignalOveracquires(n, before);
      CallsOfOveracquiring(before, n + Sum(before));
    } else {
      run := Sends(before) + [Signal(ks[j]), SignallerStep];
      OverflowWraps(n, before, ks[j]);
      CallsAppend(Sends(before), [Signal(ks[j]), SignallerStep]);
      CallsOfSends(before);
      CallsOfOne(ks[j]);
    }
    assert before + [ks[j]] == ks[..j + 1];
  }

  /**
    With signals drawn from any set of counts, and no more of them than a word holds: failed
    waits leave no trace in any interleaving if and only if the set does not hold zero.
   */
  lemma InvisibleExactly(counts: iset<nat>)
    ensures (forall n: nat, actions ::
               (SignalsIn(counts, actions) && n + Sum(Calls(actions)) < HALF_WORD && AllFailed(New(n), actions))
               ==> SameWithoutWaits(New(n), actions))
       <==> 0 !in counts
  {
    hide Run, Erase, SameWithoutWaits, AllFailed, Calls, Sum;
    if 0 in counts {
      OnlyEmptySignals(counts);
      EmptySignalLeavesPost();
      hide LeavingRun, SignalsIn;
      var zero: nat := 0;
      assert AllFailed(New(zero), LeavingRun()) && !SameWithoutWaits(New(zero), LeavingRun());
    } else {
      forall n: nat, actions | SignalsIn(counts, actions) && n + Sum(Calls(actions)) < HALF_WORD
          && AllFailed(New(n), actions)
        ensures SameWithoutWaits(New(n), actions)
      {
        NewInv(n);
        CallsIn(counts, actions);
        FailedWaitsAreInvisible(New(n), actions);
      }
    }
  }

  lemma {:induction false} CallsIn(counts: iset<nat>, actions: seq<Action>)
    requires SignalsIn(counts, actions) && 0 !in counts
    ensures Positive(Calls(actions))
    decreases actions
  {
    if actions != [] { CallsIn(counts, actions[1..]); }
  }
}
