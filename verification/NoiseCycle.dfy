/**
  The noise-source cycle: its start is learned from the state carried by the packets, and
  blocks close to a transition are blanked.
 */
module NoiseCycle {
  import opened Bits
  import opened Units
  import V = VdifTime

  /** Lengths in nanoseconds: the whole cycle, its ON part, and the guard around transitions. */
  datatype Cycle = Cycle(period: nat, on: nat, blank: nat)

  /**
    A duty cycle below 100 gives an ON part no longer than the period. The period itself is
    a positive number of milliseconds truncated to nanoseconds, and may be zero.
   */
  ghost predicate CycleOk(c: Cycle) { c.on <= c.period }

  datatype Answer = Blank(blank: bool) | DivisionByZero

  const WORD := 0x1_0000_0000_0000_0000

  /** The time whose distance from the start the unsigned subtraction gives. */
  function Unwrapped(start: nat, t: nat): nat { if t >= start then t else t + WORD }

  /** is_noise_blank; start zero means that no cycle is known yet. */
  function IsNoiseBlank(c: Cycle, start: nat, t: nat): Answer {
    if start == 0 then Blank(false)
    else if c.period == 0 then DivisionByZero
    else
      var phase := (Unwrapped(start, t) - start) % c.period;
      var distOn := if phase <= c.period - phase then phase else c.period - phase;
      var distOff := if phase >= c.on then phase - c.on else c.on - phase;
      Blank((if distOn <= distOff then distOn else distOff) <= c.blank)
  }

  function Distance(a: int, b: int): int { if a <= b then b - a else a - b }

  /** Some transition, ON or OFF, of any cycle before or after, lies within the guard. */
  ghost predicate NearTransition(c: Cycle, start: nat, t: nat) {
    exists k: int :: NearCycle(c, start, t, k)
  }

  ghost predicate NearCycle(c: Cycle, start: nat, t: nat, k: int) {
    Distance(t, start + k * c.period) <= c.blank || Distance(t, start + k * c.period + c.on) <= c.blank
  }

  /** A transition of another cycle is at least as far as the edge of the current one. */
  lemma OtherCycleIsFarther(c: Cycle, start: nat, t: nat, q: int, phase: nat, k: int)
    requires CycleOk(c) && t == start + q * c.period + phase && phase < c.period && k != q
    ensures NearCycle(c, start, t, k) ==> phase <= c.blank || c.period - phase <= c.blank
  {
    assert k * c.period == q * c.period + (k - q) * c.period;
    if k < q {
      MulAtLeast(q - k, c.period);
      assert (q - k) * c.period == -((k - q) * c.period);
    } else {
      MulAtLeast(k - q, c.period);
    }
  }

  /**
    Blanking is exact for the time the subtraction sees: a time at or after the start of
    the cycle itself, an earlier one moved up by a machine word.
   */
  lemma BlankIsExact(c: Cycle, start: nat, t: nat)
    requires CycleOk(c) && c.period >= 1 && 0 < start < WORD
    ensures IsNoiseBlank(c, start, t) == Blank(NearTransition(c, start, Unwrapped(start, t)))
  {
    var u := Unwrapped(start, t);
    var q, phase := (u - start) / c.period, (u - start) % c.period;
    assert u == start + q * c.period + phase;
    assert (q + 1) * c.period == q * c.period + c.period;
    if IsNoiseBlank(c, start, t).blank {
      assert NearCycle(c, start, u, q) || NearCycle(c, start, u, q + 1);
    }
    if NearTransition(c, start, u) {
      var k :| NearCycle(c, start, u, k);
      if k != q { OtherCycleIsFarther(c, start, u, q, phase, k); }
    }
  }

  /** Moving a time by whole periods changes nothing. */
  lemma PeriodicTransitions(c: Cycle, start: nat, t: nat, n: nat)
    ensures NearTransition(c, start, t + n * c.period) <==> NearTransition(c, start, t)
  {
    forall k: int ensures NearCycle(c, start, t + n * c.period, k + n) <==> NearCycle(c, start, t, k) {
      assert (k + n) * c.period == k * c.period + n * c.period;
    }
    if NearTransition(c, start, t + n * c.period) {
      var k :| NearCycle(c, start, t + n * c.period, k);
      assert NearCycle(c, start, t + n * c.period, (k - n) + n);
      assert NearCycle(c, start, t, k - n);
    }
    if NearTransition(c, start, t) {
      var k :| NearCycle(c, start, t, k);
      assert NearCycle(c, start, t + n * c.period, k + n);
    }
  }

  /** Before the start it is exact too when the period divides the machine word. */
  lemma EarlyBlankIsExact(c: Cycle, start: nat, t: nat, n: nat)
    requires CycleOk(c) && c.period >= 1 && 0 < start < WORD && n * c.period == WORD
    ensures IsNoiseBlank(c, start, t) == Blank(NearTransition(c, start, t))
  {
    BlankIsExact(c, start, t);
    PeriodicTransitions(c, start, t, n);
  }

  ghost predicate Exact(c: Cycle, start: nat, t: nat) {
    IsNoiseBlank(c, start, t) == Blank(NearTransition(c, start, t))
  }

  /**
    Whatever the start of the cycle: blanking is exact at every time of a machine word, for
    every ON part and guard, if and only if the period divides the machine word.
   */
  lemma BlankIsExactExactly(period: nat, start: nat)
    requires period >= 1 && 0 < start < WORD
    ensures WORD % period == 0 <==>
            forall on: nat, blank: nat, t: nat :: on < period && t < WORD ==> Exact(Cycle(period, on, blank), start, t)
  {
    if WORD % period == 0 {
      forall on: nat, blank: nat, t: nat | on < period && t < WORD ensures Exact(Cycle(period, on, blank), start, t) {
        EarlyBlankIsExact(Cycle(period, on, blank), start, t, WORD / period);
      }
    } else {
      OneEarlyFails(period, start);
    }
  }

  /** One nanosecond before the start is enough, with one of two ON parts and no guard. */
  lemma OneEarlyFails(period: nat, start: nat)
    requires period >= 1 && 0 < start < WORD && WORD % period != 0
    ensures !Exact(Cycle(period, 0, 0), start, start - 1) || !Exact(Cycle(period, period - 1, 0), start, start - 1)
  {
    var phase := (WORD - 1) % period;
    if phase == 0 {
      OneEarlyIsFar(period, start);
    } else {
      PhaseNotLast(period);
      assert NearCycle(Cycle(period, period - 1, 0), start, start - 1, -1);
    }
  }

  /** With ON and OFF together, one nanosecond early is at no transition. */
  lemma OneEarlyIsFar(period: nat, start: nat)
    requires period >= 2 && 0 < start
    ensures !NearTransition(Cycle(period, 0, 0), start, start - 1)
  {
    var c, t := Cycle(period, 0, 0), start - 1;
    forall k: int ensures !NearCycle(c, start, t, k) {
      if k >= 1 { MulAtLeast(k, period); }
      if k <= -1 {
        MulAtLeast(-k, period);
        assert (-k) * period == -(k * period);
      }
    }
  }

  lemma PhaseNotLast(period: nat)
    requires period >= 1 && WORD % period != 0
    ensures (WORD - 1) % period != period - 1
  {
    if (WORD - 1) % period == period - 1 {
      var q := (WORD - 1) / period;
      assert WORD == (q + 1) * period + 0;
      DivUnique(WORD, period, q + 1, 0);
    }
  }

  /** A period of whole milliseconds never divides it. */
  lemma WholeMillisecondsDoNot(ms: nat)
    requires ms >= 1
    ensures WORD % (ms * 1_000_000) != 0
  {
    var period := ms * 1_000_000;
    var q := WORD / period;
    assert WORD == q * period + WORD % period;
    assert q * period == 5 * (q * (ms * 200_000));
  }

  /** 2016-12-31 23:59:59, onto which the leap second after it is folded. */
  const LEAP_SECOND_NS := 1_483_228_799_000_000_000

  /**
    The leap second before 2017-01-01, with the default cycle of a second, half of it ON, and
    a guard of ten milliseconds. The cycle starts with frame f of the second before; frame g
    of the leap second comes later and is stamped earlier, within the guard of a transition,
    and is not blanked.
   */
  lemma LeapSecondGoesUnblanked(f: nat, g: nat)
    requires g <= f < FRAMES_PER_SECOND && 490_000_000 <= (f - g) * FRAME_NS <= 510_000_000
    ensures var c := Cycle(1_000_000_000, 500_000_000, 10_000_000);
            var first := 15_897_599 * FRAMES_PER_SECOND + f;
            var later := 15_897_600 * FRAMES_PER_SECOND + g;
            var start, t := V.PacketTime(33, first), V.PacketTime(33, later);
            && first < later && 0 < t < start < WORD && start == LEAP_SECOND_NS + f * FRAME_NS
            && NearTransition(c, start, t) && IsNoiseBlank(c, start, t) == Blank(false)
  {
    var c := Cycle(1_000_000_000, 500_000_000, 10_000_000);
    LeapTimes(f, g);
    var start, t := LEAP_SECOND_NS + f * FRAME_NS, LEAP_SECOND_NS + g * FRAME_NS;
    assert NearCycle(c, start, t, -1);
    var d := (f - g) * FRAME_NS;
    assert Unwrapped(start, t) - start == WORD - d;
    DivUnique(WORD - d, 1_000_000_000, 18446744073, 709_551_616 - d);
  }

  lemma LeapTimes(f: nat, g: nat)
    requires f < FRAMES_PER_SECOND && g < FRAMES_PER_SECOND
    ensures V.PacketTime(33, 15_897_599 * FRAMES_PER_SECOND + f) == LEAP_SECOND_NS + f * FRAME_NS
    ensures V.PacketTime(33, 15_897_600 * FRAMES_PER_SECOND + g) == LEAP_SECOND_NS + g * FRAME_NS
  {
    DivUnique(15_897_599 * FRAMES_PER_SECOND + f, FRAMES_PER_SECOND, 15897599, f);
    DivUnique(15_897_600 * FRAMES_PER_SECOND + g, FRAMES_PER_SECOND, 15897600, g);
    assert V.EpochUnixSec(33) == 1467331200;
    assert V.ScanLeaps(1467331200, 15897599, 4, 0) == 1483228799;
    assert V.ScanLeaps(1467331200, 15897600, 4, 0) == 1483228799;
    assert forall s: nat, k: nat :: k < 4 ==> V.ScanLeaps(1467331200, s, k, 0) == V.ScanLeaps(1467331200, s, k + 1, 0);
  }

  // ------------------------------------------------------------------ learning the cycle

  /** The state last seen, and the start of the cycle, zero while unknown. */
  datatype Noise = Noise(on: bool, start: nat)

  const UNKNOWN := Noise(false, 0)

  /** One update: the cycle is restarted when the source comes on. */
  function Learned(s: Noise, newOn: bool, now: nat): Noise {
    Noise(newOn, if newOn && !s.on then now else s.start)
  }

  /** The source comes on with block k: it is on, and was off or not yet seen before. */
  predicate ComesOn(flags: seq<bool>, k: nat)
    requires k < |flags|
  {
    flags[k] && (k == 0 || !flags[k - 1])
  }

  /** Block k is the last with which the source came on. */
  ghost predicate LastEdge(flags: seq<bool>, k: nat) {
    k < |flags| && ComesOn(flags, k) && forall j :: k < j < |flags| ==> !ComesOn(flags, j)
  }

  /**
    What is known after blocks with the given flags and times: the state of the last one, and
    the time of the last block with which the source came on, zero if there is none.
   */
  ghost predicate KnownAfter(flags: seq<bool>, times: seq<nat>, s: Noise) {
    && |flags| == |times|
    && (s.on <==> flags != [] && flags[|flags| - 1])
    && (forall k: nat :: LastEdge(flags, k) ==> s.start == times[k])
    && ((forall k: nat :: k < |flags| ==> !ComesOn(flags, k)) ==> s.start == 0)
  }

  /** There is a last edge unless there is none at all, so the start is always determined. */
  lemma {:induction false} SomeLastEdge(flags: seq<bool>, n: nat) returns (k: nat)
    requires n <= |flags| && exists j: nat :: j < n && ComesOn(flags, j)
    requires forall j :: n <= j < |flags| ==> !ComesOn(flags, j)
    ensures LastEdge(flags, k)
    decreases n
  {
    if ComesOn(flags, n - 1) { k := n - 1; } else { k := SomeLastEdge(flags, n - 1); }
  }

  lemma KnownNext(flags: seq<bool>, times: seq<nat>, s: Noise, newOn: bool, now: nat)
    requires KnownAfter(flags, times, s)
    ensures KnownAfter(flags + [newOn], times + [now], Learned(s, newOn, now))
  {
    var n := |flags|;
    var flags' := flags + [newOn];
    forall k: nat | k < n ensures ComesOn(flags', k) <==> ComesOn(flags, k) {}
    assert ComesOn(flags', n) <==> newOn && !s.on;
    forall k: nat | LastEdge(flags', k) ensures Learned(s, newOn, now).start == (times + [now])[k] {
      if k < n { assert LastEdge(flags, k); }
    }
  }

  /** Until the source has come on the state is OFF. */
  lemma OffUntilKnown(flags: seq<bool>, times: seq<nat>, s: Noise)
    requires KnownAfter(flags, times, s) && forall k :: 0 <= k < |times| ==> times[k] > 0
    ensures s.start == 0 ==> !s.on
  {
    if s.start == 0 && s.on { OnHasEdge(flags, |flags|); }
    if exists j: nat :: j < |flags| && ComesOn(flags, j) {
      var k := SomeLastEdge(flags, |flags|);
    }
  }

  lemma {:induction false} OnHasEdge(flags: seq<bool>, n: nat)
    requires 0 < n <= |flags| && flags[n - 1]
    ensures exists j: nat :: j < n && ComesOn(flags, j)
    decreases n
  {
    if n > 1 && flags[n - 2] { OnHasEdge(flags, n - 1); } else { assert ComesOn(flags, n - 1); }
  }

  class NoiseTracker {
    const c: Cycle
    var on: bool             // m_noise_state
    var start: nat           // m_noise_cycle_start_ns
    ghost var flags: seq<bool>
    ghost var times: seq<nat>

    ghost predicate Valid()
      reads this
    {
      KnownAfter(flags, times, Noise(on, start)) && forall k :: 0 <= k < |times| ==> times[k] > 0
    }

    constructor (c: Cycle)
      ensures Valid() && this.c == c && flags == [] && times == []
    {
      this.c := c;
      on, start, flags, times := false, 0, [], [];
    }

    /**
      update_noise_state, for times in any order: the start is that of the last block with
      which the source came on. The branch that would infer it from an ON-to-OFF edge is
      never reached.
     */
    method Update(newOn: bool, now: nat)
      requires Valid() && now > 0
      modifies this
      ensures Valid() && flags == old(flags) + [newOn] && times == old(times) + [now]
    {
      hide KnownAfter;
      KnownNext(flags, times, Noise(on, start), newOn, now);
      OffUntilKnown(flags, times, Noise(on, start));
      flags, times := flags + [newOn], times + [now];
      if newOn != on {
        if start == 0 {
          if newOn {
            start := now;
          } else {
            assert false;
          }
        } else {
          if newOn { start := now; }
        }
      }
      on := newOn;
    }

    /** is_noise_blank */
    method Blanked(t: nat) returns (answer: Answer)
      requires CycleOk(c) && start < WORD
      ensures start == 0 ==> answer == Blank(false)
      ensures start > 0 && c.period == 0 ==> answer == DivisionByZero
      ensures start > 0 && c.period > 0 ==> answer == Blank(NearTransition(c, start, Unwrapped(start, t)))
      ensures Valid() && c.period > 0 ==>
                forall k: nat :: LastEdge(flags, k) ==>
                  answer == Blank(NearTransition(c, times[k], Unwrapped(times[k], t)))
    {
      answer := IsNoiseBlank(c, start, t);
      if start > 0 && c.period > 0 { BlankIsExact(c, start, t); }
    }
  }
}
