/** The pools of batches: how many, and which slice of the one allocation each batch is. */
module BatchPool {
  import opened Bits

  // ------------------------------------------------------------------ slices of one allocation

  datatype Stream = Stream(subbandId: nat, enable: bool, poolIndex: nat)

  /** Pool size from the memory budget; at least one batch queued, one filled, one consumed. */
  function CalcPoolSize(maxPoolMemory: nat, packetBytes: nat, batchsize: nat): (n: nat)
    requires packetBytes >= 1 && batchsize >= 1
    ensures n >= 3
    ensures n > 3 ==> n * (packetBytes * batchsize) <= maxPoolMemory
    ensures (n + 1) * (packetBytes * batchsize) > maxPoolMemory
  {
    var batchBytes := packetBytes * batchsize;
    assert batchBytes >= 1 by { MulAtLeast(packetBytes, batchsize); }
    BudgetHolds(maxPoolMemory, batchBytes);
    var poolSize := maxPoolMemory / batchBytes;
    if poolSize < 3 then 3 else poolSize
  }

  lemma BudgetHolds(x: nat, d: nat)
    requires d >= 1
    ensures (x / d) * d <= x < (x / d + 1) * d
    ensures x / d < 3 ==> x < 4 * d
  {
    assert x == (x / d) * d + x % d;
    assert (x / d + 1) * d == (x / d) * d + d;
    if x / d < 3 {
      assert (4 - x / d) * d == 4 * d - (x / d) * d;
      MulAtLeast(4 - x / d, d);
    }
  }

  function EnabledBefore(enabled: seq<bool>, s: nat): nat
    requires (s + 1) / 2 <= |enabled|
  {
    if s == 0 then 0 else EnabledBefore(enabled, s - 1) + if enabled[(s - 1) / 2] then 1 else 0
  }

  /** Mapping receive streams, two to a subband, to consecutive pool indices. */
  method MapStreams(enabled: seq<bool>, maxStreams: nat) returns (streams: seq<Stream>, enabledStreams: nat)
    requires (maxStreams + 1) / 2 <= |enabled|
    ensures |streams| == maxStreams && enabledStreams == EnabledBefore(enabled, maxStreams)
    ensures forall s :: 0 <= s < maxStreams ==>
              streams[s].subbandId == s / 2 && streams[s].enable == enabled[s / 2]
              && (streams[s].enable ==> streams[s].poolIndex == EnabledBefore(enabled, s) < enabledStreams)
    ensures forall s, t :: 0 <= s < t < maxStreams && streams[s].enable && streams[t].enable
              ==> streams[s].poolIndex < streams[t].poolIndex
  {
    streams, enabledStreams := [], 0;
    for s := 0 to maxStreams
      invariant |streams| == s && enabledStreams == EnabledBefore(enabled, s)
      invariant forall k :: 0 <= k < s ==>
                  streams[k].subbandId == k / 2 && streams[k].enable == enabled[k / 2]
                  && (streams[k].enable ==> streams[k].poolIndex == EnabledBefore(enabled, k) < enabledStreams)
      invariant forall k, t :: 0 <= k < t < s && streams[k].enable && streams[t].enable
                  ==> streams[k].poolIndex < streams[t].poolIndex
    {
      var subband := s / 2;
      if !enabled[subband] {
        streams := streams + [Stream(subband, false, 0)];
      } else {
        streams := streams + [Stream(subband, true, enabledStreams)];
        enabledStreams := enabledStreams + 1;
      }
    }
  }

  /** First packet of batch b of the stream with the given pool index. */
  function Offset(poolIndex: nat, b: nat, poolCapacity: nat, batchsize: nat): nat {
    (poolIndex * poolCapacity + b) * batchsize
  }

  /** Slicing the allocation into one pool of batches per enabled stream. */
  method SlicePool(streams: seq<Stream>, poolCapacity: nat, batchsize: nat) returns (pools: seq<seq<nat>>)
    ensures |pools| == |streams|
    ensures forall s :: 0 <= s < |streams| ==>
              |pools[s]| == (if streams[s].enable then poolCapacity else 0)
              && forall b :: 0 <= b < |pools[s]| ==>
                   pools[s][b] == Offset(streams[s].poolIndex, b, poolCapacity, batchsize)
  {
    pools := [];
    for s := 0 to |streams|
      invariant |pools| == s
      invariant forall k :: 0 <= k < s ==>
                  |pools[k]| == (if streams[k].enable then poolCapacity else 0)
                  && forall b :: 0 <= b < |pools[k]| ==>
                       pools[k][b] == Offset(streams[k].poolIndex, b, poolCapacity, batchsize)
    {
      var pool := [];
      if streams[s].enable {
        for b := 0 to poolCapacity
          invariant |pool| == b
          invariant forall k :: 0 <= k < b ==> pool[k] == Offset(streams[s].poolIndex, k, poolCapacity, batchsize)
        {
          pool := pool + [(streams[s].poolIndex * poolCapacity + b) * batchsize];
        }
      }
      pools := pools + [pool];
    }
  }

  lemma OffsetStep(p: nat, b: nat, p': nat, b': nat, poolCapacity: nat, batchsize: nat)
    requires b < poolCapacity && (p < p' || (p == p' && b < b'))
    ensures Offset(p, b, poolCapacity, batchsize) + batchsize <= Offset(p', b', poolCapacity, batchsize)
  {
    var n, n' := p * poolCapacity + b, p' * poolCapacity + b';
    if p < p' {
      assert (p' - p) * poolCapacity == p' * poolCapacity - p * poolCapacity;
      MulAtLeast(p' - p, poolCapacity);
    }
    assert n < n';
    assert (n' - n) * batchsize == n' * batchsize - n * batchsize;
    MulAtLeast(n' - n, batchsize);
  }

  /** Distinct batches, of one stream or of two, never share a packet of memory. */
  lemma SlicesDisjoint(p: nat, b: nat, p': nat, b': nat, poolCapacity: nat, batchsize: nat)
    requires b < poolCapacity && b' < poolCapacity && (p, b) != (p', b')
    ensures var x, y := Offset(p, b, poolCapacity, batchsize), Offset(p', b', poolCapacity, batchsize);
            x + batchsize <= y || y + batchsize <= x
  {
    if p < p' || (p == p' && b < b') {
      OffsetStep(p, b, p', b', poolCapacity, batchsize);
    } else {
      OffsetStep(p', b', p, b, poolCapacity, batchsize);
    }
  }

  /** Every batch lies inside the allocation. */
  lemma SliceInside(p: nat, b: nat, poolCapacity: nat, batchsize: nat, enabledStreams: nat)
    requires b < poolCapacity && p < enabledStreams
    ensures Offset(p, b, poolCapacity, batchsize) + batchsize <= enabledStreams * poolCapacity * batchsize
  {
    OffsetStep(p, b, enabledStreams, 0, poolCapacity, batchsize);
  }
}
