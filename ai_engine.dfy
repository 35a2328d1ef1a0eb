/// The analog-input acquisition engine: reading a bank's DMA FIFO in chunks
/// under a timeout budget, de-interleaving the samples per channel, and the
/// `AnalogInput` session with its single-point, n-sample and continuous
/// paths.
module AIEngine {
  import opened Common
  import opened Bits
  import opened SampleRate
  import opened AIConfig
  import opened Hardware

  /// `__max_samples`: the largest FIFO read, and the n-sample limit.
  const MaxReadback: nat := 10000

  // ----- Chunked FIFO reads -----

  /// The sizes of the FIFO reads for `total` samples: 10000 while more than
  /// 10000 remain, then the remainder (possibly 0).
  function ChunkSizes(total: nat): seq<nat>
    decreases total
  {
    if total > MaxReadback then [MaxReadback] + ChunkSizes(total - MaxReadback) else [total]
  }

  /// The reads are never larger than 10000, add up to the total, are all full
  /// except the last, and are as few as possible.
  lemma {:induction false} ChunkSizesSpec(total: nat)
    ensures var cs := ChunkSizes(total);
      |cs| >= 1
      && (forall j :: 0 <= j < |cs| ==> cs[j] <= MaxReadback)
      && Sum(cs) == total
      && (forall j :: 0 <= j < |cs| - 1 ==> cs[j] == MaxReadback)
      && (|cs| - 1) * MaxReadback < total + (if total == 0 then 1 else 0)
    decreases total
  {
    if total > MaxReadback {
      var rest := ChunkSizes(total - MaxReadback);
      ChunkSizesSpec(total - MaxReadback);
      SumPrepend(MaxReadback, rest);
    }
  }

  lemma {:induction false} SumPrepend(x: nat, s: seq<nat>)
    ensures Sum([x] + s) == x + Sum(s)
    decreases |s|
  {
    if s != [] {
      var s' := s[..|s| - 1];
      assert ([x] + s)[..|[x] + s| - 1] == [x] + s';
      SumPrepend(x, s');
    }
  }

  /// The timeout left for read `i` of a continuous acquisition: -1 stays
  /// -1; otherwise each full read subtracts its duration, floored at 0.
  function Budget(timeout: int, elapsed: nat -> nat, i: nat): int
  {
    if i == 0 then timeout
    else
      var before := Budget(timeout, elapsed, i - 1);
      if before == -1 then -1
      else if before - elapsed(i - 1) < 0 then 0
      else before - elapsed(i - 1)
  }

  /// The budget of an infinite timeout stays infinite; any other budget is
  /// never negative and never grows.
  lemma {:induction false} BudgetSpec(timeout: int, elapsed: nat -> nat, i: nat)
    requires timeout == -1 || timeout >= 0
    ensures timeout == -1 ==> Budget(timeout, elapsed, i) == -1
    ensures timeout >= 0 ==>
      0 <= Budget(timeout, elapsed, i + 1) <= Budget(timeout, elapsed, i) <= timeout
    decreases i
  {
    if i > 0 {
      BudgetSpec(timeout, elapsed, i - 1);
    }
  }

  /// Read `i` takes `elapsed(i)` milliseconds; it fails when a finite budget
  /// is exceeded.
  predicate ChunkTimesOut(timeout: int, elapsed: nat -> nat, i: nat)
  {
    Budget(timeout, elapsed, i) != -1 && elapsed(i) > Budget(timeout, elapsed, i)
  }

  predicate NoChunkTimesOut(total: nat, timeout: int, elapsed: nat -> nat)
  {
    forall j :: 0 <= j < |ChunkSizes(total)| ==> !ChunkTimesOut(timeout, elapsed, j)
  }

  /// The FIFO reads of a drain, one per chunk size.
  function Reads(b: Bank, sizes: seq<nat>): (acts: seq<Action>)
    ensures |acts| == |sizes|
  {
    seq(|sizes|, j requires 0 <= j < |sizes| => FifoRead(b, sizes[j]))
  }

  /// `after` extends `before` with reads of bank b's FIFO only.
  predicate OnlyReads(before: seq<Action>, after: seq<Action>, b: Bank)
  {
    |before| <= |after| && after[..|before|] == before
    && forall j :: |before| <= j < |after| ==> after[j].FifoRead? && after[j].bank == b
  }

  /// A drain leaves a consistent FPGA consistent.
  lemma DrainKeepsValid(fpga: Fpga, before: seq<Action>, b: Bank)
    requires OnlyReads(before, fpga.trace, b)
    requires forall r :: r in fpga.regs ==> WellTyped(r, fpga.regs[r])
    requires fpga.regs == Apply(fpga.initial, before)
    ensures fpga.Valid()
  {
    var acts := fpga.trace[|before|..];
    assert fpga.trace == before + acts;
    ApplyNoWrites(fpga.initial, before, acts);
  }

  function Repeat(x: nat, n: nat): (s: seq<nat>)
    ensures |s| == n && forall j :: 0 <= j < n ==> s[j] == x
  {
    seq(n, j => x)
  }

  /// With the -1 timeout of the n-sample path no read ever times out.
  lemma NoTimeoutWhenInfinite(total: nat, elapsed: nat -> nat)
    ensures NoChunkTimesOut(total, -1, elapsed)
  {
    forall j | 0 <= j < |ChunkSizes(total)|
      ensures !ChunkTimesOut(-1, elapsed, j)
    {
      BudgetSpec(-1, elapsed, j);
    }
  }

  /// The read loop of both multiple-point paths: `total` samples from bank
  /// `b`'s FIFO, 10000 at a time, with the timeout budget of each read.
  method DrainFifo(fpga: Fpga, b: Bank, total: nat, timeout: int, elapsed: nat -> nat)
    returns (r: Result<seq<int>>)
    modifies fpga
    ensures fpga.regs == old(fpga.regs) && fpga.aoFifo == old(fpga.aoFifo)
    ensures fpga.aiFifo.Get(Opposite(b)) == old(fpga.aiFifo.Get(Opposite(b)))
    ensures r.Ok? <==> total <= |old(fpga.aiFifo.Get(b))| && NoChunkTimesOut(total, timeout, elapsed)
    ensures r.Ok? ==>
      r.value == old(fpga.aiFifo.Get(b))[..total]
      && fpga.aiFifo == old(fpga.aiFifo).Set(b, old(fpga.aiFifo.Get(b))[total..])
      && fpga.trace == old(fpga.trace) + Reads(b, ChunkSizes(total))
    ensures r.Err? ==> r.error == AcquisitionTimeout
    ensures OnlyReads(old(fpga.trace), fpga.trace, b)
  {
    ghost var fifo0 := fpga.aiFifo.Get(b);
    ghost var trace0 := fpga.trace;
    var remaining: nat := total;
    var budget := timeout;
    var data: seq<int> := [];
    var i: nat := 0;
    ghost var sizes: seq<nat> := [];
    ghost var consumed: nat := 0;
    assert ChunkSizes(total) == sizes + ChunkSizes(remaining);
    while remaining > MaxReadback
      invariant remaining + consumed == total
      invariant i == |sizes|
      invariant ChunkSizes(total) == sizes + ChunkSizes(remaining)
      invariant budget == Budget(timeout, elapsed, i)
      invariant forall j :: 0 <= j < i ==> !ChunkTimesOut(timeout, elapsed, j)
      invariant consumed <= |fifo0|
      invariant data == fifo0[..consumed]
      invariant fpga.aiFifo == old(fpga.aiFifo).Set(b, fifo0[consumed..])
      invariant fpga.regs == old(fpga.regs) && fpga.aoFifo == old(fpga.aoFifo)
      invariant fpga.trace == trace0 + Reads(b, sizes)
      decreases remaining
    {
      ghost var nextSizes := sizes + [MaxReadback];
      var nextRemaining: nat := remaining - MaxReadback;
      ChunkStep(total, sizes, remaining, nextSizes, nextRemaining);
      if budget != -1 && elapsed(i) > budget {
        TimedOutAt(total, timeout, elapsed, sizes, remaining);
        ReadsOnly(trace0, b, sizes);
        return Err(AcquisitionTimeout);
      }
      assert !ChunkTimesOut(timeout, elapsed, i);
      var chunk := ReadChunk(fpga, b, MaxReadback, fifo0, consumed, data, trace0, sizes);
      if chunk.None? {
        return Err(AcquisitionTimeout);
      }
      data := chunk.value;
      remaining := nextRemaining;
      if budget != -1 {
        budget := if budget - elapsed(i) < 0 then 0 else budget - elapsed(i);
      }
      sizes := nextSizes;
      i := i + 1;
      consumed := consumed + MaxReadback;
    }
    assert ChunkSizes(remaining) == [remaining];
    if budget != -1 && elapsed(i) > budget {
      TimedOutAt(total, timeout, elapsed, sizes, remaining);
      ReadsOnly(trace0, b, sizes);
      return Err(AcquisitionTimeout);
    }
    NoneTimedOut(total, timeout, elapsed, sizes, remaining);
    var last := ReadChunk(fpga, b, remaining, fifo0, consumed, data, trace0, sizes);
    if last.None? {
      return Err(AcquisitionTimeout);
    }
    r := Ok(last.value);
  }

  /// One `dma.read(count)` of the drain: on success the samples read so far
  /// grow by the next `count` samples of the FIFO.
  method ReadChunk(fpga: Fpga, b: Bank, count: nat, ghost fifo0: seq<int>, ghost consumed: nat, data: seq<int>,
                   ghost trace0: seq<Action>, ghost sizes: seq<nat>)
    returns (r: Option<seq<int>>)
    requires consumed <= |fifo0| && data == fifo0[..consumed] && fpga.aiFifo.Get(b) == fifo0[consumed..]
    requires fpga.trace == trace0 + Reads(b, sizes)
    modifies fpga
    ensures fpga.trace == trace0 + Reads(b, sizes + [count])
    ensures OnlyReads(trace0, fpga.trace, b)
    ensures fpga.regs == old(fpga.regs) && fpga.aoFifo == old(fpga.aoFifo)
    ensures r.Some? <==> consumed + count <= |fifo0|
    ensures r.Some? ==>
      r.value == fifo0[..consumed + count] && fpga.aiFifo == old(fpga.aiFifo).Set(b, fifo0[consumed + count..])
    ensures r.None? ==> fpga.aiFifo == old(fpga.aiFifo)
  {
    var chunk := fpga.ReadFifo(b, count);
    ReadsStep(b, sizes, count);
    AppendAssoc(trace0, Reads(b, sizes), [FifoRead(b, count)]);
    ReadsOnly(trace0, b, sizes + [count]);
    if chunk.None? {
      return None;
    }
    SliceStep(fifo0, consumed, count);
    r := Some(data + chunk.value);
  }

  /// One more full read: the plan of `total` is the reads so far and then
  /// the plan of what remains.
  lemma ChunkStep(total: nat, sizes: seq<nat>, remaining: nat, nextSizes: seq<nat>, nextRemaining: nat)
    requires remaining > MaxReadback
    requires ChunkSizes(total) == sizes + ChunkSizes(remaining)
    requires nextSizes == sizes + [MaxReadback] && nextRemaining == remaining - MaxReadback
    ensures ChunkSizes(total) == nextSizes + ChunkSizes(nextRemaining)
    ensures |sizes| < |ChunkSizes(total)|
  {
    assert ChunkSizes(remaining) == [MaxReadback] + ChunkSizes(nextRemaining);
    AppendAssoc(sizes, [MaxReadback], ChunkSizes(nextRemaining));
  }

  /// A read that times out before the plan is done fails the drain.
  lemma TimedOutAt(total: nat, timeout: int, elapsed: nat -> nat, sizes: seq<nat>, remaining: nat)
    requires ChunkSizes(total) == sizes + ChunkSizes(remaining)
    requires ChunkTimesOut(timeout, elapsed, |sizes|)
    ensures !NoChunkTimesOut(total, timeout, elapsed)
  {
    ChunkSizesSpec(remaining);
    assert |sizes| < |ChunkSizes(total)|;
  }

  /// The last read of the plan not timing out, after none before it did,
  /// means no read of the drain times out.
  lemma NoneTimedOut(total: nat, timeout: int, elapsed: nat -> nat, sizes: seq<nat>, remaining: nat)
    requires ChunkSizes(total) == sizes + [remaining]
    requires forall j :: 0 <= j < |sizes| ==> !ChunkTimesOut(timeout, elapsed, j)
    requires !(Budget(timeout, elapsed, |sizes|) != -1 && elapsed(|sizes|) > Budget(timeout, elapsed, |sizes|))
    ensures NoChunkTimesOut(total, timeout, elapsed)
  {
    forall j | 0 <= j < |ChunkSizes(total)|
      ensures !ChunkTimesOut(timeout, elapsed, j)
    {
      if j == |sizes| {
        assert !(Budget(timeout, elapsed, j) != -1 && elapsed(j) > Budget(timeout, elapsed, j));
      }
    }
  }

  lemma ReadsOnly(before: seq<Action>, b: Bank, sizes: seq<nat>)
    ensures OnlyReads(before, before + Reads(b, sizes), b)
  {
    var after := before + Reads(b, sizes);
    assert after[..|before|] == before;
    forall j | |before| <= j < |after|
      ensures after[j].FifoRead? && after[j].bank == b
    {
      assert after[j] == Reads(b, sizes)[j - |before|];
    }
  }

  lemma SliceStep(s: seq<int>, a: nat, k: nat)
    requires a + k <= |s|
    ensures s[..a + k] == s[..a] + s[a..][..k]
    ensures s[a..][k..] == s[a + k..]
  {
  }

  lemma ReadsStep(b: Bank, sizes: seq<nat>, k: nat)
    ensures Reads(b, sizes + [k]) == Reads(b, sizes) + [FifoRead(b, k)]
  {
  }


  // ----- De-interleaving -----

  /// `data[i::n]`: the elements at positions i, i + n, i + 2n, ...
  function Stride(data: seq<int>, i: nat, n: nat): seq<int>
    requires n > 0
    decreases |data| - i
  {
    if i >= |data| then [] else [data[i]] + Stride(data, i + n, n)
  }

  /// Element j of the stride from i is element i + j*n of the data.
  lemma {:induction false} StrideElements(data: seq<int>, i: nat, n: nat, j: nat)
    requires n > 0 && j < |Stride(data, i, n)|
    ensures i + j * n < |data| && Stride(data, i, n)[j] == data[i + j * n]
    decreases j
  {
    if j > 0 {
      StrideElements(data, i + n, n, j - 1);
      assert i + n + (j - 1) * n == i + j * n;
    }
  }

  /// The stride from i has s elements when i + (s-1)n is the last position
  /// below |data|.
  lemma {:induction false} StrideLength(data: seq<int>, i: nat, n: nat, s: nat)
    requires n > 0
    requires if s == 0 then |data| <= i else i + (s - 1) * n < |data| <= i + s * n
    ensures |Stride(data, i, n)| == s
    decreases s
  {
    if s > 0 {
      if s == 1 {
        assert |data| <= i + n;
      } else {
        assert i + n + (s - 2) * n == i + (s - 1) * n;
        assert i + n + (s - 1) * n == i + s * n;
      }
      StrideLength(data, i + n, n, s - 1);
    }
  }

  /// De-interleaving n channels of s samples each gives every channel
  /// exactly s samples: channel i's j-th sample is element i + j*n.
  lemma ChannelSamples(data: seq<int>, n: nat, s: nat, i: nat)
    requires 0 <= i < n && |data| == n * s
    ensures |Stride(data, i, n)| == s
    ensures forall j :: 0 <= j < s ==> i + j * n < |data| && Stride(data, i, n)[j] == data[i + j * n]
  {
    ChannelSampleCount(data, n, s, i);
    forall j | 0 <= j < s
      ensures i + j * n < |data| && Stride(data, i, n)[j] == data[i + j * n]
    {
      StrideElements(data, i, n, j);
    }
  }

  lemma ChannelSampleCount(data: seq<int>, n: nat, s: nat, i: nat)
    requires 0 <= i < n && |data| == n * s
    ensures |Stride(data, i, n)| == s
  {
    if s > 0 {
      MulPred(s, n);
      StrideLength(data, i, n, s);
    } else {
      StrideLength(data, i, n, 0);
    }
  }

  lemma MulPred(s: nat, n: nat)
    requires s > 0
    ensures (s - 1) * n == s * n - n && n * s == s * n
  {
  }

  /// `[readvalue[index::n] for index in range(n)]`, built by appending.
  method Deinterleave(data: seq<int>, n: nat) returns (groups: seq<seq<int>>)
    ensures |groups| == n
    ensures forall i :: 0 <= i < n ==> groups[i] == Stride(data, i, n)
  {
    groups := [];
    for index := 0 to n
      invariant |groups| == index
      invariant forall i :: 0 <= i < index ==> groups[i] == Stride(data, i, n)
    {
      groups := groups + [Stride(data, index, n)];
    }
  }
}
