/// The `AnalogInput` session: single-point reads through the scan table,
/// n-sample and continuous acquisitions through the DMA FIFOs, and the
/// start, stop and close bookkeeping shared by every session of the process.
module AISession {
  import opened Common
  import opened SampleRate
  import opened AIConfig
  import opened Hardware
  import opened AIEngine

  /// The table a single-point read starts from: slots 0-7 hold single-ended
  /// AI0-AI7, slots 8-11 differential AI0-AI3, all at +/-10 V.
  const DefaultScanTable: seq<int> := [8, 9, 10, 11, 12, 13, 14, 15, 0, 1, 2, 3]

  /// CNTR of a single-point scan: 40 MHz / 1000 = one sample every 25 us.
  const SinglePointTicks: int := 1000

  // ----- Parameter checks -----

  /// n-sample rate: 1 Hz to 1 MHz for one channel, to 500 kHz for several.
  predicate NSampleRateOk(n: nat, rate: int)
  {
    if n == 1 then 1 <= rate <= 1000000 else 1 <= rate <= 500000
  }

  predicate NSampleArgsOk(n: nat, samples: int, rate: int)
  {
    NSampleRateOk(n, rate) && 0 <= samples <= MaxReadback
  }

  /// Continuous rate: 1 Hz to 1 MHz for one channel, to 250 kHz for several.
  predicate ContinuousRateOk(n: nat, rate: int)
  {
    if n == 1 then 1 <= rate <= 1000000 else 1 <= rate <= 250000
  }

  /// A continuous read asks for a non-negative number of samples and, unless
  /// the timeout is -1, a timeout of at least samples / rate.
  predicate ContinuousArgsOk(samples: int, timeout: int, rate: int)
  {
    0 <= samples && (timeout == -1 || timeout * rate >= samples)
  }

  /// The clock ticks per sample for an aggregate rate, with the default bounds.
  function DefaultTicks(rate: int): (count: int)
    ensures RateToTicks(rate, DefaultMinimum, DefaultMaximum).Ok?
    ensures count == RateToTicks(rate, DefaultMinimum, DefaultMaximum).value.count
    ensures 1333 <= count <= 40000
  {
    DefaultCountBounds(rate);
    RateToTicks(rate, DefaultMinimum, DefaultMaximum).value.count
  }

  // ----- The register accesses of each phase -----

  /// `__stop_continuous`: CNT := 0, then DMA_ENA := False.
  function StopActions(b: Bank): seq<Action>
  {
    [Write(AICnt(b), Int(0)), Write(AIDmaEnabled(b), Flag(false))]
  }

  /// Arming a bank: CNT := 0, CNFG := table, CNTR := ticks, DMA_ENA := True.
  function ArmActions(b: Bank, cnfg: seq<int>, count: int): seq<Action>
  {
    [Write(AICnt(b), Int(0)), Write(AICnfg(b), Table(cnfg)), Write(AICntr(b), Int(count)),
     Write(AIDmaEnabled(b), Flag(true))]
  }

  /// The end of an n-sample read: DMA_ENA := False, then CNT := 0.
  function DisarmActions(b: Bank): seq<Action>
  {
    [Write(AIDmaEnabled(b), Flag(false)), Write(AICnt(b), Int(0))]
  }

  function NSampleBankActions(b: Bank, t: ScanTable, count: int, samples: nat): seq<Action>
  {
    ArmActions(b, t.cnfg, count) + [FifoReset(b), Write(AICnt(b), Int(t.numberOfChannels))]
    + Reads(b, ChunkSizes(t.numberOfChannels * samples)) + DisarmActions(b)
  }

  /// Bank A's acquisition, then bank B's, each only when it has channels.
  function NSampleActions(plan: PerBank<ScanTable>, count: int, samples: nat): seq<Action>
  {
    (if plan.a.numberOfChannels > 0 then NSampleBankActions(A, plan.a, count, samples) else [])
    + (if plan.b.numberOfChannels > 0 then NSampleBankActions(B, plan.b, count, samples) else [])
  }

  /// The two-bank start: both banks armed, then A.SYNC and B.SYNC and the
  /// FIFO resets, then CNT and DMA_ENA of both, and the global SYNC last.
  function TwoBankStart(ta: ScanTable, tb: ScanTable, count: int): seq<Action>
  {
    TwoBankRelease(ta, tb, count) + [Write(GlobalSync, Flag(true))]
  }

  /// The accesses of the two-bank start before its handshakes: where a start
  /// whose banks scan different channel counts stays.
  function TwoBankRelease(ta: ScanTable, tb: ScanTable, count: int): seq<Action>
  {
    ArmActions(A, ta.cnfg, count) + ArmActions(B, tb.cnfg, count) + SyncAndReset()
    + Release(Max(ta.numberOfChannels, tb.numberOfChannels))
  }

  /// Whether the open phase set up bank A before bank B refused: A has
  /// channels and is free.  When bank A itself refuses, or has no channels,
  /// nothing was set up.
  predicate OpenedBeforeRefusal(ka: nat, started: PerBank<bool>)
  {
    ka > 0 && !started.a
  }

  function SyncAndReset(): seq<Action>
  {
    [Write(BankSync(A), Flag(true)), Write(BankSync(B), Flag(true)), FifoReset(A), FifoReset(B)]
  }

  /// Both banks get CNT := m, then both get DMA_ENA := True.
  function Release(m: int): seq<Action>
  {
    [Write(AICnt(A), Int(m)), Write(AICnt(B), Int(m)),
     Write(AIDmaEnabled(A), Flag(true)), Write(AIDmaEnabled(B), Flag(true))]
  }

  function OneBankStart(b: Bank, t: ScanTable, count: int): seq<Action>
  {
    ArmActions(b, t.cnfg, count)
    + [FifoReset(b), Write(AIDmaEnabled(b), Flag(true)), Write(AICnt(b), Int(t.numberOfChannels))]
  }

  /// The start phase of `start_continuous_mode`: the two-bank start when
  /// both banks have channels, the one-bank start otherwise.
  function StartPhase(plan: PerBank<ScanTable>, count: int): seq<Action>
  {
    if plan.a.numberOfChannels > 0 && plan.b.numberOfChannels > 0 then
      TwoBankStart(plan.a, plan.b, count)
    else
      var b := if plan.a.numberOfChannels > 0 then A else B;
      OneBankStart(b, plan.Get(b), count)
  }

  /// A successful `start_continuous_mode`: the open phase stops every bank
  /// with channels, then the start phase.
  function ContinuousStartActions(plan: PerBank<ScanTable>, count: int): seq<Action>
  {
    StopAll(PerBank(plan.a.numberOfChannels > 0, plan.b.numberOfChannels > 0)) + StartPhase(plan, count)
  }

  /// Whether the open phase refuses: a bank with channels is already
  /// started by some session.
  predicate Taken(ka: nat, kb: nat, started: PerBank<bool>)
  {
    (ka > 0 && started.a) || (kb > 0 && started.b)
  }

  /// The outcome of the start phase: no bank with channels means no register
  /// handles; two banks with different channel counts never pass the
  /// read-back of CNT.
  function LaunchOutcome(plan: PerBank<ScanTable>): Result<()>
  {
    var ka := plan.a.numberOfChannels;
    var kb := plan.b.numberOfChannels;
    if ka > 0 && kb > 0 then
      (if ka == kb then Ok(()) else Err(HandshakeNeverCompletes))
    else if ka > 0 || kb > 0 then Ok(())
    else Err(BankNotOpened)
  }

  /// The outcome of `start_continuous_mode` after the rate check and the
  /// scan plan.
  function StartOutcome(plan: PerBank<ScanTable>, started: PerBank<bool>): Result<()>
  {
    if Taken(plan.a.numberOfChannels, plan.b.numberOfChannels, started) then Err(AlreadyStarted)
    else LaunchOutcome(plan)
  }

  /// The start succeeds exactly when no used bank is taken, some bank is
  /// used, and two used banks scan the same number of channels.
  lemma StartOutcomeCases(plan: PerBank<ScanTable>, started: PerBank<bool>)
    ensures var ka := plan.a.numberOfChannels;
      var kb := plan.b.numberOfChannels;
      var taken := (ka > 0 && started.a) || (kb > 0 && started.b);
      var r := StartOutcome(plan, started);
      (r == Err(AlreadyStarted) <==> taken)
      && (r == Err(HandshakeNeverCompletes) <==> !taken && ka > 0 && kb > 0 && ka != kb)
      && (r == Err(BankNotOpened) <==> !taken && ka == 0 && kb == 0)
      && (r.Ok? <==> !taken && (ka > 0 || kb > 0) && (ka > 0 && kb > 0 ==> ka == kb))
  {
  }

  /// `stop_continuous_mode`: stops exactly the banks that are continuous.
  function StopAll(continuous: PerBank<bool>): seq<Action>
  {
    (if continuous.a then StopActions(A) else []) + (if continuous.b then StopActions(B) else [])
  }

  /// A write that configures a scan (table or clock divider).
  predicate ScanSetupWrite(act: Action)
  {
    act.Write? && (act.reg.AICnfg? || act.reg.AICntr?)
  }

  predicate SyncWrite(act: Action)
  {
    act.Write? && (act.reg.BankSync? || act.reg.GlobalSync?)
  }

  /// In the two-bank start every table and divider write of both banks
  /// comes before any SYNC write, and the global SYNC is the last access.
  lemma TwoBankStartOrder(ta: ScanTable, tb: ScanTable, count: int)
    ensures var acts := TwoBankStart(ta, tb, count);
      |acts| == 17
      && acts[|acts| - 1] == Write(GlobalSync, Flag(true))
      && (forall i, j :: 0 <= i < |acts| && 0 <= j < |acts| && ScanSetupWrite(acts[i]) && SyncWrite(acts[j]) ==> i < j)
  {
    var acts := TwoBankStart(ta, tb, count);
    forall i, j | 0 <= i < |acts| && 0 <= j < |acts| && ScanSetupWrite(acts[i]) && SyncWrite(acts[j])
      ensures i < j
    {
      assert i < 8;
      assert j >= 8;
    }
  }

  // ----- Results -----

  /// `[data[i::k] for i in range(k)]`.
  function Groups(data: seq<int>, k: nat): (g: seq<seq<int>>)
    requires k > 0
    ensures |g| == k
  {
    seq(k, i requires 0 <= i < k => Stride(data, i, k))
  }

  /// A bank's result: the first k * samples FIFO values, one list per channel.
  function BankBlock(fifo: seq<int>, k: nat, samples: nat): seq<seq<int>>
    requires k > 0 && k * samples <= |fifo|
  {
    Groups(fifo[..k * samples], k)
  }

  /// Channel i of a bank gets exactly `samples` values: its j-th value is
  /// FIFO element i + j*k.
  lemma BankBlockSpec(fifo: seq<int>, k: nat, samples: nat, i: nat)
    requires k > 0 && k * samples <= |fifo| && i < k
    ensures |BankBlock(fifo, k, samples)[i]| == samples
    ensures forall j :: 0 <= j < samples ==>
      i + j * k < |fifo| && BankBlock(fifo, k, samples)[i][j] == fifo[i + j * k]
  {
    var data := fifo[..k * samples];
    ChannelSamples(data, k, samples, i);
    assert BankBlock(fifo, k, samples)[i] == Stride(data, i, k);
    forall j | 0 <= j < samples
      ensures i + j * k < |fifo| && Stride(data, i, k)[j] == fifo[i + j * k]
    {
      assert i + j * k < |data| && Stride(data, i, k)[j] == data[i + j * k];
    }
  }

  predicate HasData(plan: PerBank<ScanTable>, fifos: PerBank<seq<int>>, samples: nat)
  {
    plan.a.numberOfChannels * samples <= |fifos.a| && plan.b.numberOfChannels * samples <= |fifos.b|
  }

  function NSampleBlocks(plan: PerBank<ScanTable>, fifos: PerBank<seq<int>>, samples: nat): seq<seq<seq<int>>>
    requires HasData(plan, fifos, samples)
  {
    (if plan.a.numberOfChannels > 0 then [BankBlock(fifos.a, plan.a.numberOfChannels, samples)] else [])
    + (if plan.b.numberOfChannels > 0 then [BankBlock(fifos.b, plan.b.numberOfChannels, samples)] else [])
  }

  /// What is left in the FIFOs after an n-sample read.
  function Consumed(plan: PerBank<ScanTable>, fifos: PerBank<seq<int>>, samples: nat): PerBank<seq<int>>
    requires HasData(plan, fifos, samples)
  {
    PerBank(fifos.a[plan.a.numberOfChannels * samples..], fifos.b[plan.b.numberOfChannels * samples..])
  }

  // ----- Single-point reads -----

  predicate AllWellFormed(channels: seq<ChannelConfig>)
  {
    forall i :: 0 <= i < |channels| ==> WellFormed(channels[i])
  }

  /// The register a channel's value is read from: AI.<b>_<c>.VAL or AI.DIFF_<b>_<c>.VAL.
  function ValueRegister(c: ChannelConfig): Reg
  {
    AIValue(c.bank, c.channel, c.mode == Differential)
  }

  function LastOnBank(channels: seq<ChannelConfig>, b: Bank): ChannelConfig
    requires OnBank(channels, b) != []
  {
    OnBank(channels, b)[|OnBank(channels, b)| - 1]
  }

  /// The default table with one channel's slot holding its word.
  function Patched(c: ChannelConfig): (t: seq<int>)
    requires WellFormed(c)
    ensures |t| == TableSize
  {
    DefaultScanTable[Slot(c) := Word(c)]
  }

  /// The table a single-point read writes for bank b: every channel patches
  /// a fresh copy of the default table, so only the bank's last channel
  /// survives.
  function SinglePointTable(channels: seq<ChannelConfig>, b: Bank): (t: seq<int>)
    requires AllWellFormed(channels) && OnBank(channels, b) != []
    ensures |t| == TableSize
  {
    OnBankMembers(channels, b);
    assert LastOnBank(channels, b) in OnBank(channels, b);
    Patched(LastOnBank(channels, b))
  }

  function SinglePointInit(channels: seq<ChannelConfig>, b: Bank): seq<Action>
  {
    if OnBank(channels, b) == [] then []
    else [Write(AICnfg(b), Table(DefaultScanTable)), Write(AICnt(b), Int(TableSize)),
          Write(AICntr(b), Int(SinglePointTicks))]
  }

  function SinglePointCommit(channels: seq<ChannelConfig>, b: Bank): seq<Action>
    requires AllWellFormed(channels)
  {
    if OnBank(channels, b) == [] then [] else [Write(AICnfg(b), Table(SinglePointTable(channels, b)))]
  }

  function SinglePointActions(channels: seq<ChannelConfig>): seq<Action>
    requires AllWellFormed(channels)
  {
    SinglePointInit(channels, A) + SinglePointInit(channels, B)
    + SinglePointCommit(channels, A) + SinglePointCommit(channels, B)
  }

  /// A bank with a channel in the list is not empty.
  lemma {:induction false} OnBankHas(channels: seq<ChannelConfig>, i: nat)
    requires i < |channels|
    ensures OnBank(channels, channels[i].bank) != []
    decreases |channels|
  {
    if i < |channels| - 1 {
      OnBankHas(channels[..|channels| - 1], i);
    }
  }

  /// The single-point table differs from the default only at the slot of
  /// the bank's last channel; an earlier channel whose slot differs keeps
  /// the default entry instead of its own word.
  lemma SinglePointTableSpec(channels: seq<ChannelConfig>, b: Bank)
    requires AllWellFormed(channels) && OnBank(channels, b) != []
    ensures var t := SinglePointTable(channels, b);
      var last := LastOnBank(channels, b);
      Slot(last) < TableSize && t[Slot(last)] == Word(last)
      && forall k :: 0 <= k < TableSize && k != Slot(last) ==> t[k] == DefaultScanTable[k]
  {
    OnBankMembers(channels, b);
    assert LastOnBank(channels, b) in OnBank(channels, b);
  }

  /// The default table already holds the +/-10 V word of every slot, so the
  /// lost patches only matter for the other ranges.
  lemma DefaultTableIsTenVolt(c: ChannelConfig)
    requires WellFormed(c) && c.rangeBits == 0
    ensures DefaultScanTable[Slot(c)] == Word(c)
  {
    WordValue(c);
  }

  /// Two +/-1 V channels AI0 and AI1 on bank A: slot 1 holds AI1's word
  /// 0b111001, but slot 0 holds the default 8 instead of AI0's 0b111000.
  lemma SinglePointLosesEarlierPatch()
    ensures var c0 := ChannelConfig(A, 0, SingleEnded, 48);
      var c1 := ChannelConfig(A, 1, SingleEnded, 48);
      var t := SinglePointTable([c0, c1], A);
      Word(c0) == 56 && Word(c1) == 57 && t[1] == 57 && t[0] == 8
  {
    var c0 := ChannelConfig(A, 0, SingleEnded, 48);
    var c1 := ChannelConfig(A, 1, SingleEnded, 48);
    WordValue(c0);
    WordValue(c1);
    assert [c0, c1][..1] == [c0];
    assert [c0][..0] == [];
    assert OnBank([c0], A) == [c0];
    assert OnBank([c0, c1], A) == [c0, c1];
  }

  // ----- Helpers that drive one phase of the FPGA -----

  method Arm(fpga: Fpga, b: Bank, cnfg: seq<int>, count: int)
    requires fpga.Valid() && |cnfg| == TableSize
    modifies fpga
    ensures fpga.Valid()
    ensures fpga.trace == old(fpga.trace) + ArmActions(b, cnfg, count)
    ensures fpga.regs == old(fpga.regs)[AICnt(b) := Int(0)][AICnfg(b) := Table(cnfg)]
      [AICntr(b) := Int(count)][AIDmaEnabled(b) := Flag(true)]
    ensures fpga.aiFifo == old(fpga.aiFifo) && fpga.aoFifo == old(fpga.aoFifo)
  {
    fpga.WriteReg(AICnt(b), Int(0));
    fpga.WriteReg(AICnfg(b), Table(cnfg));
    fpga.WriteReg(AICntr(b), Int(count));
    fpga.WriteReg(AIDmaEnabled(b), Flag(true));
    // The read-back handshake holds on its first check.
    assert fpga.Read(AICnt(b)) == Int(0) && fpga.Read(AICnfg(b)) == Table(cnfg)
      && fpga.Read(AICntr(b)) == Int(count) && fpga.Read(AIDmaEnabled(b)) == Flag(true);
  }

  /// The hardware half of `__read_multiple_points_n_samples_from_specific_bank`:
  /// arm the bank, reset its FIFO, start the scan, drain k * samples values,
  /// disarm, and deinterleave.
  method AcquireBank(fpga: Fpga, b: Bank, t: ScanTable, samples: nat, count: int)
    returns (r: Result<seq<seq<int>>>)
    requires fpga.Valid() && |t.cnfg| == TableSize && t.numberOfChannels > 0
    modifies fpga
    ensures fpga.Valid()
    ensures fpga.aoFifo == old(fpga.aoFifo) && fpga.aiFifo.Get(Opposite(b)) == old(fpga.aiFifo.Get(Opposite(b)))
    ensures r.Ok? <==> t.numberOfChannels * samples <= |old(fpga.aiFifo.Get(b))|
    ensures r.Err? ==> r.error == AcquisitionTimeout
    ensures r.Ok? ==>
      r.value == BankBlock(old(fpga.aiFifo.Get(b)), t.numberOfChannels, samples)
      && fpga.aiFifo == old(fpga.aiFifo).Set(b, old(fpga.aiFifo.Get(b))[t.numberOfChannels * samples..])
      && fpga.trace == old(fpga.trace) + NSampleBankActions(b, t, count, samples)
  {
    var k := t.numberOfChannels;
    Arm(fpga, b, t.cnfg, count);
    ResetAndCount(fpga, b, k);
    ghost var before := fpga.trace;
    ghost var arm := ArmActions(b, t.cnfg, count);
    ghost var launch := [FifoReset(b), Write(AICnt(b), Int(k))];
    AppendAssoc(old(fpga.trace), arm, launch);
    NoTimeoutWhenInfinite(k * samples, _ => 0);
    var data := DrainFifo(fpga, b, k * samples, -1, _ => 0);
    DrainKeepsValid(fpga, before, b);
    if data.Err? {
      return Err(data.error);
    }
    Disarm(fpga, b);
    ghost var drains := Reads(b, ChunkSizes(k * samples));
    AppendAssoc(old(fpga.trace), arm + launch, drains);
    AppendAssoc(old(fpga.trace), arm + launch + drains, DisarmActions(b));
    var groups := Deinterleave(data.value, k);
    assert groups == Groups(data.value, k);
    r := Ok(groups);
  }

  /// The FIFO reset and the CNT write that start an n-sample scan.
  method ResetAndCount(fpga: Fpga, b: Bank, k: int)
    requires fpga.Valid()
    modifies fpga
    ensures fpga.Valid()
    ensures fpga.trace == old(fpga.trace) + [FifoReset(b), Write(AICnt(b), Int(k))]
    ensures fpga.regs == old(fpga.regs)[AICnt(b) := Int(k)]
    ensures fpga.aiFifo == old(fpga.aiFifo) && fpga.aoFifo == old(fpga.aoFifo)
  {
    fpga.ResetFifo(b);
    fpga.WriteReg(AICnt(b), Int(k));
  }

  /// The end of an n-sample read.
  method Disarm(fpga: Fpga, b: Bank)
    requires fpga.Valid()
    modifies fpga
    ensures fpga.Valid()
    ensures fpga.trace == old(fpga.trace) + DisarmActions(b)
    ensures fpga.regs == old(fpga.regs)[AIDmaEnabled(b) := Flag(false)][AICnt(b) := Int(0)]
    ensures fpga.aiFifo == old(fpga.aiFifo) && fpga.aoFifo == old(fpga.aoFifo)
  {
    fpga.WriteReg(AIDmaEnabled(b), Flag(false));
    fpga.WriteReg(AICnt(b), Int(0));
  }

  method SyncAndResetBoth(fpga: Fpga)
    requires fpga.Valid()
    modifies fpga
    ensures fpga.Valid()
    ensures fpga.trace == old(fpga.trace) + SyncAndReset()
    ensures fpga.regs == old(fpga.regs)[BankSync(A) := Flag(true)][BankSync(B) := Flag(true)]
    ensures fpga.aiFifo == old(fpga.aiFifo) && fpga.aoFifo == old(fpga.aoFifo)
  {
    fpga.WriteReg(BankSync(A), Flag(true));
    fpga.WriteReg(BankSync(B), Flag(true));
    fpga.ResetFifo(A);
    fpga.ResetFifo(B);
  }

  method ReleaseBoth(fpga: Fpga, m: int)
    requires fpga.Valid()
    modifies fpga
    ensures fpga.Valid()
    ensures fpga.trace == old(fpga.trace) + Release(m)
    ensures fpga.Read(AICnt(A)) == Int(m) && fpga.Read(AICnt(B)) == Int(m)
    ensures fpga.Read(AIDmaEnabled(A)) == Flag(true) && fpga.Read(AIDmaEnabled(B)) == Flag(true)
    ensures fpga.aiFifo == old(fpga.aiFifo) && fpga.aoFifo == old(fpga.aoFifo)
  {
    fpga.WriteReg(AICnt(A), Int(m));
    fpga.WriteReg(AICnt(B), Int(m));
    fpga.WriteReg(AIDmaEnabled(A), Flag(true));
    fpga.WriteReg(AIDmaEnabled(B), Flag(true));
  }

  method StopBank(fpga: Fpga, b: Bank)
    requires fpga.Valid()
    modifies fpga
    ensures fpga.Valid()
    ensures fpga.trace == old(fpga.trace) + StopActions(b)
    ensures fpga.regs == old(fpga.regs)[AICnt(b) := Int(0)][AIDmaEnabled(b) := Flag(false)]
    ensures fpga.aiFifo == old(fpga.aiFifo) && fpga.aoFifo == old(fpga.aoFifo)
  {
    fpga.WriteReg(AICnt(b), Int(0));
    fpga.WriteReg(AIDmaEnabled(b), Flag(false));
  }

  /// The value loop of a single-point read: one VAL register per channel,
  /// in the order of the channel list.
  method ReadValueRegisters(fpga: Fpga, cs: seq<ChannelConfig>) returns (values: seq<int>)
    requires fpga.Valid()
    ensures |values| == |cs|
    ensures forall i :: 0 <= i < |cs| ==> values[i] == fpga.Read(ValueRegister(cs[i])).i
  {
    values := [];
    for i := 0 to |cs|
      invariant |values| == i
      invariant forall k :: 0 <= k < i ==> values[k] == fpga.Read(ValueRegister(cs[k])).i
    {
      values := values + [fpga.Read(ValueRegister(cs[i])).i];
    }
  }

  /// What a continuous read returns: per continuous bank, bank A first,
  /// one list per channel of `samples` values from the front of its FIFO.
  function ContinuousBlocks(continuous: PerBank<bool>, fifos: PerBank<seq<int>>, ka: nat, kb: nat, samples: nat)
    : seq<seq<seq<int>>>
    requires continuous.a ==> ka > 0 && ka * samples <= |fifos.a|
    requires continuous.b ==> kb > 0 && kb * samples <= |fifos.b|
  {
    (if continuous.a then [BankBlock(fifos.a, ka, samples)] else [])
    + (if continuous.b then [BankBlock(fifos.b, kb, samples)] else [])
  }

  /// The FIFO reads of a continuous read, bank A's first.
  function ContinuousReads(continuous: PerBank<bool>, ka: nat, kb: nat, samples: nat): seq<Action>
  {
    (if continuous.a then Reads(A, ChunkSizes(ka * samples)) else [])
    + (if continuous.b then Reads(B, ChunkSizes(kb * samples)) else [])
  }

  /// What `read()` returns: one value per channel, or per bank one list per channel.
  datatype Acquired = Points(values: seq<int>) | Blocks(banks: seq<seq<seq<int>>>)

  class AnalogInput {
    /// `channel_list`: bank A's channels, then bank B's.
    const channels: seq<ChannelConfig>
    const fpga: Fpga
    /// The class-level dictionaries, shared by every session.
    const registry: Registry
    var isContinuous: PerBank<bool>
    var isNSampleOpened: PerBank<bool>
    /// `__sample_rate`, set by `start_continuous_mode`.
    var sampleRate: Option<int>

    ghost predicate Valid()
      reads this, fpga
    {
      fpga.Valid()
      && AllWellFormed(channels)
      && (isContinuous.a ==> OnBank(channels, A) != [])
      && (isContinuous.b ==> OnBank(channels, B) != [])
      && (sampleRate.Some? ==> sampleRate.value >= 1)
      && (isContinuous.a || isContinuous.b ==> sampleRate.Some?)
    }

    constructor(cs: seq<ChannelConfig>, fpga: Fpga, registry: Registry)
      requires fpga.Valid() && AllWellFormed(cs)
      ensures Valid()
      ensures channels == cs && this.fpga == fpga && this.registry == registry
      ensures isContinuous == Both(false) && isNSampleOpened == Both(false) && sampleRate == None
    {
      channels := cs;
      this.fpga := fpga;
      this.registry := registry;
      isContinuous := Both(false);
      isNSampleOpened := Both(false);
      sampleRate := None;
    }

    predicate AnyContinuous()
      reads this
    {
      isContinuous.a || isContinuous.b
    }

    /// `__read_single_point`.
    method ReadSinglePoint() returns (values: seq<int>)
      requires Valid()
      modifies fpga
      ensures Valid()
      ensures fpga.trace == old(fpga.trace) + SinglePointActions(channels)
      ensures fpga.aiFifo == old(fpga.aiFifo) && fpga.aoFifo == old(fpga.aoFifo)
      ensures |values| == |channels|
      ensures forall i :: 0 <= i < |channels| ==> values[i] == fpga.Read(ValueRegister(channels[i])).i
    {
      InitSinglePoint(A);
      InitSinglePoint(B);
      var current := PatchTables();
      CommitSinglePoint(A, current.a);
      CommitSinglePoint(B, current.b);
      values := ReadValueRegisters(fpga, channels);
      ghost var initA := SinglePointInit(channels, A);
      ghost var initB := SinglePointInit(channels, B);
      AppendAssoc(old(fpga.trace), initA, initB);
      AppendAssoc(old(fpga.trace), initA + initB, SinglePointCommit(channels, A));
      AppendAssoc(old(fpga.trace), initA + initB + SinglePointCommit(channels, A), SinglePointCommit(channels, B));
    }

    /// The patch loop of `__read_single_point`: each channel reads its bank's
    /// CNFG register and puts its own word into its slot.
    method PatchTables() returns (current: PerBank<seq<int>>)
      requires Valid()
      requires forall b: Bank :: OnBank(channels, b) != [] ==> fpga.Read(AICnfg(b)) == Table(DefaultScanTable)
      ensures forall b: Bank :: OnBank(channels, b) != [] ==> current.Get(b) == SinglePointTable(channels, b)
    {
      current := Both([]);
      for i := 0 to |channels|
        invariant forall b: Bank :: OnBank(channels[..i], b) != [] ==>
          WellFormed(LastOnBank(channels[..i], b)) && current.Get(b) == Patched(LastOnBank(channels[..i], b))
      {
        var c := channels[i];
        OnBankHas(channels, i);
        var table := fpga.Read(AICnfg(c.bank)).t;
        current := current.Set(c.bank, table[Slot(c) := Word(c)]);
        assert channels[..i + 1][..i] == channels[..i];
      }
      assert channels[..|channels|] == channels;
    }

    method InitSinglePoint(b: Bank)
      requires fpga.Valid()
      modifies fpga
      ensures fpga.Valid()
      ensures fpga.trace == old(fpga.trace) + SinglePointInit(channels, b)
      ensures OnBank(channels, b) != [] ==> fpga.Read(AICnfg(b)) == Table(DefaultScanTable)
      ensures forall b' :: b' != b ==> fpga.Read(AICnfg(b')) == old(fpga.Read(AICnfg(b')))
      ensures fpga.aiFifo == old(fpga.aiFifo) && fpga.aoFifo == old(fpga.aoFifo)
    {
      if OnBank(channels, b) != [] {
        fpga.WriteReg(AICnfg(b), Table(DefaultScanTable));
        fpga.WriteReg(AICnt(b), Int(TableSize));
        fpga.WriteReg(AICntr(b), Int(SinglePointTicks));
      }
    }

    method CommitSinglePoint(b: Bank, table: seq<int>)
      requires fpga.Valid() && AllWellFormed(channels)
      requires OnBank(channels, b) != [] ==> table == SinglePointTable(channels, b)
      modifies fpga
      ensures fpga.Valid()
      ensures fpga.trace == old(fpga.trace) + SinglePointCommit(channels, b)
      ensures forall r: Reg :: !r.AICnfg? ==> fpga.Read(r) == old(fpga.Read(r))
      ensures fpga.aiFifo == old(fpga.aiFifo) && fpga.aoFifo == old(fpga.aoFifo)
    {
      if OnBank(channels, b) != [] {
        fpga.WriteReg(AICnfg(b), Table(table));
      }
    }

    /// `__read_multiple_points_n_samples`.
    method ReadNSamples(samples: int, rate: int) returns (r: Result<seq<seq<seq<int>>>>)
      requires Valid()
      modifies this, fpga, registry
      ensures Valid()
      ensures !NSampleArgsOk(|channels|, samples, rate) ==>
        r == Err(InvalidParameter) && unchanged(this, fpga, registry)
      ensures NSampleArgsOk(|channels|, samples, rate) && ScanPlan(channels).Err? ==>
        r == Err(TooManyChannels) && unchanged(this, fpga, registry)
      ensures NSampleArgsOk(|channels|, samples, rate) && ScanPlan(channels).Ok? ==>
        (r.Ok? <==> HasData(ScanPlan(channels).value, old(fpga.aiFifo), samples))
        && (r.Err? ==> r.error == AcquisitionTimeout)
      ensures r.Ok? ==>
        NSampleArgsOk(|channels|, samples, rate) && ScanPlan(channels).Ok?
        && var plan := ScanPlan(channels).value;
        HasData(plan, old(fpga.aiFifo), samples)
        && r.value == NSampleBlocks(plan, old(fpga.aiFifo), samples)
        && fpga.aiFifo == Consumed(plan, old(fpga.aiFifo), samples)
        && fpga.aoFifo == old(fpga.aoFifo)
        && fpga.trace == old(fpga.trace) + NSampleActions(plan, DefaultTicks(rate * |channels|), samples)
        && isNSampleOpened == PerBank(old(isNSampleOpened.a) || plan.a.numberOfChannels > 0,
                                      old(isNSampleOpened.b) || plan.b.numberOfChannels > 0)
        && registry.nSampleUsers == PerBank(
             old(registry.nSampleUsers.a) + (if plan.a.numberOfChannels > 0 && !old(isNSampleOpened.a) then 1 else 0),
             old(registry.nSampleUsers.b) + (if plan.b.numberOfChannels > 0 && !old(isNSampleOpened.b) then 1 else 0))
        && registry.fifoOpen == PerBank(old(registry.fifoOpen.a) || plan.a.numberOfChannels > 0,
                                        old(registry.fifoOpen.b) || plan.b.numberOfChannels > 0)
        && registry.continuousStarted == old(registry.continuousStarted)
        && isContinuous == old(isContinuous) && sampleRate == old(sampleRate)
    {
      var n := |channels|;
      if !(NSampleRateOk(n, rate) && 0 <= samples <= MaxReadback) {
        return Err(InvalidParameter);
      }
      var plan := ComputeScanPlan(channels);
      if plan.Err? {
        return Err(plan.error);
      }
      var tables := plan.value;
      var count := DefaultTicks(rate * n);
      r := ReadPlanned(tables, samples, count);
    }

    /// The acquisition half of `__read_multiple_points_n_samples` once the
    /// scan tables are known: bank A, then bank B.
    method ReadPlanned(plan: PerBank<ScanTable>, samples: nat, count: int) returns (r: Result<seq<seq<seq<int>>>>)
      requires Valid() && |plan.a.cnfg| == TableSize && |plan.b.cnfg| == TableSize
      modifies this, fpga, registry
      ensures Valid()
      ensures r.Ok? <==> HasData(plan, old(fpga.aiFifo), samples)
      ensures r.Err? ==> r.error == AcquisitionTimeout
      ensures r.Ok? ==>
        HasData(plan, old(fpga.aiFifo), samples)
        && r.value == NSampleBlocks(plan, old(fpga.aiFifo), samples)
        && fpga.aiFifo == Consumed(plan, old(fpga.aiFifo), samples)
        && fpga.trace == old(fpga.trace) + NSampleActions(plan, count, samples)
      ensures r.Ok? ==>
        isNSampleOpened.a == (old(isNSampleOpened.a) || plan.a.numberOfChannels > 0)
        && isNSampleOpened.b == (old(isNSampleOpened.b) || plan.b.numberOfChannels > 0)
      ensures r.Ok? ==>
        registry.nSampleUsers.a ==
          old(registry.nSampleUsers.a) + (if plan.a.numberOfChannels > 0 && !old(isNSampleOpened.a) then 1 else 0)
        && registry.nSampleUsers.b ==
          old(registry.nSampleUsers.b) + (if plan.b.numberOfChannels > 0 && !old(isNSampleOpened.b) then 1 else 0)
      ensures r.Ok? ==>
        registry.fifoOpen.a == (old(registry.fifoOpen.a) || plan.a.numberOfChannels > 0)
        && registry.fifoOpen.b == (old(registry.fifoOpen.b) || plan.b.numberOfChannels > 0)
      ensures fpga.aoFifo == old(fpga.aoFifo)
      ensures registry.continuousStarted == old(registry.continuousStarted)
      ensures isContinuous == old(isContinuous) && sampleRate == old(sampleRate)
    {
      ghost var trace0 := fpga.trace;
      ghost var fifo0 := fpga.aiFifo;
      var blocksA := ReadBankIfUsed(A, plan.a, samples, count);
      if blocksA.Err? {
        return Err(blocksA.error);
      }
      ghost var actsA := if plan.a.numberOfChannels > 0 then NSampleBankActions(A, plan.a, count, samples) else [];
      assert fpga.aiFifo.b == fifo0.b;
      var blocksB := ReadBankIfUsed(B, plan.b, samples, count);
      if blocksB.Err? {
        return Err(blocksB.error);
      }
      ghost var actsB := if plan.b.numberOfChannels > 0 then NSampleBankActions(B, plan.b, count, samples) else [];
      AppendAssoc(trace0, actsA, actsB);
      r := Ok(blocksA.value + blocksB.value);
    }

    /// One bank's turn in `__read_multiple_points_n_samples`: a bank without
    /// channels is skipped.
    method ReadBankIfUsed(b: Bank, t: ScanTable, samples: nat, count: int) returns (r: Result<seq<seq<seq<int>>>>)
      requires Valid() && |t.cnfg| == TableSize
      modifies this, fpga, registry
      ensures Valid()
      ensures isContinuous == old(isContinuous) && sampleRate == old(sampleRate)
      ensures isNSampleOpened.Get(b) == (old(isNSampleOpened.Get(b)) || t.numberOfChannels > 0)
      ensures isNSampleOpened.Get(Opposite(b)) == old(isNSampleOpened.Get(Opposite(b)))
      ensures registry.nSampleUsers.Get(b) ==
        old(registry.nSampleUsers.Get(b)) + (if t.numberOfChannels > 0 && !old(isNSampleOpened.Get(b)) then 1 else 0)
      ensures registry.nSampleUsers.Get(Opposite(b)) == old(registry.nSampleUsers.Get(Opposite(b)))
      ensures registry.fifoOpen.Get(b) == (old(registry.fifoOpen.Get(b)) || t.numberOfChannels > 0)
      ensures registry.fifoOpen.Get(Opposite(b)) == old(registry.fifoOpen.Get(Opposite(b)))
      ensures registry.continuousStarted == old(registry.continuousStarted)
      ensures fpga.aoFifo == old(fpga.aoFifo) && fpga.aiFifo.Get(Opposite(b)) == old(fpga.aiFifo.Get(Opposite(b)))
      ensures r.Ok? <==> t.numberOfChannels * samples <= |old(fpga.aiFifo.Get(b))|
      ensures r.Err? ==> r.error == AcquisitionTimeout
      ensures r.Ok? ==>
        r.value == (if t.numberOfChannels > 0 then [BankBlock(old(fpga.aiFifo.Get(b)), t.numberOfChannels, samples)] else [])
        && fpga.aiFifo == old(fpga.aiFifo).Set(b, old(fpga.aiFifo.Get(b))[t.numberOfChannels * samples..])
        && fpga.trace == old(fpga.trace) + (if t.numberOfChannels > 0 then NSampleBankActions(b, t, count, samples) else [])
    {
      if t.numberOfChannels == 0 {
        assert old(fpga.aiFifo).Set(b, old(fpga.aiFifo.Get(b))[0..]) == old(fpga.aiFifo);
        return Ok([]);
      }
      var block := ReadBankNSamples(b, t, samples, count);
      if block.Err? {
        return Err(block.error);
      }
      r := Ok([block.value]);
    }

    /// `__read_multiple_points_n_samples_from_specific_bank`.
    method ReadBankNSamples(b: Bank, t: ScanTable, samples: nat, count: int) returns (r: Result<seq<seq<int>>>)
      requires Valid() && |t.cnfg| == TableSize && t.numberOfChannels > 0
      modifies this, fpga, registry
      ensures Valid()
      ensures isContinuous == old(isContinuous) && sampleRate == old(sampleRate)
      ensures isNSampleOpened == old(isNSampleOpened).Set(b, true)
      ensures registry.nSampleUsers ==
        if old(isNSampleOpened.Get(b)) then old(registry.nSampleUsers)
        else old(registry.nSampleUsers).Set(b, old(registry.nSampleUsers.Get(b)) + 1)
      ensures registry.fifoOpen == old(registry.fifoOpen).Set(b, true)
      ensures registry.continuousStarted == old(registry.continuousStarted)
      ensures fpga.aoFifo == old(fpga.aoFifo) && fpga.aiFifo.Get(Opposite(b)) == old(fpga.aiFifo.Get(Opposite(b)))
      ensures r.Ok? <==> t.numberOfChannels * samples <= |old(fpga.aiFifo.Get(b))|
      ensures r.Err? ==> r.error == AcquisitionTimeout
      ensures r.Ok? ==>
        r.value == BankBlock(old(fpga.aiFifo.Get(b)), t.numberOfChannels, samples)
        && fpga.aiFifo == old(fpga.aiFifo).Set(b, old(fpga.aiFifo.Get(b))[t.numberOfChannels * samples..])
        && fpga.trace == old(fpga.trace) + NSampleBankActions(b, t, count, samples)
    {
      registry.fifoOpen := registry.fifoOpen.Set(b, true);
      if !isNSampleOpened.Get(b) {
        isNSampleOpened := isNSampleOpened.Set(b, true);
        registry.nSampleUsers := registry.nSampleUsers.Set(b, registry.nSampleUsers.Get(b) + 1);
      }
      r := AcquireBank(fpga, b, t, samples, count);
    }

    /// Whether bank b can deliver a continuous read: CNT shows the bank's
    /// channel count, the FIFO has not overflowed, its handle is open, it
    /// holds the data and no read exceeds its budget.
    predicate BankCanDeliver(b: Bank, samples: nat, timeout: int, elapsed: nat -> nat)
      reads this, fpga, registry
    {
      var k := |OnBank(channels, b)|;
      fpga.Read(AICnt(b)) == Int(k) && !Truthy(fpga.Read(AIDmaFull(b))) && registry.fifoOpen.Get(b)
      && k * samples <= |fpga.aiFifo.Get(b)| && NoChunkTimesOut(k * samples, timeout, elapsed)
    }

    /// The error of the first failing check of a continuous bank read.
    function DeliveryError(b: Bank): Error
      reads this, fpga, registry
    {
      var k := |OnBank(channels, b)|;
      if fpga.Read(AICnt(b)) != Int(k) then NotStarted
      else if Truthy(fpga.Read(AIDmaFull(b))) then BufferOverrun
      else if !registry.fifoOpen.Get(b) then NoFifo
      else AcquisitionTimeout
    }

    /// `__read_from_specific_bank` of the continuous path.
    method ReadBankContinuous(b: Bank, samples: nat, timeout: int, elapsed: nat -> nat)
      returns (r: Result<seq<seq<int>>>)
      requires Valid() && OnBank(channels, b) != []
      modifies fpga
      ensures Valid()
      ensures fpga.regs == old(fpga.regs) && fpga.aoFifo == old(fpga.aoFifo)
      ensures fpga.aiFifo.Get(Opposite(b)) == old(fpga.aiFifo.Get(Opposite(b)))
      ensures r.Ok? <==> old(BankCanDeliver(b, samples, timeout, elapsed))
      ensures r.Err? ==> r.error == old(DeliveryError(b))
      ensures r.Ok? ==>
        var k := |OnBank(channels, b)|;
        r.value == BankBlock(old(fpga.aiFifo.Get(b)), k, samples)
        && fpga.aiFifo == old(fpga.aiFifo).Set(b, old(fpga.aiFifo.Get(b))[k * samples..])
        && fpga.trace == old(fpga.trace) + Reads(b, ChunkSizes(k * samples))
    {
      var k := |OnBank(channels, b)|;
      if fpga.Read(AICnt(b)) != Int(k) {
        return Err(NotStarted);
      }
      if Truthy(fpga.Read(AIDmaFull(b))) {
        return Err(BufferOverrun);
      }
      if !registry.fifoOpen.Get(b) {
        return Err(NoFifo);
      }
      ghost var before := fpga.trace;
      var data := DrainFifo(fpga, b, k * samples, timeout, elapsed);
      DrainKeepsValid(fpga, before, b);
      if data.Err? {
        return Err(data.error);
      }
      var groups := Deinterleave(data.value, k);
      assert groups == Groups(data.value, k);
      r := Ok(groups);
    }

    /// `__read_multiple_points_continuous`: bank A's lists, then bank B's,
    /// for the banks in continuous mode.
    method ReadContinuous(samples: int, timeout: int, elapsed: PerBank<nat -> nat>)
      returns (r: Result<seq<seq<seq<int>>>>)
      requires Valid() && AnyContinuous()
      modifies fpga
      ensures Valid()
      ensures fpga.regs == old(fpga.regs) && fpga.aoFifo == old(fpga.aoFifo)
      ensures !ContinuousArgsOk(samples, timeout, sampleRate.value) ==>
        r == Err(InvalidParameter) && unchanged(fpga)
      ensures r.Ok? <==>
        ContinuousArgsOk(samples, timeout, sampleRate.value)
        && (isContinuous.a ==> old(BankCanDeliver(A, samples, timeout, elapsed.a)))
        && (isContinuous.b ==> old(BankCanDeliver(B, samples, timeout, elapsed.b)))
      ensures r.Err? && ContinuousArgsOk(samples, timeout, sampleRate.value) ==>
        r.error == if isContinuous.a && !old(BankCanDeliver(A, samples, timeout, elapsed.a))
                   then old(DeliveryError(A)) else old(DeliveryError(B))
      ensures r.Ok? ==>
        var ka := |OnBank(channels, A)|;
        var kb := |OnBank(channels, B)|;
        r.value == (if isContinuous.a then [BankBlock(old(fpga.aiFifo.a), ka, samples)] else [])
                   + (if isContinuous.b then [BankBlock(old(fpga.aiFifo.b), kb, samples)] else [])
        && fpga.aiFifo == PerBank(if isContinuous.a then old(fpga.aiFifo.a)[ka * samples..] else old(fpga.aiFifo.a),
                                  if isContinuous.b then old(fpga.aiFifo.b)[kb * samples..] else old(fpga.aiFifo.b))
        && fpga.trace == old(fpga.trace) + (if isContinuous.a then Reads(A, ChunkSizes(ka * samples)) else [])
                         + (if isContinuous.b then Reads(B, ChunkSizes(kb * samples)) else [])
    {
      if samples < 0 || (timeout != -1 && timeout * sampleRate.value < samples) {
        return Err(InvalidParameter);
      }
      ghost var canB := BankCanDeliver(B, samples, timeout, elapsed.b);
      ghost var errB := DeliveryError(B);
      var blocksA: seq<seq<seq<int>>> := [];
      if isContinuous.a {
        var block := ReadBankContinuous(A, samples, timeout, elapsed.a);
        if block.Err? {
          return Err(block.error);
        }
        blocksA := [block.value];
        assert BankCanDeliver(B, samples, timeout, elapsed.b) == canB && DeliveryError(B) == errB;
      } else {
        AppendEmpty(fpga.trace);
      }
      var blocksB: seq<seq<seq<int>>> := [];
      if isContinuous.b {
        var block := ReadBankContinuous(B, samples, timeout, elapsed.b);
        if block.Err? {
          return Err(block.error);
        }
        blocksB := [block.value];
      } else {
        AppendEmpty(fpga.trace);
      }
      r := Ok(blocksA + blocksB);
    }

    /// `start_continuous_mode`.
    method StartContinuous(rate: int) returns (r: Result<()>)
      requires Valid()
      modifies this, fpga, registry
      ensures Valid()
      ensures !ContinuousRateOk(|channels|, rate) ==>
        r == Err(InvalidParameter) && unchanged(this, fpga, registry)
      ensures ContinuousRateOk(|channels|, rate) ==> sampleRate == Some(rate)
      ensures ContinuousRateOk(|channels|, rate) && ScanPlan(channels).Err? ==>
        r == Err(TooManyChannels) && unchanged(fpga, registry)
        && isContinuous == old(isContinuous) && isNSampleOpened == old(isNSampleOpened)
      ensures ContinuousRateOk(|channels|, rate) && ScanPlan(channels).Ok? ==>
        r == StartOutcome(ScanPlan(channels).value, old(registry.continuousStarted))
      ensures r.Ok? ==>
        ContinuousRateOk(|channels|, rate) && ScanPlan(channels).Ok?
        && var ka := |OnBank(channels, A)|;
        var kb := |OnBank(channels, B)|;
        isContinuous == PerBank(ka > 0, kb > 0)
        && registry.continuousStarted == PerBank(old(registry.continuousStarted.a) || ka > 0,
                                                 old(registry.continuousStarted.b) || kb > 0)
        && registry.fifoOpen == PerBank(old(registry.fifoOpen.a) || ka > 0, old(registry.fifoOpen.b) || kb > 0)
        && registry.nSampleUsers == old(registry.nSampleUsers) && isNSampleOpened == old(isNSampleOpened)
        && fpga.aiFifo == old(fpga.aiFifo) && fpga.aoFifo == old(fpga.aoFifo)
        && fpga.trace == old(fpga.trace)
             + ContinuousStartActions(ScanPlan(channels).value, DefaultTicks(rate * |channels|))
      ensures ContinuousRateOk(|channels|, rate) && ScanPlan(channels).Ok? && r.Err?
              && r != Err(HandshakeNeverCompletes) ==>
        var setUp := OpenedBeforeRefusal(|OnBank(channels, A)|, old(registry.continuousStarted));
        isContinuous == (if setUp then old(isContinuous).Set(A, true) else old(isContinuous))
        && registry.fifoOpen == (if setUp then old(registry.fifoOpen).Set(A, true) else old(registry.fifoOpen))
        && registry.continuousStarted == old(registry.continuousStarted)
        && fpga.trace == old(fpga.trace) + (if setUp then StopActions(A) else [])
      ensures ContinuousRateOk(|channels|, rate) && ScanPlan(channels).Ok? && r == Err(HandshakeNeverCompletes) ==>
        var plan := ScanPlan(channels).value;
        isContinuous == Both(true) && registry.fifoOpen == Both(true)
        && registry.continuousStarted == (if |OnBank(channels, A)| > |OnBank(channels, B)|
                                          then old(registry.continuousStarted).Set(A, true)
                                          else old(registry.continuousStarted))
        && fpga.trace == old(fpga.trace) + StopAll(Both(true))
                         + TwoBankRelease(plan.a, plan.b, DefaultTicks(rate * |channels|))
    {
      var n := |channels|;
      if !ContinuousRateOk(n, rate) {
        return Err(InvalidParameter);
      }
      sampleRate := Some(rate);
      var plan := ComputeScanPlan(channels);
      if plan.Err? {
        return Err(plan.error);
      }
      var count := DefaultTicks(rate * n);
      r := OpenAndStart(plan.value, count);
    }

    /// `__open_ai_continuous` then `__start_ai_continuous`, once the scan
    /// tables are known.
    method OpenAndStart(plan: PerBank<ScanTable>, count: int) returns (r: Result<()>)
      requires Valid() && sampleRate.Some? && |plan.a.cnfg| == TableSize && |plan.b.cnfg| == TableSize
      requires plan.a.numberOfChannels == |OnBank(channels, A)| && plan.b.numberOfChannels == |OnBank(channels, B)|
      modifies this, fpga, registry
      ensures Valid() && sampleRate == old(sampleRate)
      ensures r == StartOutcome(plan, old(registry.continuousStarted))
      ensures r.Ok? ==> isContinuous == PerBank(plan.a.numberOfChannels > 0, plan.b.numberOfChannels > 0)
      ensures r.Ok? ==> registry.continuousStarted == PerBank(
        old(registry.continuousStarted.a) || plan.a.numberOfChannels > 0,
        old(registry.continuousStarted.b) || plan.b.numberOfChannels > 0)
      ensures r.Ok? ==> registry.fifoOpen == PerBank(
        old(registry.fifoOpen.a) || plan.a.numberOfChannels > 0,
        old(registry.fifoOpen.b) || plan.b.numberOfChannels > 0)
      ensures registry.nSampleUsers == old(registry.nSampleUsers) && isNSampleOpened == old(isNSampleOpened)
      ensures fpga.aiFifo == old(fpga.aiFifo) && fpga.aoFifo == old(fpga.aoFifo)
      ensures r.Ok? ==> fpga.trace == old(fpga.trace) + ContinuousStartActions(plan, count)
      ensures r.Err? && r != Err(HandshakeNeverCompletes) ==>
        var setUp := OpenedBeforeRefusal(plan.a.numberOfChannels, old(registry.continuousStarted));
        isContinuous == (if setUp then old(isContinuous).Set(A, true) else old(isContinuous))
        && registry.fifoOpen == (if setUp then old(registry.fifoOpen).Set(A, true) else old(registry.fifoOpen))
        && registry.continuousStarted == old(registry.continuousStarted)
        && fpga.trace == old(fpga.trace) + (if setUp then StopActions(A) else [])
      ensures r == Err(HandshakeNeverCompletes) ==>
        isContinuous == Both(true) && registry.fifoOpen == Both(true)
        && registry.continuousStarted == (if plan.a.numberOfChannels > plan.b.numberOfChannels
                                          then old(registry.continuousStarted).Set(A, true)
                                          else old(registry.continuousStarted))
        && fpga.trace == old(fpga.trace) + StopAll(Both(true)) + TwoBankRelease(plan.a, plan.b, count)
    {
      ghost var ka := plan.a.numberOfChannels;
      ghost var kb := plan.b.numberOfChannels;
      r := OpenAll();
      if r.Err? {
        return r;
      }
      r := StartBanks(plan, count);
      AppendAssoc(old(fpga.trace), StopAll(PerBank(ka > 0, kb > 0)), StartPhase(plan, count));
    }

    /// `__open_ai_continuous`: bank A, then bank B.
    method OpenAll() returns (r: Result<()>)
      requires Valid() && sampleRate.Some?
      modifies this, fpga, registry
      ensures Valid()
      ensures r.Err? <==> Taken(|OnBank(channels, A)|, |OnBank(channels, B)|, old(registry.continuousStarted))
      ensures r.Err? ==> r.error == AlreadyStarted
      ensures r.Ok? ==>
        var ka := |OnBank(channels, A)|;
        var kb := |OnBank(channels, B)|;
        isContinuous == PerBank(ka > 0, kb > 0)
        && registry.fifoOpen == PerBank(old(registry.fifoOpen.a) || ka > 0, old(registry.fifoOpen.b) || kb > 0)
        && fpga.trace == old(fpga.trace) + StopAll(PerBank(ka > 0, kb > 0))
      ensures r.Err? ==>
        var setUp := OpenedBeforeRefusal(|OnBank(channels, A)|, old(registry.continuousStarted));
        isContinuous == (if setUp then old(isContinuous).Set(A, true) else old(isContinuous))
        && registry.fifoOpen == (if setUp then old(registry.fifoOpen).Set(A, true) else old(registry.fifoOpen))
        && fpga.trace == old(fpga.trace) + (if setUp then StopActions(A) else [])
      ensures registry.continuousStarted == old(registry.continuousStarted)
      ensures registry.nSampleUsers == old(registry.nSampleUsers)
      ensures isNSampleOpened == old(isNSampleOpened) && sampleRate == old(sampleRate)
      ensures fpga.aiFifo == old(fpga.aiFifo) && fpga.aoFifo == old(fpga.aoFifo)
    {
      r := OpenContinuous(A);
      if r.Err? {
        return;
      }
      ghost var trace1 := fpga.trace;
      r := OpenContinuous(B);
      if r.Ok? {
        assert fpga.trace == trace1 + (if OnBank(channels, B) != [] then StopActions(B) else []);
      }
    }

    /// `__start_ai_continuous` once both banks are open.
    method StartBanks(plan: PerBank<ScanTable>, count: int) returns (r: Result<()>)
      requires Valid() && |plan.a.cnfg| == TableSize && |plan.b.cnfg| == TableSize
      requires plan.a.numberOfChannels == |OnBank(channels, A)| && plan.b.numberOfChannels == |OnBank(channels, B)|
      requires isContinuous == PerBank(plan.a.numberOfChannels > 0, plan.b.numberOfChannels > 0)
      modifies fpga, registry
      ensures Valid()
      ensures r == LaunchOutcome(plan)
      ensures r.Ok? ==>
        registry.continuousStarted == PerBank(old(registry.continuousStarted.a) || plan.a.numberOfChannels > 0,
                                              old(registry.continuousStarted.b) || plan.b.numberOfChannels > 0)
        && fpga.trace == old(fpga.trace) + StartPhase(plan, count)
      ensures r == Err(BankNotOpened) ==>
        registry.continuousStarted == old(registry.continuousStarted) && fpga.trace == old(fpga.trace)
      ensures r == Err(HandshakeNeverCompletes) ==>
        registry.continuousStarted == (if plan.a.numberOfChannels > plan.b.numberOfChannels
                                       then old(registry.continuousStarted).Set(A, true)
                                       else old(registry.continuousStarted))
        && fpga.trace == old(fpga.trace) + TwoBankRelease(plan.a, plan.b, count)
      ensures registry.fifoOpen == old(registry.fifoOpen) && registry.nSampleUsers == old(registry.nSampleUsers)
      ensures fpga.aiFifo == old(fpga.aiFifo) && fpga.aoFifo == old(fpga.aoFifo)
    {
      if isContinuous.a && isContinuous.b {
        r := StartTwoBanks(plan, count);
      } else {
        var b := if isContinuous.a then A else B;
        if OnBank(channels, b) == [] {
          return Err(BankNotOpened);
        }
        StartOneBank(b, plan.Get(b), count);
        r := Ok(());
      }
    }

    /// `__open_ai_continuous` for one bank.
    method OpenContinuous(b: Bank) returns (r: Result<()>)
      requires Valid() && sampleRate.Some?
      modifies this, fpga, registry
      ensures Valid()
      ensures r.Err? <==> OnBank(channels, b) != [] && old(registry.continuousStarted.Get(b))
      ensures r.Err? ==> r.error == AlreadyStarted && unchanged(this, fpga, registry)
      ensures r.Ok? ==>
        var used := OnBank(channels, b) != [];
        isContinuous == (if used then old(isContinuous).Set(b, true) else old(isContinuous))
        && registry.fifoOpen == (if used then old(registry.fifoOpen).Set(b, true) else old(registry.fifoOpen))
        && fpga.trace == old(fpga.trace) + (if used then StopActions(b) else [])
        && (used ==> fpga.regs == old(fpga.regs)[AICnt(b) := Int(0)][AIDmaEnabled(b) := Flag(false)])
        && (!used ==> fpga.regs == old(fpga.regs))
      ensures registry.continuousStarted == old(registry.continuousStarted)
      ensures registry.nSampleUsers == old(registry.nSampleUsers)
      ensures isNSampleOpened == old(isNSampleOpened) && sampleRate == old(sampleRate)
      ensures fpga.aiFifo == old(fpga.aiFifo) && fpga.aoFifo == old(fpga.aoFifo)
    {
      if OnBank(channels, b) != [] {
        if registry.continuousStarted.Get(b) {
          return Err(AlreadyStarted);
        }
        registry.fifoOpen := registry.fifoOpen.Set(b, true);
        StopBank(fpga, b);
        isContinuous := isContinuous.Set(b, true);
      }
      r := Ok(());
    }

    /// The two-bank start and its handshakes: each bank must read back its
    /// own channel count after both were given the larger one.
    method StartTwoBanks(tables: PerBank<ScanTable>, count: int) returns (r: Result<()>)
      requires fpga.Valid() && |tables.a.cnfg| == TableSize && |tables.b.cnfg| == TableSize
      modifies fpga, registry
      ensures fpga.Valid()
      ensures r == if tables.a.numberOfChannels == tables.b.numberOfChannels then Ok(()) else Err(HandshakeNeverCompletes)
      ensures r.Ok? ==>
        registry.continuousStarted == Both(true)
        && fpga.trace == old(fpga.trace) + TwoBankStart(tables.a, tables.b, count)
      ensures r.Err? ==>
        registry.continuousStarted == (if tables.a.numberOfChannels > tables.b.numberOfChannels
                                       then old(registry.continuousStarted).Set(A, true)
                                       else old(registry.continuousStarted))
        && fpga.trace == old(fpga.trace) + TwoBankRelease(tables.a, tables.b, count)
      ensures registry.fifoOpen == old(registry.fifoOpen) && registry.nSampleUsers == old(registry.nSampleUsers)
      ensures fpga.aiFifo == old(fpga.aiFifo) && fpga.aoFifo == old(fpga.aoFifo)
    {
      var ka := tables.a.numberOfChannels;
      var kb := tables.b.numberOfChannels;
      AppendAssoc5(fpga.trace, ArmActions(A, tables.a.cnfg, count), ArmActions(B, tables.b.cnfg, count),
        SyncAndReset(), Release(Max(ka, kb)), [Write(GlobalSync, Flag(true))]);
      AppendAssoc(fpga.trace, TwoBankRelease(tables.a, tables.b, count), [Write(GlobalSync, Flag(true))]);
      Arm(fpga, A, tables.a.cnfg, count);
      Arm(fpga, B, tables.b.cnfg, count);
      SyncAndResetBoth(fpga);
      var m := Max(ka, kb);
      ReleaseBoth(fpga, m);
      ghost var started := fpga.trace;
      if !(fpga.Read(AIDmaEnabled(A)) == Flag(true) && fpga.Read(AICnt(A)) == Int(ka)) {
        return Err(HandshakeNeverCompletes);
      }
      registry.continuousStarted := registry.continuousStarted.Set(A, true);
      if !(fpga.Read(AIDmaEnabled(B)) == Flag(true) && fpga.Read(AICnt(B)) == Int(kb)) {
        return Err(HandshakeNeverCompletes);
      }
      registry.continuousStarted := registry.continuousStarted.Set(B, true);
      fpga.WriteReg(GlobalSync, Flag(true));
      r := Ok(());
    }

    method StartOneBank(b: Bank, t: ScanTable, count: int)
      requires fpga.Valid() && |t.cnfg| == TableSize
      modifies fpga, registry
      ensures fpga.Valid()
      ensures registry.continuousStarted == old(registry.continuousStarted).Set(b, true)
      ensures fpga.trace == old(fpga.trace) + OneBankStart(b, t, count)
      ensures registry.fifoOpen == old(registry.fifoOpen) && registry.nSampleUsers == old(registry.nSampleUsers)
      ensures fpga.aiFifo == old(fpga.aiFifo) && fpga.aoFifo == old(fpga.aoFifo)
    {
      Arm(fpga, b, t.cnfg, count);
      fpga.ResetFifo(b);
      fpga.WriteReg(AIDmaEnabled(b), Flag(true));
      fpga.WriteReg(AICnt(b), Int(t.numberOfChannels));
      // The handshake reads back DMA_ENA and CNT at once.
      assert fpga.Read(AIDmaEnabled(b)) == Flag(true) && fpga.Read(AICnt(b)) == Int(t.numberOfChannels);
      registry.continuousStarted := registry.continuousStarted.Set(b, true);
    }

    /// `stop_continuous_mode`: a second call finds no continuous bank and
    /// changes nothing.
    method StopContinuous()
      requires Valid()
      modifies this, fpga, registry
      ensures Valid()
      ensures isContinuous == Both(false)
      ensures registry.continuousStarted == PerBank(old(registry.continuousStarted.a) && !old(isContinuous.a),
                                                    old(registry.continuousStarted.b) && !old(isContinuous.b))
      ensures registry.fifoOpen == PerBank(old(registry.fifoOpen.a) && !old(isContinuous.a),
                                           old(registry.fifoOpen.b) && !old(isContinuous.b))
      ensures registry.nSampleUsers == old(registry.nSampleUsers)
      ensures isNSampleOpened == old(isNSampleOpened) && sampleRate == old(sampleRate)
      ensures fpga.trace == old(fpga.trace) + StopAll(old(isContinuous))
      ensures fpga.aiFifo == old(fpga.aiFifo) && fpga.aoFifo == old(fpga.aoFifo)
    {
      if isContinuous.a {
        isContinuous := isContinuous.Set(A, false);
        registry.continuousStarted := registry.continuousStarted.Set(A, false);
        registry.fifoOpen := registry.fifoOpen.Set(A, false);
        StopBank(fpga, A);
      }
      if isContinuous.b {
        isContinuous := isContinuous.Set(B, false);
        registry.continuousStarted := registry.continuousStarted.Set(B, false);
        registry.fifoOpen := registry.fifoOpen.Set(B, false);
        StopBank(fpga, B);
      }
    }

    /// `close`: stop, give back this session's n-sample use of each bank,
    /// and drop a bank's FIFO handle when no n-sample user is left.
    method Close()
      requires Valid()
      modifies this, fpga, registry
      ensures Valid()
      ensures isContinuous == Both(false)
      ensures registry.nSampleUsers.a == old(registry.nSampleUsers.a) - (if isNSampleOpened.a then 1 else 0)
      ensures registry.nSampleUsers.b == old(registry.nSampleUsers.b) - (if isNSampleOpened.b then 1 else 0)
      ensures registry.fifoOpen.a == (old(registry.fifoOpen.a) && !old(isContinuous.a) && registry.nSampleUsers.a != 0)
      ensures registry.fifoOpen.b == (old(registry.fifoOpen.b) && !old(isContinuous.b) && registry.nSampleUsers.b != 0)
      ensures registry.continuousStarted == PerBank(old(registry.continuousStarted.a) && !old(isContinuous.a),
                                                    old(registry.continuousStarted.b) && !old(isContinuous.b))
      ensures isNSampleOpened == old(isNSampleOpened)
      ensures fpga.trace == old(fpga.trace) + StopAll(old(isContinuous))
      ensures fpga.aiFifo == old(fpga.aiFifo) && fpga.aoFifo == old(fpga.aoFifo)
    {
      StopContinuous();
      ReleaseNSample(A);
      ReleaseNSample(B);
    }

    /// One bank's turn in `close`: give back this session's n-sample use and
    /// drop the FIFO handle when no n-sample user is left.
    method ReleaseNSample(b: Bank)
      modifies registry
      ensures registry.nSampleUsers ==
        old(registry.nSampleUsers).Set(b, old(registry.nSampleUsers.Get(b)) - (if isNSampleOpened.Get(b) then 1 else 0))
      ensures registry.fifoOpen ==
        if registry.nSampleUsers.Get(b) == 0 then old(registry.fifoOpen).Set(b, false) else old(registry.fifoOpen)
      ensures registry.continuousStarted == old(registry.continuousStarted)
    {
      if isNSampleOpened.Get(b) {
        registry.nSampleUsers := registry.nSampleUsers.Set(b, registry.nSampleUsers.Get(b) - 1);
      }
      if registry.nSampleUsers.Get(b) == 0 {
        registry.fifoOpen := registry.fifoOpen.Set(b, false);
      }
    }

    /// `read(samples, timeout)` on a continuous session, with the blocks
    /// given the shape `read` returns.
    method ReadContinuousAcquired(samples: int, timeout: int, elapsed: PerBank<nat -> nat>) returns (r: Result<Acquired>)
      requires Valid() && AnyContinuous()
      modifies fpga
      ensures Valid()
      ensures r.Ok? <==>
        ContinuousArgsOk(samples, timeout, old(sampleRate.value))
        && (old(isContinuous.a) ==> old(BankCanDeliver(A, samples, timeout, elapsed.a)))
        && (old(isContinuous.b) ==> old(BankCanDeliver(B, samples, timeout, elapsed.b)))
      ensures r.Err? ==>
        r.error == if !ContinuousArgsOk(samples, timeout, old(sampleRate.value)) then InvalidParameter
                   else if old(isContinuous.a) && !old(BankCanDeliver(A, samples, timeout, elapsed.a))
                   then old(DeliveryError(A)) else old(DeliveryError(B))
      ensures r.Ok? ==>
        var ka := |OnBank(channels, A)|;
        var kb := |OnBank(channels, B)|;
        r.value == Blocks(ContinuousBlocks(old(isContinuous), old(fpga.aiFifo), ka, kb, samples))
        && fpga.trace == old(fpga.trace) + ContinuousReads(old(isContinuous), ka, kb, samples)
      ensures fpga.regs == old(fpga.regs) && unchanged(this, registry)
    {
      ghost var fifo0 := fpga.aiFifo;
      ghost var trace0 := fpga.trace;
      var blocks := ReadContinuous(samples, timeout, elapsed);
      if blocks.Ok? {
        ghost var ka := |OnBank(channels, A)|;
        ghost var kb := |OnBank(channels, B)|;
        assert blocks.value == ContinuousBlocks(isContinuous, fifo0, ka, kb, samples);
        assert fpga.trace == trace0 + ContinuousReads(isContinuous, ka, kb, samples);
      }
      r := if blocks.Ok? then Ok(Blocks(blocks.value)) else Err(blocks.error);
    }

    /// `read(samples, rate)` on a session with no continuous bank, with the
    /// blocks given the shape `read` returns.
    method ReadNSamplesAcquired(samples: int, rate: int) returns (r: Result<Acquired>)
      requires Valid() && !AnyContinuous()
      modifies this, fpga, registry
      ensures Valid()
      ensures r.Ok? <==>
        NSampleArgsOk(|channels|, samples, rate) && ScanPlan(channels).Ok?
        && HasData(ScanPlan(channels).value, old(fpga.aiFifo), samples)
      ensures r.Err? ==>
        r.error == if !NSampleArgsOk(|channels|, samples, rate) then InvalidParameter
                   else if ScanPlan(channels).Err? then TooManyChannels else AcquisitionTimeout
      ensures r.Ok? ==>
        var plan := ScanPlan(channels).value;
        r.value == Blocks(NSampleBlocks(plan, old(fpga.aiFifo), samples))
        && fpga.aiFifo == Consumed(plan, old(fpga.aiFifo), samples)
        && fpga.trace == old(fpga.trace) + NSampleActions(plan, DefaultTicks(rate * |channels|), samples)
    {
      var blocks := ReadNSamples(samples, rate);
      if blocks.Err? {
        return Err(blocks.error);
      }
      r := Ok(Blocks(blocks.value));
    }

    /// `read(*args)`: no argument reads one point per channel; two read
    /// continuously when a bank of this session is continuous and n samples
    /// otherwise; any other count is a TypeError.
    method Read(args: seq<int>, elapsed: PerBank<nat -> nat>) returns (r: Result<Acquired>)
      requires Valid()
      modifies this, fpga, registry
      ensures Valid()
      ensures |args| != 0 && |args| != 2 ==> r == Err(WrongArity) && unchanged(this, fpga, registry)
      ensures |args| == 0 ==>
        r.Ok? && r.value.Points? && |r.value.values| == |channels|
        && (forall i :: 0 <= i < |channels| ==> r.value.values[i] == fpga.Read(ValueRegister(channels[i])).i)
        && fpga.trace == old(fpga.trace) + SinglePointActions(channels)
        && fpga.aiFifo == old(fpga.aiFifo) && fpga.aoFifo == old(fpga.aoFifo)
        && unchanged(this, registry)
      // Two arguments and a continuous bank: `samples`, `timeout`.
      ensures |args| == 2 && old(AnyContinuous()) ==>
        var samples := args[0];
        var timeout := args[1];
        (r.Ok? <==>
          ContinuousArgsOk(samples, timeout, old(sampleRate.value))
          && (old(isContinuous.a) ==> old(BankCanDeliver(A, samples, timeout, elapsed.a)))
          && (old(isContinuous.b) ==> old(BankCanDeliver(B, samples, timeout, elapsed.b))))
        && (r.Err? ==>
          r.error == if !ContinuousArgsOk(samples, timeout, old(sampleRate.value)) then InvalidParameter
                     else if old(isContinuous.a) && !old(BankCanDeliver(A, samples, timeout, elapsed.a))
                     then old(DeliveryError(A)) else old(DeliveryError(B)))
        && (r.Ok? ==>
          var ka := |OnBank(channels, A)|;
          var kb := |OnBank(channels, B)|;
          r.value == Blocks(ContinuousBlocks(old(isContinuous), old(fpga.aiFifo), ka, kb, samples))
          && fpga.trace == old(fpga.trace) + ContinuousReads(old(isContinuous), ka, kb, samples))
        && fpga.regs == old(fpga.regs) && unchanged(this, registry)
      // Two arguments and no continuous bank: `samples`, `rate`.
      ensures |args| == 2 && !old(AnyContinuous()) ==>
        var samples := args[0];
        var rate := args[1];
        (r.Ok? <==>
          NSampleArgsOk(|channels|, samples, rate) && ScanPlan(channels).Ok?
          && HasData(ScanPlan(channels).value, old(fpga.aiFifo), samples))
        && (r.Err? ==>
          r.error == if !NSampleArgsOk(|channels|, samples, rate) then InvalidParameter
                     else if ScanPlan(channels).Err? then TooManyChannels else AcquisitionTimeout)
        && (r.Ok? ==>
          var plan := ScanPlan(channels).value;
          r.value == Blocks(NSampleBlocks(plan, old(fpga.aiFifo), samples))
          && fpga.aiFifo == Consumed(plan, old(fpga.aiFifo), samples)
          && fpga.trace == old(fpga.trace) + NSampleActions(plan, DefaultTicks(rate * |channels|), samples))
    {
      if |args| == 0 {
        var values := ReadSinglePoint();
        r := Ok(Points(values));
      } else if |args| == 2 && AnyContinuous() {
        r := ReadContinuousAcquired(args[0], args[1], elapsed);
      } else if |args| == 2 {
        r := ReadNSamplesAcquired(args[0], args[1]);
      } else {
        r := Err(WrongArity);
      }
    }
  }

  /// `AnalogInput(*configuration)`: validates every dictionary, in call
  /// order, before any session exists.
  method Open(ds: seq<ConfigDict>, fpga: Fpga, registry: Registry) returns (r: Result<AnalogInput>)
    requires fpga.Valid()
    ensures r.Ok? <==> ChannelList(ds).Ok?
    ensures r.Err? ==> r.error == ChannelList(ds).error
    ensures r.Ok? ==>
      fresh(r.value) && r.value.Valid() && r.value.channels == ChannelList(ds).value
      && r.value.fpga == fpga && r.value.registry == registry
      && r.value.isContinuous == Both(false) && r.value.isNSampleOpened == Both(false)
  {
    var cl := ChannelList(ds);
    if cl.Err? {
      return Err(cl.error);
    }
    ValidatedWellFormed(ds);
    var session := new AnalogInput(cl.value, fpga, registry);
    r := Ok(session);
  }
}
