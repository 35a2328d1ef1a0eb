/// The FPGA as the driver sees it: named registers whose writes are
/// immediately readable, one DMA FIFO per bank and direction, and the
/// process-wide bookkeeping the driver keeps in class-level dictionaries.
/// Every host access is appended to a trace so that the order of register
/// writes can be stated.
module Hardware {
  import opened Common

  /// The registers the analog paths touch.
  datatype Reg =
    | AICnt(bank: Bank)                     // AI.<b>.CNT: number of channels in the scan
    | AICnfg(bank: Bank)                    // AI.<b>.CNFG: the 12-slot scan table
    | AICntr(bank: Bank)                    // AI.<b>.CNTR: clock ticks per sample
    | AIDmaEnabled(bank: Bank)              // AI.<b>.DMA_ENA
    | AIDmaFull(bank: Bank)                 // AI.<b>.DMA_FULL (set by the hardware)
    | AIStat(bank: Bank)                    // AI.<b>.STAT (set by the hardware)
    | AIReady(bank: Bank)                   // AI.<b>.VAL.RDY (set by the hardware)
    | BankSync(bank: Bank)                  // <b>.SYNC
    | GlobalSync                            // SYNC
    | AIValue(bank: Bank, channel: nat, differential: bool)  // AI.<b>_<c>.VAL / AI.DIFF_<b>_<c>.VAL
    | AODmaEnabled(bank: Bank)              // AO.<b>.DMA_ENA: channel bitmask
    | AODmaCounter(bank: Bank)              // AO.<b>.DMA_CNTR: clock ticks per sample
    | AOValue(bank: Bank, channel: nat)     // AO.<b>_<c>.VAL
    | AOGo                                  // AO.SYS.GO

  datatype Value = Int(i: int) | Flag(b: bool) | Table(t: seq<int>)

  /// The type each register has on the FPGA.
  predicate WellTyped(r: Reg, v: Value)
  {
    match r
    case AICnfg(_) => v.Table? && |v.t| == 12
    case AIDmaEnabled(_) => v.Flag?
    case AIDmaFull(_) => v.Flag?
    case AIReady(_) => v.Flag?
    case BankSync(_) => v.Flag?
    case GlobalSync => v.Flag?
    case AOGo => v.Flag?
    case _ => v.Int?
  }

  function DefaultValue(r: Reg): (v: Value)
    ensures WellTyped(r, v)
  {
    match r
    case AICnfg(_) => Table(seq(12, i => 0))
    case AIDmaEnabled(_) => Flag(false)
    case AIDmaFull(_) => Flag(false)
    case AIReady(_) => Flag(false)
    case BankSync(_) => Flag(false)
    case GlobalSync => Flag(false)
    case AOGo => Flag(false)
    case _ => Int(0)
  }

  /// Python truthiness of a register value.
  predicate Truthy(v: Value)
  {
    match v
    case Int(i) => i != 0
    case Flag(b) => b
    case Table(t) => t != []
  }

  /// One host access to the FPGA.
  datatype Action =
    | Write(reg: Reg, value: Value)
    | FifoReset(bank: Bank)                 // dma.start(); dma.stop()
    | FifoRead(bank: Bank, count: nat)      // dma.read(count)
    | FifoWrite(bank: Bank, data: seq<int>) // analog-output dma.write(data)

  /// The register map after a sequence of accesses.
  function Apply(regs: map<Reg, Value>, acts: seq<Action>): map<Reg, Value>
  {
    if acts == [] then regs
    else
      var before := Apply(regs, acts[..|acts| - 1]);
      var last := acts[|acts| - 1];
      if last.Write? then before[last.reg := last.value] else before
  }

  /// Accesses other than register writes leave the register map alone.
  lemma {:induction false} ApplyNoWrites(regs: map<Reg, Value>, before: seq<Action>, acts: seq<Action>)
    requires forall j :: 0 <= j < |acts| ==> !acts[j].Write?
    ensures Apply(regs, before + acts) == Apply(regs, before)
    decreases |acts|
  {
    if acts != [] {
      var init := acts[..|acts| - 1];
      assert (before + acts)[..|before + acts| - 1] == before + init;
      ApplyNoWrites(regs, before, init);
    } else {
      assert before + acts == before;
    }
  }

  class Fpga {
    var regs: map<Reg, Value>
    /// Samples each analog-input DMA FIFO will deliver, oldest first.
    var aiFifo: PerBank<seq<int>>
    /// Everything written to each analog-output DMA FIFO.
    var aoFifo: PerBank<seq<int>>
    var trace: seq<Action>
    /// The register map before the first host access, including the values
    /// the hardware itself sets (DMA_FULL, STAT, the sampled VAL registers).
    ghost const initial: map<Reg, Value>

    /// Every register holds a value of its type, and the map is the initial
    /// one with the traced writes applied in order.
    ghost predicate Valid()
      reads this
    {
      (forall r :: r in regs ==> WellTyped(r, regs[r]))
      && regs == Apply(initial, trace)
    }

    constructor(regs0: map<Reg, Value>, samples: PerBank<seq<int>>)
      requires forall r :: r in regs0 ==> WellTyped(r, regs0[r])
      ensures Valid()
      ensures regs == regs0 && aiFifo == samples && aoFifo == Both([]) && trace == []
    {
      initial := regs0;
      regs := regs0;
      aiFifo := samples;
      aoFifo := Both([]);
      trace := [];
    }

    function Read(r: Reg): (v: Value)
      reads this
      ensures Valid() ==> WellTyped(r, v)
    {
      if r in regs then regs[r] else DefaultValue(r)
    }

    method WriteReg(r: Reg, v: Value)
      requires Valid() && WellTyped(r, v)
      modifies this
      ensures Valid()
      ensures regs == old(regs)[r := v] && Read(r) == v
      ensures trace == old(trace) + [Write(r, v)]
      ensures aiFifo == old(aiFifo) && aoFifo == old(aoFifo)
    {
      regs := regs[r := v];
      trace := trace + [Write(r, v)];
      assert trace[..|trace| - 1] == old(trace);
    }

    method ResetFifo(b: Bank)
      requires Valid()
      modifies this
      ensures Valid()
      ensures trace == old(trace) + [FifoReset(b)]
      ensures regs == old(regs) && aiFifo == old(aiFifo) && aoFifo == old(aoFifo)
    {
      trace := trace + [FifoReset(b)];
      assert trace[..|trace| - 1] == old(trace);
    }

    /// `dma.read(count)`: the next `count` samples, or None when the FIFO
    /// cannot deliver that many.
    method ReadFifo(b: Bank, count: nat) returns (data: Option<seq<int>>)
      modifies this
      ensures trace == old(trace) + [FifoRead(b, count)]
      ensures regs == old(regs) && aoFifo == old(aoFifo)
      ensures data.Some? <==> count <= |old(aiFifo.Get(b))|
      ensures data.Some? ==>
        data.value == old(aiFifo.Get(b))[..count] && aiFifo == old(aiFifo).Set(b, old(aiFifo.Get(b))[count..])
      ensures data.None? ==> aiFifo == old(aiFifo)
    {
      trace := trace + [FifoRead(b, count)];
      var available := aiFifo.Get(b);
      if count <= |available| {
        data := Some(available[..count]);
        aiFifo := aiFifo.Set(b, available[count..]);
      } else {
        data := None;
      }
    }

    /// `dma.write(data, timeout_ms=0)` on an analog-output FIFO that has
    /// `free` empty places: the data goes in whole when it fits, and
    /// otherwise nothing goes in and the call times out at once. The trace
    /// records the call either way.
    method WriteFifo(b: Bank, data: seq<int>, free: nat) returns (r: Result<()>)
      requires Valid()
      modifies this
      ensures Valid()
      ensures r == if |data| <= free then Ok(()) else Err(FifoTimeout)
      ensures trace == old(trace) + [FifoWrite(b, data)]
      ensures regs == old(regs) && aiFifo == old(aiFifo)
      ensures r.Ok? ==> aoFifo == old(aoFifo).Set(b, old(aoFifo.Get(b)) + data)
      ensures r.Err? ==> aoFifo == old(aoFifo)
    {
      trace := trace + [FifoWrite(b, data)];
      assert trace[..|trace| - 1] == old(trace);
      if |data| <= free {
        aoFifo := aoFifo.Set(b, aoFifo.Get(b) + data);
        r := Ok(());
      } else {
        r := Err(FifoTimeout);
      }
    }
  }

  /// The class-level dictionaries one analog class shares between all its
  /// sessions: `number_of_n_sample`, whether `dma[bank]` holds a FIFO handle,
  /// and `is_continuous_started`.
  class Registry {
    var nSampleUsers: PerBank<int>
    var fifoOpen: PerBank<bool>
    var continuousStarted: PerBank<bool>

    constructor()
      ensures nSampleUsers == Both(0) && fifoOpen == Both(false) && continuousStarted == Both(false)
    {
      nSampleUsers := Both(0);
      fifoOpen := Both(false);
      continuousStarted := Both(false);
    }
  }
}
