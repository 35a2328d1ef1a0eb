/// `I2C`: a bus master on one bank. Opening sets the bit-rate counter and
/// routes lines 14 and 15 to the I2C block. A transfer writes the address
/// byte, then for every data byte a control word, the byte itself (writes
/// only) and a GO strobe, and waits for the block to finish the byte.
///
/// How each wait ended is an input (`Wait`): the status word the block
/// reported, or the expiry of the per-byte timeout. A timeout is sticky:
/// every later byte is counted as failed too, nothing is raised for it, and
/// without `keep_bus_busy` a stop word (0b101) follows each failed byte. A
/// NAK raises at once.
module I2c {
  import opened Common
  import opened Bits
  import opened SysSelect

  datatype SpeedMode = Standard | Fast

  /// I2C.<bank>.CNTR for each speed mode.
  function RateCounter(mode: SpeedMode): nat
  {
    if mode == Standard then 213 else 63
  }

  /// The flags of a control word, as the words of `write` and `read` use
  /// them: bit 0 is in every word; bit 1 marks the first byte of a transfer;
  /// bit 2 marks the byte after which the bus is released; bit 3 (reads
  /// only) marks a byte the master acknowledges.
  const FirstFlag: nat := 2
  const ReleaseFlag: nat := 4
  const AckFlag: nat := 8

  /// The word written to CNTL after a failed byte when the bus is not kept.
  const ReleaseWord: nat := 5

  /// The control word `write` sends before data byte `n` of `count`.
  function WriteControl(n: nat, count: nat, keep: bool): nat
    requires n < count
  {
    if count == 1 then
      if keep then 0x3 else 0x7
    else if n == 0 then 0x3
    else if count - 1 == n && !keep then 0x5
    else 0x1
  }

  /// The control word `read` sends before data byte `n` of `count`.
  function ReadControl(n: nat, count: nat, keep: bool): nat
    requires n < count
  {
    if count == 1 then
      if keep then 0xB else 0x7
    else if n == 0 then 0xB
    else if count - 1 == n then
      if keep then 0x9 else 0x5
    else 0x9
  }

  /// Every write control word is bit 0 plus the first-byte flag exactly on
  /// the first byte and the release flag exactly on the last byte when the
  /// bus is not kept.
  lemma WriteControlFlags(n: nat, count: nat, keep: bool)
    requires n < count
    ensures WriteControl(n, count, keep)
         == 1 + (if n == 0 then FirstFlag else 0) + (if n == count - 1 && !keep then ReleaseFlag else 0)
  {
  }

  /// Read control words carry the same first-byte and release flags, and
  /// acknowledge every byte except the one after which the bus is released.
  lemma ReadControlFlags(n: nat, count: nat, keep: bool)
    requires n < count
    ensures ReadControl(n, count, keep)
         == 1 + (if n == 0 then FirstFlag else 0) + (if n == count - 1 && !keep then ReleaseFlag else AckFlag)
  {
  }

  /// The first byte on the bus: the 7-bit address followed by the R/W bit
  /// (1 for a read), as section 3.1.10 of the NXP I2C-bus specification
  /// UM10204 lays it out.
  function AddressByte(address: nat, read: bool): nat
    requires address <= 127
  {
    if read then Or(Shl(address, 1), 1) else Shl(address, 1)
  }

  /// The address byte is one byte, and both fields come back out of it.
  lemma AddressByteFields(address: nat, read: bool)
    requires address <= 127
    ensures AddressByte(address, read) < 256
    ensures AddressByte(address, read) / 2 == address
    ensures AddressByte(address, read) % 2 == 1 <==> read
  {
    assert Pow2(1) == 2;
    if read {
      OrComm(Shl(address, 1), 1);
      OrShiftedAdd(1, address, 1);
    }
  }

  /// How the wait for one byte ended.
  datatype Wait = Done(stat: nat) | Expired

  /// The status word reports a NAK (bit 1).
  predicate Nak(w: Wait)
  {
    w.Done? && Bit(w.stat, 1)
  }

  /// Whether one of the first `i` waits expired: from then on `timeout`
  /// stays set.
  predicate TimedOut(waits: seq<Wait>, i: nat)
    requires i <= |waits|
  {
    i > 0 && (TimedOut(waits, i - 1) || waits[i - 1].Expired?)
  }

  /// Byte `n` raises a NAK: its status is only looked at while no wait has
  /// expired.
  predicate NakAt(waits: seq<Wait>, n: nat)
    requires n < |waits|
  {
    !TimedOut(waits, n + 1) && Nak(waits[n])
  }

  /// The first byte that raises a NAK, or `|waits|`.
  function FirstNak(waits: seq<Wait>): (k: nat)
    ensures k <= |waits|
    ensures forall n :: 0 <= n < k ==> !NakAt(waits, n)
    ensures k < |waits| ==> NakAt(waits, k)
  {
    FirstNakFrom(waits, 0)
  }

  function FirstNakFrom(waits: seq<Wait>, i: nat): (k: nat)
    requires i <= |waits|
    ensures i <= k <= |waits|
    ensures forall n :: i <= n < k ==> !NakAt(waits, n)
    ensures k < |waits| ==> NakAt(waits, k)
    decreases |waits| - i
  {
    if i == |waits| || NakAt(waits, i) then i else FirstNakFrom(waits, i + 1)
  }

  /// The byte the search stops at is the first one that raises a NAK.
  lemma FirstNakIs(waits: seq<Wait>, n: nat)
    requires n <= |waits|
    requires forall k :: 0 <= k < n ==> !NakAt(waits, k)
    requires n < |waits| ==> NakAt(waits, n)
    ensures FirstNak(waits) == n
  {
  }

  /// The first wait that expired, or `|waits|`.
  function FirstExpired(waits: seq<Wait>): (k: nat)
    ensures k <= |waits|
    ensures forall n :: 0 <= n < k ==> waits[n].Done?
    ensures k < |waits| ==> waits[k].Expired?
  {
    if waits == [] then 0
    else if waits[0].Expired? then 0
    else 1 + FirstExpired(waits[1..])
  }

  /// A timeout has happened among the first `i` bytes exactly when the first
  /// expiry is one of them.
  lemma {:induction false} TimedOutFirstExpired(waits: seq<Wait>, i: nat)
    requires i <= |waits|
    ensures TimedOut(waits, i) <==> FirstExpired(waits) < i
  {
    if i > 0 {
      TimedOutFirstExpired(waits, i - 1);
    }
  }

  /// What a transfer puts on the block's registers, oldest first.
  datatype BusAction =
    | SetAddress(byte: nat)   // ADDR
    | SetControl(word: nat)   // CNTL
    | SetData(value: int)     // DATO
    | Go                      // GO

  /// The accesses for data byte `n` of a write, including the release word
  /// when the byte failed and the bus is not kept.
  function WriteByteActions(data: seq<int>, keep: bool, waits: seq<Wait>, n: nat): seq<BusAction>
    requires n < |data| == |waits|
  {
    [SetControl(WriteControl(n, |data|, keep)), SetData(data[n]), Go]
      + (if TimedOut(waits, n + 1) && !keep then [SetControl(ReleaseWord)] else [])
  }

  /// The accesses for the first `i` data bytes of a write that raised no NAK.
  function WriteActions(data: seq<int>, keep: bool, waits: seq<Wait>, i: nat): seq<BusAction>
    requires i <= |data| == |waits|
  {
    if i == 0 then [] else WriteActions(data, keep, waits, i - 1) + WriteByteActions(data, keep, waits, i - 1)
  }

  lemma WriteTraceStep(start: seq<BusAction>, data: seq<int>, keep: bool, waits: seq<Wait>, n: nat)
    requires n < |data| == |waits|
    ensures start + WriteActions(data, keep, waits, n) + WriteByteActions(data, keep, waits, n)
         == start + WriteActions(data, keep, waits, n + 1)
  {
    AppendAssoc(start, WriteActions(data, keep, waits, n), WriteByteActions(data, keep, waits, n));
  }

  /// The accesses for data byte `n` of a read.
  function ReadByteActions(count: nat, keep: bool, waits: seq<Wait>, n: nat): seq<BusAction>
    requires n < count == |waits|
  {
    [SetControl(ReadControl(n, count, keep)), Go]
      + (if TimedOut(waits, n + 1) && !keep then [SetControl(ReleaseWord)] else [])
  }

  function ReadActions(count: nat, keep: bool, waits: seq<Wait>, i: nat): seq<BusAction>
    requires i <= count == |waits|
  {
    if i == 0 then [] else ReadActions(count, keep, waits, i - 1) + ReadByteActions(count, keep, waits, i - 1)
  }

  /// The error a NAK raises in `write`: status bit 2 says the address was
  /// not acknowledged, otherwise a data byte was not.
  function WriteNakError(stat: nat): Error
  {
    if Bit(stat, 2) then AddressNotAcknowledged else DataNotAcknowledged
  }

  /// A timeout never surfaces: a write whose bytes raise no NAK succeeds,
  /// however many of its waits expired.
  lemma WriteIgnoresTimeout(waits: seq<Wait>)
    requires forall n :: 0 <= n < |waits| ==> waits[n].Done? ==> !Bit(waits[n].stat, 1)
    ensures FirstNak(waits) == |waits|
  {
  }

  /// Once a wait has expired, no later byte can raise a NAK.
  lemma NoNakAfterTimeout(waits: seq<Wait>, n: nat)
    requires FirstExpired(waits) <= n < |waits|
    ensures !NakAt(waits, n)
  {
    TimedOutFirstExpired(waits, n + 1);
  }

  /// `Read` keeps exactly the bytes that arrived before the first timeout.
  function Received(incoming: seq<int>, waits: seq<Wait>): seq<int>
    requires |incoming| == |waits|
  {
    incoming[..FirstExpired(waits)]
  }

  /// The registers of one bank's I2C block and the bank's SYS.SELECT.
  class I2cSession {
    /// SYS.SELECT<bank>
    var select: nat
    /// I2C.<bank>.CNTR
    var counter: nat
    /// I2C.<bank>.CNFG
    var config: nat
    /// Every access to ADDR, CNTL, DATO and GO, oldest first.
    var trace: seq<BusAction>

    constructor(select0: nat, counter0: nat, config0: nat)
      ensures select == select0 && counter == counter0 && config == config0 && trace == []
    {
      select := select0;
      counter := counter0;
      config := config0;
      trace := [];
    }

    /// `__init__`: `configure` sets the rate counter and enables the block,
    /// then lines 14 and 15 are routed to I2C.
    method Open(mode: SpeedMode)
      modifies this
      ensures counter == RateCounter(mode) && config == 1
      ensures select == I2cSelect(old(select)) && trace == old(trace)
    {
      if mode == Standard {
        counter := 213;
      } else {
        counter := 63;
      }
      config := 1;
      var value := SetSysSelect(select, 14, 2, "11");
      select := value;
    }

    /// `write`: an address outside 0 .. 127 is refused before any access.
    /// Otherwise ADDR gets the write address byte and the bytes are sent in
    /// order; the first NAK raises, and a transfer without one succeeds
    /// even when waits expired.
    method Write(address: int, data: seq<int>, keep: bool, timeoutMs: int, waits: seq<Wait>)
      returns (err: Option<Error>)
      requires |waits| == |data|
      requires timeoutMs < 0 ==> forall n :: 0 <= n < |waits| ==> waits[n].Done?
      modifies this
      ensures select == old(select) && counter == old(counter) && config == old(config)
      ensures !(0 <= address <= 127) ==> err == Some(InvalidParameter) && trace == old(trace)
      ensures 0 <= address <= 127 ==> (err.None? <==> FirstNak(waits) == |data|)
      ensures 0 <= address <= 127 && err.None? ==>
        trace == old(trace) + [SetAddress(AddressByte(address, false))] + WriteActions(data, keep, waits, |data|)
      ensures 0 <= address <= 127 && err.Some? ==>
        var n := FirstNak(waits);
        n < |data| && err.value == WriteNakError(waits[n].stat) &&
        trace == old(trace) + [SetAddress(AddressByte(address, false))] + WriteActions(data, keep, waits, n + 1)
    {
      if !(0 <= address <= 127) {
        return Some(InvalidParameter);
      }
      assert Shl(address, 1) == AddressByte(address, false);
      trace := trace + [SetAddress(Shl(address, 1))];
      ghost var start := trace;
      var timeout := false;
      var error := false;
      var n := 0;
      while n < |data|
        invariant 0 <= n <= |data|
        invariant timeout == TimedOut(waits, n) && error == timeout
        invariant forall k :: 0 <= k < n ==> !NakAt(waits, k)
        invariant trace == start + WriteActions(data, keep, waits, n)
        invariant select == old(select) && counter == old(counter) && config == old(config)
      {
        var acts := [SetControl(WriteControl(n, |data|, keep)), SetData(data[n]), Go];
        var stat := 0;
        if waits[n].Expired? {
          timeout := true;
        } else {
          stat := waits[n].stat;
        }
        if timeout {
          error := true;
        } else {
          AndPow(stat, 1);
          if And(stat, 0x2) == 0x2 {
            AndPow(stat, 2);
            assert NakAt(waits, n);
            assert acts + [] == WriteByteActions(data, keep, waits, n);
            WriteTraceStep(start, data, keep, waits, n);
            trace := trace + acts;
            FirstNakIs(waits, n);
            var e := if And(stat, 0x4) == 0x4 then AddressNotAcknowledged else DataNotAcknowledged;
            assert e == WriteNakError(waits[n].stat);
            return Some(e);
          }
        }
        if error && !keep {
          acts := acts + [SetControl(0x5)];
        }
        assert acts == WriteByteActions(data, keep, waits, n);
        WriteTraceStep(start, data, keep, waits, n);
        trace := trace + acts;
        n := n + 1;
      }
      FirstNakIs(waits, n);
      return None;
    }

    /// `read`: the address is checked first, then the count. ADDR gets the
    /// read address byte; a NAK raises, and a byte whose wait expired (or
    /// came after an expiry) is not read.
    method Read(address: int, count: int, keep: bool, timeoutMs: int, waits: seq<Wait>, incoming: seq<int>)
      returns (r: Result<seq<int>>)
      requires count >= 0 ==> |waits| == count && |incoming| == count
      requires timeoutMs < 0 ==> forall n :: 0 <= n < |waits| ==> waits[n].Done?
      modifies this
      ensures select == old(select) && counter == old(counter) && config == old(config)
      ensures !(0 <= address <= 127 && count >= 0) ==> r == Err(InvalidParameter) && trace == old(trace)
      ensures 0 <= address <= 127 && count >= 0 ==> (r.Ok? <==> FirstNak(waits) == count)
      ensures 0 <= address <= 127 && count >= 0 && r.Ok? ==>
        r.value == Received(incoming, waits) &&
        trace == old(trace) + [SetAddress(AddressByte(address, true))] + ReadActions(count, keep, waits, count)
      ensures 0 <= address <= 127 && count >= 0 && r.Err? ==>
        var n := FirstNak(waits);
        n < count && r.error == AddressNotAcknowledged &&
        trace == old(trace) + [SetAddress(AddressByte(address, true))] + ReadActions(count, keep, waits, n + 1)
    {
      if !(0 <= address <= 127) || count < 0 {
        return Err(InvalidParameter);
      }
      var values: seq<int> := [];
      assert Or(Shl(address, 1), 1) == AddressByte(address, true);
      trace := trace + [SetAddress(Or(Shl(address, 1), 1))];
      ghost var start := trace;
      var timeout := false;
      var error := false;
      var n := 0;
      while n < count
        invariant 0 <= n <= count
        invariant timeout == TimedOut(waits, n) && error == timeout
        invariant forall k :: 0 <= k < n ==> !NakAt(waits, k)
        invariant !timeout ==> values == incoming[..n]
        invariant timeout ==> values == incoming[..FirstExpired(waits)]
        invariant trace == start + ReadActions(count, keep, waits, n)
        invariant select == old(select) && counter == old(counter) && config == old(config)
      {
        var acts := [SetControl(ReadControl(n, count, keep)), Go];
        var stat := 0;
        if waits[n].Expired? {
          TimedOutFirstExpired(waits, n);
          timeout := true;
        } else {
          stat := waits[n].stat;
        }
        if timeout {
          error := true;
        } else {
          AndPow(stat, 1);
          if And(stat, 0x2) == 0x2 {
            assert NakAt(waits, n);
            assert acts + [] == ReadByteActions(count, keep, waits, n);
            AppendAssoc(start, ReadActions(count, keep, waits, n), acts);
            trace := trace + acts;
            FirstNakIs(waits, n);
            return Err(AddressNotAcknowledged);
          }
          assert incoming[..n + 1] == incoming[..n] + [incoming[n]];
          values := values + [incoming[n]];
        }
        if error && !keep {
          acts := acts + [SetControl(0x5)];
        }
        assert acts == ReadByteActions(count, keep, waits, n);
        AppendAssoc(start, ReadActions(count, keep, waits, n), acts);
        trace := trace + acts;
        n := n + 1;
      }
      TimedOutFirstExpired(waits, count);
      FirstNakIs(waits, n);
      return Ok(values);
    }
  }
}
