/// The analog input of the older copy of the driver
/// (`source/nielvisiii/academicIO.py`). Its constructor validates each
/// configuration dictionary in turn and, the first time a bank is used,
/// writes that bank's default scan table, channel count and clock count at
/// once; its single-point read places every channel, single-ended or
/// differential, at slot 7 + c with the word c | 0b1000 | range.
module LegacyAI {
  import opened Common
  import opened Bits
  import opened Hardware
  import opened AIConfig
  import opened AISession

  /// The constructor's checks for one dictionary, in its order: a missing
  /// key is a KeyError, and the bank is checked before the channel is
  /// looked up. It accepts exactly what the newer driver accepts and builds
  /// the same channel.
  function LegacyValidate(d: ConfigDict): (r: Result<ChannelConfig>)
    ensures r.Ok? <==> Validate(d).Ok?
    ensures r.Ok? ==> r == Validate(d) && WellFormed(r.value)
    ensures r.Err? && d.bank.Some? && d.channel.Some? ==> r.error == Validate(d).error
  {
    if d.bank.None? then Err(MissingKey)
    else if d.bank.value.NotABank? then Err(InvalidBank)
    else
      var mode := if d.mode.None? then SingleEnded else d.mode.value;
      if d.channel.None? then Err(MissingKey)
      else if !(0 <= d.channel.value <= ChannelLimit(mode)) then Err(InvalidChannel)
      else if d.range.Some? && d.range.value.NotARange? then Err(InvalidRange)
      else Ok(ChannelConfig(d.bank.value.bank, d.channel.value, mode, RangeBits(d.range)))
  }

  /// The older constructor's key order: a missing bank is a KeyError and a
  /// bank outside the enum is rejected before the channel key is looked
  /// up, so only a valid bank can meet a missing channel's KeyError. With
  /// both keys present the error is the newer driver's.
  lemma LegacyKeyOrder(d: ConfigDict)
    ensures d.bank.None? ==> LegacyValidate(d) == Err(MissingKey)
    ensures d.bank.Some? && d.bank.value.NotABank? ==> LegacyValidate(d) == Err(InvalidBank)
    ensures d.bank.Some? && d.bank.value.NamedBank? && d.channel.None? ==> LegacyValidate(d) == Err(MissingKey)
  {
  }

  /// The position of the first dictionary the constructor rejects, or `|ds|`.
  function FirstRejected(ds: seq<ConfigDict>): (k: nat)
    ensures k <= |ds|
    ensures forall i :: 0 <= i < k ==> LegacyValidate(ds[i]).Ok?
    ensures k < |ds| ==> LegacyValidate(ds[k]).Err?
  {
    if ds == [] || LegacyValidate(ds[0]).Err? then 0 else 1 + FirstRejected(ds[1..])
  }

  /// The channels built from the first `k` dictionaries.
  function Accepted(ds: seq<ConfigDict>, k: nat): (cs: seq<ChannelConfig>)
    requires k <= |ds| && forall i :: 0 <= i < k ==> LegacyValidate(ds[i]).Ok?
    ensures |cs| == k && AllWellFormed(cs)
    ensures forall i :: 0 <= i < k ==> cs[i] == LegacyValidate(ds[i]).value
  {
    if k == 0 then [] else Accepted(ds, k - 1) + [LegacyValidate(ds[k - 1]).value]
  }

  /// What the constructor writes the first time it meets a bank.
  function BankInit(b: Bank): seq<Action>
  {
    [Write(AICnfg(b), Table(DefaultScanTable)), Write(AICnt(b), Int(TableSize)),
     Write(AICntr(b), Int(SinglePointTicks))]
  }

  /// The writes of the constructor for the channels it accepted, in order:
  /// a bank's defaults go out when its first channel is accepted.
  function OpenActions(cs: seq<ChannelConfig>): seq<Action>
  {
    if cs == [] then []
    else
      var init := cs[..|cs| - 1];
      OpenActions(init) + (if OnBank(init, cs[|cs| - 1].bank) == [] then BankInit(cs[|cs| - 1].bank) else [])
  }

  lemma OpenActionsSnoc(cs: seq<ChannelConfig>, c: ChannelConfig)
    ensures OpenActions(cs + [c])
         == OpenActions(cs) + (if OnBank(cs, c.bank) == [] then BankInit(c.bank) else [])
  {
    assert (cs + [c])[..|cs + [c]| - 1] == cs;
  }

  /// One more accepted dictionary: its channel is appended and the trace
  /// grows by that channel's writes.
  lemma OpenStep(t0: seq<Action>, ds: seq<ConfigDict>, i: nat)
    requires i < |ds| && forall j :: 0 <= j <= i ==> LegacyValidate(ds[j]).Ok?
    ensures Accepted(ds, i + 1) == Accepted(ds, i) + [LegacyValidate(ds[i]).value]
    ensures t0 + OpenActions(Accepted(ds, i + 1))
         == (t0 + OpenActions(Accepted(ds, i)))
            + (if OnBank(Accepted(ds, i), ds[i].bank.value.bank) == [] then BankInit(ds[i].bank.value.bank) else [])
  {
    var c := LegacyValidate(ds[i]).value;
    OpenActionsSnoc(Accepted(ds, i), c);
    AppendAssoc(t0, OpenActions(Accepted(ds, i)),
      if OnBank(Accepted(ds, i), c.bank) == [] then BankInit(c.bank) else []);
  }

  /// The default table the constructor writes is the word of every channel
  /// in its own slot: AI0 .. AI7 single-ended, then AI0 .. AI3 differential.
  lemma DefaultTableIsEveryChannel(b: Bank)
    ensures DefaultScanTable == Words(TwelveConfigs(b))
  {
    TwelveWords(b);
  }

  /// The slot a read puts a channel's word in.
  function LegacySlot(c: ChannelConfig): nat
  {
    7 + c.channel
  }

  /// The word a read puts in that slot, for both modes.
  function LegacyWord(c: ChannelConfig): nat
  {
    Or(Or(c.channel, 8), c.rangeBits)
  }

  /// Every channel's slot lies inside the twelve-slot table.
  predicate FitsTable(cs: seq<ChannelConfig>)
  {
    forall i :: 0 <= i < |cs| ==> LegacySlot(cs[i]) < TableSize
  }

  /// A register table with one channel's word put in its slot.
  function Patch(table: seq<int>, c: ChannelConfig): (t: seq<int>)
    requires |table| == TableSize && LegacySlot(c) < TableSize
    ensures |t| == TableSize
  {
    table[LegacySlot(c) := LegacyWord(c)]
  }

  /// The bank's last channel, if any, has its slot inside the table.
  predicate LastFits(cs: seq<ChannelConfig>, b: Bank)
  {
    OnBank(cs, b) != [] ==> LegacySlot(LastOnBank(cs, b)) < TableSize
  }

  lemma FitsLast(cs: seq<ChannelConfig>, b: Bank)
    requires FitsTable(cs)
    ensures LastFits(cs, b)
  {
    if OnBank(cs, b) != [] {
      OnBankMembers(cs, b);
      assert LastOnBank(cs, b) in OnBank(cs, b);
    }
  }

  /// The write a read makes for bank `b`, if it has a channel: the
  /// register's table with only the bank's last channel patched in, because
  /// every channel patches a fresh read of the register.
  function LegacyCommit(v: Value, cs: seq<ChannelConfig>, b: Bank): seq<Action>
    requires v.Table? && |v.t| == TableSize && LastFits(cs, b)
  {
    if OnBank(cs, b) == [] then [] else [Write(AICnfg(b), Table(Patch(v.t, LastOnBank(cs, b))))]
  }

  /// The written table differs from the register only at the slot of the
  /// bank's last channel, which holds that channel's word.
  lemma LegacyTableSpec(table: seq<int>, c: ChannelConfig)
    requires |table| == TableSize && LegacySlot(c) < TableSize
    ensures Patch(table, c)[LegacySlot(c)] == LegacyWord(c)
    ensures forall k :: 0 <= k < TableSize && k != LegacySlot(c) ==> Patch(table, c)[k] == table[k]
  {
  }

  /// A differential channel gets the word of the single-ended channel with
  /// the same number and range.
  lemma LegacyWordIsSingleEnded(c: ChannelConfig)
    ensures LegacyWord(c) == Word(ChannelConfig(c.bank, c.channel, SingleEnded, c.rangeBits))
  {
  }

  /// The constructor accepts single-ended AI5, but its slot 7 + 5 is past
  /// the twelve-slot table, so every read of that session raises
  /// IndexError; the same holds for AI6 and AI7.
  lemma HighChannelPastTable()
    ensures LegacyValidate(SingleEndedDict(A, 5)) == Ok(ChannelConfig(A, 5, SingleEnded, 0))
    ensures !FitsTable([ChannelConfig(A, 5, SingleEnded, 0)])
  {
    assert RangeBits(None) == 0;
    var cs := [ChannelConfig(A, 5, SingleEnded, 0)];
    assert LegacySlot(cs[0]) == TableSize;
  }

  /// Differential AI0 gets word 8, which the scan table reads as
  /// single-ended AI0, while the newer encoding gives it 0 in slot 8.
  lemma DifferentialWordMisread()
    ensures var c := ChannelConfig(A, 0, Differential, 0);
      LegacyWord(c) == 8 && DecodeWord(LegacyWord(c)).singleEnded
      && Word(c) == 0 && Slot(c) == 8 && !DecodeWord(Word(c)).singleEnded
  {
    var c := ChannelConfig(A, 0, Differential, 0);
    WordValue(c);
    WordValue(ChannelConfig(A, 0, SingleEnded, 0));
  }

  /// One analog-input session of the older driver.
  class LegacyAnalogInput {
    const fpga: Fpga
    /// `self.channel_list`, in call order.
    var channels: seq<ChannelConfig>
    /// `self.a_used` / `self.b_used`.
    var used: PerBank<bool>

    ghost predicate Valid()
      reads this, fpga
    {
      fpga.Valid() && AllWellFormed(channels)
      && (used.a <==> OnBank(channels, A) != [])
      && (used.b <==> OnBank(channels, B) != [])
    }

    constructor(fpga: Fpga)
      requires fpga.Valid()
      ensures Valid() && this.fpga == fpga && channels == [] && used == Both(false)
    {
      this.fpga := fpga;
      channels := [];
      used := Both(false);
    }

    /// `__init__`: the dictionaries are taken in order; a rejected one stops
    /// the constructor with the earlier banks' defaults already written.
    method Open(ds: seq<ConfigDict>) returns (err: Option<Error>)
      requires Valid() && channels == [] && used == Both(false)
      modifies this, fpga
      ensures Valid()
      ensures err.None? <==> FirstRejected(ds) == |ds|
      ensures err.Some? ==> err.value == LegacyValidate(ds[FirstRejected(ds)]).error
      ensures channels == Accepted(ds, FirstRejected(ds))
      ensures fpga.trace == old(fpga.trace) + OpenActions(channels)
      ensures fpga.aiFifo == old(fpga.aiFifo) && fpga.aoFifo == old(fpga.aoFifo)
    {
      var k := FirstRejected(ds);
      var i := 0;
      while i < |ds|
        invariant 0 <= i <= k && Valid()
        invariant channels == Accepted(ds, i)
        invariant fpga.trace == old(fpga.trace) + OpenActions(channels)
        invariant fpga.aiFifo == old(fpga.aiFifo) && fpga.aoFifo == old(fpga.aoFifo)
      {
        var r := LegacyValidate(ds[i]);
        if r.Err? {
          assert i == k;
          return Some(r.error);
        }
        assert i < k;
        Accept(r.value);
        OpenStep(old(fpga.trace), ds, i);
        i := i + 1;
      }
      return None;
    }

    /// One accepted channel: its bank's defaults the first time the bank is
    /// met, then the channel is appended.
    method Accept(c: ChannelConfig)
      requires Valid() && WellFormed(c)
      modifies this, fpga
      ensures Valid()
      ensures channels == old(channels) + [c]
      ensures fpga.trace == old(fpga.trace) + (if OnBank(old(channels), c.bank) == [] then BankInit(c.bank) else [])
      ensures fpga.aiFifo == old(fpga.aiFifo) && fpga.aoFifo == old(fpga.aoFifo)
    {
      var first := if c.bank == A then !used.a else !used.b;
      if first {
        InitBank(fpga, c.bank);
        if c.bank == A {
          used := used.(a := true);
        } else {
          used := used.(b := true);
        }
      } else {
        AppendEmpty(fpga.trace);
      }
      OnBankSnoc(channels, c, A);
      OnBankSnoc(channels, c, B);
      WellFormedSnoc(channels, c);
      channels := channels + [c];
    }

    /// `read`: every channel patches a fresh read of its bank's CNFG table
    /// at slot 7 + c, so a channel above AI4 raises IndexError before
    /// anything is written; then each used bank's table is written and the
    /// VAL registers are read in call order.
    method Read() returns (r: Result<seq<int>>)
      requires Valid()
      modifies fpga
      ensures Valid()
      ensures r.Ok? <==> FitsTable(channels)
      ensures r.Err? ==> r.error == SlotOutOfRange && fpga.trace == old(fpga.trace) && fpga.regs == old(fpga.regs)
      ensures r.Ok? ==>
        LastFits(channels, A) && LastFits(channels, B) &&
        old(fpga.Read(AICnfg(A))).Table? && |old(fpga.Read(AICnfg(A))).t| == TableSize &&
        old(fpga.Read(AICnfg(B))).Table? && |old(fpga.Read(AICnfg(B))).t| == TableSize &&
        fpga.trace == old(fpga.trace) + LegacyCommit(old(fpga.Read(AICnfg(A))), channels, A)
                                      + LegacyCommit(old(fpga.Read(AICnfg(B))), channels, B)
      ensures r.Ok? ==> (|r.value| == |channels| &&
        forall i :: 0 <= i < |channels| ==> r.value[i] == old(fpga.Read(ValueRegister(channels[i]))).i)
      ensures fpga.aiFifo == old(fpga.aiFifo) && fpga.aoFifo == old(fpga.aoFifo)
    {
      var tableA := fpga.Read(AICnfg(A)).t;
      var tableB := fpga.Read(AICnfg(B)).t;
      var current := PatchLegacy(channels, tableA, tableB);
      if current.None? {
        return Err(SlotOutOfRange);
      }
      CommitTables(current.value);
      var values := ReadValueRegisters(fpga, channels);
      // Only the CNFG registers were written, so the values are the ones
      // the VAL registers held on entry.
      forall i | 0 <= i < |channels|
        ensures values[i] == old(fpga.Read(ValueRegister(channels[i]))).i
      {
        assert ValueRegister(channels[i]) != AICnfg(A) && ValueRegister(channels[i]) != AICnfg(B);
      }
      return Ok(values);
    }

    /// The table writes of `read` once every channel is patched: bank A's,
    /// then bank B's.
    method CommitTables(tables: (seq<int>, seq<int>))
      requires Valid()
      requires fpga.Read(AICnfg(A)).Table? && PatchedFor(channels, fpga.Read(AICnfg(A)).t, tables.0, A)
      requires fpga.Read(AICnfg(B)).Table? && PatchedFor(channels, fpga.Read(AICnfg(B)).t, tables.1, B)
      modifies fpga
      ensures Valid()
      ensures fpga.trace == old(fpga.trace) + LegacyCommit(old(fpga.Read(AICnfg(A))), channels, A)
                                            + LegacyCommit(old(fpga.Read(AICnfg(B))), channels, B)
      ensures forall r: Reg :: r != AICnfg(A) && r != AICnfg(B) ==> fpga.Read(r) == old(fpga.Read(r))
      ensures fpga.aiFifo == old(fpga.aiFifo) && fpga.aoFifo == old(fpga.aoFifo)
    {
      CommitLegacy(A, tables.0, fpga.Read(AICnfg(A)));
      CommitLegacy(B, tables.1, fpga.Read(AICnfg(B)));
    }

    method CommitLegacy(b: Bank, table: seq<int>, ghost v: Value)
      requires Valid() && v == fpga.Read(AICnfg(b)) && LastFits(channels, b)
      requires v.Table? && PatchedFor(channels, v.t, table, b)
      modifies fpga
      ensures Valid()
      ensures fpga.trace == old(fpga.trace) + LegacyCommit(v, channels, b)
      ensures forall r: Reg :: r != AICnfg(b) ==> fpga.Read(r) == old(fpga.Read(r))
      ensures fpga.aiFifo == old(fpga.aiFifo) && fpga.aoFifo == old(fpga.aoFifo)
    {
      if OnBank(channels, b) != [] {
        fpga.WriteReg(AICnfg(b), Table(table));
      } else {
        AppendEmpty(fpga.trace);
      }
    }
  }

  /// The patch loop of `read`, on the two tables it reads from the
  /// registers (which nothing writes during the loop).
  method PatchLegacy(cs: seq<ChannelConfig>, tableA: seq<int>, tableB: seq<int>)
    returns (current: Option<(seq<int>, seq<int>)>)
    requires |tableA| == TableSize && |tableB| == TableSize
    ensures current.Some? <==> FitsTable(cs)
    ensures current.Some? ==> PatchedFor(cs, tableA, current.value.0, A) && PatchedFor(cs, tableB, current.value.1, B)
  {
    var a: seq<int> := [];
    var b: seq<int> := [];
    for i := 0 to |cs|
      invariant FitsTable(cs[..i])
      invariant PatchedFor(cs[..i], tableA, a, A) && PatchedFor(cs[..i], tableB, b, B)
    {
      var c := cs[i];
      var table := if c.bank == A then tableA else tableB;
      if LegacySlot(c) >= |table| {
        NotFits(cs, i);
        return None;
      }
      PatchLoopStep(cs, i, tableA, tableB, a, b);
      if c.bank == A {
        a := Patch(table, c);
      } else {
        b := Patch(table, c);
      }
    }
    assert cs[..|cs|] == cs;
    return Some((a, b));
  }

  /// `cur` is the table the patch loop holds for bank `b` after the
  /// channels `cs`.
  predicate PatchedFor(cs: seq<ChannelConfig>, table: seq<int>, cur: seq<int>, b: Bank)
  {
    |table| == TableSize && LastFits(cs, b)
    && (OnBank(cs, b) != [] ==> cur == Patch(table, LastOnBank(cs, b)))
  }

  lemma FitsSnoc(cs: seq<ChannelConfig>, c: ChannelConfig)
    requires FitsTable(cs) && LegacySlot(c) < TableSize
    ensures FitsTable(cs + [c])
  {
    assert forall i :: 0 <= i < |cs| ==> (cs + [c])[i] == cs[i];
  }

  lemma NotFits(cs: seq<ChannelConfig>, i: int)
    requires 0 <= i < |cs| && LegacySlot(cs[i]) >= TableSize
    ensures !FitsTable(cs)
  {
  }

  /// One iteration of the patch loop keeps its invariants.
  lemma PatchLoopStep(cs: seq<ChannelConfig>, i: int, tableA: seq<int>, tableB: seq<int>, a: seq<int>, b: seq<int>)
    requires 0 <= i < |cs| && LegacySlot(cs[i]) < TableSize && FitsTable(cs[..i])
    requires PatchedFor(cs[..i], tableA, a, A) && PatchedFor(cs[..i], tableB, b, B)
    ensures FitsTable(cs[..i + 1])
    ensures PatchedFor(cs[..i + 1], tableA, if cs[i].bank == A then Patch(tableA, cs[i]) else a, A)
    ensures PatchedFor(cs[..i + 1], tableB, if cs[i].bank == B then Patch(tableB, cs[i]) else b, B)
  {
    var pre := cs[..i];
    assert cs[..i + 1] == pre + [cs[i]];
    FitsSnoc(pre, cs[i]);
    PatchStep(pre, cs[i], tableA, a, A);
    PatchStep(pre, cs[i], tableB, b, B);
  }

  /// One step of the patch loop keeps `PatchedFor` for each bank.
  lemma PatchStep(cs: seq<ChannelConfig>, c: ChannelConfig, table: seq<int>, cur: seq<int>, b: Bank)
    requires PatchedFor(cs, table, cur, b) && LegacySlot(c) < TableSize
    ensures PatchedFor(cs + [c], table, if c.bank == b then Patch(table, c) else cur, b)
  {
    OnBankSnoc(cs, c, b);
  }

  /// Writes bank `b`'s default table, channel count and clock count.
  method InitBank(fpga: Fpga, b: Bank)
    requires fpga.Valid()
    modifies fpga
    ensures fpga.Valid()
    ensures fpga.trace == old(fpga.trace) + BankInit(b)
    ensures fpga.aiFifo == old(fpga.aiFifo) && fpga.aoFifo == old(fpga.aoFifo)
  {
    fpga.WriteReg(AICnfg(b), Table(DefaultScanTable));
    fpga.WriteReg(AICnt(b), Int(TableSize));
    fpga.WriteReg(AICntr(b), Int(SinglePointTicks));
  }

  lemma WellFormedSnoc(cs: seq<ChannelConfig>, c: ChannelConfig)
    requires AllWellFormed(cs) && WellFormed(c)
    ensures AllWellFormed(cs + [c])
  {
  }

  /// Appending a channel extends the channels of its own bank only.
  lemma OnBankSnoc(cs: seq<ChannelConfig>, c: ChannelConfig, b: Bank)
    ensures OnBank(cs + [c], b) == OnBank(cs, b) + (if c.bank == b then [c] else [])
  {
    assert (cs + [c])[..|cs + [c]| - 1] == cs;
  }
}
