/// Analog-input channel configuration: validation of the configuration
/// dictionaries given to `AnalogInput(...)`, the scan-table word and slot of
/// each channel, the bank-ordered channel list and each bank's 12-slot scan
/// table.
module AIConfig {
  import opened Common
  import opened Bits

  /// The scan table of a bank has twelve slots.
  const TableSize: nat := 12

  /// Channels AI0..AI7 single-ended, AI0..AI3 differential.
  const MaxSingleEndedChannel: int := 7
  const MaxDifferentialChannel: int := 3

  datatype Mode = SingleEnded | Differential

  datatype AIRange = PlusMinus1V | PlusMinus2V | PlusMinus5V | PlusMinus10V

  /// What the caller put under the 'bank' key: a Bank member or anything else.
  datatype BankArg = NamedBank(bank: Bank) | NotABank

  /// What the caller put under the 'range' key: an AIRange member or anything else.
  datatype RangeArg = NamedRange(range: AIRange) | NotARange

  /// One configuration dictionary; a missing key is None.
  datatype ConfigDict = ConfigDict(
    bank: Option<BankArg>,
    channel: Option<int>,
    mode: Option<Mode>,
    range: Option<RangeArg>)

  /// A validated channel: its bank, channel number, mode and range bits.
  datatype ChannelConfig = ChannelConfig(bank: Bank, channel: nat, mode: Mode, rangeBits: nat)

  /// The two-bit range code placed in bits 4-5 of a scan-table word.
  function RangeCode(r: AIRange): nat
  {
    match r
    case PlusMinus1V => 3
    case PlusMinus2V => 2
    case PlusMinus5V => 1
    case PlusMinus10V => 0
  }

  /// `init_cnfg_value`: 0b110000, 0b100000, 0b10000 or 0 (also when no range is given).
  function RangeBits(r: Option<RangeArg>): nat
    requires r.None? || r.value.NamedRange?
  {
    if r.None? then 0 else Shl(RangeCode(r.value.range), 4)
  }

  function ChannelLimit(m: Mode): int
  {
    if m == SingleEnded then MaxSingleEndedChannel else MaxDifferentialChannel
  }

  /// The checks of the constructor, in source order; the first that fails
  /// names the error.
  function Validate(d: ConfigDict): (r: Result<ChannelConfig>)
    ensures r.Ok? <==>
      d.bank.Some? && d.channel.Some? && d.bank.value.NamedBank?
      && 0 <= d.channel.value <= ChannelLimit(if d.mode.None? then SingleEnded else d.mode.value)
      && (d.range.None? || d.range.value.NamedRange?)
    ensures r.Err? ==>
      r.error == (if d.bank.None? then MissingBank
                  else if d.channel.None? then MissingChannel
                  else if d.bank.value.NotABank? then InvalidBank
                  else if !(0 <= d.channel.value <= ChannelLimit(if d.mode.None? then SingleEnded else d.mode.value)) then InvalidChannel
                  else InvalidRange)
    ensures r.Ok? ==>
      r.value.bank == d.bank.value.bank && r.value.channel == d.channel.value
      && r.value.mode == (if d.mode.None? then SingleEnded else d.mode.value)
      && r.value.channel <= ChannelLimit(r.value.mode)
      && r.value.rangeBits == (if d.range.None? then 0 else 16 * RangeCode(d.range.value.range))
  {
    if d.bank.None? then Err(MissingBank)
    else if d.channel.None? then Err(MissingChannel)
    else if d.bank.value.NotABank? then Err(InvalidBank)
    else
      var mode := if d.mode.None? then SingleEnded else d.mode.value;
      var c := d.channel.value;
      if !(0 <= c <= ChannelLimit(mode)) then Err(InvalidChannel)
      else if d.range.Some? && d.range.value.NotARange? then Err(InvalidRange)
      else Ok(ChannelConfig(d.bank.value.bank, c, mode, RangeBits(d.range)))
  }

  /// A channel as the constructor can produce it.
  predicate WellFormed(c: ChannelConfig)
  {
    c.channel <= ChannelLimit(c.mode)
    && c.rangeBits in {0, 16, 32, 48}
  }

  /// Scan-table slot: c single-ended, c + 8 differential.
  function Slot(c: ChannelConfig): nat
  {
    if c.mode == Differential then c.channel + 8 else c.channel
  }

  /// Scan-table word: c | range differential, c | 0b1000 | range single-ended.
  function Word(c: ChannelConfig): nat
  {
    if c.mode == Differential then Or(c.channel, c.rangeBits)
    else Or(Or(c.channel, 8), c.rangeBits)
  }

  /// The fields a scan-table word packs: channel in bits 0-2, single-ended
  /// flag in bit 3, range code in bits 4-5.
  datatype WordFields = WordFields(channel: nat, singleEnded: bool, rangeCode: nat)

  function DecodeWord(w: nat): WordFields
  {
    WordFields(w % 8, (w / 8) % 2 == 1, w / 16)
  }

  /// The word packs the channel, the mode and the range without overlap.
  lemma WordValue(c: ChannelConfig)
    requires WellFormed(c)
    ensures Word(c) == c.channel + (if c.mode == SingleEnded then 8 else 0) + c.rangeBits
  {
    var code := c.rangeBits / 16;
    assert c.rangeBits == Shl(code, 4);
    assert Pow2(3) == 8 && Pow2(4) == 16;
    if c.mode == SingleEnded {
      OrShiftedAdd(c.channel, 1, 3);
      OrShiftedAdd(c.channel + 8, code, 4);
    } else {
      OrShiftedAdd(c.channel, code, 4);
    }
  }

  lemma DecodeSum(channel: nat, singleEnded: bool, rangeBits: nat)
    requires channel < 8 && rangeBits in {0, 16, 32, 48}
    ensures DecodeWord(channel + (if singleEnded then 8 else 0) + rangeBits)
      == WordFields(channel, singleEnded, rangeBits / 16)
  {
  }

  /// Decoding a channel's word gives back its channel, mode and range code.
  lemma WordRoundTrip(c: ChannelConfig)
    requires WellFormed(c)
    ensures DecodeWord(Word(c)) == WordFields(c.channel, c.mode == SingleEnded, c.rangeBits / 16)
    ensures Word(c) < 64
  {
    WordValue(c);
    DecodeSum(c.channel, c.mode == SingleEnded, c.rangeBits);
  }

  /// Slot and word of a channel determine each other: the slot is the word's
  /// channel field, plus 8 exactly for differential channels.
  lemma SlotMatchesWord(c: ChannelConfig)
    requires WellFormed(c)
    ensures Slot(c) == DecodeWord(Word(c)).channel + (if DecodeWord(Word(c)).singleEnded then 0 else 8)
    ensures Slot(c) < TableSize
  {
    WordRoundTrip(c);
  }

  /// Validates the dictionaries in call order; the first invalid one decides.
  function ValidateAll(ds: seq<ConfigDict>): (r: Result<seq<ChannelConfig>>)
    ensures r.Ok? ==> |r.value| == |ds|
  {
    if ds == [] then Ok([])
    else
      var c :- Validate(ds[0]);
      var rest :- ValidateAll(ds[1..]);
      Ok([c] + rest)
  }

  /// The channels on one bank, in order.
  function OnBank(cs: seq<ChannelConfig>, b: Bank): seq<ChannelConfig>
  {
    if cs == [] then []
    else OnBank(cs[..|cs| - 1], b) + (if cs[|cs| - 1].bank == b then [cs[|cs| - 1]] else [])
  }

  /// `channel_list`: every bank-A channel, then every bank-B channel, each in call order.
  function ChannelList(ds: seq<ConfigDict>): Result<seq<ChannelConfig>>
  {
    var cs :- ValidateAll(ds);
    Ok(OnBank(cs, A) + OnBank(cs, B))
  }

  /// Validation succeeds exactly when every dictionary is valid; then the
  /// i-th channel is the i-th dictionary's, and otherwise the error is that
  /// of the first invalid dictionary.
  lemma {:induction false} ValidateAllSpec(ds: seq<ConfigDict>)
    ensures ValidateAll(ds).Ok? <==> forall i :: 0 <= i < |ds| ==> Validate(ds[i]).Ok?
    ensures ValidateAll(ds).Ok? ==>
      forall i :: 0 <= i < |ds| ==> ValidateAll(ds).value[i] == Validate(ds[i]).value
    ensures ValidateAll(ds).Err? ==>
      exists k :: 0 <= k < |ds| && Validate(ds[k]).Err?
        && (forall i :: 0 <= i < k ==> Validate(ds[i]).Ok?)
        && ValidateAll(ds).error == Validate(ds[k]).error
  {
    if ds != [] {
      ValidateAllSpec(ds[1..]);
      if Validate(ds[0]).Ok? && ValidateAll(ds[1..]).Err? {
        var k :| 0 <= k < |ds[1..]| && Validate(ds[1..][k]).Err?
          && (forall i :: 0 <= i < k ==> Validate(ds[1..][i]).Ok?)
          && ValidateAll(ds[1..]).error == Validate(ds[1..][k]).error;
        assert Validate(ds[k + 1]).Err?;
        forall i | 0 <= i < k + 1
          ensures Validate(ds[i]).Ok?
        {
          if i > 0 {
            assert ds[i] == ds[1..][i - 1];
          }
        }
      }
      if ValidateAll(ds).Ok? {
        forall i | 0 <= i < |ds|
          ensures ValidateAll(ds).value[i] == Validate(ds[i]).value
        {
          if i > 0 {
            assert ds[i] == ds[1..][i - 1];
          }
        }
      }
      if forall i :: 0 <= i < |ds| ==> Validate(ds[i]).Ok? {
        forall i | 0 <= i < |ds[1..]|
          ensures Validate(ds[1..][i]).Ok?
        {
          assert ds[1..][i] == ds[i + 1];
        }
      }
    }
  }

  lemma {:induction false} OnBankAppend(s: seq<ChannelConfig>, t: seq<ChannelConfig>, b: Bank)
    ensures OnBank(s + t, b) == OnBank(s, b) + OnBank(t, b)
    decreases |t|
  {
    if t == [] {
      assert s + t == s;
    } else {
      var t' := t[..|t| - 1];
      assert (s + t)[..|s + t| - 1] == s + t';
      OnBankAppend(s, t', b);
    }
  }

  /// Splitting by bank neither loses nor duplicates a channel.
  lemma {:induction false} OnBankSplit(s: seq<ChannelConfig>)
    ensures multiset(OnBank(s, A)) + multiset(OnBank(s, B)) == multiset(s)
  {
    if s != [] {
      var s' := s[..|s| - 1];
      assert s == s' + [s[|s| - 1]];
      OnBankSplit(s');
    }
  }

  lemma {:induction false} OnBankIsOnBank(s: seq<ChannelConfig>, b: Bank)
    ensures forall i :: 0 <= i < |OnBank(s, b)| ==> OnBank(s, b)[i].bank == b
  {
    if s != [] {
      OnBankIsOnBank(s[..|s| - 1], b);
    }
  }

  lemma OnBankOfOther(s: seq<ChannelConfig>, b: Bank)
    requires forall i :: 0 <= i < |s| ==> s[i].bank == b
    ensures OnBank(s, b) == s
    ensures OnBank(s, if b == A then B else A) == []
  {
    if s != [] {
      OnBankOfOther(s[..|s| - 1], b);
    }
  }

  /// The channel list is a reordering of the validated channels ...
  lemma ChannelListPermutation(ds: seq<ConfigDict>)
    requires ChannelList(ds).Ok?
    ensures multiset(ChannelList(ds).value) == multiset(ValidateAll(ds).value)
  {
    OnBankSplit(ValidateAll(ds).value);
  }

  /// ... that puts every bank-A channel before every bank-B channel ...
  lemma ChannelListBanksInOrder(ds: seq<ConfigDict>)
    requires ChannelList(ds).Ok?
    ensures var cl := ChannelList(ds).value;
      forall i, j :: 0 <= i < j < |cl| && cl[i].bank == B ==> cl[j].bank == B
  {
    var cs := ValidateAll(ds).value;
    OnBankIsOnBank(cs, A);
    OnBankIsOnBank(cs, B);
  }

  /// ... and keeps the call order within each bank.
  lemma ChannelListStable(ds: seq<ConfigDict>, b: Bank)
    requires ChannelList(ds).Ok?
    ensures OnBank(ChannelList(ds).value, b) == OnBank(ValidateAll(ds).value, b)
  {
    var cs := ValidateAll(ds).value;
    var xa := OnBank(cs, A);
    var xb := OnBank(cs, B);
    OnBankIsOnBank(cs, A);
    OnBankIsOnBank(cs, B);
    OnBankAppend(xa, xb, b);
    OnBankOfOther(xa, A);
    OnBankOfOther(xb, B);
  }

  /// One bank's scan table and the number of channels it enables.
  datatype ScanTable = ScanTable(cnfg: seq<int>, numberOfChannels: nat)

  function Words(cs: seq<ChannelConfig>): (r: seq<int>)
    ensures |r| == |cs|
    ensures forall i :: 0 <= i < |cs| ==> r[i] == Word(cs[i])
  {
    seq(|cs|, i requires 0 <= i < |cs| => Word(cs[i]))
  }

  function Zeros(n: nat): (r: seq<int>)
    ensures |r| == n && forall i :: 0 <= i < n ==> r[i] == 0
  {
    seq(n, i => 0)
  }

  /// The table a bank's channels produce: their words in list order, then zeros.
  function TableFor(cs: seq<ChannelConfig>): ScanTable
    requires |cs| <= TableSize
  {
    ScanTable(Words(cs) + Zeros(TableSize - |cs|), |cs|)
  }

  /// The scan plan of both banks, or IndexError when a bank has more than
  /// twelve channels.
  function ScanPlan(channels: seq<ChannelConfig>): Result<PerBank<ScanTable>>
  {
    if |OnBank(channels, A)| > TableSize || |OnBank(channels, B)| > TableSize then Err(TooManyChannels)
    else Ok(PerBank(TableFor(OnBank(channels, A)), TableFor(OnBank(channels, B))))
  }

  /// `__calculate_multiple_points_cnfg_and_number_of_enabled_channels`: fills
  /// each bank's zeroed table slot by slot, in list order.
  method ComputeScanPlan(channels: seq<ChannelConfig>) returns (r: Result<PerBank<ScanTable>>)
    ensures r == ScanPlan(channels)
    ensures r.Ok? ==> forall b: Bank ::
      |r.value.Get(b).cnfg| == TableSize && r.value.Get(b).numberOfChannels == |OnBank(channels, b)|
  {
    var tableA := Zeros(TableSize);
    var tableB := Zeros(TableSize);
    var countA: nat := 0;
    var countB: nat := 0;
    for i := 0 to |channels|
      invariant countA == |OnBank(channels[..i], A)| <= TableSize
      invariant countB == |OnBank(channels[..i], B)| <= TableSize
      invariant tableA == Words(OnBank(channels[..i], A)) + Zeros(TableSize - countA)
      invariant tableB == Words(OnBank(channels[..i], B)) + Zeros(TableSize - countB)
    {
      var c := channels[i];
      OnBankNext(channels, i);
      if c.bank == A {
        if countA == TableSize {
          TooManyOnBank(channels, i, A);
          return Err(TooManyChannels);
        }
        PlaceWord(OnBank(channels[..i], A), c, tableA);
        tableA := tableA[countA := Word(c)];
        countA := countA + 1;
      } else {
        if countB == TableSize {
          TooManyOnBank(channels, i, B);
          return Err(TooManyChannels);
        }
        PlaceWord(OnBank(channels[..i], B), c, tableB);
        tableB := tableB[countB := Word(c)];
        countB := countB + 1;
      }
    }
    assert channels[..|channels|] == channels;
    r := Ok(PerBank(ScanTable(tableA, countA), ScanTable(tableB, countB)));
  }

  /// One more channel of the list joins its own bank's channels only.
  lemma OnBankNext(channels: seq<ChannelConfig>, i: nat)
    requires i < |channels|
    ensures OnBank(channels[..i + 1], channels[i].bank) == OnBank(channels[..i], channels[i].bank) + [channels[i]]
    ensures OnBank(channels[..i + 1], Opposite(channels[i].bank)) == OnBank(channels[..i], Opposite(channels[i].bank))
  {
    assert channels[..i + 1][..i] == channels[..i];
  }

  /// Writing a channel's word into the first free slot of a table.
  lemma PlaceWord(done: seq<ChannelConfig>, c: ChannelConfig, table: seq<int>)
    requires |done| < TableSize && table == Words(done) + Zeros(TableSize - |done|)
    ensures table[|done| := Word(c)] == Words(done + [c]) + Zeros(TableSize - (|done| + 1))
  {
  }

  /// A bank that already fills its twelve slots in a prefix of the list
  /// overflows in the whole list.
  lemma TooManyOnBank(channels: seq<ChannelConfig>, i: nat, b: Bank)
    requires i < |channels| && |OnBank(channels[..i + 1], b)| > TableSize
    ensures |OnBank(channels, b)| > TableSize
  {
    OnBankAppend(channels[..i + 1], channels[i + 1..], b);
    assert channels[..i + 1] + channels[i + 1..] == channels;
  }

  /// The slot of the j-th channel of a bank in its scan table holds that
  /// channel's word, and the slots after the last channel hold 0.
  lemma ScanPlanSlots(channels: seq<ChannelConfig>, b: Bank)
    requires ScanPlan(channels).Ok?
    ensures var t := ScanPlan(channels).value.Get(b);
      |t.cnfg| == TableSize
      && t.numberOfChannels == |OnBank(channels, b)|
      && (forall j :: 0 <= j < t.numberOfChannels ==> t.cnfg[j] == Word(OnBank(channels, b)[j]))
      && (forall j :: t.numberOfChannels <= j < TableSize ==> t.cnfg[j] == 0)
  {
  }

  /// Validated channels are well formed.
  lemma ValidatedWellFormed(ds: seq<ConfigDict>)
    requires ChannelList(ds).Ok?
    ensures forall i :: 0 <= i < |ChannelList(ds).value| ==> WellFormed(ChannelList(ds).value[i])
  {
    ValidateAllSpec(ds);
    var cs := ValidateAll(ds).value;
    forall k | 0 <= k < |cs|
      ensures WellFormed(cs[k])
    {
      assert cs[k] == Validate(ds[k]).value;
    }
    OnBankMembers(cs, A);
    OnBankMembers(cs, B);
    var cl := ChannelList(ds).value;
    forall i | 0 <= i < |cl|
      ensures WellFormed(cl[i])
    {
      assert cl[i] in OnBank(cs, A) + OnBank(cs, B);
      var k :| 0 <= k < |cs| && cs[k] == cl[i];
    }
  }

  /// The channels of a bank are channels of the list.
  lemma {:induction false} OnBankMembers(channels: seq<ChannelConfig>, b: Bank)
    ensures forall c :: c in OnBank(channels, b) ==> c in channels
  {
    if channels != [] {
      var init := channels[..|channels| - 1];
      OnBankMembers(init, b);
      assert forall c :: c in init ==> c in channels;
    }
  }

  // ----- The configurations tests/AI.py pins -----

  function SingleEndedDict(b: Bank, c: int): ConfigDict
  {
    ConfigDict(Some(NamedBank(b)), Some(c), None, None)
  }

  function DifferentialDict(b: Bank, c: int): ConfigDict
  {
    ConfigDict(Some(NamedBank(b)), Some(c), Some(Differential), None)
  }

  /// AI0..AI7 single-ended, then AI0..AI3 differential, all on one bank.
  function TwelveDicts(b: Bank): (ds: seq<ConfigDict>)
    ensures |ds| == 12
  {
    seq(12, i => if i < 8 then SingleEndedDict(b, i) else DifferentialDict(b, i - 8))
  }

  function TwelveConfigs(b: Bank): (cs: seq<ChannelConfig>)
    ensures |cs| == 12
  {
    seq(12, i requires 0 <= i < 12 => if i < 8 then ChannelConfig(b, i, SingleEnded, 0) else ChannelConfig(b, i - 8, Differential, 0))
  }

  lemma TwelveValidated(b: Bank)
    ensures ValidateAll(TwelveDicts(b)) == Ok(TwelveConfigs(b))
  {
    var ds := TwelveDicts(b);
    var expected := TwelveConfigs(b);
    forall i | 0 <= i < 12
      ensures Validate(ds[i]) == Ok(expected[i])
    {
      assert ds[i] == if i < 8 then SingleEndedDict(b, i) else DifferentialDict(b, i - 8);
    }
    ValidateAllSpec(ds);
    assert ValidateAll(ds).value == expected;
  }

  lemma TwelveChannelList(b: Bank)
    ensures ChannelList(TwelveDicts(b)) == Ok(TwelveConfigs(b))
  {
    TwelveValidated(b);
    var cs := TwelveConfigs(b);
    OnBankOfOther(cs, b);
    assert ChannelList(TwelveDicts(b)) == Ok(OnBank(cs, A) + OnBank(cs, B));
    if b == A {
      assert cs + [] == cs;
    } else {
      assert [] + cs == cs;
    }
  }

  lemma TwelveWords(b: Bank)
    ensures Words(TwelveConfigs(b)) == [8, 9, 10, 11, 12, 13, 14, 15, 0, 1, 2, 3]
  {
    var cs := TwelveConfigs(b);
    var expected := [8, 9, 10, 11, 12, 13, 14, 15, 0, 1, 2, 3];
    forall i | 0 <= i < 12
      ensures Words(cs)[i] == expected[i]
    {
      WordValue(cs[i]);
    }
  }

  /// Those twelve channels give slots 0..11 and words 8..15 then 0..3.
  lemma AllTwelveChannels(b: Bank)
    ensures ChannelList(TwelveDicts(b)).Ok?
    ensures |ChannelList(TwelveDicts(b)).value| == 12
    ensures forall i :: 0 <= i < 12 ==> Slot(ChannelList(TwelveDicts(b)).value[i]) == i
    ensures Words(ChannelList(TwelveDicts(b)).value) == [8, 9, 10, 11, 12, 13, 14, 15, 0, 1, 2, 3]
  {
    TwelveChannelList(b);
    TwelveWords(b);
  }
}
