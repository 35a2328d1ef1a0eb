/// The register helpers of the older copy of the driver
/// (`source/nielvisiii/academicIO.py`) that differ from the newer one: the
/// digital lines, which any of DIO0 .. DIO19 may be read or written without
/// being opened first; the SYS.SELECT updates, which only OR bits into the
/// word read back; and `SPI.configure`, which uses the older quantizer in
/// phase-correct mode.
module LegacyIO {
  import opened Common
  import opened Bits
  import opened Rationals
  import opened Clock
  import opened PwmSpi
  import opened LegacyClock
  import Dio
  import Encoder
  import I2c
  import SysSelect

  // ---------------------------------------------------------------------
  // SYS.SELECT

  /// Encoder `__init__`: `select | (1 << (channel * 4 + 1))`.
  function LegacyEncoderSelect(v: nat, channel: nat): nat
  {
    Or(v, Shl(1, channel * 4 + 1))
  }

  /// PWM `__init__`: `select | (1 << (channel * 2))`.
  function LegacyPwmSelect(v: nat, channel: nat): nat
  {
    Or(v, Shl(1, channel * 2))
  }

  /// The constant I2C `configure` ORs in: 0b1111 followed by 27 zeros.
  const I2cSelectBits: nat := Shl(15, 27)

  /// The constant SPI `configure` ORs in: 0b111111 followed by nine zeros.
  const SpiSelectBits: nat := Shl(63, 9)

  function LegacyI2cSelect(v: nat): nat
  {
    Or(v, I2cSelectBits)
  }

  function LegacySpiSelect(v: nat): nat
  {
    Or(v, SpiSelectBits)
  }

  /// n ones shifted left by k occupy bits k .. k + n - 1.
  lemma OnesShiftedBit(n: nat, k: nat, j: nat)
    ensures Bit(Shl(Pow2(n) - 1, k), j) <==> k <= j < k + n
  {
    ShlBit(Pow2(n) - 1, k, j);
    if k <= j {
      LowOnesBit(n, j - k);
    }
  }

  /// Each update sets its own bits and keeps every other bit of the word it
  /// read: no bit is ever cleared.
  lemma LegacySelectBits(v: nat, channel: nat, j: nat)
    ensures Bit(LegacyEncoderSelect(v, channel), j) <==> Bit(v, j) || j == 4 * channel + 1
    ensures Bit(LegacyPwmSelect(v, channel), j) <==> Bit(v, j) || j == 2 * channel
    ensures Bit(LegacyI2cSelect(v), j) <==> Bit(v, j) || 27 <= j < 31
    ensures Bit(LegacySpiSelect(v), j) <==> Bit(v, j) || 9 <= j < 15
  {
    assert Pow2(1) - 1 == 1;
    assert Pow2(4) - 1 == 15 by {
      assert Pow2(2) == 4;
    }
    assert Pow2(6) - 1 == 63 by {
      assert Pow2(3) == 8;
    }
    OrBit(v, Shl(1, channel * 4 + 1), j);
    OnesShiftedBit(1, channel * 4 + 1, j);
    OrBit(v, Shl(1, channel * 2), j);
    OnesShiftedBit(1, channel * 2, j);
    OrBit(v, I2cSelectBits, j);
    OnesShiftedBit(4, 27, j);
    OrBit(v, SpiSelectBits, j);
    OnesShiftedBit(6, 9, j);
  }

  /// The two copies route different SYS.SELECT bits: where the word had
  /// neither bit, the older I2C update sets bit 27 and the newer one bit 31.
  lemma I2cSelectVersionsDiffer(v: nat)
    requires !Bit(v, 27) && !Bit(v, 31)
    ensures Bit(LegacyI2cSelect(v), 27) && !Bit(SysSelect.I2cSelect(v), 27)
    ensures Bit(SysSelect.I2cSelect(v), 31) && !Bit(LegacyI2cSelect(v), 31)
  {
    LegacySelectBits(v, 0, 27);
    LegacySelectBits(v, 0, 31);
    SysSelect.I2cSpiSelectBit(v, 27);
    SysSelect.I2cSpiSelectBit(v, 31);
  }

  /// Likewise the older SPI update sets bit 9 and the newer one bit 15.
  lemma SpiSelectVersionsDiffer(v: nat)
    requires !Bit(v, 9) && !Bit(v, 15)
    ensures Bit(LegacySpiSelect(v), 9) && !Bit(SysSelect.SpiSelect(v), 9)
    ensures Bit(SysSelect.SpiSelect(v), 15) && !Bit(LegacySpiSelect(v), 15)
  {
    LegacySelectBits(v, 0, 9);
    LegacySelectBits(v, 0, 15);
    SysSelect.I2cSpiSelectBit(v, 9);
    SysSelect.I2cSpiSelectBit(v, 15);
  }

  /// The newer encoder update also sets bit 4c+3 and clears bits 4c and
  /// 4c+2; the older one leaves those three bits as they were.
  lemma EncoderSelectVersionsDiffer(v: nat, channel: nat)
    ensures Bit(SysSelect.EncoderSelect(v, channel), 4 * channel + 3)
    ensures Bit(LegacyEncoderSelect(v, channel), 4 * channel + 3) <==> Bit(v, 4 * channel + 3)
    ensures !Bit(SysSelect.EncoderSelect(v, channel), 4 * channel)
    ensures Bit(LegacyEncoderSelect(v, channel), 4 * channel) <==> Bit(v, 4 * channel)
  {
    var high := 4 * channel + 3;
    var low := 4 * channel;
    assert high % 2 == 1 && low % 2 == 0 && high != 4 * channel + 1 && low != 4 * channel + 1;
    LegacySelectBits(v, channel, high);
    LegacySelectBits(v, channel, low);
    SysSelect.EncoderSelectBit(v, channel, high);
    SysSelect.EncoderSelectBit(v, channel, low);
  }

  /// PWM `__init__`: the channel must be one of DIO0 .. DIO19; then the
  /// channel's bit is ORed into SYS.SELECT.
  function LegacyPwmOpen(select: nat, channel: int): (r: Result<nat>)
    ensures r.Ok? <==> Dio.ValidChannel(channel)
    ensures r.Err? ==> r.error == InvalidChannel
    ensures r.Ok? ==> forall j: nat {:trigger Bit(r.value, j)} ::
      Bit(r.value, j) <==> Bit(select, j) || j == 2 * channel
  {
    if !Dio.ValidChannel(channel) then Err(InvalidChannel)
    else
      var r := LegacyPwmSelect(select, channel);
      assert forall j: nat {:trigger Bit(r, j)} :: Bit(r, j) <==> Bit(select, j) || j == 2 * channel by {
        forall j: nat
          ensures Bit(r, j) <==> Bit(select, j) || j == 2 * channel
        {
          LegacySelectBits(select, channel, j);
        }
      }
      Ok(r)
  }

  /// Encoder `__init__` of the older copy, on the encoder's registers:
  /// the channel is checked, CNFG gets the mode word and the channel's bit
  /// is ORed into SYS.SELECT.  Its `read` is the newer one's.
  method OpenLegacyEncoder(enc: Encoder.EncoderSession, channel: int, mode: Encoder.EncoderMode)
    returns (err: Option<Error>)
    modifies enc
    ensures err.None? <==> Encoder.ValidChannel(channel)
    ensures err.Some? ==> (err.value == InvalidChannel && enc.cnfg == old(enc.cnfg)
      && enc.cnfgWrites == old(enc.cnfgWrites) && enc.select == old(enc.select))
    ensures err.None? ==> (enc.cnfg == Encoder.ModeWord(mode)
      && enc.cnfgWrites == old(enc.cnfgWrites) + [Encoder.ModeWord(mode)]
      && enc.select == LegacyEncoderSelect(old(enc.select), channel))
  {
    if !Encoder.ValidChannel(channel) {
      return Some(InvalidChannel);
    }
    var word := if mode == Encoder.Quadrature then 1 else 5;
    enc.cnfg := word;
    enc.cnfgWrites := enc.cnfgWrites + [word];
    var select := enc.select;
    select := Or(select, Shl(1, channel * 4 + 1));
    enc.select := select;
    return None;
  }

  /// I2C `configure` of the older copy: the rate counter and CNFG as in the
  /// newer one, and bits 27 .. 30 ORed into SYS.SELECT.
  method ConfigureLegacyI2c(bus: I2c.I2cSession, mode: I2c.SpeedMode)
    modifies bus
    ensures bus.counter == I2c.RateCounter(mode) && bus.config == 1
    ensures bus.select == LegacyI2cSelect(old(bus.select)) && bus.trace == old(bus.trace)
  {
    if mode == I2c.Standard {
      bus.counter := 213;
    } else {
      bus.counter := 63;
    }
    bus.config := 1;
    var value := bus.select;
    bus.select := Or(value, I2cSelectBits);
  }

  // ---------------------------------------------------------------------
  // DigitalInputOutput

  /// One bank's digital lines in the older copy.  No channel list is kept:
  /// every call names its channels and checks each against DIO0 .. DIO19.
  class LegacyDioSession {
    /// DIO.<bank>_19:0.DIR: a set bit makes the line an output.
    var direction: nat
    /// DIO.<bank>_19:0.OUT
    var output: nat
    /// DIO.<bank>_19:0.IN, driven by the pins.
    const input: nat

    /// `__init__`: DIR is zeroed, so every line starts as an input.
    constructor(output0: nat, input0: nat)
      ensures direction == 0 && output == output0 && input == input0
    {
      direction := 0;
      output := output0;
      input := input0;
    }

    /// `to_write`: DIR gets the bits of the channels, unless one of them is
    /// out of range, in which case nothing is written.
    method ToWrite(cs: seq<int>) returns (err: Option<Error>)
      modifies this
      ensures err.None? <==> Dio.AllValid(cs)
      ensures err.Some? ==> err.value == InvalidChannel && direction == old(direction)
      ensures err.None? ==> direction == Dio.Mask(cs)
      ensures output == old(output)
    {
      var dir := 0;
      var i := 0;
      while i < |cs|
        invariant 0 <= i <= |cs| && Dio.AllValid(cs[..i])
        invariant dir == Dio.Mask(cs[..i])
      {
        var c := cs[i];
        if !Dio.ValidChannel(c) {
          return Some(InvalidChannel);
        }
        assert cs[..i + 1][..i] == cs[..i];
        dir := Or(dir, Shl(1, c));
        i := i + 1;
      }
      assert cs[..i] == cs;
      direction := dir;
      return None;
    }

    /// `read`: one level per channel, in call order; a channel out of range
    /// fails the call.
    method Read(cs: seq<int>) returns (r: Result<seq<int>>)
      ensures r.Ok? <==> Dio.AllValid(cs)
      ensures r.Err? ==> r.error == InvalidChannel
      ensures r.Ok? ==> (|r.value| == |cs| &&
        forall i :: 0 <= i < |cs| ==> cs[i] >= 0 && r.value[i] == Dio.Level(input, cs[i]))
    {
      var value := input;
      var levels: seq<int> := [];
      var i := 0;
      while i < |cs|
        invariant 0 <= i <= |cs| && |levels| == i && Dio.AllValid(cs[..i])
        invariant forall k :: 0 <= k < i ==> cs[k] >= 0 && levels[k] == Dio.Level(input, cs[k])
      {
        var c := cs[i];
        if !Dio.ValidChannel(c) {
          return Err(InvalidChannel);
        }
        assert cs[..i + 1][..i] == cs[..i];
        var masked := And(value, Shl(1, c));
        AndPow(value, c);
        levels := levels + [if 0 < masked then 1 else 0];
        i := i + 1;
      }
      assert cs[..i] == cs;
      return Ok(levels);
    }

    /// `write`: `to_write` makes the channels outputs (or fails before any
    /// write), then OUT gets their bits when the level is high and 0
    /// otherwise.  The channels were all checked by `to_write`, so the
    /// second loop's checks cannot fail.
    method Write(value: bool, cs: seq<int>) returns (err: Option<Error>)
      modifies this
      ensures err.None? <==> Dio.AllValid(cs)
      ensures err.Some? ==> err.value == InvalidChannel && direction == old(direction) && output == old(output)
      ensures err.None? ==> direction == Dio.Mask(cs) && output == (if value then Dio.Mask(cs) else 0)
    {
      err := ToWrite(cs);
      if err.Some? {
        return;
      }
      var level := if value then 1 else 0;
      var writeValues := 0;
      var i := 0;
      while i < |cs|
        invariant 0 <= i <= |cs|
        invariant writeValues == (if value then Dio.Mask(cs[..i]) else 0)
      {
        var c := cs[i];
        assert cs[..i + 1][..i] == cs[..i];
        assert Dio.ValidChannel(c);
        writeValues := Or(writeValues, Shl(level, c));
        i := i + 1;
      }
      assert cs[..i] == cs;
      output := writeValues;
    }
  }

  /// The direction word written for DIO0 alone.
  lemma MaskOfFirstLine()
    ensures Dio.Mask([0]) == 1
  {
    assert [0][..0] == [];
    assert Dio.Mask([0]) == Or(0, Shl(1, 0));
    OrComm(0, Shl(1, 0));
    OrZero(Shl(1, 0));
  }

  // ---------------------------------------------------------------------
  // SPI

  /// A reached divisor gives a positive top when the quotient is above one.
  lemma TopPositive(n: int, den: int)
    requires 0 < den < n
    ensures FloorDiv(n, den) >= 1 && RoundHalfAway(n, den) >= 1
  {
    var q := FloorDiv(n, den);
    PositiveFactor(den, q + 1, n);
    var r := RoundHalfAway(n, den);
    PositiveFactor(den, 2 * r + 1, n);
  }

  /// A product above a positive a's bound has a positive second factor.
  lemma PositiveFactor(a: int, b: int, n: int)
    requires 0 < a < n && a * b > n
    ensures b >= 2
  {
    CancelLt(1, b, a);
  }

  /// With the SPI limits in phase-correct mode the older search never
  /// divides by zero: the first request is below 10 MHz / divisor, and every
  /// later one is a counter value clamped to [1, 65535].
  lemma {:induction false} LegacySpiSearchDefined(s: LegacySearch, i: nat, request: Request, best: Settings)
    requires s.divisors == SpiDivisors && s.phaseCorrect && s.limits == SpiLimits
    requires i <= 4 && best.top >= 0
    requires i < 4 ==> 0 < 2 * SpiDivisors[i] * request.value < 20000000
    ensures LegacySearchFrom(s, i, request, 1, best).Ok?
    ensures LegacySearchFrom(s, i, request, 1, best).value.top >= 0
    decreases 4 - i
  {
    if i < 4 {
      var d := SpiDivisors[i];
      assert 1 <= d <= 8;
      TopPositive(20000000, 2 * d * request.value);
      var t := LegacyTrial(s, d, request);
      assert t.Ok?;
      var next := Overwrite(t.value.top, 1, 65535);
      var coerced := !Eq(t.value.frequency, FromInt(next.value));
      var picked := LegacyPick(next.value, best, t.value, d, coerced);
      if !(t.value.top < 1 || !coerced) && i + 1 < 4 {
        var d' := SpiDivisors[i + 1];
        assert 1 <= d' <= 8 && 1 <= next.value <= 65535;
        assert 2 * d' * next.value <= 16 * next.value;
      }
      if !(t.value.top < 1 || !coerced) {
        LegacySpiSearchDefined(s, i + 1, next, picked);
      }
    }
  }

  /// SPI with the older quantizer: ValueError exactly at the two ends of the
  /// asserted range, and otherwise a listed divisor and a non-negative top.
  lemma LegacySpiSettings(f: int)
    requires 40 <= f <= 4000000
    ensures LegacyClockSettings(f, SpiDivisors, true, SpiLimits).Ok? <==> 40 < f < 4000000
    ensures LegacyClockSettings(f, SpiDivisors, true, SpiLimits).Err?
        ==> LegacyClockSettings(f, SpiDivisors, true, SpiLimits).error == OutOfRange
    ensures LegacyClockSettings(f, SpiDivisors, true, SpiLimits).Ok?
        ==> LegacyClockSettings(f, SpiDivisors, true, SpiLimits).value.top >= 0 &&
            LegacyClockSettings(f, SpiDivisors, true, SpiLimits).value.divisor in SpiDivisors
  {
    LegacyRangeGuard(f, SpiDivisors, true, SpiLimits);
    LegacyDivisorIsListed(f, SpiDivisors, true, SpiLimits);
    if 40 < f < 4000000 {
      assert Requested(f, SpiLimits) == Ok(f);
      LegacySpiSearchDefined(LegacySearch(SpiDivisors, f, true, SpiLimits), 0, Request(f, false), Unset);
    }
  }

  /// The registers the older `SPI.__init__` writes.
  class LegacySpiSession {
    /// DIO.<bank>_19:0.DIR
    var direction: nat
    /// SPI.<bank>.CNFG
    var config: nat
    /// SPI.<bank>.CNT
    var counter: nat
    /// SYS.SELECT<bank>
    var select: nat

    constructor(direction0: nat, config0: nat, counter0: nat, select0: nat)
      ensures direction == direction0 && config == config0 && counter == counter0 && select == select0
    {
      direction := direction0;
      config := config0;
      counter := counter0;
      select := select0;
    }

    /// `__init__` followed by `configure`.  The frequency and frame length
    /// are checked first; a DIO session on the bank then makes DIO0 the
    /// only output; the quantizer's ValueError comes after that write, and
    /// without it CNFG, CNT and SYS.SELECT are written.
    method Open(frequency: int, phase: ClockPhase, polarity: ClockPolarity, dataDirection: DataDirection,
                frameLength: int)
      returns (err: Option<Error>)
      modifies this
      ensures err.None? <==> 40 < frequency < 4000000 && 4 <= frameLength <= 16
      ensures !(40 <= frequency <= 4000000 && 4 <= frameLength <= 16) ==>
        err == Some(InvalidParameter) && direction == old(direction)
      ensures 40 <= frequency <= 4000000 && 4 <= frameLength <= 16 ==> direction == 1
      ensures 4 <= frameLength <= 16 && (frequency == 40 || frequency == 4000000) ==> err == Some(OutOfRange)
      ensures err.Some? ==> config == old(config) && counter == old(counter) && select == old(select)
      ensures err.None? ==> (LegacyClockSettings(frequency, SpiDivisors, true, SpiLimits).Ok? &&
        (var s := LegacyClockSettings(frequency, SpiDivisors, true, SpiLimits).value;
         Encodes(config, phase, polarity, dataDirection, frameLength, s.divisor) &&
         counter == s.top % 65536) &&
        select == LegacySpiSelect(old(select)))
    {
      if !(40 <= frequency <= 4000000) || !(4 <= frameLength <= 16) {
        return Some(InvalidParameter);
      }
      direction := 0;
      var dir := Or(0, Shl(1, 0));
      MaskOfFirstLine();
      assert [0][..0] == [];
      direction := dir;
      var settings := CalculateLegacyClockSettings(frequency, SpiDivisors, true, SpiLimits);
      LegacySpiSettings(frequency);
      if settings.Err? {
        return Some(settings.error);
      }
      Configure(phase, polarity, dataDirection, frameLength, settings.value);
      var value := select;
      select := Or(value, SpiSelectBits);
      return None;
    }

    /// The register writes of `configure` once the clock is settled: the
    /// mode bits and frame length, then the divisor's position in the list
    /// in bits 14 and 15 of CNFG, and the counter top in CNT, both masked
    /// to 16 bits.
    method Configure(phase: ClockPhase, polarity: ClockPolarity, dataDirection: DataDirection,
                     frameLength: int, s: Settings)
      requires 4 <= frameLength <= 16
      requires s.divisor in SpiDivisors && s.top >= 0
      modifies this
      ensures Encodes(config, phase, polarity, dataDirection, frameLength, s.divisor)
      ensures counter == s.top % 65536
      ensures direction == old(direction) && select == old(select)
    {
      var word := 0;
      if phase != Leading {
        word := Or(0, Shl(1, 1));
      }
      if polarity != Low {
        word := Or(word, Shl(1, 2));
      }
      if dataDirection != Msb {
        word := Or(word, Shl(1, 3));
      }
      word := Or(word, Shl(frameLength - 1, 4));
      assert word == FrameWord(phase, polarity, dataDirection, frameLength);
      var index := DivisorIndex(SpiDivisors, s.divisor);
      SpiWordDecodes(phase, polarity, dataDirection, frameLength, index);
      CounterMask(s.top);
      config := And(Or(word, Shl(index, 14)), 0xFFFF);
      counter := And(s.top, 0xFFFF);
    }
  }
}
