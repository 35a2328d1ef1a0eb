/// `DIIRQ` and `AIIRQ`: registering an interrupt on a digital line DIO0 ..
/// DIO3 or an analog line AI0 .. AI1 of bank A. The constructors check their
/// arguments in a fixed order and then program the interrupt registers; the
/// edge and enable masks are shared by the four digital lines and the
/// analog configuration word by the two analog lines, so each registration
/// must leave the other lines' bits alone.
module Irq {
  import opened Common
  import opened Bits
  import opened Rationals

  /// IRQ1 .. IRQ8.
  predicate ValidIrqNumber(n: int)
  {
    1 <= n <= 8
  }

  /// DIO0 .. DIO3.
  predicate ValidDigitalChannel(c: int)
  {
    0 <= c <= 3
  }

  /// AI0 and AI1.
  predicate ValidAnalogChannel(c: int)
  {
    c == 0 || c == 1
  }

  /// The largest edge count the counter register takes: 2^32 - 1.
  const MaxEdgeCount: int := 4294967295

  /// The checks of `DIIRQ.__init__`, in the order it makes them; `callable`
  /// says whether the callback is a function.
  function DigitalCheck(channel: int, callable: bool, irq: int, timeout: int,
                        rising: bool, falling: bool, edgeCount: int): (r: Option<Error>)
    ensures r.None? <==>
      ValidDigitalChannel(channel) && callable && ValidIrqNumber(irq) && timeout >= 0 &&
      (rising || falling) && 1 <= edgeCount <= MaxEdgeCount
    ensures r.Some? ==> r.value == (if ValidDigitalChannel(channel) then InvalidParameter else InvalidChannel)
  {
    if !ValidDigitalChannel(channel) then Some(InvalidChannel)
    else if !callable then Some(InvalidParameter)
    else if !ValidIrqNumber(irq) then Some(InvalidParameter)
    else if timeout < 0 then Some(InvalidParameter)
    else if rising == falling && !falling then Some(InvalidParameter)
    else if !(1 <= edgeCount <= MaxEdgeCount) then Some(InvalidParameter)
    else None
  }

  /// A shared mask with bit `channel` ORed in when `flag` holds
  /// (`value | (int(flag) << channel)`).
  function EdgeMask(v: nat, channel: nat, flag: bool): nat
  {
    Or(v, Shl(if flag then 1 else 0, channel))
  }

  /// Registering a line sets its own bit when the flag holds and touches no
  /// other line's bit; an existing bit is never cleared.
  lemma EdgeMaskBit(v: nat, channel: nat, flag: bool, j: nat)
    ensures Bit(EdgeMask(v, channel, flag), j) <==> Bit(v, j) || (j == channel && flag)
  {
    OrBit(v, Shl(if flag then 1 else 0, channel), j);
    ShlBit(if flag then 1 else 0, channel, j);
    if j >= channel {
      if flag {
        PowBit(0, j - channel);
      } else {
        ZeroBits(j - channel);
      }
    }
  }

  /// Registering two lines gives the same masks in either order.
  lemma EdgeMasksCommute(v: nat, c1: nat, f1: bool, c2: nat, f2: bool)
    ensures EdgeMask(EdgeMask(v, c1, f1), c2, f2) == EdgeMask(EdgeMask(v, c2, f2), c1, f1)
  {
    var x := EdgeMask(EdgeMask(v, c1, f1), c2, f2);
    var y := EdgeMask(EdgeMask(v, c2, f2), c1, f1);
    forall j: nat
      ensures Bit(x, j) <==> Bit(y, j)
    {
      EdgeMaskBit(EdgeMask(v, c1, f1), c2, f2, j);
      EdgeMaskBit(v, c1, f1, j);
      EdgeMaskBit(EdgeMask(v, c2, f2), c1, f1, j);
      EdgeMaskBit(v, c2, f2, j);
    }
    BitsEqual(x, y);
  }

  /// The interrupt registers of the digital lines of bank A.
  class DigitalIrqRegisters {
    /// IRQ.DIO_A_7:0.ENA
    var enable: nat
    /// IRQ.DIO_A_7:0.RISE
    var rise: nat
    /// IRQ.DIO_A_7:0.FALL
    var fall: nat
    /// IRQ.DIO_A_<c>.CNT, by line.
    var edgeCounts: map<int, int>
    /// IRQ.DIO_A_<c>.NO, by line.
    var numbers: map<int, int>

    constructor(enable0: nat, rise0: nat, fall0: nat)
      ensures enable == enable0 && rise == rise0 && fall == fall0
      ensures edgeCounts == map[] && numbers == map[]
    {
      enable := enable0;
      rise := rise0;
      fall := fall0;
      edgeCounts := map[];
      numbers := map[];
    }

    /// `DIIRQ.__init__`: nothing is written unless every check passes; then
    /// the edge count, the line's rise, fall and enable bits and the IRQ
    /// number are written.
    method Register(channel: int, callable: bool, irq: int, timeout: int,
                    rising: bool, falling: bool, edgeCount: int) returns (err: Option<Error>)
      modifies this
      ensures err == DigitalCheck(channel, callable, irq, timeout, rising, falling, edgeCount)
      ensures err.Some? ==>
        enable == old(enable) && rise == old(rise) && fall == old(fall) &&
        edgeCounts == old(edgeCounts) && numbers == old(numbers)
      ensures err.None? ==>
        rise == EdgeMask(old(rise), channel, rising) && fall == EdgeMask(old(fall), channel, falling) &&
        enable == EdgeMask(old(enable), channel, true) &&
        edgeCounts == old(edgeCounts)[channel := edgeCount] && numbers == old(numbers)[channel := irq]
    {
      if !ValidDigitalChannel(channel) {
        return Some(InvalidChannel);
      }
      if !callable || !ValidIrqNumber(irq) || timeout < 0 {
        return Some(InvalidParameter);
      }
      if rising == falling && !falling {
        return Some(InvalidParameter);
      }
      if !(1 <= edgeCount <= MaxEdgeCount) {
        return Some(InvalidParameter);
      }
      edgeCounts := edgeCounts[channel := edgeCount];
      var riseValue := rise;
      rise := Or(riseValue, Shl(if rising then 1 else 0, channel));
      var fallValue := fall;
      fall := Or(fallValue, Shl(if falling then 1 else 0, channel));
      var enableValue := enable;
      enable := Or(enableValue, Shl(1, channel));
      numbers := numbers[channel := irq];
      return None;
    }
  }

  /// The checks of `AIIRQ.__init__`, in the order it makes them. The
  /// threshold (volts) must lie in [0, 5] and the hysteresis in [0, 1].
  function AnalogCheck(channel: int, callable: bool, irq: int, timeout: int,
                       threshold: Rat, hysteresis: Rat): (r: Option<Error>)
    ensures r.None? <==>
      ValidAnalogChannel(channel) && callable && ValidIrqNumber(irq) && timeout >= 0 &&
      Le(FromInt(0), threshold) && Le(threshold, FromInt(5)) &&
      Le(FromInt(0), hysteresis) && Le(hysteresis, FromInt(1))
    ensures r.Some? ==> r.value == (if ValidAnalogChannel(channel) then InvalidParameter else InvalidChannel)
  {
    if !ValidAnalogChannel(channel) then Some(InvalidChannel)
    else if !callable then Some(InvalidParameter)
    else if !ValidIrqNumber(irq) then Some(InvalidParameter)
    else if timeout < 0 then Some(InvalidParameter)
    else if !(Le(FromInt(0), threshold) && Le(threshold, FromInt(5))) then Some(InvalidParameter)
    else if !(Le(FromInt(0), hysteresis) && Le(hysteresis, FromInt(1))) then Some(InvalidParameter)
    else None
  }

  /// The IRQ.AI_A.CNFG word after registering `channel`: AI1 keeps the low
  /// field and writes its own (enable bit 2, rising bit 3); AI0 keeps the
  /// high field and writes its own (enable bit 0, rising bit 1).
  function AnalogConfig(v: nat, channel: int, rising: bool): nat
    requires ValidAnalogChannel(channel)
  {
    if channel == 1 then
      var w := Or(And(v, 0x3), 0x4);
      if rising then Or(w, 0x8) else w
    else
      var w := Or(And(v, 0xC), 0x1);
      if rising then Or(w, 0x2) else w
  }

  /// Bit `j` of a literal below 16, read off its binary digits.
  lemma NibbleBit(x: nat, j: nat)
    requires x < 16
    ensures Bit(x, j) <==> j < 4 && (x / Pow2(j)) % 2 == 1
  {
    if j >= 4 {
      assert Pow2(4) == 16;
      SmallBits(x, 4, j);
    } else if j == 1 {
      assert Bit(x, 1) == Bit(x / 2, 0);
    } else if j == 2 {
      assert Bit(x, 2) == Bit(x / 2, 1) == Bit(x / 4, 0);
    } else if j == 3 {
      assert Bit(x / 2, 2) == Bit(x / 4, 1) == Bit(x / 8, 0);
    }
  }

  /// Each analog line owns two bits, enable at 2c and rising at 2c+1:
  /// registering sets its enable bit, sets its rising bit iff the trigger is
  /// rising, keeps the other line's two bits and clears everything above.
  lemma AnalogConfigBit(v: nat, channel: int, rising: bool, j: nat)
    requires ValidAnalogChannel(channel)
    ensures Bit(AnalogConfig(v, channel, rising), j) <==>
      if j == 2 * channel then true
      else if j == 2 * channel + 1 then rising
      else j < 4 && Bit(v, j)
  {
    var keep := if channel == 1 then 0x3 else 0xC;
    var enableBit := if channel == 1 then 0x4 else 0x1;
    var risingBit := if channel == 1 then 0x8 else 0x2;
    var w := Or(And(v, keep), enableBit);
    assert AnalogConfig(v, channel, rising) == if rising then Or(w, risingBit) else w;
    assert Pow2(0) == 1 && Pow2(1) == 2 && Pow2(2) == 4 && Pow2(3) == 8;
    OrBit(w, risingBit, j);
    OrBit(And(v, keep), enableBit, j);
    AndBit(v, keep, j);
    NibbleBit(keep, j);
    NibbleBit(enableBit, j);
    NibbleBit(risingBit, j);
  }

  /// Registering AI0 and AI1 gives the same word in either order.
  lemma AnalogConfigsCommute(v: nat, rising0: bool, rising1: bool)
    ensures AnalogConfig(AnalogConfig(v, 0, rising0), 1, rising1)
         == AnalogConfig(AnalogConfig(v, 1, rising1), 0, rising0)
  {
    var x := AnalogConfig(AnalogConfig(v, 0, rising0), 1, rising1);
    var y := AnalogConfig(AnalogConfig(v, 1, rising1), 0, rising0);
    forall j: nat
      ensures Bit(x, j) <==> Bit(y, j)
    {
      AnalogConfigBit(AnalogConfig(v, 0, rising0), 1, rising1, j);
      AnalogConfigBit(v, 0, rising0, j);
      AnalogConfigBit(AnalogConfig(v, 1, rising1), 0, rising0, j);
      AnalogConfigBit(v, 1, rising1, j);
    }
    BitsEqual(x, y);
  }

  /// The interrupt registers of the analog lines of bank A.
  class AnalogIrqRegisters {
    /// IRQ.AI_A.CNFG
    var config: nat
    /// IRQ.AI_A_<c>.NO, by line.
    var numbers: map<int, int>

    constructor(config0: nat)
      ensures config == config0 && numbers == map[]
    {
      config := config0;
      numbers := map[];
    }

    /// `AIIRQ.__init__`: nothing is written unless every check passes; then
    /// the IRQ number and the configuration word are written.
    method Register(channel: int, callable: bool, irq: int, timeout: int,
                    threshold: Rat, hysteresis: Rat, rising: bool) returns (err: Option<Error>)
      modifies this
      ensures err == AnalogCheck(channel, callable, irq, timeout, threshold, hysteresis)
      ensures err.Some? ==> config == old(config) && numbers == old(numbers)
      ensures err.None? ==>
        config == AnalogConfig(old(config), channel, rising) && numbers == old(numbers)[channel := irq]
    {
      if !ValidAnalogChannel(channel) {
        return Some(InvalidChannel);
      }
      if !callable || !ValidIrqNumber(irq) || timeout < 0 {
        return Some(InvalidParameter);
      }
      if !(Le(FromInt(0), threshold) && Le(threshold, FromInt(5))) {
        return Some(InvalidParameter);
      }
      if !(Le(FromInt(0), hysteresis) && Le(hysteresis, FromInt(1))) {
        return Some(InvalidParameter);
      }
      numbers := numbers[channel := irq];
      var value := config;
      if channel == 1 {
        value := And(value, 0x3);
        value := Or(value, 0x4);
        if rising {
          value := Or(value, 0x8);
        }
      } else {
        value := And(value, 0xC);
        value := Or(value, 0x1);
        if rising {
          value := Or(value, 0x2);
        }
      }
      config := value;
      return None;
    }
  }
}
