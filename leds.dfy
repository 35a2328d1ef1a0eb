/// `LEDs`: the four user LEDs share one register, DO.LED3:0, one bit per
/// LED. Writing one LED reads the register, clears that LED's bit, sets it
/// again when the LED is to be lit and writes the word back, so the other
/// three LEDs keep their state.
module Leds {
  import opened Common
  import opened Bits

  /// LED0 .. LED3.
  predicate ValidLed(led: int)
  {
    0 <= led <= 3
  }

  /// The word `write` puts in DO.LED3:0, given the word it read.
  function LedValue(current: nat, led: int, on: bool): nat
    requires ValidLed(led)
  {
    if led == 0 then
      var v := And(current, 0xE);
      if on then Or(v, 0x1) else v
    else if led == 1 then
      var v := And(current, 0xD);
      if on then Or(v, 0x2) else v
    else if led == 2 then
      var v := And(current, 0xB);
      if on then Or(v, 0x4) else v
    else
      var v := And(current, 0x7);
      if on then Or(v, 0x8) else v
  }

  /// The mask `write` keeps for each LED: the low four bits but the LED's own.
  lemma KeepMaskBit(mask: nat, led: int, j: nat)
    requires ValidLed(led)
    requires mask == (if led == 0 then 0xE else if led == 1 then 0xD else if led == 2 then 0xB else 0x7)
    ensures Bit(mask, j) <==> j < 4 && j != led
  {
    if j >= 4 {
      assert Pow2(4) == 16;
      SmallBits(mask, 4, j);
    } else if j == 1 {
      assert Bit(mask, 1) == Bit(mask / 2, 0);
    } else if j == 2 {
      assert Bit(mask, 2) == Bit(mask / 2, 1) == Bit(mask / 4, 0);
    } else if j == 3 {
      assert Bit(mask / 2, 2) == Bit(mask / 4, 1) == Bit(mask / 8, 0);
    }
  }

  /// The LED's own bit, `1 << led`.
  lemma LedBit(b: nat, led: int, j: nat)
    requires ValidLed(led)
    requires b == (if led == 0 then 0x1 else if led == 1 then 0x2 else if led == 2 then 0x4 else 0x8)
    ensures Bit(b, j) <==> j == led
  {
    assert b == Pow2(led);
    PowBit(led, j);
  }

  /// Bit by bit: the LED's bit becomes `on`, the other three LEDs keep
  /// their bits and everything above them is cleared.
  lemma LedValueBit(current: nat, led: int, on: bool, j: nat)
    requires ValidLed(led)
    ensures Bit(LedValue(current, led, on), j) <==> if j == led then on else j < 4 && Bit(current, j)
  {
    var mask := if led == 0 then 0xE else if led == 1 then 0xD else if led == 2 then 0xB else 0x7;
    var b := if led == 0 then 0x1 else if led == 1 then 0x2 else if led == 2 then 0x4 else 0x8;
    var v := And(current, mask);
    assert LedValue(current, led, on) == if on then Or(v, b) else v;
    AndBit(current, mask, j);
    KeepMaskBit(mask, led, j);
    OrBit(v, b, j);
    LedBit(b, led, j);
  }

  /// The written word always fits the four-bit register.
  lemma LedValueBound(current: nat, led: int, on: bool)
    requires ValidLed(led)
    ensures LedValue(current, led, on) < 16
  {
    forall j: nat | 4 <= j
      ensures !Bit(LedValue(current, led, on), j)
    {
      LedValueBit(current, led, on, j);
    }
    BitsBound(LedValue(current, led, on), 4);
    assert Pow2(4) == 16;
  }

  /// Writing the same LED to the same state twice changes nothing more.
  lemma LedValueIdempotent(current: nat, led: int, on: bool)
    requires ValidLed(led)
    ensures LedValue(LedValue(current, led, on), led, on) == LedValue(current, led, on)
  {
    var once := LedValue(current, led, on);
    forall j: nat
      ensures Bit(LedValue(once, led, on), j) <==> Bit(once, j)
    {
      LedValueBit(once, led, on, j);
      LedValueBit(current, led, on, j);
    }
    BitsEqual(LedValue(once, led, on), once);
  }

  /// Writes to two different LEDs commute: neither disturbs the other.
  lemma LedValuesCommute(current: nat, led1: int, on1: bool, led2: int, on2: bool)
    requires ValidLed(led1) && ValidLed(led2) && led1 != led2
    ensures LedValue(LedValue(current, led1, on1), led2, on2)
         == LedValue(LedValue(current, led2, on2), led1, on1)
  {
    var x := LedValue(LedValue(current, led1, on1), led2, on2);
    var y := LedValue(LedValue(current, led2, on2), led1, on1);
    forall j: nat
      ensures Bit(x, j) <==> Bit(y, j)
    {
      LedValueBit(LedValue(current, led1, on1), led2, on2, j);
      LedValueBit(current, led1, on1, j);
      LedValueBit(LedValue(current, led2, on2), led1, on1, j);
      LedValueBit(current, led2, on2, j);
    }
    BitsEqual(x, y);
  }

  /// The DO.LED3:0 register.
  class LedSession {
    var leds: nat

    constructor(leds0: nat)
      ensures leds == leds0
    {
      leds := leds0;
    }

    /// `write`: an LED outside LED0 .. LED3 is refused before the register
    /// is read; otherwise the register gets `LedValue` of its old word.
    method Write(led: int, on: bool) returns (err: Option<Error>)
      modifies this
      ensures err.None? <==> ValidLed(led)
      ensures err.Some? ==> err.value == InvalidChannel && leds == old(leds)
      ensures err.None? ==> leds == LedValue(old(leds), led, on)
    {
      if !ValidLed(led) {
        return Some(InvalidChannel);
      }
      var value := leds;
      if led == 0 {
        value := And(value, 0xE);
        if on {
          value := Or(value, 0x1);
        }
      } else if led == 1 {
        value := And(value, 0xD);
        if on {
          value := Or(value, 0x2);
        }
      } else if led == 2 {
        value := And(value, 0xB);
        if on {
          value := Or(value, 0x4);
        }
      } else {
        value := And(value, 0x7);
        if on {
          value := Or(value, 0x8);
        }
      }
      leds := value;
      return None;
    }
  }
}
