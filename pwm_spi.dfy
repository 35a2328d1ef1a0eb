/// The two callers of `calculate_clock_settings`: `PWM.generate`, which
/// programs a PWM channel's compare, period, configuration and clock-select
/// registers, and `SPI.configure`, which programs the SPI configuration word
/// and counter.
module PwmSpi {
  import opened Common
  import opened Rationals
  import opened Bits
  import opened Clock

  const PwmDivisors: seq<int> := [1, 2, 4, 8, 16, 32, 64]

  const SpiDivisors: seq<int> := [1, 2, 4, 8]

  /// The loop both callers use to turn the chosen divisor back into its
  /// position in the list.
  method DivisorIndex(divisors: seq<int>, d: int) returns (index: nat)
    ensures index <= |divisors|
    ensures forall j :: 0 <= j < index ==> divisors[j] != d
    ensures index < |divisors| <==> d in divisors
    ensures index < |divisors| ==> divisors[index] == d
  {
    index := 0;
    while index < |divisors|
      invariant index <= |divisors|
      invariant forall j :: 0 <= j < index ==> divisors[j] != d
    {
      if divisors[index] == d {
        return;
      }
      index := index + 1;
    }
  }

  // ---------------------------------------------------------------------
  // PWM.generate

  /// Python `int(x)`: truncation toward zero.
  function Truncate(x: Rat): int
  {
    if x.num >= 0 then x.num / x.den else -((-x.num) / x.den)
  }

  /// The duty cycle times the period, exactly.
  function Scale(x: Rat, n: int): Rat
  {
    Rat(x.num * n, x.den)
  }

  predicate IsDutyCycle(duty: Rat)
  {
    Le(FromInt(0), duty) && Le(duty, FromInt(1))
  }

  /// The values `PWM.generate` writes to CMP, MAX, CNFG and CS.
  datatype PwmRegisters = PwmRegisters(compare: int, period: int, config: int, clockSelect: int)

  /// With the defaults, the quantizer accepts only 40 < f < 40000, and then
  /// never divides by zero; the chosen top is never negative.
  lemma PwmSettings(f: int)
    requires 40 <= f <= 400000
    ensures ClockSettings(f, PwmDivisors, false, DefaultLimits, false).Ok? <==> 40 < f < 40000
    ensures ClockSettings(f, PwmDivisors, false, DefaultLimits, false).Err?
        ==> ClockSettings(f, PwmDivisors, false, DefaultLimits, false).error == OutOfRange
    ensures ClockSettings(f, PwmDivisors, false, DefaultLimits, false).Ok?
        ==> ClockSettings(f, PwmDivisors, false, DefaultLimits, false).value.top >= 0 &&
            ClockSettings(f, PwmDivisors, false, DefaultLimits, false).value.divisor in PwmDivisors
  {
    RangeGuard(f, PwmDivisors, false, DefaultLimits, false);
    DivisorIsListed(f, PwmDivisors, false, DefaultLimits, false);
    if 40 < f < 40000 {
      var s := Search(PwmDivisors, f, false, DefaultLimits, false);
      assert forall j :: 0 <= j < |PwmDivisors| ==> Fits(s, PwmDivisors[j]);
      SearchDefined(s, 0, DefaultLimits.minCounter, Unset);
    }
  }

  /// The compare value lies between 0 and the period.
  lemma CompareWithinPeriod(duty: Rat, top: int)
    requires IsDutyCycle(duty) && top >= 0
    ensures 0 <= Truncate(Scale(duty, top)) <= top
  {
    assert 0 <= duty.num <= duty.den;
    var n := duty.num * top;
    var q := n / duty.den;
    assert q * duty.den <= n;
    if top > 0 {
      MulLe(duty.num, duty.den, top);
      assert q * duty.den <= top * duty.den;
      CancelLe(q, top, duty.den);
    }
  }

  /// `PWM.generate`.  Its own asserts admit 40 to 400000 Hz, but it keeps the
  /// quantizer's defaults, which raise ValueError at 40 Hz and from 40000 Hz
  /// up.  CS is the chosen divisor's position plus one.
  method Generate(frequency: int, duty: Rat) returns (r: Result<PwmRegisters>)
    ensures r.Ok? <==> 40 < frequency < 40000 && IsDutyCycle(duty)
    ensures !(40 <= frequency <= 400000 && IsDutyCycle(duty)) ==> r == Err(InvalidParameter)
    ensures 40 <= frequency <= 400000 && IsDutyCycle(duty) && !(40 < frequency < 40000) ==> r == Err(OutOfRange)
    ensures r.Ok? ==> (ClockSettings(frequency, PwmDivisors, false, DefaultLimits, false).Ok? &&
      var s := ClockSettings(frequency, PwmDivisors, false, DefaultLimits, false).value;
      1 <= r.value.clockSelect <= |PwmDivisors| && PwmDivisors[r.value.clockSelect - 1] == s.divisor &&
      r.value.period == s.top && r.value.config == 4 &&
      r.value.compare == Truncate(Scale(duty, s.top)) && 0 <= r.value.compare <= r.value.period)
  {
    if !(40 <= frequency <= 400000) || !IsDutyCycle(duty) {
      return Err(InvalidParameter);
    }
    var settings := CalculateClockSettings(frequency, PwmDivisors, false, DefaultLimits);
    PwmSettings(frequency);
    if settings.Err? {
      return Err(settings.error);
    }
    var index := DivisorIndex(PwmDivisors, settings.value.divisor);
    var top := settings.value.top;
    CompareWithinPeriod(duty, top);
    return Ok(PwmRegisters(Truncate(Scale(duty, top)), top, 4, index + 1));
  }

  // ---------------------------------------------------------------------
  // SPI.configure

  datatype ClockPhase = Leading | Trailing

  datatype ClockPolarity = Low | High

  datatype DataDirection = Msb | Lsb

  /// The values `SPI.configure` writes to CNFG and CNT.
  datatype SpiRegisters = SpiRegisters(config: nat, counter: nat)

  /// `1 << k` when the flag is set.
  function FlagBit(on: bool, k: nat): nat
  {
    if on then Shl(1, k) else 0
  }

  /// The configuration word before the divisor index: phase, polarity and
  /// direction in bits 1 to 3, frame length minus one in bits 4 to 7.
  function FrameWord(phase: ClockPhase, polarity: ClockPolarity, direction: DataDirection, frameLength: int): nat
    requires 4 <= frameLength <= 16
  {
    Or(Flags(phase != Leading, polarity != Low, direction != Msb), Shl(frameLength - 1, 4))
  }

  /// `c |= 1 << k` when the flag is set.
  function SetFlag(c: nat, on: bool, k: nat): nat
  {
    if on then Or(c, Shl(1, k)) else c
  }

  /// The ORs add up: the fields never overlap.
  lemma FrameWordValue(phase: ClockPhase, polarity: ClockPolarity, direction: DataDirection, frameLength: int)
    requires 4 <= frameLength <= 16
    ensures FrameWord(phase, polarity, direction, frameLength)
         == FlagBit(phase != Leading, 1) + FlagBit(polarity != Low, 2) + FlagBit(direction != Msb, 3)
            + 16 * (frameLength - 1)
  {
    var c3 := Flags(phase != Leading, polarity != Low, direction != Msb);
    FlagsValue(phase != Leading, polarity != Low, direction != Msb);
    assert Pow2(4) == 16;
    OrShiftedAdd(c3, frameLength - 1, 4);
  }

  /// Bits 1 to 3 of the word.
  function Flags(b1: bool, b2: bool, b3: bool): nat
  {
    SetFlag(SetFlag(SetFlag(0, b1, 1), b2, 2), b3, 3)
  }

  lemma FlagsValue(b1: bool, b2: bool, b3: bool)
    ensures Flags(b1, b2, b3) == FlagBit(b1, 1) + FlagBit(b2, 2) + FlagBit(b3, 3) < 16
  {
    var w1 := FlagBit(b1, 1);
    var w2 := FlagBit(b2, 2);
    assert Pow2(1) == 2 && Pow2(2) == 4 && Pow2(3) == 8;
    OrFlag(0, b1, 1);
    OrFlag(w1, b2, 2);
    OrFlag(w1 + w2, b3, 3);
  }

  /// Setting flag bit k of a word below 2^k adds it.
  lemma OrFlag(c: nat, on: bool, k: nat)
    requires c < Pow2(k)
    ensures SetFlag(c, on, k) == c + FlagBit(on, k)
  {
    if on {
      OrShiftedAdd(c, 1, k);
    }
  }

  /// The full word `(frame | index << 14) & 0xFFFF` for a divisor index
  /// below 4: the fields add up and the mask removes nothing.
  lemma SpiWordValue(phase: ClockPhase, polarity: ClockPolarity, direction: DataDirection, frameLength: int, index: nat)
    requires 4 <= frameLength <= 16 && index < 4
    ensures And(Or(FrameWord(phase, polarity, direction, frameLength), Shl(index, 14)), 0xFFFF)
         == FlagBit(phase != Leading, 1) + FlagBit(polarity != Low, 2) + FlagBit(direction != Msb, 3)
            + 16 * (frameLength - 1) + 16384 * index
  {
    var f := FrameWord(phase, polarity, direction, frameLength);
    FrameWordValue(phase, polarity, direction, frameLength);
    assert Pow2(1) == 2 && Pow2(2) == 4 && Pow2(3) == 8;
    assert f < 256;
    WordBelowSixteenBits(f, index);
  }

  /// `(f | index << 14) & 0xFFFF` for a byte f and an index below 4.
  lemma WordBelowSixteenBits(f: nat, index: nat)
    requires f < 256 && index < 4
    ensures And(Or(f, Shl(index, 14)), 0xFFFF) == f + 16384 * index
  {
    Pow2Fourteen();
    OrShiftedAdd(f, index, 14);
    var o := Or(f, Shl(index, 14));
    assert o == f + 16384 * index;
    LowSixteenBits(o);
  }

  lemma Pow2Fourteen()
    ensures Pow2(14) == 16384 && Pow2(16) == 65536
  {
    assert Pow2(7) == 128 && Pow2(8) == 256;
    Pow2Add(7, 7);
    Pow2Add(8, 8);
  }

  /// A word below 2^16 is unchanged by `& 0xFFFF`.
  lemma LowSixteenBits(o: nat)
    requires o < 65536
    ensures And(o, 0xFFFF) == o
  {
    Pow2Fourteen();
    AndLowBits(o, 16);
    ModUnique(o, 65536, 0, o);
  }

  /// Reading the fields back out of such a word.
  lemma DecodeFields(w: nat, b1: nat, b2: nat, b3: nat, g: nat, index: nat)
    requires b1 < 2 && b2 < 2 && b3 < 2 && g < 16 && index < 4
    requires w == 2 * b1 + 4 * b2 + 8 * b3 + 16 * g + 16384 * index
    ensures w < 65536 && w % 2 == 0 && (w / 2) % 2 == b1 && (w / 4) % 2 == b2 && (w / 8) % 2 == b3
    ensures (w / 16) % 16 == g && w / 16384 == index
  {
    var h := g + 1024 * index;
    ModUnique(w, 2, b1 + 2 * b2 + 4 * b3 + 8 * h, 0);
    ModUnique(w / 2, 2, b2 + 2 * b3 + 4 * h, b1);
    ModUnique(w, 4, b2 + 2 * b3 + 4 * h, 2 * b1);
    ModUnique(w / 4, 2, b3 + 2 * h, b2);
    ModUnique(w, 8, b3 + 2 * h, 2 * b1 + 4 * b2);
    ModUnique(w / 8, 2, h, b3);
    ModUnique(w, 16, h, 2 * b1 + 4 * b2 + 8 * b3);
    ModUnique(w / 16, 16, 64 * index, g);
    ModUnique(w, 16384, index, 2 * b1 + 4 * b2 + 8 * b3 + 16 * g);
  }

  /// `w` is an SPI configuration word for these settings: bit 0 clear,
  /// phase, polarity and direction in bits 1 to 3, frame length minus one in
  /// bits 4 to 7 and, in bits 14 and 15, the index of `divisor` in the
  /// divisor table.
  predicate Encodes(w: nat, phase: ClockPhase, polarity: ClockPolarity, direction: DataDirection,
                    frameLength: int, divisor: int)
  {
    w < 65536 &&
    w % 2 == 0 &&
    (w / 2) % 2 == (if phase == Trailing then 1 else 0) &&
    (w / 4) % 2 == (if polarity == High then 1 else 0) &&
    (w / 8) % 2 == (if direction == Lsb then 1 else 0) &&
    (w / 16) % 16 == frameLength - 1 &&
    w / 16384 < 4 && SpiDivisors[w / 16384] == divisor
  }

  /// The SPI configuration word decodes back to the settings.
  lemma SpiWordDecodes(phase: ClockPhase, polarity: ClockPolarity, direction: DataDirection, frameLength: int, index: nat)
    requires 4 <= frameLength <= 16 && index < 4
    ensures Encodes(And(Or(FrameWord(phase, polarity, direction, frameLength), Shl(index, 14)), 0xFFFF),
                    phase, polarity, direction, frameLength, SpiDivisors[index])
  {
    var w := And(Or(FrameWord(phase, polarity, direction, frameLength), Shl(index, 14)), 0xFFFF);
    var b1 := if phase == Trailing then 1 else 0;
    var b2 := if polarity == High then 1 else 0;
    var b3 := if direction == Lsb then 1 else 0;
    SpiWordValue(phase, polarity, direction, frameLength, index);
    assert Pow2(1) == 2 && Pow2(2) == 4 && Pow2(3) == 8;
    assert FlagBit(phase != Leading, 1) == 2 * b1;
    assert FlagBit(polarity != Low, 2) == 4 * b2;
    assert FlagBit(direction != Msb, 3) == 8 * b3;
    assert w == 2 * b1 + 4 * b2 + 8 * b3 + 16 * (frameLength - 1) + 16384 * index;
    DecodeFields(w, b1, b2, b3, frameLength - 1, index);
  }

  /// The counter value written, `int(top) & 0xFFFF`: only the low sixteen
  /// bits of the top.
  lemma CounterMask(top: nat)
    ensures And(top, 0xFFFF) == top % 65536
  {
    assert Pow2(8) == 256;
    Pow2Add(8, 8);
    AndLowBits(top, 16);
  }

  /// SPI accepts 40 < f < 4000000 from the quantizer, and then never divides
  /// by zero; the chosen top is never negative and its divisor is listed.
  lemma SpiSettings(f: int, capped: bool)
    requires 40 <= f <= 4000000
    ensures ClockSettings(f, SpiDivisors, false, SpiLimits, capped).Ok? <==> 40 < f < 4000000
    ensures ClockSettings(f, SpiDivisors, false, SpiLimits, capped).Err?
        ==> ClockSettings(f, SpiDivisors, false, SpiLimits, capped).error == OutOfRange
    ensures ClockSettings(f, SpiDivisors, false, SpiLimits, capped).Ok?
        ==> ClockSettings(f, SpiDivisors, false, SpiLimits, capped).value.top >= 0 &&
            ClockSettings(f, SpiDivisors, false, SpiLimits, capped).value.divisor in SpiDivisors
  {
    RangeGuard(f, SpiDivisors, false, SpiLimits, capped);
    DivisorIsListed(f, SpiDivisors, false, SpiLimits, capped);
    if 40 < f < 4000000 {
      var s := Search(SpiDivisors, f, false, SpiLimits, capped);
      assert forall j :: 0 <= j < |SpiDivisors| ==> Fits(s, SpiDivisors[j]);
      SearchDefined(s, 0, SpiLimits.minCounter, Unset);
    }
  }

  /// `SPI.__init__` followed by `SPI.configure`.  With `capped` false this is
  /// the driver as written; with `capped` true it uses the corrected
  /// quantizer, which never lets the top exceed the 16-bit counter.
  method Configure(frequency: int, phase: ClockPhase, polarity: ClockPolarity, direction: DataDirection,
                   frameLength: int, capped: bool)
    returns (r: Result<SpiRegisters>)
    ensures r.Ok? <==> 40 < frequency < 4000000 && 4 <= frameLength <= 16
    ensures !(40 <= frequency <= 4000000 && 4 <= frameLength <= 16) ==> r == Err(InvalidParameter)
    ensures 4 <= frameLength <= 16 && (frequency == 40 || frequency == 4000000) ==> r == Err(OutOfRange)
    ensures r.Ok? ==> (ClockSettings(frequency, SpiDivisors, false, SpiLimits, capped).Ok? &&
      var s := ClockSettings(frequency, SpiDivisors, false, SpiLimits, capped).value;
      Encodes(r.value.config, phase, polarity, direction, frameLength, s.divisor) &&
      r.value.counter == s.top % 65536)
  {
    if !(40 <= frequency <= 4000000) || !(4 <= frameLength <= 16) {
      return Err(InvalidParameter);
    }
    var config := 0;
    if phase != Leading {
      config := Or(0, Shl(1, 1));
    }
    if polarity != Low {
      config := Or(config, Shl(1, 2));
    }
    if direction != Msb {
      config := Or(config, Shl(1, 3));
    }
    config := Or(config, Shl(frameLength - 1, 4));
    assert config == FrameWord(phase, polarity, direction, frameLength);
    var settings: Result<Settings>;
    if capped {
      settings := ClockSettings(frequency, SpiDivisors, false, SpiLimits, true);
    } else {
      settings := CalculateClockSettings(frequency, SpiDivisors, false, SpiLimits);
    }
    SpiSettings(frequency, capped);
    if settings.Err? {
      return Err(settings.error);
    }
    var index := DivisorIndex(SpiDivisors, settings.value.divisor);
    SpiWordDecodes(phase, polarity, direction, frameLength, index);
    CounterMask(settings.value.top);
    config := Or(config, Shl(index, 14));
    return Ok(SpiRegisters(And(config, 0xFFFF), And(settings.value.top, 0xFFFF)));
  }

  /// The frequency the SPI clock runs at once CNT and the divisor are
  /// programmed: `20 MHz / (divisor * (CNT + 1))`.
  function ProgrammedFrequency(divisor: int, counter: nat): Rat
    requires divisor > 0
  {
    Quotient(SpiLimits.baseClock, divisor * (1 + counter))
  }

  /// As written, nothing holds the top to `max_counter`.  At 41 Hz the first
  /// divisor is the closest, with top 487804; CNT keeps its low sixteen bits,
  /// 29052, and the clock runs near 688 Hz instead of 41 Hz.
  lemma SpiCounterWraps()
    ensures ClockSettings(41, SpiDivisors, false, SpiLimits, false) == Ok(Settings(Quotient(20000000, 487805), 487804, 1))
    ensures 487804 % 65536 == 29052
    ensures !Eq(ProgrammedFrequency(1, 29052), Quotient(20000000, 487805))
  {
    var s := Search(SpiDivisors, 41, false, SpiLimits, false);
    assert Requested(41, SpiLimits) == Ok(41);
    assert RoundHalfEven(20000000, 41) == 487805;
    assert RoundHalfEven(20000000, 82) == 243902;
    assert RoundHalfEven(20000000, 164) == 121951;
    assert RoundHalfEven(20000000, 328) == 60976;
    var t1 := Trial(487804, Quotient(20000000, 487805));
    var t2 := Trial(243901, Quotient(20000000, 487804));
    var t3 := Trial(121950, Quotient(20000000, 487804));
    var t4 := Trial(60975, Quotient(20000000, 487808));
    assert TrialFor(s, 1) == Ok(t1);
    assert TrialFor(s, 2) == Ok(t2);
    assert TrialFor(s, 4) == Ok(t3);
    assert TrialFor(s, 8) == Ok(t4);
    var best := Settings(t1.frequency, t1.top, 1);
    assert Pick(s, Unset, t1, 1) == best;
    assert Pick(s, best, t2, 2) == best;
    assert Pick(s, best, t3, 4) == best;
    assert Pick(s, best, t4, 8) == best;
    assert SearchFrom(s, 4, -3, best) == Ok(best);
    assert SearchFrom(s, 3, -2, best) == Ok(best);
    assert SearchFrom(s, 2, -1, best) == Ok(best);
    assert SearchFrom(s, 1, 0, best) == Ok(best);
    assert SearchFrom(s, 0, 1, Unset) == Ok(best);
  }

  /// The corrected quantizer: every accepted frequency gets a top that fits
  /// the 16-bit counter, so CNT is the top itself and the clock runs at the
  /// frequency the quantizer reports.
  lemma CappedCounterIsExact(f: int)
    requires 40 < f < 4000000
    ensures ClockSettings(f, SpiDivisors, false, SpiLimits, true).Ok?
    ensures var st := ClockSettings(f, SpiDivisors, false, SpiLimits, true).value;
      0 <= st.top <= 65535 && st.top % 65536 == st.top && st.divisor > 0 &&
      Eq(ProgrammedFrequency(st.divisor, st.top), st.frequency)
  {
    SpiSettings(f, true);
    ChoosesClosest(f, SpiDivisors, false, SpiLimits, true);
    var s := Search(SpiDivisors, f, false, SpiLimits, true);
    var st := ClockSettings(f, SpiDivisors, false, SpiLimits, true).value;
    var k :| 0 <= k < |SpiDivisors| && Reached(s, k) && Adopted(s, st, k);
    var d := SpiDivisors[k];
    assert st.divisor == d && d > 0;
    assert st.top == Cap(s, RoundQuotient(20000000, d * f) - 1);
    assert st.frequency == Quotient(20000000, d * (1 + st.top));
  }
}
