/// `Encoder`: a session on one of a bank's ten quadrature encoder inputs.
/// Opening sets the counting mode and routes the encoder's two DIO lines to
/// it; reading turns the 32-bit counter into a signed count, optionally
/// pulses the counter reset, and then reports the error flags of the status
/// register.
module Encoder {
  import opened Common
  import opened Bits
  import opened SysSelect

  datatype EncoderMode = Quadrature | StepAndDirection

  /// ENC0 .. ENC9.
  predicate ValidChannel(c: int)
  {
    0 <= c <= 9
  }

  /// The CNFG value each mode starts from: 0b1, or 0b101 for step and
  /// direction.
  function ModeWord(mode: EncoderMode): nat
  {
    if mode == Quadrature then 1 else 5
  }

  /// The count `read` returns: the low 32 bits of the counter register,
  /// ORed with the negated sign bit, Python integers being two's
  /// complement.
  function DecodeCounter(raw: int): int
  {
    SignExtend(AndMask(raw, 0xFFFF_FFFF))
  }

  /// `low | -(low & 0x80000000)`.
  function SignExtend(low: nat): int
  {
    var sign := And(low, 0x8000_0000);
    if sign == 0 then Or(low, 0) as int else OrNegative(low, -(sign as int))
  }

  lemma Pow32()
    ensures Pow2(32) == 0x1_0000_0000 && Pow2(31) == 0x8000_0000
  {
    assert Pow2(8) == 0x100;
    Pow2Add(8, 8);
    Pow2Add(16, 16);
    assert Pow2(32) == 2 * Pow2(31);
  }

  /// A 32-bit word with its sign bit set stands for itself less 2^32.
  lemma SignExtendValue(low: nat)
    requires low < 0x1_0000_0000
    ensures SignExtend(low) == if low < 0x8000_0000 then low else low - 0x1_0000_0000
  {
    var h := 0x8000_0000;
    Pow32();
    AndPow(low, 31);
    TopBit(low, 31);
    if low < h {
      OrZero(low);
    } else {
      AndNotPlusAnd(h - 1, low);
      AndComm(h - 1, low);
      AndLowBits(low, 31);
      ModUnique(low, h, 1, low - h);
    }
  }

  /// `x - raw` is a multiple of 2^32 when `x` is `raw mod 2^32`, or that
  /// less 2^32.
  lemma Congruent(raw: int, x: int, k: int)
    requires k == 0 || k == 1
    requires x == raw % 0x1_0000_0000 - k * 0x1_0000_0000
    ensures (x - raw) % 0x1_0000_0000 == 0
  {
    var p := 0x1_0000_0000;
    DivMod(raw, p);
    var q := raw / p;
    assert x - raw == p * (-q - k);
    ModUnique(x - raw, p, -q - k, 0);
  }

  /// The count is the counter's low 32 bits read as a two's-complement
  /// number: it lies in [-2^31, 2^31) and differs from the register by a
  /// multiple of 2^32.
  lemma CounterTwosComplement(raw: int)
    ensures -0x8000_0000 <= DecodeCounter(raw) < 0x8000_0000
    ensures (DecodeCounter(raw) - raw) % 0x1_0000_0000 == 0
  {
    Pow32();
    AndMaskLowBits(raw, 32);
    var low := raw % 0x1_0000_0000;
    SignExtendValue(low);
    Congruent(raw, DecodeCounter(raw), if low < 0x8000_0000 then 0 else 1);
  }

  /// Conversely, the count is the only number in [-2^31, 2^31) that differs
  /// from the register by a multiple of 2^32.
  lemma CounterUnique(raw: int, v: int)
    requires -0x8000_0000 <= v < 0x8000_0000 && (v - raw) % 0x1_0000_0000 == 0
    ensures v == DecodeCounter(raw)
  {
    CounterTwosComplement(raw);
    SameResidueInWindow(v, DecodeCounter(raw), raw, 0x1_0000_0000);
  }

  /// Two numbers less than `p` apart that leave the same residue are equal.
  lemma SameResidueInWindow(v: int, d: int, raw: int, p: int)
    requires p > 0 && (v - raw) % p == 0 && (d - raw) % p == 0 && -p < v - d < p
    ensures v == d
  {
    var q := DiffMultiple(v - raw, d - raw, p);
    ZeroInWindow(v - d, p, q);
  }

  /// The difference of two multiples of `p` is one.
  lemma DiffMultiple(x: int, y: int, p: int) returns (q: int)
    requires p > 0 && x % p == 0 && y % p == 0
    ensures x - y == p * q
  {
    DivMod(x, p);
    DivMod(y, p);
    q := x / p - y / p;
    assert p * (x / p) - p * (y / p) == p * q;
  }

  /// A multiple of `p` strictly between `-p` and `p` is zero.
  lemma ZeroInWindow(x: int, p: int, q: int)
    requires p > 0 && x == p * q && -p < x < p
    ensures x == 0
  {
    if q >= 1 {
      MulAtLeast(p, q);
      assert false;
    } else if q <= -1 {
      MulAtMost(p, q);
      assert false;
    }
  }

  /// `cnfg_to_write`: the flags `signed_overflow | signed_overflow_error`
  /// shifted left by four, ORed with `error` shifted left by three.  The
  /// flags are shifted as the masked status values, not as booleans.
  function ClearRequest(stat: nat): nat
  {
    var error := And(stat, 0x02);
    var signedOverflow := And(stat, 0x08);
    var signedOverflowError := And(stat, 0x20);
    Or(Or(0, Shl(Or(signedOverflow, signedOverflowError), 4)), Shl(error, 3))
  }

  /// So the invalid-transition flag (status bit 1) lands in bit 4 and the
  /// two overflow flags (status bits 3 and 5) in bits 7 and 9.
  lemma ClearRequestBit(stat: nat, j: nat)
    ensures Bit(ClearRequest(stat), j)
        <==> (j == 4 && Bit(stat, 1)) || (j == 7 && Bit(stat, 3)) || (j == 9 && Bit(stat, 5))
  {
    assert Pow2(1) == 2 && Pow2(3) == 8 && Pow2(5) == 32;
    var error := And(stat, 0x02);
    var so := And(stat, 0x08);
    var soe := And(stat, 0x20);
    var high := Shl(Or(so, soe), 4);
    OrBit(Or(0, high), Shl(error, 3), j);
    OrBit(0, high, j);
    ZeroBits(j);
    ShlBit(Or(so, soe), 4, j);
    ShlBit(error, 3, j);
    if j >= 4 {
      OrBit(so, soe, j - 4);
      AndBit(stat, 8, j - 4);
      AndBit(stat, 32, j - 4);
      PowBit(3, j - 4);
      PowBit(5, j - 4);
    }
    if j >= 3 {
      AndBit(stat, 2, j - 3);
      PowBit(1, j - 3);
    }
  }

  /// `reset_number`: bit 1 (the counter reset) and the clear request.
  function ResetWord(stat: nat): nat
  {
    Or(Shl(1, 1), ClearRequest(stat))
  }

  lemma ResetWordBit(stat: nat, j: nat)
    ensures Bit(ResetWord(stat), j) <==> j == 1 || Bit(ClearRequest(stat), j)
  {
    OrBit(Shl(1, 1), ClearRequest(stat), j);
    PowBit(1, j);
  }

  /// The reset pulse: the first CNFG write raises the reset bit and the
  /// clear request on top of CNFG, the second drops exactly those bits
  /// again; every other bit keeps its value through both writes.
  lemma ResetPulse(cnfg: nat, stat: nat, j: nat)
    ensures Bit(Or(ResetWord(stat), cnfg), 1) && !Bit(AndNot(cnfg, ResetWord(stat)), 1)
    ensures !Bit(ResetWord(stat), j) ==>
      (Bit(Or(ResetWord(stat), cnfg), j) <==> Bit(cnfg, j)) && (Bit(AndNot(cnfg, ResetWord(stat)), j) <==> Bit(cnfg, j))
    ensures Bit(ResetWord(stat), j) ==> Bit(Or(ResetWord(stat), cnfg), j) && !Bit(AndNot(cnfg, ResetWord(stat)), j)
  {
    var r := ResetWord(stat);
    ResetWordBit(stat, 1);
    OrBit(r, cnfg, 1);
    AndNotBit(cnfg, r, 1);
    OrBit(r, cnfg, j);
    AndNotBit(cnfg, r, j);
  }

  /// The three status flags `read` tests.
  lemma StatusFlags(stat: nat)
    ensures And(stat, 0x01) == stat % 2
    ensures And(stat, 0x02) != 0 <==> Bit(stat, 1)
    ensures And(stat, 0x20) != 0 <==> Bit(stat, 5)
  {
    assert Pow2(0) == 1 && Pow2(1) == 2 && Pow2(5) == 32;
    AndPow(stat, 0);
    AndPow(stat, 1);
    AndPow(stat, 5);
  }

  /// What `read` returns: the count and `stat & 0x01`.
  datatype Reading = Reading(count: int, directionDecrease: nat)

  /// The registers of one encoder channel and the bank's SYS.SELECT.
  class EncoderSession {
    /// ENC.<bank>_<channel>.CNFG
    var cnfg: nat
    /// Every value written to CNFG, oldest first.
    var cnfgWrites: seq<nat>
    /// SYS.SELECT<bank>
    var select: nat
    /// ENC.<bank>_<channel>.CNTR, driven by the hardware.
    const counter: int
    /// ENC.<bank>_<channel>.STAT, driven by the hardware.
    const status: nat

    constructor(cnfg0: nat, select0: nat, counter0: int, status0: nat)
      ensures cnfg == cnfg0 && select == select0 && counter == counter0 && status == status0
      ensures cnfgWrites == []
    {
      cnfg := cnfg0;
      select := select0;
      counter := counter0;
      status := status0;
      cnfgWrites := [];
    }

    /// `__init__`: the channel is checked first; then CNFG gets the mode
    /// word and lines 2c and 2c+1 are routed to the encoder.
    method Open(channel: int, mode: EncoderMode) returns (err: Option<Error>)
      modifies this
      ensures err.None? <==> ValidChannel(channel)
      ensures err.Some? ==>
        err.value == InvalidChannel && cnfg == old(cnfg) && cnfgWrites == old(cnfgWrites) && select == old(select)
      ensures err.None? ==>
        cnfg == ModeWord(mode) && cnfgWrites == old(cnfgWrites) + [ModeWord(mode)] &&
        select == EncoderSelect(old(select), channel)
    {
      if !ValidChannel(channel) {
        return Some(InvalidChannel);
      }
      var word := if mode == Quadrature then 1 else 5;
      cnfg := word;
      cnfgWrites := cnfgWrites + [word];
      var value := ClearSysSelect(select, 2 * channel, 2);
      value := SetSysSelect(value, 2 * channel, 2, "10");
      select := value;
      return None;
    }

    /// `read`: the count and direction are taken first, the reset pulse (if
    /// asked for) is written next, and only then is an error raised: for an
    /// invalid transition (status bit 1) before a signed overflow error
    /// (status bit 5).
    method Read(resetCounter: bool) returns (r: Result<Reading>)
      modifies this
      ensures r.Ok? <==> !Bit(status, 1) && !Bit(status, 5)
      ensures r.Err? ==> r.error == (if Bit(status, 1) then CounterError else CounterOverflow)
      ensures r.Ok? ==> r.value == Reading(DecodeCounter(counter), status % 2)
      ensures resetCounter ==>
        cnfgWrites == old(cnfgWrites) + [Or(ResetWord(status), old(cnfg)), AndNot(old(cnfg), ResetWord(status))] &&
        cnfg == AndNot(old(cnfg), ResetWord(status))
      ensures !resetCounter ==> cnfg == old(cnfg) && cnfgWrites == old(cnfgWrites)
      ensures select == old(select)
    {
      var count := DecodeCounter(counter);
      var stat := status;
      var directionDecrease := And(stat, 0x01);
      var error := And(stat, 0x02);
      var signedOverflowError := And(stat, 0x20);
      StatusFlags(stat);
      var resetNumber := ClearRequest(stat);
      if resetCounter {
        resetNumber := Or(Shl(1, 1), resetNumber);
        var current := cnfg;
        var first := Or(resetNumber, current);
        cnfg := first;
        cnfgWrites := cnfgWrites + [first];
        var second := AndNot(current, resetNumber);
        cnfg := second;
        cnfgWrites := cnfgWrites + [second];
      }
      if signedOverflowError != 0 || error != 0 {
        if error != 0 {
          return Err(CounterError);
        } else {
          return Err(CounterOverflow);
        }
      }
      return Ok(Reading(count, directionDecrease));
    }
  }
}
