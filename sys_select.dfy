/// The system-select register of a connector bank: every DIO line owns a
/// two-bit field (line c at bits 2c and 2c+1) that routes the line to the
/// DIO, PWM, encoder, SPI or I2C block.  `clear_sys_select` zeroes a run of
/// fields, `set_sys_select` ORs a two-bit pattern into each field of a run.
module SysSelect {
  import opened Bits

  /// Bit `i` belongs to one of the fields `start .. start+n-1`.
  predicate InFields(i: nat, start: nat, n: nat)
  {
    2 * start <= i < 2 * (start + n)
  }

  /// The two-bit pattern `p` repeated in `n` consecutive fields.
  function Tiled(p: nat, n: nat): nat
  {
    if n == 0 then 0 else p + Shl(Tiled(p, n - 1), 2)
  }

  /// Reference definition of `clear_sys_select`: one mask covering the
  /// whole run of fields, cleared at once.
  function ClearFields(v: nat, start: nat, n: nat): nat
  {
    AndNot(v, Shl(Tiled(3, n), 2 * start))
  }

  /// Reference definition of `set_sys_select`: the pattern tiled over the
  /// run of fields, ORed in at once.
  function SetFields(v: nat, start: nat, n: nat, p: nat): nat
  {
    Or(v, Shl(Tiled(p, n), 2 * start))
  }

  /// The pattern argument is a string of two binary digits (`'00'`, `'01'`,
  /// `'10'` or `'11'`), read as a base-2 number.
  predicate IsTwoBits(s: string)
  {
    |s| == 2 && (s[0] == '0' || s[0] == '1') && (s[1] == '0' || s[1] == '1')
  }

  function TwoBits(s: string): (p: nat)
    requires IsTwoBits(s)
    ensures p < 4
    ensures Bit(p, 0) <==> s[1] == '1'
    ensures Bit(p, 1) <==> s[0] == '1'
  {
    (if s[0] == '1' then 2 else 0) + (if s[1] == '1' then 1 else 0)
  }

  /// The bits of a two-bit pattern shifted into field `c`.
  lemma FieldBit(p: nat, c: nat, j: nat)
    requires p < 4
    ensures Bit(Shl(p, 2 * c), j) <==> 2 * c <= j < 2 * c + 2 && Bit(p, j % 2)
  {
    ShlBit(p, 2 * c, j);
    if 2 * c + 2 <= j {
      SmallBits(p, 2, j - 2 * c);
    } else if 2 * c <= j {
      assert j - 2 * c == j % 2;
    }
  }

  /// The tiled pattern carries the pattern's bits in each of its fields and
  /// nothing above them.
  lemma {:induction false} TiledBit(p: nat, n: nat, j: nat)
    requires p < 4
    ensures Bit(Tiled(p, n), j) <==> j < 2 * n && Bit(p, j % 2)
  {
    if n == 0 {
      ZeroBits(j);
    } else {
      var t := Tiled(p, n - 1);
      OrShiftedAdd(p, t, 2);
      OrBit(p, Shl(t, 2), j);
      ShlBit(t, 2, j);
      if j < 2 {
        assert j % 2 == j;
      } else {
        SmallBits(p, 2, j);
        TiledBit(p, n - 1, j - 2);
        assert (j - 2) % 2 == j % 2;
      }
    }
  }

  lemma TiledShiftBit(p: nat, start: nat, n: nat, j: nat)
    requires p < 4
    ensures Bit(Shl(Tiled(p, n), 2 * start), j) <==> InFields(j, start, n) && Bit(p, j % 2)
  {
    ShlBit(Tiled(p, n), 2 * start, j);
    if 2 * start <= j {
      TiledBit(p, n, j - 2 * start);
      assert (j - 2 * start) % 2 == j % 2;
    }
  }

  /// Clearing zeroes exactly the bits of the run of fields and keeps every
  /// other bit.
  lemma ClearFieldsBit(v: nat, start: nat, n: nat, j: nat)
    ensures Bit(ClearFields(v, start, n), j) <==> Bit(v, j) && !InFields(j, start, n)
  {
    AndNotBit(v, Shl(Tiled(3, n), 2 * start), j);
    TiledShiftBit(3, start, n, j);
    assert Bit(3, j % 2) by {
      assert 3 / 2 == 1;
    }
  }

  /// Setting ORs the pattern into every field of the run and keeps every
  /// other bit.
  lemma SetFieldsBit(v: nat, start: nat, n: nat, p: nat, j: nat)
    requires p < 4
    ensures Bit(SetFields(v, start, n, p), j) <==> Bit(v, j) || (InFields(j, start, n) && Bit(p, j % 2))
  {
    OrBit(v, Shl(Tiled(p, n), 2 * start), j);
    TiledShiftBit(p, start, n, j);
  }

  /// `clear_sys_select`: the source's loop clears one field per iteration.
  method ClearSysSelect(value: nat, start: nat, n: nat) returns (r: nat)
    ensures r == ClearFields(value, start, n)
  {
    r := value;
    var i := 0;
    while i < n
      invariant i <= n
      invariant forall j: nat :: Bit(r, j) <==> Bit(value, j) && !InFields(j, start, i)
    {
      var mask := Shl(3, 2 * (start + i));
      forall j: nat
        ensures Bit(AndNot(r, mask), j) <==> Bit(value, j) && !InFields(j, start, i + 1)
      {
        AndNotBit(r, mask, j);
        FieldBit(3, start + i, j);
      }
      r := AndNot(r, mask);
      i := i + 1;
    }
    forall j: nat
      ensures Bit(r, j) <==> Bit(ClearFields(value, start, n), j)
    {
      ClearFieldsBit(value, start, n, j);
    }
    BitsEqual(r, ClearFields(value, start, n));
  }

  /// `set_sys_select`: the source's loop ORs the pattern into one field per
  /// iteration.
  method SetSysSelect(value: nat, start: nat, n: nat, bits: string) returns (r: nat)
    requires IsTwoBits(bits)
    ensures r == SetFields(value, start, n, TwoBits(bits))
  {
    var p := TwoBits(bits);
    r := value;
    var i := 0;
    while i < n
      invariant i <= n
      invariant forall j: nat :: Bit(r, j) <==> Bit(value, j) || (InFields(j, start, i) && Bit(p, j % 2))
    {
      var field := Shl(p, 2 * (start + i));
      forall j: nat
        ensures Bit(Or(r, field), j) <==> Bit(value, j) || (InFields(j, start, i + 1) && Bit(p, j % 2))
      {
        OrBit(r, field, j);
        FieldBit(p, start + i, j);
      }
      r := Or(r, field);
      i := i + 1;
    }
    forall j: nat
      ensures Bit(r, j) <==> Bit(SetFields(value, start, n, p), j)
    {
      SetFieldsBit(value, start, n, p, j);
    }
    BitsEqual(r, SetFields(value, start, n, p));
  }

  /// Clearing a run and then setting it leaves exactly the pattern in the
  /// run, whatever the run held before, and every other bit as it was.
  lemma ReplaceFieldsBit(v: nat, start: nat, n: nat, p: nat, j: nat)
    requires p < 4
    ensures Bit(SetFields(ClearFields(v, start, n), start, n, p), j)
        <==> if InFields(j, start, n) then Bit(p, j % 2) else Bit(v, j)
  {
    SetFieldsBit(ClearFields(v, start, n), start, n, p, j);
    ClearFieldsBit(v, start, n, j);
  }

  /// Neither operation takes a register value out of its width, as long as
  /// the run of fields lies inside it.
  lemma FieldsWithinWidth(v: nat, start: nat, n: nat, p: nat, w: nat)
    requires p < 4 && v < Pow2(2 * w) && start + n <= w
    ensures ClearFields(v, start, n) < Pow2(2 * w)
    ensures SetFields(v, start, n, p) < Pow2(2 * w)
  {
    forall j: nat | 2 * w <= j
      ensures !Bit(ClearFields(v, start, n), j) && !Bit(SetFields(v, start, n, p), j)
    {
      SmallBits(v, 2 * w, j);
      ClearFieldsBit(v, start, n, j);
      SetFieldsBit(v, start, n, p, j);
    }
    BitsBound(ClearFields(v, start, n), 2 * w);
    BitsBound(SetFields(v, start, n, p), 2 * w);
  }

  /// The select values the peripheral constructors write: a DIO line is
  /// cleared to `'00'`; an encoder replaces lines 2c and 2c+1 with `'10'`; a
  /// PWM channel replaces its line with `'01'`; I2C ORs `'11'` into lines 14
  /// and 15 and SPI into lines 5, 6 and 7.
  function DioSelect(v: nat, channel: nat): nat { ClearFields(v, channel, 1) }

  function EncoderSelect(v: nat, channel: nat): nat
  {
    SetFields(ClearFields(v, 2 * channel, 2), 2 * channel, 2, TwoBits("10"))
  }

  function PwmSelect(v: nat, channel: nat): nat
  {
    SetFields(ClearFields(v, channel, 1), channel, 1, TwoBits("01"))
  }

  function I2cSelect(v: nat): nat { SetFields(v, 14, 2, TwoBits("11")) }

  function SpiSelect(v: nat): nat { SetFields(v, 5, 3, TwoBits("11")) }

  lemma EncoderSelectBit(v: nat, channel: nat, j: nat)
    ensures Bit(EncoderSelect(v, channel), j)
        <==> if 4 * channel <= j < 4 * channel + 4 then j % 2 == 1 else Bit(v, j)
  {
    ReplaceFieldsBit(v, 2 * channel, 2, 2, j);
    assert Bit(2, 1) && !Bit(2, 0) by {
      assert 2 / 2 == 1;
    }
  }

  lemma PwmSelectBit(v: nat, channel: nat, j: nat)
    ensures Bit(PwmSelect(v, channel), j)
        <==> if 2 * channel <= j < 2 * channel + 2 then j % 2 == 0 else Bit(v, j)
  {
    ReplaceFieldsBit(v, channel, 1, 1, j);
    assert Bit(1, 0) && !Bit(1, 1) by {
      assert 1 / 2 == 0;
      ZeroBits(0);
    }
  }

  /// ORing `'11'` sets the whole run, so I2C and SPI routing does not depend
  /// on what the run held.
  lemma I2cSpiSelectBit(v: nat, j: nat)
    ensures Bit(I2cSelect(v), j) <==> 28 <= j < 32 || Bit(v, j)
    ensures Bit(SpiSelect(v), j) <==> 10 <= j < 16 || Bit(v, j)
  {
    assert Bit(3, j % 2) by {
      assert 3 / 2 == 1;
    }
    SetFieldsBit(v, 14, 2, 3, j);
    SetFieldsBit(v, 5, 3, 3, j);
  }

  lemma {:induction false} EvenShift(k: nat, s: nat)
    ensures (k + 2 * s) % 2 == k % 2
  {
    if s > 0 {
      EvenShift(k, s - 1);
    }
  }

  /// The bits of `x << k` plus a number below `2^k`.
  lemma SplitBit(x: nat, lo: nat, k: nat, i: nat)
    requires lo < Pow2(k)
    ensures Bit(Shl(x, k) + lo, i) <==> if i < k then Bit(lo, i) else Bit(x, i - k)
  {
    OrShiftedAdd(lo, x, k);
    OrBit(lo, Shl(x, k), i);
    ShlBit(x, k, i);
    if k <= i {
      SmallBits(lo, k, i);
    }
  }

  lemma TiledBound(p: nat, n: nat)
    requires p < 4
    ensures Tiled(p, n) < Pow2(2 * n)
  {
    forall j: nat | 2 * n <= j
      ensures !Bit(Tiled(p, n), j)
    {
      TiledBit(p, n, j);
    }
    BitsBound(Tiled(p, n), 2 * n);
  }

  /// A register value split at the run of fields: `hi` above the run, `mid`
  /// in it and `lo` below it.  Clearing the run drops `mid`.
  lemma ClearArithmeticBit(hi: nat, mid: nat, lo: nat, start: nat, n: nat, i: nat)
    requires lo < Pow2(2 * start) && mid < Pow2(2 * n)
    ensures Bit(ClearFields(Shl(Shl(hi, 2 * n) + mid, 2 * start) + lo, start, n), i)
        <==> Bit(Shl(Shl(hi, 2 * n), 2 * start) + lo, i)
  {
    ClearFieldsBit(Shl(Shl(hi, 2 * n) + mid, 2 * start) + lo, start, n, i);
    SplitBit(Shl(hi, 2 * n) + mid, lo, 2 * start, i);
    SplitBit(Shl(hi, 2 * n), lo, 2 * start, i);
    if 2 * start <= i {
      SplitBit(hi, mid, 2 * n, i - 2 * start);
      ShlBit(hi, 2 * n, i - 2 * start);
    }
  }

  lemma ClearArithmetic(hi: nat, mid: nat, lo: nat, start: nat, n: nat)
    requires lo < Pow2(2 * start) && mid < Pow2(2 * n)
    ensures ClearFields(Shl(Shl(hi, 2 * n) + mid, 2 * start) + lo, start, n)
         == Shl(Shl(hi, 2 * n), 2 * start) + lo
  {
    var v := ClearFields(Shl(Shl(hi, 2 * n) + mid, 2 * start) + lo, start, n);
    var c := Shl(Shl(hi, 2 * n), 2 * start) + lo;
    forall i: nat
      ensures Bit(v, i) <==> Bit(c, i)
    {
      ClearArithmeticBit(hi, mid, lo, start, n, i);
    }
    BitsEqual(v, c);
  }

  /// Setting a cleared run adds the tiled pattern in its place.
  lemma SetArithmeticBit(hi: nat, lo: nat, start: nat, n: nat, p: nat, i: nat)
    requires lo < Pow2(2 * start) && p < 4
    ensures Bit(SetFields(Shl(Shl(hi, 2 * n), 2 * start) + lo, start, n, p), i)
        <==> Bit(Shl(Shl(hi, 2 * n) + Tiled(p, n), 2 * start) + lo, i)
  {
    var t := Tiled(p, n);
    var c := Shl(Shl(hi, 2 * n), 2 * start) + lo;
    TiledBound(p, n);
    SetFieldsBit(c, start, n, p, i);
    SplitBit(Shl(hi, 2 * n), lo, 2 * start, i);
    SplitBit(Shl(hi, 2 * n) + t, lo, 2 * start, i);
    if 2 * start <= i {
      var k := i - 2 * start;
      EvenShift(k, start);
      assert i % 2 == k % 2;
      SplitBit(hi, t, 2 * n, k);
      ShlBit(hi, 2 * n, k);
      TiledBit(p, n, k);
      assert InFields(i, start, n) <==> k < 2 * n;
    } else {
      assert !InFields(i, start, n);
    }
  }

  lemma SetArithmetic(hi: nat, lo: nat, start: nat, n: nat, p: nat)
    requires lo < Pow2(2 * start) && p < 4
    ensures SetFields(Shl(Shl(hi, 2 * n), 2 * start) + lo, start, n, p)
         == Shl(Shl(hi, 2 * n) + Tiled(p, n), 2 * start) + lo
  {
    var v := SetFields(Shl(Shl(hi, 2 * n), 2 * start) + lo, start, n, p);
    var c := Shl(Shl(hi, 2 * n) + Tiled(p, n), 2 * start) + lo;
    forall i: nat
      ensures Bit(v, i) <==> Bit(c, i)
    {
      SetArithmeticBit(hi, lo, start, n, p, i);
    }
    BitsEqual(v, c);
  }

  /// The register values pinned by the unit tests of the two helpers.
  lemma Pinned32()
    ensures ClearFields(0xAAAAAAAA, 3, 2) == 0xAAAAA82A
    ensures SetFields(0xAAAAA82A, 3, 2, TwoBits("01")) == 0xAAAAA96A
  {
    assert Pow2(4) == 16 && Pow2(6) == 64;
    assert Shl(0x2AAAAA, 4) == 0x2AAAAA0;
    assert Shl(0x2AAAAA0 + 10, 6) + 0x2A == 0xAAAAAAAA;
    assert Shl(0x2AAAAA0, 6) + 0x2A == 0xAAAAA82A;
    ClearArithmetic(0x2AAAAA, 10, 0x2A, 3, 2);
    assert TwoBits("01") == 1;
    assert Tiled(1, 2) == 5 by {
      assert Tiled(1, 1) == 1;
    }
    assert Shl(0x2AAAAA0 + 5, 6) + 0x2A == 0xAAAAA96A;
    SetArithmetic(0x2AAAAA, 0x2A, 3, 2, 1);
  }

  lemma Pinned64()
    ensures ClearFields(0xFFFFFFFFFFFFFFFF, 16, 3) == 0xFFFFFFC0FFFFFFFF
    ensures SetFields(0xFFFFFFC0FFFFFFFF, 16, 3, TwoBits("10")) == 0xFFFFFFEAFFFFFFFF
  {
    assert Pow2(6) == 64 && Pow2(16) == 0x1_0000;
    Pow2Add(16, 16);
    assert Shl(0x3FFFFFF, 6) == 0xFFFFFFC0;
    assert Shl(0xFFFFFFC0 + 63, 32) + 0xFFFFFFFF == 0xFFFFFFFFFFFFFFFF;
    assert Shl(0xFFFFFFC0, 32) + 0xFFFFFFFF == 0xFFFFFFC0FFFFFFFF;
    ClearArithmetic(0x3FFFFFF, 63, 0xFFFFFFFF, 16, 3);
    assert TwoBits("10") == 2;
    assert Tiled(2, 3) == 42 by {
      assert Tiled(2, 1) == 2;
      assert Tiled(2, 2) == 10;
    }
    assert Shl(0xFFFFFFC0 + 42, 32) + 0xFFFFFFFF == 0xFFFFFFEAFFFFFFFF;
    SetArithmetic(0x3FFFFFF, 0xFFFFFFFF, 16, 3, 2);
  }
}
