/// Python's bitwise operators on non-negative integers, defined one bit at a
/// time, with the per-bit facts the register computations rely on.
module Bits {

  function Pow2(k: nat): (r: nat)
    ensures r >= 1
  {
    if k == 0 then 1 else 2 * Pow2(k - 1)
  }

  /// Bit `i` of `x` (Python `(x >> i) & 1 == 1`).
  predicate Bit(x: nat, i: nat)
  {
    if i == 0 then x % 2 == 1 else Bit(x / 2, i - 1)
  }

  /// Python `a | b`.
  function Or(a: nat, b: nat): nat
    decreases a + b
  {
    if a == 0 && b == 0 then 0
    else 2 * Or(a / 2, b / 2) + (if a % 2 == 1 || b % 2 == 1 then 1 else 0)
  }

  /// Python `a & b`.
  function And(a: nat, b: nat): nat
    decreases a + b
  {
    if a == 0 || b == 0 then 0
    else 2 * And(a / 2, b / 2) + (if a % 2 == 1 && b % 2 == 1 then 1 else 0)
  }

  /// Python `a & ~m`: `a` with the bits of `m` cleared.
  function AndNot(a: nat, m: nat): nat
    decreases a
  {
    if a == 0 then 0
    else 2 * AndNot(a / 2, m / 2) + (if a % 2 == 1 && m % 2 == 0 then 1 else 0)
  }

  /// Python `x << k`.
  function Shl(x: nat, k: nat): nat
  {
    x * Pow2(k)
  }

  lemma {:induction false} ZeroBits(i: nat)
    ensures !Bit(0, i)
  {
    if i > 0 {
      ZeroBits(i - 1);
    }
  }

  lemma {:induction false} OrBit(a: nat, b: nat, i: nat)
    ensures Bit(Or(a, b), i) <==> Bit(a, i) || Bit(b, i)
    decreases i
  {
    if a == 0 && b == 0 {
      ZeroBits(i);
    } else if i > 0 {
      OrBit(a / 2, b / 2, i - 1);
    }
  }

  lemma {:induction false} AndBit(a: nat, b: nat, i: nat)
    ensures Bit(And(a, b), i) <==> Bit(a, i) && Bit(b, i)
    decreases i
  {
    if a == 0 || b == 0 {
      ZeroBits(i);
    } else if i > 0 {
      AndBit(a / 2, b / 2, i - 1);
    }
  }

  lemma {:induction false} AndNotBit(a: nat, m: nat, i: nat)
    ensures Bit(AndNot(a, m), i) <==> Bit(a, i) && !Bit(m, i)
    decreases i
  {
    if a == 0 {
      ZeroBits(i);
    } else if i > 0 {
      AndNotBit(a / 2, m / 2, i - 1);
    }
  }

  lemma {:induction false} ShlBit(x: nat, k: nat, i: nat)
    ensures Bit(Shl(x, k), i) <==> k <= i && Bit(x, i - k)
    decreases k
  {
    if k > 0 {
      var y := Shl(x, k - 1);
      assert Shl(x, k) == 2 * y;
      assert (2 * y) / 2 == y;
      if i == 0 {
        assert (2 * y) % 2 == 0;
      } else {
        ShlBit(x, k - 1, i - 1);
      }
    }
  }

  /// The bits of a number below 2^k are all below position k.
  lemma {:induction false} SmallBits(x: nat, k: nat, i: nat)
    requires x < Pow2(k) && k <= i
    ensures !Bit(x, i)
    decreases k
  {
    if k == 0 {
      assert x == 0;
      ZeroBits(i);
    } else {
      SmallBits(x / 2, k - 1, i - 1);
    }
  }

  /// Conversely, a number with no bit at or above position k is below 2^k.
  lemma {:induction false} BitsBound(x: nat, k: nat)
    requires forall i: nat :: k <= i ==> !Bit(x, i)
    ensures x < Pow2(k)
    decreases x
  {
    if x > 0 {
      if k == 0 {
        // x >= 1, so x has a highest bit; walk down to it.
        HighBit(x);
      } else {
        forall i: nat | k - 1 <= i
          ensures !Bit(x / 2, i)
        {
          assert Bit(x, i + 1) == Bit(x / 2, i);
        }
        BitsBound(x / 2, k - 1);
      }
    }
  }

  /// Every positive number has some bit set.
  lemma {:induction false} HighBit(x: nat)
    requires x > 0
    ensures exists i: nat :: Bit(x, i)
    decreases x
  {
    if x % 2 == 1 {
      assert Bit(x, 0);
    } else {
      HighBit(x / 2);
      var i: nat :| Bit(x / 2, i);
      assert Bit(x, i + 1);
    }
  }

  /// Two numbers with the same bits are equal.
  lemma {:induction false} BitsEqual(x: nat, y: nat)
    requires forall i: nat :: Bit(x, i) <==> Bit(y, i)
    ensures x == y
    decreases x + y
  {
    if x == 0 && y == 0 {
    } else if x == 0 || y == 0 {
      var nz := if x == 0 then y else x;
      HighBit(nz);
      var i: nat :| Bit(nz, i);
      ZeroBits(i);
      assert false;
    } else {
      assert Bit(x, 0) <==> Bit(y, 0);
      forall i: nat
        ensures Bit(x / 2, i) <==> Bit(y / 2, i)
      {
        assert Bit(x, i + 1) <==> Bit(y, i + 1);
      }
      BitsEqual(x / 2, y / 2);
    }
  }

  /// OR of numbers with no common bit is their sum.
  lemma {:induction false} OrDisjoint(a: nat, b: nat)
    requires forall i: nat :: !(Bit(a, i) && Bit(b, i))
    ensures Or(a, b) == a + b
    decreases a + b
  {
    if a == 0 && b == 0 {
    } else {
      assert !(Bit(a, 0) && Bit(b, 0));
      forall i: nat
        ensures !(Bit(a / 2, i) && Bit(b / 2, i))
      {
        assert !(Bit(a, i + 1) && Bit(b, i + 1));
      }
      OrDisjoint(a / 2, b / 2);
    }
  }

  /// OR keeps numbers below a power of two below it.
  lemma {:induction false} OrBound(a: nat, b: nat, k: nat)
    requires a < Pow2(k) && b < Pow2(k)
    ensures Or(a, b) < Pow2(k)
  {
    forall i: nat | k <= i
      ensures !Bit(Or(a, b), i)
    {
      OrBit(a, b, i);
      SmallBits(a, k, i);
      SmallBits(b, k, i);
    }
    BitsBound(Or(a, b), k);
  }

  /// A number below 2^k ORed with a multiple of 2^k is their sum.
  lemma OrShiftedAdd(x: nat, z: nat, k: nat)
    requires x < Pow2(k)
    ensures Or(x, Shl(z, k)) == x + Shl(z, k)
  {
    forall i: nat
      ensures !(Bit(x, i) && Bit(Shl(z, k), i))
    {
      ShlBit(z, k, i);
      if k <= i {
        SmallBits(x, k, i);
      }
    }
    OrDisjoint(x, Shl(z, k));
  }

  lemma {:induction false} Pow2Add(a: nat, b: nat)
    ensures Pow2(a + b) == Pow2(a) * Pow2(b)
  {
    if a > 0 {
      Pow2Add(a - 1, b);
    }
  }

  /// Python `x & (2^k - 1)` keeps the low k bits: it is `x % 2^k`.
  lemma {:induction false} AndLowBits(x: nat, k: nat)
    ensures And(x, Pow2(k) - 1) == x % Pow2(k)
  {
    var m := Pow2(k) - 1;
    if k == 0 {
      assert m == 0 && And(x, m) == 0;
    } else if x == 0 {
      assert And(x, m) == 0;
    } else {
      var p := Pow2(k - 1);
      assert m == 2 * (p - 1) + 1;
      assert m / 2 == p - 1 && m % 2 == 1;
      assert And(x, m) == 2 * And(x / 2, p - 1) + x % 2;
      AndLowBits(x / 2, k - 1);
      ModDouble(x, p);
      assert And(x, m) == x % (2 * p);
    }
  }

  lemma ModDouble(x: nat, p: nat)
    requires p > 0
    ensures 2 * ((x / 2) % p) + x % 2 == x % (2 * p)
  {
    var q := x / 2;
    var a := q / p;
    var c := q % p;
    assert q == p * a + c;
    assert x == 2 * q + x % 2;
    assert 2 * (p * a) == (2 * p) * a;
    ModUnique(x, 2 * p, a, 2 * c + x % 2);
  }

  /// Euclidean division is unique.
  lemma ModUnique(x: int, d: int, a: int, r: int)
    requires d > 0 && x == d * a + r && 0 <= r < d
    ensures x % d == r && x / d == a
  {
    var a' := x / d;
    var r' := x % d;
    assert d * (a - a') == r' - r;
    if a' < a {
      MulAtLeast(d, a - a');
      assert false;
    } else if a' > a {
      MulAtLeast(d, a' - a);
      assert false;
    }
  }

  lemma DivMod(y: int, p: int)
    requires p > 0
    ensures y == p * (y / p) + y % p && 0 <= y % p < p
  {
  }

  /// `~y mod p` is `p - 1 - y mod p`.
  lemma ComplementMod(y: int, p: int)
    requires p > 0
    ensures (-1 - y) % p == p - 1 - y % p
  {
    var q := y / p;
    DivMod(y, p);
    assert p * (-q - 1) == -(p * q) - p;
    ModUnique(-1 - y, p, -q - 1, p - 1 - y % p);
  }

  lemma MulAtLeast(d: int, k: int)
    requires d > 0 && k >= 1
    ensures d * k >= d
  {
  }

  lemma MulAtMost(d: int, k: int)
    requires d > 0 && k <= -1
    ensures d * k <= -d
  {
    MulAtLeast(d, -k);
    assert d * k == -(d * -k);
  }

  /// Bit `i` of 2^k is set exactly when `i == k`.
  lemma {:induction false} PowBit(k: nat, i: nat)
    ensures Bit(Pow2(k), i) <==> i == k
    decreases k
  {
    if k == 0 {
      if i > 0 {
        ZeroBits(i - 1);
      }
    } else {
      assert Pow2(k) % 2 == 0 && Pow2(k) / 2 == Pow2(k - 1);
      if i > 0 {
        PowBit(k - 1, i - 1);
      }
    }
  }

  /// 2^n - 1 has exactly its low n bits set.
  lemma {:induction false} LowOnesBit(n: nat, i: nat)
    ensures Bit(Pow2(n) - 1, i) <==> i < n
    decreases n
  {
    if n == 0 {
      ZeroBits(i);
    } else {
      assert (Pow2(n) - 1) % 2 == 1 && (Pow2(n) - 1) / 2 == Pow2(n - 1) - 1;
      if i > 0 {
        LowOnesBit(n - 1, i - 1);
      }
    }
  }

  /// `x & (1 << k)` is 2^k when bit k of x is set and 0 otherwise.
  lemma AndPow(x: nat, k: nat)
    ensures And(x, Pow2(k)) == if Bit(x, k) then Pow2(k) else 0
  {
    var y := if Bit(x, k) then Pow2(k) else 0;
    forall i: nat
      ensures Bit(And(x, Pow2(k)), i) <==> Bit(y, i)
    {
      AndBit(x, Pow2(k), i);
      PowBit(k, i);
      ZeroBits(i);
    }
    BitsEqual(And(x, Pow2(k)), y);
  }

  /// Bit k of a number below 2^(k+1) is its top bit.
  lemma {:induction false} TopBit(x: nat, k: nat)
    requires x < Pow2(k + 1)
    ensures Bit(x, k) <==> x >= Pow2(k)
    decreases k
  {
    if k > 0 {
      TopBit(x / 2, k - 1);
    }
  }

  lemma {:induction false} OrComm(a: nat, b: nat)
    ensures Or(a, b) == Or(b, a)
    decreases a + b
  {
    if !(a == 0 && b == 0) {
      OrComm(a / 2, b / 2);
    }
  }

  lemma {:induction false} AndComm(a: nat, b: nat)
    ensures And(a, b) == And(b, a)
    decreases a + b
  {
    if a != 0 && b != 0 {
      AndComm(a / 2, b / 2);
    }
  }

  lemma {:induction false} OrZero(a: nat)
    ensures Or(a, 0) == a
    decreases a
  {
    if a != 0 {
      OrZero(a / 2);
    }
  }

  /// The bits of `m` split into those `x` shares and those it does not.
  lemma {:induction false} AndNotPlusAnd(m: nat, x: nat)
    ensures AndNot(m, x) + And(m, x) == m
    decreases m
  {
    if m > 0 {
      AndNotPlusAnd(m / 2, x / 2);
      assert And(m, x) == 2 * And(m / 2, x / 2) + (if m % 2 == 1 && x % 2 == 1 then 1 else 0);
    }
  }

  /// Python `x & m` for any integer `x` and a mask `m >= 0`.  In two's
  /// complement a negative `x` is `~y` with `y = -1 - x >= 0`, so `x & m`
  /// is `m & ~y`.
  function AndMask(x: int, m: nat): nat
  {
    if x >= 0 then And(x, m) else AndNot(m, -1 - x)
  }

  /// Python `x | y` for `x >= 0 > y`: in two's complement `~(~y & ~x)`.
  function OrNegative(x: nat, y: int): int
    requires y < 0
  {
    -1 - AndNot(-1 - y, x)
  }

  /// `x & (2^k - 1)` is `x mod 2^k` for negative `x` too.
  lemma AndMaskLowBits(x: int, k: nat)
    ensures AndMask(x, Pow2(k) - 1) == x % Pow2(k)
  {
    var p := Pow2(k);
    var m := p - 1;
    if x >= 0 {
      AndLowBits(x, k);
    } else {
      var y := -1 - x;
      AndNotPlusAnd(m, y);
      AndComm(m, y);
      AndLowBits(y, k);
      assert AndNot(m, y) == m - y % p;
      ComplementMod(y, p);
    }
  }
}
