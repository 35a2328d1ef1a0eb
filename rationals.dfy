/// Exact rationals standing in for the driver's floating-point quotients, and
/// Python's built-in `round()` on a quotient (round half to even).
module Rationals {

  type Positive = x: int | x > 0 witness 1

  /// The rational num/den.
  datatype Rat = Rat(num: int, den: Positive)

  /// The rational n/d for any non-zero d.
  function Quotient(n: int, d: int): (r: Rat)
    requires d != 0
    ensures r.num * d == n * r.den
  {
    if d > 0 then Rat(n, d) else Rat(-n, -d)
  }

  function FromInt(n: int): Rat { Rat(n, 1) }

  predicate Eq(x: Rat, y: Rat) { x.num * y.den == y.num * x.den }

  predicate Le(x: Rat, y: Rat) { x.num * y.den <= y.num * x.den }

  predicate Lt(x: Rat, y: Rat) { x.num * y.den < y.num * x.den }

  predicate IsZero(x: Rat) { x.num == 0 }

  function Abs(n: int): nat { if n < 0 then -n else n }

  /// |n - x| for an integer n, as a rational.
  function DistanceFromInt(n: int, x: Rat): Rat
  {
    Rat(Abs(n * x.den - x.num), x.den)
  }

  /// Python `round(n / d)`: the nearest integer, ties to the even neighbour.
  function RoundHalfEven(n: int, d: Positive): (r: int)
    ensures 2 * Abs(n - r * d) <= d
    ensures 2 * Abs(n - r * d) == d ==> r % 2 == 0
  {
    var q := n / d;
    var rem := n % d;
    assert n == q * d + rem;
    if 2 * rem < d then q
    else if 2 * rem > d then q + 1
    else if q % 2 == 0 then q
    else q + 1
  }

  /// The two conditions above single out one integer: `round` is the
  /// nearest integer with ties to even, and nothing else.
  lemma {:induction false} RoundHalfEvenUnique(n: int, d: Positive, r: int)
    requires 2 * Abs(n - r * d) <= d
    requires 2 * Abs(n - r * d) == d ==> r % 2 == 0
    ensures r == RoundHalfEven(n, d)
  {
    var s := RoundHalfEven(n, d);
    NearNeighbours(n, d, r, s);
    // Both lie within d/2 of n, so they are at most one apart ...
    if r == s + 1 {
      AdjacentTies(n, d, s);
      assert false;
    } else if s == r + 1 {
      AdjacentTies(n, d, r);
      assert false;
    }
  }

  /// Two integers within d/2 of n are at most one apart.
  lemma NearNeighbours(n: int, d: Positive, r: int, s: int)
    requires 2 * Abs(n - r * d) <= d && 2 * Abs(n - s * d) <= d
    ensures -1 <= r - s <= 1
  {
    SubMul(r, s, d);
    var e := r - s;
    if e >= 2 {
      MulLe(2, e, d);
      assert false;
    } else if e <= -2 {
      MulLe(e, -2, d);
      assert false;
    }
  }

  /// ... and when they are one apart, both sit exactly at distance d/2,
  /// a tie only the even one of the pair takes.
  lemma AdjacentTies(n: int, d: Positive, s: int)
    requires 2 * Abs(n - s * d) <= d && 2 * Abs(n - (s + 1) * d) <= d
    ensures 2 * Abs(n - s * d) == d && 2 * Abs(n - (s + 1) * d) == d
  {
    assert (s + 1) * d == s * d + d;
  }

  /// Python `round(n / d)` for any non-zero divisor.
  function RoundQuotient(n: int, d: int): int
    requires d != 0
  {
    if d > 0 then RoundHalfEven(n, d) else RoundHalfEven(-n, -d)
  }

  lemma LeTrans(x: Rat, y: Rat, z: Rat)
    requires Le(x, y) && Le(y, z)
    ensures Le(x, z)
  {
    MulLe(x.num * y.den, y.num * x.den, z.den);
    MulLe(y.num * z.den, z.num * y.den, x.den);
    assert x.num * z.den * y.den <= z.num * x.den * y.den;
    CancelLe(x.num * z.den, z.num * x.den, y.den);
  }

  lemma LtLeTrans(x: Rat, y: Rat, z: Rat)
    requires Lt(x, y) && Le(y, z)
    ensures Lt(x, z)
  {
    MulLt(x.num * y.den, y.num * x.den, z.den);
    MulLe(y.num * z.den, z.num * y.den, x.den);
    assert x.num * z.den * y.den < z.num * x.den * y.den;
    CancelLt(x.num * z.den, z.num * x.den, y.den);
  }

  lemma LeTotal(x: Rat, y: Rat)
    ensures Le(x, y) || Lt(y, x)
  {
  }

  lemma SubMul(r: int, s: int, d: int)
    ensures r * d - s * d == (r - s) * d
  {
  }

  lemma MulLe(a: int, b: int, c: Positive)
    requires a <= b
    ensures a * c <= b * c
  {
  }

  lemma MulLt(a: int, b: int, c: Positive)
    requires a < b
    ensures a * c < b * c
  {
  }

  lemma CancelLe(a: int, b: int, c: Positive)
    requires a * c <= b * c
    ensures a <= b
  {
    if a > b {
      MulLt(b, a, c);
    }
  }

  lemma CancelLt(a: int, b: int, c: Positive)
    requires a * c < b * c
    ensures a < b
  {
    if a >= b {
      MulLe(b, a, c);
    }
  }
}
