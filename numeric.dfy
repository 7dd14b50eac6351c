/**
 * Exact-arithmetic stand-ins for the numpy primitives the simulation uses:
 * rounding to cents, integer powers and the value of np.sqrt(12).
 */
module Numeric {

  /** np.sqrt(12), used to scale annual volatility down to a monthly one: the
      shortest decimal that rounds to the float64 numpy returns (whose exact
      value is 3.46410161513775438635...). */
  const Sqrt12: real := 3.4641016151377544

  /** x is a whole number of cents. */
  predicate IsCents(x: real) {
    (x * 100.0).Floor as real == x * 100.0
  }

  /** x lies exactly half-way between two whole cents. */
  predicate IsTie(x: real) {
    x * 100.0 - (x * 100.0).Floor as real == 0.5
  }

  /** The integer nearest to y, ties going to the even neighbour (numpy's rint). */
  function RoundHalfEven(y: real): (k: int)
    ensures -0.5 <= k as real - y <= 0.5
    ensures y - y.Floor as real == 0.5 ==> k % 2 == 0
  {
    var f := y.Floor;
    if y - f as real > 0.5 then f + 1
    else if y - f as real < 0.5 then f
    else if f % 2 == 0 then f else f + 1
  }

  /** np.round(x, 2) on exact reals: the nearest whole cent, ties to the even cent. */
  function Round2(x: real): (r: real)
    ensures IsCents(r)
    ensures -0.005 <= r - x <= 0.005
    ensures IsTie(x) ==> (r * 100.0).Floor % 2 == 0
  {
    var k := RoundHalfEven(x * 100.0);
    assert (k as real / 100.0) * 100.0 == k as real;
    k as real / 100.0
  }

  /** Rounding leaves an amount that is already in whole cents unchanged. */
  lemma Round2Cents(x: real)
    requires IsCents(x)
    ensures Round2(x) == x
  {
  }

  /** x raised to the natural power k. */
  function Pow(x: real, k: nat): real {
    if k == 0 then 1.0 else x * Pow(x, k - 1)
  }

  /** The value after k periods of k unit payments made at the end of each
      period, each growing by the factor q per period: 1 + q + ... + q^(k-1). */
  function GeomSum(q: real, k: nat): real {
    if k == 0 then 0.0 else 1.0 + q * GeomSum(q, k - 1)
  }

  /** The closed form of the geometric sum: q^k - 1 == (q - 1) * (1 + q + ... + q^(k-1)). */
  lemma {:induction false} PowMinusOne(q: real, k: nat)
    ensures Pow(q, k) - 1.0 == (q - 1.0) * GeomSum(q, k)
  {
    if k > 0 {
      PowMinusOne(q, k - 1);
      var p, g := Pow(q, k - 1), GeomSum(q, k - 1);
      assert q * (p - 1.0) == q * ((q - 1.0) * g);
      assert (q - 1.0) * (1.0 + q * g) == (q - 1.0) + q * ((q - 1.0) * g);
    }
  }

  /** The product of two positive reals is positive. */
  lemma ProductPositive(x: real, y: real)
    requires x > 0.0 && y > 0.0
    ensures x * y > 0.0
  {
  }

  /** A negative real times a positive one is negative. */
  lemma ProductNegative(x: real, y: real)
    requires x < 0.0 && y > 0.0
    ensures x * y < 0.0
  {
  }

  /** A product with a positive factor is zero only when the other factor is. */
  lemma ProductZero(x: real, w: real)
    requires w > 0.0 && x * w == 0.0
    ensures x == 0.0
  {
    if x > 0.0 {
      ProductPositive(x, w);
      assert false;
    } else if x < 0.0 {
      ProductPositive(-x, w);
      assert false;
    }
  }
}
