/**
 * The compounding step growth(principal, rate, n, contribution): one year
 * of compounding n times at rate/n, plus n level contributions, rounded to cents.
 */
module Compounding {
  import opened Wrappers
  import opened Numeric

  /** The balance after one step, or None for the NaN numpy produces when
      rate is zero: the contribution factor is then 0/0. */
  function Growth(principal: real, rate: real, n: nat, contribution: real): (r: Option<real>)
    requires n >= 1
    ensures r.None? <==> rate == 0.0
  {
    if rate == 0.0 then None
    else Some(Round2(Unrounded(principal, rate, n, contribution)))
  }

  /** The balance before rounding: compound interest on the principal plus the
      contributions multiplied by ((1 + rate/n)^n - 1) / (rate/n). For a
      non-zero rate this is the annuity future value with q = 1 + rate/n: the
      principal grows by q^n and the k-th of the n contributions by q^(n-k). */
  function Unrounded(principal: real, rate: real, n: nat, contribution: real): (r: real)
    requires n >= 1 && rate != 0.0
    ensures r == AnnuityValue(principal, 1.0 + rate / n as real, n, contribution)
  {
    var i := rate / n as real;
    var q := Pow(1.0 + i, n);
    NonZeroQuotient(rate, n as real);
    PowMinusOne(1.0 + i, n);
    QuotientOfProduct(q - 1.0, i, GeomSum(1.0 + i, n));
    principal * q + contribution * ((q - 1.0) / i)
  }

  /** The future value of `principal` and of n end-of-period payments of
      `contribution` after n periods of growth by the factor q. */
  function AnnuityValue(principal: real, q: real, n: nat, contribution: real): real {
    principal * Pow(q, n) + contribution * GeomSum(q, n)
  }

  /** For a non-zero rate the step is the annuity future value, rounded once
      to cents. */
  lemma GrowthAnnuity(principal: real, rate: real, n: nat, contribution: real)
    requires n >= 1 && rate != 0.0
    ensures Growth(principal, rate, n, contribution)
              == Some(Round2(AnnuityValue(principal, 1.0 + rate / n as real, n, contribution)))
  {
    assert Unrounded(principal, rate, n, contribution) == AnnuityValue(principal, 1.0 + rate / n as real, n, contribution);
  }

  /** A non-zero amount divided by a positive count is non-zero. */
  lemma NonZeroQuotient(a: real, b: real)
    requires a != 0.0 && b > 0.0
    ensures a / b != 0.0
  {
  }

  /** Dividing b * g by a non-zero b gives back g. */
  lemma QuotientOfProduct(a: real, b: real, g: real)
    requires b != 0.0 && a == b * g
    ensures a / b == g
  {
  }

  /** With a single compounding period the step is principal * (1 + rate) plus
      the contribution, rounded to cents. */
  lemma GrowthSinglePeriod(principal: real, rate: real, contribution: real)
    requires rate != 0.0
    ensures Growth(principal, rate, 1, contribution) == Some(Round2(principal * (1.0 + rate) + contribution))
  {
    GrowthAnnuity(principal, rate, 1, contribution);
    var q := 1.0 + rate / 1 as real;
    assert q == 1.0 + rate;
    assert Pow(q, 1) == q * Pow(q, 0) == q;
    assert GeomSum(q, 1) == 1.0 + q * GeomSum(q, 0) == 1.0;
    assert AnnuityValue(principal, q, 1, contribution) == principal * (1.0 + rate) + contribution;
    assert Round2(AnnuityValue(principal, q, 1, contribution)) == Round2(principal * (1.0 + rate) + contribution);
  }

  /** 1000 at 5% for one period with no contribution is 1050.00. */
  lemma GrowthExample()
    ensures Growth(1000.0, 0.05, 1, 0.0) == Some(1050.0)
  {
    GrowthSinglePeriod(1000.0, 0.05, 0.0);
    Round2Cents(1050.0);
  }
}
