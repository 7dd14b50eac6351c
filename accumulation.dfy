/**
 * growth_simulation: savings accumulated month by month, with a monthly
 * contribution that is raised once a year by a sampled raise factor.
 */
module Accumulation {
  import opened Wrappers
  import opened Numeric
  import opened Sampler
  import opened Compounding

  /** growth_simulation reads the annual return mean and standard deviation
      as percents: both are divided by 100, then the mean by 12 and the
      standard deviation by sqrt(12). */
  function MonthlyReturnParameters(returnMean: real, returnStdev: real): (p: Moments)
    ensures p.mean * 1200.0 == returnMean && p.stdev * 100.0 * Sqrt12 == returnStdev
  {
    Moments(returnMean / 100.0 / 12.0, returnStdev / 100.0 / Sqrt12)
  }

  /** The monthly returns: n_months + 12 rows of noise about the monthly mean. */
  function SampledReturns(returnMean: real, returnStdev: real, nYears: nat, nSimulations: nat,
                          draws: seq<seq<real>>): (m: seq<seq<real>>)
    requires IsMatrix(draws, 12 * nYears + 12, nSimulations)
    ensures IsMatrix(m, 12 * nYears + 12, nSimulations)
  {
    var p := MonthlyReturnParameters(returnMean, returnStdev);
    SimsMatrix(12 * nYears + 12, nSimulations, p.mean, p.stdev, draws)
  }

  /** The annual raise factors: n_years rows about 1 + raise_mean/100. */
  function SampledRaises(raiseMean: real, raiseStdev: real, nYears: nat, nSimulations: nat,
                         draws: seq<seq<real>>): (m: seq<seq<real>>)
    requires IsMatrix(draws, nYears, nSimulations)
    ensures IsMatrix(m, nYears, nSimulations)
  {
    SimsMatrix(nYears, nSimulations, raiseMean / 100.0 + 1.0, raiseStdev / 100.0, draws)
  }

  /** The monthly contribution in year k of scenario c: the base contribution
      multiplied by the raise factors of years 0 .. k-1 of that scenario. */
  function YearContribution(monthly: real, raises: seq<seq<real>>, c: nat, k: nat): real
    requires k <= |raises| && HasColumn(raises, c)
  {
    if k == 0 then monthly else YearContribution(monthly, raises, c, k - 1) * raises[k - 1][c]
  }

  /** Row r of the contribution schedule: nothing in row 0, then each year's
      contribution repeated for 12 rows. */
  function ScheduleAt(monthly: real, raises: seq<seq<real>>, c: nat, r: nat): real
    requires r <= 12 * |raises| + 12 && HasColumn(raises, c)
  {
    if r == 0 then 0.0 else YearContribution(monthly, raises, c, (r - 1) / 12)
  }

  /** One month of growth on a cell of the balance matrix: a NaN balance stays
      NaN, otherwise the compounding step with n = 1. */
  function MonthStep(balance: Option<real>, rate: real, contribution: real): (r: Option<real>)
    ensures r.Some? <==> balance.Some? && rate != 0.0
  {
    match balance
    case None => None
    case Some(b) => Growth(b, rate, 1, contribution)
  }

  /** On a balance that is a number and a non-zero return, a month of growth
      is balance * (1 + rate) + contribution, rounded to cents. */
  lemma MonthStepValue(b: real, rate: real, contribution: real)
    requires rate != 0.0
    ensures MonthStep(Some(b), rate, contribution) == Some(Round2(b * (1.0 + rate) + contribution))
  {
    GrowthSinglePeriod(b, rate, contribution);
  }

  /** The balance of scenario c after j months. */
  function Balance(start: real, monthlyReturns: seq<seq<real>>, monthly: real, raises: seq<seq<real>>, c: nat, j: nat): Option<real>
    requires j <= |monthlyReturns| && j <= 12 * |raises| + 12
    requires HasColumn(monthlyReturns, c) && HasColumn(raises, c)
  {
    if j == 0 then Some(start)
    else MonthStep(Balance(start, monthlyReturns, monthly, raises, c, j - 1), monthlyReturns[j - 1][c], ScheduleAt(monthly, raises, c, j))
  }

  /** The annual contribution table: row 0 is the base contribution and each
      following row is the previous one times that year's raise factors. */
  method AnnualContributions(monthlyContribution: real, raises: seq<seq<real>>, nYears: nat, nSimulations: nat)
    returns (contributions: array2<real>)
    requires IsMatrix(raises, nYears, nSimulations)
    ensures fresh(contributions)
    ensures contributions.Length0 == nYears + 1 && contributions.Length1 == nSimulations
    ensures forall k, c | 0 <= k <= nYears && 0 <= c < nSimulations ::
              contributions[k, c] == YearContribution(monthlyContribution, raises, c, k)
  {
    contributions := new real[nYears + 1, nSimulations]((_, _) => monthlyContribution);
    for j := 0 to nYears
      modifies contributions
      invariant forall k, c {:trigger contributions[k, c]} | 0 <= k <= j && 0 <= c < nSimulations ::
                  contributions[k, c] == YearContribution(monthlyContribution, raises, c, k)
    {
      RaiseYear(contributions, j, raises);
      var next := j + 1;
      forall c | 0 <= c < nSimulations
        ensures contributions[next, c] == YearContribution(monthlyContribution, raises, c, next)
      {
      }
    }
  }

  /** contributions[j + 1, :] = contributions[j, :] * raises[j, :]: row j + 1
      becomes row j times year j's raise factors; no other row changes. */
  method RaiseYear(contributions: array2<real>, j: nat, raises: seq<seq<real>>)
    requires j + 1 < contributions.Length0 && j < |raises| && |raises[j]| == contributions.Length1
    modifies contributions
    ensures forall k, c | 0 <= k < contributions.Length0 && k != j + 1 && 0 <= c < contributions.Length1 ::
              contributions[k, c] == old(contributions[k, c])
    ensures forall c | 0 <= c < contributions.Length1 ::
              contributions[j + 1, c] == old(contributions[j, c]) * raises[j][c]
  {
    var next := j + 1;
    for c := 0 to contributions.Length1
      invariant forall k, d | 0 <= k < contributions.Length0 && k != next && 0 <= d < contributions.Length1 ::
                  contributions[k, d] == old(contributions[k, d])
      invariant forall d | 0 <= d < c :: contributions[next, d] == old(contributions[j, d]) * raises[j][d]
    {
      contributions[next, c] := contributions[j, c] * raises[j][c];
    }
  }

  /** The balance after month j + 1 is one month of growth on the balance
      after month j, at that month's return and contribution. */
  lemma BalanceNext(start: real, monthlyReturns: seq<seq<real>>, monthly: real, raises: seq<seq<real>>, c: nat, j: nat)
    requires j < |monthlyReturns| && j < 12 * |raises| + 12
    requires HasColumn(monthlyReturns, c) && HasColumn(raises, c)
    ensures Balance(start, monthlyReturns, monthly, raises, c, j + 1)
              == MonthStep(Balance(start, monthlyReturns, monthly, raises, c, j),
                           monthlyReturns[j][c], ScheduleAt(monthly, raises, c, j + 1))
  {
  }

  /** Builds the contribution schedule: the annual table with every row
      repeated 12 times below a leading row of zeros. */
  method ContributionSchedule(monthlyContribution: real, raises: seq<seq<real>>, nYears: nat, nSimulations: nat)
    returns (schedule: array2<real>)
    requires IsMatrix(raises, nYears, nSimulations)
    ensures fresh(schedule)
    ensures schedule.Length0 == 12 * (nYears + 1) + 1 && schedule.Length1 == nSimulations
    ensures forall c | 0 <= c < nSimulations :: schedule[0, c] == 0.0
    ensures forall r, c | 0 <= r < schedule.Length0 && 0 <= c < nSimulations ::
              schedule[r, c] == ScheduleAt(monthlyContribution, raises, c, r)
  {
    var contributions := AnnualContributions(monthlyContribution, raises, nYears, nSimulations);
    schedule := new real[12 * (nYears + 1) + 1, nSimulations](
      (r, c) reads contributions requires 0 <= r < 12 * (nYears + 1) + 1 && 0 <= c < nSimulations =>
        if r == 0 then 0.0 else contributions[(r - 1) / 12, c]);
  }

  /** sims[j + 1, :] = growth(sims[j, :], rates[j, :], 1, schedule[j + 1, :]):
      row j + 1 becomes one month of growth on row j; no other row changes. */
  method GrowMonth(sims: array2<Option<real>>, j: nat, rates: seq<seq<real>>, schedule: array2<real>)
    requires j + 1 < sims.Length0 && j < |rates| && j + 1 < schedule.Length0
    requires schedule.Length1 == sims.Length1 && |rates[j]| == sims.Length1
    modifies sims
    ensures forall i, c | 0 <= i < sims.Length0 && i != j + 1 && 0 <= c < sims.Length1 ::
              sims[i, c] == old(sims[i, c])
    ensures forall c | 0 <= c < sims.Length1 ::
              sims[j + 1, c] == MonthStep(old(sims[j, c]), rates[j][c], schedule[j + 1, c])
  {
    var next := j + 1;
    for c := 0 to sims.Length1
      invariant forall i, d | 0 <= i < sims.Length0 && i != next && 0 <= d < sims.Length1 ::
                  sims[i, d] == old(sims[i, d])
      invariant forall d | 0 <= d < c :: sims[next, d] == MonthStep(old(sims[j, d]), rates[j][d], schedule[next, d])
    {
      sims[next, c] := MonthStep(sims[j, c], rates[j][c], schedule[next, c]);
    }
  }

  /** The balance matrix of growth_simulation before trimming: n_months + 12
      rows filled from the starting capital, row j + 1 one month of growth on
      row j. */
  method SimulateBalances(startCapital: real, monthlyReturns: seq<seq<real>>, monthlyContribution: real,
                          raises: seq<seq<real>>, contributions: array2<real>, nYears: nat, nSimulations: nat)
    returns (sims: array2<Option<real>>)
    requires IsMatrix(monthlyReturns, 12 * nYears + 12, nSimulations) && IsMatrix(raises, nYears, nSimulations)
    requires contributions.Length0 == 12 * (nYears + 1) + 1 && contributions.Length1 == nSimulations
    requires forall r, c | 0 <= r < contributions.Length0 && 0 <= c < nSimulations ::
               contributions[r, c] == ScheduleAt(monthlyContribution, raises, c, r)
    ensures fresh(sims)
    ensures sims.Length0 == 12 * nYears + 12 && sims.Length1 == nSimulations
    ensures forall i, c | 0 <= i < sims.Length0 && 0 <= c < nSimulations ::
              sims[i, c] == Balance(startCapital, monthlyReturns, monthlyContribution, raises, c, i)
  {
    sims := new Option<real>[12 * nYears + 12, nSimulations]((_, _) => Some(startCapital));
    for j := 0 to 12 * nYears + 11
      modifies sims
      invariant forall i, c {:trigger sims[i, c]} | 0 <= i <= j && 0 <= c < nSimulations ::
                  sims[i, c] == Balance(startCapital, monthlyReturns, monthlyContribution, raises, c, i)
    {
      GrowMonth(sims, j, monthlyReturns, contributions);
      var next := j + 1;
      forall c | 0 <= c < nSimulations
        ensures sims[next, c] == Balance(startCapital, monthlyReturns, monthlyContribution, raises, c, next)
      {
        BalanceNext(startCapital, monthlyReturns, monthlyContribution, raises, c, j);
      }
    }
  }

  /** growth_simulation: the returns and raises are sampled, the contribution
      schedule built, n_months + 12 rows simulated and all but the last 11
      returned. */
  method GrowthSimulation(startCapital: real, returnMean: real, returnStdev: real, raiseMean: real,
                          raiseStdev: real, monthlyContribution: real, nYears: nat, nSimulations: nat,
                          returnDraws: seq<seq<real>>, raiseDraws: seq<seq<real>>)
    returns (table: array2<Option<real>>)
    requires IsMatrix(returnDraws, 12 * nYears + 12, nSimulations)
    requires IsMatrix(raiseDraws, nYears, nSimulations)
    ensures fresh(table)
    ensures table.Length0 == 12 * nYears + 1 && table.Length1 == nSimulations
    ensures forall c | 0 <= c < nSimulations :: table[0, c] == Some(startCapital)
    ensures forall i, c | 0 <= i < table.Length0 && 0 <= c < nSimulations ::
              table[i, c] == Balance(startCapital, SampledReturns(returnMean, returnStdev, nYears, nSimulations, returnDraws),
                                     monthlyContribution, SampledRaises(raiseMean, raiseStdev, nYears, nSimulations, raiseDraws), c, i)
  {
    var monthlyReturns := SampledReturns(returnMean, returnStdev, nYears, nSimulations, returnDraws);
    var raises := SampledRaises(raiseMean, raiseStdev, nYears, nSimulations, raiseDraws);
    var contributions := ContributionSchedule(monthlyContribution, raises, nYears, nSimulations);
    var sims := SimulateBalances(startCapital, monthlyReturns, monthlyContribution, raises, contributions, nYears, nSimulations);
    table := new Option<real>[12 * nYears + 1, nSimulations](
      (i, c) reads sims requires 0 <= i < 12 * nYears + 1 && 0 <= c < nSimulations => sims[i, c]);
  }

  /** Months 1 .. 12 of year k (schedule rows 12k + 1 .. 12k + 12) all carry
      year k's contribution. */
  lemma ScheduleYearMonths(monthly: real, raises: seq<seq<real>>, c: nat, k: nat, m: nat)
    requires HasColumn(raises, c) && k <= |raises| && 1 <= m <= 12
    ensures ScheduleAt(monthly, raises, c, 12 * k + m) == YearContribution(monthly, raises, c, k)
  {
    assert (12 * k + m - 1) / 12 == k;
  }

  /** When every raise factor of scenario c is g, year k's contribution is
      monthly * g^k. */
  lemma {:induction false} YearContributionFixedRaise(monthly: real, raises: seq<seq<real>>, c: nat, k: nat, g: real)
    requires HasColumn(raises, c) && k <= |raises|
    requires forall i | 0 <= i < |raises| :: raises[i][c] == g
    ensures YearContribution(monthly, raises, c, k) == monthly * Pow(g, k)
  {
    if k > 0 {
      YearContributionFixedRaise(monthly, raises, c, k - 1, g);
      assert monthly * Pow(g, k - 1) * g == monthly * (g * Pow(g, k - 1));
    }
  }

  /** Scenarios with the same raise factors have the same contributions. */
  lemma {:induction false} YearContributionColumns(monthly: real, raises: seq<seq<real>>, c: nat, d: nat, k: nat)
    requires HasColumn(raises, c) && HasColumn(raises, d) && SameColumn(raises, c, d) && k <= |raises|
    ensures YearContribution(monthly, raises, c, k) == YearContribution(monthly, raises, d, k)
  {
    if k > 0 {
      YearContributionColumns(monthly, raises, c, d, k - 1);
    }
  }

  /** Scenarios with the same returns and raise factors have the same balances:
      each column is simulated on its own. */
  lemma {:induction false} BalanceColumns(start: real, monthlyReturns: seq<seq<real>>, monthly: real, raises: seq<seq<real>>,
                                          c: nat, d: nat, j: nat)
    requires j <= |monthlyReturns| && j <= 12 * |raises| + 12
    requires HasColumn(monthlyReturns, c) && HasColumn(raises, c) && HasColumn(monthlyReturns, d) && HasColumn(raises, d)
    requires SameColumn(monthlyReturns, c, d) && SameColumn(raises, c, d)
    ensures Balance(start, monthlyReturns, monthly, raises, c, j) == Balance(start, monthlyReturns, monthly, raises, d, j)
  {
    if j > 0 {
      BalanceColumns(start, monthlyReturns, monthly, raises, c, d, j - 1);
      YearContributionColumns(monthly, raises, c, d, (j - 1) / 12);
    }
  }

  /** A scenario's contributions depend only on its own raise factors: the
      other columns of the raise matrix do not matter. */
  lemma {:induction false} YearContributionOwnColumn(monthly: real, raises1: seq<seq<real>>, raises2: seq<seq<real>>,
                                                     c: nat, k: nat)
    requires HasColumn(raises1, c) && HasColumn(raises2, c) && AgreeOn(raises1, raises2, c) && k <= |raises1|
    ensures YearContribution(monthly, raises1, c, k) == YearContribution(monthly, raises2, c, k)
  {
    if k > 0 {
      YearContributionOwnColumn(monthly, raises1, raises2, c, k - 1);
    }
  }

  /** A scenario's balances depend only on its own returns and raise factors:
      changing any other scenario's column leaves them unchanged. */
  lemma {:induction false} BalanceOwnColumn(start: real, returns1: seq<seq<real>>, returns2: seq<seq<real>>, monthly: real,
                                            raises1: seq<seq<real>>, raises2: seq<seq<real>>, c: nat, j: nat)
    requires j <= |returns1| && j <= 12 * |raises1| + 12
    requires HasColumn(returns1, c) && HasColumn(returns2, c) && HasColumn(raises1, c) && HasColumn(raises2, c)
    requires AgreeOn(returns1, returns2, c) && AgreeOn(raises1, raises2, c)
    ensures Balance(start, returns1, monthly, raises1, c, j) == Balance(start, returns2, monthly, raises2, c, j)
  {
    if j > 0 {
      BalanceOwnColumn(start, returns1, returns2, monthly, raises1, raises2, c, j - 1);
      YearContributionOwnColumn(monthly, raises1, raises2, c, (j - 1) / 12);
    }
  }

  /** A balance is a number, not NaN, exactly when none of the months so far
      had a zero return. */
  lemma {:induction false} BalanceDefined(start: real, monthlyReturns: seq<seq<real>>, monthly: real, raises: seq<seq<real>>,
                                          c: nat, j: nat)
    requires j <= |monthlyReturns| && j <= 12 * |raises| + 12
    requires HasColumn(monthlyReturns, c) && HasColumn(raises, c)
    ensures Balance(start, monthlyReturns, monthly, raises, c, j).Some?
            <==> (forall i | 0 <= i < j :: monthlyReturns[i][c] != 0.0)
  {
    if j > 0 {
      BalanceDefined(start, monthlyReturns, monthly, raises, c, j - 1);
    }
  }

  /** While the balance is a number and the return non-zero, month j + 1 is
      the balance grown by one month's return plus that month's contribution,
      rounded to cents. */
  lemma BalanceRecurrence(start: real, monthlyReturns: seq<seq<real>>, monthly: real, raises: seq<seq<real>>,
                          c: nat, j: nat, b: real)
    requires j < |monthlyReturns| && j < 12 * |raises| + 12
    requires HasColumn(monthlyReturns, c) && HasColumn(raises, c)
    requires Balance(start, monthlyReturns, monthly, raises, c, j) == Some(b) && monthlyReturns[j][c] != 0.0
    ensures Balance(start, monthlyReturns, monthly, raises, c, j + 1)
              == Some(Round2(b * (1.0 + monthlyReturns[j][c]) + ScheduleAt(monthly, raises, c, j + 1)))
  {
    BalanceNext(start, monthlyReturns, monthly, raises, c, j);
    var r, s := monthlyReturns[j][c], ScheduleAt(monthly, raises, c, j + 1);
    MonthStepValue(b, r, s);
    assert b * (1.0 + r) + s == b * (1.0 + monthlyReturns[j][c]) + ScheduleAt(monthly, raises, c, j + 1);
  }

  /** Scenarios drawn from identical columns of noise have identical balances. */
  lemma GrowthColumnsIndependent(startCapital: real, returnMean: real, returnStdev: real, raiseMean: real,
                                 raiseStdev: real, monthlyContribution: real, nYears: nat, nSimulations: nat,
                                 returnDraws: seq<seq<real>>, raiseDraws: seq<seq<real>>, c: nat, d: nat, i: nat)
    requires IsMatrix(returnDraws, 12 * nYears + 12, nSimulations) && IsMatrix(raiseDraws, nYears, nSimulations)
    requires c < nSimulations && d < nSimulations && i <= 12 * nYears
    requires SameColumn(returnDraws, c, d) && SameColumn(raiseDraws, c, d)
    ensures var rs := SampledReturns(returnMean, returnStdev, nYears, nSimulations, returnDraws);
            var gs := SampledRaises(raiseMean, raiseStdev, nYears, nSimulations, raiseDraws);
            Balance(startCapital, rs, monthlyContribution, gs, c, i) == Balance(startCapital, rs, monthlyContribution, gs, d, i)
  {
    var rs := SampledReturns(returnMean, returnStdev, nYears, nSimulations, returnDraws);
    var gs := SampledRaises(raiseMean, raiseStdev, nYears, nSimulations, raiseDraws);
    SimsMatrixColumns(12 * nYears + 12, nSimulations, returnMean / 100.0 / 12.0, returnStdev / 100.0 / Sqrt12, returnDraws, c, d);
    SimsMatrixColumns(nYears, nSimulations, raiseMean / 100.0 + 1.0, raiseStdev / 100.0, raiseDraws, c, d);
    BalanceColumns(startCapital, rs, monthlyContribution, gs, c, d, i);
  }

  /** Column c of the result depends only on column c of the draws: two runs
      whose draws differ only in other scenarios agree on scenario c. */
  lemma GrowthOwnColumn(startCapital: real, returnMean: real, returnStdev: real, raiseMean: real,
                        raiseStdev: real, monthlyContribution: real, nYears: nat, nSimulations: nat,
                        returnDraws1: seq<seq<real>>, returnDraws2: seq<seq<real>>,
                        raiseDraws1: seq<seq<real>>, raiseDraws2: seq<seq<real>>, c: nat, i: nat)
    requires IsMatrix(returnDraws1, 12 * nYears + 12, nSimulations) && IsMatrix(returnDraws2, 12 * nYears + 12, nSimulations)
    requires IsMatrix(raiseDraws1, nYears, nSimulations) && IsMatrix(raiseDraws2, nYears, nSimulations)
    requires c < nSimulations && i <= 12 * nYears
    requires AgreeOn(returnDraws1, returnDraws2, c) && AgreeOn(raiseDraws1, raiseDraws2, c)
    ensures var rs1 := SampledReturns(returnMean, returnStdev, nYears, nSimulations, returnDraws1);
            var rs2 := SampledReturns(returnMean, returnStdev, nYears, nSimulations, returnDraws2);
            var gs1 := SampledRaises(raiseMean, raiseStdev, nYears, nSimulations, raiseDraws1);
            var gs2 := SampledRaises(raiseMean, raiseStdev, nYears, nSimulations, raiseDraws2);
            Balance(startCapital, rs1, monthlyContribution, gs1, c, i) == Balance(startCapital, rs2, monthlyContribution, gs2, c, i)
  {
    var rs1 := SampledReturns(returnMean, returnStdev, nYears, nSimulations, returnDraws1);
    var rs2 := SampledReturns(returnMean, returnStdev, nYears, nSimulations, returnDraws2);
    var gs1 := SampledRaises(raiseMean, raiseStdev, nYears, nSimulations, raiseDraws1);
    var gs2 := SampledRaises(raiseMean, raiseStdev, nYears, nSimulations, raiseDraws2);
    SimsMatrixOwnColumn(12 * nYears + 12, nSimulations, returnMean / 100.0 / 12.0, returnStdev / 100.0 / Sqrt12,
                        returnDraws1, returnDraws2, c);
    SimsMatrixOwnColumn(nYears, nSimulations, raiseMean / 100.0 + 1.0, raiseStdev / 100.0, raiseDraws1, raiseDraws2, c);
    BalanceOwnColumn(startCapital, rs1, rs2, monthlyContribution, gs1, gs2, c, i);
  }

  /** With both standard deviations zero the simulation is deterministic:
      every scenario has the same balances. */
  lemma GrowthDeterministicColumns(startCapital: real, returnMean: real, raiseMean: real, monthlyContribution: real,
                                   nYears: nat, nSimulations: nat, returnDraws: seq<seq<real>>, raiseDraws: seq<seq<real>>,
                                   c: nat, d: nat, i: nat)
    requires IsMatrix(returnDraws, 12 * nYears + 12, nSimulations) && IsMatrix(raiseDraws, nYears, nSimulations)
    requires c < nSimulations && d < nSimulations && i <= 12 * nYears
    ensures var rs := SampledReturns(returnMean, 0.0, nYears, nSimulations, returnDraws);
            var gs := SampledRaises(raiseMean, 0.0, nYears, nSimulations, raiseDraws);
            Balance(startCapital, rs, monthlyContribution, gs, c, i) == Balance(startCapital, rs, monthlyContribution, gs, d, i)
  {
    var rs := SampledReturns(returnMean, 0.0, nYears, nSimulations, returnDraws);
    var gs := SampledRaises(raiseMean, 0.0, nYears, nSimulations, raiseDraws);
    assert AllEqual(rs, returnMean / 100.0 / 12.0);
    assert AllEqual(gs, raiseMean / 100.0 + 1.0);
    AllEqualSameColumn(rs, returnMean / 100.0 / 12.0, c, d);
    AllEqualSameColumn(gs, raiseMean / 100.0 + 1.0, c, d);
    BalanceColumns(startCapital, rs, monthlyContribution, gs, c, d, i);
  }

  /** With a zero raise standard deviation, year k's contribution is the base
      contribution raised by exactly (1 + raise_mean/100) once per year. */
  lemma GrowthDeterministicContributions(raiseMean: real, monthlyContribution: real, nYears: nat, nSimulations: nat,
                                         raiseDraws: seq<seq<real>>, c: nat, k: nat)
    requires IsMatrix(raiseDraws, nYears, nSimulations) && c < nSimulations && k <= nYears
    ensures YearContribution(monthlyContribution, SampledRaises(raiseMean, 0.0, nYears, nSimulations, raiseDraws), c, k)
              == monthlyContribution * Pow(1.0 + raiseMean / 100.0, k)
  {
    var gs := SampledRaises(raiseMean, 0.0, nYears, nSimulations, raiseDraws);
    assert AllEqual(gs, raiseMean / 100.0 + 1.0);
    YearContributionFixedRaise(monthlyContribution, gs, c, k, raiseMean / 100.0 + 1.0);
    assert raiseMean / 100.0 + 1.0 == 1.0 + raiseMean / 100.0;
  }

  /** As written, a zero return (return_mean = 0 with return_stdev = 0) makes
      growth divide 0 by 0: every balance after the start is NaN. */
  lemma ZeroReturnIsNaN(startCapital: real, raiseMean: real, raiseStdev: real, monthlyContribution: real,
                        nYears: nat, nSimulations: nat, returnDraws: seq<seq<real>>, raiseDraws: seq<seq<real>>,
                        c: nat, i: nat)
    requires IsMatrix(returnDraws, 12 * nYears + 12, nSimulations) && IsMatrix(raiseDraws, nYears, nSimulations)
    requires c < nSimulations && 1 <= i <= 12 * nYears
    ensures Balance(startCapital, SampledReturns(0.0, 0.0, nYears, nSimulations, returnDraws), monthlyContribution,
                    SampledRaises(raiseMean, raiseStdev, nYears, nSimulations, raiseDraws), c, i) == None
  {
    var rs := SampledReturns(0.0, 0.0, nYears, nSimulations, returnDraws);
    assert rs[i - 1][c] == 0.0;
  }
}
