/**
 * withdrawal_simulation: capital drawn down month by month under sampled
 * returns, inflation and withdrawals; balances below zero become NaN and the
 * result is expressed in millions.
 */
module Drawdown {
  import opened Wrappers
  import opened Numeric
  import opened Sampler
  import Accumulation

  /** The fixed standard deviation of the sampled monthly withdrawal. */
  const WithdrawalStdev: real := 0.05

  /** The display unit of the result: millions. */
  const Million: real := 1000000.0

  /** withdrawal_simulation's reading of a mean: a value above 1 is a percent
      and is divided by 100, anything else is already a fraction. */
  function NormalizeMean(x: real): (r: real)
    ensures x > 1.0 ==> r * 100.0 == x
    ensures x <= 1.0 ==> r == x
  {
    if x > 1.0 then x / 100.0 else x
  }

  /** The monthly mean and standard deviation of a return or inflation rate:
      the mean normalised and divided by 12, the standard deviation (never
      divided by 100) divided by sqrt(12). */
  function MonthlyParameters(mean: real, stdev: real): (p: Moments)
    ensures p.mean * 12.0 == NormalizeMean(mean)
    ensures p.stdev * Sqrt12 == stdev
  {
    Moments(NormalizeMean(mean) / 12.0, stdev / Sqrt12)
  }

  /** The two simulators read the same inputs differently: for a mean above 1
      they agree, for a mean of at most 1 the drawdown's monthly mean is 100
      times the accumulation's, and its standard deviation is always 100
      times the accumulation's. */
  lemma NormalisationAsymmetry(mean: real, stdev: real)
    ensures var d, a := MonthlyParameters(mean, stdev), Accumulation.MonthlyReturnParameters(mean, stdev);
            (mean > 1.0 ==> d.mean == a.mean)
            && (mean <= 1.0 ==> d.mean == 100.0 * a.mean)
            && d.stdev == 100.0 * a.stdev
  {
  }

  /** The three sampled matrices, one row per month and one column per scenario. */
  datatype Paths = Paths(rates: seq<seq<real>>, inflation: seq<seq<real>>, withdrawals: seq<seq<real>>)

  /** The paths have at least j months and a column c. */
  predicate Covers(p: Paths, c: nat, j: nat) {
    j <= |p.rates| && j <= |p.inflation| && j <= |p.withdrawals|
    && HasColumn(p.rates, c) && HasColumn(p.inflation, c) && HasColumn(p.withdrawals, c)
  }

  /** Samples the monthly returns, inflation and withdrawals, n_months rows each. */
  function SampledPaths(returnMean: real, returnStdev: real, inflationMean: real, inflationStdev: real,
                        monthlyWithdrawal: real, nYears: nat, nSimulations: nat,
                        returnDraws: seq<seq<real>>, inflationDraws: seq<seq<real>>, withdrawalDraws: seq<seq<real>>): (p: Paths)
    requires IsMatrix(returnDraws, 12 * nYears, nSimulations) && IsMatrix(inflationDraws, 12 * nYears, nSimulations)
    requires IsMatrix(withdrawalDraws, 12 * nYears, nSimulations)
    ensures IsMatrix(p.rates, 12 * nYears, nSimulations) && IsMatrix(p.inflation, 12 * nYears, nSimulations)
    ensures IsMatrix(p.withdrawals, 12 * nYears, nSimulations)
  {
    var r := MonthlyParameters(returnMean, returnStdev);
    var i := MonthlyParameters(inflationMean, inflationStdev);
    Paths(SimsMatrix(12 * nYears, nSimulations, r.mean, r.stdev, returnDraws),
          SimsMatrix(12 * nYears, nSimulations, i.mean, i.stdev, inflationDraws),
          SimsMatrix(12 * nYears, nSimulations, monthlyWithdrawal, WithdrawalStdev, withdrawalDraws))
  }

  /** One month of drawdown on a balance b: growth by the return less
      inflation, then the withdrawal. */
  function Drawn(b: real, rate: real, inflation: real, withdrawal: real): real {
    b * (1.0 + rate - inflation) - withdrawal
  }

  /** The balance of scenario c after j months, before any cell is marked:
      each month it grows by the return less inflation and loses the withdrawal. */
  function Unmarked(start: real, p: Paths, c: nat, j: nat): real
    requires Covers(p, c, j)
  {
    if j == 0 then start
    else Drawn(Unmarked(start, p, c, j - 1), p.rates[j - 1][c], p.inflation[j - 1][c], p.withdrawals[j - 1][c])
  }

  /** One month on a cell: NaN stays NaN, a number grows by the return less
      inflation and loses the withdrawal. */
  function WithdrawStep(cell: Option<real>, rate: real, inflation: real, withdrawal: real): (r: Option<real>)
    ensures r.Some? <==> cell.Some?
    ensures r.Some? ==> r.value == Drawn(cell.value, rate, inflation, withdrawal)
  {
    match cell
    case None => None
    case Some(b) => Some(Drawn(b, rate, inflation, withdrawal))
  }

  /** sims[sims < 0] = NaN on one cell: a negative number becomes NaN. */
  function MarkNegative(cell: Option<real>): (r: Option<real>)
    ensures r.None? <==> cell.None? || cell.value < 0.0
    ensures r.Some? ==> r == cell && r.value >= 0.0
  {
    if cell.Some? && cell.value < 0.0 then None else cell
  }

  /** sims / 1000000 on one cell. */
  function ToMillions(cell: Option<real>): (r: Option<real>)
    ensures r.Some? <==> cell.Some?
    ensures r.Some? ==> r.value * Million == cell.value
  {
    match cell
    case None => None
    case Some(b) => Some(b / Million)
  }

  /** The cell of the result for scenario c after j months. */
  function Cell(start: real, p: Paths, c: nat, j: nat): Option<real>
    requires Covers(p, c, j)
  {
    ToMillions(MarkNegative(Some(Unmarked(start, p, c, j))))
  }

  /** A cell is NaN exactly when its balance is negative; otherwise it is that
      balance in millions, so no cell of the result is negative. */
  lemma CellMissingIff(start: real, p: Paths, c: nat, j: nat)
    requires Covers(p, c, j)
    ensures Cell(start, p, c, j).None? <==> Unmarked(start, p, c, j) < 0.0
    ensures Cell(start, p, c, j).Some? ==>
              Cell(start, p, c, j).value == Unmarked(start, p, c, j) / Million && Cell(start, p, c, j).value >= 0.0
  {
  }

  /** The balance after month j + 1 is one month of drawdown on the balance after month j. */
  lemma UnmarkedNext(start: real, p: Paths, c: nat, j: nat)
    requires Covers(p, c, j + 1)
    ensures Some(Unmarked(start, p, c, j + 1))
              == WithdrawStep(Some(Unmarked(start, p, c, j)), p.rates[j][c], p.inflation[j][c], p.withdrawals[j][c])
  {
  }

  /** A negative balance stays negative through a month whose growth factor
      1 + return - inflation is positive and whose withdrawal is not negative. */
  lemma DrawnNegative(b: real, rate: real, inflation: real, withdrawal: real)
    requires b < 0.0 && 1.0 + rate - inflation > 0.0 && withdrawal >= 0.0
    ensures Drawn(b, rate, inflation, withdrawal) < 0.0
  {
    var g := 1.0 + rate - inflation;
    ProductNegative(b, g);
    assert Drawn(b, rate, inflation, withdrawal) == b * g - withdrawal;
  }

  /** Every month from j to k of scenario c has a positive growth factor
      1 + return - inflation and a non-negative withdrawal. */
  predicate Sustained(p: Paths, c: nat, j: nat, k: nat)
    requires Covers(p, c, k)
  {
    forall m | j <= m < k :: 1.0 + p.rates[m][c] - p.inflation[m][c] > 0.0 && p.withdrawals[m][c] >= 0.0
  }

  /** Depletion is permanent only under a hypothesis the code does not
      enforce: if every month from j to k has a positive growth factor and a
      non-negative withdrawal, a scenario whose cell is NaN after month j is
      still NaN after month k. */
  lemma {:induction false} DepletionPersists(start: real, p: Paths, c: nat, j: nat, k: nat)
    requires j <= k && Covers(p, c, k)
    requires Sustained(p, c, j, k)
    requires Cell(start, p, c, j).None?
    ensures Cell(start, p, c, k).None?
  {
    if k > j {
      DepletionPersists(start, p, c, j, k - 1);
      DrawnNegative(Unmarked(start, p, c, k - 1), p.rates[k - 1][c], p.inflation[k - 1][c], p.withdrawals[k - 1][c]);
    }
  }

  /** Under the same hypothesis a balance that is zero or below stays zero or below. */
  lemma DrawnNonPositive(b: real, rate: real, inflation: real, withdrawal: real)
    requires b <= 0.0 && 1.0 + rate - inflation > 0.0 && withdrawal >= 0.0
    ensures Drawn(b, rate, inflation, withdrawal) <= 0.0
  {
    if b < 0.0 {
      DrawnNegative(b, rate, inflation, withdrawal);
    }
  }

  /** A scenario that has stopped paying out (its balance is zero or below)
      does not pay out again while the hypothesis of DepletionPersists holds. */
  lemma {:induction false} ExhaustionPersists(start: real, p: Paths, c: nat, j: nat, k: nat)
    requires j <= k && Covers(p, c, k)
    requires Sustained(p, c, j, k)
    requires Unmarked(start, p, c, j) <= 0.0
    ensures Unmarked(start, p, c, k) <= 0.0
  {
    if k > j {
      ExhaustionPersists(start, p, c, j, k - 1);
      DrawnNonPositive(Unmarked(start, p, c, k - 1), p.rates[k - 1][c], p.inflation[k - 1][c], p.withdrawals[k - 1][c]);
    }
  }

  /** Without that hypothesis a depleted scenario can recover: with no
      starting capital, no returns, no inflation and a zero mean withdrawal,
      withdrawal draws of 1 then -2 (a withdrawal of 0.05, then a deposit of
      0.1) make month 1 NaN and month 2 positive again. */
  lemma DepletionCanReverse()
    ensures var draws := seq(12, i requires 0 <= i < 12 => [if i == 0 then 1.0 else if i == 1 then -2.0 else 0.0]);
            var zeros := seq(12, i requires 0 <= i < 12 => [0.0]);
            var p := SampledPaths(0.0, 0.0, 0.0, 0.0, 0.0, 1, 1, zeros, zeros, draws);
            Covers(p, 0, 2) && Cell(0.0, p, 0, 1) == None && Cell(0.0, p, 0, 2) == Some(0.05 / Million)
  {
    var draws := seq(12, i requires 0 <= i < 12 => [if i == 0 then 1.0 else if i == 1 then -2.0 else 0.0]);
    var zeros := seq(12, i requires 0 <= i < 12 => [0.0]);
    var p := SampledPaths(0.0, 0.0, 0.0, 0.0, 0.0, 1, 1, zeros, zeros, draws);
    assert p.rates[0][0] == 0.0 && p.rates[1][0] == 0.0;
    assert p.inflation[0][0] == 0.0 && p.inflation[1][0] == 0.0;
    assert p.withdrawals[0][0] == 0.05 && p.withdrawals[1][0] == -0.1;
    assert Unmarked(0.0, p, 0, 1) == -0.05;
    assert Unmarked(0.0, p, 0, 2) == 0.05;
  }

  /** A negative balance turns positive through a month whose growth factor
      1 + return - inflation is negative, unless the withdrawal absorbs it. */
  lemma DrawnFlipsSign(b: real, rate: real, inflation: real, withdrawal: real)
    requires b < 0.0 && 1.0 + rate - inflation < 0.0 && withdrawal < b * (1.0 + rate - inflation)
    ensures Drawn(b, rate, inflation, withdrawal) > 0.0
  {
  }

  /** A standard deviation given in percent, which withdrawal_simulation never
      divides by 100, makes such a month ordinary: from a capital of 1000 with
      a monthly withdrawal of 2000, no return and no inflation on average and
      a return standard deviation of 20, month 1 is -1000 (NaN), and a return
      draw of -1 in month 2 (a monthly return of about -577%) makes month 2
      about 2773.5, a positive cell. */
  lemma PercentStdevRevives()
    ensures var rateDraws := seq(12, i requires 0 <= i < 12 => [if i == 1 then -1.0 else 0.0]);
            var zeros := seq(12, i requires 0 <= i < 12 => [0.0]);
            var p := SampledPaths(0.0, 20.0, 0.0, 0.0, 2000.0, 1, 1, rateDraws, zeros, zeros);
            Covers(p, 0, 2) && Cell(1000.0, p, 0, 1) == None && Cell(1000.0, p, 0, 2).Some? && Cell(1000.0, p, 0, 2).value > 0.0
  {
    var rateDraws := seq(12, i requires 0 <= i < 12 => [if i == 1 then -1.0 else 0.0]);
    var zeros := seq(12, i requires 0 <= i < 12 => [0.0]);
    var p := SampledPaths(0.0, 20.0, 0.0, 0.0, 2000.0, 1, 1, rateDraws, zeros, zeros);
    assert p.rates[0][0] == 0.0 && p.inflation[0][0] == 0.0 && p.withdrawals[0][0] == 2000.0;
    assert p.rates[1][0] == -1.0 * (20.0 / Sqrt12);
    assert p.inflation[1][0] == 0.0 && p.withdrawals[1][0] == 2000.0;
    assert Unmarked(1000.0, p, 0, 1) == -1000.0;
    assert 20.0 / Sqrt12 > 5.0;
    DrawnFlipsSign(-1000.0, p.rates[1][0], 0.0, 2000.0);
  }

  /** When the return equals inflation every month and the withdrawal is a
      constant w, the balance falls linearly: start - j * w. */
  lemma {:induction false} FlatDrawdown(start: real, p: Paths, c: nat, j: nat, w: real)
    requires Covers(p, c, j)
    requires forall m | 0 <= m < j :: p.rates[m][c] == p.inflation[m][c] && p.withdrawals[m][c] == w
    ensures Unmarked(start, p, c, j) == start - j as real * w
  {
    if j > 0 {
      FlatDrawdown(start, p, c, j - 1, w);
      assert Drawn(start - (j - 1) as real * w, p.rates[j - 1][c], p.inflation[j - 1][c], w)
          == start - (j - 1) as real * w - w;
    }
  }

  /** With equal return and inflation inputs and no noise, the sampled return
      and inflation of every month coincide. */
  lemma SampledRealReturnZero(mean: real, monthlyWithdrawal: real, nYears: nat, nSimulations: nat,
                              returnDraws: seq<seq<real>>, inflationDraws: seq<seq<real>>, withdrawalDraws: seq<seq<real>>)
    requires IsMatrix(returnDraws, 12 * nYears, nSimulations) && IsMatrix(inflationDraws, 12 * nYears, nSimulations)
    requires IsMatrix(withdrawalDraws, 12 * nYears, nSimulations)
    ensures var p := SampledPaths(mean, 0.0, mean, 0.0, monthlyWithdrawal, nYears, nSimulations,
                                  returnDraws, inflationDraws, withdrawalDraws);
            forall m, c | 0 <= m < 12 * nYears && 0 <= c < nSimulations :: p.rates[m][c] == p.inflation[m][c]
  {
  }

  /** With no real return and withdrawals of at most w a month, the balance
      after j months is at least start - j * w. */
  lemma {:induction false} BoundedDrawdown(start: real, p: Paths, c: nat, j: nat, w: real)
    requires Covers(p, c, j)
    requires forall m | 0 <= m < j :: p.rates[m][c] == p.inflation[m][c] && p.withdrawals[m][c] <= w
    ensures Unmarked(start, p, c, j) >= start - j as real * w
  {
    if j > 0 {
      BoundedDrawdown(start, p, c, j - 1, w);
      var b := Unmarked(start, p, c, j - 1);
      assert Drawn(b, p.rates[j - 1][c], p.inflation[j - 1][c], p.withdrawals[j - 1][c]) == b - p.withdrawals[j - 1][c];
    }
  }

  /** A capital that covers every withdrawal never runs out: with no real
      return and withdrawals of at most w a month, no cell is NaN while
      start >= j * w. */
  lemma SufficientCapitalSurvives(start: real, p: Paths, c: nat, j: nat, w: real)
    requires Covers(p, c, j) && start >= j as real * w
    requires forall m | 0 <= m < j :: p.rates[m][c] == p.inflation[m][c] && p.withdrawals[m][c] <= w
    ensures Cell(start, p, c, j).Some? && Cell(start, p, c, j).value >= (start - j as real * w) / Million
  {
    BoundedDrawdown(start, p, c, j, w);
  }

  /** A capital of 1,000,000 with no return, no inflation and a withdrawal of
      2,000 a month lasts the year: as long as no withdrawal draw exceeds 1000
      (a withdrawal above 2,050), every cell of the one-year result is a
      number of at least 0.9754 million. */
  lemma CapitalOutlastsYear(returnDraws: seq<seq<real>>, inflationDraws: seq<seq<real>>, withdrawalDraws: seq<seq<real>>,
                            j: nat)
    requires IsMatrix(returnDraws, 12, 1) && IsMatrix(inflationDraws, 12, 1) && IsMatrix(withdrawalDraws, 12, 1)
    requires forall m | 0 <= m < 12 :: withdrawalDraws[m][0] <= 1000.0
    requires j <= 12
    ensures var p := SampledPaths(0.0, 0.0, 0.0, 0.0, 2000.0, 1, 1, returnDraws, inflationDraws, withdrawalDraws);
            Covers(p, 0, j) && Cell(1000000.0, p, 0, j).Some? && Cell(1000000.0, p, 0, j).value >= 0.9754
  {
    var p := SampledPaths(0.0, 0.0, 0.0, 0.0, 2000.0, 1, 1, returnDraws, inflationDraws, withdrawalDraws);
    SampledRealReturnZero(0.0, 2000.0, 1, 1, returnDraws, inflationDraws, withdrawalDraws);
    assert forall m | 0 <= m < 12 :: p.withdrawals[m][0] <= 2050.0;
    SufficientCapitalSurvives(1000000.0, p, 0, j, 2050.0);
  }

  /** A scenario's balances depend only on its own column of the paths. */
  lemma {:induction false} UnmarkedColumns(start: real, p: Paths, c: nat, d: nat, j: nat)
    requires Covers(p, c, j) && Covers(p, d, j)
    requires forall m | 0 <= m < j ::
               p.rates[m][c] == p.rates[m][d] && p.inflation[m][c] == p.inflation[m][d] && p.withdrawals[m][c] == p.withdrawals[m][d]
    ensures Unmarked(start, p, c, j) == Unmarked(start, p, d, j)
  {
    if j > 0 {
      UnmarkedColumns(start, p, c, d, j - 1);
    }
  }

  /** Two scenarios whose draws agree have identical result columns. */
  lemma WithdrawalColumnsIndependent(startCapital: real, returnMean: real, returnStdev: real, inflationMean: real,
                                     inflationStdev: real, monthlyWithdrawal: real, nYears: nat, nSimulations: nat,
                                     returnDraws: seq<seq<real>>, inflationDraws: seq<seq<real>>, withdrawalDraws: seq<seq<real>>,
                                     c: nat, d: nat, j: nat)
    requires IsMatrix(returnDraws, 12 * nYears, nSimulations) && IsMatrix(inflationDraws, 12 * nYears, nSimulations)
    requires IsMatrix(withdrawalDraws, 12 * nYears, nSimulations)
    requires c < nSimulations && d < nSimulations && j <= 12 * nYears
    requires SameColumn(returnDraws, c, d) && SameColumn(inflationDraws, c, d) && SameColumn(withdrawalDraws, c, d)
    ensures var p := SampledPaths(returnMean, returnStdev, inflationMean, inflationStdev, monthlyWithdrawal, nYears,
                                  nSimulations, returnDraws, inflationDraws, withdrawalDraws);
            Covers(p, c, j) && Covers(p, d, j) && Cell(startCapital, p, c, j) == Cell(startCapital, p, d, j)
  {
    var p := SampledPaths(returnMean, returnStdev, inflationMean, inflationStdev, monthlyWithdrawal, nYears,
                          nSimulations, returnDraws, inflationDraws, withdrawalDraws);
    UnmarkedColumns(startCapital, p, c, d, j);
  }

  /** A scenario's balances depend only on its own column of the paths:
      two sets of paths that agree on column c give scenario c the same
      balances, whatever the other columns hold. */
  lemma {:induction false} UnmarkedOwnColumn(start: real, p: Paths, q: Paths, c: nat, j: nat)
    requires Covers(p, c, j) && Covers(q, c, j)
    requires forall m | 0 <= m < j ::
               p.rates[m][c] == q.rates[m][c] && p.inflation[m][c] == q.inflation[m][c] && p.withdrawals[m][c] == q.withdrawals[m][c]
    ensures Unmarked(start, p, c, j) == Unmarked(start, q, c, j)
  {
    if j > 0 {
      UnmarkedOwnColumn(start, p, q, c, j - 1);
    }
  }

  /** Column c of the result depends only on column c of the draws: two runs
      whose draws differ only in other scenarios agree on scenario c. */
  lemma WithdrawalOwnColumn(startCapital: real, returnMean: real, returnStdev: real, inflationMean: real,
                            inflationStdev: real, monthlyWithdrawal: real, nYears: nat, nSimulations: nat,
                            returnDraws1: seq<seq<real>>, inflationDraws1: seq<seq<real>>, withdrawalDraws1: seq<seq<real>>,
                            returnDraws2: seq<seq<real>>, inflationDraws2: seq<seq<real>>, withdrawalDraws2: seq<seq<real>>,
                            c: nat, j: nat)
    requires IsMatrix(returnDraws1, 12 * nYears, nSimulations) && IsMatrix(inflationDraws1, 12 * nYears, nSimulations)
    requires IsMatrix(withdrawalDraws1, 12 * nYears, nSimulations)
    requires IsMatrix(returnDraws2, 12 * nYears, nSimulations) && IsMatrix(inflationDraws2, 12 * nYears, nSimulations)
    requires IsMatrix(withdrawalDraws2, 12 * nYears, nSimulations)
    requires c < nSimulations && j <= 12 * nYears
    requires AgreeOn(returnDraws1, returnDraws2, c) && AgreeOn(inflationDraws1, inflationDraws2, c)
    requires AgreeOn(withdrawalDraws1, withdrawalDraws2, c)
    ensures var p := SampledPaths(returnMean, returnStdev, inflationMean, inflationStdev, monthlyWithdrawal, nYears,
                                  nSimulations, returnDraws1, inflationDraws1, withdrawalDraws1);
            var q := SampledPaths(returnMean, returnStdev, inflationMean, inflationStdev, monthlyWithdrawal, nYears,
                                  nSimulations, returnDraws2, inflationDraws2, withdrawalDraws2);
            Covers(p, c, j) && Covers(q, c, j) && Cell(startCapital, p, c, j) == Cell(startCapital, q, c, j)
  {
    var p := SampledPaths(returnMean, returnStdev, inflationMean, inflationStdev, monthlyWithdrawal, nYears,
                          nSimulations, returnDraws1, inflationDraws1, withdrawalDraws1);
    var q := SampledPaths(returnMean, returnStdev, inflationMean, inflationStdev, monthlyWithdrawal, nYears,
                          nSimulations, returnDraws2, inflationDraws2, withdrawalDraws2);
    UnmarkedOwnColumn(startCapital, p, q, c, j);
  }

  /** sims[j + 1, :] = sims[j, :] * (1 + returns[j, :] - inflation[j, :]) - withdrawals[j, :]:
      row j + 1 becomes one month of drawdown on row j; no other row changes. */
  method WithdrawMonth(sims: array2<Option<real>>, j: nat, p: Paths)
    requires j + 1 < sims.Length0 && j < |p.rates| && j < |p.inflation| && j < |p.withdrawals|
    requires |p.rates[j]| == sims.Length1 && |p.inflation[j]| == sims.Length1 && |p.withdrawals[j]| == sims.Length1
    modifies sims
    ensures forall i, c | 0 <= i < sims.Length0 && i != j + 1 && 0 <= c < sims.Length1 ::
              sims[i, c] == old(sims[i, c])
    ensures forall c | 0 <= c < sims.Length1 ::
              sims[j + 1, c] == WithdrawStep(old(sims[j, c]), p.rates[j][c], p.inflation[j][c], p.withdrawals[j][c])
  {
    var next := j + 1;
    for c := 0 to sims.Length1
      invariant forall i, d | 0 <= i < sims.Length0 && i != next && 0 <= d < sims.Length1 ::
                  sims[i, d] == old(sims[i, d])
      invariant forall d | 0 <= d < c ::
                  sims[next, d] == WithdrawStep(old(sims[j, d]), p.rates[j][d], p.inflation[j][d], p.withdrawals[j][d])
    {
      sims[next, c] := WithdrawStep(sims[j, c], p.rates[j][c], p.inflation[j][c], p.withdrawals[j][c]);
    }
  }

  /** sims[sims < 0] = NaN, in place over the whole matrix. */
  method MarkDepleted(sims: array2<Option<real>>)
    modifies sims
    ensures forall i, c | 0 <= i < sims.Length0 && 0 <= c < sims.Length1 :: sims[i, c] == MarkNegative(old(sims[i, c]))
  {
    for i := 0 to sims.Length0
      invariant forall k, c | 0 <= k < i && 0 <= c < sims.Length1 :: sims[k, c] == MarkNegative(old(sims[k, c]))
      invariant forall k, c | i <= k < sims.Length0 && 0 <= c < sims.Length1 :: sims[k, c] == old(sims[k, c])
    {
      for c := 0 to sims.Length1
        invariant forall k, d | 0 <= k < i && 0 <= d < sims.Length1 :: sims[k, d] == MarkNegative(old(sims[k, d]))
        invariant forall k, d | i < k < sims.Length0 && 0 <= d < sims.Length1 :: sims[k, d] == old(sims[k, d])
        invariant forall d | 0 <= d < c :: sims[i, d] == MarkNegative(old(sims[i, d]))
        invariant forall d | c <= d < sims.Length1 :: sims[i, d] == old(sims[i, d])
      {
        sims[i, c] := MarkNegative(sims[i, c]);
      }
    }
  }

  /** The balance matrix before marking: n_months + 1 rows filled from the
      starting capital, row j + 1 one month of drawdown on row j. */
  method SimulateDrawdown(startCapital: real, p: Paths, nYears: nat, nSimulations: nat)
    returns (sims: array2<Option<real>>)
    requires IsMatrix(p.rates, 12 * nYears, nSimulations) && IsMatrix(p.inflation, 12 * nYears, nSimulations)
    requires IsMatrix(p.withdrawals, 12 * nYears, nSimulations)
    ensures fresh(sims)
    ensures sims.Length0 == 12 * nYears + 1 && sims.Length1 == nSimulations
    ensures forall i, c | 0 <= i < sims.Length0 && 0 <= c < nSimulations ::
              Covers(p, c, i) && sims[i, c] == Some(Unmarked(startCapital, p, c, i))
  {
    sims := new Option<real>[12 * nYears + 1, nSimulations]((_, _) => Some(startCapital));
    for j := 0 to 12 * nYears
      modifies sims
      invariant forall i, c | 0 <= i <= 12 * nYears && 0 <= c < nSimulations :: Covers(p, c, i)
      invariant forall i, c {:trigger sims[i, c]} | 0 <= i <= j && 0 <= c < nSimulations ::
                  sims[i, c] == Some(Unmarked(startCapital, p, c, i))
    {
      WithdrawMonth(sims, j, p);
      var next := j + 1;
      forall c | 0 <= c < nSimulations
        ensures Covers(p, c, next) && sims[next, c] == Some(Unmarked(startCapital, p, c, next))
      {
        UnmarkedNext(startCapital, p, c, j);
      }
    }
  }

  /** withdrawal_simulation: the paths are sampled, n_months + 1 rows of
      balances simulated, negative balances set to NaN and everything
      expressed in millions. */
  method WithdrawalSimulation(startCapital: real, returnMean: real, returnStdev: real, inflationMean: real,
                              inflationStdev: real, monthlyWithdrawal: real, nYears: nat, nSimulations: nat,
                              returnDraws: seq<seq<real>>, inflationDraws: seq<seq<real>>, withdrawalDraws: seq<seq<real>>)
    returns (table: array2<Option<real>>)
    requires IsMatrix(returnDraws, 12 * nYears, nSimulations) && IsMatrix(inflationDraws, 12 * nYears, nSimulations)
    requires IsMatrix(withdrawalDraws, 12 * nYears, nSimulations)
    ensures fresh(table)
    ensures table.Length0 == 12 * nYears + 1 && table.Length1 == nSimulations
    ensures var p := SampledPaths(returnMean, returnStdev, inflationMean, inflationStdev, monthlyWithdrawal, nYears,
                                  nSimulations, returnDraws, inflationDraws, withdrawalDraws);
            forall i, c | 0 <= i < table.Length0 && 0 <= c < nSimulations ::
              Covers(p, c, i) && table[i, c] == Cell(startCapital, p, c, i)
  {
    var p := SampledPaths(returnMean, returnStdev, inflationMean, inflationStdev, monthlyWithdrawal, nYears,
                          nSimulations, returnDraws, inflationDraws, withdrawalDraws);
    var sims := SimulateDrawdown(startCapital, p, nYears, nSimulations);
    MarkDepleted(sims);
    table := new Option<real>[12 * nYears + 1, nSimulations](
      (i, c) reads sims requires 0 <= i < 12 * nYears + 1 && 0 <= c < nSimulations => ToMillions(sims[i, c]));
  }
}
