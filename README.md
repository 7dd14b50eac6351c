# Retirement simulation: a verified model of the Monte-Carlo core of investpy.py

The retirement simulator projects savings in two phases, both as Monte-Carlo
tables with one row per month and one column per scenario.

- **Accumulation** (`growth_simulation`). The monthly return is sampled for every
  month. The monthly contribution is raised once a year by a sampled raise
  factor. Each month's balance is the compounding step `growth` with `n = 1`
  applied to the previous month's balance.
- **Drawdown** (`withdrawal_simulation`). Each month the capital is multiplied
  by 1 + return − inflation, using the sampled return and inflation, and then
  a sampled withdrawal is taken out. Negative balances become NaN and the table is expressed in
  millions.
- **Survival percentage** (line 212 of `withdrawal_plot`). For each month, this
  is the percentage of scenarios whose balance is still above zero.

The model is written in Dafny:

- `sampler.dfy`: `sims_matrix` as a pure function of a matrix of standard-normal draws.
- `numeric.dfy`: exact-arithmetic stand-ins for `np.round(x, 2)` (nearest cent,
  ties to even), integer powers, geometric sums and `np.sqrt(12)` as 3.4641016151377544, the
  shortest decimal that rounds to numpy's float64 value.
- `compounding.dfy`: `growth`, with NaN as `None`.
- `accumulation.dfy`: `growth_simulation`. The contribution table and the
  balance loop are methods over `array2`, proved against the recursive
  specification functions `YearContribution`, `ScheduleAt` and `Balance`.
- `drawdown.dfy`: `withdrawal_simulation`. The balance loop and the in-place
  NaN marking are methods over `array2`, proved against `Unmarked` and `Cell`.
- `survival.dfy`: the survival percentage of a result row.

Random numbers are an input. Each simulation takes the draws that
`np.random.randn` would have produced, as `rows x cols` matrices of reals.
Sampling is then `mean + draw * stdev`, exactly as at investpy.py:11. A cell
that numpy would hold as NaN is `None` of `Option<real>`.

Some behaviours of the code differ from what a reader might expect. The
model follows the code:

- Zero rate in `growth`. One might expect a zero rate to give
  `principal + contribution * n`. The code divides by `rate / n` without a
  guard, so numpy produces NaN. `Compounding.Growth` returns `None` exactly
  when the rate is zero. `Accumulation.ZeroReturnIsNaN` shows that a zero
  return makes every later balance NaN, so a run with `return_mean = 0` and
  `return_stdev = 0` is NaN after the first row.
- Depletion is not permanent. One might expect a depleted drawdown scenario
  to stay missing. The code marks negative cells only after the whole
  recurrence, so a later month can be positive again.
  - `Drawdown.DepletionCanReverse` gives a case with ordinary withdrawal draws (a negative withdrawal).
  - `Drawdown.PercentStdevRevives` gives the case that matters in use, with an
    ordinary withdrawal of 2000 a month. A negative balance b can flip sign when
    `1 + r - i < 0` and `b * (1 + r - i)` is larger than that month's withdrawal
    (`Drawdown.DrawnFlipsSign`). A negative growth factor is common when a caller
    passes a standard deviation in percent, because withdrawal_simulation never
    divides it by 100 (investpy.py:145, 147).
  - `Drawdown.DepletionPersists` proves permanence under the hypothesis that every
    growth factor `1 + r - i` is positive and every withdrawal is non-negative.
- Survival counts balances above zero. A balance of exactly zero counts as not
  paying out, and so does a NaN cell.
- Different percent conventions. `growth_simulation` divides all four percent
  inputs by 100. `withdrawal_simulation` divides the two means by 100 only
  when they exceed 1, and never divides the standard deviations.
  `Drawdown.NormalisationAsymmetry` states the difference.

## Model

| member | source | states |
|---|---|---|
| Sampler.SimsMatrix | investpy.py:7-12 | the sample has `rows` rows of `cols` entries, and entry (i, j) is `mean + draws[i][j] * stdev` |
| Sampler.SimsMatrixDegenerate | investpy.py:10-12 | with a zero standard deviation every entry equals the mean, whatever the draws |
| Sampler.SimsMatrixColumns | investpy.py:10-11 | two columns of the sample are equal whenever the same two columns of the draws are |
| Sampler.SimsMatrixOwnColumn | investpy.py:10-11 | two draw matrices that agree on column c give samples that agree on column c, whatever the other columns hold |
| Numeric.RoundHalfEven | investpy.py:29 | the chosen integer is within 1/2 of its argument, and an exact tie goes to the even integer |
| Numeric.Round2 | investpy.py:29 | `np.round(x, 2)`: the result is a whole number of cents, within half a cent of x, and a half-cent tie goes to the even cent |
| Numeric.Round2Cents | investpy.py:29 | rounding an amount already in whole cents leaves it unchanged |
| Numeric.PowMinusOne | investpy.py:27-28 | `q^k - 1 == (q - 1) * (1 + q + … + q^(k-1))`, the identity behind the contribution factor `((1 + i)^n - 1) / i` |
| Compounding.Growth | investpy.py:14-29 | the step is NaN exactly when the rate is zero (the unguarded division by `rate / n`) |
| Compounding.Unrounded | investpy.py:27-28 | the unrounded step, compound interest plus the contribution factor `((1 + i)^n - 1) / i`, equals the annuity future value: the principal grows by `q^n` and the n contributions by `q^(n-1) … q^0`, with `q = 1 + rate/n` |
| Compounding.GrowthAnnuity | investpy.py:26-29 | for a non-zero rate the step is the annuity future value with `q = 1 + rate/n`, rounded once to cents |
| Compounding.GrowthSinglePeriod | investpy.py:26-29 | with `n = 1` the step is `Round2(principal * (1 + rate) + contribution)` |
| Compounding.GrowthExample | investpy.py:26-29 | 1000 at 5% for one period with no contribution is exactly 1050.00 |
| Accumulation.MonthlyReturnParameters | investpy.py:51-60 | the monthly mean times 1200 is the annual percent mean, and the monthly standard deviation times `100 * sqrt(12)` is the annual percent standard deviation |
| Accumulation.SampledReturns | investpy.py:63-67 | the monthly returns have `n_months + 12` rows and `n_simulations` columns |
| Accumulation.SampledRaises | investpy.py:68-72 | the raise factors have `n_years` rows and `n_simulations` columns |
| Accumulation.YearContribution | investpy.py:75-78 | year k's monthly contribution of scenario c: the base contribution in year 0, and year k - 1's contribution times raise factor k - 1 of column c after that; `AnnualContributions`, `YearContributionFixedRaise` and `YearContributionColumns` state its properties |
| Accumulation.ScheduleAt | investpy.py:79-80 | row r of the contribution schedule: 0 in row 0, then year `(r - 1) / 12`'s contribution; `ContributionSchedule` and `ScheduleYearMonths` state its properties |
| Accumulation.MonthStep | investpy.py:84-88 | one month of growth on a cell is a number exactly when the cell is a number and the return is non-zero |
| Accumulation.MonthStepValue | investpy.py:85-88 | on a number with a non-zero return, one month is `Round2(b * (1 + rate) + contribution)` |
| Accumulation.Balance | investpy.py:83-88 | the balance of scenario c after j months: the starting capital, then one `MonthStep` a month at that month's return and scheduled contribution; `SimulateBalances`, `BalanceRecurrence`, `BalanceDefined` and `BalanceColumns` state its properties |
| Accumulation.RaiseYear | investpy.py:77-78 | row j + 1 of the contribution table becomes row j times year j's raise factors, column by column, and no other row changes |
| Accumulation.AnnualContributions | investpy.py:75-78 | the table has `n_years + 1` rows, and entry (k, c) is year k's contribution `YearContribution(…, c, k)`: the base contribution multiplied by raise factors 0 … k-1 of column c |
| Accumulation.ContributionSchedule | investpy.py:75-80 | the schedule has `12 * (n_years + 1) + 1` rows, row 0 is all zeros, and row r is `ScheduleAt(…, r)` |
| Accumulation.ScheduleYearMonths | investpy.py:79-80 | schedule rows `12k + 1 … 12k + 12` all carry year k's contribution |
| Accumulation.YearContributionFixedRaise | investpy.py:77-78 | when every raise factor of a scenario is g, year k's contribution is `monthly * g^k` |
| Accumulation.YearContributionColumns | investpy.py:78 | scenarios with the same raise factors have the same contributions every year |
| Accumulation.YearContributionOwnColumn | investpy.py:77-78 | a scenario's contributions depend only on its own column of raise factors: two raise matrices that agree on column c give it the same contributions every year |
| Accumulation.GrowMonth | investpy.py:84-88 | row j + 1 of the balances becomes one month of growth on row j, at return row j and schedule row j + 1, and no other row changes |
| Accumulation.BalanceNext | investpy.py:84-88 | the balance after month j + 1 is one month of growth on the balance after month j; every index used lies within the returns and the schedule |
| Accumulation.SimulateBalances | investpy.py:83-88 | the untrimmed balances have `n_months + 12` rows, and cell (i, c) is `Balance(…, c, i)` |
| Accumulation.GrowthSimulation | investpy.py:32-90 | the result has exactly `12 * n_years + 1` rows and `n_simulations` columns, row 0 is the starting capital in every column, and cell (i, c) is the balance of scenario c after i months under the sampled returns and raises |
| Accumulation.BalanceRecurrence | investpy.py:84-88 | while a balance is a number and the return non-zero, the next month is `Round2(b * (1 + return) + contribution)` with that month's scheduled contribution |
| Accumulation.BalanceDefined | investpy.py:84-88 | a balance is a number exactly when no earlier month of that scenario had a zero return |
| Accumulation.BalanceColumns | investpy.py:85-88 | scenarios with equal returns and raise factors have equal balances |
| Accumulation.GrowthColumnsIndependent | investpy.py:63-88 | two scenarios of one run whose draws are equal have equal balances |
| Accumulation.BalanceOwnColumn | investpy.py:84-88 | a scenario's balances depend only on its own column of returns and raise factors: changing any other scenario's column leaves them unchanged |
| Accumulation.GrowthOwnColumn | investpy.py:63-88 | column c of the result depends only on column c of the return and raise draws: two runs whose draws agree on column c agree on scenario c's balances, so columns are simulated independently |
| Accumulation.GrowthDeterministicColumns | investpy.py:63-88 | with both standard deviations zero, every scenario has the same balances |
| Accumulation.GrowthDeterministicContributions | investpy.py:68-78 | with a zero raise standard deviation, year k's contribution is `monthly * (1 + raise_mean/100)^k` |
| Accumulation.ZeroReturnIsNaN | investpy.py:26-29 | with a zero return mean and standard deviation, every balance after the start is NaN |
| Drawdown.NormalizeMean | investpy.py:137-140 | a mean above 1 is read as a percent (the result times 100 is the input), and any other mean is kept as it is |
| Drawdown.MonthlyParameters | investpy.py:137-147 | the monthly mean times 12 is the normalised mean, and the monthly standard deviation times `sqrt(12)` is the annual one, never divided by 100 |
| Drawdown.NormalisationAsymmetry | investpy.py:137-147 | compared with growth_simulation's conversion, the drawdown's monthly mean is the same for a mean above 1 and 100 times larger otherwise, and its monthly standard deviation is always 100 times larger |
| Drawdown.SampledPaths | investpy.py:150-164 | the returns, inflation and withdrawals each have `n_months` rows and `n_simulations` columns |
| Drawdown.Drawn | investpy.py:169-173 | one month of drawdown on a balance: `b * (1 + r - i) - w`; `DrawnNegative`, `DrawnNonPositive` and `DrawnFlipsSign` state how it moves the sign |
| Drawdown.Unmarked | investpy.py:167-173 | the balance of scenario c after j months before marking: the starting capital, then one `Drawn` a month; `SimulateDrawdown`, `UnmarkedNext` and the depletion lemmas state its properties |
| Drawdown.WithdrawStep | investpy.py:169-173 | one month on a cell: a number exactly when the cell is a number, and then `Drawn` of it |
| Drawdown.MarkNegative | investpy.py:176 | a cell becomes NaN exactly when it is NaN or negative, and is otherwise unchanged and non-negative |
| Drawdown.ToMillions | investpy.py:179 | a cell stays a number exactly when it is one, and then the result times 1,000,000 is the cell |
| Drawdown.Cell | investpy.py:175-179 | the result cell of scenario c after j months: the unmarked balance, marked and scaled; `CellMissingIff` states its properties |
| Drawdown.UnmarkedNext | investpy.py:168-173 | the balance after month j + 1 is `b * (1 + r[j] - i[j]) - w[j]` applied to the balance after month j |
| Drawdown.WithdrawMonth | investpy.py:168-173 | row j + 1 becomes one month of drawdown on row j, and no other row changes |
| Drawdown.SimulateDrawdown | investpy.py:166-173 | the balances have `n_months + 1` rows, and cell (i, c) is the unmarked balance of scenario c after i months |
| Drawdown.MarkDepleted | investpy.py:176 | every negative cell becomes NaN and every other cell is unchanged, in place |
| Drawdown.WithdrawalSimulation | investpy.py:120-181 | the result has `12 * n_years + 1` rows and `n_simulations` columns, and cell (i, c) is `Cell(…, c, i)` under the sampled paths |
| Drawdown.CellMissingIff | investpy.py:175-179 | a result cell is NaN exactly when its balance is negative; otherwise it is the balance divided by 1,000,000, so no result cell is negative |
| Drawdown.DrawnNegative | investpy.py:169-173 | a negative balance stays negative through a month with a positive growth factor and a non-negative withdrawal |
| Drawdown.DepletionPersists | investpy.py:167-176 | under that hypothesis for months j … k-1, a NaN cell after month j is still NaN after month k |
| Drawdown.DrawnNonPositive | investpy.py:169-173 | under the same hypothesis, a balance of zero or below stays zero or below for one month |
| Drawdown.ExhaustionPersists | investpy.py:167-173 | under the hypothesis, a scenario that has stopped paying out does not pay out again |
| Drawdown.DepletionCanReverse | investpy.py:167-176 | without the hypothesis, a depleted scenario can recover: from a start of 0 with withdrawal draws 1 then -2, month 1 is NaN and the month-2 cell is 0.05 / 1,000,000 (in millions) |
| Drawdown.DrawnFlipsSign | investpy.py:169-173 | a negative balance becomes positive in a month whose growth factor is negative, unless the withdrawal absorbs it |
| Drawdown.PercentStdevRevives | investpy.py:145-176 | from a capital of 1000 with a mean withdrawal of 2000 and a return standard deviation of 20 (a percent, which the code never divides by 100), month 1 is NaN and a return draw of -1 in month 2 makes the month-2 cell a positive number |
| Drawdown.FlatDrawdown | investpy.py:168-173 | when return equals inflation and the withdrawal is a constant w, the balance after j months is `start - j * w` |
| Drawdown.BoundedDrawdown | investpy.py:168-173 | when return equals inflation and withdrawals are at most w, the balance after j months is at least `start - j * w` |
| Drawdown.SampledRealReturnZero | investpy.py:143-159 | with equal return and inflation means and no noise, the sampled return and inflation of every month coincide |
| Drawdown.SufficientCapitalSurvives | investpy.py:167-179 | with no real return, withdrawals of at most w and `start >= j * w`, the cell after j months is a number of at least `(start - j * w) / 1,000,000` |
| Drawdown.CapitalOutlastsYear | investpy.py:150-179 | 1,000,000 with zero return and inflation and a 2,000 monthly withdrawal never goes missing within a year, as long as no withdrawal draw exceeds 1000; every cell is at least 0.9754 million |
| Drawdown.UnmarkedColumns | investpy.py:168-173 | scenarios with equal returns, inflation and withdrawals have equal balances |
| Drawdown.WithdrawalColumnsIndependent | investpy.py:150-179 | two scenarios of one run whose draws are equal have equal result cells |
| Drawdown.UnmarkedOwnColumn | investpy.py:168-173 | a scenario's balances depend only on its own column of returns, inflation and withdrawals: two sets of paths that agree on column c give it the same balances |
| Drawdown.WithdrawalOwnColumn | investpy.py:150-179 | column c of the result depends only on column c of the three draw matrices: two runs whose draws agree on column c have the same result cells in column c |
| Survival.Paying | investpy.py:212 | `nav_df > 0` on one cell: a number above zero; NaN compares false |
| Survival.CountPaying | investpy.py:212 | the number of paying cells of a row is at most the row's width |
| Survival.CountPayingExtremes | investpy.py:212 | no cell is counted exactly when no cell is above zero, and every cell exactly when all are |
| Survival.PercentAboveZero | investpy.py:212 | the percentage is NaN exactly when the row is empty; otherwise it lies in [0, 100] and times the width equals 100 times the number of cells above zero (NaN cells count as not paying) |
| Survival.PercentExtremes | investpy.py:212 | the percentage is 0 exactly when no scenario pays out and 100 exactly when all do |
| Survival.CountPayingMonotone | investpy.py:212 | if every paying cell of one row also pays in another row, the first row counts no more paying cells |
| Survival.PercentOfCounts | investpy.py:212 | fewer paying cells in a row of the same width give a percentage no larger |
| Survival.PercentMonotone | investpy.py:212 | the same ordering holds for the percentages |
| Survival.ResultRow | investpy.py:212 | a row of the withdrawal result has one cell per scenario, and cell c is `Drawdown.Cell(…, c, j)` |
| Survival.PayingCell | investpy.py:212 | a result cell counts as paying out exactly when its unmarked balance is positive |
| Survival.SurvivalNonIncreasing | investpy.py:212 | under the hypothesis of `Drawdown.DepletionPersists` for every scenario, the survival percentage of month k is at most that of month j, for j <= k |

## Left out

- Random sampling: `np.random.randn` (investpy.py:10) is replaced by a draws argument. Distributional properties (independence, normality) are outside the model.
- pandas: the `DataFrame` wrappers (investpy.py:90, 181) are left out, and results are plain `array2` tables.
- Row trimming: `sims[:-11, :]` at investpy.py:90 is modelled as a copy of the first `12 * n_years + 1` rows. numpy returns a view, so aliasing is not captured.
- Plotting: `growth_plot` and `withdrawal_plot` (investpy.py:93-117, 184-240) are left out except the percentage at line 212. This includes the axes, colours, thresholds, the 1986 age offset and the forward-filled histogram data at line 186.
- Wall clock: `pd.to_datetime('today')` (investpy.py:98) only labels a plot axis.
- Floating point: the model uses exact reals.
  - `np.round` is rounding of the exact value to the nearest cent, ties to even. It is not the float64 result of numpy's scale, round and unscale.
  - `np.sqrt(12)` is the decimal 3.4641016151377544, the shortest one that rounds to the float64 value; the exact float64 is 3.46410161513775438635…
  - Overflow to infinity and float cancellation are not captured.
- NaN from float arithmetic (`inf - inf`, `0 * inf`, overflow) is not modelled. The model produces `None` in three ways: the zero-rate division in `growth` (`Compounding.Growth`), the marking of negative balances (`Drawdown.MarkNegative`), and the 0/0 of an empty row's survival percentage (`Survival.PercentAboveZero`). `MonthStep` and `WithdrawStep` pass `None` on.
- Compounding.Growth: requires `n >= 1` and takes `n` as a natural number. The source accepts any `n` and only ever passes `n = 1`. With `n = 0` a scalar call would raise `ZeroDivisionError`. A call on numpy arrays would warn about the division by zero. For a non-zero rate it would return `np.round(principal, 2)`, because `(1 + inf) ** 0` is 1 and `0 / inf` is 0. For a zero rate it would return NaN. A non-integer `n` is not modelled.
- Compounding.Growth: models the element-wise numpy call, where a zero rate gives NaN. A call with plain Python floats and a zero rate would raise `ZeroDivisionError` instead.
- Invalid dimensions: dimensions are `nat`. numpy raises `ValueError` for a negative dimension, and that error path is not modelled. A zero dimension yields an empty table, as in numpy.
- Default arguments: the model takes `n_years` and `n_simulations` as explicit arguments. Leaving them out in the source is the same as passing 30 and 100.
- Drawdown.DepletionPersists: proves permanent depletion only under the stated hypothesis (positive growth factor, non-negative withdrawal). As written, the source does not guarantee it (see `Drawdown.DepletionCanReverse`).
- Survival.SurvivalNonIncreasing: holds only under the same hypothesis, for the same reason.
