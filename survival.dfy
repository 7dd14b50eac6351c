/**
 * The survival percentage of withdrawal_plot: for each month, the share of
 * scenarios whose balance is still above zero.
 */
module Survival {
  import opened Wrappers
  import opened Numeric
  import Drawdown

  /** nav_df > 0 on one cell: a NaN cell compares false, as does zero. */
  predicate Paying(cell: Option<real>) {
    cell.Some? && cell.value > 0.0
  }

  /** (row > 0).sum(): the number of paying cells of a row. */
  function CountPaying(row: seq<Option<real>>): (n: nat)
    ensures n <= |row|
  {
    if |row| == 0 then 0
    else CountPaying(row[..|row| - 1]) + (if Paying(row[|row| - 1]) then 1 else 0)
  }

  /** No cell is counted exactly when no scenario of the row pays out, and
      every cell is counted exactly when all of them do. */
  lemma {:induction false} CountPayingExtremes(row: seq<Option<real>>)
    ensures CountPaying(row) == 0 <==> (forall k | 0 <= k < |row| :: !Paying(row[k]))
    ensures CountPaying(row) == |row| <==> (forall k | 0 <= k < |row| :: Paying(row[k]))
  {
    if |row| > 0 {
      var init := row[..|row| - 1];
      CountPayingExtremes(init);
      assert forall k | 0 <= k < |init| :: init[k] == row[k];
    }
  }

  /** The survival percentage of a row: paying cells over all cells, times
      100. A row without scenarios divides zero by zero and is NaN. */
  function PercentAboveZero(row: seq<Option<real>>): (r: Option<real>)
    ensures r.None? <==> |row| == 0
    ensures r.Some? ==> 0.0 <= r.value <= 100.0
    ensures r.Some? ==> r.value * |row| as real == 100.0 * CountPaying(row) as real
  {
    if |row| == 0 then None
    else
      var n := CountPaying(row);
      var share := n as real / |row| as real;
      assert share * |row| as real == n as real;
      assert share <= 1.0 by {
        assert n as real <= |row| as real;
      }
      Some(share * 100.0)
  }

  /** The percentage is 0 exactly when no scenario pays out, and 100 exactly
      when all do. */
  lemma PercentExtremes(row: seq<Option<real>>)
    requires |row| > 0
    ensures PercentAboveZero(row) == Some(0.0) <==> (forall k | 0 <= k < |row| :: !Paying(row[k]))
    ensures PercentAboveZero(row) == Some(100.0) <==> (forall k | 0 <= k < |row| :: Paying(row[k]))
  {
    CountPayingExtremes(row);
    ScaledCount(PercentAboveZero(row).value, |row| as real, CountPaying(row) as real);
  }

  /** A percentage r of w items, r * w == 100 * n, is 0 exactly when n is 0
      and 100 exactly when n is w. */
  lemma ScaledCount(r: real, w: real, n: real)
    requires w > 0.0 && r * w == 100.0 * n
    ensures r == 0.0 <==> n == 0.0
    ensures r == 100.0 <==> n == w
  {
    if n == 0.0 {
      ProductZero(r, w);
    }
    if n == w {
      ProductZero(r - 100.0, w);
    }
  }

  /** A row in which every scenario that pays out also pays out in another
      row counts no more paying cells than that other row. */
  lemma {:induction false} CountPayingMonotone(a: seq<Option<real>>, b: seq<Option<real>>)
    requires |a| == |b|
    requires forall k | 0 <= k < |b| :: Paying(b[k]) ==> Paying(a[k])
    ensures CountPaying(b) <= CountPaying(a)
  {
    if |b| > 0 {
      CountPayingMonotone(a[..|a| - 1], b[..|b| - 1]);
    }
  }

  /** The same ordering for the percentages of two rows of equal width. */
  lemma PercentMonotone(a: seq<Option<real>>, b: seq<Option<real>>)
    requires |a| == |b| > 0
    requires forall k | 0 <= k < |b| :: Paying(b[k]) ==> Paying(a[k])
    ensures PercentAboveZero(b).value <= PercentAboveZero(a).value
  {
    CountPayingMonotone(a, b);
    PercentOfCounts(a, b);
  }

  /** Row j of the withdrawal result: the cell of every scenario after j months. */
  function ResultRow(start: real, p: Drawdown.Paths, nSimulations: nat, j: nat): (row: seq<Option<real>>)
    requires forall c | 0 <= c < nSimulations :: Drawdown.Covers(p, c, j)
    ensures |row| == nSimulations
    ensures forall c | 0 <= c < nSimulations :: row[c] == Drawdown.Cell(start, p, c, j)
  {
    seq(nSimulations, c requires 0 <= c < nSimulations => Drawdown.Cell(start, p, c, j))
  }

  /** A cell of the result counts as paying out exactly when its balance is positive. */
  lemma PayingCell(start: real, p: Drawdown.Paths, c: nat, j: nat)
    requires Drawdown.Covers(p, c, j)
    ensures Paying(Drawdown.Cell(start, p, c, j)) <==> Drawdown.Unmarked(start, p, c, j) > 0.0
  {
  }

  /** Under the hypothesis of Drawdown.DepletionPersists for every scenario,
      the survival percentage never rises from month j to month k. */
  lemma SurvivalNonIncreasing(start: real, p: Drawdown.Paths, nSimulations: nat, j: nat, k: nat)
    requires nSimulations > 0 && j <= k
    requires forall c | 0 <= c < nSimulations :: Drawdown.Covers(p, c, k) && Drawdown.Sustained(p, c, j, k)
    ensures forall c | 0 <= c < nSimulations :: Drawdown.Covers(p, c, j)
    ensures PercentAboveZero(ResultRow(start, p, nSimulations, k)).value
            <= PercentAboveZero(ResultRow(start, p, nSimulations, j)).value
  {
    forall c | 0 <= c < nSimulations
      ensures Drawdown.Covers(p, c, j)
    {
      assert Drawdown.Covers(p, c, k);
    }
    var before, after := ResultRow(start, p, nSimulations, j), ResultRow(start, p, nSimulations, k);
    forall c | 0 <= c < nSimulations && Paying(after[c])
      ensures Paying(before[c])
    {
      PayingCell(start, p, c, j);
      PayingCell(start, p, c, k);
      if Drawdown.Unmarked(start, p, c, j) <= 0.0 {
        Drawdown.ExhaustionPersists(start, p, c, j, k);
      }
    }
    PercentMonotone(before, after);
  }

  /** Fewer paying cells in a row of the same width give a smaller percentage. */
  lemma PercentOfCounts(a: seq<Option<real>>, b: seq<Option<real>>)
    requires |a| == |b| > 0 && CountPaying(b) <= CountPaying(a)
    ensures PercentAboveZero(b).value <= PercentAboveZero(a).value
  {
    var w, m, n := |a| as real, CountPaying(b) as real, CountPaying(a) as real;
    assert PercentAboveZero(b).value == m / w * 100.0;
    assert PercentAboveZero(a).value == n / w * 100.0;
    QuotientMonotone(m, n, w);
  }

  /** Dividing by a positive number keeps the order. */
  lemma QuotientMonotone(m: real, n: real, w: real)
    requires w > 0.0 && m <= n
    ensures m / w <= n / w
  {
  }
}
