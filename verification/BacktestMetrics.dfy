/** Backtest statistics (internal/backtest/metrics.go): PnL sums, exposure and the
    one-pass maximum drawdown. */
module BacktestMetrics {
  import opened Numeric
  import opened BacktestTypes

  datatype Metrics = Metrics(
    totalTrades: nat, winningTrades: nat, losingTrades: nat, winRate: real, netPnL: real,
    totalFeesPaid: real, expectancy: real, avgHoldingBars: real, exposurePct: real,
    maxDrawdownPct: real, totalBars: int)

  const NO_METRICS := Metrics(0, 0, 0, 0.0, 0.0, 0.0, 0.0, 0.0, 0.0, 0.0, 0)

  // ---- Maximum drawdown ----

  /** Equity after the first `k` trades. */
  function EquityAfter(trades: seq<Trade>, capital: real, k: nat): real
    requires k <= |trades|
  {
    capital + PnlSum(trades[..k])
  }

  /** The highest equity among the starting capital and the first `k` trades. */
  function PeakAfter(trades: seq<Trade>, capital: real, k: nat): real
    requires k <= |trades|
  {
    if k == 0 then capital
    else MaxReal(PeakAfter(trades, capital, k - 1), EquityAfter(trades, capital, k))
  }

  /** The fall from the running peak, as a fraction of the peak. */
  function DrawdownAt(trades: seq<Trade>, capital: real, k: nat): real
    requires k <= |trades|
  {
    var peak := PeakAfter(trades, capital, k);
    if peak > 0.0 then (peak - EquityAfter(trades, capital, k)) / peak else 0.0
  }

  function WorstDrawdown(trades: seq<Trade>, capital: real, k: nat): real
    requires k <= |trades|
  {
    if k == 0 then 0.0
    else MaxReal(WorstDrawdown(trades, capital, k - 1), DrawdownAt(trades, capital, k))
  }

  method CalcMaxDrawdown(trades: seq<Trade>, capital: real) returns (pct: real)
    ensures pct == WorstDrawdown(trades, capital, |trades|) * 100.0
  {
    if |trades| == 0 {
      return 0.0;
    }
    var cumulativePnL := 0.0;
    var peak := capital;
    var maxDD := 0.0;
    for k := 0 to |trades|
      invariant cumulativePnL == PnlSum(trades[..k])
      invariant peak == PeakAfter(trades, capital, k)
      invariant maxDD == WorstDrawdown(trades, capital, k)
      invariant maxDD >= 0.0
    {
      PnlSumPrefix(trades, k);
      cumulativePnL := cumulativePnL + trades[k].pnl;
      var equity := capital + cumulativePnL;
      if equity > peak {
        peak := equity;
      }
      if peak > 0.0 {
        var dd := (peak - equity) / peak;
        if dd > maxDD {
          maxDD := dd;
        }
      }
    }
    return maxDD * 100.0;
  }

  ghost predicate NeverNegative(trades: seq<Trade>, capital: real) {
    forall k: nat :: k <= |trades| ==> EquityAfter(trades, capital, k) >= 0.0
  }

  function Fall(trades: seq<Trade>, capital: real, i: nat, j: nat): real
    requires i <= |trades| && j <= |trades| && EquityAfter(trades, capital, i) != 0.0
  {
    var from := EquityAfter(trades, capital, i);
    (from - EquityAfter(trades, capital, j)) / from
  }

  /** The pairwise definition: `dd` is the largest relative fall from an earlier positive
      equity `i` to a later one `j`, the starting capital being equity number 0. */
  ghost predicate IsLargestFall(trades: seq<Trade>, capital: real, dd: real) {
    && (forall i: nat, j: nat :: i <= j <= |trades| && EquityAfter(trades, capital, i) > 0.0 ==>
          Fall(trades, capital, i, j) <= dd)
    && (exists i: nat, j: nat ::
          i <= j <= |trades| && EquityAfter(trades, capital, i) > 0.0 && Fall(trades, capital, i, j) == dd)
  }

  lemma QuotientShrinks(a: real, b: real, low: real, high: real, end: real)
    requires 0.0 < low <= high && 0.0 <= end && a * low == end && b * high == end
    ensures b <= a
  {
    MulStrict(high, 0.0, b);
    MulMono(b, low, high);
    MulStrict(low, b, a);
  }

  lemma SameQuotient(from: real, r: real, u: real, q: real, end: real)
    requires from > 0.0 && q * from == end && r * from == from - end && u == 1.0 - q
    ensures r == u
  {
    assert u * from == from - q * from;
    MulStrict(from, r, u);
    MulStrict(from, u, r);
  }

  lemma SplitFraction(from: real, end: real)
    requires from > 0.0
    ensures (from - end) / from == 1.0 - end / from
  {
    SameQuotient(from, (from - end) / from, 1.0 - end / from, end / from, end);
  }

  /** A fall is larger from a higher start, as long as the end is not below zero. */
  lemma FallGrowsWithStart(low: real, high: real, end: real)
    requires 0.0 < low <= high && 0.0 <= end
    ensures (low - end) / low <= (high - end) / high
  {
    QuotientShrinks(end / low, end / high, low, high, end);
    SplitFraction(low, end);
    SplitFraction(high, end);
  }

  /** The running peak is one of the equities so far and at least as high as each. */
  lemma {:induction false} PeakIsMax(trades: seq<Trade>, capital: real, k: nat) returns (at: nat)
    requires k <= |trades|
    ensures at <= k && PeakAfter(trades, capital, k) == EquityAfter(trades, capital, at)
    ensures forall i: nat :: i <= k ==> EquityAfter(trades, capital, i) <= PeakAfter(trades, capital, k)
  {
    if k == 0 {
      at := 0;
    } else {
      at := PeakIsMax(trades, capital, k - 1);
      if EquityAfter(trades, capital, k) > PeakAfter(trades, capital, k - 1) {
        at := k;
      }
    }
  }

  lemma {:induction false} WorstIsMax(trades: seq<Trade>, capital: real, k: nat) returns (at: nat)
    requires k <= |trades|
    ensures at <= k
    ensures WorstDrawdown(trades, capital, k) == (if at == 0 then 0.0 else DrawdownAt(trades, capital, at))
    ensures WorstDrawdown(trades, capital, k) >= 0.0
    ensures forall j: nat :: 0 < j <= k ==> DrawdownAt(trades, capital, j) <= WorstDrawdown(trades, capital, k)
  {
    if k == 0 {
      at := 0;
    } else {
      at := WorstIsMax(trades, capital, k - 1);
      if DrawdownAt(trades, capital, k) > WorstDrawdown(trades, capital, k - 1) {
        at := k;
      }
    }
  }

  /** Whatever the sign of the equities, the single pass never reports more than the pairwise
      maximum: its result is the fall between some pair, for a positive capital. */
  lemma WorstDrawdownIsAFall(trades: seq<Trade>, capital: real) returns (from: nat, at: nat)
    requires capital > 0.0
    ensures from <= at <= |trades| && EquityAfter(trades, capital, from) > 0.0
    ensures WorstDrawdown(trades, capital, |trades|) == Fall(trades, capital, from, at)
    ensures forall i: nat :: i <= at ==> EquityAfter(trades, capital, i) <= EquityAfter(trades, capital, from)
  {
    at := WorstIsMax(trades, capital, |trades|);
    from := PeakIsMax(trades, capital, at);
    assert EquityAfter(trades, capital, 0) == capital by {
      assert PnlSum(trades[..0]) == 0.0;
    }
  }

  /** From any positive start to any later equity that is not negative. */
  lemma FallAtMostWorst(trades: seq<Trade>, capital: real, i: nat, j: nat)
    requires i <= j <= |trades| && EquityAfter(trades, capital, i) > 0.0 && EquityAfter(trades, capital, j) >= 0.0
    ensures Fall(trades, capital, i, j) <= WorstDrawdown(trades, capital, |trades|)
  {
    var at := WorstIsMax(trades, capital, |trades|);
    var top := PeakIsMax(trades, capital, j);
    FallGrowsWithStart(
      EquityAfter(trades, capital, i), PeakAfter(trades, capital, j), EquityAfter(trades, capital, j));
    if j > 0 {
      assert Fall(trades, capital, i, j) <= DrawdownAt(trades, capital, j);
    } else {
      assert Fall(trades, capital, 0, 0) == 0.0;
    }
  }

  /** The single pass computes the pairwise maximum exactly when no fall that ends below zero
      exceeds its result. */
  lemma LargestFallExactly(trades: seq<Trade>, capital: real)
    requires capital > 0.0
    ensures var worst := WorstDrawdown(trades, capital, |trades|);
            IsLargestFall(trades, capital, worst) <==>
              forall i: nat, j: nat ::
                i <= j <= |trades| && EquityAfter(trades, capital, i) > 0.0 > EquityAfter(trades, capital, j) ==>
                  Fall(trades, capital, i, j) <= worst
  {
    hide WorstDrawdown, EquityAfter, Fall;
    var worst := WorstDrawdown(trades, capital, |trades|);
    var from, at := WorstDrawdownIsAFall(trades, capital);
    forall i: nat, j: nat |
      i <= j <= |trades| && EquityAfter(trades, capital, i) > 0.0 && EquityAfter(trades, capital, j) >= 0.0
      ensures Fall(trades, capital, i, j) <= worst
    {
      FallAtMostWorst(trades, capital, i, j);
    }
  }

  lemma FractionLost(from: real, end: real)
    requires from > 0.0 && end >= 0.0
    ensures (from - end) / from <= 1.0
    ensures (from - end) / from == 1.0 <==> end == 0.0
  {
    var q := (from - end) / from;
    assert q * from == from - end;
    MulStrict(from, q, 1.0);
    MulStrict(from, 1.0, q);
  }

  /** The single pass computes the pairwise maximum over every i <= j for every trade list that
      keeps equity from going below zero; the result is a fraction of at most one, and one
      exactly when the equity falls to zero. */
  lemma MaxDrawdownIsLargestFall(trades: seq<Trade>, capital: real)
    requires capital > 0.0 && NeverNegative(trades, capital)
    ensures IsLargestFall(trades, capital, WorstDrawdown(trades, capital, |trades|))
    ensures 0.0 <= WorstDrawdown(trades, capital, |trades|) <= 1.0
    ensures WorstDrawdown(trades, capital, |trades|) == 1.0 <==>
            exists k: nat :: k <= |trades| && EquityAfter(trades, capital, k) == 0.0
  {
    var n := |trades|;
    var worst := WorstDrawdown(trades, capital, n);
    var from, at := WorstDrawdownIsAFall(trades, capital);
    FractionLost(EquityAfter(trades, capital, from), EquityAfter(trades, capital, at));
    assert worst >= 0.0 by {
      var k := WorstIsMax(trades, capital, n);
    }
    LargestFallExactly(trades, capital);
    forall k: nat | k <= n && EquityAfter(trades, capital, k) == 0.0
      ensures worst == 1.0
    {
      assert EquityAfter(trades, capital, 0) == capital by {
        assert PnlSum(trades[..0]) == 0.0;
      }
      FractionLost(capital, 0.0);
      assert Fall(trades, capital, 0, k) <= worst;
    }
  }

  /** The precondition is needed: 10, then 20, then -10. From the peak the fall is 1.5,
      the pairwise maximum is 2, from the lower start. */
  lemma NegativeEquityBreaksPairwise(t: Trade)
    ensures var trades := [t.(pnl := 10.0), t.(pnl := -30.0)];
            WorstDrawdown(trades, 10.0, 2) == 1.5 && Fall(trades, 10.0, 0, 2) == 2.0
  {
    var trades := [t.(pnl := 10.0), t.(pnl := -30.0)];
    PnlSumPrefix(trades, 0);
    PnlSumPrefix(trades, 1);
    assert EquityAfter(trades, 10.0, 1) == 20.0;
    assert EquityAfter(trades, 10.0, 2) == -10.0;
    assert PeakAfter(trades, 10.0, 1) == 20.0;
    assert PeakAfter(trades, 10.0, 2) == 20.0;
    assert DrawdownAt(trades, 10.0, 1) == 0.0;
    assert DrawdownAt(trades, 10.0, 2) == 1.5;
    assert WorstDrawdown(trades, 10.0, 1) == 0.0;
    assert EquityAfter(trades, 10.0, 0) == 10.0;
  }

  // ---- The metrics of a run ----

  function Winners(trades: seq<Trade>): nat {
    if trades == [] then 0
    else
      var t := trades[|trades| - 1];
      Winners(trades[..|trades| - 1]) + if t.returnPct.Val? && t.returnPct.v > 0.0 then 1 else 0
  }

  function MetricsOf(trades: seq<Trade>, capital: real, totalBars: int, barsInMarket: int, fees: real): Metrics {
    if trades == [] then NO_METRICS.(totalFeesPaid := fees)
    else
      var n := |trades|;
      var wins := Winners(trades);
      Metrics(
        n, wins, if wins <= n then n - wins else 0,
        wins as real / n as real * 100.0,
        PnlSum(trades),
        fees,
        PnlSum(trades) / n as real,
        HoldingSum(trades) as real / n as real,
        if totalBars > 0 then barsInMarket as real / totalBars as real * 100.0 else 0.0,
        WorstDrawdown(trades, capital, n) * 100.0,
        totalBars)
  }

  lemma {:induction false} TotalsAreSums(trades: seq<Trade>)
    ensures var n := |trades|;
            && PnlSum(trades) == Sum(seq(n, k requires 0 <= k < n => trades[k].pnl), n)
            && HoldingSum(trades) as real
               == Sum(seq(n, k requires 0 <= k < n => trades[k].position.holdingBars as real), n)
  {
    if trades != [] {
      var n := |trades| - 1;
      TotalsAreSums(trades[..n]);
      SumAgrees(seq(n + 1, k requires 0 <= k < n + 1 => trades[k].pnl),
                seq(n, k requires 0 <= k < n => trades[..n][k].pnl), n);
      SumAgrees(seq(n + 1, k requires 0 <= k < n + 1 => trades[k].position.holdingBars as real),
                seq(n, k requires 0 <= k < n => trades[..n][k].position.holdingBars as real), n);
    }
  }

  lemma {:induction false} WinnersAreCounted(trades: seq<Trade>)
    ensures Winners(trades) == |set k: nat | k < |trades| && trades[k].returnPct.Val? && trades[k].returnPct.v > 0.0|
  {
    if trades != [] {
      var n := |trades| - 1;
      WinnersAreCounted(trades[..n]);
      var before := set k: nat | k < n && trades[..n][k].returnPct.Val? && trades[..n][k].returnPct.v > 0.0;
      var all := set k: nat | k < n + 1 && trades[k].returnPct.Val? && trades[k].returnPct.v > 0.0;
      assert all == if trades[n].returnPct.Val? && trades[n].returnPct.v > 0.0 then before + {n} else before;
    }
  }

  lemma QuotientBack(a: real, b: real)
    requires b != 0.0
    ensures (a / b) * b == a
    ensures (a / b * 100.0) * b == 100.0 * a
  {
    var q := a / b;
    assert q * b == a;
    assert (q * 100.0) * b == 100.0 * (q * b);
  }

  /** What the metrics say of a trade list: the PnL is the sum of the trades' PnL; winners are
      the trades with a positive return; the averages times the number of trades are the totals. */
  ghost predicate Measures(trades: seq<Trade>, totalBars: int, barsInMarket: int, fees: real, m: Metrics) {
    var n := |trades|;
    && m.totalTrades == n && m.winningTrades + m.losingTrades == n && m.totalFeesPaid == fees
    && m.winningTrades == |set k: nat | k < n && trades[k].returnPct.Val? && trades[k].returnPct.v > 0.0|
    && m.netPnL == Sum(seq(n, k requires 0 <= k < n => trades[k].pnl), n)
    && m.avgHoldingBars * n as real
       == Sum(seq(n, k requires 0 <= k < n => trades[k].position.holdingBars as real), n)
    && m.winRate * n as real == 100.0 * m.winningTrades as real
    && m.expectancy * n as real == m.netPnL
    && (n > 0 && totalBars > 0 ==> m.exposurePct * totalBars as real == 100.0 * barsInMarket as real)
    && (n == 0 || totalBars <= 0 ==> m.exposurePct == 0.0)
  }

  lemma {:induction false} WinnersFit(trades: seq<Trade>)
    ensures Winners(trades) <= |trades|
  {
    if trades != [] {
      WinnersFit(trades[..|trades| - 1]);
    }
  }

  lemma MetricsMean(trades: seq<Trade>, capital: real, totalBars: int, barsInMarket: int, fees: real)
    ensures Measures(trades, totalBars, barsInMarket, fees, MetricsOf(trades, capital, totalBars, barsInMarket, fees))
  {
    TotalsAreSums(trades);
    WinnersAreCounted(trades);
    WinnersFit(trades);
    hide Winners, PnlSum, HoldingSum, WorstDrawdown;
    if trades != [] {
      var n := |trades| as real;
      QuotientBack(Winners(trades) as real, n);
      QuotientBack(PnlSum(trades), n);
      QuotientBack(HoldingSum(trades) as real, n);
      if totalBars > 0 {
        QuotientBack(barsInMarket as real, totalBars as real);
      }
    }
  }

  method CalculateMetrics(trades: seq<Trade>, capital: real, totalBars: int, barsInMarket: int, fees: real)
    returns (m: Metrics)
    ensures m == MetricsOf(trades, capital, totalBars, barsInMarket, fees)
    ensures m.winningTrades + m.losingTrades == m.totalTrades == |trades|
    ensures Measures(trades, totalBars, barsInMarket, fees, m)
    ensures m.maxDrawdownPct == 100.0 * WorstDrawdown(trades, capital, |trades|)
  {
    hide Measures;
    MetricsMean(trades, capital, totalBars, barsInMarket, fees);
    m := NO_METRICS.(totalFeesPaid := fees);
    if |trades| == 0 {
      return;
    }
    var wins, losses, holding, net := 0, 0, 0, 0.0;
    for k := 0 to |trades|
      invariant wins == Winners(trades[..k]) && wins + losses == k
      invariant holding == HoldingSum(trades[..k])
      invariant net == PnlSum(trades[..k])
    {
      var t := trades[k];
      assert trades[..k + 1][..k] == trades[..k];
      holding := holding + t.position.holdingBars;
      net := net + t.pnl;
      if t.returnPct.Val? && t.returnPct.v > 0.0 {
        wins := wins + 1;
      } else {
        losses := losses + 1;
      }
    }
    assert trades[..|trades|] == trades;
    var n := |trades|;
    var dd := CalcMaxDrawdown(trades, capital);
    var exposure := 0.0;
    if totalBars > 0 {
      exposure := barsInMarket as real / totalBars as real * 100.0;
    }
    m := Metrics(
      n, wins, losses, wins as real / n as real * 100.0, net, fees, net / n as real,
      holding as real / n as real, exposure, dd, totalBars);
  }
}
