/** The indicators and feature rows by the formulas that define them, over candles and values
    alone: nothing here refers to how the columns are computed. */
module FeatureFormulas {
  import opened Numeric
  import opened MarketData
  import opened Market
  import opened Smoothing
  import opened Ema
  import opened Wilder
  import opened FlowFeatures
  import opened Features
  import OrderFlow

  // ---- Wilder's averages ----

  /** `avg` averages `vs` from index `p` on, where it starts with a `p`-th of `total`: afterwards
      the newest value counts once and the average before it p - 1 times. */
  ghost predicate AveragesFrom(vs: seq<real>, total: real, p: int, avg: seq<real>) {
    && |avg| == |vs|
    && (0 <= p < |vs| ==> p as real * avg[p] == total)
    && (forall i :: 0 <= p < i < |vs| ==> p as real * avg[i] == (p - 1) as real * avg[i - 1] + vs[i])
  }

  lemma DividesBack(d: real, x: real, y: real)
    requires d > 0.0 && d * x == y
    ensures y / d == x
  {
    QuotientOfProduct(x, d);
    assert x * d == y;
  }

  lemma {:induction false} AverageIs(vs: seq<real>, total: real, p: int, avg: seq<real>, i: nat)
    requires 1 <= p <= i < |vs| && AveragesFrom(vs, total, p, avg)
    ensures WilderAt(p, total / p as real, vs, p, i) == avg[i]
    decreases i
  {
    if i == p {
      DividesBack(p as real, avg[p], total);
    } else {
      AverageIs(vs, total, p, avg, i - 1);
      DividesBack(p as real, avg[i], (p - 1) as real * avg[i - 1] + vs[i]);
    }
  }

  lemma SeededIs(vs: seq<real>, p: int, avg: seq<real>, i: nat)
    requires 1 <= p <= i < |vs| && AveragesFrom(vs, Sum(vs, p), p, avg)
    ensures SeededAt(vs, p, i) == avg[i]
  {
    AverageIs(vs, Sum(vs, p), p, avg, i);
  }

  // ---- RSI ----

  /** The rises and the falls of the closes. */
  ghost predicate RisesAndFalls(closes: seq<real>, up: seq<real>, down: seq<real>) {
    && |up| == |down| == |closes|
    && (closes != [] ==> up[0] == 0.0 && down[0] == 0.0)
    && (forall k :: 1 <= k < |closes| ==>
          && up[k] == (if closes[k] > closes[k - 1] then closes[k] - closes[k - 1] else 0.0)
          && down[k] == (if closes[k] < closes[k - 1] then closes[k - 1] - closes[k] else 0.0))
  }

  lemma NoMoveFirst(closes: seq<real>)
    requires closes != []
    ensures Gains(closes)[0] == 0.0 && Losses(closes)[0] == 0.0
  {
  }

  lemma MovesAre(closes: seq<real>, up: seq<real>, down: seq<real>)
    requires RisesAndFalls(closes, up, down)
    ensures Gains(closes) == up && Losses(closes) == down
  {
    hide Gains, Losses;
    forall k | 0 <= k < |closes|
      ensures Gains(closes)[k] == up[k] && Losses(closes)[k] == down[k]
    {
      if k == 0 {
        NoMoveFirst(closes);
      } else {
        MoveAt(closes, k);
      }
    }
  }

  /** The RSI from index `p` on is 100 times the share of the average rise in both averages, and
      50 where both are zero; the averages start at `p` with the mean of the first `p` moves. */
  lemma RsiFormula(
      closes: seq<real>, p: int, up: seq<real>, down: seq<real>, rise: seq<real>, fall: seq<real>, i: nat)
    requires 1 <= p < |closes| && i < |closes| && RisesAndFalls(closes, up, down)
    requires AveragesFrom(up, Sum(up, p + 1), p, rise) && AveragesFrom(down, Sum(down, p + 1), p, fall)
    ensures var rsi := RsiColumn(closes, p)[i];
            && (rsi.Val? <==> i >= p)
            && (i >= p ==>
                  && rsi.v * (rise[i] + fall[i]) == 100.0 * rise[i]
                  && (rise[i] + fall[i] == 0.0 ==> rsi.v == 50.0))
  {
    hide RsiColumn, Gains, Losses, AveragesFrom, RisesAndFalls;
    RsiWithin(closes, p, i);
    if i >= p {
      MovesAre(closes, up, down);
      RsiIsGainShare(closes, p, i);
      AverageIs(up, Sum(up, p + 1), p, rise, i);
      AverageIs(down, Sum(down, p + 1), p, fall, i);
    }
  }

  // ---- ATR ----

  /** The true ranges: the widest of the candle's own range and its distances to the close
      before it. */
  ghost predicate RangesOf(high: seq<real>, low: seq<real>, close: seq<real>, tr: seq<real>) {
    && |tr| == |high| == |low| == |close|
    && (tr != [] ==> tr[0] == high[0] - low[0])
    && forall k :: 1 <= k < |tr| ==>
         var own, up, down := high[k] - low[k], high[k] - close[k - 1], low[k] - close[k - 1];
         && (tr[k] == own || tr[k] == up || tr[k] == -up || tr[k] == down || tr[k] == -down)
         && tr[k] >= own && tr[k] >= up && tr[k] >= -up && tr[k] >= down && tr[k] >= -down
  }

  lemma RangesAre(high: seq<real>, low: seq<real>, close: seq<real>, tr: seq<real>)
    requires RangesOf(high, low, close, tr)
    ensures TrueRanges(high, low, close) == tr
  {
  }

  /** The ATR averages the true ranges, from the mean of the first `p` at index `p`; the true
      range at `p` itself is skipped. */
  lemma AtrFormula(
      high: seq<real>, low: seq<real>, close: seq<real>, p: int, tr: seq<real>, avg: seq<real>, i: nat)
    requires 1 <= p <= |high| && i < |high| == |low| == |close| == |tr|
    requires RangesOf(high, low, close, tr) && AveragesFrom(tr, Sum(tr, p), p, avg)
    ensures AtrColumn(high, low, close, p)[i] == if i < p then NaN else Val(avg[i])
  {
    hide RangesOf, TrueRange;
    RangesAre(high, low, close, tr);
    if i >= p {
      SeededIs(tr, p, avg, i);
    }
  }

  // ---- ADX ----

  /** The directional moves: the greater of the two extremes' advances, if it is one, and else
      nothing. */
  ghost predicate AdvancesOf(high: seq<real>, low: seq<real>, up: seq<real>, down: seq<real>) {
    && |up| == |down| == |high| == |low|
    && (up != [] ==> up[0] == 0.0 && down[0] == 0.0)
    && forall k :: 1 <= k < |up| ==>
         var rise, fall := high[k] - high[k - 1], low[k - 1] - low[k];
         && up[k] == (if rise > fall && rise > 0.0 then rise else 0.0)
         && down[k] == (if fall > rise && fall > 0.0 then fall else 0.0)
  }

  lemma AdvancesAre(high: seq<real>, low: seq<real>, up: seq<real>, down: seq<real>)
    requires AdvancesOf(high, low, up, down)
    ensures PlusMoves(high, low) == up && MinusMoves(high, low) == down
  {
  }

  /** The directional index of three averages: undefined over no range, and else 100 times the
      share of the net move in the whole, nothing where there is none. */
  ghost predicate IndexOf(tr: real, up: real, down: real, dx: Num) {
    && (dx.Val? <==> tr != 0.0)
    && (dx.Val? && up + down == 0.0 ==> dx.v == 0.0)
    && (dx.Val? ==> dx.v * (up + down) == 100.0 * (if up >= down then up - down else down - up))
  }

  lemma IndexMeans(tr: real, up: real, down: real)
    requires tr >= 0.0 && up >= 0.0 && down >= 0.0
    ensures IndexOf(tr, up, down, DirectionalIndex(tr, up, down))
  {
    if tr > 0.0 {
      IndexIsShare(tr, up, down);
      if up + down == 0.0 {
        assert 100.0 * up / tr == 0.0;
      }
    }
  }

  /** The directional indices of a valid series from index `p` on. */
  lemma DxFormula(
      high: seq<real>, low: seq<real>, close: seq<real>, p: int, tr: seq<real>, up: seq<real>, down: seq<real>,
      ranges: seq<real>, rise: seq<real>, fall: seq<real>, i: nat)
    requires HighsAboveLows(high, low) && 1 <= p <= i < |high| == |close|
    requires |tr| == |up| == |down| == |ranges| == |rise| == |fall| == |high|
    requires RangesOf(high, low, close, tr) && AdvancesOf(high, low, up, down)
    requires AveragesFrom(tr, Sum(tr, p), p, ranges)
    requires AveragesFrom(up, Sum(up, p), p, rise) && AveragesFrom(down, Sum(down, p), p, fall)
    ensures IndexOf(ranges[i], rise[i], fall[i], DxColumn(high, low, close, p)[i])
  {
    hide RangesOf, AdvancesOf, AveragesFrom, DirectionalIndex, TrueRanges, PlusMoves, MinusMoves, IndexOf, SeededAt;
    RangesAre(high, low, close, tr);
    AdvancesAre(high, low, up, down);
    MovesNonNegative(high, low, close);
    SeededNonNegative(tr, p, i);
    SeededNonNegative(up, p, i);
    SeededNonNegative(down, p, i);
    SeededIs(tr, p, ranges, i);
    SeededIs(up, p, rise, i);
    SeededIs(down, p, fall, i);
    IndexMeans(ranges[i], rise[i], fall[i]);
  }

  lemma {:induction false} NumSumIsSum(vs: seq<Num>, lo: nat, hi: nat) returns (values: seq<real>)
    requires lo <= hi <= |vs| && forall k :: lo <= k < hi ==> vs[k].Val?
    ensures |values| == hi - lo && forall k :: lo <= k < hi ==> values[k - lo] == vs[k].v
    ensures NumSum(vs, lo, hi) == Val(Sum(values, hi - lo))
    decreases hi
  {
    values := [];
    if hi > lo {
      var before := NumSumIsSum(vs, lo, hi - 1);
      values := before + [vs[hi - 1].v];
      SumAgrees(values, before, hi - 1 - lo);
    }
  }

  lemma NextMeans(p: int, prev: Num, x: Num)
    requires p >= 1
    ensures NumWilderNext(p, prev, x).Val? <==> prev.Val? && x.Val?
    ensures prev.Val? && x.Val? ==> p as real * NumWilderNext(p, prev, x).v == (p - 1) as real * prev.v + x.v
  {
  }

  lemma {:induction false} NumSumDefined(vs: seq<Num>, lo: nat, hi: nat)
    requires lo <= hi <= |vs|
    ensures NumSum(vs, lo, hi).Val? <==> forall k :: lo <= k < hi ==> vs[k].Val?
    decreases hi
  {
    if hi > lo {
      NumSumDefined(vs, lo, hi - 1);
    }
  }

  lemma AdxStarts(dx: seq<Num>, p: int, values: seq<real>)
    requires 1 <= p && 2 * p < |dx| && |values| == p
    requires forall k :: 0 <= k < p && dx[p + 1 + k].Val? ==> values[k] == dx[p + 1 + k].v
    ensures AdxAt(dx, p, 2 * p).Val? <==> forall k :: p < k <= 2 * p ==> dx[k].Val?
    ensures AdxAt(dx, p, 2 * p).Val? ==> p as real * AdxAt(dx, p, 2 * p).v == Sum(values, p)
  {
    hide NumSum, Sum;
    AdxUnfolds(dx, p, 2 * p);
    NumSumDefined(dx, p + 1, 2 * p + 1);
    if forall k :: p < k <= 2 * p ==> dx[k].Val? {
      var sums := NumSumIsSum(dx, p + 1, 2 * p + 1);
      forall k | 0 <= k < p
        ensures sums[k] == values[k]
      {
        assert sums[p + 1 + k - (p + 1)] == dx[p + 1 + k].v;
      }
      assert sums == values;
    }
  }

  lemma AdxContinues(dx: seq<Num>, p: int, i: nat)
    requires 1 <= p && 2 * p < i < |dx|
    ensures AdxAt(dx, p, i).Val? <==> AdxAt(dx, p, i - 1).Val? && dx[i].Val?
    ensures AdxAt(dx, p, i).Val? ==>
              p as real * AdxAt(dx, p, i).v == (p - 1) as real * AdxAt(dx, p, i - 1).v + dx[i].v
  {
    hide AdxAt, NumWilderNext;
    AdxUnfolds(dx, p, i);
    NextMeans(p, AdxAt(dx, p, i - 1), dx[i]);
  }

  lemma AdxColumnIs(high: seq<real>, low: seq<real>, close: seq<real>, p: int, i: nat)
    requires |low| == |high| == |close| && 1 <= p && i < |high|
    ensures |DxColumn(high, low, close, p)| == |high|
    ensures AdxColumn(high, low, close, p)[i] ==
            if i < 2 * p then NaN else AdxAt(DxColumn(high, low, close, p), p, i)
  {
    hide AdxAt, DxAt;
  }

  /** The ADX averages the indices after index `p`: at index 2p it is their mean so far, the mean
      of `values`. */
  lemma AdxStartFormula(high: seq<real>, low: seq<real>, close: seq<real>, p: int, values: seq<real>)
    requires |low| == |high| == |close| && 1 <= p && 2 * p < |high| && |values| == p
    requires forall k :: 0 <= k < p && DxColumn(high, low, close, p)[p + 1 + k].Val? ==>
               values[k] == DxColumn(high, low, close, p)[p + 1 + k].v
    ensures forall i :: 0 <= i < 2 * p ==> AdxColumn(high, low, close, p)[i] == NaN
    ensures var dx, adx := DxColumn(high, low, close, p), AdxColumn(high, low, close, p)[2 * p];
            && (adx.Val? <==> forall k :: p < k <= 2 * p ==> dx[k].Val?)
            && (adx.Val? ==> p as real * adx.v == Sum(values, p))
  {
    hide DxColumn, AdxColumn, AdxAt, Sum;
    forall i: nat | i < 2 * p
      ensures AdxColumn(high, low, close, p)[i] == NaN
    {
      AdxColumnIs(high, low, close, p, i);
    }
    AdxColumnIs(high, low, close, p, 2 * p);
    AdxStarts(DxColumn(high, low, close, p), p, values);
  }

  /** And from there on the newest index counts once and the average before it p - 1 times. */
  lemma AdxStepFormula(high: seq<real>, low: seq<real>, close: seq<real>, p: int, i: nat)
    requires |low| == |high| == |close| && 1 <= p && 2 * p < i < |high|
    ensures var dx, adx := DxColumn(high, low, close, p), AdxColumn(high, low, close, p);
            && (adx[i].Val? <==> adx[i - 1].Val? && dx[i].Val?)
            && (adx[i].Val? ==> p as real * adx[i].v == (p - 1) as real * adx[i - 1].v + dx[i].v)
  {
    hide DxColumn, AdxColumn, AdxAt;
    AdxColumnIs(high, low, close, p, i);
    AdxColumnIs(high, low, close, p, i - 1);
    AdxContinues(DxColumn(high, low, close, p), p, i);
  }

  // ---- Returns, deviations and scores ----

  /** Of positive closes, the log return is 100 times the logarithm of their quotient. */
  lemma LogReturnFormula(lib: MathLib, closes: seq<real>, periods: int, i: nat)
    requires 1 <= periods && i < |closes| && forall j :: 0 <= j < |closes| ==> closes[j] > 0.0
    ensures LogReturnColumn(lib, closes, periods)[i] ==
            if i < periods then NaN else Val(lib.ln(closes[i] / closes[i - periods]) * 100.0)
  {
    if i >= periods {
      PositiveQuotient(closes[i], closes[i - periods]);
    }
  }

  /** `xs` are the numbers `vs`. */
  ghost predicate Numbers(vs: seq<Num>, xs: seq<real>) {
    |vs| == |xs| && forall k :: 0 <= k < |vs| ==> vs[k] == Val(xs[k])
  }

  lemma {:induction false} SumOfNumbers(vs: seq<Num>, xs: seq<real>, k: nat)
    requires Numbers(vs, xs) && k <= |vs|
    ensures SumOf(vs, k) == Val(Sum(xs, k))
  {
    if k > 0 {
      SumOfNumbers(vs, xs, k - 1);
    }
  }

  /** The mean of `xs`, and the mean of their squared distances from it. */
  ghost predicate Moments(xs: seq<real>, mean: real, variance: real) {
    var n := |xs|;
    && n as real * mean == Sum(xs, n)
    && n as real * variance == Sum(seq(n, k requires 0 <= k < n => (xs[k] - mean) * (xs[k] - mean)), n)
  }

  lemma MeanOfNumbers(vs: seq<Num>, xs: seq<real>)
    requires Numbers(vs, xs) && xs != []
    ensures MeanOf(vs) == Val(Sum(xs, |xs|) / |xs| as real)
  {
    hide Sum;
    SumOfNumbers(vs, xs, |xs|);
  }

  lemma SquaresOfNumbers(vs: seq<Num>, xs: seq<real>, mean: real)
    requires Numbers(vs, xs)
    ensures Numbers(SquaresOf(vs, Val(mean)),
                    seq(|xs|, k requires 0 <= k < |xs| => (xs[k] - mean) * (xs[k] - mean)))
  {
  }

  lemma TimesQuotient(n: real, x: real)
    requires n != 0.0
    ensures n * (x / n) == x
  {
  }

  lemma DeviationFormula(lib: MathLib, vs: seq<Num>, xs: seq<real>) returns (mean: real, variance: real)
    requires Numbers(vs, xs) && xs != []
    ensures Moments(xs, mean, variance)
    ensures MeanOf(vs) == Val(mean) && StdDevOf(lib, vs) == Val(lib.sqrt(variance))
  {
    hide Sum, MeanOf, SquaresOf, Numbers;
    var n := |xs|;
    mean := Sum(xs, n) / n as real;
    var squares := seq(n, k requires 0 <= k < n => (xs[k] - mean) * (xs[k] - mean));
    variance := Sum(squares, n) / n as real;
    MeanOfNumbers(vs, xs);
    SquaresOfNumbers(vs, xs, mean);
    MeanOfNumbers(SquaresOf(vs, Val(mean)), squares);
    TimesQuotient(n as real, Sum(xs, n));
    TimesQuotient(n as real, Sum(squares, n));
  }

  lemma WindowOfNumbers(vs: seq<Num>, window: int, i: nat, xs: seq<real>)
    requires 1 <= window <= i + 1 <= |vs| && |xs| == window
    requires forall k :: 0 <= k < window ==> vs[i + 1 - window + k] == Val(xs[k])
    ensures Numbers(Window(vs, window, i), xs)
  {
  }

  /** The volatility is the root of the mean squared distance from the mean of the last `window`
      returns. */
  lemma VolatilityFormula(lib: MathLib, vs: seq<Num>, window: int, i: nat, xs: seq<real>)
    returns (mean: real, variance: real)
    requires 2 <= window <= i + 1 <= |vs| && |xs| == window
    requires forall k :: 0 <= k < window ==> vs[i + 1 - window + k] == Val(xs[k])
    ensures Moments(xs, mean, variance)
    ensures VolatilityColumn(lib, vs, window)[i] == Val(lib.sqrt(variance))
  {
    hide Moments, StdDevOf, MeanOf, Window;
    WindowOfNumbers(vs, window, i, xs);
    mean, variance := DeviationFormula(lib, Window(vs, window, i), xs);
  }

  /** A score is the distance of the newest value from the mean of its window in deviations, and
      nothing without any. */
  lemma ZScoreFormula(lib: MathLib, vs: seq<Num>, window: int, i: nat, xs: seq<real>)
    returns (mean: real, variance: real)
    requires 2 <= window <= i + 1 <= |vs| && |xs| == window
    requires forall k :: 0 <= k < window ==> vs[i + 1 - window + k] == Val(xs[k])
    ensures Moments(xs, mean, variance)
    ensures var z := ZScoreColumn(lib, vs, window)[i];
            && z.Val?
            && (lib.sqrt(variance) == 0.0 ==> z.v == 0.0)
            && (lib.sqrt(variance) != 0.0 ==> z.v * lib.sqrt(variance) == xs[window - 1] - mean)
  {
    hide Moments, StdDevOf, MeanOf, Window;
    assert vs[i + 1 - window + (window - 1)] == Val(xs[window - 1]);
    WindowOfNumbers(vs, window, i, xs);
    mean, variance := DeviationFormula(lib, Window(vs, window, i), xs);
  }

  // ---- Feature rows ----

  /** An average over `period` closes (or volumes) of a row, after the one of the row before:
      the newest value counts twice, the average before it period - 1 times. */
  ghost predicate FollowsEma(period: int, now: Num, before: Num, value: real) {
    && now.Val?
    && (before.Val? ==> (period + 1) as real * now.v == 2.0 * value + (period - 1) as real * before.v)
  }

  lemma EmaFollows(vs: seq<real>, period: int, i: nat)
    requires 1 <= period < i < |vs|
    ensures FollowsEma(period, EmaColumn(vs, period)[i], EmaColumn(vs, period)[i - 1], vs[i])
  {
    hide EmaColumn;
    ColumnRecurs(vs, period, i);
  }

  /** The true range of a candle after the one before it. */
  ghost predicate IsRange(c: Candle, before: Candle, tr: real) {
    var own, up, down := c.high - c.low, c.high - before.close, c.low - before.close;
    && (tr == own || tr == up || tr == -up || tr == down || tr == -down)
    && tr >= own && tr >= up && tr >= -up && tr >= down && tr >= -down
  }

  /** A Wilder average after the one before it: the newest value counts once, the average before
      it p - 1 times. */
  ghost predicate FollowsWilder(p: int, now: Num, before: Num, value: real) {
    && now.Val? && before.Val?
    && p as real * now.v == (p - 1) as real * before.v + value
  }

  lemma AtrFollows(high: seq<real>, low: seq<real>, close: seq<real>, p: int, i: nat)
    requires |low| == |high| == |close| && 1 <= p < i < |high|
    ensures var atr := AtrColumn(high, low, close, p);
            FollowsWilder(p, atr[i], atr[i - 1], TrueRange(high[i], low[i], close, i))
  {
    hide TrueRange, Sum;
    assert TrueRanges(high, low, close)[i] == TrueRange(high[i], low[i], close, i);
  }

  lemma EmaIsDefined(vs: seq<real>, period: int, i: nat)
    requires 1 <= period <= i < |vs|
    ensures EmaColumn(vs, period)[i].Val?
  {
    hide EmaAt;
  }

  lemma RangeMeans(candles: seq<Candle>, i: nat)
    requires 1 <= i < |candles|
    ensures IsRange(candles[i], candles[i - 1],
                    TrueRange(Highs(candles)[i], Lows(candles)[i], Closes(candles), i))
  {
  }

  /** Rows past 200 in terms of the candles and the row before: the four averages, the ATR and
      the three returns. */
  lemma RowFormula(lib: MathLib, candles: seq<Candle>, i: nat) returns (tr: real)
    requires 200 < i < |candles| && forall j :: 0 <= j < |candles| ==> candles[j].close > 0.0
    ensures IsRange(candles[i], candles[i - 1], tr)
    ensures var now, before, c := PricesAt(lib, candles, i), PricesAt(lib, candles, i - 1), candles[i];
            && FollowsEma(20, now.ema20, before.ema20, c.close) && before.ema20.Val?
            && FollowsEma(50, now.ema50, before.ema50, c.close) && before.ema50.Val?
            && FollowsEma(200, now.ema200, before.ema200, c.close) && before.ema200.Val?
            && FollowsEma(20, now.volumeEma20, before.volumeEma20, c.volume) && before.volumeEma20.Val?
            && FollowsWilder(14, now.atr14, before.atr14, tr)
            && now.return1 == Val(lib.ln(c.close / candles[i - 1].close) * 100.0)
            && now.return4 == Val(lib.ln(c.close / candles[i - 4].close) * 100.0)
            && now.return12 == Val(lib.ln(c.close / candles[i - 12].close) * 100.0)
  {
    hide EmaColumn, RsiColumn, AtrColumn, AdxColumn, LogReturnColumn, VolatilityColumn, FollowsWilder, FollowsEma;
    var closes, volumes := Closes(candles), Volumes(candles);
    tr := TrueRange(Highs(candles)[i], Lows(candles)[i], closes, i);
    RangeMeans(candles, i);
    AtrFollows(Highs(candles), Lows(candles), closes, 14, i);
    EmaFollows(closes, 20, i);
    EmaFollows(closes, 50, i);
    EmaFollows(closes, 200, i);
    EmaFollows(volumes, 20, i);
    EmaIsDefined(closes, 20, i - 1);
    EmaIsDefined(closes, 50, i - 1);
    EmaIsDefined(closes, 200, i - 1);
    EmaIsDefined(volumes, 20, i - 1);
    LogReturnFormula(lib, closes, 1, i);
    LogReturnFormula(lib, closes, 4, i);
    LogReturnFormula(lib, closes, 12, i);
  }

  /** The volatility of a row over `window` returns, 14 or 50: the root of their variance. */
  lemma RowVolatilityFormula(lib: MathLib, candles: seq<Candle>, i: nat, window: int, returns_: seq<real>)
    returns (mean: real, variance: real)
    requires 200 <= i < |candles| && (window == 14 || window == 50) && |returns_| == window
    requires forall j :: 0 <= j < |candles| ==> candles[j].close > 0.0
    requires forall k :: 0 <= k < window ==>
               var j := i + 1 - window + k;
               returns_[k] == lib.ln(candles[j].close / candles[j - 1].close) * 100.0
    ensures Moments(returns_, mean, variance)
    ensures var p := PricesAt(lib, candles, i);
            (if window == 14 then p.volatility14 else p.volatility50) == Val(lib.sqrt(variance))
  {
    hide EmaColumn, RsiColumn, AtrColumn, AdxColumn, LogReturnColumn, VolatilityColumn, Moments;
    var closes := Closes(candles);
    ColumnLengths(lib, candles);
    var column := LogReturnColumn(lib, closes, 1);
    forall k | 0 <= k < window
      ensures column[i + 1 - window + k] == Val(returns_[k])
    {
      LogReturnFormula(lib, closes, 1, i + 1 - window + k);
    }
    mean, variance := VolatilityFormula(lib, column, window, i, returns_);
  }

  /** The two oscillators of a row are those of the candles' closes and extremes at period 14. */
  lemma RowOscillators(lib: MathLib, candles: seq<Candle>, high: seq<real>, low: seq<real>, close: seq<real>, i: nat)
    requires i < |candles| == |high| == |low| == |close|
    requires forall k :: 0 <= k < |candles| ==>
               high[k] == candles[k].high && low[k] == candles[k].low && close[k] == candles[k].close
    ensures PricesAt(lib, candles, i).rsi14 == RsiColumn(close, 14)[i]
    ensures PricesAt(lib, candles, i).adx14 == AdxColumn(high, low, close, 14)[i]
  {
    hide EmaColumn, RsiColumn, AtrColumn, AdxColumn, LogReturnColumn, VolatilityColumn;
    assert Highs(candles) == high && Lows(candles) == low && Closes(candles) == close;
  }

  // ---- Order flow fields ----

  /** A change of open interest in percent: undefined from nothing. */
  ghost predicate IsChange(now: real, before: real, delta: Num) {
    && (delta.Val? <==> before != 0.0)
    && (delta.Val? ==> delta.v * before == 100.0 * (now - before))
  }

  lemma ChangeMeans(oi: seq<real>, periods: int, i: nat)
    requires 1 <= periods <= i < |oi|
    ensures IsChange(oi[i], oi[i - periods], DeltaColumn(oi, periods)[i])
  {
    if oi[i - periods] != 0.0 {
      var q := (oi[i] - oi[i - periods]) / oi[i - periods];
      assert q * oi[i - periods] == oi[i] - oi[i - periods];
      assert (q * 100.0) * oi[i - periods] == 100.0 * (q * oi[i - periods]);
    }
  }

  /** A quotient of two amounts, undefined over zero. */
  ghost predicate IsQuotient(a: real, b: real, q: Num) {
    && (q.Val? <==> b != 0.0)
    && (q.Val? ==> q.v * b == a)
  }

  /** The difference of two amounts as a share of their sum, nothing where that is zero. */
  ghost predicate IsImbalance(a: real, b: real, q: Num) {
    && q.Val?
    && (a + b == 0.0 ==> q.v == 0.0)
    && q.v * (a + b) == if a + b == 0.0 then 0.0 else a - b
  }

  lemma RatioMeans(buy: real, sell: real)
    ensures IsQuotient(buy, sell, Ratio(buy, sell))
    ensures IsImbalance(buy, sell, Val(Imbalance(buy, sell)))
  {
  }

  lemma HasMeans(flow: seq<OrderFlow.Snapshot>)
    ensures HasOI(flow) <==> exists k :: 0 <= k < |flow| && flow[k].oi != 0.0
    ensures HasLS(flow) <==>
              && (exists k :: 0 <= k < |flow| && flow[k].buyRatio != 0.0)
              && exists k :: 0 <= k < |flow| && flow[k].sellRatio != 0.0
  {
    if k :| 0 <= k < |flow| && flow[k].oi != 0.0 {
      assert OpenInterests(flow)[k] != 0.0;
    }
    if k :| 0 <= k < |flow| && flow[k].buyRatio != 0.0 {
      assert BuyRatios(flow)[k] != 0.0;
    }
    if k :| 0 <= k < |flow| && flow[k].sellRatio != 0.0 {
      assert SellRatios(flow)[k] != 0.0;
    }
  }

  /** The order flow of a row from 12 on. Open interest counts only if the load has some, and
      ratios only if it has both kinds; without them their fields are zero. */
  lemma FlowFormula(lib: MathLib, flow: seq<OrderFlow.Snapshot>, i: nat)
    requires 12 <= i < |flow|
    ensures var f, s := FieldsAt(lib, flow, i), flow[i];
            && f.fundingRate == Val(s.fundingRate) && f.liqLong == Val(s.liqLong) && f.liqShort == Val(s.liqShort)
            && IsImbalance(s.liqLong, s.liqShort, f.liqImbalance)
            && (if exists k :: 0 <= k < |flow| && flow[k].oi != 0.0 then
                  && IsChange(s.oi, flow[i - 1].oi, f.oiDelta1)
                  && IsChange(s.oi, flow[i - 4].oi, f.oiDelta4)
                  && IsChange(s.oi, flow[i - 12].oi, f.oiDelta12)
                else f.oiDelta1 == f.oiDelta4 == f.oiDelta12 == f.oiZ30 == Val(0.0))
            && (if (exists k :: 0 <= k < |flow| && flow[k].buyRatio != 0.0)
                   && (exists k :: 0 <= k < |flow| && flow[k].sellRatio != 0.0)
                then
                  && IsQuotient(s.buyRatio, s.sellRatio, f.lsRaw)
                  && IsImbalance(s.buyRatio, s.sellRatio, f.lsNormalized)
                else f.lsRaw == f.lsNormalized == Val(0.0))
  {
    hide DeltaColumn, ZScoreColumn, Ratio, Imbalance, IsChange, IsQuotient, IsImbalance;
    HasMeans(flow);
    var oi := OpenInterests(flow);
    ChangeMeans(oi, 1, i);
    ChangeMeans(oi, 4, i);
    ChangeMeans(oi, 12, i);
    RatioMeans(flow[i].buyRatio, flow[i].sellRatio);
    RatioMeans(flow[i].liqLong, flow[i].liqShort);
  }

  /** The two scores of a row over the last 30 values of its load. */
  lemma FlowScoreFormula(lib: MathLib, flow: seq<OrderFlow.Snapshot>, i: nat, xs: seq<real>, funding: bool)
    returns (mean: real, variance: real)
    requires 29 <= i < |flow| && |xs| == 30
    requires forall k :: 0 <= k < 30 ==>
               xs[k] == if funding then flow[i - 29 + k].fundingRate else flow[i - 29 + k].oi
    requires funding || exists k :: 0 <= k < |flow| && flow[k].oi != 0.0
    ensures Moments(xs, mean, variance)
    ensures var f := FieldsAt(lib, flow, i);
            var z := if funding then f.fundingZ30 else f.oiZ30;
            && z.Val?
            && (lib.sqrt(variance) == 0.0 ==> z.v == 0.0)
            && (lib.sqrt(variance) != 0.0 ==> z.v * lib.sqrt(variance) == xs[29] - mean)
  {
    hide DeltaColumn, ZScoreColumn, Ratio, Imbalance, Moments;
    HasMeans(flow);
    var vs := Nums(if funding then FundingRates(flow) else OpenInterests(flow));
    mean, variance := ZScoreFormula(lib, vs, 30, i, xs);
  }

  // ---- Whole rows, and how many of their values are undefined ----

  /** A row is stamped with its candle's time, says whether the close stands above each average,
      and has order flow only when there is one snapshot per candle. */
  lemma WholeRowFormula(lib: MathLib, candles: seq<Candle>, flow: seq<OrderFlow.Snapshot>, i: nat)
    requires i < |candles|
    ensures var row, p, close := RowAt(lib, candles, flow, i), PricesAt(lib, candles, i), candles[i].close;
            && row.ts == candles[i].time && row.price == p
            && row.above.ema20 == (if p.ema20.Val? && close > p.ema20.v then 1 else 0)
            && row.above.ema50 == (if p.ema50.Val? && close > p.ema50.v then 1 else 0)
            && row.above.ema200 == (if p.ema200.Val? && close > p.ema200.v then 1 else 0)
            && (|flow| == |candles| ==> row.flow == FieldsAt(lib, flow, i))
            && (|flow| != |candles| ==>
                  row.flow == FlowFields(Val(0.0), Val(0.0), Val(0.0), Val(0.0), Val(0.0), Val(0.0),
                                         Val(0.0), Val(0.0), Val(0.0), Val(0.0), Val(0.0)))
  {
    hide PricesAt, FieldsAt;
  }

  function One(x: Num): int {
    if x.NaN? then 1 else 0
  }

  lemma {:induction false} CountAppends(vs: seq<Num>, x: Num)
    ensures CountNaN(vs + [x]) == CountNaN(vs) + One(x)
  {
    assert (vs + [x])[..|vs|] == vs;
  }

  lemma EmptyCounts()
    ensures CountNaN([]) == 0
  {
  }

  lemma CountFour(vs: seq<Num>, a: Num, b: Num, c: Num, d: Num)
    ensures CountNaN(vs + [a, b, c, d]) == CountNaN(vs) + One(a) + One(b) + One(c) + One(d)
    ensures CountNaN([]) == 0
  {
    hide CountNaN;
    CountAppends(vs, a);
    CountAppends(vs + [a], b);
    CountAppends(vs + [a] + [b], c);
    CountAppends(vs + [a] + [b] + [c], d);
    assert vs + [a] + [b] + [c] + [d] == vs + [a, b, c, d];
    EmptyCounts();
  }

  /** The mandatory values of a row are these twelve. */
  lemma MandatoryFormula(p: PriceFields)
    ensures CountNaN(p.Mandatory()) ==
            One(p.ema20) + One(p.ema50) + One(p.ema200) + One(p.rsi14) + One(p.atr14) + One(p.adx14)
            + One(p.volumeEma20) + One(p.return1) + One(p.return4) + One(p.return12)
            + One(p.volatility14) + One(p.volatility50)
  {
    var first := [p.ema20, p.ema50, p.ema200, p.rsi14];
    var second := first + [p.atr14, p.adx14, p.volumeEma20, p.return1];
    CountFour([], p.ema20, p.ema50, p.ema200, p.rsi14);
    CountFour(first, p.atr14, p.adx14, p.volumeEma20, p.return1);
    CountFour(second, p.return4, p.return12, p.volatility14, p.volatility50);
    assert [] + first == first;
    assert p.Mandatory() == second + [p.return4, p.return12, p.volatility14, p.volatility50];
  }

  /** And the check counts them over all rows. */
  lemma {:induction false} UndefinedFormula(rows: seq<FeatureRow>)
    ensures CountMandatoryNaN(rows) as real ==
            Sum(seq(|rows|, k requires 0 <= k < |rows| => CountNaN(rows[k].price.Mandatory()) as real), |rows|)
  {
    hide CountNaN;
    if rows != [] {
      var n := |rows| - 1;
      UndefinedFormula(rows[..n]);
      SumAgrees(seq(n + 1, k requires 0 <= k < n + 1 => CountNaN(rows[k].price.Mandatory()) as real),
                seq(n, k requires 0 <= k < n => CountNaN(rows[..n][k].price.Mandatory()) as real), n);
    }
  }
}
