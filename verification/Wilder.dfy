/** The indicators smoothed the way of Wilder: RSI, ATR and ADX
    (internal/feature/rsi.go, atr.go and adx.go). */
module Wilder {
  import opened Numeric
  import opened Smoothing

  function Undefined(n: nat): seq<Num> {
    seq(n, _ => NaN)
  }

  /** Wilder's running average started at `from` with `seed`. */
  function WilderAt(p: int, seed: real, vs: seq<real>, from: nat, i: nat): real
    requires p >= 1 && from <= i < |vs|
    decreases i
  {
    if i == from then seed else WilderNext(p, WilderAt(p, seed, vs, from, i - 1), vs[i])
  }

  lemma {:induction false} WilderIsSmoothed(p: int, seed: real, vs: seq<real>, from: nat, i: nat)
    requires p >= 1 && from <= i < |vs|
    ensures WilderAt(p, seed, vs, from, i) == Smoothed(1.0 / p as real, seed, vs, from, i)
    decreases i
  {
    hide WilderNext, Blend;
    if i > from {
      WilderIsSmoothed(p, seed, vs, from, i - 1);
      WilderIsBlend(p, WilderAt(p, seed, vs, from, i - 1), vs[i]);
    }
  }

  lemma WilderWithin(p: int, seed: real, vs: seq<real>, from: nat, i: nat, lo: real, hi: real)
    requires p >= 1 && from <= i < |vs| && lo <= seed <= hi
    requires forall j :: from < j <= i ==> lo <= vs[j] <= hi
    ensures lo <= WilderAt(p, seed, vs, from, i) <= hi
  {
    WilderIsSmoothed(p, seed, vs, from, i);
    WilderIsBlend(p, 0.0, 0.0);
    SmoothedWithin(1.0 / p as real, seed, vs, from, i, lo, hi);
  }

  lemma QuotientNonNegative(a: real, b: real)
    requires a >= 0.0 && b > 0.0
    ensures a / b >= 0.0
  {
    MulStrict(b, 0.0, a / b);
    assert (a / b) * b == a;
  }

  lemma NextNonNegative(p: int, prev: real, x: real)
    requires p >= 1 && prev >= 0.0 && x >= 0.0
    ensures WilderNext(p, prev, x) >= 0.0
  {
    MulNonneg(prev, (p - 1) as real);
    QuotientNonNegative(prev * (p - 1) as real + x, p as real);
  }

  lemma {:induction false} WilderNonNegative(p: int, seed: real, vs: seq<real>, from: nat, i: nat)
    requires p >= 1 && from <= i < |vs| && 0.0 <= seed
    requires forall j :: from < j <= i ==> 0.0 <= vs[j]
    ensures 0.0 <= WilderAt(p, seed, vs, from, i)
    decreases i
  {
    hide WilderNext;
    if i > from {
      WilderNonNegative(p, seed, vs, from, i - 1);
      NextNonNegative(p, WilderAt(p, seed, vs, from, i - 1), vs[i]);
    }
  }

  lemma {:induction false} SumNonNegative(vs: seq<real>, k: nat)
    requires k <= |vs| && forall j :: 0 <= j < k ==> vs[j] >= 0.0
    ensures Sum(vs, k) >= 0.0
    ensures forall j :: 0 <= j < k ==> Sum(vs, k) >= vs[j]
  {
    if k > 0 {
      SumNonNegative(vs, k - 1);
    }
  }

  // ---- RSI ----

  function Gains(closes: seq<real>): (r: seq<real>)
    ensures |r| == |closes|
  {
    seq(|closes|, i requires 0 <= i < |closes| => if i == 0 then 0.0 else MaxReal(closes[i] - closes[i - 1], 0.0))
  }

  function Losses(closes: seq<real>): (r: seq<real>)
    ensures |r| == |closes|
  {
    seq(|closes|, i requires 0 <= i < |closes| => if i == 0 then 0.0 else MaxReal(-(closes[i] - closes[i - 1]), 0.0))
  }

  function ComputeRSI(avgGain: real, avgLoss: real): Num {
    if avgLoss == 0.0 then
      if avgGain == 0.0 then Val(50.0) else Val(100.0)
    else
      var rs := Over(Val(avgGain), Val(avgLoss));
      Minus(Val(100.0), Over(Val(100.0), Plus(Val(1.0), rs)))
  }

  /** The average gain (or loss) at `i >= p`: the mean of the first `p` moves, then Wilder's. */
  function AverageMove(moves: seq<real>, p: int, i: nat): real
    requires 1 <= p <= i < |moves|
  {
    WilderAt(p, Sum(moves, p + 1) / p as real, moves, p, i)
  }

  lemma AverageMoveNonNegative(moves: seq<real>, p: int, i: nat)
    requires 1 <= p <= i < |moves| && forall j :: 0 <= j < |moves| ==> moves[j] >= 0.0
    ensures AverageMove(moves, p, i) >= 0.0
  {
    SumNonNegative(moves, p + 1);
    QuotientNonNegative(Sum(moves, p + 1), p as real);
    WilderNonNegative(p, Sum(moves, p + 1) / p as real, moves, p, i);
  }

  function RsiAt(closes: seq<real>, p: int, i: nat): Num
    requires 1 <= p <= i < |closes|
  {
    ComputeRSI(AverageMove(Gains(closes), p, i), AverageMove(Losses(closes), p, i))
  }

  lemma RsiOfAveragesWithin(gain: real, loss: real)
    requires gain >= 0.0 && loss >= 0.0
    ensures ComputeRSI(gain, loss).Val? && 0.0 <= ComputeRSI(gain, loss).v <= 100.0
  {
    if loss > 0.0 {
      QuotientNonNegative(gain, loss);
      var d := 1.0 + gain / loss;
      DivWithin(100.0, d, 0.0, 100.0);
    }
  }

  function RsiColumn(closes: seq<real>, p: int): (r: seq<Num>)
    ensures |r| == |closes|
  {
    if p < 1 || |closes| < p + 1 then Undefined(|closes|)
    else seq(|closes|, i requires 0 <= i < |closes| => if i < p then NaN else RsiAt(closes, p, i))
  }

  /** For every close series the RSI is defined exactly from index `p` on (given at least one
      close more than the period) and lies between 0 and 100. */
  lemma RsiWithin(closes: seq<real>, p: int, i: nat)
    requires 1 <= p < |closes| && i < |closes|
    ensures RsiColumn(closes, p)[i].Val? <==> i >= p
    ensures i >= p ==> 0.0 <= RsiColumn(closes, p)[i].v <= 100.0
  {
    hide ComputeRSI, AverageMove;
    if i >= p {
      AverageMoveNonNegative(Gains(closes), p, i);
      AverageMoveNonNegative(Losses(closes), p, i);
      RsiOfAveragesWithin(AverageMove(Gains(closes), p, i), AverageMove(Losses(closes), p, i));
    }
  }

  lemma ShareOfTotal(gain: real, loss: real, ratio: real, rest: real)
    requires ratio * loss == gain && rest * (1.0 + ratio) == 100.0
    ensures (100.0 - rest) * (gain + loss) == 100.0 * gain
  {
    assert gain + loss == (1.0 + ratio) * loss;
    assert rest * ((1.0 + ratio) * loss) == (rest * (1.0 + ratio)) * loss;
  }

  lemma GainShare(gain: real, loss: real)
    requires gain >= 0.0 && loss >= 0.0
    ensures ComputeRSI(gain, loss).Val? && ComputeRSI(gain, loss).v * (gain + loss) == 100.0 * gain
    ensures gain + loss == 0.0 ==> ComputeRSI(gain, loss).v == 50.0
  {
    if loss > 0.0 {
      QuotientNonNegative(gain, loss);
      ShareOfTotal(gain, loss, gain / loss, 100.0 / (1.0 + gain / loss));
    }
  }

  /** The two-branch quotient is the share of the average gain in the average move, on a scale
      of 100, and 50 when nothing moved. */
  lemma RsiIsGainShare(closes: seq<real>, p: int, i: nat)
    requires 1 <= p <= i < |closes|
    ensures var gain, loss := AverageMove(Gains(closes), p, i), AverageMove(Losses(closes), p, i);
            && gain >= 0.0 && loss >= 0.0 && RsiColumn(closes, p)[i].Val?
            && RsiColumn(closes, p)[i].v * (gain + loss) == 100.0 * gain
            && (gain + loss == 0.0 ==> RsiColumn(closes, p)[i].v == 50.0)
  {
    hide ComputeRSI, AverageMove;
    AverageMoveNonNegative(Gains(closes), p, i);
    AverageMoveNonNegative(Losses(closes), p, i);
    GainShare(AverageMove(Gains(closes), p, i), AverageMove(Losses(closes), p, i));
  }

  lemma AverageMoveUnfolds(moves: seq<real>, p: int, i: nat)
    requires 1 <= p <= i < |moves|
    ensures AverageMove(moves, p, i) ==
            if i == p then Sum(moves, p + 1) / p as real
            else WilderNext(p, AverageMove(moves, p, i - 1), moves[i])
    ensures Sum(moves, p + 1) == Sum(moves, p) + moves[p]
  {
    hide WilderNext;
  }

  lemma RsiIs(closes: seq<real>, p: int, i: nat)
    requires 1 <= p <= i < |closes|
    ensures RsiAt(closes, p, i) == ComputeRSI(AverageMove(Gains(closes), p, i), AverageMove(Losses(closes), p, i))
  {
  }

  lemma MoveAt(closes: seq<real>, i: nat)
    requires 0 < i < |closes|
    ensures Gains(closes)[i] == MaxReal(closes[i] - closes[i - 1], 0.0)
    ensures Losses(closes)[i] == MaxReal(-(closes[i] - closes[i - 1]), 0.0)
  {
    hide MaxReal;
  }

  lemma NoFirstMove(closes: seq<real>)
    requires closes != []
    ensures Sum(Gains(closes), 1) == 0.0 && Sum(Losses(closes), 1) == 0.0
  {
    hide MaxReal;
    assert Sum(Gains(closes), 1) == Sum(Gains(closes), 0) + Gains(closes)[0];
    assert Sum(Losses(closes), 1) == Sum(Losses(closes), 0) + Losses(closes)[0];
  }

  method RSI(closes: seq<real>, p: int) returns (result: seq<Num>)
    ensures result == RsiColumn(closes, p)
  {
    hide ComputeRSI, AverageMove, WilderNext, MaxReal, RsiAt, Gains, Losses;
    if p < 1 || |closes| < p + 1 {
      return Undefined(|closes|);
    }
    var n := |closes|;
    ghost var gains, losses := Gains(closes), Losses(closes);
    var column := new Num[n](_ => NaN);
    var avgGain, avgLoss := 0.0, 0.0;
    NoFirstMove(closes);
    for i := 1 to n
      invariant i <= p ==> avgGain == Sum(gains, i) && avgLoss == Sum(losses, i)
      invariant i > p ==> avgGain == AverageMove(gains, p, i - 1) && avgLoss == AverageMove(losses, p, i - 1)
      invariant forall j :: 0 <= j < n ==> column[j] == if p <= j < i then RsiAt(closes, p, j) else NaN
    {
      var change := closes[i] - closes[i - 1];
      var gain, loss := MaxReal(change, 0.0), MaxReal(-change, 0.0);
      MoveAt(closes, i);
      if i < p {
        avgGain := avgGain + gain;
        avgLoss := avgLoss + loss;
      } else {
        AverageMoveUnfolds(gains, p, i);
        AverageMoveUnfolds(losses, p, i);
        if i == p {
          avgGain := (avgGain + gain) / p as real;
          avgLoss := (avgLoss + loss) / p as real;
        } else {
          avgGain := WilderNext(p, avgGain, gain);
          avgLoss := WilderNext(p, avgLoss, loss);
        }
        RsiIs(closes, p, i);
        column[i] := ComputeRSI(avgGain, avgLoss);
      }
    }
    result := column[..];
  }

  // ---- True range and ATR ----

  function TrueRange(h: real, l: real, close: seq<real>, i: nat): real
    requires i <= |close|
  {
    if i == 0 then h - l
    else MaxReal(h - l, MaxReal(Abs(h - close[i - 1]), Abs(l - close[i - 1])))
  }

  function TrueRanges(high: seq<real>, low: seq<real>, close: seq<real>): seq<real>
    requires |low| == |high| && |close| == |high|
  {
    seq(|high|, i requires 0 <= i < |high| => TrueRange(high[i], low[i], close, i))
  }

  /** Wilder's average of `vs`, seeded at index `p` with the mean of the `p` values before. */
  function SeededAt(vs: seq<real>, p: int, i: nat): real
    requires 1 <= p <= i < |vs|
  {
    WilderAt(p, Sum(vs, p) / p as real, vs, p, i)
  }

  lemma SeededWithin(vs: seq<real>, p: int, i: nat, lo: real, hi: real)
    requires 1 <= p <= i < |vs| && forall j :: 0 <= j <= i ==> lo <= vs[j] <= hi
    ensures lo <= SeededAt(vs, p, i) <= hi
  {
    MeanWithin(vs, p, lo, hi);
    WilderWithin(p, Sum(vs, p) / p as real, vs, p, i, lo, hi);
  }

  function AtrColumn(high: seq<real>, low: seq<real>, close: seq<real>, p: int): (r: seq<Num>)
    ensures |r| == |high|
  {
    if p < 1 || |low| != |high| || |close| != |high| then Undefined(|high|)
    else
      var tr := TrueRanges(high, low, close);
      seq(|high|, i requires 0 <= i < |high| => if i < p then NaN else Val(SeededAt(tr, p, i)))
  }

  method ATR(high: seq<real>, low: seq<real>, close: seq<real>, p: int) returns (result: seq<Num>)
    ensures result == AtrColumn(high, low, close, p)
  {
    var n := |high|;
    if p < 1 || n == 0 || |low| != n || |close| != n {
      return Undefined(n);
    }
    ghost var trs := TrueRanges(high, low, close);
    var column := new Num[n];
    var sumTR := 0.0;
    for i := 0 to n
      invariant sumTR == Sum(trs, MinInt(i, p))
      invariant forall j :: 0 <= j < i ==> column[j] == AtrColumn(high, low, close, p)[j]
    {
      var tr := TrueRange(high[i], low[i], close, i);
      assert tr == trs[i];
      if i < p {
        sumTR := sumTR + tr;
        column[i] := NaN;
      } else if i == p {
        column[i] := Val(sumTR / p as real);
      } else {
        assert column[i - 1] == Val(SeededAt(trs, p, i - 1));
        column[i] := Val(WilderNext(p, column[i - 1].v, tr));
      }
    }
    result := column[..];
  }

  /** Every defined ATR lies between the least and the greatest true range so far. */
  lemma AtrWithin(high: seq<real>, low: seq<real>, close: seq<real>, p: int, i: nat, lo: real, hi: real)
    requires |low| == |high| && |close| == |high| && 1 <= p && i < |high|
    requires forall j :: 0 <= j <= i ==> lo <= TrueRanges(high, low, close)[j] <= hi
    ensures AtrColumn(high, low, close, p)[i].Val? <==> i >= p
    ensures i >= p ==> lo <= AtrColumn(high, low, close, p)[i].v <= hi
  {
    if i >= p {
      SeededWithin(TrueRanges(high, low, close), p, i, lo, hi);
    }
  }

  // ---- ADX ----

  function DirectionalMovement(high: seq<real>, low: seq<real>, i: nat): (real, real)
    requires i < |high| && |low| == |high|
  {
    if i == 0 then (0.0, 0.0)
    else
      var up, down := high[i] - high[i - 1], low[i - 1] - low[i];
      if up > down && up > 0.0 then (up, 0.0)
      else if down > up && down > 0.0 then (0.0, down)
      else (0.0, 0.0)
  }

  function PlusMoves(high: seq<real>, low: seq<real>): (r: seq<real>)
    requires |low| == |high|
    ensures |r| == |high|
  {
    seq(|high|, i requires 0 <= i < |high| => DirectionalMovement(high, low, i).0)
  }

  function MinusMoves(high: seq<real>, low: seq<real>): (r: seq<real>)
    requires |low| == |high|
    ensures |r| == |high|
  {
    seq(|high|, i requires 0 <= i < |high| => DirectionalMovement(high, low, i).1)
  }

  /** The directional index from the three smoothed series; undefined when the smoothed true
      range is zero, since then both quotients are. */
  function DirectionalIndex(tr: real, pdm: real, ndm: real): Num {
    if tr == 0.0 then NaN
    else
      var pdi, ndi := 100.0 * pdm / tr, 100.0 * ndm / tr;
      if pdi + ndi == 0.0 then Val(0.0) else Val(100.0 * Abs(pdi - ndi) / (pdi + ndi))
  }

  function DxAt(high: seq<real>, low: seq<real>, close: seq<real>, p: int, i: nat): Num
    requires |low| == |high| && |close| == |high| && 1 <= p && i < |high|
  {
    if i < p then Val(0.0)
    else DirectionalIndex(
      SeededAt(TrueRanges(high, low, close), p, i),
      SeededAt(PlusMoves(high, low), p, i),
      SeededAt(MinusMoves(high, low), p, i))
  }

  function NumSum(vs: seq<Num>, lo: nat, hi: nat): Num
    requires lo <= hi <= |vs|
    decreases hi
  {
    if hi == lo then Val(0.0) else Plus(NumSum(vs, lo, hi - 1), vs[hi - 1])
  }

  function NumWilderNext(p: int, prev: Num, x: Num): Num
    requires p >= 1
  {
    Over(Plus(Times(prev, Val((p - 1) as real)), x), Val(p as real))
  }

  /** The ADX at `i` from the directional indices `dx`: the mean of entries p+1..2p at index
      2p, then Wilder's average. */
  function AdxAt(dx: seq<Num>, p: int, i: nat): Num
    requires 1 <= p && 2 * p <= i < |dx|
    decreases i
  {
    if i == 2 * p then Over(NumSum(dx, p + 1, 2 * p + 1), Val(p as real))
    else NumWilderNext(p, AdxAt(dx, p, i - 1), dx[i])
  }

  function DxColumn(high: seq<real>, low: seq<real>, close: seq<real>, p: int): seq<Num>
    requires |low| == |high| && |close| == |high| && 1 <= p
  {
    seq(|high|, i requires 0 <= i < |high| => DxAt(high, low, close, p, i))
  }

  function AdxColumn(high: seq<real>, low: seq<real>, close: seq<real>, p: int): (r: seq<Num>)
    ensures |r| == |high|
  {
    if p < 1 || |low| != |high| || |close| != |high| then Undefined(|high|)
    else
      var dx := DxColumn(high, low, close, p);
      seq(|high|, i requires 0 <= i < |high| => if i < 2 * p then NaN else AdxAt(dx, p, i))
  }

  /** One smoothed series of the ADX, updated in place of index `i - 1`. */
  function NextSeeded(sum: real, prev: real, x: real, p: int, i: nat): real
    requires p >= 1
  {
    if i == p then sum / p as real else WilderNext(p, prev, x)
  }

  lemma SeededUnfolds(vs: seq<real>, p: int, i: nat, prev: real)
    requires 1 <= p <= i < |vs| && (i > p ==> prev == SeededAt(vs, p, i - 1))
    ensures SeededAt(vs, p, i) == NextSeeded(Sum(vs, p), prev, vs[i], p, i)
  {
    hide WilderNext;
  }

  /** The first loop: directional indices. */
  method DirectionalIndices(high: seq<real>, low: seq<real>, close: seq<real>, p: int) returns (dx: seq<Num>)
    requires |low| == |high| && |close| == |high| && 1 <= p
    ensures dx == DxColumn(high, low, close, p)
  {
    hide DirectionalIndex, NextSeeded, SeededAt, TrueRange, DirectionalMovement;
    var n := |high|;
    ghost var trs, pdms, ndms := TrueRanges(high, low, close), PlusMoves(high, low), MinusMoves(high, low);
    var dxValues := new Num[n](_ => Val(0.0));
    var sumTR, sumPDM, sumNDM := 0.0, 0.0, 0.0;
    var smoothedTR, smoothedPDM, smoothedNDM := 0.0, 0.0, 0.0;
    for i := 0 to n
      invariant sumTR == Sum(trs, MinInt(i, p))
      invariant sumPDM == Sum(pdms, MinInt(i, p)) && sumNDM == Sum(ndms, MinInt(i, p))
      invariant i > p ==> smoothedTR == SeededAt(trs, p, i - 1)
      invariant i > p ==> smoothedPDM == SeededAt(pdms, p, i - 1) && smoothedNDM == SeededAt(ndms, p, i - 1)
      invariant forall j :: 0 <= j < i ==> dxValues[j] == DxAt(high, low, close, p, j)
      invariant forall j :: i <= j < n ==> dxValues[j] == Val(0.0)
    {
      var tr := TrueRange(high[i], low[i], close, i);
      var (pdm, ndm) := DirectionalMovement(high, low, i);
      assert tr == trs[i] && pdm == pdms[i] && ndm == ndms[i];
      if i < p {
        sumTR := sumTR + tr;
        sumPDM := sumPDM + pdm;
        sumNDM := sumNDM + ndm;
      } else {
        SeededUnfolds(trs, p, i, smoothedTR);
        SeededUnfolds(pdms, p, i, smoothedPDM);
        SeededUnfolds(ndms, p, i, smoothedNDM);
        smoothedTR := NextSeeded(sumTR, smoothedTR, tr, p, i);
        smoothedPDM := NextSeeded(sumPDM, smoothedPDM, pdm, p, i);
        smoothedNDM := NextSeeded(sumNDM, smoothedNDM, ndm, p, i);
        dxValues[i] := DirectionalIndex(smoothedTR, smoothedPDM, smoothedNDM);
      }
    }
    dx := dxValues[..];
  }

  lemma AdxUnfolds(dx: seq<Num>, p: int, i: nat)
    requires 1 <= p && 2 * p <= i < |dx|
    ensures AdxAt(dx, p, i) ==
            if i == 2 * p then Over(NumSum(dx, p + 1, 2 * p + 1), Val(p as real))
            else NumWilderNext(p, AdxAt(dx, p, i - 1), dx[i])
  {
  }

  lemma NumSumUnfolds(vs: seq<Num>, lo: nat, hi: nat)
    requires lo <= hi
    ensures lo == hi <= |vs| ==> NumSum(vs, lo, hi) == Val(0.0)
    ensures lo < hi <= |vs| ==> NumSum(vs, lo, hi) == Plus(NumSum(vs, lo, hi - 1), vs[hi - 1])
  {
    hide Plus;
  }

  /** The second loop: the average of the directional indices. */
  method AverageDx(dx: seq<Num>, p: int) returns (result: seq<Num>)
    requires p >= 1
    ensures |result| == |dx|
    ensures forall j :: 0 <= j < |dx| ==> result[j] == if 2 * p <= j then AdxAt(dx, p, j) else NaN
  {
    hide Over, Plus, NumWilderNext, AdxAt, NumSum;
    var n := |dx|;
    var column := new Num[n](_ => NaN);
    var dxCount, dxSum := 0, Val(0.0);
    var i := p + 1;
    NumSumUnfolds(dx, p + 1, p + 1);
    while i < n
      invariant p + 1 <= i && (i <= n || i == p + 1)
      invariant i <= 2 * p + 1 ==> dxCount == i - p - 1 && (i <= n ==> dxSum == NumSum(dx, p + 1, i))
      invariant i > 2 * p ==> dxCount == p
      invariant forall j :: 0 <= j < n ==> column[j] == if 2 * p <= j < i then AdxAt(dx, p, j) else NaN
    {
      if dxCount < p {
        NumSumUnfolds(dx, p + 1, i + 1);
        dxSum := Plus(dxSum, dx[i]);
        dxCount := dxCount + 1;
        if dxCount == p {
          AdxUnfolds(dx, p, i);
          column[i] := Over(dxSum, Val(p as real));
        }
      } else {
        AdxUnfolds(dx, p, i);
        column[i] := NumWilderNext(p, column[i - 1], dx[i]);
      }
      i := i + 1;
    }
    result := column[..];
  }

  method ADX(high: seq<real>, low: seq<real>, close: seq<real>, p: int) returns (result: seq<Num>)
    ensures result == AdxColumn(high, low, close, p)
  {
    var n := |high|;
    if p < 1 || n == 0 || |low| != n || |close| != n {
      return Undefined(n);
    }
    var dx := DirectionalIndices(high, low, close, p);
    result := AverageDx(dx, p);
  }

  lemma PercentageOf(pdi: real, ndi: real)
    requires pdi >= 0.0 && ndi >= 0.0 && pdi + ndi > 0.0
    ensures 0.0 <= 100.0 * Abs(pdi - ndi) / (pdi + ndi) <= 100.0
  {
    DivWithin(100.0 * Abs(pdi - ndi), pdi + ndi, 0.0, 100.0);
  }

  /** An index from non-negative parts is a percentage. */
  lemma IndexWithin(tr: real, pdm: real, ndm: real)
    requires tr > 0.0 && pdm >= 0.0 && ndm >= 0.0
    ensures DirectionalIndex(tr, pdm, ndm).Val?
    ensures 0.0 <= DirectionalIndex(tr, pdm, ndm).v <= 100.0
  {
    var pdi, ndi := 100.0 * pdm / tr, 100.0 * ndm / tr;
    QuotientNonNegative(100.0 * pdm, tr);
    QuotientNonNegative(100.0 * ndm, tr);
    if pdi + ndi != 0.0 {
      PercentageOf(pdi, ndi);
    }
  }

  /** A valid candle series: no high below its low. */
  predicate HighsAboveLows(high: seq<real>, low: seq<real>) {
    |low| == |high| && forall i :: 0 <= i < |high| ==> low[i] <= high[i]
  }

  lemma MovesNonNegative(high: seq<real>, low: seq<real>, close: seq<real>)
    requires HighsAboveLows(high, low) && |close| == |high|
    ensures forall j :: 0 <= j < |high| ==> TrueRanges(high, low, close)[j] >= 0.0
    ensures forall j :: 0 <= j < |high| ==> PlusMoves(high, low)[j] >= 0.0 && MinusMoves(high, low)[j] >= 0.0
  {
  }

  lemma SeededNonNegative(vs: seq<real>, p: int, i: nat)
    requires 1 <= p <= i < |vs| && forall j :: 0 <= j < |vs| ==> vs[j] >= 0.0
    ensures SeededAt(vs, p, i) >= 0.0
  {
    SumNonNegative(vs, p);
    QuotientNonNegative(Sum(vs, p), p as real);
    WilderNonNegative(p, Sum(vs, p) / p as real, vs, p, i);
  }

  lemma ZeroRangeUndefined(pdm: real, ndm: real)
    ensures DirectionalIndex(0.0, pdm, ndm) == NaN
  {
  }

  /** The directional index is defined exactly where the smoothed true range is not zero,
      and is a percentage there. */
  lemma DxDefinedExactly(high: seq<real>, low: seq<real>, close: seq<real>, p: int, i: nat)
    requires HighsAboveLows(high, low) && |close| == |high| && 1 <= p <= i < |high|
    ensures DxAt(high, low, close, p, i).Val? <==> SeededAt(TrueRanges(high, low, close), p, i) != 0.0
    ensures DxAt(high, low, close, p, i).Val? ==> 0.0 <= DxAt(high, low, close, p, i).v <= 100.0
  {
    hide SeededAt, DirectionalIndex;
    MovesNonNegative(high, low, close);
    var tr, pdm, ndm :=
      SeededAt(TrueRanges(high, low, close), p, i), SeededAt(PlusMoves(high, low), p, i),
      SeededAt(MinusMoves(high, low), p, i);
    SeededNonNegative(TrueRanges(high, low, close), p, i);
    SeededNonNegative(PlusMoves(high, low), p, i);
    SeededNonNegative(MinusMoves(high, low), p, i);
    if tr != 0.0 {
      IndexWithin(tr, pdm, ndm);
    } else {
      assert DirectionalIndex(0.0, pdm, ndm) == NaN by { ZeroRangeUndefined(pdm, ndm); }
    }
  }

  lemma SumTimes(a: real, b: real, c: real)
    ensures (a + b) * c == a * c + b * c
    ensures (a - b) * c == a * c - b * c
  {
  }

  lemma AbsScales(tr: real, x: real, y: real)
    requires tr > 0.0 && x * tr == y
    ensures Abs(x) * tr == Abs(y)
  {
    MulStrict(tr, x, 0.0);
    MulStrict(tr, 0.0, x);
    assert (-x) * tr == -(x * tr);
  }

  lemma ShareCancels(tr: real, pdi: real, ndi: real, pdm: real, ndm: real)
    requires tr > 0.0 && pdi * tr == 100.0 * pdm && ndi * tr == 100.0 * ndm && pdm >= 0.0 && ndm >= 0.0
    ensures (pdi + ndi) * tr == 100.0 * (pdm + ndm)
    ensures Abs(pdi - ndi) * tr == 100.0 * Abs(pdm - ndm)
    ensures pdi + ndi == 0.0 ==> pdm == 0.0 && ndm == 0.0
  {
    SumTimes(pdi, ndi, tr);
    AbsScales(tr, pdi - ndi, 100.0 * (pdm - ndm));
  }

  lemma IndexIsShare(tr: real, pdm: real, ndm: real)
    requires tr > 0.0 && pdm >= 0.0 && ndm >= 0.0
    ensures DirectionalIndex(tr, pdm, ndm).Val?
    ensures DirectionalIndex(tr, pdm, ndm).v * (pdm + ndm) == 100.0 * Abs(pdm - ndm)
  {
    var pdi, ndi := 100.0 * pdm / tr, 100.0 * ndm / tr;
    assert pdi * tr == 100.0 * pdm && ndi * tr == 100.0 * ndm;
    var v := DirectionalIndex(tr, pdm, ndm).v;
    ShareCancels(tr, pdi, ndi, pdm, ndm);
    if pdi + ndi != 0.0 {
      assert v * (pdi + ndi) == 100.0 * Abs(pdi - ndi);
      assert v * ((pdi + ndi) * tr) == (v * (pdi + ndi)) * tr;
      assert 100.0 * (Abs(pdi - ndi) * tr) == (100.0 * Abs(pdi - ndi)) * tr;
    }
  }

  /** Where defined, the index is the share of the net movement in the whole movement, on a
      scale of 100: the true range cancels out. */
  lemma DxIsShare(high: seq<real>, low: seq<real>, close: seq<real>, p: int, i: nat)
    requires HighsAboveLows(high, low) && |close| == |high| && 1 <= p <= i < |high|
    requires DxAt(high, low, close, p, i).Val?
    ensures var plus, minus := SeededAt(PlusMoves(high, low), p, i), SeededAt(MinusMoves(high, low), p, i);
            && plus >= 0.0 && minus >= 0.0
            && DxAt(high, low, close, p, i).v * (plus + minus) == 100.0 * Abs(plus - minus)
  {
    hide SeededAt, DirectionalIndex;
    MovesNonNegative(high, low, close);
    var tr, plus, minus :=
      SeededAt(TrueRanges(high, low, close), p, i), SeededAt(PlusMoves(high, low), p, i),
      SeededAt(MinusMoves(high, low), p, i);
    SeededNonNegative(TrueRanges(high, low, close), p, i);
    SeededNonNegative(PlusMoves(high, low), p, i);
    SeededNonNegative(MinusMoves(high, low), p, i);
    if tr == 0.0 {
      ZeroRangeUndefined(plus, minus);
    } else {
      IndexIsShare(tr, plus, minus);
    }
  }

  lemma NextShrinks(p: int, x: real, c: real)
    requires p >= 2 && c * p as real == (p - 1) as real
    ensures WilderNext(p, x, 0.0) == x * c
  {
    var d, q := p as real, WilderNext(p, x, 0.0);
    assert q * d == x * (p - 1) as real;
    assert (x * c) * d == x * (c * d);
    MulStrict(d, q, x * c);
    MulStrict(d, x * c, q);
  }

  lemma SameShare(a: real, b: real, c: real)
    requires b > 0.0 && c > 0.0
    ensures b * c != 0.0 && (a * c) / (b * c) == a / b
  {
    MulPositive(b, c);
    var q := a / b;
    assert q * b == a;
    assert q * (b * c) == (q * b) * c;
    var r := (a * c) / (b * c);
    assert r * (b * c) == a * c;
    MulStrict(b * c, q, r);
    MulStrict(b * c, r, q);
  }

  lemma ScaledIndex(tr: real, pdm: real, ndm: real, c: real)
    requires tr > 0.0 && c > 0.0
    ensures DirectionalIndex(tr * c, pdm * c, ndm * c) == DirectionalIndex(tr, pdm, ndm)
  {
    MulPositive(tr, c);
    SameShare(100.0 * pdm, tr, c);
    SameShare(100.0 * ndm, tr, c);
    Reassociate(100.0, pdm, c);
    Reassociate(100.0, ndm, c);
  }

  /** A bar on which nothing moves shrinks all three averages alike, so the index stays. */
  lemma IndexFreezes(p: int, tr: real, pdm: real, ndm: real)
    requires p >= 2 && tr > 0.0 && pdm >= 0.0 && ndm >= 0.0
    ensures DirectionalIndex(WilderNext(p, tr, 0.0), WilderNext(p, pdm, 0.0), WilderNext(p, ndm, 0.0))
            == DirectionalIndex(tr, pdm, ndm)
  {
    hide DirectionalIndex, WilderNext;
    var c := (p - 1) as real / p as real;
    PositiveQuotient((p - 1) as real, p as real);
    NextShrinks(p, tr, c);
    NextShrinks(p, pdm, c);
    NextShrinks(p, ndm, c);
    ScaledIndex(tr, pdm, ndm, c);
  }

  lemma {:induction false} NumSumWithin(vs: seq<Num>, lo: nat, hi: nat)
    requires lo <= hi <= |vs|
    requires forall j :: lo <= j < hi && vs[j].Val? ==> 0.0 <= vs[j].v <= 100.0
    ensures NumSum(vs, lo, hi).Val? <==> forall j :: lo <= j < hi ==> vs[j].Val?
    ensures NumSum(vs, lo, hi).Val? ==> 0.0 <= NumSum(vs, lo, hi).v <= 100.0 * (hi - lo) as real
    decreases hi
  {
    if hi > lo {
      NumSumWithin(vs, lo, hi - 1);
    }
  }

  lemma NextPercentage(p: int, prev: real, x: real)
    requires p >= 1 && 0.0 <= prev <= 100.0 && 0.0 <= x <= 100.0
    ensures NumWilderNext(p, Val(prev), Val(x)).Val?
    ensures 0.0 <= NumWilderNext(p, Val(prev), Val(x)).v <= 100.0
  {
    hide Blend;
    assert NumWilderNext(p, Val(prev), Val(x)) == Val(WilderNext(p, prev, x));
    WilderIsBlend(p, prev, x);
    BlendWithin(1.0 / p as real, x, prev, 0.0, 100.0);
  }

  /** The ADX at `i` is defined exactly when every directional index it reads is, and is
      then a percentage. */
  lemma {:induction false} AdxDefinedExactly(dx: seq<Num>, p: int, i: nat)
    requires 1 <= p && 2 * p <= i < |dx|
    requires forall j :: p < j < |dx| && dx[j].Val? ==> 0.0 <= dx[j].v <= 100.0
    ensures AdxAt(dx, p, i).Val? <==> forall j :: p < j <= i ==> dx[j].Val?
    ensures AdxAt(dx, p, i).Val? ==> 0.0 <= AdxAt(dx, p, i).v <= 100.0
    decreases i
  {
    if i == 2 * p {
      NumSumWithin(dx, p + 1, 2 * p + 1);
      if NumSum(dx, p + 1, 2 * p + 1).Val? {
        DivWithin(NumSum(dx, p + 1, 2 * p + 1).v, p as real, 0.0, 100.0);
      }
    } else {
      AdxDefinedExactly(dx, p, i - 1);
      if AdxAt(dx, p, i - 1).Val? && dx[i].Val? {
        NextPercentage(p, AdxAt(dx, p, i - 1).v, dx[i].v);
      }
    }
  }

  /** The ADX column of a valid candle series: undefined below 2p; from there on defined
      exactly while no smoothed true range after index p was zero; and always a percentage. */
  lemma AdxExactly(high: seq<real>, low: seq<real>, close: seq<real>, p: int, i: nat)
    requires HighsAboveLows(high, low) && |close| == |high| && 1 <= p && i < |high|
    ensures var adx := AdxColumn(high, low, close, p)[i];
            && (adx.Val? <==>
                  && 2 * p <= i
                  && forall j :: p < j <= i ==> SeededAt(TrueRanges(high, low, close), p, j) != 0.0)
            && (adx.Val? ==> 0.0 <= adx.v <= 100.0)
  {
    hide SeededAt, DxAt, AdxAt;
    var dx := DxColumn(high, low, close, p);
    forall j | p <= j < |high|
      ensures dx[j].Val? <==> SeededAt(TrueRanges(high, low, close), p, j) != 0.0
      ensures dx[j].Val? ==> 0.0 <= dx[j].v <= 100.0
    {
      DxDefinedExactly(high, low, close, p, j);
    }
    if 2 * p <= i {
      AdxDefinedExactly(dx, p, i);
    }
  }

  /** Candle `m` has a true range that reaches the first smoothed range the ADX uses, the
      one at index p + 1. The range at index p itself never enters any average. */
  ghost predicate MovesEarly(tr: seq<real>, p: int) {
    exists m :: 0 <= m < |tr| && m <= p + 1 && m != p && tr[m] != 0.0
  }

  lemma {:induction false} SumZeroExactly(vs: seq<real>, k: nat)
    requires k <= |vs| && forall j :: 0 <= j < k ==> vs[j] >= 0.0
    ensures Sum(vs, k) == 0.0 <==> forall j :: 0 <= j < k ==> vs[j] == 0.0
  {
    if k > 0 {
      SumNonNegative(vs, k - 1);
      SumZeroExactly(vs, k - 1);
    }
  }

  lemma NextZeroExactly(p: int, prev: real, x: real)
    requires p >= 2 && prev >= 0.0 && x >= 0.0
    ensures WilderNext(p, prev, x) >= 0.0
    ensures WilderNext(p, prev, x) == 0.0 <==> prev == 0.0 && x == 0.0
  {
    var d := p as real;
    var top := prev * (p - 1) as real + x;
    assert (top / d) * d == top;
    NextNonNegative(p, prev, x);
    if prev > 0.0 {
      MulPositive(prev, (p - 1) as real);
    } else {
      assert prev * (p - 1) as real == 0.0;
    }
  }

  lemma FirstUsedPositive(vs: seq<real>, p: int)
    requires 2 <= p && p + 1 < |vs| && forall j :: 0 <= j < |vs| ==> vs[j] >= 0.0
    ensures SeededAt(vs, p, p + 1) >= 0.0
    ensures SeededAt(vs, p, p + 1) != 0.0 <==> MovesEarly(vs, p)
  {
    hide WilderNext;
    SumNonNegative(vs, p);
    SumZeroExactly(vs, p);
    var seed := Sum(vs, p) / p as real;
    assert seed * p as real == Sum(vs, p);
    QuotientNonNegative(Sum(vs, p), p as real);
    assert WilderAt(p, seed, vs, p, p) == seed;
    assert SeededAt(vs, p, p + 1) == WilderNext(p, seed, vs[p + 1]);
    NextZeroExactly(p, seed, vs[p + 1]);
    if MovesEarly(vs, p) {
      var m :| 0 <= m < |vs| && m <= p + 1 && m != p && vs[m] != 0.0;
      assert m < p || m == p + 1;
    }
  }

  lemma {:induction false} SeededStaysPositive(vs: seq<real>, p: int, i: nat)
    requires 2 <= p < i < |vs| && forall j :: 0 <= j < |vs| ==> vs[j] >= 0.0
    requires SeededAt(vs, p, p + 1) > 0.0
    ensures SeededAt(vs, p, i) > 0.0
    decreases i
  {
    hide WilderNext;
    if i > p + 1 {
      SeededStaysPositive(vs, p, i - 1);
      NextZeroExactly(p, SeededAt(vs, p, i - 1), vs[i]);
    }
  }

  /** For every period above one, the ADX of a valid series is defined at an index from 2p on
      exactly when the market moved early. */
  lemma AdxDefinedExactlyIfMoved(high: seq<real>, low: seq<real>, close: seq<real>, p: int, i: nat)
    requires HighsAboveLows(high, low) && |close| == |high| && 2 <= p && 2 * p <= i < |high|
    ensures AdxColumn(high, low, close, p)[i].Val? <==> MovesEarly(TrueRanges(high, low, close), p)
  {
    hide SeededAt, AdxColumn;
    var tr := TrueRanges(high, low, close);
    MovesNonNegative(high, low, close);
    AdxExactly(high, low, close, p, i);
    FirstUsedPositive(tr, p);
    if MovesEarly(tr, p) {
      forall j | p < j <= i
        ensures SeededAt(tr, p, j) != 0.0
      {
        SeededStaysPositive(tr, p, j);
      }
    }
  }
}
