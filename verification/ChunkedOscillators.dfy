/** How far a backfilled RSI and ADX are from the ones a single pass would compute. Both are
    quotients of Wilder averages, so the bounds carry the one-pass denominator. */
module ChunkedOscillators {
  import opened Numeric
  import opened MarketData
  import opened Market
  import opened Smoothing
  import opened Wilder
  import opened Ema
  import opened Features
  import opened FlowFeatures
  import opened ChunkedCandles
  import opened FeatureBackfill
  import opened ChunkedFeatures
  import OrderFlow

  // ---- RSI ----

  /** No close is further than `hi` from the one before. */
  ghost predicate MovesWithin(closes: seq<real>, hi: real) {
    forall j :: 1 <= j < |closes| ==> Abs(closes[j] - closes[j - 1]) <= hi
  }

  /** A move series: nothing at its first place, and then values of [0, hi]. */
  ghost predicate Moves(vs: seq<real>, hi: real) {
    (forall j :: 0 <= j < |vs| ==> 0.0 <= vs[j] <= hi) && (vs != [] ==> vs[0] == 0.0)
  }

  lemma GainsAndLossesAreMoves(closes: seq<real>, hi: real)
    requires MovesWithin(closes, hi) && hi >= 0.0
    ensures Moves(Gains(closes), hi) && Moves(Losses(closes), hi)
  {
    forall j | 1 <= j < |closes|
      ensures 0.0 <= Gains(closes)[j] <= hi && 0.0 <= Losses(closes)[j] <= hi
    {
      MoveAt(closes, j);
      assert Abs(closes[j] - closes[j - 1]) <= hi;
    }
  }

  lemma {:induction false} MoveSumWithin(vs: seq<real>, k: nat, hi: real)
    requires Moves(vs, hi) && 1 <= k <= |vs|
    ensures 0.0 <= Sum(vs, k) <= hi * (k - 1) as real
  {
    if k == 1 {
      assert Sum(vs, 1) == Sum(vs, 0) + vs[0];
    } else {
      MoveSumWithin(vs, k - 1, hi);
      assert hi * (k - 1) as real == hi * (k - 2) as real + hi;
    }
  }

  lemma MoveSeedWithin(vs: seq<real>, p: int, hi: real)
    requires Moves(vs, hi) && 1 <= p < |vs|
    ensures 0.0 <= Sum(vs, p + 1) / p as real <= hi
  {
    hide Moves;
    MoveSumWithin(vs, p + 1, hi);
    DivWithin(Sum(vs, p + 1), p as real, 0.0, hi);
  }

  /** Two average moves over the same moves from the second on, started `s` apart. */
  lemma AverageMoveForgets(all: seq<real>, part: seq<real>, s: nat, p: int, i: nat, hi: real)
    requires 1 <= p <= i < |part| && s + i < |all| && Moves(all, hi) && Moves(part, hi)
    requires forall j :: 1 <= j < |part| && s + j < |all| ==> part[j] == all[s + j]
    ensures Abs(AverageMove(part, p, i) - AverageMove(all, p, s + i)) <= AtrTolerance(p, i, hi)
  {
    hide Pow, WilderAt, Smoothed, Sum, Abs, Blend, WilderNext;
    var seed1, seed2 := Sum(all, p + 1) / p as real, Sum(part, p + 1) / p as real;
    MoveSeedWithin(all, p, hi);
    MoveSeedWithin(part, p, hi);
    WilderIsSmoothed(p, seed1, all, p, s + i);
    WilderIsSmoothed(p, seed1, all, p, s + p);
    WilderIsSmoothed(p, seed2, part, p, i);
    WilderWithin(p, seed1, all, p, s + p, 0.0, hi);
    WilderIsBlend(p, 0.0, 0.0);
    SmoothedGapBounded(1.0 / p as real, seed1, all, s, seed2, part, p, i, hi);
  }

  lemma ScaledSum(u: real, v: real, z: real)
    requires u + v == 100.0
    ensures u * z + v * z == 100.0 * z
  {
    assert u * z + v * z == (u + v) * z;
  }

  lemma WeightedWithin(u: real, v: real, x: real, y: real, gap: real)
    requires 0.0 <= u && 0.0 <= v && u + v == 100.0 && -gap <= x <= gap && -gap <= y <= gap
    ensures -(100.0 * gap) <= u * x + v * y <= 100.0 * gap
  {
    SumMono(u, v, x, y, gap, gap);
    SumMono(u, v, -gap, -gap, x, y);
    ScaledSum(u, v, gap);
    ScaledSum(u, v, -gap);
    var least, middle, most := u * -gap + v * -gap, u * x + v * y, u * gap + v * gap;
    assert least <= middle <= most;
  }

  lemma AbsTimes(x: real, s: real, bound: real)
    requires s >= 0.0 && -bound <= x * s <= bound
    ensures Abs(x) * s <= bound
  {
    assert (-x) * s == -(x * s);
  }

  /** Two shares of a total, from parts that differ by at most `gap`. */
  lemma SharesClose(r1: real, g1: real, l1: real, r2: real, g2: real, l2: real, gap: real)
    requires g1 >= 0.0 && l1 >= 0.0 && 0.0 <= r2 <= 100.0
    requires r1 * (g1 + l1) == 100.0 * g1 && r2 * (g2 + l2) == 100.0 * g2
    requires Abs(g2 - g1) <= gap && Abs(l2 - l1) <= gap
    ensures Abs(r1 - r2) * (g1 + l1) <= 100.0 * gap
  {
    var rest, dg, dl := 100.0 - r2, g1 - g2, l1 - l2;
    assert (r1 - r2) * (g1 + l1) == rest * dg - r2 * dl by {
      assert r2 * (g1 + l1) == r2 * (g2 + l2) + r2 * dg + r2 * dl;
      assert rest * dg == 100.0 * dg - r2 * dg;
    }
    WeightedWithin(rest, r2, dg, -dl, gap);
    AbsTimes(r1 - r2, g1 + l1, 100.0 * gap);
  }

  lemma ChunkMoves(closes: seq<real>, s: nat, e: nat, hi: real)
    requires s + 1 < e <= |closes| && MovesWithin(closes, hi)
    ensures var chunk := closes[s..e];
            && Moves(Gains(closes), hi) && Moves(Losses(closes), hi)
            && Moves(Gains(chunk), hi) && Moves(Losses(chunk), hi)
            && (forall j :: 1 <= j < |chunk| ==> Gains(chunk)[j] == Gains(closes)[s + j])
            && (forall j :: 1 <= j < |chunk| ==> Losses(chunk)[j] == Losses(closes)[s + j])
  {
    hide Gains, Losses, Moves, MaxReal;
    var chunk := closes[s..e];
    assert hi >= 0.0 by {
      assert Abs(closes[1] - closes[0]) <= hi;
    }
    assert MovesWithin(chunk, hi) by {
      forall j | 1 <= j < |chunk|
        ensures Abs(chunk[j] - chunk[j - 1]) <= hi
      {
        assert Abs(closes[s + j] - closes[s + j - 1]) <= hi;
      }
    }
    GainsAndLossesAreMoves(closes, hi);
    GainsAndLossesAreMoves(chunk, hi);
    forall j | 1 <= j < |chunk|
      ensures Gains(chunk)[j] == Gains(closes)[s + j] && Losses(chunk)[j] == Losses(closes)[s + j]
    {
      MoveAt(chunk, j);
      MoveAt(closes, s + j);
    }
  }

  /** Restarting the RSI at a chunk: its distance from the one-pass RSI, times the one-pass
      average move, is at most 100 * (1 - 1/p)^(i-p) times the greatest close move. */
  lemma ChunkedRsiBound(closes: seq<real>, s: nat, e: nat, p: int, i: nat, hi: real)
    requires 1 <= p <= i && s + i < e <= |closes| && MovesWithin(closes, hi)
    ensures var one, part := RsiColumn(closes, p)[s + i], RsiColumn(closes[s..e], p)[i];
            && one.Val? && part.Val?
            && Abs(one.v - part.v) * (AverageMove(Gains(closes), p, s + i) + AverageMove(Losses(closes), p, s + i))
               <= 100.0 * AtrTolerance(p, i, hi)
  {
    hide AverageMove, AtrTolerance, RsiColumn, MovesWithin, Moves, Gains, Losses, Abs;
    var chunk := closes[s..e];
    ChunkMoves(closes, s, e, hi);
    AverageMoveForgets(Gains(closes), Gains(chunk), s, p, i, hi);
    AverageMoveForgets(Losses(closes), Losses(chunk), s, p, i, hi);
    RsiIsGainShare(closes, p, s + i);
    RsiIsGainShare(chunk, p, i);
    RsiWithin(chunk, p, i);
    var g1, l1 := AverageMove(Gains(closes), p, s + i), AverageMove(Losses(closes), p, s + i);
    var g2, l2 := AverageMove(Gains(chunk), p, i), AverageMove(Losses(chunk), p, i);
    SharesClose(RsiColumn(closes, p)[s + i].v, g1, l1, RsiColumn(chunk, p)[i].v, g2, l2, AtrTolerance(p, i, hi));
  }

  /** For every written row, whatever the prices: the RSI is off from the one-pass RSI by at
      most 100 * (13/14)^(i-14) times the greatest close move, divided by the one-pass average
      move, where i >= 200 is the row's place in its chunk. */
  lemma WrittenRsiNearOnePass(lib: MathLib, tables: OrderFlow.Tables, db: seq<Candle>, j: nat, hi: real)
    requires WARMUP_BARS <= j < |db| && MovesWithin(Closes(db), hi)
    ensures var w, o := WrittenRow(lib, tables, db, j).price.rsi14, OnePassRow(lib, tables, db, j).price.rsi14;
            var i := WritingPlace(j);
            && WARMUP_BARS <= i < CHUNK_SIZE && w.Val? && o.Val?
            && Abs(o.v - w.v) * (AverageMove(Gains(Closes(db)), 14, j) + AverageMove(Losses(Closes(db)), 14, j))
               <= 100.0 * AtrTolerance(14, i, hi)
  {
    hide EmaColumn, RsiColumn, AtrColumn, AdxColumn, LogReturnColumn, VolatilityColumn, FieldsAt, FlowFor;
    hide AtrTolerance, AverageMove, MovesWithin;
    var s, i := STRIDE * WritingChunk(j), WritingPlace(j);
    var chunk := ChunkAt(db, WritingChunk(j));
    var e := s + |chunk|;
    ColumnLengths(lib, chunk);
    ColumnLengths(lib, db);
    assert Closes(chunk) == Closes(db)[s..e];
    ChunkedRsiBound(Closes(db), s, e, 14, i, hi);
  }

  // ---- ADX ----

  /** No high, and no low, is further than `hi` from the one before. */
  ghost predicate ExtremesWithin(high: seq<real>, low: seq<real>, hi: real)
    requires |low| == |high|
  {
    forall j :: 1 <= j < |high| ==> Abs(high[j] - high[j - 1]) <= hi && Abs(low[j] - low[j - 1]) <= hi
  }

  /** The average directional movement, both ways: the denominator of the index. */
  function Movement(high: seq<real>, low: seq<real>, p: int, i: nat): real
    requires |low| == |high| && 1 <= p <= i < |high|
  {
    SeededAt(PlusMoves(high, low), p, i) + SeededAt(MinusMoves(high, low), p, i)
  }

  lemma DirectionalMoves(high: seq<real>, low: seq<real>, hi: real)
    requires |low| == |high| && ExtremesWithin(high, low, hi) && hi >= 0.0
    ensures Moves(PlusMoves(high, low), hi) && Moves(MinusMoves(high, low), hi)
  {
    forall j | 1 <= j < |high|
      ensures 0.0 <= PlusMoves(high, low)[j] <= hi && 0.0 <= MinusMoves(high, low)[j] <= hi
    {
      assert Abs(high[j] - high[j - 1]) <= hi && Abs(low[j] - low[j - 1]) <= hi;
    }
  }

  lemma FirstStepWithin(high: seq<real>, low: seq<real>, hi: real)
    requires |low| == |high| && |high| >= 2 && ExtremesWithin(high, low, hi)
    ensures hi >= 0.0
  {
    assert Abs(high[1] - high[0]) <= hi;
  }

  lemma MovementIsLocal(high: seq<real>, low: seq<real>, s: nat, e: nat, j: nat)
    requires |low| == |high| && s < e <= |high| && 1 <= j < e - s
    ensures DirectionalMovement(high[s..e], low[s..e], j) == DirectionalMovement(high, low, s + j)
  {
  }

  lemma MovesAreLocal(high: seq<real>, low: seq<real>, s: nat, e: nat)
    requires |low| == |high| && s < e <= |high|
    ensures var h, l := high[s..e], low[s..e];
            && (forall j :: 1 <= j < |h| ==> PlusMoves(h, l)[j] == PlusMoves(high, low)[s + j])
            && (forall j :: 1 <= j < |h| ==> MinusMoves(h, l)[j] == MinusMoves(high, low)[s + j])
  {
    hide DirectionalMovement;
    var h, l := high[s..e], low[s..e];
    forall j | 1 <= j < |h|
      ensures DirectionalMovement(h, l, j) == DirectionalMovement(high, low, s + j)
    {
      MovementIsLocal(high, low, s, e, j);
    }
  }

  lemma ChunkDirectionalMoves(high: seq<real>, low: seq<real>, s: nat, e: nat, hi: real)
    requires |low| == |high| && s + 1 < e <= |high| && ExtremesWithin(high, low, hi)
    ensures var h, l := high[s..e], low[s..e];
            && Moves(PlusMoves(high, low), hi) && Moves(MinusMoves(high, low), hi)
            && Moves(PlusMoves(h, l), hi) && Moves(MinusMoves(h, l), hi)
            && (forall j :: 1 <= j < |h| ==> PlusMoves(h, l)[j] == PlusMoves(high, low)[s + j])
            && (forall j :: 1 <= j < |h| ==> MinusMoves(h, l)[j] == MinusMoves(high, low)[s + j])
  {
    hide Moves, PlusMoves, MinusMoves, Abs;
    var h, l := high[s..e], low[s..e];
    assert hi >= 0.0 by {
      FirstStepWithin(high, low, hi);
    }
    assert ExtremesWithin(h, l, hi) by {
      forall j | 1 <= j < |h|
        ensures Abs(h[j] - h[j - 1]) <= hi && Abs(l[j] - l[j - 1]) <= hi
      {
        assert Abs(high[s + j] - high[s + j - 1]) <= hi && Abs(low[s + j] - low[s + j - 1]) <= hi;
      }
    }
    DirectionalMoves(high, low, hi);
    DirectionalMoves(h, l, hi);
    MovesAreLocal(high, low, s, e);
  }

  lemma PercentageWithin(d: real, x: real, bound: real)
    requires 0.0 <= d <= 100.0 && -bound <= x <= bound
    ensures -(100.0 * bound) <= d * x <= 100.0 * bound
  {
    WeightedWithin(d, 100.0 - d, x, 0.0, bound);
  }

  /** Two indices from movements that differ by at most `gap` each way. */
  lemma IndicesClose(d1: real, p1: real, n1: real, d2: real, p2: real, n2: real, gap: real)
    requires p1 >= 0.0 && n1 >= 0.0 && 0.0 <= d2 <= 100.0 && gap >= 0.0
    requires d1 * (p1 + n1) == 100.0 * Abs(p1 - n1) && d2 * (p2 + n2) == 100.0 * Abs(p2 - n2)
    requires -gap <= p1 - p2 <= gap && -gap <= n1 - n2 <= gap
    ensures Abs(d1 - d2) * (p1 + n1) <= 400.0 * gap
  {
    var net, total := Abs(p1 - n1) - Abs(p2 - n2), (p1 - p2) + (n1 - n2);
    assert -(2.0 * gap) <= net <= 2.0 * gap;
    assert (d1 - d2) * (p1 + n1) == 100.0 * net - d2 * total by {
      assert d2 * (p1 + n1) == d2 * (p2 + n2) + d2 * total;
    }
    PercentageWithin(d2, total, 2.0 * gap);
    AbsTimes(d1 - d2, p1 + n1, 400.0 * gap);
  }

  lemma MovementsForget(all: seq<real>, part: seq<real>, s: nat, p: int, i: nat, hi: real)
    requires 1 <= p <= i < |part| && s + i < |all| && Moves(all, hi) && Moves(part, hi)
    requires forall j :: 1 <= j < |part| ==> s + j < |all| && part[j] == all[s + j]
    ensures -AtrTolerance(p, i, hi) <= SeededAt(all, p, s + i) - SeededAt(part, p, i) <= AtrTolerance(p, i, hi)
  {
    hide SeededAt, AtrTolerance;
    SeededForgets(all, part, s, p, i, hi);
  }

  /** Restarting the directional index at a chunk: its distance from the one-pass index, times
      the one-pass movement, is at most 400 * (1 - 1/p)^(i-p) times the greatest move. */
  lemma ChunkedDxBound(high: seq<real>, low: seq<real>, close: seq<real>, s: nat, e: nat, p: int, i: nat, hi: real)
    requires HighsAboveLows(high, low) && |close| == |high| && 1 <= p <= i && s + i < e <= |high|
    requires ExtremesWithin(high, low, hi)
    requires DxAt(high, low, close, p, s + i).Val? && DxAt(high[s..e], low[s..e], close[s..e], p, i).Val?
    ensures Abs(DxAt(high, low, close, p, s + i).v - DxAt(high[s..e], low[s..e], close[s..e], p, i).v)
            * Movement(high, low, p, s + i)
            <= 400.0 * AtrTolerance(p, i, hi)
  {
    hide SeededAt, AtrTolerance, DxAt, Moves, ExtremesWithin, PlusMoves, MinusMoves;
    var h, l, c := high[s..e], low[s..e], close[s..e];
    ChunkDirectionalMoves(high, low, s, e, hi);
    MovementsForget(PlusMoves(high, low), PlusMoves(h, l), s, p, i, hi);
    MovementsForget(MinusMoves(high, low), MinusMoves(h, l), s, p, i, hi);
    DxIsShare(high, low, close, p, s + i);
    DxIsShare(h, l, c, p, i);
    DxDefinedExactly(h, l, c, p, i);
    IndicesClose(
      DxAt(high, low, close, p, s + i).v,
      SeededAt(PlusMoves(high, low), p, s + i), SeededAt(MinusMoves(high, low), p, s + i),
      DxAt(h, l, c, p, i).v, SeededAt(PlusMoves(h, l), p, i), SeededAt(MinusMoves(h, l), p, i),
      AtrTolerance(p, i, hi));
  }

  /** How far a chunked ADX may be, when chunked indices are within k * (1 - 1/p)^(j-p). */
  function AdxTolerance(p: int, i: nat, k: real): real
    requires 1 <= p && 2 * p <= i
  {
    var u := 1.0 - 1.0 / p as real;
    100.0 * Pow(u, i - 2 * p) + k * Pow(u, i - p) * ((i - 2 * p) as real * (1.0 / p as real))
  }

  /** One step of the average: the old gap shrinks, and the new index adds its own. */
  lemma AdxGapStep(w: real, u: real, k: real, f: real, g: real, n: real, dx: real, gap: real)
    requires 0.0 <= w && 0.0 <= u
    requires -(k * (u * g)) <= dx <= k * (u * g)
    requires var before := 100.0 * f + k * g * (n * w); -before <= gap <= before
    ensures var after := 100.0 * (u * f) + k * (u * g) * ((n + 1.0) * w); -after <= w * dx + u * gap <= after
  {
    var before, most := 100.0 * f + k * g * (n * w), k * (u * g);
    MulMono(w, dx, most);
    MulMono(w, -most, dx);
    MulMono(u, gap, before);
    MulMono(u, -before, gap);
    assert w * -most == -(w * most) && u * -before == -(u * before);
    assert u * before == 100.0 * (u * f) + most * (n * w) by {
      assert u * (k * g * (n * w)) == k * (u * g) * (n * w);
      assert u * (100.0 * f) == 100.0 * (u * f);
    }
    assert most * ((n + 1.0) * w) == most * (n * w) + w * most;
  }

  lemma PowStep(b: real, k: nat)
    requires k > 0
    ensures Pow(b, k) == b * Pow(b, k - 1)
  {
  }

  lemma ToleranceStep(p: int, i: nat, k: real, w: real, u: real, dx: real, gap: real, blended: real)
    requires 1 <= p && 2 * p < i && w == 1.0 / p as real && u == 1.0 - w
    requires Abs(dx) <= k * Pow(u, i - p) && Abs(gap) <= AdxTolerance(p, i - 1, k)
    requires blended == w * dx + u * gap
    ensures Abs(blended) <= AdxTolerance(p, i, k)
  {
    hide Pow;
    WilderIsBlend(p, 0.0, 0.0);
    PowStep(u, i - p);
    PowStep(u, i - 2 * p);
    var n := (i - 1 - 2 * p) as real;
    assert (i - 2 * p) as real == n + 1.0;
    assert AdxTolerance(p, i - 1, k) == 100.0 * Pow(u, i - 1 - 2 * p) + k * Pow(u, i - 1 - p) * (n * w);
    AdxGapStep(w, u, k, Pow(u, i - 1 - 2 * p), Pow(u, i - 1 - p), n, dx, gap);
  }

  ghost predicate Percentages(dx: seq<Num>, p: int) {
    forall j :: p < j < |dx| && 0 <= j && dx[j].Val? ==> 0.0 <= dx[j].v <= 100.0
  }

  /** Chunked indices approach the one-pass ones geometrically. */
  ghost predicate IndicesApproach(dx1: seq<Num>, s: nat, dx2: seq<Num>, p: int, i: nat, k: real)
    requires 1 <= p && i < |dx2| && s + i < |dx1|
  {
    forall j :: 2 * p < j <= i && dx1[s + j].Val? && dx2[j].Val? ==>
      Abs(dx1[s + j].v - dx2[j].v) <= k * Pow(1.0 - 1.0 / p as real, j - p)
  }

  lemma ToleranceAtStart(p: int, k: real)
    requires 1 <= p
    ensures AdxTolerance(p, 2 * p, k) == 100.0
  {
    var u := 1.0 - 1.0 / p as real;
    assert Pow(u, 0) == 1.0;
    assert 0.0 * (1.0 / p as real) == 0.0;
    assert k * Pow(u, p) * 0.0 == 0.0;
  }

  lemma BlendsDiffer(w: real, u: real, x1: real, y1: real, x2: real, y2: real)
    requires u == 1.0 - w
    ensures Blend(w, x1, y1) - Blend(w, x2, y2) == w * (x1 - x2) + u * (y1 - y2)
  {
    assert w * (x1 - x2) == w * x1 - w * x2;
    assert u * (y1 - y2) == u * y1 - u * y2;
  }

  lemma BlendedGap(p: int, i: nat, k: real, x1: real, y1: real, x2: real, y2: real)
    requires 1 <= p && 2 * p < i
    requires Abs(x1 - x2) <= k * Pow(1.0 - 1.0 / p as real, i - p)
    requires Abs(y1 - y2) <= AdxTolerance(p, i - 1, k)
    ensures Abs(Blend(1.0 / p as real, x1, y1) - Blend(1.0 / p as real, x2, y2)) <= AdxTolerance(p, i, k)
  {
    hide Abs, Pow, AdxTolerance, Blend;
    var w := 1.0 / p as real;
    var u := 1.0 - w;
    var blended := Blend(w, x1, y1) - Blend(w, x2, y2);
    BlendsDiffer(w, u, x1, y1, x2, y2);
    ToleranceStep(p, i, k, w, u, x1 - x2, y1 - y2, blended);
  }

  /** A defined average comes from a defined average and a defined index. */
  lemma AdxBlends(dx: seq<Num>, p: int, i: nat)
    requires 1 <= p && 2 * p < i < |dx| && AdxAt(dx, p, i).Val?
    ensures AdxAt(dx, p, i - 1).Val? && dx[i].Val?
    ensures AdxAt(dx, p, i) == Val(Blend(1.0 / p as real, dx[i].v, AdxAt(dx, p, i - 1).v))
  {
    hide Blend, AdxAt;
    AdxUnfolds(dx, p, i);
    assert NumWilderNext(p, AdxAt(dx, p, i - 1), dx[i]) == Val(WilderNext(p, AdxAt(dx, p, i - 1).v, dx[i].v));
    WilderIsBlend(p, AdxAt(dx, p, i - 1).v, dx[i].v);
  }

  lemma FirstAveragesClose(dx1: seq<Num>, s: nat, dx2: seq<Num>, p: int, k: real)
    requires 1 <= p && 2 * p < |dx2| && s + 2 * p < |dx1|
    requires Percentages(dx1, p) && Percentages(dx2, p)
    requires AdxAt(dx1, p, s + 2 * p).Val? && AdxAt(dx2, p, 2 * p).Val?
    ensures Abs(AdxAt(dx1, p, s + 2 * p).v - AdxAt(dx2, p, 2 * p).v) <= AdxTolerance(p, 2 * p, k)
  {
    hide AdxAt, AdxTolerance;
    AdxDefinedExactly(dx1, p, s + 2 * p);
    AdxDefinedExactly(dx2, p, 2 * p);
    ToleranceAtStart(p, k);
  }

  lemma {:induction false} AdxForgets(dx1: seq<Num>, s: nat, dx2: seq<Num>, p: int, i: nat, k: real)
    requires 1 <= p && 2 * p <= i < |dx2| && s + i < |dx1|
    requires Percentages(dx1, p) && Percentages(dx2, p) && IndicesApproach(dx1, s, dx2, p, i, k)
    requires AdxAt(dx1, p, s + i).Val? && AdxAt(dx2, p, i).Val?
    ensures Abs(AdxAt(dx1, p, s + i).v - AdxAt(dx2, p, i).v) <= AdxTolerance(p, i, k)
    decreases i
  {
    hide AdxAt, Pow, AdxTolerance, Blend, Abs, Percentages;
    if i == 2 * p {
      FirstAveragesClose(dx1, s, dx2, p, k);
    } else {
      AdxBlends(dx1, p, s + i);
      AdxBlends(dx2, p, i);
      AdxForgets(dx1, s, dx2, p, i - 1, k);
      BlendedGap(p, i, k, dx1[s + i].v, AdxAt(dx1, p, s + i - 1).v, dx2[i].v, AdxAt(dx2, p, i - 1).v);
    }
  }

  lemma FloorDivides(gap: real, movement: real, floor: real, shrunk: real, hi: real)
    requires floor > 0.0 && movement >= floor && gap >= 0.0 && gap * movement <= 400.0 * (shrunk * hi)
    ensures gap <= 400.0 * hi / floor * shrunk
  {
    var q := 400.0 * hi / floor;
    assert q * floor == 400.0 * hi;
    MulMono(gap, floor, movement);
    assert (q * shrunk) * floor == 400.0 * (shrunk * hi) by {
      assert (q * shrunk) * floor == (q * floor) * shrunk;
    }
    MulStrict(floor, gap, q * shrunk);
  }

  lemma IndicesArePercentages(high: seq<real>, low: seq<real>, close: seq<real>, p: int)
    requires HighsAboveLows(high, low) && |close| == |high| && 1 <= p
    ensures Percentages(DxColumn(high, low, close, p), p)
  {
    hide DxAt;
    forall j | p < j < |high| && DxAt(high, low, close, p, j).Val?
      ensures 0.0 <= DxAt(high, low, close, p, j).v <= 100.0
    {
      DxDefinedExactly(high, low, close, p, j);
    }
  }

  /** After index `from`, and through `upTo`, the movement never falls below `floor`. */
  ghost predicate KeepsMoving(high: seq<real>, low: seq<real>, p: int, from: nat, upTo: nat, floor: real)
    requires |low| == |high| && 1 <= p <= from && upTo < |high|
  {
    forall k :: from < k <= upTo ==> Movement(high, low, p, k) >= floor
  }

  lemma AbsNonNegative(x: real)
    ensures Abs(x) >= 0.0
  {
  }

  lemma ChunkedIndicesApproach(
      high: seq<real>, low: seq<real>, close: seq<real>, s: nat, e: nat, p: int, i: nat, hi: real, floor: real)
    requires HighsAboveLows(high, low) && |close| == |high| && 1 <= p && s + i < e <= |high|
    requires ExtremesWithin(high, low, hi) && floor > 0.0 && KeepsMoving(high, low, p, s + 2 * p, s + i, floor)
    ensures IndicesApproach(DxColumn(high, low, close, p), s,
                            DxColumn(high[s..e], low[s..e], close[s..e], p), p, i, 400.0 * hi / floor)
  {
    hide DxAt, Movement, ExtremesWithin, Pow, Abs;
    var dx1, dx2 := DxColumn(high, low, close, p), DxColumn(high[s..e], low[s..e], close[s..e], p);
    forall j | 2 * p < j <= i && dx1[s + j].Val? && dx2[j].Val?
      ensures Abs(dx1[s + j].v - dx2[j].v) <= 400.0 * hi / floor * Pow(1.0 - 1.0 / p as real, j - p)
    {
      assert Movement(high, low, p, s + j) >= floor;
      ChunkedDxBound(high, low, close, s, e, p, j, hi);
      AbsNonNegative(dx1[s + j].v - dx2[j].v);
      FloorDivides(
        Abs(dx1[s + j].v - dx2[j].v), Movement(high, low, p, s + j), floor, Pow(1.0 - 1.0 / p as real, j - p), hi);
    }
  }

  lemma ColumnOfIndices(high: seq<real>, low: seq<real>, close: seq<real>, p: int)
    requires |low| == |high| && |close| == |high| && 1 <= p
    ensures |DxColumn(high, low, close, p)| == |high|
    ensures forall i :: 2 * p <= i < |high| ==>
              AdxColumn(high, low, close, p)[i] == AdxAt(DxColumn(high, low, close, p), p, i)
  {
    hide AdxAt, DxAt;
  }

  /** Restarting the ADX at a chunk: where both are defined and the one-pass movement has kept
      above `floor`, they differ by at most 100 * (1 - 1/p)^(i-2p) from the start, plus
      (400 * hi / floor) * (1 - 1/p)^(i-p) * (i-2p)/p from the indices. */
  lemma ChunkedAdxBound(
      high: seq<real>, low: seq<real>, close: seq<real>, s: nat, e: nat, p: int, i: nat, hi: real, floor: real)
    requires HighsAboveLows(high, low) && |close| == |high| && 1 <= p && 2 * p <= i && s + i < e <= |high|
    requires ExtremesWithin(high, low, hi) && floor > 0.0 && KeepsMoving(high, low, p, s + 2 * p, s + i, floor)
    requires AdxColumn(high, low, close, p)[s + i].Val?
    requires AdxColumn(high[s..e], low[s..e], close[s..e], p)[i].Val?
    ensures Close(AdxColumn(high[s..e], low[s..e], close[s..e], p)[i], AdxColumn(high, low, close, p)[s + i],
                  AdxTolerance(p, i, 400.0 * hi / floor))
  {
    hide DxColumn, Movement, ExtremesWithin, AdxTolerance, Abs, Percentages, IndicesApproach, KeepsMoving;
    var h, l, c := high[s..e], low[s..e], close[s..e];
    var dx1, dx2 := DxColumn(high, low, close, p), DxColumn(h, l, c, p);
    ColumnOfIndices(high, low, close, p);
    ColumnOfIndices(h, l, c, p);
    IndicesArePercentages(high, low, close, p);
    IndicesArePercentages(h, l, c, p);
    ChunkedIndicesApproach(high, low, close, s, e, p, i, hi, floor);
    AdxForgets(dx1, s, dx2, p, i, 400.0 * hi / floor);
    AbsFlips(AdxAt(dx1, p, s + i).v, AdxAt(dx2, p, i).v);
  }

  /** For every written row on which both are defined. */
  lemma WrittenAdxNearOnePass(
      lib: MathLib, tables: OrderFlow.Tables, db: seq<Candle>, j: nat, hi: real, floor: real)
    requires WARMUP_BARS <= j < |db| && ValidSeries(db) && ExtremesWithin(Highs(db), Lows(db), hi) && floor > 0.0
    requires WrittenRow(lib, tables, db, j).price.adx14.Val? && OnePassRow(lib, tables, db, j).price.adx14.Val?
    requires KeepsMoving(Highs(db), Lows(db), 14, STRIDE * WritingChunk(j) + 28, j, floor)
    ensures var i := WritingPlace(j);
            Close(WrittenRow(lib, tables, db, j).price.adx14, OnePassRow(lib, tables, db, j).price.adx14,
                  AdxTolerance(14, i, 400.0 * hi / floor))
  {
    hide EmaColumn, RsiColumn, AtrColumn, AdxColumn, LogReturnColumn, VolatilityColumn, FieldsAt, FlowFor;
    hide AdxTolerance, Close, ExtremesWithin, KeepsMoving;
    var s, i := STRIDE * WritingChunk(j), WritingPlace(j);
    var chunk := ChunkAt(db, WritingChunk(j));
    var e := s + |chunk|;
    ColumnLengths(lib, chunk);
    ColumnLengths(lib, db);
    assert Closes(chunk) == Closes(db)[s..e] && Highs(chunk) == Highs(db)[s..e] && Lows(chunk) == Lows(db)[s..e];
    ChunkedAdxBound(Highs(db), Lows(db), Closes(db), s, e, 14, i, hi, floor);
  }
}
