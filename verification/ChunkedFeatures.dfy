/** How far a backfilled feature row is from the one a single pass over the whole history
    would compute. */
module ChunkedFeatures {
  import opened Numeric
  import opened MarketData
  import opened Market
  import opened Smoothing
  import opened Ema
  import opened Wilder
  import opened Features
  import opened FlowFeatures
  import opened ChunkedCandles
  import opened FeatureBackfill
  import OrderFlow

  lemma {:induction false} SmoothedOfPrefix(w: real, seed: real, vs: seq<real>, e: nat, from: nat, i: nat)
    requires from <= i < e <= |vs|
    ensures Smoothed(w, seed, vs[..e], from, i) == Smoothed(w, seed, vs, from, i)
    decreases i
  {
    hide Blend;
    if i > from {
      SmoothedOfPrefix(w, seed, vs, e, from, i - 1);
    }
  }

  /** A chunk that starts at the first value computes the one-pass EMA. */
  lemma {:induction false} FirstChunkEmaExact(vs: seq<real>, e: nat, period: int, i: nat)
    requires 1 <= period <= i < e <= |vs|
    ensures EmaAt(vs[..e], period, i) == EmaAt(vs, period, i)
  {
    SumAgrees(vs[..e], vs, period);
    SmoothedOfPrefix(Alpha(period), Seed(vs, period), vs, e, period - 1, i);
  }

  /** The error bound of a chunked EMA column at a written row. */
  function EmaTolerance(period: int, i: nat, spread: real): real
    requires 1 <= period <= i
  {
    Pow(1.0 - 2.0 / (period + 1) as real, i - period + 1) * spread
  }

  lemma ToleranceNonNegative(period: int, i: nat, spread: real)
    requires 1 <= period <= i && spread >= 0.0
    ensures EmaTolerance(period, i, spread) >= 0.0
  {
    hide Alpha, Pow;
    AlphaIs(period);
    AlphaInUnit(period);
    PowWithinUnit(1.0 - Alpha(period), i - period + 1);
    MulNonneg(Pow(1.0 - Alpha(period), i - period + 1), spread);
  }

  ghost predicate Close(a: Num, b: Num, tolerance: real) {
    a.Val? && b.Val? && Abs(a.v - b.v) <= tolerance
  }

  lemma ToleranceIs(period: int, i: nat, spread: real)
    requires 1 <= period <= i
    ensures EmaTolerance(period, i, spread) == Pow(1.0 - Alpha(period), i - period + 1) * spread
  {
    hide Pow;
  }

  lemma AbsWithin(x: real, bound: real)
    requires -bound <= x <= bound
    ensures Abs(x) <= bound
  {
  }

  lemma AbsFlips(a: real, b: real)
    ensures Abs(a - b) == Abs(b - a)
  {
  }

  lemma EmaColumnClose(vs: seq<real>, s: nat, e: nat, period: int, i: nat, lo: real, hi: real)
    requires s + i < e <= |vs| && 1 <= period <= i
    requires forall j :: 0 <= j < |vs| ==> lo <= vs[j] <= hi
    ensures Close(EmaColumn(vs[s..e], period)[i], EmaColumn(vs, period)[s + i], EmaTolerance(period, i, hi - lo))
  {
    hide EmaAt, Alpha, Pow, EmaTolerance, Abs;
    ToleranceIs(period, i, hi - lo);
    if s == 0 {
      assert vs[0..e] == vs[..e];
      FirstChunkEmaExact(vs, e, period, i);
      assert lo <= vs[0] <= hi;
      ToleranceNonNegative(period, i, hi - lo);
      AbsWithin(0.0, EmaTolerance(period, i, hi - lo));
    } else {
      ChunkedGap(vs, s, e, period, i, lo, hi);
      AbsFlips(EmaAt(vs, period, s + i), EmaAt(vs[s..e], period, i));
    }
  }

  /** For every written row: the returns and volatilities are the one-pass values exactly; each
      EMA is off by at most (1 - 2/(p+1))^(i-p+1) times the spread of the closes (or volumes),
      where i >= 200 is the row's place in its chunk. */
  lemma WrittenRowNearOnePass(
      lib: MathLib, tables: OrderFlow.Tables, db: seq<Candle>, j: nat, lo: real, hi: real, vlo: real, vhi: real)
    requires WARMUP_BARS <= j < |db|
    requires forall k :: 0 <= k < |db| ==> lo <= db[k].close <= hi && vlo <= db[k].volume <= vhi
    ensures var w, o := WrittenRow(lib, tables, db, j).price, OnePassRow(lib, tables, db, j).price;
            var i := WritingPlace(j);
            && WARMUP_BARS <= i < CHUNK_SIZE
            && w.return1 == o.return1 && w.return4 == o.return4 && w.return12 == o.return12
            && w.volatility14 == o.volatility14 && w.volatility50 == o.volatility50
            && Close(w.ema20, o.ema20, EmaTolerance(20, i, hi - lo))
            && Close(w.ema50, o.ema50, EmaTolerance(50, i, hi - lo))
            && Close(w.ema200, o.ema200, EmaTolerance(200, i, hi - lo))
            && Close(w.volumeEma20, o.volumeEma20, EmaTolerance(20, i, vhi - vlo))
  {
    hide EmaColumn, RsiColumn, AtrColumn, AdxColumn, LogReturnColumn;
    hide VolatilityColumn, EmaTolerance, Close, FieldsAt, FlowFor;
    var m := WritingChunk(j);
    var s, i := STRIDE * m, j - STRIDE * m;
    var chunk := ChunkAt(db, m);
    var e := s + |chunk|;
    var closes, volumes := Closes(db), Volumes(db);
    ColumnLengths(lib, chunk);
    ColumnLengths(lib, db);
    assert Closes(chunk) == closes[s..e] && Volumes(chunk) == volumes[s..e];
    LogReturnIsLocal(lib, closes, 1, s, e, i);
    LogReturnIsLocal(lib, closes, 4, s, e, i);
    LogReturnIsLocal(lib, closes, 12, s, e, i);
    VolatilityIsLocal(lib, closes, 14, s, e, i);
    VolatilityIsLocal(lib, closes, 50, s, e, i);
    EmaColumnClose(closes, s, e, 20, i, lo, hi);
    EmaColumnClose(closes, s, e, 50, i, lo, hi);
    EmaColumnClose(closes, s, e, 200, i, lo, hi);
    EmaColumnClose(volumes, s, e, 20, i, vlo, vhi);
  }

  lemma {:induction false} VolumeBounds(db: seq<Candle>) returns (lo: real, hi: real)
    ensures forall k :: 0 <= k < |db| ==> lo <= db[k].volume <= hi
  {
    lo, hi := 0.0, 0.0;
    if db != [] {
      var n := |db| - 1;
      lo, hi := VolumeBounds(db[..n]);
      assert forall k :: 0 <= k < n ==> db[..n][k] == db[k];
      if db[n].volume < lo {
        lo := db[n].volume;
      }
      if db[n].volume > hi {
        hi := db[n].volume;
      }
    }
  }

  lemma SameSide(close: real, a: Num, b: Num, tolerance: real)
    requires Close(a, b, tolerance)
    ensures Above(close, a) != Above(close, b) ==> Abs(close - b.v) <= tolerance
  {
  }

  /** A flag is another than the one-pass one only where the close is as near to the one-pass
      average as the tolerance. */
  ghost predicate FlagsNear(w: AboveFields, o: AboveFields, close: real, p: PriceFields, i: nat, spread: real)
    requires i >= WARMUP_BARS
  {
    && p.ema20.Val? && p.ema50.Val? && p.ema200.Val?
    && (w.ema20 != o.ema20 ==> Abs(close - p.ema20.v) <= EmaTolerance(20, i, spread))
    && (w.ema50 != o.ema50 ==> Abs(close - p.ema50.v) <= EmaTolerance(50, i, spread))
    && (w.ema200 != o.ema200 ==> Abs(close - p.ema200.v) <= EmaTolerance(200, i, spread))
  }

  lemma WrittenFlagsNearOnePass(
      lib: MathLib, tables: OrderFlow.Tables, db: seq<Candle>, j: nat, lo: real, hi: real)
    requires WARMUP_BARS <= j < |db|
    requires forall k :: 0 <= k < |db| ==> lo <= db[k].close <= hi
    ensures var w, o := WrittenRow(lib, tables, db, j), OnePassRow(lib, tables, db, j);
            FlagsNear(w.above, o.above, db[j].close, o.price, WritingPlace(j), hi - lo)
  {
    hide PricesAt, FieldsAt, FlowFor, EmaTolerance, Above;
    var vlo, vhi := VolumeBounds(db);
    WrittenRowNearOnePass(lib, tables, db, j, lo, hi, vlo, vhi);
    var w, o := WrittenRow(lib, tables, db, j).price, OnePassRow(lib, tables, db, j).price;
    var i, close := WritingPlace(j), db[j].close;
    SameSide(close, w.ema20, o.ema20, EmaTolerance(20, i, hi - lo));
    SameSide(close, w.ema50, o.ema50, EmaTolerance(50, i, hi - lo));
    SameSide(close, w.ema200, o.ema200, EmaTolerance(200, i, hi - lo));
  }

  /** Every true range is non-negative and at least the candle's own range. */
  lemma ChunkRangesBounded(high: seq<real>, low: seq<real>, close: seq<real>, s: nat, e: nat, hi: real)
    requires HighsAboveLows(high, low) && |close| == |high| && s < e <= |high|
    requires forall j :: 0 <= j < |high| ==> TrueRanges(high, low, close)[j] <= hi
    ensures var tr := TrueRanges(high[s..e], low[s..e], close[s..e]);
            && (forall j :: 0 <= j < |tr| ==> 0.0 <= tr[j] <= hi)
            && (forall j :: 1 <= j < |tr| ==> tr[j] == TrueRanges(high, low, close)[s + j])
  {
    var tr, all := TrueRanges(high[s..e], low[s..e], close[s..e]), TrueRanges(high, low, close);
    forall j | 0 <= j < |tr|
      ensures 0.0 <= tr[j] <= hi
      ensures j >= 1 ==> tr[j] == all[s + j]
    {
      assert all[s + j] <= hi;
      assert high[s + j] - low[s + j] <= all[s + j];
    }
  }

  function AtrTolerance(p: int, i: nat, hi: real): real
    requires 1 <= p <= i
  {
    Pow(1.0 - 1.0 / p as real, i - p) * hi
  }

  /** Two averages over the same values after their start, within a common bound there. */
  lemma SmoothedGapBounded(
      w: real, seed1: real, all: seq<real>, s: nat, seed2: real, tr: seq<real>, p: nat, i: nat, hi: real)
    requires 0.0 <= w <= 1.0 && p <= i < |tr| && s + i < |all|
    requires forall j :: p < j <= i ==> all[s + j] == tr[j]
    requires 0.0 <= Smoothed(w, seed1, all, p, s + p) <= hi && 0.0 <= seed2 <= hi
    ensures Abs(Smoothed(w, seed2, tr, p, i) - Smoothed(w, seed1, all, p, s + i)) <= Pow(1.0 - w, i - p) * hi
  {
    hide Pow, Smoothed, Abs;
    var gap := Smoothed(w, seed1, all, p, s + p) - seed2;
    SmoothedForgets(w, seed1, all, p, s, seed2, tr, p, i);
    PowWithinUnit(1.0 - w, i - p);
    AbsWithin(gap, hi);
    var one, chunked := Smoothed(w, seed1, all, p, s + i), Smoothed(w, seed2, tr, p, i);
    AbsScaled(one - chunked, Pow(1.0 - w, i - p), gap, hi);
    AbsFlips(one, chunked);
  }

  /** Two Wilder averages over the same values from the second on, started `s` apart. */
  lemma SeededForgets(all: seq<real>, tr: seq<real>, s: nat, p: int, i: nat, hi: real)
    requires 1 <= p <= i < |tr| && s + i < |all|
    requires forall j :: 0 <= j < |all| ==> 0.0 <= all[j] <= hi
    requires forall j :: 0 <= j < |tr| ==> 0.0 <= tr[j] <= hi
    requires forall j :: 1 <= j < |tr| && s + j < |all| ==> tr[j] == all[s + j]
    ensures Abs(SeededAt(tr, p, i) - SeededAt(all, p, s + i)) <= AtrTolerance(p, i, hi)
  {
    hide Pow, WilderAt, Smoothed, Sum, Abs, Blend, WilderNext;
    var seed1, seed2 := Sum(all, p) / p as real, Sum(tr, p) / p as real;
    WilderIsSmoothed(p, seed1, all, p, s + i);
    WilderIsSmoothed(p, seed1, all, p, s + p);
    WilderIsSmoothed(p, seed2, tr, p, i);
    SeededWithin(all, p, s + p, 0.0, hi);
    MeanWithin(tr, p, 0.0, hi);
    WilderIsBlend(p, 0.0, 0.0);
    SmoothedGapBounded(1.0 / p as real, seed1, all, s, seed2, tr, p, i, hi);
  }

  /** Restarting the ATR at a chunk is off by at most (1 - 1/p)^(i-p) times the greatest true
      range of the history. */
  lemma ChunkedAtrBound(
      high: seq<real>, low: seq<real>, close: seq<real>, s: nat, e: nat, p: int, i: nat, hi: real)
    requires HighsAboveLows(high, low) && |close| == |high| && 1 <= p <= i && s + i < e <= |high|
    requires forall j :: 0 <= j < |high| ==> TrueRanges(high, low, close)[j] <= hi
    ensures Close(AtrColumn(high[s..e], low[s..e], close[s..e], p)[i], AtrColumn(high, low, close, p)[s + i],
                  AtrTolerance(p, i, hi))
  {
    hide TrueRange, AtrTolerance, SeededAt;
    ChunkRangesBounded(high, low, close, s, e, hi);
    ChunkRangesBounded(high, low, close, 0, |high|, hi);
    assert high[0..|high|] == high && low[0..|high|] == low && close[0..|high|] == close;
    SeededForgets(TrueRanges(high, low, close), TrueRanges(high[s..e], low[s..e], close[s..e]), s, p, i, hi);
  }

  lemma WrittenAtrNearOnePass(lib: MathLib, tables: OrderFlow.Tables, db: seq<Candle>, j: nat, hi: real)
    requires WARMUP_BARS <= j < |db| && ValidSeries(db)
    requires forall k :: 0 <= k < |db| ==> TrueRanges(Highs(db), Lows(db), Closes(db))[k] <= hi
    ensures var i := WritingPlace(j);
            Close(WrittenRow(lib, tables, db, j).price.atr14, OnePassRow(lib, tables, db, j).price.atr14,
                  AtrTolerance(14, i, hi))
  {
    hide EmaColumn, RsiColumn, AtrColumn, AdxColumn, LogReturnColumn, VolatilityColumn;
    hide Close, TrueRange, AtrTolerance, FieldsAt, FlowFor;
    var s, i := STRIDE * WritingChunk(j), WritingPlace(j);
    var chunk := ChunkAt(db, WritingChunk(j));
    var e := s + |chunk|;
    ColumnLengths(lib, chunk);
    ColumnLengths(lib, db);
    assert Closes(chunk) == Closes(db)[s..e] && Highs(chunk) == Highs(db)[s..e] && Lows(chunk) == Lows(db)[s..e];
    ChunkedAtrBound(Highs(db), Lows(db), Closes(db), s, e, 14, i, hi);
  }
}
