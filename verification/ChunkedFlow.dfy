/** What reading order flow chunk by chunk changes in a backfilled row. */
module ChunkedFlow {
  import opened Numeric
  import opened MarketData
  import opened Market
  import opened Features
  import opened FlowFeatures
  import opened ChunkedCandles
  import opened FeatureBackfill
  import OrderFlow

  /** A chunk's snapshots from its second on are those of the whole, but for liquidations; its
      first one holds the same values or none. */
  ghost predicate SameFlow(part: seq<OrderFlow.Snapshot>, whole: seq<OrderFlow.Snapshot>, s: nat) {
    && s + |part| <= |whole|
    && (forall k :: 1 <= k < |part| ==>
          part[k] == whole[s + k].(liqLong := part[k].liqLong, liqShort := part[k].liqShort))
    && (part != [] ==>
          && (part[0].oi == 0.0 || part[0].oi == whole[s].oi)
          && (part[0].buyRatio == 0.0 || part[0].buyRatio == whole[s].buyRatio)
          && (part[0].sellRatio == 0.0 || part[0].sellRatio == whole[s].sellRatio))
  }

  lemma FirstSnapshot(tables: OrderFlow.Tables, ts: seq<int>, s: nat, e: nat)
    requires OrderFlow.TablesInOrder(tables) && OrderFlow.Increasing(ts) && s < e <= |ts|
    ensures var part, whole := OrderFlow.JoinedAt(tables, ts[s..e], 0), OrderFlow.JoinedAt(tables, ts, s);
            && (part.oi == 0.0 || part.oi == whole.oi)
            && (part.buyRatio == 0.0 || part.buyRatio == whole.buyRatio)
            && (part.sellRatio == 0.0 || part.sellRatio == whole.sellRatio)
  {
    hide OrderFlow.LastIn, OrderFlow.LiquidatedAt, OrderFlow.InTimeOrder;
    var since := OrderFlow.Since(ts, s);
    if OrderFlow.LastIn(tables.oi, ts[s] - 1, ts[s]).Some? {
      OrderFlow.FirstRowReadsNoMore(tables.oi, since, ts[s]);
    }
    if OrderFlow.LastIn(tables.ls, ts[s] - 1, ts[s]).Some? {
      OrderFlow.FirstRowReadsNoMore(tables.ls, since, ts[s]);
    }
  }

  lemma ChunkFlow(tables: OrderFlow.Tables, db: seq<Candle>, m: nat)
    requires OrderFlow.TablesInOrder(tables) && InTimeOrder(db) && STRIDE * m <= |db|
    ensures SameFlow(FlowFor(tables, ChunkAt(db, m)), FlowFor(tables, db), STRIDE * m)
  {
    hide OrderFlow.JoinedAt, OrderFlow.TablesInOrder;
    var s, chunk := STRIDE * m, ChunkAt(db, m);
    var e, times := s + |chunk|, CandleTimes(db);
    assert CandleTimes(chunk) == times[s..e];
    assert OrderFlow.Increasing(times);
    forall k: nat | 1 <= k < |chunk|
      ensures var part, whole := OrderFlow.JoinedAt(tables, times[s..e], k), OrderFlow.JoinedAt(tables, times, s + k);
              part == whole.(liqLong := part.liqLong, liqShort := part.liqShort)
    {
      OrderFlow.JoinIsLocal(tables, times, s, e, k);
    }
    if chunk != [] {
      FirstSnapshot(tables, times, s, e);
    }
  }

  /** What a chunk has, the whole has. */
  lemma SomeOfWhole(part: seq<OrderFlow.Snapshot>, whole: seq<OrderFlow.Snapshot>, s: nat)
    requires SameFlow(part, whole, s)
    ensures HasOI(part) ==> HasOI(whole)
    ensures HasLS(part) ==> HasLS(whole)
  {
    if HasOI(part) {
      var k :| 0 <= k < |part| && OpenInterests(part)[k] != 0.0;
      assert OpenInterests(whole)[s + k] != 0.0;
    }
    if HasLS(part) {
      var k :| 0 <= k < |part| && BuyRatios(part)[k] != 0.0;
      assert BuyRatios(whole)[s + k] != 0.0;
      var l :| 0 <= l < |part| && SellRatios(part)[l] != 0.0;
      assert SellRatios(whole)[s + l] != 0.0;
    }
  }

  lemma DeltaIsLocal(part: seq<real>, whole: seq<real>, s: nat, periods: int, i: nat)
    requires 1 <= periods < i < |part| && s + |part| <= |whole|
    requires forall k :: 1 <= k < |part| ==> part[k] == whole[s + k]
    ensures DeltaColumn(part, periods)[i] == DeltaColumn(whole, periods)[s + i]
  {
  }

  /** Over a stretch without open interest the change is undefined. */
  lemma NoDelta(part: seq<real>, whole: seq<real>, s: nat, periods: int, i: nat)
    requires 1 <= periods < i < |part| && s + |part| <= |whole| && !SomeNonZero(part)
    requires forall k :: 1 <= k < |part| ==> part[k] == whole[s + k]
    ensures DeltaColumn(whole, periods)[s + i] == NaN
  {
    assert part[i - periods] == 0.0;
  }

  /** Open interest: a chunk that has some, or a history that has none, gives the one-pass
      changes; a chunk that has none inside a history that has some stores zero changes where
      one pass has undefined ones. */
  lemma OpenInterestNearOnePass(
      lib: MathLib, part: seq<OrderFlow.Snapshot>, whole: seq<OrderFlow.Snapshot>, s: nat, i: nat)
    requires SameFlow(part, whole, s) && 30 <= i < |part|
    ensures var w, o := FieldsAt(lib, part, i), FieldsAt(lib, whole, s + i);
            && (HasOI(part) ==> HasOI(whole))
            && (w.oiDelta1 == o.oiDelta1 <==> HasOI(part) == HasOI(whole))
            && (HasOI(part) == HasOI(whole) ==>
                  w.oiDelta4 == o.oiDelta4 && w.oiDelta12 == o.oiDelta12 && w.oiZ30 == o.oiZ30)
            && (HasOI(part) != HasOI(whole) ==>
                  && w.oiDelta1 == w.oiDelta4 == w.oiDelta12 == Val(0.0)
                  && o.oiDelta1 == o.oiDelta4 == o.oiDelta12 == NaN)
  {
    hide DeltaColumn, ZScoreColumn, Ratio, Imbalance, SomeNonZero;
    SomeOfWhole(part, whole, s);
    var a, b := OpenInterests(part), OpenInterests(whole);
    assert forall k :: 1 <= k < |a| ==> a[k] == b[s + k];
    if HasOI(part) {
      DeltaIsLocal(a, b, s, 1, i);
      DeltaIsLocal(a, b, s, 4, i);
      DeltaIsLocal(a, b, s, 12, i);
      ZScoreIsLocal(lib, Nums(b), Nums(a), 30, s, i);
    } else {
      NoDelta(a, b, s, 1, i);
      NoDelta(a, b, s, 4, i);
      NoDelta(a, b, s, 12, i);
    }
  }

  /** A quotient of ratios is zero, and their imbalance is, exactly in these cases. */
  lemma RatioIsZero(buy: real, sell: real)
    ensures Ratio(buy, sell) == Val(0.0) <==> buy == 0.0 && sell != 0.0
    ensures Imbalance(buy, sell) == 0.0 <==> buy == sell || buy + sell == 0.0
  {
    if sell != 0.0 {
      assert (buy / sell) * sell == buy;
    }
    if buy + sell != 0.0 {
      assert (buy - sell) / (buy + sell) * (buy + sell) == buy - sell;
    }
  }

  /** Where a chunk has no ratios, one of the two is zero on every row past its first. */
  lemma OneSideMissing(part: seq<OrderFlow.Snapshot>, whole: seq<OrderFlow.Snapshot>, s: nat, i: nat)
    requires SameFlow(part, whole, s) && 1 <= i < |part| && !HasLS(part)
    ensures whole[s + i].buyRatio == 0.0 || whole[s + i].sellRatio == 0.0
  {
    assert BuyRatios(part)[i] == whole[s + i].buyRatio && SellRatios(part)[i] == whole[s + i].sellRatio;
  }

  /** Funding, and the two ratio fields with the exact condition of each. */
  lemma FundingNearOnePass(
      lib: MathLib, part: seq<OrderFlow.Snapshot>, whole: seq<OrderFlow.Snapshot>, s: nat, i: nat)
    requires SameFlow(part, whole, s) && 30 <= i < |part|
    ensures var w, o, row := FieldsAt(lib, part, i), FieldsAt(lib, whole, s + i), whole[s + i];
            && w.fundingRate == o.fundingRate && w.fundingZ30 == o.fundingZ30
            && (w.lsRaw == o.lsRaw <==> HasLS(part) == HasLS(whole) || row.sellRatio != 0.0)
            && (w.lsNormalized == o.lsNormalized <==>
                  HasLS(part) == HasLS(whole) || (row.buyRatio == 0.0 && row.sellRatio == 0.0))
            && (HasLS(part) != HasLS(whole) ==> w.lsRaw == w.lsNormalized == Val(0.0))
  {
    hide DeltaColumn, ZScoreColumn, Ratio, Imbalance, HasOI, HasLS;
    SomeOfWhole(part, whole, s);
    var a, b := FundingRates(part), FundingRates(whole);
    assert forall k :: 1 <= k < |a| ==> a[k] == b[s + k];
    ZScoreIsLocal(lib, Nums(b), Nums(a), 30, s, i);
    RatioIsZero(whole[s + i].buyRatio, whole[s + i].sellRatio);
    if !HasLS(part) {
      OneSideMissing(part, whole, s, i);
    }
  }

  lemma FlowOfRows(lib: MathLib, tables: OrderFlow.Tables, db: seq<Candle>, j: nat)
    requires WARMUP_BARS <= j < |db|
    ensures var m := WritingChunk(j);
            && STRIDE * m <= j && j - STRIDE * m < |ChunkAt(db, m)|
            && WARMUP_BARS <= j - STRIDE * m
            && WrittenRow(lib, tables, db, j).flow == FieldsAt(lib, FlowFor(tables, ChunkAt(db, m)), j - STRIDE * m)
            && OnePassRow(lib, tables, db, j).flow == FieldsAt(lib, FlowFor(tables, db), j)
  {
    hide PricesAt, FieldsAt, OrderFlow.JoinedAt;
  }

  /** A chunk's fields `w` against the one-pass fields `o` of a row. Funding is the same. Open
      interest is exactly with `sameOI`, and zero instead of undefined otherwise. Ratios are
      with `sameLS`; without it they are stored as zeros, and then the quotient still agrees
      exactly where there is a sell ratio, the imbalance exactly where there is neither. */
  ghost predicate FlowAgrees(w: FlowFields, o: FlowFields, row: OrderFlow.Snapshot, sameOI: bool, sameLS: bool) {
    && w.fundingRate == o.fundingRate && w.fundingZ30 == o.fundingZ30
    && (w.oiDelta1 == o.oiDelta1 <==> sameOI)
    && (sameOI ==> w.oiDelta4 == o.oiDelta4 && w.oiDelta12 == o.oiDelta12 && w.oiZ30 == o.oiZ30)
    && (!sameOI ==>
          && w.oiDelta1 == w.oiDelta4 == w.oiDelta12 == Val(0.0)
          && o.oiDelta1 == o.oiDelta4 == o.oiDelta12 == NaN)
    && (w.lsRaw == o.lsRaw <==> sameLS || row.sellRatio != 0.0)
    && (w.lsNormalized == o.lsNormalized <==> sameLS || (row.buyRatio == 0.0 && row.sellRatio == 0.0))
    && (!sameLS ==> w.lsRaw == w.lsNormalized == Val(0.0))
  }

  /** The order flow of every written row against one pass: whether its chunk has open interest,
      and whether it has ratios, exactly when the history has decides each field. */
  lemma WrittenFlowNearOnePass(lib: MathLib, tables: OrderFlow.Tables, db: seq<Candle>, j: nat)
    requires OrderFlow.TablesInOrder(tables) && InTimeOrder(db) && WARMUP_BARS <= j < |db|
    ensures var part, whole := FlowFor(tables, ChunkAt(db, WritingChunk(j))), FlowFor(tables, db);
            FlowAgrees(WrittenRow(lib, tables, db, j).flow, OnePassRow(lib, tables, db, j).flow, whole[j],
                       HasOI(part) == HasOI(whole), HasLS(part) == HasLS(whole))
  {
    hide WrittenRow, OnePassRow, FieldsAt, HasOI, HasLS, SameFlow, FlowFor, OrderFlow.TablesInOrder, ChunkAt;
    hide InTimeOrder, WritingChunk;
    FlowOfRows(lib, tables, db, j);
    var m := WritingChunk(j);
    var s := STRIDE * m;
    ChunkFlow(tables, db, m);
    var part, whole := FlowFor(tables, ChunkAt(db, m)), FlowFor(tables, db);
    assert s + (j - s) == j;
    OpenInterestNearOnePass(lib, part, whole, s, j - s);
    FundingNearOnePass(lib, part, whole, s, j - s);
  }

  /** A table whose only record is stamped at the first candle gives every later row of a load
      nothing, and no later chunk anything. */
  lemma OnlyFirstRowReads<V>(recs: seq<OrderFlow.Rec<V>>, db: seq<Candle>, s: nat, e: nat, k: nat)
    requires InTimeOrder(db) && s < e <= |db| && k < e - s && s + k > 0
    requires |recs| == 1 && recs[0].t == db[0].time
    ensures OrderFlow.LastIn(recs, OrderFlow.Since(CandleTimes(db[s..e]), k), db[s + k].time) == None
  {
    assert s > 0 ==> db[0].time < db[s].time;
    assert k > 0 ==> db[0].time <= db[s + k - 1].time;
  }

  lemma FirstRowReads<V>(recs: seq<OrderFlow.Rec<V>>, db: seq<Candle>)
    requires db != [] && |recs| == 1 && recs[0].t == db[0].time
    ensures OrderFlow.LastIn(recs, OrderFlow.Since(CandleTimes(db), 0), db[0].time) == Some(recs[0].value)
  {
  }

  /** Two histories in which every chunk but the first is without what the history has: one
      record of open interest, or one pair of ratios, at the first candle. */
  lemma LaterChunksHaveNone(tables: OrderFlow.Tables, db: seq<Candle>, m: nat)
    requires InTimeOrder(db) && m >= 1 && STRIDE * m < |db|
    ensures tables.oi == [OrderFlow.Rec(db[0].time, 1.0)] ==>
              !HasOI(FlowFor(tables, ChunkAt(db, m))) && HasOI(FlowFor(tables, db))
    ensures tables.ls == [OrderFlow.Rec(db[0].time, (0.5, 0.5))] ==>
              !HasLS(FlowFor(tables, ChunkAt(db, m))) && HasLS(FlowFor(tables, db))
  {
    hide OrderFlow.LastIn, OrderFlow.LiquidatedAt;
    var s, chunk := STRIDE * m, ChunkAt(db, m);
    var e := s + |chunk|;
    var part, whole := FlowFor(tables, chunk), FlowFor(tables, db);
    assert chunk == db[s..e];
    assert forall k :: 0 <= k < |chunk| ==> CandleTimes(chunk)[k] == db[s + k].time;
    if tables.oi == [OrderFlow.Rec(db[0].time, 1.0)] {
      forall k | 0 <= k < |chunk| ensures OpenInterests(part)[k] == 0.0 {
        OnlyFirstRowReads(tables.oi, db, s, e, k);
        assert part[k].oi == 0.0;
      }
      FirstRowReads(tables.oi, db);
      assert OpenInterests(whole)[0] == 1.0;
    }
    if tables.ls == [OrderFlow.Rec(db[0].time, (0.5, 0.5))] {
      forall k | 0 <= k < |chunk| ensures BuyRatios(part)[k] == 0.0 {
        OnlyFirstRowReads(tables.ls, db, s, e, k);
        assert part[k].buyRatio == 0.0;
      }
      FirstRowReads(tables.ls, db);
      assert BuyRatios(whole)[0] == 0.5 && SellRatios(whole)[0] == 0.5;
    }
  }

  lemma LaterRowHasNoRatio(tables: OrderFlow.Tables, db: seq<Candle>, j: nat)
    requires InTimeOrder(db) && 0 < j < |db|
    ensures tables.ls == [OrderFlow.Rec(db[0].time, (0.5, 0.5))] ==> FlowFor(tables, db)[j].sellRatio == 0.0
  {
    hide OrderFlow.LastIn, OrderFlow.LiquidatedAt;
    if tables.ls == [OrderFlow.Rec(db[0].time, (0.5, 0.5))] {
      assert db[0..|db|] == db;
      OnlyFirstRowReads(tables.ls, db, 0, |db|, j);
    }
  }

  /** What these histories do to every row past the first chunk: the backfill stores zeros
      where one pass does not. */
  lemma LaterRowsDiffer(lib: MathLib, tables: OrderFlow.Tables, db: seq<Candle>, j: nat)
    requires OrderFlow.TablesInOrder(tables) && InTimeOrder(db) && CHUNK_SIZE <= j < |db|
    ensures tables.oi == [OrderFlow.Rec(db[0].time, 1.0)] ==>
              && WrittenRow(lib, tables, db, j).flow.oiDelta1 == Val(0.0)
              && OnePassRow(lib, tables, db, j).flow.oiDelta1 == NaN
    ensures tables.ls == [OrderFlow.Rec(db[0].time, (0.5, 0.5))] ==>
              && WrittenRow(lib, tables, db, j).flow.lsRaw == Val(0.0)
              && OnePassRow(lib, tables, db, j).flow.lsRaw != Val(0.0)
  {
    hide WrittenRow, OnePassRow, FlowFor, HasOI, HasLS, InTimeOrder, OrderFlow.TablesInOrder, ChunkAt;
    assert WritingChunk(j) >= 1;
    WrittenFlowNearOnePass(lib, tables, db, j);
    LaterChunksHaveNone(tables, db, WritingChunk(j));
    LaterRowHasNoRatio(tables, db, j);
  }

  /** The liquidation fields count what happened in [t, until]. */
  ghost predicate CountsLiquidations(f: FlowFields, recs: seq<OrderFlow.Liquidation>, t: int, until: int) {
    var sold, bought := OrderFlow.LiquidatedIn(recs, true, t, until), OrderFlow.LiquidatedIn(recs, false, t, until);
    f.liqLong == Val(sold) && f.liqShort == Val(bought) && f.liqImbalance == Val(Imbalance(sold, bought))
  }

  /** What a load makes of the liquidations of candle `i`: its last row is cut. */
  lemma LoadedLiquidations(lib: MathLib, tables: OrderFlow.Tables, candles: seq<Candle>, i: nat)
    requires i < |candles| && OrderFlow.OnGrid(tables, CandleTimes(candles))
    ensures CountsLiquidations(
              FieldsAt(lib, FlowFor(tables, candles), i), tables.liquidations, candles[i].time,
              if i == |candles| - 1 then candles[i].time else candles[i].time + tables.barLength - 1)
  {
    hide OrderFlow.LiquidatedAt, OrderFlow.LiquidatedIn, OrderFlow.LastIn, OrderFlow.OnGrid;
    hide DeltaColumn, ZScoreColumn, HasOI, HasLS, Ratio, Imbalance;
    OrderFlow.LastRowIsCut(tables, CandleTimes(candles), i, true);
    OrderFlow.LastRowIsCut(tables, CandleTimes(candles), i, false);
  }

  lemma SliceOnGrid(tables: OrderFlow.Tables, ts: seq<int>, s: nat, e: nat)
    requires OrderFlow.OnGrid(tables, ts) && s <= e <= |ts|
    ensures OrderFlow.OnGrid(tables, ts[s..e])
  {
  }

  lemma LastOfItsChunk(db: seq<Candle>, j: nat)
    requires WARMUP_BARS <= j < |db|
    ensures j - STRIDE * WritingChunk(j) == |ChunkAt(db, WritingChunk(j))| - 1
            <==> j == |db| - 1 || j % STRIDE == WARMUP_BARS - 1
  {
  }

  /** The liquidations of every written row against one pass, for candles on the grid. Every
      row has those of its whole bar, except that each 2000th row, the last of a chunk and
      written by no other chunk, has only those stamped at the very start of its bar. One pass
      would cut only the last row of all. */
  lemma WrittenLiquidations(lib: MathLib, tables: OrderFlow.Tables, db: seq<Candle>, j: nat)
    requires WARMUP_BARS <= j < |db| && OrderFlow.OnGrid(tables, CandleTimes(db))
    ensures var t := db[j].time;
            var end := t + tables.barLength - 1;
            && CountsLiquidations(WrittenRow(lib, tables, db, j).flow, tables.liquidations, t,
                                  if j == |db| - 1 || j % STRIDE == WARMUP_BARS - 1 then t else end)
            && CountsLiquidations(OnePassRow(lib, tables, db, j).flow, tables.liquidations, t,
                                  if j == |db| - 1 then t else end)
  {
    hide WrittenRow, OnePassRow, FieldsAt, FlowFor, CountsLiquidations, OrderFlow.OnGrid;
    FlowOfRows(lib, tables, db, j);
    LastOfItsChunk(db, j);
    var s, i, chunk := STRIDE * WritingChunk(j), j - STRIDE * WritingChunk(j), ChunkAt(db, WritingChunk(j));
    assert chunk[i] == db[j];
    assert CandleTimes(chunk) == CandleTimes(db)[s..s + |chunk|];
    SliceOnGrid(tables, CandleTimes(db), s, s + |chunk|);
    LoadedLiquidations(lib, tables, chunk, i);
    LoadedLiquidations(lib, tables, db, j);
  }
}
