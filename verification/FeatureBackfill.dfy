/** Backfilling one pair (processPair in cmd/feature-backfill/main.go): chunks with a
    discarded warm-up, the quality check, and the label pass at the end. */
module FeatureBackfill {
  import opened Numeric
  import opened MarketData
  import opened Market
  import opened Features
  import opened FlowFeatures
  import opened Labels
  import opened ChunkedCandles
  import opened LabelBackfill
  import OrderFlow
  import Wilder

  /** Which database statements of one round of the chunk loop fail. A failing upsert writes
      nothing: the batch is one transaction. */
  datatype ChunkFaults = ChunkFaults(load: bool, flow: bool, upsert: bool)

  /** And of the whole backfill: its job record at the start and at the end, each round of the
      loop, and the upsert of the labels. */
  datatype PairFaults = PairFaults(begin: bool, rounds: nat -> ChunkFaults, saveLabels: bool, finish: bool)

  datatype Outcome = Completed(totalWritten: nat) | Rejected(verdict: Verdict) | Failed

  datatype ChunkEnd = NoRows | Written(count: nat) | Refused(verdict: Verdict) | Broken

  datatype LoopEnd = ReadAll | Stopped(verdict: Verdict) | BrokenOff

  function FeatureTime(row: FeatureRow): int {
    row.ts
  }

  /** The order flow snapshots loaded for a chunk. */
  function FlowFor(tables: OrderFlow.Tables, chunk: seq<Candle>): (flow: seq<OrderFlow.Snapshot>)
    ensures |flow| == |chunk|
  {
    seq(|chunk|, i requires 0 <= i < |chunk| => OrderFlow.JoinedAt(tables, CandleTimes(chunk), i))
  }

  /** The chunk that writes candle `j`: the one that has it after its first 200 candles. */
  function WritingChunk(j: nat): nat
    requires j >= WARMUP_BARS
  {
    (j - WARMUP_BARS) / STRIDE
  }

  /** And where in that chunk it stands. */
  function WritingPlace(j: nat): (i: nat)
    requires j >= WARMUP_BARS
    ensures WARMUP_BARS <= i < CHUNK_SIZE && i <= j
  {
    j - STRIDE * WritingChunk(j)
  }

  /** The feature row the backfill leaves for candle `j`. */
  function WrittenRow(lib: MathLib, tables: OrderFlow.Tables, db: seq<Candle>, j: nat): FeatureRow
    requires WARMUP_BARS <= j < |db|
  {
    var m := WritingChunk(j);
    var chunk := ChunkAt(db, m);
    RowAt(lib, chunk, FlowFor(tables, chunk), j - STRIDE * m)
  }

  /** The feature row a single pass over all candles would compute. */
  function OnePassRow(lib: MathLib, tables: OrderFlow.Tables, db: seq<Candle>, j: nat): FeatureRow
    requires j < |db|
  {
    RowAt(lib, db, FlowFor(tables, db), j)
  }

  /** The rows of candles [200, upTo), one each, in time order. */
  function WrittenRows(lib: MathLib, tables: OrderFlow.Tables, db: seq<Candle>, upTo: nat): (rows: seq<FeatureRow>)
    requires upTo <= |db|
    ensures |rows| == if upTo <= WARMUP_BARS then 0 else upTo - WARMUP_BARS
  {
    seq(if upTo <= WARMUP_BARS then 0 else upTo - WARMUP_BARS,
        k requires 0 <= k < upTo - WARMUP_BARS => WrittenRow(lib, tables, db, WARMUP_BARS + k))
  }

  class FeatureStore {
    const candles: seq<Candle>
    const tables: OrderFlow.Tables
    var features: map<int, FeatureRow>
    var labels: map<int, LabelRow>
    /** The feature rows written, in the order they were written. */
    ghost var written: seq<FeatureRow>

    ghost predicate Valid() {
      InTimeOrder(candles) && OrderFlow.TablesInOrder(tables)
    }

    method LoadCandlesAfter(after: Option<int>, limit: nat) returns (chunk: seq<Candle>)
      requires Valid()
      ensures FirstAfter(candles, after, limit, chunk)
    {
      chunk := CandlesAfter(candles, after, limit);
      QueryIsFirstAfter(candles, after, limit);
    }

    method UpsertFeatures(rows: seq<FeatureRow>)
      modifies this`features, this`written
      ensures features == Upserted(old(features), rows, FeatureTime)
      ensures written == old(written) + rows
    {
      for k := 0 to |rows|
        invariant features == Upserted(old(features), rows[..k], FeatureTime)
        modifies this`features
      {
        assert rows[..k + 1][..k] == rows[..k];
        features := features[rows[k].ts := rows[k]];
      }
      assert rows[..|rows|] == rows;
      written := written + rows;
    }

    method UpsertLabels(rows: seq<LabelRow>)
      modifies this`labels
      ensures labels == Upserted(old(labels), rows, TimeOf)
    {
      for k := 0 to |rows|
        invariant labels == Upserted(old(labels), rows[..k], TimeOf)
        modifies this`labels
      {
        assert rows[..k + 1][..k] == rows[..k];
        labels := labels[rows[k].ts := rows[k]];
      }
      assert rows[..|rows|] == rows;
    }
  }

  lemma {:induction false} UpsertedTwice<R>(store: map<int, R>, first: seq<R>, second: seq<R>, key: R -> int)
    ensures Upserted(Upserted(store, first, key), second, key) == Upserted(store, first + second, key)
  {
    if second == [] {
      assert first + second == first;
    } else {
      var n := |second| - 1;
      UpsertedTwice(store, first, second[..n], key);
      assert (first + second)[..|first| + n] == first + second[..n];
    }
  }

  lemma UpsertedNothing(store: map<int, FeatureRow>)
    ensures Upserted(store, [], FeatureTime) == store
  {
  }

  /** The rows computed for chunk `m` after its first 200. */
  function ChunkRows(lib: MathLib, tables: OrderFlow.Tables, db: seq<Candle>, m: nat): (rows: seq<FeatureRow>)
    requires STRIDE * m + WARMUP_BARS <= |db|
    ensures |rows| == |ChunkAt(db, m)| - WARMUP_BARS
  {
    var chunk := ChunkAt(db, m);
    var flow := FlowFor(tables, chunk);
    seq(|chunk| - WARMUP_BARS, k requires 0 <= k < |chunk| - WARMUP_BARS => RowAt(lib, chunk, flow, WARMUP_BARS + k))
  }

  /** Not too many of the mandatory values of chunk `m` are undefined. */
  ghost predicate ChunkAccepted(lib: MathLib, tables: OrderFlow.Tables, db: seq<Candle>, m: nat)
    requires STRIDE * m + WARMUP_BARS < |db|
  {
    var rows := ChunkRows(lib, tables, db, m);
    CountMandatoryNaN(rows) as real / (|rows| * 12) as real <= 0.05
  }

  /** Writing a chunk's rows extends what is written from its 200th candle to its end. */
  lemma ChunkExtendsWritten(lib: MathLib, tables: OrderFlow.Tables, db: seq<Candle>, m: nat)
    requires STRIDE * m + WARMUP_BARS <= |db|
    ensures WrittenRows(lib, tables, db, STRIDE * m + WARMUP_BARS) + ChunkRows(lib, tables, db, m)
            == WrittenRows(lib, tables, db, STRIDE * m + |ChunkAt(db, m)|)
  {
    hide RowAt, FlowFor;
    var rows := ChunkRows(lib, tables, db, m);
    var base := STRIDE * m + WARMUP_BARS;
    forall k | 0 <= k < |rows|
      ensures rows[k] == WrittenRow(lib, tables, db, base + k)
    {
      assert WritingChunk(base + k) == m;
    }
  }

  lemma RowTime(lib: MathLib, chunk: seq<Candle>, flow: seq<OrderFlow.Snapshot>, i: nat)
    requires i < |chunk|
    ensures RowAt(lib, chunk, flow, i).ts == chunk[i].time
  {
  }

  /** Every one of the first `n` chunks that have rows to write starts moving. */
  ghost predicate ChunksMove(db: seq<Candle>, n: nat) {
    forall k: nat :: k < n && STRIDE * k + WARMUP_BARS < |db| ==> StartsMoving(ChunkAt(db, k))
  }

  /** And every one of them is accepted. */
  ghost predicate ChunksAccepted(lib: MathLib, tables: OrderFlow.Tables, db: seq<Candle>, n: nat) {
    forall k: nat :: k < n && STRIDE * k + WARMUP_BARS < |db| ==> ChunkAccepted(lib, tables, db, k)
  }

  /** No statement that round `k` comes to fails: the load in any case, the order flow from 200
      candles on, the upsert when there are more. */
  ghost predicate RoundSucceeds(db: seq<Candle>, k: nat, faults: ChunkFaults) {
    && !faults.load
    && (STRIDE * k + WARMUP_BARS <= |db| ==> !faults.flow)
    && (STRIDE * k + WARMUP_BARS < |db| ==> !faults.upsert)
  }

  ghost predicate RoundsSucceed(db: seq<Candle>, rounds: nat -> ChunkFaults, n: nat) {
    forall k: nat :: k < n ==> RoundSucceeds(db, k, rounds(k))
  }

  lemma NoRounds(lib: MathLib, tables: OrderFlow.Tables, db: seq<Candle>, rounds: nat -> ChunkFaults)
    ensures RoundsSucceed(db, rounds, 0) && ChunksAccepted(lib, tables, db, 0)
  {
  }

  /** One round more: the first `m` went on, and round `m` decides whether `m + 1` do. */
  lemma NextRound(lib: MathLib, tables: OrderFlow.Tables, db: seq<Candle>, rounds: nat -> ChunkFaults, m: nat, n: nat)
    requires m < n
    ensures RoundsSucceed(db, rounds, m + 1) <==> RoundsSucceed(db, rounds, m) && RoundSucceeds(db, m, rounds(m))
    ensures ChunksAccepted(lib, tables, db, m + 1) <==>
              && ChunksAccepted(lib, tables, db, m)
              && (STRIDE * m + WARMUP_BARS < |db| ==> ChunkAccepted(lib, tables, db, m))
    ensures RoundsSucceed(db, rounds, n) ==> RoundsSucceed(db, rounds, m + 1)
    ensures ChunksAccepted(lib, tables, db, n) ==> ChunksAccepted(lib, tables, db, m + 1)
  {
    hide ChunkAccepted, RoundSucceeds;
  }

  lemma ChunkTimesDistinct(lib: MathLib, tables: OrderFlow.Tables, db: seq<Candle>, m: nat)
    requires InTimeOrder(db) && STRIDE * m + WARMUP_BARS <= |db|
    ensures DistinctTimes(ChunkRows(lib, tables, db, m))
  {
    hide RowAt, FlowFor;
    var chunk, rows := ChunkAt(db, m), ChunkRows(lib, tables, db, m);
    forall j, k | 0 <= j < k < |rows| ensures rows[j].ts != rows[k].ts {
      RowTime(lib, chunk, FlowFor(tables, chunk), WARMUP_BARS + j);
      RowTime(lib, chunk, FlowFor(tables, chunk), WARMUP_BARS + k);
      assert db[STRIDE * m + WARMUP_BARS + j].time < db[STRIDE * m + WARMUP_BARS + k].time;
    }
  }

  lemma ChunkIsValid(db: seq<Candle>, m: nat)
    requires ValidSeries(db) && STRIDE * m <= |db|
    ensures ValidSeries(ChunkAt(db, m))
  {
  }

  /** On a valid series the check accepts the rows of a chunk exactly when the chunk starts
      moving: otherwise the ADX is undefined on all of them, one field in twelve. */
  lemma ChunkVerdict(lib: MathLib, tables: OrderFlow.Tables, db: seq<Candle>, m: nat)
    requires ValidSeries(db) && STRIDE * m + WARMUP_BARS < |db|
    ensures ChunkAccepted(lib, tables, db, m) <==> StartsMoving(ChunkAt(db, m))
  {
    hide PricesAt, FieldsAt, StartsMoving, FlowFor, CountMandatoryNaN;
    var chunk, rows := ChunkAt(db, m), ChunkRows(lib, tables, db, m);
    ChunkIsValid(db, m);
    forall k | 0 <= k < |rows|
      ensures rows[k].price.adx14.Val? == StartsMoving(chunk)
      ensures forall f :: 0 <= f < 12 && f != 5 ==> rows[k].price.Mandatory()[f].Val?
    {
      assert rows[k] == RowAt(lib, chunk, FlowFor(tables, chunk), WARMUP_BARS + k);
      MandatoryDefinedExactly(lib, chunk, WARMUP_BARS + k);
    }
    AdxDecidesCount(rows, StartsMoving(chunk));
    RatioDecides(|rows|, StartsMoving(chunk));
  }

  /** Of a valid series the chunks are all accepted exactly when they all start moving. */
  lemma AcceptedIfMoving(lib: MathLib, tables: OrderFlow.Tables, db: seq<Candle>, n: nat)
    ensures ValidSeries(db) ==> (ChunksAccepted(lib, tables, db, n) <==> ChunksMove(db, n))
  {
    hide ValidSeries, ChunkAccepted, StartsMoving;
    if ValidSeries(db) {
      forall k: nat | k < n && STRIDE * k + WARMUP_BARS < |db|
        ensures ChunkAccepted(lib, tables, db, k) <==> StartsMoving(ChunkAt(db, k))
      {
        ChunkVerdict(lib, tables, db, k);
      }
    }
  }

  /** The table is what the rows written so far made of it. */
  ghost predicate Consistent(lib: MathLib, store: FeatureStore, features0: map<int, FeatureRow>, upTo: nat)
    requires upTo <= |store.candles|
    reads store
  {
    && store.written == WrittenRows(lib, store.tables, store.candles, upTo)
    && store.features == Upserted(features0, store.written, FeatureTime)
  }

  /** One chunk: order flow, features, the warm-up discarded, the check, the upsert. */
  method ProcessChunk(
      lib: MathLib, store: FeatureStore, chunk: seq<Candle>, faults: ChunkFaults,
      ghost m: nat, ghost features0: map<int, FeatureRow>)
    returns (r: ChunkEnd)
    requires store.Valid() && STRIDE * m + WARMUP_BARS <= |store.candles| && chunk == ChunkAt(store.candles, m)
    requires Consistent(lib, store, features0, STRIDE * m + WARMUP_BARS)
    modifies store`features, store`written
    ensures r.Written? ==> r.count == |chunk| - WARMUP_BARS > 0
    ensures |store.written| == |old(store.written)| + if r.Written? then r.count else 0
    ensures r.NoRows? <==> |chunk| == WARMUP_BARS && !faults.flow
    ensures r.Refused? <==>
              && |chunk| > WARMUP_BARS && !faults.flow
              && !ChunkAccepted(lib, store.tables, store.candles, m)
    ensures r.Broken? <==>
              || faults.flow
              || (|chunk| > WARMUP_BARS && faults.upsert && ChunkAccepted(lib, store.tables, store.candles, m))
    ensures r.Refused? ==>
              r.verdict == TooManyUndefined(CountMandatoryNaN(ChunkRows(lib, store.tables, store.candles, m)))
    ensures Consistent(lib, store, features0, STRIDE * m + if r.Written? then |chunk| else WARMUP_BARS)
  {
    hide PricesAt, FieldsAt, Upserted, DistinctTimes, CountMandatoryNaN, WrittenRows;
    hide OrderFlow.JoinedAt;
    ghost var db := store.candles;
    if faults.flow {
      return Broken;
    }
    assert OrderFlow.Increasing(CandleTimes(chunk));
    var flow := OrderFlow.LoadOrderFlow(store.tables, CandleTimes(chunk));
    assert flow == FlowFor(store.tables, chunk);
    var rows := ComputeFeatures(lib, chunk, flow);
    var valid := rows[WARMUP_BARS..];
    if |valid| == 0 {
      return NoRows;
    }
    assert valid == ChunkRows(lib, store.tables, db, m);
    ChunkTimesDistinct(lib, store.tables, db, m);
    var v := ValidateFeatureRows(valid);
    if v != Accepted {
      return Refused(v);
    }
    if faults.upsert {
      return Broken;
    }
    UpsertedTwice(features0, store.written, valid, FeatureTime);
    ChunkExtendsWritten(lib, store.tables, db, m);
    store.UpsertFeatures(valid);
    return Written(|valid|);
  }

  lemma NothingWritten(lib: MathLib, store: FeatureStore)
    requires store.written == []
    ensures forall upTo: nat :: upTo <= WARMUP_BARS && upTo <= |store.candles| ==>
              Consistent(lib, store, store.features, upTo)
  {
    hide WrittenRow;
    UpsertedNothing(store.features);
  }

  /** The chunk loop. */
  method BackfillFeatures(lib: MathLib, store: FeatureStore, rounds: nat -> ChunkFaults)
    returns (r: LoopEnd, totalWritten: nat, allCandles: seq<Candle>)
    requires store.Valid() && store.written == []
    modifies store`features, store`written
    ensures r.ReadAll? ==>
              && Consistent(lib, store, old(store.features), |store.candles|)
              && totalWritten == |store.written|
              && allCandles == AllCandles(store.candles)
    ensures exists upTo: nat :: upTo <= |store.candles| && Consistent(lib, store, old(store.features), upTo)
    ensures var db, n := store.candles, LastChunk(|store.candles|) + 1;
            && (r.ReadAll? <==> RoundsSucceed(db, rounds, n) && ChunksAccepted(lib, store.tables, db, n))
            && (r.BrokenOff? ==> !RoundsSucceed(db, rounds, n))
            && (r.Stopped? ==> r.verdict.TooManyUndefined? && !ChunksAccepted(lib, store.tables, db, n))
  {
    hide Upserted, InTimeOrder, FirstAfter, OrderFlow.TablesInOrder, WrittenRow, WrittenRows, Consistent;
    hide ChunkRows, ChunkAccepted, ChunksAccepted, RoundsSucceed, LastChunk;
    ghost var db := store.candles;
    ghost var last := LastChunk(|db|);
    ghost var features0 := store.features;
    allCandles, totalWritten := [], 0;
    var lastTime: Option<int> := None;
    var m: nat := 0;
    NothingWritten(lib, store);
    NoRounds(lib, store.tables, db, rounds);
    while true
      invariant 0 <= m <= last
      invariant allCandles == Overlapped(db, m)
      invariant lastTime == if m == 0 then None else Some(db[STRIDE * m - 1].time)
      invariant Consistent(lib, store, features0, MinInt(STRIDE * m + WARMUP_BARS, |db|))
      invariant totalWritten == |store.written|
      invariant RoundsSucceed(db, rounds, m) && ChunksAccepted(lib, store.tables, db, m)
      decreases last - m
    {
      var faults := rounds(m);
      NextRound(lib, store.tables, db, rounds, m, last + 1);
      if faults.load {
        return BrokenOff, totalWritten, allCandles;
      }
      var chunk := store.LoadCandlesAfter(lastTime, CHUNK_SIZE);
      CursorFindsChunk(db, m, chunk);
      if |chunk| == 0 {
        break;
      }
      allCandles := allCandles + chunk;
      if |chunk| < WARMUP_BARS {
        break;
      }
      var end := ProcessChunk(lib, store, chunk, faults, m, features0);
      match end {
        case NoRows =>
          break;
        case Refused(verdict) =>
          return Stopped(verdict), totalWritten, allCandles;
        case Broken =>
          return BrokenOff, totalWritten, allCandles;
        case Written(count) =>
          totalWritten := totalWritten + count;
      }
      if |chunk| < CHUNK_SIZE {
        break;
      }
      lastTime := Some(chunk[|chunk| - WARMUP_BARS - 1].time);
      m := m + 1;
    }
    r := ReadAll;
  }

  /** The backfill of one pair. When it completes, every candle from index 200 on had its row
      written exactly once, in time order, none below, over whatever the table held; and the
      labels are those of one pass over the candles. However it ends, the rows written are
      those of a leading stretch of the candles. It completes if and only if every statement
      it comes to succeeds and every chunk that has rows to write is accepted. */
  method ProcessPair(lib: MathLib, store: FeatureStore, faults: PairFaults) returns (r: Outcome)
    requires store.Valid() && store.written == []
    modifies store
    ensures r.Completed? ==>
              var db := store.candles;
              && store.written == WrittenRows(lib, store.tables, db, |db|)
              && store.features == Upserted(old(store.features), store.written, FeatureTime)
              && r.totalWritten == |store.written|
              && store.labels ==
                   if |db| >= 200 then Upserted(old(store.labels), Pass(db), TimeOf)
                   else old(store.labels)
    ensures exists upTo: nat :: upTo <= |store.candles| && Consistent(lib, store, old(store.features), upTo)
    ensures var db, n := store.candles, LastChunk(|store.candles|) + 1;
            var accepted := ChunksAccepted(lib, store.tables, db, n);
            && (r.Completed? <==>
                  && !faults.begin && RoundsSucceed(db, faults.rounds, n) && accepted
                  && (|db| >= 200 ==> !faults.saveLabels) && !faults.finish)
            && (r.Completed? && ValidSeries(db) ==> ChunksMove(db, n))
            && (r.Rejected? ==>
                  r.verdict.TooManyUndefined? && !accepted && store.labels == old(store.labels))
  {
    hide ValidSeries, ChunksMove, Upserted, WrittenRows, AllCandles, ChunksAccepted, RoundsSucceed;
    hide InTimeOrder, OrderFlow.TablesInOrder;
    AcceptedIfMoving(lib, store.tables, store.candles, LastChunk(|store.candles|) + 1);
    if faults.begin {
      NothingWritten(lib, store);
      assert Consistent(lib, store, old(store.features), 0);
      return Failed;
    }
    var end, totalWritten, allCandles := BackfillFeatures(lib, store, faults.rounds);
    match end {
      case Stopped(verdict) =>
        return Rejected(verdict);
      case BrokenOff =>
        return Failed;
      case ReadAll =>
    }
    AllCandlesLength(store.candles);
    if |allCandles| >= MIN_CANDLES {
      if faults.saveLabels {
        return Failed;
      }
      var labels := ComputeLabels(allCandles, HORIZONS, LABEL_THRESHOLD);
      OverlappedLabelsEqualOnePass(store.candles, store.labels);
      store.UpsertLabels(labels);
    }
    assert Consistent(lib, store, old(store.features), |store.candles|);
    if faults.finish {
      return Failed;
    }
    return Completed(totalWritten);
  }

  lemma WrittenRowTime(lib: MathLib, tables: OrderFlow.Tables, db: seq<Candle>, j: nat)
    requires WARMUP_BARS <= j < |db|
    ensures WrittenRow(lib, tables, db, j).ts == db[j].time
  {
    hide RowAt, FlowFor;
    var m := WritingChunk(j);
    var chunk := ChunkAt(db, m);
    RowTime(lib, chunk, FlowFor(tables, chunk), j - STRIDE * m);
  }

  /** What the feature table holds after a completed backfill, candle by candle. */
  lemma EachCandleKeepsItsRow(
      lib: MathLib, tables: OrderFlow.Tables, db: seq<Candle>, before: map<int, FeatureRow>, j: nat)
    requires InTimeOrder(db) && WARMUP_BARS <= j < |db|
    ensures var after := Upserted(before, WrittenRows(lib, tables, db, |db|), FeatureTime);
            db[j].time in after && after[db[j].time] == WrittenRow(lib, tables, db, j)
  {
    hide WrittenRow;
    var rows := WrittenRows(lib, tables, db, |db|);
    forall k | 0 <= k < |rows|
      ensures FeatureTime(rows[k]) == db[WARMUP_BARS + k].time
    {
      WrittenRowTime(lib, tables, db, WARMUP_BARS + k);
    }
    LastWriteWins(before, rows, FeatureTime, j - WARMUP_BARS);
  }

  /** Its row in the chunk that begins at a multiple of 2000 and has it at one of the places 200
      to 2199, computed from that chunk's candles and their order flow. */
  lemma RowOfItsChunk(lib: MathLib, tables: OrderFlow.Tables, db: seq<Candle>, j: nat)
    returns (s: nat, chunk: seq<Candle>)
    requires 200 <= j < |db|
    ensures s % 2000 == 0 && 200 <= j - s < 2200 && s <= j
    ensures chunk == if s + 2200 <= |db| then db[s..s + 2200] else db[s..]
    ensures WrittenRow(lib, tables, db, j) == RowAt(lib, chunk, FlowFor(tables, chunk), j - s)
  {
    hide RowAt, FlowFor;
    s := STRIDE * WritingChunk(j);
    chunk := ChunkAt(db, WritingChunk(j));
  }

  /** The table gains rows for the candles from 200 on, and for no other. */
  lemma OnlyTheseRows(lib: MathLib, tables: OrderFlow.Tables, db: seq<Candle>, before: map<int, FeatureRow>)
    ensures Upserted(before, WrittenRows(lib, tables, db, |db|), FeatureTime).Keys
            == before.Keys + set k | 200 <= k < |db| :: db[k].time
  {
    hide WrittenRow, Upserted;
    var rows := WrittenRows(lib, tables, db, |db|);
    UpsertedKeys(before, rows, FeatureTime);
    forall k | 0 <= k < |rows|
      ensures FeatureTime(rows[k]) == db[200 + k].time
    {
      WrittenRowTime(lib, tables, db, WARMUP_BARS + k);
    }
    assert forall k :: 200 <= k < |db| ==> FeatureTime(rows[k - 200]) == db[k].time;
  }

  lemma NeverStartsMoving(candles: seq<Candle>)
    requires forall i :: 0 <= i < |candles| ==>
               candles[i].high == 100.0 && candles[i].low == 100.0 && candles[i].close == 100.0
    ensures !StartsMoving(candles)
  {
    var tr := Wilder.TrueRanges(Highs(candles), Lows(candles), Closes(candles));
    forall i | 0 <= i < |tr|
      ensures tr[i] == 0.0
    {
    }
  }

  /** A market that does not trade, of any length above the warm-up: the series is valid, its
      first chunk does not start moving, and so it is refused whatever the order flow; no
      backfill of it ever completes. */
  lemma FlatSeriesIsRejected(lib: MathLib, tables: OrderFlow.Tables, db: seq<Candle>)
    requires |db| > WARMUP_BARS
    requires forall i :: 0 <= i < |db| ==> db[i] == Candle(i, 100.0, 100.0, 100.0, 100.0, 0.0)
    ensures InTimeOrder(db) && ValidSeries(db)
    ensures !ChunksAccepted(lib, tables, db, LastChunk(|db|) + 1)
  {
    hide LastChunk, StartsMoving, ChunkAccepted, ChunkRows;
    ChunkVerdict(lib, tables, db, 0);
    NeverStartsMoving(ChunkAt(db, 0));
  }
}
