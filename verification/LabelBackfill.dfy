/** Why the labels left after a backfill are the ones a single pass would write, although
    they are computed over a list that contains every chunk overlap twice
    (cmd/feature-backfill/main.go:87-170 with UpsertLabels). */
module LabelBackfill {
  import opened Numeric
  import opened MarketData
  import opened Labels
  import opened ChunkedCandles

  const HORIZONS: seq<nat> := [4, 12, 24]
  const LABEL_THRESHOLD := 0.25

  /** Last-write-wins upserts, one row at a time. */
  function Upserted<R>(store: map<int, R>, rows: seq<R>, key: R -> int): map<int, R> {
    if rows == [] then store
    else
      var last := rows[|rows| - 1];
      Upserted(store, rows[..|rows| - 1], key)[key(last) := last]
  }

  lemma {:induction false} UpsertedKeys<R>(store: map<int, R>, rows: seq<R>, key: R -> int)
    ensures Upserted(store, rows, key).Keys == store.Keys + set k | 0 <= k < |rows| :: key(rows[k])
    ensures forall t :: t in store && (forall k :: 0 <= k < |rows| ==> key(rows[k]) != t) ==>
              Upserted(store, rows, key)[t] == store[t]
  {
    if rows != [] {
      UpsertedKeys(store, rows[..|rows| - 1], key);
    }
  }

  /** A key keeps the last row written to it. */
  lemma {:induction false} LastWriteWins<R>(store: map<int, R>, rows: seq<R>, key: R -> int, q: nat)
    requires q < |rows| && forall k :: q < k < |rows| ==> key(rows[k]) != key(rows[q])
    ensures key(rows[q]) in Upserted(store, rows, key)
    ensures Upserted(store, rows, key)[key(rows[q])] == rows[q]
  {
    var n := |rows| - 1;
    if q < n {
      LastWriteWins(store, rows[..n], key, q);
    }
  }

  function TimeOf(row: LabelRow): int {
    row.ts
  }

  function Pass(candles: seq<Candle>): seq<LabelRow> {
    LabelRows(candles, HORIZONS, LABEL_THRESHOLD)
  }

  /** The last chunk that contains candle `j`. */
  function LastCopyChunk(n: nat, j: nat): nat {
    MinInt(LastChunk(n), j / STRIDE)
  }

  function LastCopy(n: nat, j: nat): nat {
    var k := LastCopyChunk(n, j);
    CHUNK_SIZE * k + j - STRIDE * k
  }

  lemma LastCopyIsThere(db: seq<Candle>, j: nat)
    requires j < |db|
    ensures LastCopy(|db|, j) < |AllCandles(db)| && AllCandles(db)[LastCopy(|db|, j)] == db[j]
    ensures 0 <= j - STRIDE * LastCopyChunk(|db|, j) < CHUNK_SIZE
  {
    hide AllCandles;
    CopyAt(db, LastCopyChunk(|db|, j), j - STRIDE * LastCopyChunk(|db|, j));
  }

  /** Any other position of the same candle comes before its last copy. */
  lemma LastCopyIsLast(db: seq<Candle>, j: nat, q: nat)
    requires InTimeOrder(db) && j < |db| && LastCopy(|db|, j) < q < |AllCandles(db)|
    ensures AllCandles(db)[q].time != db[j].time
  {
    hide AllCandles;
    var k, o := PositionOf(db, q);
    var i := STRIDE * k + o;
    LastCopyIsThere(db, j);
    if i < j {
      assert db[i].time < db[j].time;
    } else if j < i {
      assert db[j].time < db[i].time;
    } else {
      // q would be a later copy of j, in a chunk that starts after j
      assert false;
    }
  }

  /** The label computed at a candle's last copy is the one-pass label: from there the next
      24 positions are the next 24 candles. */
  lemma LastCopyLabel(db: seq<Candle>, j: nat, h: nat)
    requires j < |db| && h <= 24
    ensures var q := LastCopy(|db|, j);
            q < |AllCandles(db)|
            && (j + h < |db| <==> q + h < |AllCandles(db)|)
            && (j + h < |db| ==> AllCandles(db)[q + h] == db[j + h])
  {
    hide AllCandles;
    AllCandlesLength(db);
    LastCopyIsThere(db, j);
    if j + h < |db| {
      CopyAt(db, LastCopyChunk(|db|, j), j - STRIDE * LastCopyChunk(|db|, j) + h);
    }
  }

  lemma SameWindowSameLabel(all: seq<Candle>, q: nat, db: seq<Candle>, j: nat, h: nat)
    requires all == AllCandles(db) && j < |db| && q == LastCopy(|db|, j) < |all| && h in HORIZONS
    ensures ReturnAt(all, HORIZONS, q, h) == ReturnAt(db, HORIZONS, j, h)
    ensures SuccessAt(all, HORIZONS, LABEL_THRESHOLD, q, h) == SuccessAt(db, HORIZONS, LABEL_THRESHOLD, j, h)
  {
    hide AllCandles, LastCopy, FutureReturn, Succeeds;
    LastCopyLabel(db, j, h);
    LastCopyIsThere(db, j);
  }

  lemma PassIs(candles: seq<Candle>, i: nat)
    requires i < |candles|
    ensures Pass(candles)[i] == LabelAt(candles, HORIZONS, LABEL_THRESHOLD, i)
  {
    hide LabelAt;
  }

  lemma LastCopyRow(db: seq<Candle>, j: nat)
    requires j < |db|
    ensures LastCopy(|db|, j) < |AllCandles(db)|
    ensures Pass(AllCandles(db))[LastCopy(|db|, j)] == Pass(db)[j]
  {
    hide ReturnAt, SuccessAt, AllCandles, LastCopy;
    LastCopyLabel(db, j, 0);
    LastCopyIsThere(db, j);
    var q := LastCopy(|db|, j);
    forall h: nat | h in HORIZONS
      ensures ReturnAt(AllCandles(db), HORIZONS, q, h) == ReturnAt(db, HORIZONS, j, h)
      ensures SuccessAt(AllCandles(db), HORIZONS, LABEL_THRESHOLD, q, h)
           == SuccessAt(db, HORIZONS, LABEL_THRESHOLD, j, h)
    {
      SameWindowSameLabel(AllCandles(db), q, db, j, h);
    }
    PassIs(AllCandles(db), q);
    PassIs(db, j);
    assert 4 in HORIZONS && 12 in HORIZONS && 24 in HORIZONS;
  }

  lemma PassTimes(candles: seq<Candle>)
    ensures |Pass(candles)| == |candles|
    ensures forall q :: 0 <= q < |candles| ==> TimeOf(Pass(candles)[q]) == candles[q].time
  {
    hide ReturnAt, SuccessAt;
    forall q: nat | q < |candles| ensures TimeOf(Pass(candles)[q]) == candles[q].time {
      PassIs(candles, q);
    }
  }

  lemma OneKey(db: seq<Candle>, store: map<int, LabelRow>, j: nat)
    requires InTimeOrder(db) && j < |db|
    ensures var t := db[j].time;
            var a, b := Upserted(store, Pass(AllCandles(db)), TimeOf), Upserted(store, Pass(db), TimeOf);
            t in a && t in b && a[t] == b[t]
  {
    hide Upserted, AllCandles, LastCopy, Pass;
    var many := Pass(AllCandles(db));
    LastCopyRow(db, j);
    LastCopyIsThere(db, j);
    PassTimes(AllCandles(db));
    PassTimes(db);
    var q := LastCopy(|db|, j);
    forall k | q < k < |many|
      ensures TimeOf(many[k]) != TimeOf(many[q])
    {
      LastCopyIsLast(db, j, k);
    }
    LastWriteWins(store, many, TimeOf, q);
    LastWriteWins(store, Pass(db), TimeOf, j);
  }

  /** For any number of candles and whatever the table held before, the labels left after
      every upsert of the overlapped list are those of one pass over the candles. */
  lemma OverlappedLabelsEqualOnePass(db: seq<Candle>, store: map<int, LabelRow>)
    requires InTimeOrder(db)
    ensures Upserted(store, Pass(AllCandles(db)), TimeOf) == Upserted(store, Pass(db), TimeOf)
  {
    hide Upserted, AllCandles, LabelAt, Pass;
    var many, once := Pass(AllCandles(db)), Pass(db);
    var a, b := Upserted(store, many, TimeOf), Upserted(store, once, TimeOf);
    UpsertedKeys(store, many, TimeOf);
    UpsertedKeys(store, once, TimeOf);
    PassTimes(AllCandles(db));
    PassTimes(db);
    forall t
      ensures t in a <==> t in b
      ensures t in a ==> a[t] == b[t]
    {
      if j: nat :| j < |db| && db[j].time == t {
        OneKey(db, store, j);
      } else {
        forall q: nat | q < |many|
          ensures TimeOf(many[q]) != t
        {
          var k, o := PositionOf(db, q);
        }
      }
    }
  }

  /** The overwriting is needed: a label computed near the end of a full chunk looks not
      ahead but back, at the candle 200 before the one it wants. */
  lemma SeamLabelsLookBack(db: seq<Candle>, k: nat, o: nat, h: nat)
    requires k < LastChunk(|db|) && h <= 24 && o < CHUNK_SIZE <= o + h
    ensures var q := CHUNK_SIZE * k + o;
            && q + h < |AllCandles(db)|
            && 0 <= STRIDE * k + o + h - WARMUP_BARS < STRIDE * k + o < |db|
            && AllCandles(db)[q] == db[STRIDE * k + o]
            && AllCandles(db)[q + h] == db[STRIDE * k + o + h - WARMUP_BARS]
  {
    hide AllCandles;
    CopyAt(db, k, o);
    CopyAt(db, k + 1, o + h - CHUNK_SIZE);
  }

  /** So after the overlapped upserts every candle has its own forward returns over 4, 12 and 24
      candles of the series, and its successes beyond a quarter percent. */
  lemma EachCandleKeepsItsLabel(db: seq<Candle>, before: map<int, LabelRow>, j: nat)
    requires InTimeOrder(db) && j < |db|
    ensures var after := Upserted(before, Pass(AllCandles(db)), TimeOf);
            db[j].time in after && RowLabelled(db, [4, 12, 24], 0.25, j, after[db[j].time])
  {
    hide AllCandles, Upserted, RowLabelled, Pass;
    OverlappedLabelsEqualOnePass(db, before);
    PassTimes(db);
    LastWriteWins(before, Pass(db), TimeOf, j);
    PassIs(db, j);
    RowMeans(db, [4, 12, 24], 0.25, j);
  }
}
