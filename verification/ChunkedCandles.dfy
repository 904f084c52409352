/** The overlapping chunks a pair's candles are read in
    (cmd/feature-backfill/main.go and LoadCandlesAfter in internal/db/feature_store.go). */
module ChunkedCandles {
  import opened Numeric
  import opened MarketData

  const CHUNK_SIZE := 2200
  const WARMUP_BARS := 200
  /** Consecutive chunks start this far apart: CHUNK_SIZE - WARMUP_BARS. */
  const STRIDE := 2000

  ghost predicate InTimeOrder(db: seq<Candle>) {
    forall j, k :: 0 <= j < k < |db| ==> db[j].time < db[k].time
  }

  /** The query: candles after a time (after none: all of them), in order. */
  function LaterThan(db: seq<Candle>, after: Option<int>): seq<Candle> {
    if db == [] then []
    else
      var c := db[|db| - 1];
      LaterThan(db[..|db| - 1], after) + if after.None? || c.time > after.value then [c] else []
  }

  function CandlesAfter(db: seq<Candle>, after: Option<int>, limit: nat): seq<Candle> {
    var later := LaterThan(db, after);
    later[..MinInt(limit, |later|)]
  }

  lemma {:induction false} NothingLater(db: seq<Candle>, after: Option<int>)
    requires db != [] ==> after.Some?
    requires forall k :: 0 <= k < |db| ==> db[k].time <= after.value
    ensures LaterThan(db, after) == []
  {
    if db != [] {
      NothingLater(db[..|db| - 1], after);
    }
  }

  lemma {:induction false} LaterThanIsSuffix(db: seq<Candle>, after: Option<int>, from: nat)
    requires from <= |db|
    requires forall k :: from <= k < |db| ==> after.None? || db[k].time > after.value
    requires from > 0 ==> after.Some?
    requires forall k :: 0 <= k < from ==> db[k].time <= after.value
    ensures LaterThan(db, after) == db[from..]
  {
    if from == |db| {
      NothingLater(db, after);
    } else {
      var n := |db| - 1;
      LaterThanIsSuffix(db[..n], after, from);
      assert LaterThan(db, after) == LaterThan(db[..n], after) + [db[n]];
      assert db[from..] == db[..n][from..] + [db[n]];
    }
  }

  /** Chunk number `m`. */
  function ChunkAt(db: seq<Candle>, m: nat): seq<Candle>
    requires STRIDE * m <= |db|
  {
    db[STRIDE * m..MinInt(STRIDE * m + CHUNK_SIZE, |db|)]
  }

  /** `chunk` is what the query promises: of the candles from `lo` on, the first ones, at most
      `limit`; and `lo` is where the candles after the cursor begin. */
  ghost predicate FirstFrom(db: seq<Candle>, after: Option<int>, limit: nat, lo: nat, chunk: seq<Candle>) {
    && lo <= |db|
    && chunk == db[lo..lo + MinInt(limit, |db| - lo)]
    && (forall k :: 0 <= k < lo ==> after.Some? && db[k].time <= after.value)
    && (forall k :: lo <= k < |db| ==> after.None? || db[k].time > after.value)
  }

  ghost predicate FirstAfter(db: seq<Candle>, after: Option<int>, limit: nat, chunk: seq<Candle>) {
    exists lo: nat :: FirstFrom(db, after, limit, lo, chunk)
  }

  lemma QueryIsFirstAfter(db: seq<Candle>, after: Option<int>, limit: nat)
    requires InTimeOrder(db)
    ensures FirstAfter(db, after, limit, CandlesAfter(db, after, limit))
  {
    hide LaterThan;
    var lo: nat := 0;
    while lo < |db| && after.Some? && db[lo].time <= after.value
      invariant lo <= |db|
      invariant lo > 0 ==> after.Some?
      invariant forall k :: 0 <= k < lo ==> db[k].time <= after.value
    {
      lo := lo + 1;
    }
    LaterThanIsSuffix(db, after, lo);
    assert FirstFrom(db, after, limit, lo, CandlesAfter(db, after, limit));
  }

  /** The cursor left behind by a full chunk makes the next query return the next chunk. */
  lemma CursorFindsChunk(db: seq<Candle>, m: nat, chunk: seq<Candle>)
    requires InTimeOrder(db) && STRIDE * m <= |db|
    requires FirstAfter(db, if m == 0 then None else Some(db[STRIDE * m - 1].time), CHUNK_SIZE, chunk)
    ensures chunk == ChunkAt(db, m)
    ensures |chunk| == MinInt(2200, |db| - 2000 * m) && chunk == db[2000 * m..2000 * m + |chunk|]
  {
    var after := if m == 0 then None else Some(db[STRIDE * m - 1].time);
    var lo: nat :| FirstFrom(db, after, CHUNK_SIZE, lo, chunk);
    assert lo > 0 ==> after.Some? && db[0].time <= after.value;
    assert 0 < m && STRIDE * m < |db| ==> db[STRIDE * m - 1].time < db[STRIDE * m].time;
    assert lo >= STRIDE * m by {
      if m > 0 {
        assert db[STRIDE * m - 1].time <= after.value;
      }
    }
    assert lo <= STRIDE * m;
  }

  /** All candles appended after `m` chunks: the overlaps are in there twice. */
  function Overlapped(db: seq<Candle>, m: nat): seq<Candle>
    requires m == 0 || STRIDE * (m - 1) <= |db|
  {
    if m == 0 then [] else Overlapped(db, m - 1) + ChunkAt(db, m - 1)
  }

  /** The number of the last chunk: the first one that is not full. */
  function LastChunk(n: nat): (m: nat)
    ensures STRIDE * m <= n < STRIDE * m + CHUNK_SIZE
    ensures m > 0 ==> n >= STRIDE * m + WARMUP_BARS
  {
    if n < CHUNK_SIZE then 0 else 1 + LastChunk(n - STRIDE)
  }

  lemma {:induction false} OverlappedLength(db: seq<Candle>, m: nat)
    requires m == 0 || STRIDE * (m - 1) + CHUNK_SIZE <= |db|
    ensures |Overlapped(db, m)| == CHUNK_SIZE * m
  {
    if m > 0 {
      OverlappedLength(db, m - 1);
    }
  }

  lemma {:induction false} OverlappedAt(db: seq<Candle>, m: nat, k: nat, o: nat)
    requires k < m && STRIDE * (m - 1) + CHUNK_SIZE <= |db| && o < CHUNK_SIZE
    ensures CHUNK_SIZE * k + o < |Overlapped(db, m)|
    ensures Overlapped(db, m)[CHUNK_SIZE * k + o] == db[STRIDE * k + o]
  {
    var before, last := Overlapped(db, m - 1), ChunkAt(db, m - 1);
    OverlappedLength(db, m - 1);
    assert |last| == CHUNK_SIZE;
    assert Overlapped(db, m) == before + last;
    if k < m - 1 {
      OverlappedAt(db, m - 1, k, o);
      assert (before + last)[CHUNK_SIZE * k + o] == before[CHUNK_SIZE * k + o];
    } else {
      assert (before + last)[CHUNK_SIZE * k + o] == last[o];
    }
  }

  /** The whole appended list: all full chunks, then the last one. */
  function AllCandles(db: seq<Candle>): seq<Candle> {
    Overlapped(db, LastChunk(|db|) + 1)
  }

  lemma AllCandlesLength(db: seq<Candle>)
    ensures |AllCandles(db)| == CHUNK_SIZE * LastChunk(|db|) + (|db| - STRIDE * LastChunk(|db|))
  {
    OverlappedLength(db, LastChunk(|db|));
  }

  lemma AllCandlesSplit(db: seq<Candle>)
    ensures AllCandles(db) == Overlapped(db, LastChunk(|db|)) + ChunkAt(db, LastChunk(|db|))
  {
  }

  /** Which candle stands at a position of the appended list. */
  lemma CopyAt(db: seq<Candle>, k: nat, o: nat)
    requires k <= LastChunk(|db|) && o < CHUNK_SIZE && STRIDE * k + o < |db|
    ensures CHUNK_SIZE * k + o < |AllCandles(db)|
    ensures AllCandles(db)[CHUNK_SIZE * k + o] == db[STRIDE * k + o]
  {
    hide Overlapped, AllCandles, LastChunk;
    var last := LastChunk(|db|);
    OverlappedLength(db, last);
    AllCandlesSplit(db);
    if k < last {
      OverlappedAt(db, last, k, o);
    } else {
      assert ChunkAt(db, last)[o] == db[STRIDE * last + o];
    }
  }

  /** Every position of the appended list is offset `o` of some chunk `k`. */
  lemma PositionOf(db: seq<Candle>, q: nat) returns (k: nat, o: nat)
    requires q < |AllCandles(db)|
    ensures q == CHUNK_SIZE * k + o && o < CHUNK_SIZE && k <= LastChunk(|db|)
    ensures STRIDE * k + o < |db| && AllCandles(db)[q] == db[STRIDE * k + o]
  {
    AllCandlesLength(db);
    k, o := q / CHUNK_SIZE, q % CHUNK_SIZE;
    CopyAt(db, k, o);
  }
}
