/** Joining irregular order flow records onto candle times
    (LoadOrderFlow in internal/db/feature_store.go). */
module OrderFlow {
  import opened Numeric

  datatype Rec<+V> = Rec(t: int, value: V)

  /** A forced sale closes a long position, a forced purchase a short one. */
  datatype Liquidation = Liquidation(t: int, forcedSale: bool, usd: real)

  /** The record tables, the first three in time order, and the length of a candle. */
  datatype Tables = Tables(
    oi: seq<Rec<real>>, funding: seq<Rec<real>>, ls: seq<Rec<(real, real)>>,
    liquidations: seq<Liquidation>, barLength: int)

  datatype Snapshot = Snapshot(
    ts: int, oi: real, fundingRate: real, buyRatio: real, sellRatio: real, liqLong: real, liqShort: real)

  ghost predicate InTimeOrder<V>(recs: seq<Rec<V>>) {
    forall j, k :: 0 <= j < k < |recs| ==> recs[j].t <= recs[k].t
  }

  ghost predicate TablesInOrder(tables: Tables) {
    InTimeOrder(tables.oi) && InTimeOrder(tables.funding) && InTimeOrder(tables.ls) && tables.barLength > 0
  }

  ghost predicate Increasing(ts: seq<int>) {
    forall j, k :: 0 <= j < k < |ts| ==> ts[j] < ts[k]
  }

  /** The query: records of the table with start <= t <= end, in table order. */
  function Between<V>(table: seq<Rec<V>>, start: int, end: int): seq<Rec<V>> {
    if table == [] then []
    else
      var r := table[|table| - 1];
      Between(table[..|table| - 1], start, end) + if start <= r.t <= end then [r] else []
  }

  /** The last record with after < t <= upTo. */
  function LastIn<V>(recs: seq<Rec<V>>, after: int, upTo: int): Option<V> {
    if recs == [] then None
    else
      var r := recs[|recs| - 1];
      if after < r.t <= upTo then Some(r.value) else LastIn(recs[..|recs| - 1], after, upTo)
  }

  function OrElse<V>(o: Option<V>, default: V): V {
    match o case Some(v) => v case None => default
  }

  /** Row `i` reads the records since the previous candle; the first row of a load only
      those stamped with its own time. */
  function Since(ts: seq<int>, i: nat): int
    requires i < |ts|
  {
    if i == 0 then ts[0] - 1 else ts[i - 1]
  }

  /** Where the bar containing `t` starts. */
  function BarStart(t: int, barLength: int): int {
    if barLength <= 0 then t else t - t % barLength
  }

  /** What was liquidated on one side in [lo, hi]. */
  function LiquidatedIn(recs: seq<Liquidation>, forcedSale: bool, lo: int, hi: int): real {
    if recs == [] then 0.0
    else
      var r := recs[|recs| - 1];
      LiquidatedIn(recs[..|recs| - 1], forcedSale, lo, hi)
      + if r.forcedSale == forcedSale && lo <= r.t <= hi then r.usd else 0.0
  }

  /** The liquidations of the bar at `ts[i]`, as the load sees them: the query is cut at the
      first and at the last candle time before the records are put into bars. */
  function LiquidatedAt(tables: Tables, ts: seq<int>, i: nat, forcedSale: bool): real
    requires i < |ts|
  {
    var bar := BarStart(ts[i], tables.barLength);
    LiquidatedIn(
      tables.liquidations, forcedSale,
      MaxInt(bar, ts[0]), MinInt(bar + tables.barLength - 1, ts[|ts| - 1]))
  }

  function JoinedAt(tables: Tables, ts: seq<int>, i: nat): Snapshot
    requires i < |ts|
  {
    var since := Since(ts, i);
    var ls := OrElse(LastIn(tables.ls, since, ts[i]), (0.0, 0.0));
    Snapshot(
      ts[i],
      OrElse(LastIn(tables.oi, since, ts[i]), 0.0),
      OrElse(LastIn(tables.funding, since, ts[i]), 0.0),
      ls.0, ls.1,
      LiquidatedAt(tables, ts, i, true), LiquidatedAt(tables, ts, i, false))
  }

  lemma {:induction false} BetweenKeepsOrder<V>(table: seq<Rec<V>>, start: int, end: int)
    requires InTimeOrder(table)
    ensures InTimeOrder(Between(table, start, end))
    ensures forall k :: 0 <= k < |Between(table, start, end)| ==> start <= Between(table, start, end)[k].t <= end
    ensures forall r :: r in Between(table, start, end) ==> r in table
  {
    if table != [] {
      var n := |table| - 1;
      BetweenKeepsOrder(table[..n], start, end);
      var before := Between(table[..n], start, end);
      forall j | 0 <= j < |before| ensures before[j].t <= table[n].t {
        assert before[j] in table[..n];
      }
    }
  }

  /** `idx` splits the records at time `t`: those before it are not later, the rest are. */
  ghost predicate SplitsAt<V>(recs: seq<Rec<V>>, idx: nat, t: int) {
    && idx <= |recs|
    && (forall k :: 0 <= k < idx ==> recs[k].t <= t)
    && (forall k :: idx <= k < |recs| ==> recs[k].t > t)
  }

  /** A fresh cursor stands before every record of a load. */
  lemma LoadStartsAndEnds<V>(table: seq<Rec<V>>, start: int, end: int)
    requires InTimeOrder(table)
    ensures InTimeOrder(Between(table, start, end))
    ensures SplitsAt(Between(table, start, end), 0, start - 1)
    ensures forall idx: nat :: SplitsAt(Between(table, start, end), idx, end) ==> idx == |Between(table, start, end)|
  {
    BetweenKeepsOrder(table, start, end);
    var loaded := Between(table, start, end);
    forall idx: nat | idx < |loaded|
      ensures !SplitsAt(loaded, idx, end)
    {
      assert loaded[idx].t <= end;
    }
  }

  /** Narrowing the table to a range does not change what an interval inside it holds. */
  lemma {:induction false} LastInBetween<V>(table: seq<Rec<V>>, start: int, end: int, after: int, upTo: int)
    requires start <= after + 1 && upTo <= end
    ensures LastIn(Between(table, start, end), after, upTo) == LastIn(table, after, upTo)
  {
    if table != [] {
      var n := |table| - 1;
      LastInBetween(table[..n], start, end, after, upTo);
      var before := Between(table[..n], start, end);
      if start <= table[n].t <= end {
        assert Between(table, start, end) == before + [table[n]];
        assert (before + [table[n]])[..|before|] == before;
      } else {
        assert Between(table, start, end) == before + [] == before;
        assert !(after < table[n].t <= upTo);
      }
    }
  }

  lemma {:induction false} LastInSplit<V>(recs: seq<Rec<V>>, from: nat, idx: nat, after: int, upTo: int)
    requires from <= idx <= |recs|
    requires forall k :: 0 <= k < from ==> recs[k].t <= after
    requires forall k :: from <= k < idx ==> after < recs[k].t <= upTo
    requires forall k :: idx <= k < |recs| ==> recs[k].t > upTo
    ensures LastIn(recs, after, upTo) == if from == idx then None else Some(recs[idx - 1].value)
  {
    if recs != [] {
      var n := |recs| - 1;
      if idx <= n {
        LastInSplit(recs[..n], from, idx, after, upTo);
      } else if from == idx {
        LastInSplit(recs[..n], n, n, after, upTo);
      }
    }
  }

  /** One cursor's inner loop: consumes the records up to `ts` and keeps the last of them. */
  method Advance<V>(recs: seq<Rec<V>>, from: nat, ghost after: int, ts: int, default: V)
    returns (idx: nat, value: V)
    requires InTimeOrder(recs) && SplitsAt(recs, from, after) && after <= ts
    ensures SplitsAt(recs, idx, ts) && from <= idx
    ensures value == OrElse(LastIn(recs, after, ts), default)
  {
    idx, value := from, default;
    while idx < |recs| && recs[idx].t <= ts
      invariant from <= idx <= |recs|
      invariant forall k :: from <= k < idx ==> recs[k].t <= ts
      invariant value == if idx == from then default else recs[idx - 1].value
    {
      value := recs[idx].value;
      idx := idx + 1;
    }
    LastInSplit(recs, from, idx, after, ts);
  }

  /** Record `k` is the last of a table with after < t <= upTo. */
  ghost predicate IsLast<V>(table: seq<Rec<V>>, k: int, after: int, upTo: int) {
    && 0 <= k < |table| && after < table[k].t <= upTo
    && forall l :: k < l < |table| ==> !(after < table[l].t <= upTo)
  }

  ghost predicate HasNone<V>(table: seq<Rec<V>>, after: int, upTo: int) {
    forall k :: 0 <= k < |table| ==> !(after < table[k].t <= upTo)
  }

  /** A row reads each of its fields from the last record of the field's own table, and has zero
      where there is none. */
  ghost predicate Reads(tables: Tables, after: int, upTo: int, row: Snapshot) {
    && row.ts == upTo
    && (forall k :: IsLast(tables.oi, k, after, upTo) ==> row.oi == tables.oi[k].value)
    && (HasNone(tables.oi, after, upTo) ==> row.oi == 0.0)
    && (forall k :: IsLast(tables.funding, k, after, upTo) ==> row.fundingRate == tables.funding[k].value)
    && (HasNone(tables.funding, after, upTo) ==> row.fundingRate == 0.0)
    && (forall k :: IsLast(tables.ls, k, after, upTo) ==>
          row.buyRatio == tables.ls[k].value.0 && row.sellRatio == tables.ls[k].value.1)
    && (HasNone(tables.ls, after, upTo) ==> row.buyRatio == 0.0 && row.sellRatio == 0.0)
  }

  /** A row sums what was liquidated in [lo, hi]: the forced sales of longs, and the forced
      purchases of shorts. */
  ghost predicate Sums(recs: seq<Liquidation>, lo: int, hi: int, row: Snapshot) {
    var n := |recs|;
    && row.liqLong ==
       Sum(seq(n, k requires 0 <= k < n =>
             if recs[k].forcedSale && lo <= recs[k].t <= hi then recs[k].usd else 0.0), n)
    && row.liqShort ==
       Sum(seq(n, k requires 0 <= k < n =>
             if !recs[k].forcedSale && lo <= recs[k].t <= hi then recs[k].usd else 0.0), n)
  }

  /** Row `i` of a load at `ts`: it reads the records since the time before, in the first row only
      those of its own time; and it sums the liquidations of its bar within the load. */
  ghost predicate RowJoins(tables: Tables, ts: seq<int>, i: nat, row: Snapshot)
    requires i < |ts| && tables.barLength > 0
  {
    var first, last := ts[0], ts[|ts| - 1];
    var bar := ts[i] - ts[i] % tables.barLength;
    var barEnd := bar + tables.barLength - 1;
    && Reads(tables, if i == 0 then first - 1 else ts[i - 1], ts[i], row)
    && Sums(tables.liquidations, if bar >= first then bar else first, if barEnd <= last then barEnd else last, row)
  }

  lemma {:induction false} LastInIs<V>(table: seq<Rec<V>>, k: int, after: int, upTo: int)
    requires IsLast(table, k, after, upTo)
    ensures LastIn(table, after, upTo) == Some(table[k].value)
  {
    var n := |table| - 1;
    if k < n {
      assert !(after < table[n].t <= upTo);
      LastInIs(table[..n], k, after, upTo);
    }
  }

  lemma {:induction false} NoneIsIn<V>(table: seq<Rec<V>>, after: int, upTo: int)
    requires HasNone(table, after, upTo)
    ensures LastIn(table, after, upTo) == None
  {
    if table != [] {
      var n := |table| - 1;
      assert !(after < table[n].t <= upTo);
      NoneIsIn(table[..n], after, upTo);
    }
  }

  lemma LastInByIndex<V>(table: seq<Rec<V>>, after: int, upTo: int)
    ensures forall k :: IsLast(table, k, after, upTo) ==> LastIn(table, after, upTo) == Some(table[k].value)
    ensures HasNone(table, after, upTo) ==> LastIn(table, after, upTo) == None
  {
    hide HasNone, LastIn;
    forall k | IsLast(table, k, after, upTo)
      ensures LastIn(table, after, upTo) == Some(table[k].value)
    {
      LastInIs(table, k, after, upTo);
    }
    if HasNone(table, after, upTo) {
      NoneIsIn(table, after, upTo);
    }
  }

  lemma {:induction false} LiquidatedIsSum(recs: seq<Liquidation>, forcedSale: bool, lo: int, hi: int)
    ensures var n := |recs|;
            LiquidatedIn(recs, forcedSale, lo, hi) ==
            Sum(seq(n, k requires 0 <= k < n =>
                  if recs[k].forcedSale == forcedSale && lo <= recs[k].t <= hi then recs[k].usd else 0.0), n)
  {
    if recs != [] {
      var n := |recs| - 1;
      LiquidatedIsSum(recs[..n], forcedSale, lo, hi);
      var all := seq(n + 1, k requires 0 <= k < n + 1 =>
        if recs[k].forcedSale == forcedSale && lo <= recs[k].t <= hi then recs[k].usd else 0.0);
      var before := seq(n, k requires 0 <= k < n =>
        if recs[..n][k].forcedSale == forcedSale && lo <= recs[..n][k].t <= hi then recs[..n][k].usd else 0.0);
      SumAgrees(all, before, n);
    }
  }

  lemma JoinedReads(tables: Tables, ts: seq<int>, i: nat)
    requires i < |ts|
    ensures Reads(tables, if i == 0 then ts[0] - 1 else ts[i - 1], ts[i], JoinedAt(tables, ts, i))
  {
    hide LastIn, LiquidatedAt, IsLast, HasNone;
    var after := if i == 0 then ts[0] - 1 else ts[i - 1];
    LastInByIndex(tables.oi, after, ts[i]);
    LastInByIndex(tables.funding, after, ts[i]);
    LastInByIndex(tables.ls, after, ts[i]);
  }

  lemma JoinedSums(tables: Tables, ts: seq<int>, i: nat)
    requires i < |ts| && tables.barLength > 0
    ensures var bar, n := ts[i] - ts[i] % tables.barLength, |ts|;
            Sums(tables.liquidations, if bar >= ts[0] then bar else ts[0],
                 if bar + tables.barLength - 1 <= ts[n - 1] then bar + tables.barLength - 1 else ts[n - 1],
                 JoinedAt(tables, ts, i))
  {
    hide LastIn, LiquidatedIn;
    var bar := BarStart(ts[i], tables.barLength);
    var lo, hi := MaxInt(bar, ts[0]), MinInt(bar + tables.barLength - 1, ts[|ts| - 1]);
    var recs, n := tables.liquidations, |tables.liquidations|;
    LiquidatedIsSum(recs, true, lo, hi);
    LiquidatedIsSum(recs, false, lo, hi);
    assert seq(n, k requires 0 <= k < n =>
             if recs[k].forcedSale == true && lo <= recs[k].t <= hi then recs[k].usd else 0.0)
           == seq(n, k requires 0 <= k < n =>
             if recs[k].forcedSale && lo <= recs[k].t <= hi then recs[k].usd else 0.0);
    assert seq(n, k requires 0 <= k < n =>
             if recs[k].forcedSale == false && lo <= recs[k].t <= hi then recs[k].usd else 0.0)
           == seq(n, k requires 0 <= k < n =>
             if !recs[k].forcedSale && lo <= recs[k].t <= hi then recs[k].usd else 0.0);
  }

  lemma JoinedMeans(tables: Tables, ts: seq<int>, rows: seq<Snapshot>)
    requires tables.barLength > 0 && |rows| == |ts|
    requires forall i :: 0 <= i < |ts| ==> rows[i] == JoinedAt(tables, ts, i)
    ensures forall i :: 0 <= i < |ts| ==> RowJoins(tables, ts, i, rows[i])
  {
    hide JoinedAt, Reads, Sums;
    forall i: nat | i < |ts|
      ensures RowJoins(tables, ts, i, rows[i])
    {
      JoinedReads(tables, ts, i);
      JoinedSums(tables, ts, i);
    }
  }

  /** Row `i` holds the last record of each table in (ts[i-1], ts[i]], or zero, whatever the
      rest of the load looks like, and what was liquidated in its bar. */
  method LoadOrderFlow(tables: Tables, ts: seq<int>) returns (result: seq<Snapshot>)
    requires TablesInOrder(tables) && Increasing(ts)
    ensures |result| == |ts|
    ensures forall i :: 0 <= i < |ts| ==> result[i] == JoinedAt(tables, ts, i)
    ensures forall i :: 0 <= i < |ts| ==> RowJoins(tables, ts, i, result[i])
  {
    hide Between, LastIn, OrElse, SplitsAt, InTimeOrder, LiquidatedAt, RowJoins;
    if |ts| == 0 {
      return [];
    }
    var n := |ts|;
    var start, end := ts[0], ts[n - 1];
    var oi, funding := Between(tables.oi, start, end), Between(tables.funding, start, end);
    var ls := Between(tables.ls, start, end);
    LoadStartsAndEnds(tables.oi, start, end);
    LoadStartsAndEnds(tables.funding, start, end);
    LoadStartsAndEnds(tables.ls, start, end);
    var oiIdx, frIdx, lsIdx := 0, 0, 0;
    var rows := new Snapshot[n](_ => Snapshot(0, 0.0, 0.0, 0.0, 0.0, 0.0, 0.0));
    for i := 0 to n
      invariant SplitsAt(oi, oiIdx, if i == 0 then start - 1 else ts[i - 1])
      invariant SplitsAt(funding, frIdx, if i == 0 then start - 1 else ts[i - 1])
      invariant SplitsAt(ls, lsIdx, if i == 0 then start - 1 else ts[i - 1])
      invariant forall j :: 0 <= j < i ==> rows[j] == JoinedAt(tables, ts, j)
    {
      ghost var since := Since(ts, i);
      var oiNow, frNow, lsNow;
      oiIdx, oiNow := Advance(oi, oiIdx, since, ts[i], 0.0);
      frIdx, frNow := Advance(funding, frIdx, since, ts[i], 0.0);
      lsIdx, lsNow := Advance(ls, lsIdx, since, ts[i], (0.0, 0.0));
      assert ts[0] <= since + 1 && ts[i] <= end;
      LastInBetween(tables.oi, start, end, since, ts[i]);
      LastInBetween(tables.funding, start, end, since, ts[i]);
      LastInBetween(tables.ls, start, end, since, ts[i]);
      rows[i] := Snapshot(
        ts[i], oiNow, frNow, lsNow.0, lsNow.1,
        LiquidatedAt(tables, ts, i, true), LiquidatedAt(tables, ts, i, false));
    }
    result := rows[..];
    JoinedMeans(tables, ts, result);
  }

  /** Every record inside the loaded range lands on exactly one row. */
  lemma RecordLandsOnce(ts: seq<int>, t: int) returns (row: nat)
    requires Increasing(ts) && ts != [] && ts[0] <= t <= ts[|ts| - 1]
    ensures row < |ts| && Since(ts, row) < t <= ts[row]
    ensures forall i: nat :: i < |ts| && Since(ts, i) < t <= ts[i] ==> i == row
  {
    row := 0;
    while ts[row] < t
      invariant row < |ts| && Since(ts, row) < t
      decreases |ts| - row
    {
      row := row + 1;
    }
  }

  /** Rows after the first do not depend on where a load starts or ends, except for the
      liquidations. */
  lemma JoinIsLocal(tables: Tables, ts: seq<int>, s: nat, e: nat, i: nat)
    requires s + i < e <= |ts| && 1 <= i
    ensures var part, whole := JoinedAt(tables, ts[s..e], i), JoinedAt(tables, ts, s + i);
            part == whole.(liqLong := part.liqLong, liqShort := part.liqShort)
  {
    assert ts[s..e][i - 1] == ts[s + i - 1];
  }

  lemma {:induction false} NothingAfterOrder<V>(recs: seq<Rec<V>>, t: int)
    requires forall k :: 0 <= k < |recs| ==> recs[k].t < t
    ensures LastIn(recs, t - 1, t) == None
  {
    if recs != [] {
      NothingAfterOrder(recs[..|recs| - 1], t);
    }
  }

  /** The first row reads only what is stamped at its own time, as a later load does last. */
  lemma {:induction false} FirstRowReadsNoMore<V>(recs: seq<Rec<V>>, since: int, t: int)
    requires InTimeOrder(recs) && since < t && LastIn(recs, t - 1, t).Some?
    ensures LastIn(recs, since, t) == LastIn(recs, t - 1, t)
  {
    if recs != [] {
      var n := |recs| - 1;
      if !(t - 1 < recs[n].t <= t) {
        if since < recs[n].t <= t {
          NothingAfterOrder(recs[..n], t);
        } else {
          FirstRowReadsNoMore(recs[..n], since, t);
        }
      }
    }
  }

  /** Candles stand at the starts of their bars. */
  ghost predicate OnGrid(tables: Tables, ts: seq<int>) {
    tables.barLength > 0 && Increasing(ts) && forall i :: 0 <= i < |ts| ==> ts[i] % tables.barLength == 0
  }

  lemma ProductsInOrder(p: int, q: int, step: int)
    requires step > 0
    ensures p <= q ==> p * step <= q * step
  {
    if p <= q {
      assert (q - p) * step >= 0;
      assert (q - p) * step == q * step - p * step;
    }
  }

  lemma NextBar(a: int, b: int, step: int)
    requires step > 0 && a < b && a % step == 0 && b % step == 0
    ensures a + step <= b
  {
    assert a == a / step * step && b == b / step * step;
    ProductsInOrder(b / step, a / step, step);
    ProductsInOrder(a / step + 1, b / step, step);
    assert (a / step + 1) * step == a / step * step + step;
  }

  /** Every row but the last of a load holds the liquidations of its whole bar; the last only
      those stamped at the very start of its bar. */
  lemma LastRowIsCut(tables: Tables, ts: seq<int>, i: nat, forcedSale: bool)
    requires OnGrid(tables, ts) && i < |ts|
    ensures LiquidatedAt(tables, ts, i, forcedSale)
            == LiquidatedIn(tables.liquidations, forcedSale, ts[i],
                            if i == |ts| - 1 then ts[i] else ts[i] + tables.barLength - 1)
  {
    hide LiquidatedIn;
    if i < |ts| - 1 {
      NextBar(ts[i], ts[i + 1], tables.barLength);
    }
  }

  /** Such a cut loses, say, the only liquidation of a bar. */
  lemma CutLosesLiquidation(t: int, usd: real, barLength: int)
    requires barLength >= 2
    ensures var recs := [Liquidation(t + 1, true, usd)];
            && LiquidatedIn(recs, true, t, t) == 0.0
            && LiquidatedIn(recs, true, t, t + barLength - 1) == usd
  {
    var recs := [Liquidation(t + 1, true, usd)];
    assert recs[..0] == [];
  }
}
