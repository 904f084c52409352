/** Feature rows assembled from the indicator columns (internal/feature/feature.go) and the
    quality check they pass before they are stored (internal/db/quality.go). */
module Features {
  import opened Numeric
  import opened MarketData
  import opened Market
  import opened Ema
  import opened Wilder
  import opened FlowFeatures
  import OrderFlow

  /** The twelve mandatory fields. */
  datatype PriceFields = PriceFields(
    ema20: Num, ema50: Num, ema200: Num, rsi14: Num, atr14: Num, adx14: Num, volumeEma20: Num,
    return1: Num, return4: Num, return12: Num, volatility14: Num, volatility50: Num)
  {
    function Mandatory(): seq<Num> {
      [ema20, ema50, ema200, rsi14, atr14, adx14, volumeEma20, return1, return4, return12, volatility14, volatility50]
    }
  }

  /** Whether the close stands above each of the three averages. */
  datatype AboveFields = AboveFields(ema20: int, ema50: int, ema200: int)

  datatype FeatureRow = FeatureRow(ts: int, price: PriceFields, above: AboveFields, flow: FlowFields)

  function Closes(candles: seq<Candle>): (r: seq<real>)
    ensures |r| == |candles|
  {
    seq(|candles|, i requires 0 <= i < |candles| => candles[i].close)
  }

  function Highs(candles: seq<Candle>): (r: seq<real>)
    ensures |r| == |candles|
  {
    seq(|candles|, i requires 0 <= i < |candles| => candles[i].high)
  }

  function Lows(candles: seq<Candle>): (r: seq<real>)
    ensures |r| == |candles|
  {
    seq(|candles|, i requires 0 <= i < |candles| => candles[i].low)
  }

  function Volumes(candles: seq<Candle>): (r: seq<real>)
    ensures |r| == |candles|
  {
    seq(|candles|, i requires 0 <= i < |candles| => candles[i].volume)
  }

  function CandleTimes(candles: seq<Candle>): (r: seq<int>)
    ensures |r| == |candles|
  {
    seq(|candles|, i requires 0 <= i < |candles| => candles[i].time)
  }

  /** The price columns at `i`. */
  function PricesAt(lib: MathLib, candles: seq<Candle>, i: nat): PriceFields
    requires i < |candles|
  {
    var closes := Closes(candles);
    PriceFields(
      EmaColumn(closes, 20)[i], EmaColumn(closes, 50)[i], EmaColumn(closes, 200)[i],
      RsiColumn(closes, 14)[i],
      AtrColumn(Highs(candles), Lows(candles), closes, 14)[i],
      AdxColumn(Highs(candles), Lows(candles), closes, 14)[i],
      EmaColumn(Volumes(candles), 20)[i],
      LogReturnColumn(lib, closes, 1)[i], LogReturnColumn(lib, closes, 4)[i], LogReturnColumn(lib, closes, 12)[i],
      VolatilityColumn(lib, LogReturnColumn(lib, closes, 1), 14)[i],
      VolatilityColumn(lib, LogReturnColumn(lib, closes, 1), 50)[i])
  }

  function AboveAt(close: real, p: PriceFields): AboveFields {
    AboveFields(Above(close, p.ema20), Above(close, p.ema50), Above(close, p.ema200))
  }

  function RowAt(lib: MathLib, candles: seq<Candle>, flow: seq<OrderFlow.Snapshot>, i: nat): FeatureRow
    requires i < |candles|
  {
    var price := PricesAt(lib, candles, i);
    FeatureRow(
      candles[i].time, price, AboveAt(candles[i].close, price),
      if |flow| == |candles| then FieldsAt(lib, flow, i) else NO_FLOW)
  }

  const MIN_CANDLES := 200

  lemma ColumnLengths(lib: MathLib, candles: seq<Candle>)
    ensures var closes := Closes(candles);
            var n := |candles|;
            && |EmaColumn(closes, 20)| == |EmaColumn(closes, 50)| == |EmaColumn(closes, 200)| == n
            && |EmaColumn(Volumes(candles), 20)| == n
            && |RsiColumn(closes, 14)| == n
            && |AtrColumn(Highs(candles), Lows(candles), closes, 14)| == n
            && |AdxColumn(Highs(candles), Lows(candles), closes, 14)| == n
            && |LogReturnColumn(lib, closes, 1)| == |LogReturnColumn(lib, closes, 4)| == n
            && |LogReturnColumn(lib, closes, 12)| == n
            && |VolatilityColumn(lib, LogReturnColumn(lib, closes, 1), 14)| == n
            && |VolatilityColumn(lib, LogReturnColumn(lib, closes, 1), 50)| == n
  {
  }

  lemma CloseOf(candles: seq<Candle>)
    ensures forall i :: 0 <= i < |candles| ==> Closes(candles)[i] == candles[i].close
  {
  }

  /** The columns that need candles only. */
  method PriceColumns(lib: MathLib, candles: seq<Candle>) returns (prices: seq<PriceFields>, above: seq<AboveFields>)
    ensures |prices| == |above| == |candles|
    ensures forall i :: 0 <= i < |candles| ==>
              prices[i] == PricesAt(lib, candles, i) && above[i] == AboveAt(candles[i].close, prices[i])
  {
    hide EmaColumn, RsiColumn, AtrColumn, AdxColumn, LogReturnColumn, VolatilityColumn;
    hide Closes, Highs, Lows, Volumes, Above;
    var n := |candles|;
    CloseOf(candles);
    ColumnLengths(lib, candles);
    var closes, highs, lows, volumes := Closes(candles), Highs(candles), Lows(candles), Volumes(candles);
    var ema20 := EMA(closes, 20);
    var ema50 := EMA(closes, 50);
    var ema200 := EMA(closes, 200);
    var rsi14 := RSI(closes, 14);
    var atr14 := ATR(highs, lows, closes, 14);
    var adx14 := ADX(highs, lows, closes, 14);
    var volEma20 := EMA(volumes, 20);
    var above20 := PriceAboveEMA(closes, ema20);
    var above50 := PriceAboveEMA(closes, ema50);
    var above200 := PriceAboveEMA(closes, ema200);
    var return1 := LogReturn(lib, closes, 1);
    var return4 := LogReturn(lib, closes, 4);
    var return12 := LogReturn(lib, closes, 12);
    var volatility14 := Volatility(lib, return1, 14);
    var volatility50 := Volatility(lib, return1, 50);
    var blank := PriceFields(NaN, NaN, NaN, NaN, NaN, NaN, NaN, NaN, NaN, NaN, NaN, NaN);
    var column := new PriceFields[n](_ => blank);
    for i := 0 to n
      invariant forall j :: 0 <= j < i ==> column[j] == PricesAt(lib, candles, j)
    {
      column[i] := PriceFields(
        ema20[i], ema50[i], ema200[i], rsi14[i], atr14[i], adx14[i], volEma20[i],
        return1[i], return4[i], return12[i], volatility14[i], volatility50[i]);
    }
    prices := column[..];
    above := seq(n, i requires 0 <= i < n => AboveFields(above20[i], above50[i], above200[i]));
  }

  method ComputeFeatures(lib: MathLib, candles: seq<Candle>, flow: seq<OrderFlow.Snapshot>)
    returns (rows: seq<FeatureRow>)
    ensures |candles| < 200 ==> rows == []
    ensures |candles| >= 200 ==>
              && |rows| == |candles|
              && forall i :: 0 <= i < |candles| ==> rows[i] == RowAt(lib, candles, flow, i)
  {
    hide PricesAt, FieldsAt, AboveAt;
    var n := |candles|;
    if n < MIN_CANDLES {
      return [];
    }
    var prices, above := PriceColumns(lib, candles);
    var column := new FeatureRow[n](i requires 0 <= i < n =>
      FeatureRow(candles[i].time, prices[i], above[i], NO_FLOW));
    if |flow| == n {
      var fields := FlowColumns(lib, flow);
      for i := 0 to n
        invariant forall j :: 0 <= j < i ==> column[j] == RowAt(lib, candles, flow, j)
        invariant forall j :: i <= j < n ==> column[j] == FeatureRow(candles[j].time, prices[j], above[j], NO_FLOW)
      {
        column[i] := column[i].(flow := fields[i]);
      }
    }
    rows := column[..];
  }

  // ---- When the mandatory fields are defined ----

  /** A candle series as an exchange reports it: positive prices, no high below its low. */
  ghost predicate ValidSeries(candles: seq<Candle>) {
    forall i :: 0 <= i < |candles| ==> candles[i].close > 0.0 && candles[i].low <= candles[i].high
  }

  /** The market moves among the candles whose true range the ADX14 starts from: the first
      14 or the sixteenth. */
  ghost predicate StartsMoving(candles: seq<Candle>) {
    MovesEarly(TrueRanges(Highs(candles), Lows(candles), Closes(candles)), 14)
  }

  lemma AtrDefined(high: seq<real>, low: seq<real>, close: seq<real>, i: nat)
    requires |low| == |high| && |close| == |high| && 14 <= i < |high|
    ensures AtrColumn(high, low, close, 14)[i].Val?
  {
  }

  /** For a valid series and every row from 200 on, the mandatory fields are all defined,
      except that the ADX is undefined exactly when the series does not start moving. One row
      earlier the EMA200 never is. */
  lemma MandatoryDefinedExactly(lib: MathLib, candles: seq<Candle>, i: nat)
    requires 200 <= i < |candles| && ValidSeries(candles)
    ensures PricesAt(lib, candles, i).adx14.Val? <==> StartsMoving(candles)
    ensures forall k :: 0 <= k < 12 && k != 5 ==> PricesAt(lib, candles, i).Mandatory()[k].Val?
    ensures PricesAt(lib, candles, 199).ema200 == NaN
  {
    hide AtrColumn, AdxColumn, RsiColumn, LogReturnColumn, VolatilityColumn, EmaAt, TrueRange;
    var closes, highs, lows := Closes(candles), Highs(candles), Lows(candles);
    RsiWithin(closes, 14, i);
    AtrDefined(highs, lows, closes, i);
    AdxDefinedExactlyIfMoved(highs, lows, closes, 14, i);
    LogReturnDefinedExactly(lib, closes, 1, i);
    LogReturnDefinedExactly(lib, closes, 4, i);
    LogReturnDefinedExactly(lib, closes, 12, i);
    VolatilityDefinedExactly(lib, closes, 14, i);
    VolatilityDefinedExactly(lib, closes, 50, i);
  }

  // ---- The quality check ----

  datatype Verdict = Accepted | EmptyRows | DuplicateTimestamp(ts: int) | TooManyUndefined(count: nat)

  function CountNaN(vs: seq<Num>): nat {
    if vs == [] then 0 else CountNaN(vs[..|vs| - 1]) + if vs[|vs| - 1].NaN? then 1 else 0
  }

  function CountMandatoryNaN(rows: seq<FeatureRow>): nat {
    if rows == [] then 0
    else CountMandatoryNaN(rows[..|rows| - 1]) + CountNaN(rows[|rows| - 1].price.Mandatory())
  }

  ghost predicate DistinctTimes(rows: seq<FeatureRow>) {
    forall j, k :: 0 <= j < k < |rows| ==> rows[j].ts != rows[k].ts
  }

  method CountUndefined(vs: seq<Num>) returns (n: nat)
    ensures n == CountNaN(vs)
  {
    n := 0;
    for k := 0 to |vs|
      invariant n == CountNaN(vs[..k])
    {
      assert vs[..k + 1][..k] == vs[..k];
      if vs[k].NaN? {
        n := n + 1;
      }
    }
    assert vs[..|vs|] == vs;
  }

  /** Rows pass exactly when there are some, no two share a timestamp, and at most 5 percent
      of the mandatory values are undefined. */
  method ValidateFeatureRows(rows: seq<FeatureRow>) returns (v: Verdict)
    ensures v == Accepted <==>
              rows != [] && DistinctTimes(rows)
              && CountMandatoryNaN(rows) as real / (|rows| * 12) as real <= 0.05
    ensures v.EmptyRows? <==> rows == []
    ensures v.DuplicateTimestamp? <==> rows != [] && !DistinctTimes(rows)
    ensures v.TooManyUndefined? ==> v.count == CountMandatoryNaN(rows)
  {
    if |rows| == 0 {
      return EmptyRows;
    }
    var seen: set<int> := {};
    for k := 0 to |rows|
      invariant DistinctTimes(rows[..k])
      invariant seen == set j | 0 <= j < k :: rows[j].ts
    {
      if rows[k].ts in seen {
        return DuplicateTimestamp(rows[k].ts);
      }
      seen := seen + {rows[k].ts};
    }
    assert rows[..|rows|] == rows;
    var total := |rows| * 12;
    var undefined := 0;
    for k := 0 to |rows|
      invariant undefined == CountMandatoryNaN(rows[..k])
    {
      assert rows[..k + 1][..k] == rows[..k];
      var here := CountUndefined(rows[k].price.Mandatory());
      undefined := undefined + here;
    }
    if undefined as real / total as real > 0.05 {
      return TooManyUndefined(undefined);
    }
    return Accepted;
  }

  lemma {:induction false} NoneUndefined(vs: seq<Num>)
    requires forall j :: 0 <= j < |vs| ==> vs[j].Val?
    ensures CountNaN(vs) == 0
  {
    if vs != [] {
      NoneUndefined(vs[..|vs| - 1]);
    }
  }

  lemma {:induction false} OnlyOneUndefined(vs: seq<Num>, k: nat)
    requires k < |vs| && forall j :: 0 <= j < |vs| && j != k ==> vs[j].Val?
    ensures CountNaN(vs) == if vs[k].NaN? then 1 else 0
  {
    var n := |vs| - 1;
    if k < n {
      OnlyOneUndefined(vs[..n], k);
    } else {
      NoneUndefined(vs[..n]);
    }
  }

  /** When at most the ADX is undefined, and it is so on all rows or on none, the count is the
      number of rows or zero. */
  lemma {:induction false} AdxDecidesCount(rows: seq<FeatureRow>, defined: bool)
    requires forall j :: 0 <= j < |rows| ==> rows[j].price.adx14.Val? == defined
    requires forall j, k :: 0 <= j < |rows| && 0 <= k < 12 && k != 5 ==> rows[j].price.Mandatory()[k].Val?
    ensures CountMandatoryNaN(rows) == if defined then 0 else |rows|
  {
    if rows != [] {
      var n := |rows| - 1;
      forall j, k | 0 <= j < n && 0 <= k < 12 && k != 5
        ensures rows[..n][j].price.Mandatory()[k].Val?
      {
        assert rows[j].price.Mandatory()[k].Val?;
      }
      AdxDecidesCount(rows[..n], defined);
      OnlyOneUndefined(rows[n].price.Mandatory(), 5);
    }
  }

  /** A flat start rejects a chunk: one undefined field in twelve is more than 5 percent. */
  lemma RatioDecides(n: nat, defined: bool)
    requires n > 0
    ensures (if defined then 0 else n) as real / (n * 12) as real <= 0.05 <==> defined
  {
    var d := (n * 12) as real;
    var q := n as real / d;
    assert q * d == n as real;
    assert 0.0 / d == 0.0;
    if q <= 0.05 {
      MulMono(d, q, 0.05);
      assert false;
    }
  }
}
