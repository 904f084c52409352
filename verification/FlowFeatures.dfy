/** The order flow columns of a feature row (internal/feature/orderflow.go, and the second
    half of ComputeFeatures in internal/feature/feature.go). */
module FlowFeatures {
  import opened Numeric
  import opened Market
  import OrderFlow

  datatype FlowFields = FlowFields(
    oiDelta1: Num, oiDelta4: Num, oiDelta12: Num, oiZ30: Num, fundingRate: Num, fundingZ30: Num,
    lsRaw: Num, lsNormalized: Num, liqLong: Num, liqShort: Num, liqImbalance: Num)

  /** Without one snapshot per candle, every field keeps its zero value. */
  const NO_FLOW := FlowFields(
    Val(0.0), Val(0.0), Val(0.0), Val(0.0), Val(0.0), Val(0.0), Val(0.0), Val(0.0), Val(0.0), Val(0.0), Val(0.0))

  function OpenInterests(flow: seq<OrderFlow.Snapshot>): (r: seq<real>)
    ensures |r| == |flow|
  {
    seq(|flow|, i requires 0 <= i < |flow| => flow[i].oi)
  }

  function FundingRates(flow: seq<OrderFlow.Snapshot>): (r: seq<real>)
    ensures |r| == |flow|
  {
    seq(|flow|, i requires 0 <= i < |flow| => flow[i].fundingRate)
  }

  function BuyRatios(flow: seq<OrderFlow.Snapshot>): (r: seq<real>)
    ensures |r| == |flow|
  {
    seq(|flow|, i requires 0 <= i < |flow| => flow[i].buyRatio)
  }

  function SellRatios(flow: seq<OrderFlow.Snapshot>): (r: seq<real>)
    ensures |r| == |flow|
  {
    seq(|flow|, i requires 0 <= i < |flow| => flow[i].sellRatio)
  }

  function Nums(vs: seq<real>): (r: seq<Num>)
    ensures |r| == |vs|
  {
    seq(|vs|, i requires 0 <= i < |vs| => Val(vs[i]))
  }

  predicate SomeNonZero(vs: seq<real>) {
    exists i :: 0 <= i < |vs| && vs[i] != 0.0
  }

  method HasNonZero(vs: seq<real>) returns (found: bool)
    ensures found <==> SomeNonZero(vs)
  {
    for i := 0 to |vs|
      invariant forall j :: 0 <= j < i ==> vs[j] == 0.0
    {
      if vs[i] != 0.0 {
        return true;
      }
    }
    return false;
  }

  // ---- Columns ----

  function DeltaColumn(oi: seq<real>, periods: int): (r: seq<Num>)
    ensures |r| == |oi|
  {
    seq(|oi|, i requires 0 <= i < |oi| =>
      if periods < 1 || i < periods || oi[i - periods] == 0.0 then NaN
      else Val((oi[i] - oi[i - periods]) / oi[i - periods] * 100.0))
  }

  method OIDeltaPct(oi: seq<real>, periods: int) returns (result: seq<Num>)
    ensures result == DeltaColumn(oi, periods)
    ensures |result| == |oi|
    ensures forall i :: 0 <= i < |oi| ==> (result[i].Val? <==> 1 <= periods <= i && oi[i - periods] != 0.0)
  {
    var column := new Num[|oi|](_ => NaN);
    if periods < 1 || |oi| == 0 {
      return column[..];
    }
    for i := 0 to |oi|
      invariant forall j :: 0 <= j < i ==> column[j] == DeltaColumn(oi, periods)[j]
      invariant forall j :: i <= j < |oi| ==> column[j] == NaN
    {
      if i >= periods {
        var prev := oi[i - periods];
        if prev != 0.0 {
          column[i] := Val((oi[i] - prev) / prev * 100.0);
        }
      }
    }
    result := column[..];
  }

  /** (a - b) / (a + b), and zero when the sum is zero. */
  function Imbalance(a: real, b: real): real {
    if a + b == 0.0 then 0.0 else (a - b) / (a + b)
  }

  method NormalizedImbalance(a: seq<real>, b: seq<real>) returns (result: seq<Num>)
    ensures |result| == |a|
    ensures |a| == |b| ==> forall i :: 0 <= i < |a| ==> result[i] == Val(Imbalance(a[i], b[i]))
    ensures |a| != |b| ==> forall i :: 0 <= i < |a| ==> result[i] == NaN
  {
    var column := new Num[|a|](_ => NaN);
    if |a| != |b| {
      return column[..];
    }
    for i := 0 to |a|
      invariant forall j :: 0 <= j < i ==> column[j] == Val(Imbalance(a[j], b[j]))
    {
      var denom := a[i] + b[i];
      column[i] := if denom == 0.0 then Val(0.0) else Val((a[i] - b[i]) / denom);
    }
    result := column[..];
  }

  /** Of two amounts the imbalance lies in [-1, 1], changes its sign with their order, and is
      an end of the range exactly when one side is empty. */
  lemma ImbalanceWithin(a: real, b: real)
    requires a >= 0.0 && b >= 0.0
    ensures -1.0 <= Imbalance(a, b) <= 1.0 && Imbalance(b, a) == -Imbalance(a, b)
    ensures Imbalance(a, b) == 1.0 <==> a > 0.0 && b == 0.0
  {
    if a + b != 0.0 {
      var q := (a - b) / (a + b);
      assert q * (a + b) == a - b;
      assert ((b - a) / (a + b)) * (a + b) == b - a;
      DivWithin(a - b, a + b, -1.0, 1.0);
      MulStrict(a + b, (b - a) / (a + b), -q);
      MulStrict(a + b, -q, (b - a) / (a + b));
      assert (-q) * (a + b) == -(q * (a + b));
    }
  }

  function Ratio(buy: real, sell: real): Num {
    Over(Val(buy), Val(sell))
  }

  method LSRatioRaw(buy: seq<real>, sell: seq<real>) returns (result: seq<Num>)
    ensures |result| == |buy|
    ensures |buy| == |sell| ==> forall i :: 0 <= i < |buy| ==> result[i] == Ratio(buy[i], sell[i])
    ensures |buy| != |sell| ==> forall i :: 0 <= i < |buy| ==> result[i] == NaN
  {
    var column := new Num[|buy|](_ => NaN);
    if |buy| != |sell| {
      return column[..];
    }
    for i := 0 to |buy|
      invariant forall j :: 0 <= j < i ==> column[j] == Ratio(buy[j], sell[j])
      invariant forall j :: i <= j < |buy| ==> column[j] == NaN
    {
      if sell[i] != 0.0 {
        column[i] := Val(buy[i] / sell[i]);
      }
    }
    result := column[..];
  }

  // ---- The fields of a row ----

  /** Open interest is used only if some snapshot of the load has any. */
  predicate HasOI(flow: seq<OrderFlow.Snapshot>) {
    SomeNonZero(OpenInterests(flow))
  }

  predicate HasLS(flow: seq<OrderFlow.Snapshot>) {
    SomeNonZero(BuyRatios(flow)) && SomeNonZero(SellRatios(flow))
  }

  function FieldsAt(lib: MathLib, flow: seq<OrderFlow.Snapshot>, i: nat): FlowFields
    requires i < |flow|
  {
    var s, oi := flow[i], OpenInterests(flow);
    var withOI, withLS := HasOI(flow), HasLS(flow);
    FlowFields(
      if withOI then DeltaColumn(oi, 1)[i] else Val(0.0),
      if withOI then DeltaColumn(oi, 4)[i] else Val(0.0),
      if withOI then DeltaColumn(oi, 12)[i] else Val(0.0),
      if withOI then ZScoreColumn(lib, Nums(oi), 30)[i] else Val(0.0),
      Val(s.fundingRate), ZScoreColumn(lib, Nums(FundingRates(flow)), 30)[i],
      if withLS then Ratio(s.buyRatio, s.sellRatio) else Val(0.0),
      if withLS then Val(Imbalance(s.buyRatio, s.sellRatio)) else Val(0.0),
      Val(s.liqLong), Val(s.liqShort), Val(Imbalance(s.liqLong, s.liqShort)))
  }

  lemma ZScoreLength(lib: MathLib, vs: seq<Num>)
    ensures |ZScoreColumn(lib, vs, 30)| == |vs|
  {
  }

  /** The four open interest columns, or none. */
  method OpenInterestColumns(lib: MathLib, flow: seq<OrderFlow.Snapshot>)
    returns (has: bool, delta1: seq<Num>, delta4: seq<Num>, delta12: seq<Num>, z30: seq<Num>)
    ensures has <==> HasOI(flow)
    ensures has ==>
              && delta1 == DeltaColumn(OpenInterests(flow), 1) && delta4 == DeltaColumn(OpenInterests(flow), 4)
              && delta12 == DeltaColumn(OpenInterests(flow), 12)
              && z30 == ZScoreColumn(lib, Nums(OpenInterests(flow)), 30)
  {
    hide DeltaColumn, ZScoreColumn, SomeNonZero;
    var oi := OpenInterests(flow);
    delta1, delta4, delta12, z30 := [], [], [], [];
    has := HasNonZero(oi);
    if has {
      delta1 := OIDeltaPct(oi, 1);
      delta4 := OIDeltaPct(oi, 4);
      delta12 := OIDeltaPct(oi, 12);
      z30 := ZScore(lib, Nums(oi), 30);
    }
  }

  method RatioColumns(flow: seq<OrderFlow.Snapshot>) returns (has: bool, raw: seq<Num>, normalized: seq<Num>)
    ensures has <==> HasLS(flow)
    ensures has ==> |raw| == |normalized| == |flow|
    ensures has ==> forall i :: 0 <= i < |flow| ==>
              && raw[i] == Ratio(flow[i].buyRatio, flow[i].sellRatio)
              && normalized[i] == Val(Imbalance(flow[i].buyRatio, flow[i].sellRatio))
  {
    hide Ratio, Imbalance, SomeNonZero;
    var buy, sell := BuyRatios(flow), SellRatios(flow);
    raw, normalized := [], [];
    var hasBuy := HasNonZero(buy);
    var hasSell := HasNonZero(sell);
    has := hasBuy && hasSell;
    if has {
      raw := LSRatioRaw(buy, sell);
      normalized := NormalizedImbalance(buy, sell);
    }
  }

  method FlowColumns(lib: MathLib, flow: seq<OrderFlow.Snapshot>) returns (fields: seq<FlowFields>)
    ensures |fields| == |flow|
    ensures forall i :: 0 <= i < |flow| ==> fields[i] == FieldsAt(lib, flow, i)
  {
    hide DeltaColumn, ZScoreColumn, Ratio, Imbalance, HasOI, HasLS, OpenInterests, FundingRates;
    var n := |flow|;
    var hasOI, delta1, delta4, delta12, oiZ30 := OpenInterestColumns(lib, flow);
    var hasLS, lsRaw, lsNormalized := RatioColumns(flow);
    var fundingZ30 := ZScore(lib, Nums(FundingRates(flow)), 30);
    var liqLong := seq(n, i requires 0 <= i < n => flow[i].liqLong);
    var liqShort := seq(n, i requires 0 <= i < n => flow[i].liqShort);
    var liqImbalance := NormalizedImbalance(liqLong, liqShort);
    ZScoreLength(lib, Nums(OpenInterests(flow)));
    ZScoreLength(lib, Nums(FundingRates(flow)));
    var column := new FlowFields[n](_ => NO_FLOW);
    for i := 0 to n
      invariant forall j :: 0 <= j < i ==> column[j] == FieldsAt(lib, flow, j)
    {
      column[i] := FlowFields(
        if hasOI then delta1[i] else Val(0.0), if hasOI then delta4[i] else Val(0.0),
        if hasOI then delta12[i] else Val(0.0), if hasOI then oiZ30[i] else Val(0.0),
        Val(flow[i].fundingRate), fundingZ30[i],
        if hasLS then lsRaw[i] else Val(0.0), if hasLS then lsNormalized[i] else Val(0.0),
        Val(liqLong[i]), Val(liqShort[i]), liqImbalance[i]);
    }
    fields := column[..];
  }
}
