/** The exponential moving average (internal/feature/ema.go), seeded with the mean of the
    values before the first defined index. */
module Ema {
  import opened Numeric
  import opened Smoothing

  function Alpha(period: int): real
    requires period >= 1
  {
    2.0 / (period + 1) as real
  }

  lemma AlphaIs(period: int)
    requires period >= 1
    ensures Alpha(period) == 2.0 / (period + 1) as real
  {
  }

  function Seed(vs: seq<real>, period: int): real
    requires 1 <= period <= |vs|
  {
    Sum(vs, period) / period as real
  }

  /** The EMA at index `i`: the seed enters as the average standing at `period - 1`. */
  function EmaAt(vs: seq<real>, period: int, i: nat): real
    requires 1 <= period <= i < |vs|
  {
    Smoothed(Alpha(period), Seed(vs, period), vs, period - 1, i)
  }

  function EmaColumn(vs: seq<real>, period: int): seq<Num> {
    if period < 1 then []
    else seq(|vs|, i requires 0 <= i < |vs| => if i < period then NaN else Val(EmaAt(vs, period, i)))
  }

  lemma EmaUnfolds(vs: seq<real>, period: int, i: nat)
    requires 1 <= period <= i < |vs|
    ensures var previous := if i == period then Seed(vs, period) else EmaAt(vs, period, i - 1);
            EmaAt(vs, period, i) == Blend(Alpha(period), vs[i], previous)
  {
    hide Blend, Alpha, Seed;
    var w, seed := Alpha(period), Seed(vs, period);
    assert Smoothed(w, seed, vs, period - 1, i) == Blend(w, vs[i], Smoothed(w, seed, vs, period - 1, i - 1));
  }

  lemma WeightedStep(d: real, w: real, x: real, y: real)
    requires w * d == 2.0
    ensures d * (w * x + (1.0 - w) * y) == 2.0 * x + (d - 2.0) * y
  {
    assert d * (w * x) == (w * d) * x;
    assert d * ((1.0 - w) * y) == d * y - (w * d) * y;
  }

  /** The recurrence without the weight: the newest value counts twice, what stood before, the
      mean of the first `period` values or the previous average, `period - 1` times. */
  lemma EmaRecurs(vs: seq<real>, period: int, i: nat)
    requires 1 <= period <= i < |vs|
    ensures var previous := if i == period then Sum(vs, period) / period as real else EmaAt(vs, period, i - 1);
            (period + 1) as real * EmaAt(vs, period, i) == 2.0 * vs[i] + (period - 1) as real * previous
  {
    hide EmaAt;
    EmaUnfolds(vs, period, i);
    var d := (period + 1) as real;
    assert Alpha(period) * d == 2.0;
    WeightedStep(d, Alpha(period), vs[i], if i == period then Seed(vs, period) else EmaAt(vs, period, i - 1));
  }

  /** The same, read off the column. */
  ghost predicate Recurs(vs: seq<real>, period: int, column: seq<Num>, i: int)
    requires 1 <= period <= i < |vs| == |column|
  {
    && column[i].Val?
    && (i > period ==> column[i - 1].Val?)
    && var previous := if i == period then Sum(vs, period) / period as real else column[i - 1].v;
       (period + 1) as real * column[i].v == 2.0 * vs[i] + (period - 1) as real * previous
  }

  lemma ColumnRecurs(vs: seq<real>, period: int, i: nat)
    requires 1 <= period <= i < |vs|
    ensures Recurs(vs, period, EmaColumn(vs, period), i)
  {
    hide EmaAt;
    EmaRecurs(vs, period, i);
  }

  lemma ColumnMeans(vs: seq<real>, period: int, column: seq<Num>)
    requires 1 <= period && column == EmaColumn(vs, period)
    ensures |column| == |vs| && forall i :: 0 <= i < |vs| ==> (column[i].Val? <==> i >= period)
    ensures forall i :: period <= i < |vs| ==> Recurs(vs, period, column, i)
  {
    hide Recurs, EmaAt;
    forall i: nat | period <= i < |vs|
      ensures Recurs(vs, period, column, i)
    {
      ColumnRecurs(vs, period, i);
    }
  }

  method EMA(vs: seq<real>, period: int) returns (result: seq<Num>)
    ensures result == EmaColumn(vs, period)
    ensures period >= 1 ==>
              && |result| == |vs|
              && forall i :: 0 <= i < |vs| ==> (result[i].Val? <==> i >= period)
    ensures period >= 1 ==> forall i :: period <= i < |vs| ==> Recurs(vs, period, result, i)
  {
    hide EmaAt, Blend, Recurs;
    if period < 1 || |vs| == 0 {
      return [];
    }
    var column := new Num[|vs|];
    var alpha := 2.0 / (period + 1) as real;
    var sum := 0.0;
    for i := 0 to |vs|
      invariant i <= period ==> sum == Sum(vs, i)
      invariant i > period ==> sum == Sum(vs, period)
      invariant forall j :: 0 <= j < i ==> column[j] == if j < period then NaN else Val(EmaAt(vs, period, j))
    {
      if i < period {
        sum := sum + vs[i];
        column[i] := NaN;
      } else {
        EmaUnfolds(vs, period, i);
        if i == period {
          var ema := sum / period as real;
          column[i] := Val(Blend(alpha, vs[i], ema));
        } else {
          column[i] := Val(Blend(alpha, vs[i], column[i - 1].v));
        }
      }
    }
    result := column[..];
    ColumnMeans(vs, period, result);
  }

  /** Whether a close stands above an average, as stored: 1 or 0, and 0 without an average. */
  function Above(close: real, ema: Num): int {
    if ema.Val? && close > ema.v then 1 else 0
  }

  method PriceAboveEMA(closes: seq<real>, ema: seq<Num>) returns (result: seq<int>)
    ensures |closes| != |ema| ==> result == []
    ensures |closes| == |ema| ==>
              && |result| == |closes|
              && forall i :: 0 <= i < |closes| ==>
                   && result[i] == Above(closes[i], ema[i])
                   && result[i] == if ema[i].Val? && closes[i] > ema[i].v then 1 else 0
  {
    if |closes| != |ema| {
      return [];
    }
    var column := new int[|closes|];
    for i := 0 to |closes|
      invariant forall j :: 0 <= j < i ==> column[j] == Above(closes[j], ema[j])
    {
      if ema[i].NaN? {
        column[i] := 0;
      } else if closes[i] > ema[i].v {
        column[i] := 1;
      } else {
        column[i] := 0;
      }
    }
    result := column[..];
  }

  lemma AlphaInUnit(period: int)
    requires period >= 1
    ensures 0.0 < Alpha(period) <= 1.0
  {
    var d := (period + 1) as real;
    var a := Alpha(period);
    assert a * d == 2.0;
    DivWithin(2.0, d, 0.0, 1.0);
    if a == 0.0 {
      assert false;
    }
  }

  /** Every defined EMA lies among the values read so far. */
  lemma EmaWithin(vs: seq<real>, period: int, i: nat, lo: real, hi: real)
    requires 1 <= period <= i < |vs|
    requires forall j :: 0 <= j <= i ==> lo <= vs[j] <= hi
    ensures lo <= EmaAt(vs, period, i) <= hi
  {
    AlphaInUnit(period);
    MeanWithin(vs, period, lo, hi);
    SmoothedWithin(Alpha(period), Seed(vs, period), vs, period - 1, i, lo, hi);
  }

  lemma ChunkedSeeds(vs: seq<real>, s: nat, e: nat, period: int, i: nat)
    requires 1 <= s && s + i < e <= |vs| && 1 <= period <= i
    ensures EmaAt(vs, period, s + i) - EmaAt(vs[s..e], period, i)
            == Pow(1.0 - Alpha(period), i - period + 1)
               * (EmaAt(vs, period, s + period - 1) - Seed(vs[s..e], period))
  {
    hide Seed, Alpha, Pow, Smoothed;
    assert forall k :: period <= k <= i ==> vs[s..e][k] == vs[s + k];
    SmoothedForgets(
      Alpha(period), Seed(vs, period), vs, period - 1, s,
      Seed(vs[s..e], period), vs[s..e], period - 1, i);
  }

  lemma SeedWithin(vs: seq<real>, period: int, lo: real, hi: real)
    requires 1 <= period <= |vs|
    requires forall j :: 0 <= j < period ==> lo <= vs[j] <= hi
    ensures lo <= Seed(vs, period) <= hi
  {
    MeanWithin(vs, period, lo, hi);
  }

  lemma ChunkedGap(vs: seq<real>, s: nat, e: nat, period: int, i: nat, lo: real, hi: real)
    requires 1 <= s && s + i < e <= |vs| && 1 <= period <= i
    requires forall j :: 0 <= j < s + period ==> lo <= vs[j] <= hi
    ensures Abs(EmaAt(vs, period, s + i) - EmaAt(vs[s..e], period, i))
            <= Pow(1.0 - Alpha(period), i - period + 1) * (hi - lo)
  {
    hide EmaAt, Seed, Alpha, Pow;
    var chunk := vs[s..e];
    ChunkedSeeds(vs, s, e, period, i);
    EmaWithin(vs, period, s + period - 1, lo, hi);
    SeedWithin(chunk, period, lo, hi);
    AlphaInUnit(period);
    PowWithinUnit(1.0 - Alpha(period), i - period + 1);
    AbsScaled(EmaAt(vs, period, s + i) - EmaAt(chunk, period, i),
              Pow(1.0 - Alpha(period), i - period + 1),
              EmaAt(vs, period, s + period - 1) - Seed(chunk, period), hi - lo);
  }

  lemma Unfolded(vs: seq<real>, period: int, i: nat)
    requires 1 <= period <= i < |vs|
    ensures EmaColumn(vs, period)[i] == Val(EmaAt(vs, period, i))
    ensures Seed(vs, period) == Sum(vs, period) / period as real
    ensures Alpha(period) == 2.0 / (period + 1) as real
  {
    hide EmaAt;
  }

  /** Restarting the EMA at a later value `s` is off by exactly the error of the new seed,
      shrunk by 1 - 2/(period + 1) with every value since. */
  lemma ChunkedEmaError(vs: seq<real>, s: nat, e: nat, period: int, i: nat)
    requires 1 <= s && s + i < e <= |vs| && 1 <= period <= i
    ensures var one, part := EmaColumn(vs, period), EmaColumn(vs[s..e], period);
            && one[s + i].Val? && part[i].Val?
            && one[s + i].v - part[i].v
               == Pow(1.0 - 2.0 / (period + 1) as real, i - period + 1)
                  * (EmaAt(vs, period, s + period - 1) - Sum(vs[s..e], period) / period as real)
  {
    hide EmaAt, EmaColumn, Seed, Alpha, Pow;
    ChunkedSeeds(vs, s, e, period, i);
    Unfolded(vs, period, s + i);
    Unfolded(vs[s..e], period, i);
  }

  /** So a chunked EMA is within (1 - 2/(period + 1))^(i - period + 1) times the spread of the
      values so far of the one-pass EMA, for every start `s >= 1` and defined chunk index. */
  lemma ChunkedEmaBound(vs: seq<real>, s: nat, e: nat, period: int, i: nat, lo: real, hi: real)
    requires 1 <= s && s + i < e <= |vs| && 1 <= period <= i
    requires forall j :: 0 <= j < s + period ==> lo <= vs[j] <= hi
    ensures var one, part := EmaColumn(vs, period), EmaColumn(vs[s..e], period);
            var bound := Pow(1.0 - 2.0 / (period + 1) as real, i - period + 1) * (hi - lo);
            && one[s + i].Val? && part[i].Val?
            && -bound <= one[s + i].v - part[i].v <= bound
  {
    hide EmaAt, EmaColumn, Seed, Alpha, Pow;
    ChunkedGap(vs, s, e, period, i, lo, hi);
    Unfolded(vs, period, s + i);
    Unfolded(vs[s..e], period, i);
  }
}
