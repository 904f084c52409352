/** Forward-return labels (internal/label/label.go). */
module Labels {
  import opened Numeric
  import opened MarketData

  datatype LabelRow = LabelRow(
    ts: int, return4: Num, return12: Num, return24: Num, success4: bool, success12: bool, success24: bool)

  const DEFAULT_THRESHOLD := 0.25

  /** Percentage return; a zero starting close has none. */
  function FutureReturn(now: real, later: real): Num {
    if now == 0.0 then NaN else Val((later - now) / now * 100.0)
  }

  /** From a zero close, any rise is an infinite return and beats every threshold. */
  predicate Succeeds(now: real, later: real, threshold: real) {
    if now == 0.0 then later > 0.0 else (later - now) / now * 100.0 > threshold
  }

  /** From a positive close, success means the later close exceeds it by more than the
      threshold, in percent. */
  lemma SuccessIsARise(now: real, later: real, threshold: real)
    requires now > 0.0
    ensures Succeeds(now, later, threshold) <==> later > now + now * threshold / 100.0
  {
    var q := (later - now) / now;
    assert q * now == later - now;
    var t := threshold / 100.0;
    MulStrict(now, q, t);
    assert t * now == now * threshold / 100.0;
  }

  /** The label of candle `i` at horizon `h`, by position in the list: absent (zero, no
      success) unless `h` was asked for and the list reaches `h` candles further. */
  function ReturnAt(candles: seq<Candle>, horizons: seq<nat>, i: nat, h: nat): Num
    requires i < |candles|
  {
    if h in horizons && i + h < |candles| then FutureReturn(candles[i].close, candles[i + h].close) else Val(0.0)
  }

  predicate SuccessAt(candles: seq<Candle>, horizons: seq<nat>, threshold: real, i: nat, h: nat)
    requires i < |candles|
  {
    h in horizons && i + h < |candles| && Succeeds(candles[i].close, candles[i + h].close, threshold)
  }

  function LabelAt(candles: seq<Candle>, horizons: seq<nat>, threshold: real, i: nat): LabelRow
    requires i < |candles|
  {
    LabelRow(
      candles[i].time,
      ReturnAt(candles, horizons, i, 4), ReturnAt(candles, horizons, i, 12), ReturnAt(candles, horizons, i, 24),
      SuccessAt(candles, horizons, threshold, i, 4), SuccessAt(candles, horizons, threshold, i, 12),
      SuccessAt(candles, horizons, threshold, i, 24))
  }

  function LabelRows(candles: seq<Candle>, horizons: seq<nat>, threshold: real): (rows: seq<LabelRow>)
    ensures |rows| == |candles|
  {
    var limit := if threshold <= 0.0 then DEFAULT_THRESHOLD else threshold;
    seq(|candles|, i requires 0 <= i < |candles| => LabelAt(candles, horizons, limit, i))
  }

  /** A label by position: a percentage of the candle's close and whether it beats the limit; and
      nothing unless the horizon was asked for and the list reaches that far. A zero close has no
      return, and any rise from it is a success. */
  ghost predicate Labelled(
      candles: seq<Candle>, horizons: seq<nat>, limit: real, i: nat, h: nat, ret: Num, success: bool)
    requires i < |candles|
  {
    if h in horizons && i + h < |candles| then
      var now, later := candles[i].close, candles[i + h].close;
      && (ret.Val? <==> now != 0.0)
      && (ret.Val? ==> ret.v * now == 100.0 * (later - now))
      && (now > 0.0 ==> (success <==> 100.0 * (later - now) > limit * now))
      && (now < 0.0 ==> (success <==> 100.0 * (later - now) < limit * now))
      && (now == 0.0 ==> (success <==> later > 0.0))
    else ret == Val(0.0) && !success
  }

  /** A row carries the labels of its candle at 4, 12 and 24 candles further. */
  ghost predicate RowLabelled(candles: seq<Candle>, horizons: seq<nat>, limit: real, i: nat, row: LabelRow)
    requires i < |candles|
  {
    && row.ts == candles[i].time
    && Labelled(candles, horizons, limit, i, 4, row.return4, row.success4)
    && Labelled(candles, horizons, limit, i, 12, row.return12, row.success12)
    && Labelled(candles, horizons, limit, i, 24, row.return24, row.success24)
  }

  lemma ReturnMeans(now: real, later: real, limit: real)
    ensures FutureReturn(now, later).Val? <==> now != 0.0
    ensures now != 0.0 ==> FutureReturn(now, later).v * now == 100.0 * (later - now)
    ensures now > 0.0 ==> (Succeeds(now, later, limit) <==> 100.0 * (later - now) > limit * now)
    ensures now < 0.0 ==> (Succeeds(now, later, limit) <==> 100.0 * (later - now) < limit * now)
    ensures now == 0.0 ==> (Succeeds(now, later, limit) <==> later > 0.0)
  {
    if now != 0.0 {
      var q := (later - now) / now;
      assert q * now == later - now;
      var r := q * 100.0;
      assert r * now == 100.0 * (q * now);
      if now > 0.0 {
        MulStrict(now, r, limit);
      } else {
        MulStrict(-now, r, limit);
        assert r * -now == -(r * now) && limit * -now == -(limit * now);
      }
    }
  }

  lemma LabelMeans(candles: seq<Candle>, horizons: seq<nat>, limit: real, i: nat, h: nat)
    requires i < |candles|
    ensures Labelled(candles, horizons, limit, i, h,
                     ReturnAt(candles, horizons, i, h), SuccessAt(candles, horizons, limit, i, h))
  {
    if h in horizons && i + h < |candles| {
      ReturnMeans(candles[i].close, candles[i + h].close, limit);
      hide FutureReturn, Succeeds;
    }
  }

  lemma RowMeans(candles: seq<Candle>, horizons: seq<nat>, limit: real, i: nat)
    requires i < |candles|
    ensures RowLabelled(candles, horizons, limit, i, LabelAt(candles, horizons, limit, i))
  {
    hide Labelled, ReturnAt, SuccessAt;
    LabelMeans(candles, horizons, limit, i, 4);
    LabelMeans(candles, horizons, limit, i, 12);
    LabelMeans(candles, horizons, limit, i, 24);
  }

  lemma NoReturn(candles: seq<Candle>, horizons: seq<nat>, threshold: real, i: nat, h: nat)
    requires i < |candles| <= i + h
    ensures ReturnAt(candles, horizons, i, h) == Val(0.0) && !SuccessAt(candles, horizons, threshold, i, h)
  {
  }

  /** A row closer to the end than a horizon has a return of zero there, not an undefined one. */
  lemma TailIsZero(candles: seq<Candle>, horizons: seq<nat>, threshold: real, i: nat)
    requires i < |candles| <= i + 4
    ensures var row := LabelRows(candles, horizons, threshold)[i];
            && row.return4 == row.return12 == row.return24 == Val(0.0)
            && !row.success4 && !row.success12 && !row.success24
  {
    hide FutureReturn, Succeeds;
    var limit := if threshold <= 0.0 then DEFAULT_THRESHOLD else threshold;
    assert LabelRows(candles, horizons, threshold)[i] == LabelAt(candles, horizons, limit, i);
    NoReturn(candles, horizons, limit, i, 4);
    NoReturn(candles, horizons, limit, i, 12);
    NoReturn(candles, horizons, limit, i, 24);
  }

  method ComputeLabels(candles: seq<Candle>, horizons: seq<nat>, threshold: real) returns (result: seq<LabelRow>)
    ensures result == LabelRows(candles, horizons, threshold)
    ensures |result| == |candles|
    ensures forall i :: 0 <= i < |candles| ==>
              RowLabelled(candles, horizons, if threshold <= 0.0 then 0.25 else threshold, i, result[i])
  {
    hide FutureReturn, Succeeds, RowLabelled;
    if |candles| == 0 {
      return [];
    }
    var limit := if threshold <= 0.0 then DEFAULT_THRESHOLD else threshold;
    var n := |candles|;
    var rows := new LabelRow[n](_ => LabelRow(0, NaN, NaN, NaN, false, false, false));
    for i := 0 to n
      invariant forall j :: 0 <= j < i ==> rows[j] == LabelAt(candles, horizons, limit, j)
    {
      rows[i] := LabelRow(candles[i].time, Val(0.0), Val(0.0), Val(0.0), false, false, false);
      for k := 0 to |horizons|
        invariant forall j :: 0 <= j < i ==> rows[j] == LabelAt(candles, horizons, limit, j)
        invariant rows[i] == LabelAt(candles, horizons[..k], limit, i)
      {
        var h := horizons[k];
        assert horizons[..k + 1] == horizons[..k] + [h];
        if i + h < n {
          var now, later := candles[i].close, candles[i + h].close;
          var ret, success := FutureReturn(now, later), Succeeds(now, later, limit);
          match h {
            case 4 => rows[i] := rows[i].(return4 := ret, success4 := success);
            case 12 => rows[i] := rows[i].(return12 := ret, success12 := success);
            case 24 => rows[i] := rows[i].(return24 := ret, success24 := success);
            case _ =>
          }
        }
      }
      assert horizons[..|horizons|] == horizons;
    }
    result := rows[..];
    forall i: nat | i < n
      ensures RowLabelled(candles, horizons, limit, i, result[i])
    {
      RowMeans(candles, horizons, limit, i);
    }
  }
}
