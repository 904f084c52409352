/** Where the money of a backtest goes: conservation of PnL and fees, and what each
    entry of the equity curve is worth in terms of the finished trades. */
module BacktestLedger {
  import opened Numeric
  import opened TradeGate
  import opened BacktestTypes
  import opened BacktestMetrics
  import opened BacktestEngine
  import opened BacktestSafety

  function FeeSum(cfg: Config, trades: seq<Trade>): real {
    if trades == [] then 0.0
    else
      var t := trades[|trades| - 1];
      FeeSum(cfg, trades[..|trades| - 1]) + Fee(cfg, t.position, t.exitPrice)
  }

  /** Every trade's PnL is its price move on its size, less its fee. */
  ghost predicate Priced(cfg: Config, trades: seq<Trade>) {
    forall t :: t in trades ==> t.pnl == NetPnl(cfg, t.position, t.exitPrice)
  }

  ghost predicate Balanced(cfg: Config, s: BarState) {
    && s.cumulativePnL == PnlSum(s.trades)
    && s.totalFees == FeeSum(cfg, s.trades)
    && s.barsInMarket == HoldingSum(s.trades)
    && Priced(cfg, s.trades)
  }

  lemma BookedKeepsBalance(cfg: Config, s: BarState, t: Trade, g: GateVal)
    requires Balanced(cfg, s) && t.pnl == NetPnl(cfg, t.position, t.exitPrice)
    ensures Balanced(cfg, Booked(cfg, s, t, g))
  {
    hide NetPnl, Fee;
    var longer := s.trades + [t];
    assert longer[..|s.trades|] == s.trades;
  }

  lemma StepBalances(cfg: Config, d: Data, s: BarState, i: nat)
    requires WellFormed(d) && i < |d.candles|
    requires Balanced(cfg, s) && s.gate.dayPnl == s.cumulativePnL
    ensures Balanced(cfg, Step(cfg, d, s, i))
    ensures Step(cfg, d, s, i).gate.dayPnl == Step(cfg, d, s, i).cumulativePnL
  {
    hide EvaluateGate, GateOutput, Dir, ScheduledEntry, ExitOf, NetPnl, Fee, EquityNow, Breaches, Priced;
    hide PnlSum, HoldingSum, FeeSum;
    if !Filtered(cfg, d, s, i) {
      var s2 := AfterFill(d, AfterSignal(cfg, d, s, i), i);
      assert Balanced(cfg, s2);
      if s2.position.Some? {
        var p := s2.position.value.(holdingBars := i - s2.position.value.entryBar + 1);
        var exit := ExitOf(cfg, p, d.candles[i]);
        if exit.Some? {
          var t := ClosedTrade(cfg, p, i, d.candles[i].time, exit.value.0, exit.value.1);
          BookedKeepsBalance(cfg, s2, t, Told(cfg, s2.gate, t));
        }
      }
    }
  }

  /** Before every bar the realised PnL is the sum over the closed trades, and the gate
      has been told exactly that; the fees paid are the sum of the trades' fees. */
  lemma {:induction false} EveryBarBalances(cfg: Config, d: Data, i: nat)
    requires WellFormed(d) && cfg.warmupBars <= i <= |d.candles|
    ensures Balanced(cfg, StateAt(cfg, d, i))
    ensures StateAt(cfg, d, i).gate.dayPnl == PnlSum(StateAt(cfg, d, i).trades)
  {
    hide Step;
    if i > cfg.warmupBars {
      EveryBarBalances(cfg, d, i - 1);
      StepBalances(cfg, d, StateAt(cfg, d, i - 1), i - 1);
    }
  }

  /** The summary conserves money: its net PnL and fees are the sums over its trades. */
  lemma RunConservesMoney(cfg: Config, d: Data)
    requires Runnable(cfg, d)
    ensures var s := FinalState(cfg, d);
            && Balanced(cfg, s)
            && (s.trades != [] ==> SummaryOf(cfg, d).metrics.netPnL == s.cumulativePnL)
            && SummaryOf(cfg, d).metrics.totalFeesPaid == FeeSum(cfg, s.trades)
  {
    hide StateAt, NetPnl, Fee, ExitPriceFor, WorstDrawdown, Winners;
    var s := StateAt(cfg, d, |d.candles|);
    EveryBarBalances(cfg, d, |d.candles|);
    if s.position.Some? {
      var t := FinalState(cfg, d).trades[|s.trades|];
      BookedKeepsBalance(cfg, s, t, s.gate);
    }
  }

  // ---- The equity curve ----

  /** The bars of [warm-up, i) that put an entry on the curve. */
  function RecordedBars(cfg: Config, d: Data, i: nat): seq<int>
    requires WellFormed(d) && cfg.warmupBars <= i <= |d.candles|
  {
    if i == cfg.warmupBars then []
    else
      RecordedBars(cfg, d, i - 1)
      + if Filtered(cfg, d, StateAt(cfg, d, i - 1), i - 1) then [] else [i - 1]
  }

  /** What a trade is worth at the end of bar `b`: nothing before its entry, its realised
      PnL once closed, and its unrealised PnL in between. A trade closed because the data
      ended stays marked to market. */
  function Worth(t: Trade, b: int, close: real): Num {
    if b < t.EntryBar() then Val(0.0)
    else if b < t.exitBar || t.exitReason == EndOfData then MarkToMarket(t.position, close)
    else Val(t.pnl)
  }

  function WorthAll(trades: seq<Trade>, b: int, close: real): Num {
    if trades == [] then Val(0.0)
    else Plus(WorthAll(trades[..|trades| - 1], b, close), Worth(trades[|trades| - 1], b, close))
  }

  /** The same, counting the open position of an unfinished run. */
  function WorthSoFar(s: BarState, b: int, close: real): Num {
    Plus(WorthAll(s.trades, b, close),
         if s.position.Some? && s.position.value.entryBar <= b then MarkToMarket(s.position.value, close)
         else Val(0.0))
  }

  ghost predicate CurveExact(cfg: Config, d: Data, s: BarState, bars: seq<int>)
    requires WellFormed(d)
  {
    && |s.curve| == |bars|
    && forall j :: 0 <= j < |bars| ==>
         && 0 <= bars[j] < |d.candles|
         && s.curve[j] == Plus(Val(cfg.initialCapital), WorthSoFar(s, bars[j], d.candles[bars[j]].close))
  }

  lemma {:induction false} ClosedTradesAreWorthTheirPnl(trades: seq<Trade>, b: int, close: real)
    requires forall t :: t in trades ==> t.EntryBar() <= t.exitBar <= b && t.exitReason != EndOfData
    ensures WorthAll(trades, b, close) == Val(PnlSum(trades))
  {
    hide MarkToMarket;
    if trades != [] {
      var k := |trades| - 1;
      forall t | t in trades[..k]
        ensures t in trades
      {
      }
      ClosedTradesAreWorthTheirPnl(trades[..k], b, close);
      assert trades[k] in trades;
    }
  }

  /** No trade is closed for lack of data while the loop runs. */
  ghost predicate ClosedBefore(trades: seq<Trade>, i: int) {
    forall t :: t in trades ==> t.EntryBar() <= t.exitBar < i && t.exitReason != EndOfData
  }

  lemma MarkIgnoresAge(p: Position, holdingBars: int, close: real)
    ensures MarkToMarket(p.(holdingBars := holdingBars), close) == MarkToMarket(p, close)
  {
  }

  lemma WorthAppend(trades: seq<Trade>, t: Trade, b: int, close: real)
    ensures WorthAll(trades + [t], b, close) == Plus(WorthAll(trades, b, close), Worth(t, b, close))
  {
    assert (trades + [t])[..|trades|] == trades;
  }

  lemma PlusZero(a: Num)
    ensures Plus(a, Val(0.0)) == a
  {
  }

  /** Closing, opening or ageing a position at bar `i` leaves the worth of earlier bars alone. */
  lemma ExitKeepsPastWorth(cfg: Config, d: Data, s: BarState, i: nat, b: int, close: real)
    requires i < |d.candles| && b < i
    ensures WorthSoFar(AfterExit(cfg, d, s, i), b, close) == WorthSoFar(s, b, close)
  {
    hide ExitPriceFor, StopTouched, NetPnl, MarkToMarket, Fee, Told, WorthAll;
    if s.position.Some? {
      var p := s.position.value.(holdingBars := i - s.position.value.entryBar + 1);
      var exit := ExitOf(cfg, p, d.candles[i]);
      MarkIgnoresAge(s.position.value, p.holdingBars, close);
      if exit.Some? {
        var t := ClosedTrade(cfg, p, i, d.candles[i].time, exit.value.0, exit.value.1);
        WorthAppend(s.trades, t, b, close);
        PlusZero(WorthAll(s.trades + [t], b, close));
      }
    }
  }

  lemma FillKeepsPastWorth(d: Data, s: BarState, i: nat, b: int, close: real)
    requires i < |d.candles| && b < i
    ensures WorthSoFar(AfterFill(d, s, i), b, close) == WorthSoFar(s, b, close)
  {
    hide MarkToMarket, WorthAll;
  }

  lemma ExitKeepsClosedBefore(cfg: Config, d: Data, s: BarState, i: nat)
    requires i < |d.candles| && ClosedBefore(s.trades, i)
    requires s.position.Some? ==> s.position.value.entryBar <= i
    ensures ClosedBefore(AfterExit(cfg, d, s, i).trades, i + 1)
  {
    hide ExitPriceFor, StopTouched, NetPnl, Fee, Told;
  }

  /** The entry appended at bar `i` is the worth at bar `i`. */
  lemma NewEntryIsExact(cfg: Config, s: BarState, i: nat, close: real)
    requires s.cumulativePnL == PnlSum(s.trades) && ClosedBefore(s.trades, i + 1)
    requires s.position.Some? ==> s.position.value.entryBar <= i
    ensures EquityNow(cfg, s, close) == Plus(Val(cfg.initialCapital), WorthSoFar(s, i, close))
  {
    hide MarkToMarket, WorthAll, PnlSum;
    ClosedTradesAreWorthTheirPnl(s.trades, i, close);
    PlusZero(Val(s.cumulativePnL));
  }

  lemma StepKeepsCurve(cfg: Config, d: Data, s: BarState, i: nat, bars: seq<int>)
    requires WellFormed(d) && cfg.warmupBars <= i < |d.candles|
    requires Safe(cfg, |d.candles|, s, i) && ClosedBefore(s.trades, i)
    requires Balanced(cfg, Step(cfg, d, s, i))
    requires forall j :: 0 <= j < |bars| ==> bars[j] < i
    requires CurveExact(cfg, d, s, bars)
    ensures ClosedBefore(Step(cfg, d, s, i).trades, i + 1)
    ensures CurveExact(cfg, d, Step(cfg, d, s, i), bars + if Filtered(cfg, d, s, i) then [] else [i])
  {
    hide EvaluateGate, GateOutput, Dir, ScheduledEntry, ExitOf, ClosedTrade, Fee, Told, Spaced, GateInv;
    hide WorthAll, MarkToMarket, PnlSum, EquityNow, FeeSum, HoldingSum, Priced;
    if Filtered(cfg, d, s, i) {
      assert bars + [] == bars;
    } else {
      SignalKeepsSafe(cfg, d, s, i);
      var s1 := AfterSignal(cfg, d, s, i);
      var s2 := AfterFill(d, s1, i);
      var s3 := AfterExit(cfg, d, s2, i);
      var close := d.candles[i].close;
      ExitKeepsClosedBefore(cfg, d, s2, i);
      NewEntryIsExact(cfg, s3, i, close);
      var next := Step(cfg, d, s, i);
      forall j | 0 <= j < |bars| + 1
        ensures next.curve[j] ==
                Plus(Val(cfg.initialCapital), WorthSoFar(next, (bars + [i])[j], d.candles[(bars + [i])[j]].close))
      {
        if j < |bars| {
          var c := d.candles[bars[j]].close;
          FillKeepsPastWorth(d, s1, i, bars[j], c);
          ExitKeepsPastWorth(cfg, d, s2, i, bars[j], c);
        }
      }
    }
  }

  lemma {:induction false} RecordedBarsAreUnfiltered(cfg: Config, d: Data, i: nat)
    requires WellFormed(d) && cfg.warmupBars <= i <= |d.candles|
    ensures forall j, k :: 0 <= j < k < |RecordedBars(cfg, d, i)| ==>
              RecordedBars(cfg, d, i)[j] < RecordedBars(cfg, d, i)[k]
    ensures forall b :: b in RecordedBars(cfg, d, i) <==>
              cfg.warmupBars <= b < i && !Filtered(cfg, d, StateAt(cfg, d, b), b)
  {
    hide StateAt, Filtered;
    if i > cfg.warmupBars {
      RecordedBarsAreUnfiltered(cfg, d, i - 1);
      var before := RecordedBars(cfg, d, i - 1);
      forall j | 0 <= j < |before|
        ensures before[j] < i - 1
      {
        assert before[j] in before;
      }
    }
  }

  lemma StartIsExact(cfg: Config, d: Data)
    requires WellFormed(d)
    ensures CurveExact(cfg, d, START, [])
  {
  }

  lemma {:induction false} EveryBarKeepsCurve(cfg: Config, d: Data, i: nat)
    requires WellFormed(d) && cfg.warmupBars <= i <= |d.candles|
    ensures CurveExact(cfg, d, StateAt(cfg, d, i), RecordedBars(cfg, d, i))
    ensures ClosedBefore(StateAt(cfg, d, i).trades, i)
  {
    hide Step, CurveExact, Filtered, Safe, Balanced;
    if i == cfg.warmupBars {
      StartIsExact(cfg, d);
    } else {
      var s := StateAt(cfg, d, i - 1);
      var bars := RecordedBars(cfg, d, i - 1);
      EveryBarKeepsCurve(cfg, d, i - 1);
      EveryBarIsSafe(cfg, d, i - 1);
      EveryBarBalances(cfg, d, i);
      RecordedBarsAreUnfiltered(cfg, d, i - 1);
      forall j | 0 <= j < |bars|
        ensures bars[j] < i - 1
      {
        assert bars[j] in bars;
      }
      StepKeepsCurve(cfg, d, s, i - 1, bars);
    }
  }

  /** The equity curve of a finished run, read off its trades: entry `j` belongs to the
      j-th live bar that the direction filter did not skip, and equals the starting
      capital plus what every trade is worth at the end of that bar. */
  lemma EquityCurveIsExact(cfg: Config, d: Data)
    requires Runnable(cfg, d)
    ensures var s := FinalState(cfg, d);
            var bars := RecordedBars(cfg, d, |d.candles|);
            && |s.curve| == |bars|
            && forall j :: 0 <= j < |bars| ==>
                 && 0 <= bars[j] < |d.candles|
                 && s.curve[j] == Plus(Val(cfg.initialCapital), WorthAll(s.trades, bars[j], d.candles[bars[j]].close))
  {
    hide StateAt, RecordedBars, MarkToMarket, ExitPriceFor, NetPnl, Fee, WorthAll;
    var n := |d.candles|;
    var s := StateAt(cfg, d, n);
    var f := FinalState(cfg, d);
    EveryBarKeepsCurve(cfg, d, n);
    var bars := RecordedBars(cfg, d, n);
    forall j | 0 <= j < |bars|
      ensures WorthSoFar(s, bars[j], d.candles[bars[j]].close) == WorthAll(f.trades, bars[j], d.candles[bars[j]].close)
    {
      var c := d.candles[bars[j]].close;
      if s.position.Some? {
        WorthAppend(s.trades, f.trades[|s.trades|], bars[j], c);
      }
      PlusZero(WorthAll(s.trades, bars[j], c));
    }
  }

  ghost predicate NoneFiltered(cfg: Config, d: Data, i: nat)
    requires WellFormed(d) && i <= |d.candles|
  {
    forall b :: cfg.warmupBars <= b < i ==> !Filtered(cfg, d, StateAt(cfg, d, b), b)
  }

  lemma {:induction false} UnfilteredLength(cfg: Config, d: Data, i: nat)
    requires WellFormed(d) && cfg.warmupBars <= i <= |d.candles|
    ensures |RecordedBars(cfg, d, i)| <= i - cfg.warmupBars
    ensures |RecordedBars(cfg, d, i)| == i - cfg.warmupBars <==> NoneFiltered(cfg, d, i)
  {
    hide StateAt, Filtered;
    if i > cfg.warmupBars {
      UnfilteredLength(cfg, d, i - 1);
    }
  }

  /** How many entries: at most one per live bar, and exactly one if and only if no bar is
      filtered, which is sure without a direction filter. The run is flat on filtered bars,
      and the last bar always has its entry. */
  lemma CurveLength(cfg: Config, d: Data)
    requires Runnable(cfg, d)
    ensures |FinalState(cfg, d).curve| <= LiveBars(cfg, d)
    ensures |FinalState(cfg, d).curve| == LiveBars(cfg, d) <==> NoneFiltered(cfg, d, |d.candles|)
    ensures cfg.filter == AnyDirection ==> NoneFiltered(cfg, d, |d.candles|)
    ensures forall b :: cfg.warmupBars <= b < |d.candles| && b !in RecordedBars(cfg, d, |d.candles|) ==>
              StateAt(cfg, d, b).position.None? && StateAt(cfg, d, b).pending.None?
    ensures |d.candles| - 1 in RecordedBars(cfg, d, |d.candles|)
  {
    hide StateAt, GateOutput;
    var n := |d.candles|;
    RecordedBarsAreUnfiltered(cfg, d, n);
    EquityCurveIsExact(cfg, d);
    UnfilteredLength(cfg, d, n);
  }

  /** A position still open after the last bar shows up as a trade closed by the end of data. */
  lemma OpenAtEndIsReported(cfg: Config, d: Data)
    requires Runnable(cfg, d) && StateAt(cfg, d, |d.candles|).position.Some?
    ensures exists t :: t in FinalState(cfg, d).trades && t.exitReason == EndOfData
  {
    hide StateAt, ExitPriceFor, Fee;
    var f := FinalState(cfg, d);
    assert f.trades[|f.trades| - 1] in f.trades;
  }

  /** The curve ends at capital plus net PnL, unless the data ended with a trade open. */
  lemma CurveEndsAtNetPnl(cfg: Config, d: Data)
    requires Runnable(cfg, d)
    requires forall t :: t in FinalState(cfg, d).trades ==> t.exitReason != EndOfData
    ensures var s := FinalState(cfg, d);
            s.curve != [] && s.curve[|s.curve| - 1] == Val(cfg.initialCapital + PnlSum(s.trades))
  {
    hide StateAt, GateOutput, RecordedBars, WorthAll, PnlSum, ExitPriceFor, ClosedTrade, Fee;
    var n := |d.candles|;
    var s := StateAt(cfg, d, n);
    var f := FinalState(cfg, d);
    if s.position.Some? {
      OpenAtEndIsReported(cfg, d);
      assert false;
    }
    var bars := RecordedBars(cfg, d, n);
    EquityCurveIsExact(cfg, d);
    CurveLength(cfg, d);
    EveryBarKeepsCurve(cfg, d, n);
    RecordedBarsAreUnfiltered(cfg, d, n);
    assert bars[|bars| - 1] == n - 1 by {
      var j :| 0 <= j < |bars| && bars[j] == n - 1;
      assert bars[|bars| - 1] in bars;
    }
    ClosedTradesAreWorthTheirPnl(s.trades, n - 1, d.candles[n - 1].close);
  }

  // ---- Exposure ----

  /** With k trades, the bars held plus one, plus k-1 cooldowns, fit into the live bars. */
  lemma TradesFitLiveBars(cfg: Config, d: Data)
    requires Runnable(cfg, d)
    ensures var trades := FinalState(cfg, d).trades;
            trades != [] ==>
              HoldingSum(trades) + 1 + (|trades| - 1) * Gap(cfg.gate) <= LiveBars(cfg, d)
  {
    hide StateAt, Finished, HoldingSum;
    var trades := FinalState(cfg, d).trades;
    RunIsSafe(cfg, d);
    if trades != [] {
      HeldAndShutBarsFit(cfg, trades);
    }
  }

  lemma MulAtLeastZero(a: int, b: int)
    requires 0 <= a && 0 <= b
    ensures 0 <= a * b
  {
  }

  lemma RatioBelowOne(a: int, b: int)
    requires a < b && 0 < b
    ensures a as real / b as real * 100.0 < 100.0
  {
    var q := a as real / b as real;
    assert q * b as real == a as real;
    if q >= 1.0 {
      MulMono(b as real, 1.0, q);
      assert false;
    }
  }

  /** A run is never in the market on every live bar. */
  lemma ExposureBelowOneHundred(cfg: Config, d: Data)
    requires Runnable(cfg, d)
    ensures SummaryOf(cfg, d).metrics.exposurePct < 100.0
  {
    hide FinalState, HoldingSum, WorstDrawdown, Winners, PnlSum, Gap, FeeSum, Priced;
    var s := FinalState(cfg, d);
    TradesFitLiveBars(cfg, d);
    RunConservesMoney(cfg, d);
    if s.trades != [] {
      MulAtLeastZero(|s.trades| - 1, Gap(cfg.gate));
      RatioBelowOne(s.barsInMarket, LiveBars(cfg, d));
    }
  }
}
