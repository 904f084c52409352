/** Theorems about two runs: the future does not reach back, and what a different
    commission rate changes. */
module BacktestComparisons {
  import opened Numeric
  import opened TradeGate
  import opened BacktestTypes
  import opened BacktestMetrics
  import opened BacktestEngine

  // ---- No lookahead ----

  /** Two inputs look the same through bar `k`: same candles, signals and probabilities up
      to `k`, and the same open on bar `k+1`, at which a signal of bar `k` would enter. */
  ghost predicate SameThrough(d1: Data, d2: Data, k: nat) {
    && WellFormed(d1) && WellFormed(d2)
    && k + 1 < |d1.candles| && k + 1 < |d2.candles|
    && (forall j :: 0 <= j <= k ==>
          && d1.candles[j] == d2.candles[j]
          && d1.signals[j] == d2.signals[j]
          && MlProb(d1, d1.candles[j].time) == MlProb(d2, d2.candles[j].time))
    && d1.candles[k + 1].open == d2.candles[k + 1].open
  }

  lemma SignalSeesOneOpenAhead(cfg: Config, d1: Data, d2: Data, s: BarState, i: nat)
    requires WellFormed(d1) && WellFormed(d2)
    requires i + 1 < |d1.candles| && i + 1 < |d2.candles|
    requires d1.signals[i] == d2.signals[i] && GateInput(d1, i) == GateInput(d2, i)
    requires d1.candles[i + 1].open == d2.candles[i + 1].open
    ensures Filtered(cfg, d1, s, i) == Filtered(cfg, d2, s, i)
    ensures AfterSignal(cfg, d1, s, i) == AfterSignal(cfg, d2, s, i)
  {
    hide EvaluateGate, EntryPriceFor, StopPriceFor, DecideDir, AtMost, GateInput;
  }

  lemma StepSeesOneOpenAhead(cfg: Config, d1: Data, d2: Data, s: BarState, i: nat, k: nat)
    requires SameThrough(d1, d2, k) && i <= k
    ensures Step(cfg, d1, s, i) == Step(cfg, d2, s, i)
  {
    hide EvaluateGate, EntryPriceFor, StopPriceFor, DecideDir, AtMost, ExitOf, ClosedTrade, EquityNow, Booked, Told;
    assert d1.candles[i] == d2.candles[i] && d1.signals[i] == d2.signals[i];
    assert d1.candles[i + 1].open == d2.candles[i + 1].open;
    assert GateInput(d1, i) == GateInput(d2, i);
    SignalSeesOneOpenAhead(cfg, d1, d2, s, i);
  }

  lemma {:induction false} StatesAgree(cfg: Config, d1: Data, d2: Data, k: nat, i: nat)
    requires SameThrough(d1, d2, k) && cfg.warmupBars <= i <= k + 1
    ensures StateAt(cfg, d1, i) == StateAt(cfg, d2, i)
  {
    hide Step;
    if i > cfg.warmupBars {
      StatesAgree(cfg, d1, d2, k, i - 1);
      StepSeesOneOpenAhead(cfg, d1, d2, StateAt(cfg, d1, i - 1), i - 1, k);
    }
  }

  lemma StepOnlyAppends(cfg: Config, d: Data, s: BarState, i: nat)
    requires WellFormed(d) && i < |d.candles|
    ensures var next := Step(cfg, d, s, i);
            && s.curve <= next.curve
            && (next.trades == s.trades
                || exists t: Trade :: next.trades == s.trades + [t] && t.exitBar == i)
  {
    hide EvaluateGate, ScheduledEntry, ExitOf, NetPnl, Fee, EquityNow, Told, GateOutput;
  }

  /** What is on the books stays there: later bars only append, and the trades they append
      exit on or after the bar reached. */
  lemma {:induction false} BooksOnlyGrow(cfg: Config, d: Data, i: nat, j: nat)
    requires WellFormed(d) && cfg.warmupBars <= i <= j <= |d.candles|
    ensures StateAt(cfg, d, i).trades <= StateAt(cfg, d, j).trades
    ensures StateAt(cfg, d, i).curve <= StateAt(cfg, d, j).curve
    ensures forall t :: t in StateAt(cfg, d, j).trades[|StateAt(cfg, d, i).trades|..] ==> t.exitBar >= i
    decreases j - i
  {
    hide Step;
    if i < j {
      BooksOnlyGrow(cfg, d, i, j - 1);
      StepOnlyAppends(cfg, d, StateAt(cfg, d, j - 1), j - 1);
    }
  }

  lemma SummaryExtends(cfg: Config, d: Data, i: nat)
    requires Runnable(cfg, d) && cfg.warmupBars <= i < |d.candles|
    ensures var s := StateAt(cfg, d, i);
            && s.trades <= SummaryOf(cfg, d).trades
            && s.curve <= SummaryOf(cfg, d).equityCurve
            && forall t :: t in SummaryOf(cfg, d).trades[|s.trades|..] ==> t.exitBar >= i
  {
    hide StateAt, ExitPriceFor, NetPnl, Fee, MetricsOf;
    BooksOnlyGrow(cfg, d, i, |d.candles|);
    var s, e, f := StateAt(cfg, d, i), StateAt(cfg, d, |d.candles|), FinalState(cfg, d);
    if e.position.Some? {
      assert f.trades[|s.trades|..] == e.trades[|s.trades|..] + [f.trades[|e.trades|]];
    }
  }

  /** No lookahead: two runs on inputs that agree through bar `k`, whatever follows, end
      bar `k` in the same state, so with the same trades, gate and equity entries, and
      both summaries begin with those trades and entries; every other trade of either run
      exits after bar `k`. */
  lemma NoLookahead(cfg: Config, d1: Data, d2: Data, k: nat)
    requires Runnable(cfg, d1) && Runnable(cfg, d2)
    requires SameThrough(d1, d2, k) && cfg.warmupBars <= k
    ensures StateAt(cfg, d1, k + 1) == StateAt(cfg, d2, k + 1)
    ensures var s := StateAt(cfg, d1, k + 1);
            && s.trades <= SummaryOf(cfg, d1).trades && s.trades <= SummaryOf(cfg, d2).trades
            && s.curve <= SummaryOf(cfg, d1).equityCurve && s.curve <= SummaryOf(cfg, d2).equityCurve
            && (forall t :: t in SummaryOf(cfg, d1).trades[|s.trades|..] ==> t.exitBar > k)
            && (forall t :: t in SummaryOf(cfg, d2).trades[|s.trades|..] ==> t.exitBar > k)
  {
    hide StateAt;
    StatesAgree(cfg, d1, d2, k, k + 1);
    SummaryExtends(cfg, d1, k + 1);
    SummaryExtends(cfg, d2, k + 1);
  }

  // ---- Another commission rate ----

  function Charged(t: Trade): real {
    Turnover(t.position.entryPrice, t.exitPrice, t.position.size)
  }

  function ChargedSum(trades: seq<Trade>): real {
    if trades == [] then 0.0 else ChargedSum(trades[..|trades| - 1]) + Charged(trades[|trades| - 1])
  }

  /** The same trade, paid for at a rate higher by `rise`. */
  ghost predicate SameButFee(t1: Trade, t2: Trade, rise: real) {
    && t2 == t1.(pnl := t2.pnl, returnPct := t2.returnPct)
    && t2.pnl == t1.pnl - rise * Charged(t1)
  }

  ghost predicate SameTrades(trades1: seq<Trade>, trades2: seq<Trade>, rise: real) {
    && |trades1| == |trades2|
    && forall k :: 0 <= k < |trades1| ==> SameButFee(trades1[k], trades2[k], rise)
  }

  /** Two states that differ only in what the fees made of the money. */
  ghost predicate Twins(s1: BarState, s2: BarState, rise: real) {
    && s2.position == s1.position && s2.pending == s1.pending && s2.barsInMarket == s1.barsInMarket
    && s2.gate == s1.gate.(dayPnl := s2.gate.dayPnl)
    && SameTrades(s1.trades, s2.trades, rise)
  }

  lemma NothingCharged(entryPrice: real, price: real, size: real)
    requires price <= 0.0 || entryPrice <= 0.0
    ensures Turnover(entryPrice, price, size) == 0.0
  {
  }

  lemma ClosedTwins(cfg: Config, c2: real, p: Position, i: int, time: int, price: real, reason: ExitReason)
    ensures SameButFee(
              ClosedTrade(cfg, p, i, time, price, reason),
              ClosedTrade(cfg.(commission := c2), p, i, time, price, reason),
              c2 - cfg.commission)
  {
    hide GrossPnl, Turnover, Over;
    var turnover := Turnover(p.entryPrice, price, p.size);
    if price <= 0.0 || p.entryPrice <= 0.0 {
      NothingCharged(p.entryPrice, price, p.size);
      assert (c2 - cfg.commission) * 0.0 == 0.0;
    } else {
      assert (c2 - cfg.commission) * turnover == turnover * c2 - turnover * cfg.commission;
    }
  }

  lemma BookedTwins(cfg: Config, c2: real, s1: BarState, s2: BarState, t1: Trade, t2: Trade)
    requires Twins(s1, s2, c2 - cfg.commission) && SameButFee(t1, t2, c2 - cfg.commission)
    ensures Twins(Booked(cfg, s1, t1, Told(cfg, s1.gate, t1)),
                  Booked(cfg.(commission := c2), s2, t2, Told(cfg.(commission := c2), s2.gate, t2)),
                  c2 - cfg.commission)
  {
    hide Charged, Fee, Breaches;
  }

  lemma ScheduleIgnoresCommission(cfg: Config, c2: real, d: Data, out: Output, i: nat)
    requires WellFormed(d) && i + 1 < |d.candles|
    ensures ScheduledEntry(cfg, d, out, i) == ScheduledEntry(cfg.(commission := c2), d, out, i)
  {
    hide EntryPriceFor, StopPriceFor, DecideDir, AtMost;
  }

  /** No decision of the gate looks at the day's PnL. */
  lemma ScreenIgnoresPnl(cfg: GateConfig, g1: GateVal, g2: GateVal, inp: Input)
    requires g2 == g1.(dayPnl := g2.dayPnl)
    ensures EvaluateGate(cfg, g1, inp) == EvaluateGate(cfg, g2, inp)
  {
    hide RawConfidence, SizeFromConfidence, DecisionFromSize, ApplyRegimeOverride;
  }

  lemma SignalTwins(cfg: Config, c2: real, d: Data, s1: BarState, s2: BarState, i: nat)
    requires WellFormed(d) && i < |d.candles|
    requires Twins(s1, s2, c2 - cfg.commission)
    ensures Filtered(cfg, d, s1, i) == Filtered(cfg.(commission := c2), d, s2, i)
    ensures Twins(AfterSignal(cfg, d, s1, i), AfterSignal(cfg.(commission := c2), d, s2, i), c2 - cfg.commission)
  {
    hide ScheduledEntry, DecideDir, GateInput, EvaluateGate, SameTrades;
    ScreenIgnoresPnl(cfg.gate, s1.gate, s2.gate, GateInput(d, i));
    if i + 1 < |d.candles| {
      ScheduleIgnoresCommission(cfg, c2, d, GateOutput(cfg, d, s1, i), i);
    }
  }

  lemma StepTwins(cfg: Config, c2: real, d: Data, s1: BarState, s2: BarState, i: nat)
    requires WellFormed(d) && i < |d.candles|
    requires Twins(s1, s2, c2 - cfg.commission)
    ensures Twins(Step(cfg, d, s1, i), Step(cfg.(commission := c2), d, s2, i), c2 - cfg.commission)
  {
    hide EquityNow, ClosedTrade, Told, Fee, SameTrades, AfterSignal, Filtered;
    hide ExitPriceFor, StopTouched;
    var cfg2 := cfg.(commission := c2);
    SignalTwins(cfg, c2, d, s1, s2, i);
    if !Filtered(cfg, d, s1, i) {
      var a1, a2 := AfterFill(d, AfterSignal(cfg, d, s1, i), i), AfterFill(d, AfterSignal(cfg2, d, s2, i), i);
      if a1.position.Some? {
        var p := a1.position.value.(holdingBars := i - a1.position.value.entryBar + 1);
        assert ExitOf(cfg, p, d.candles[i]) == ExitOf(cfg2, p, d.candles[i]);
        match ExitOf(cfg, p, d.candles[i])
        case Some((price, reason)) =>
          var t1 := ClosedTrade(cfg, p, i, d.candles[i].time, price, reason);
          var t2 := ClosedTrade(cfg2, p, i, d.candles[i].time, price, reason);
          ClosedTwins(cfg, c2, p, i, d.candles[i].time, price, reason);
          BookedTwins(cfg, c2, a1, a2, t1, t2);
        case None =>
      }
    }
  }

  lemma {:induction false} StatesAreTwins(cfg: Config, c2: real, d: Data, i: nat)
    requires WellFormed(d) && cfg.warmupBars <= i <= |d.candles|
    ensures Twins(StateAt(cfg, d, i), StateAt(cfg.(commission := c2), d, i), c2 - cfg.commission)
  {
    hide Step;
    if i > cfg.warmupBars {
      StatesAreTwins(cfg, c2, d, i - 1);
      StepTwins(cfg, c2, d, StateAt(cfg, d, i - 1), StateAt(cfg.(commission := c2), d, i - 1), i - 1);
    }
  }

  lemma {:induction false} TwinSums(trades1: seq<Trade>, trades2: seq<Trade>, rise: real)
    requires SameTrades(trades1, trades2, rise)
    ensures PnlSum(trades2) == PnlSum(trades1) - rise * ChargedSum(trades1)
  {
    hide Charged;
    if trades1 != [] {
      var n := |trades1| - 1;
      TwinSums(trades1[..n], trades2[..n], rise);
      assert SameButFee(trades1[n], trades2[n], rise);
      assert rise * (ChargedSum(trades1[..n]) + Charged(trades1[n]))
          == rise * ChargedSum(trades1[..n]) + rise * Charged(trades1[n]);
    }
  }

  /** Two runs that differ only in the commission rate make the same trades, entered and
      left on the same bars at the same prices, and their net PnL differs by the rate
      difference times the turnover charged. */
  lemma CommissionOnlyCostsTurnover(cfg: Config, c2: real, d: Data)
    requires Runnable(cfg, d)
    ensures var trades1 := FinalState(cfg, d).trades;
            var trades2 := FinalState(cfg.(commission := c2), d).trades;
            && SameTrades(trades1, trades2, c2 - cfg.commission)
            && PnlSum(trades2) == PnlSum(trades1) - (c2 - cfg.commission) * ChargedSum(trades1)
  {
    hide StateAt, ExitPriceFor, ClosedTrade, Fee, SameButFee, PnlSum, ChargedSum;
    var cfg2 := cfg.(commission := c2);
    var rise := c2 - cfg.commission;
    StatesAreTwins(cfg, c2, d, |d.candles|);
    var s1, s2 := StateAt(cfg, d, |d.candles|), StateAt(cfg2, d, |d.candles|);
    if s1.position.Some? {
      var p := s1.position.value;
      var last := d.candles[|d.candles| - 1];
      var price := ExitPriceFor(last.close, p.direction, cfg.slippage);
      ClosedTwins(cfg, c2, p, |d.candles| - 1, last.time, price, EndOfData);
    }
    assert SameTrades(FinalState(cfg, d).trades, FinalState(cfg2, d).trades, rise);
    TwinSums(FinalState(cfg, d).trades, FinalState(cfg2, d).trades, rise);
  }

  // ---- A higher rate never pays ----

  ghost predicate SizesNonNegative(s: BarState) {
    && (s.position.Some? ==> s.position.value.size >= 0.0)
    && (s.pending.Some? ==> s.pending.value.size >= 0.0)
    && forall t :: t in s.trades ==> t.position.size >= 0.0
  }

  lemma ScheduledSizeNonNegative(cfg: Config, d: Data, out: Output, i: nat)
    requires WellFormed(d) && i + 1 < |d.candles| && cfg.initialCapital >= 0.0
    ensures ScheduledEntry(cfg, d, out, i).size >= 0.0
  {
    hide EntryPriceFor, StopPriceFor, AtMost;
    MulNonneg(cfg.initialCapital, if out.sizeMultiplier <= 0.0 then 0.25 else out.sizeMultiplier);
  }

  lemma StepKeepsSizes(cfg: Config, d: Data, s: BarState, i: nat)
    requires WellFormed(d) && i < |d.candles| && cfg.initialCapital >= 0.0
    requires SizesNonNegative(s)
    ensures SizesNonNegative(Step(cfg, d, s, i))
  {
    hide EvaluateGate, ScheduledEntry, ExitOf, ClosedTrade, EquityNow, Fee, Told;
    if i + 1 < |d.candles| {
      ScheduledSizeNonNegative(cfg, d, GateOutput(cfg, d, s, i), i);
    }
  }

  lemma {:induction false} AllSizesNonNegative(cfg: Config, d: Data, i: nat)
    requires WellFormed(d) && cfg.warmupBars <= i <= |d.candles| && cfg.initialCapital >= 0.0
    ensures SizesNonNegative(StateAt(cfg, d, i))
  {
    hide Step;
    if i > cfg.warmupBars {
      AllSizesNonNegative(cfg, d, i - 1);
      StepKeepsSizes(cfg, d, StateAt(cfg, d, i - 1), i - 1);
    }
  }

  lemma ChargedNonNegative(t: Trade)
    requires t.position.size >= 0.0
    ensures Charged(t) >= 0.0
  {
    var p := t.position;
    if t.exitPrice > 0.0 && p.entryPrice > 0.0 {
      PositiveQuotient(t.exitPrice, p.entryPrice);
      MulNonneg(t.exitPrice / p.entryPrice, p.size);
    }
  }

  lemma {:induction false} ChargedSumNonNegative(trades: seq<Trade>)
    requires forall t :: t in trades ==> t.position.size >= 0.0
    ensures ChargedSum(trades) >= 0.0
  {
    hide Charged;
    if trades != [] {
      var n := |trades| - 1;
      forall t | t in trades[..n] ensures t in trades {}
      ChargedSumNonNegative(trades[..n]);
      assert trades[n] in trades;
      ChargedNonNegative(trades[n]);
    }
  }

  /** Raising the commission never raises net PnL, for any non-negative capital. */
  lemma HigherCommissionNeverPays(cfg: Config, c2: real, d: Data)
    requires Runnable(cfg, d) && cfg.initialCapital >= 0.0 && cfg.commission <= c2
    ensures PnlSum(FinalState(cfg.(commission := c2), d).trades) <= PnlSum(FinalState(cfg, d).trades)
  {
    hide StateAt, ExitPriceFor, ClosedTrade, Fee, PnlSum, ChargedSum, SameTrades;
    CommissionOnlyCostsTurnover(cfg, c2, d);
    AllSizesNonNegative(cfg, d, |d.candles|);
    var trades := FinalState(cfg, d).trades;
    ChargedSumNonNegative(trades);
    MulNonneg(c2 - cfg.commission, ChargedSum(trades));
  }
}
