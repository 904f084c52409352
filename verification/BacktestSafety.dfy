/** What every bar of a backtest keeps, and what follows for a whole run. */
module BacktestSafety {
  import opened TradeGate
  import opened BacktestTypes
  import opened BacktestEngine

  /** The first bar a new position may be entered on, given the trades so far. */
  function EarliestEntry(cfg: Config, trades: seq<Trade>): int {
    if trades == [] then cfg.warmupBars + 1 else trades[|trades| - 1].exitBar + Gap(cfg.gate) + 1
  }

  /** Trades are in order, never overlap, and keep the cooldown distance. */
  ghost predicate Spaced(cfg: Config, trades: seq<Trade>) {
    forall k :: 0 <= k < |trades| ==>
      && EarliestEntry(cfg, trades[..k]) <= trades[k].EntryBar() <= trades[k].exitBar
      && trades[k].position.holdingBars == trades[k].exitBar - trades[k].EntryBar() + 1
  }

  function Slots(s: BarState): int {
    |s.trades| + (if s.position.Some? then 1 else 0) + (if s.pending.Some? then 1 else 0)
  }

  ghost predicate PositionInv(cfg: Config, s: BarState, i: int) {
    && (s.pending.Some? ==> s.position.None?)
    && (s.position.Some? ==>
          var p := s.position.value;
          EarliestEntry(cfg, s.trades) <= p.entryBar < i
          && p.holdingBars == i - p.entryBar && p.holdingBars < cfg.holdingBars)
  }

  ghost predicate GateInv(cfg: Config, s: BarState, i: int) {
    && s.gate.state != Stopped
    && s.gate.tradeCount == Slots(s) <= TradeCap(cfg.gate)
    && (s.gate.state == Cooldown ==>
          s.position.None? && s.pending.None? && s.trades != []
          && 0 < s.gate.cooldown == cfg.gate.cooldownBars - (i - s.trades[|s.trades| - 1].exitBar))
    && (s.gate.state == Idle && s.trades != [] ==> i >= s.trades[|s.trades| - 1].exitBar + Gap(cfg.gate))
  }

  /** The state before bar `i`, between bars. */
  ghost predicate Safe(cfg: Config, n: int, s: BarState, i: int) {
    && PositionInv(cfg, s, i)
    && GateInv(cfg, s, i)
    && (s.pending.Some? ==> s.pending.value.entryBar == i < n && EarliestEntry(cfg, s.trades) <= i)
    && Spaced(cfg, s.trades)
    && (s.trades != [] ==> s.trades[|s.trades| - 1].exitBar < i)
  }

  /** The state inside bar `i`, after its signal. */
  ghost predicate SafeAfterSignal(cfg: Config, n: int, s: BarState, i: int) {
    && PositionInv(cfg, s, i)
    && GateInv(cfg, s, i)
    && (s.pending.Some? ==>
          i <= s.pending.value.entryBar <= i + 1 && s.pending.value.entryBar < n
          && EarliestEntry(cfg, s.trades) <= s.pending.value.entryBar)
    && Spaced(cfg, s.trades)
    && (s.trades != [] ==> s.trades[|s.trades| - 1].exitBar < i)
  }

  lemma SignalKeepsSafe(cfg: Config, d: Data, s: BarState, i: nat)
    requires WellFormed(d) && cfg.warmupBars <= i < |d.candles|
    requires Safe(cfg, |d.candles|, s, i)
    ensures SafeAfterSignal(cfg, |d.candles|, AfterSignal(cfg, d, s, i), i)
  {
    hide ScheduledEntry, EvaluateGate, Spaced;
  }

  /** Inside bar `i`, after the pending entry was filled. */
  ghost predicate SafeAfterFill(cfg: Config, n: int, s: BarState, i: int) {
    && (s.position.Some? ==>
          s.pending.None? && EarliestEntry(cfg, s.trades) <= s.position.value.entryBar <= i)
    && (s.pending.Some? ==>
          s.pending.value.entryBar == i + 1 < n && EarliestEntry(cfg, s.trades) <= i + 1)
    && GateInv(cfg, s, i)
    && Spaced(cfg, s.trades)
    && (s.trades != [] ==> s.trades[|s.trades| - 1].exitBar < i)
  }

  lemma FillKeepsSafe(cfg: Config, d: Data, s: BarState, i: nat)
    requires i < |d.candles|
    requires SafeAfterSignal(cfg, |d.candles|, s, i)
    ensures SafeAfterFill(cfg, |d.candles|, AfterFill(d, s, i), i)
  {
    hide Spaced;
  }

  /** Appending a trade that starts late enough keeps the spacing. */
  lemma SpacedAppend(cfg: Config, trades: seq<Trade>, t: Trade)
    requires Spaced(cfg, trades)
    requires EarliestEntry(cfg, trades) <= t.EntryBar() <= t.exitBar
    requires t.position.holdingBars == t.exitBar - t.EntryBar() + 1
    ensures Spaced(cfg, trades + [t])
  {
    var longer := trades + [t];
    forall k | 0 <= k < |longer|
      ensures EarliestEntry(cfg, longer[..k]) <= longer[k].EntryBar() <= longer[k].exitBar
      ensures longer[k].position.holdingBars == longer[k].exitBar - longer[k].EntryBar() + 1
    {
      assert longer[..k] == trades[..k];
      if k == |trades| {
        assert trades[..k] == trades;
      }
    }
  }

  lemma ExitKeepsSafe(cfg: Config, d: Data, s: BarState, i: nat)
    requires WellFormed(d) && i < |d.candles|
    requires SafeAfterFill(cfg, |d.candles|, s, i)
    ensures Safe(cfg, |d.candles|, AfterBar(cfg, d, AfterExit(cfg, d, s, i), i), i + 1)
  {
    hide ExitPriceFor, ClosedTrade, EquityNow, Spaced, Breaches, Fee, StopTouched;
    if s.position.Some? {
      var p := s.position.value.(holdingBars := i - s.position.value.entryBar + 1);
      match ExitOf(cfg, p, d.candles[i])
      case Some((price, reason)) =>
        SpacedAppend(cfg, s.trades, ClosedTrade(cfg, p, i, d.candles[i].time, price, reason));
      case None =>
    }
  }

  /** A filtered bar changes nothing, not even the gate: it was idle. */
  lemma FilteredKeepsSafe(cfg: Config, d: Data, s: BarState, i: nat)
    requires WellFormed(d) && i < |d.candles|
    requires Safe(cfg, |d.candles|, s, i) && Filtered(cfg, d, s, i)
    ensures Safe(cfg, |d.candles|, s, i + 1)
  {
    hide EvaluateGate, Spaced;
  }

  lemma StepKeepsSafe(cfg: Config, d: Data, s: BarState, i: nat)
    requires WellFormed(d) && cfg.warmupBars <= i < |d.candles|
    requires Safe(cfg, |d.candles|, s, i)
    ensures Safe(cfg, |d.candles|, Step(cfg, d, s, i), i + 1)
  {
    hide Filtered, AfterSignal, AfterFill, AfterExit, AfterBar, Safe, SafeAfterSignal, SafeAfterFill;
    if Filtered(cfg, d, s, i) {
      FilteredKeepsSafe(cfg, d, s, i);
    } else {
      SignalKeepsSafe(cfg, d, s, i);
      FillKeepsSafe(cfg, d, AfterSignal(cfg, d, s, i), i);
      ExitKeepsSafe(cfg, d, AfterFill(d, AfterSignal(cfg, d, s, i), i), i);
    }
  }

  lemma {:induction false} EveryBarIsSafe(cfg: Config, d: Data, i: nat)
    requires WellFormed(d) && cfg.warmupBars <= i <= |d.candles|
    ensures Safe(cfg, |d.candles|, StateAt(cfg, d, i), i)
  {
    hide Step;
    if i > cfg.warmupBars {
      EveryBarIsSafe(cfg, d, i - 1);
      StepKeepsSafe(cfg, d, StateAt(cfg, d, i - 1), i - 1);
    }
  }

  // ---- Whole runs ----

  /** Every run takes at most maxTradesPerDay trades, however many days it covers; its
      trades are ordered, disjoint and at least a cooldown apart, and the gate it ends
      with has counted each of them and never stopped. */
  lemma RunIsSafe(cfg: Config, d: Data)
    requires Runnable(cfg, d)
    ensures var s := FinalState(cfg, d);
            && Spaced(cfg, s.trades)
            && |s.trades| == s.gate.tradeCount <= TradeCap(cfg.gate)
            && s.position.None? && s.pending.None?
            && s.gate.state != Stopped
            && (s.trades != [] ==> s.trades[|s.trades| - 1].exitBar < |d.candles|)
  {
    hide StateAt, ExitPriceFor, ClosedTrade, Fee, Spaced;
    EveryBarIsSafe(cfg, d, |d.candles|);
    var s, f := StateAt(cfg, d, |d.candles|), FinalState(cfg, d);
    if s.position.Some? {
      SpacedAppend(cfg, s.trades, f.trades[|s.trades|]);
    }
  }

  /** In a spaced list later trades start after earlier ones end. */
  lemma {:induction false} SpacedBounds(cfg: Config, trades: seq<Trade>, j: nat, k: nat)
    requires Spaced(cfg, trades) && j <= k < |trades|
    ensures cfg.warmupBars < trades[j].EntryBar() <= trades[j].exitBar
    ensures trades[j].exitBar <= trades[k].exitBar
    ensures j < k ==> trades[j].exitBar + Gap(cfg.gate) < trades[k].EntryBar()
    decreases k
  {
    if j > 0 {
      SpacedBounds(cfg, trades, 0, j - 1);
      assert trades[..j][j - 1] == trades[j - 1];
    }
    assert EarliestEntry(cfg, trades[..j]) <= trades[j].EntryBar();
    if j < k {
      SpacedBounds(cfg, trades, j, k - 1);
      assert trades[..k][k - 1] == trades[k - 1];
      assert EarliestEntry(cfg, trades[..k]) <= trades[k].EntryBar();
    }
  }

  /** Every trade lies inside the live bars, after the first of them. */
  lemma TradesInsideRun(cfg: Config, d: Data)
    requires Runnable(cfg, d)
    ensures forall t :: t in FinalState(cfg, d).trades ==>
              cfg.warmupBars < t.EntryBar() <= t.exitBar < |d.candles|
  {
    hide FinalState, Spaced;
    RunIsSafe(cfg, d);
    var trades := FinalState(cfg, d).trades;
    forall t | t in trades
      ensures cfg.warmupBars < t.EntryBar() <= t.exitBar < |d.candles|
    {
      var k :| 0 <= k < |trades| && trades[k] == t;
      SpacedBounds(cfg, trades, k, |trades| - 1);
    }
  }

  lemma SpacedPrefix(cfg: Config, trades: seq<Trade>, k: nat)
    requires Spaced(cfg, trades) && k <= |trades|
    ensures Spaced(cfg, trades[..k])
  {
    var before := trades[..k];
    forall j | 0 <= j < k
      ensures EarliestEntry(cfg, before[..j]) <= before[j].EntryBar() <= before[j].exitBar
      ensures before[j].position.holdingBars == before[j].exitBar - before[j].EntryBar() + 1
    {
      assert before[..j] == trades[..j] && before[j] == trades[j];
    }
  }

  /** Bars held, and the shut bars between trades, fit between the warm-up and the last exit. */
  lemma {:induction false} HeldAndShutBarsFit(cfg: Config, trades: seq<Trade>)
    requires Spaced(cfg, trades) && trades != []
    ensures HoldingSum(trades) + (|trades| - 1) * Gap(cfg.gate) + cfg.warmupBars
            <= trades[|trades| - 1].exitBar
    decreases |trades|
  {
    hide Gap;
    var k := |trades| - 1;
    var before := trades[..k];
    assert trades[..k] == before;
    assert EarliestEntry(cfg, before) <= trades[k].EntryBar();
    if k > 0 {
      SpacedPrefix(cfg, trades, k);
      HeldAndShutBarsFit(cfg, before);
      assert k * Gap(cfg.gate) == (k - 1) * Gap(cfg.gate) + Gap(cfg.gate);
    } else {
      assert before == [];
    }
  }
}
