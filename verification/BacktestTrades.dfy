/** Each trade of a run, explained by the candles alone: which bar signalled it, at what
    price it was entered, and why it ended on the bar it did and not before. */
module BacktestTrades {
  import opened Numeric
  import opened MarketData
  import opened TradeGate
  import opened BacktestTypes
  import opened BacktestEngine
  import opened BacktestSafety

  /** The position as it stood at the end of bar `b`. */
  function AgedTo(p: Position, b: int): Position {
    p.(holdingBars := b - p.entryBar + 1)
  }

  /** `p` was signalled on the bar before its entry and entered at that bar's open, moved
      against the trader by the slippage. */
  ghost predicate Signalled(cfg: Config, d: Data, p: Position)
    requires WellFormed(d)
  {
    && cfg.warmupBars < p.entryBar < |d.candles|
    && p.entryTime == d.candles[p.entryBar].time
    && p.direction == Dir(cfg, d, p.entryBar - 1)
    && p.entryPrice == EntryPriceFor(d.candles[p.entryBar].open, p.direction, cfg.slippage)
    && (var out := GateOutput(cfg, d, StateAt(cfg, d, p.entryBar - 1), p.entryBar - 1);
        && out.decision != NoTrade
        && p.(holdingBars := 0)
           == Opened(ScheduledEntry(cfg, d, out, p.entryBar - 1), p.entryBar, d.candles[p.entryBar].time))
    && (cfg.filter == OnlyLong ==> p.direction == Long)
    && (cfg.filter == OnlyShort ==> p.direction == Short)
  }

  /** On no bar of [entry, upTo) was there a reason to leave. */
  ghost predicate HeldThrough(cfg: Config, d: Data, p: Position, upTo: int)
    requires upTo <= |d.candles|
  {
    forall b :: 0 <= p.entryBar <= b < upTo ==> ExitOf(cfg, AgedTo(p, b), d.candles[b]) == None
  }

  ghost predicate Explained(cfg: Config, d: Data, t: Trade)
    requires WellFormed(d)
  {
    && Signalled(cfg, d, t.position)
    && t.EntryBar() <= t.exitBar < |d.candles|
    && t.position == AgedTo(t.position, t.exitBar)
    && t.exitTime == d.candles[t.exitBar].time
    && t == ClosedTrade(cfg, t.position, t.exitBar, t.exitTime, t.exitPrice, t.exitReason)
    && if t.exitReason == EndOfData then
         && t.exitBar == |d.candles| - 1
         && HeldThrough(cfg, d, t.position, |d.candles|)
         && t.exitPrice == ExitPriceFor(d.candles[t.exitBar].close, t.position.direction, cfg.slippage)
       else
         && HeldThrough(cfg, d, t.position, t.exitBar)
         && ExitOf(cfg, t.position, d.candles[t.exitBar]) == Some((t.exitPrice, t.exitReason))
  }

  ghost predicate PendingExplained(cfg: Config, d: Data, s: BarState)
    requires WellFormed(d)
  {
    s.pending.Some? ==>
      var q := s.pending.value;
      && cfg.warmupBars < q.entryBar < |d.candles|
      && Signalled(cfg, d, Opened(q, q.entryBar, d.candles[q.entryBar].time))
  }

  /** Everything on the books before bar `i` is explained by the bars before it. */
  ghost predicate BooksExplained(cfg: Config, d: Data, s: BarState, i: int)
    requires WellFormed(d) && i <= |d.candles|
  {
    && PendingExplained(cfg, d, s)
    && (s.position.Some? ==>
          && Signalled(cfg, d, s.position.value)
          && HeldThrough(cfg, d, s.position.value, i))
    && forall t :: t in s.trades ==> Explained(cfg, d, t)
  }

  lemma SignalKeepsExplained(cfg: Config, d: Data, s: BarState, i: nat)
    requires WellFormed(d) && cfg.warmupBars <= i < |d.candles|
    requires s == StateAt(cfg, d, i) && BooksExplained(cfg, d, s, i) && !Filtered(cfg, d, s, i)
    ensures BooksExplained(cfg, d, AfterSignal(cfg, d, s, i), i)
  {
    hide StateAt, EvaluateGate, EntryPriceFor, StopPriceFor, DecideDir, AtMost, HeldThrough, Explained;
  }

  lemma FillKeepsExplained(cfg: Config, d: Data, s: BarState, i: nat)
    requires WellFormed(d) && i < |d.candles|
    requires BooksExplained(cfg, d, s, i)
    ensures BooksExplained(cfg, d, AfterFill(d, s, i), i)
  {
    hide Explained, EntryPriceFor, DecideDir, ExitOf, StateAt, GateOutput, ScheduledEntry;
  }

  /** Ageing a position changes neither how it was signalled nor what it was held through. */
  lemma AgeKeepsHistory(cfg: Config, d: Data, p: Position, b: int, upTo: int)
    requires WellFormed(d) && upTo <= |d.candles|
    requires Signalled(cfg, d, p) && HeldThrough(cfg, d, p, upTo)
    ensures Signalled(cfg, d, AgedTo(p, b)) && HeldThrough(cfg, d, AgedTo(p, b), upTo)
  {
    hide ExitOf, EntryPriceFor, DecideDir, StateAt, GateOutput, ScheduledEntry;
    forall c | 0 <= p.entryBar <= c < upTo
      ensures ExitOf(cfg, AgedTo(AgedTo(p, b), c), d.candles[c]) == None
    {
      assert AgedTo(AgedTo(p, b), c) == AgedTo(p, c);
    }
  }

  lemma NotEndOfData(cfg: Config, p: Position, c: Candle)
    ensures ExitOf(cfg, p, c).Some? ==> ExitOf(cfg, p, c).value.1 != EndOfData
  {
    hide ExitPriceFor, StopTouched;
  }

  lemma ExitKeepsExplained(cfg: Config, d: Data, s: BarState, i: nat)
    requires WellFormed(d) && i < |d.candles|
    requires BooksExplained(cfg, d, s, i)
    requires s.position.Some? ==> s.position.value.entryBar <= i
    ensures BooksExplained(cfg, d, AfterExit(cfg, d, s, i), i + 1)
  {
    hide ExitOf, EntryPriceFor, DecideDir, Told, Fee, NetPnl, Over, StateAt, GateOutput, ScheduledEntry;
    if s.position.Some? {
      var p := AgedTo(s.position.value, i);
      AgeKeepsHistory(cfg, d, s.position.value, i, i);
      match ExitOf(cfg, p, d.candles[i])
      case Some((price, reason)) =>
        var t := ClosedTrade(cfg, p, i, d.candles[i].time, price, reason);
        NotEndOfData(cfg, p, d.candles[i]);
        assert Explained(cfg, d, t);
      case None =>
        assert p == AgedTo(p, i);
    }
  }

  lemma FillEntersByNow(cfg: Config, d: Data, s: BarState, i: nat)
    requires i < |d.candles| && SafeAfterSignal(cfg, |d.candles|, s, i)
    ensures var p := AfterFill(d, s, i).position; p.Some? ==> p.value.entryBar <= i
  {
    hide GateInv, Spaced;
  }

  lemma StepKeepsExplained(cfg: Config, d: Data, s: BarState, i: nat)
    requires WellFormed(d) && cfg.warmupBars <= i < |d.candles|
    requires s == StateAt(cfg, d, i) && Safe(cfg, |d.candles|, s, i) && BooksExplained(cfg, d, s, i)
    ensures BooksExplained(cfg, d, Step(cfg, d, s, i), i + 1)
  {
    hide StateAt, AfterSignal, AfterExit, EquityNow, Explained, Signalled;
    hide EvaluateGate, SafeAfterSignal, GateInv, Spaced, BarPassed;
    if Filtered(cfg, d, s, i) {
      assert s.position.None?;
    } else {
      SignalKeepsSafe(cfg, d, s, i);
      var s1 := AfterSignal(cfg, d, s, i);
      SignalKeepsExplained(cfg, d, s, i);
      FillKeepsExplained(cfg, d, s1, i);
      FillEntersByNow(cfg, d, s1, i);
      ExitKeepsExplained(cfg, d, AfterFill(d, s1, i), i);
    }
  }

  lemma {:induction false} EveryBarExplained(cfg: Config, d: Data, i: nat)
    requires WellFormed(d) && cfg.warmupBars <= i <= |d.candles|
    ensures BooksExplained(cfg, d, StateAt(cfg, d, i), i)
  {
    hide Step, Safe, Explained, HeldThrough, Signalled;
    if i > cfg.warmupBars {
      EveryBarExplained(cfg, d, i - 1);
      EveryBarIsSafe(cfg, d, i - 1);
      StepKeepsExplained(cfg, d, StateAt(cfg, d, i - 1), i - 1);
    }
  }

  /** Every trade of every run: signalled on the bar before its entry, in the direction
      that bar's technical score decides and the filter allows, entered at the next open,
      and closed on the first bar that touches its stop or completes its holding period;
      only a trade no bar ever closed is closed by the end of the data. */
  lemma TradesAreExplained(cfg: Config, d: Data)
    requires Runnable(cfg, d)
    ensures forall t :: t in FinalState(cfg, d).trades ==> Explained(cfg, d, t)
  {
    hide StateAt, ExitOf, EntryPriceFor, ExitPriceFor, DecideDir, NetPnl, Over, Fee, ScheduledEntry, GateOutput;
    var n := |d.candles|;
    EveryBarExplained(cfg, d, n);
    EveryBarIsSafe(cfg, d, n);
    var s := StateAt(cfg, d, n);
    if s.position.Some? {
      var p := s.position.value;
      assert p == AgedTo(p, n - 1);
    }
  }

  lemma PassingScoreIsDefined(cfg: Config, d: Data, s: BarState, i: nat)
    requires WellFormed(d) && i < |d.candles| && GateOutput(cfg, d, s, i).decision != NoTrade
    ensures d.signals[i].tech.Val?
  {
    hide EvaluateGate;
  }

  /** With no filter a run may trade without a direction: exactly when the signal bar's
      score lies strictly between the thresholds. Such a trade never reaches a stop and
      earns nothing before fees, whatever the prices do. */
  lemma UndecidedTradesOnlyPayFees(cfg: Config, d: Data, t: Trade)
    requires Runnable(cfg, d) && t in FinalState(cfg, d).trades
    ensures 0 < t.EntryBar() < |d.candles| && d.signals[t.EntryBar() - 1].tech.Val?
    ensures t.position.direction == Undecided <==>
            cfg.shortThreshold < d.signals[t.EntryBar() - 1].tech.v < cfg.longThreshold
    ensures t.position.direction == Undecided ==>
              t.exitReason != StopHit && t.pnl == -Fee(cfg, t.position, t.exitPrice)
  {
    hide FinalState, ExitPriceFor, EntryPriceFor, HeldThrough, StateAt, GateOutput, ScheduledEntry;
    TradesAreExplained(cfg, d);
    assert Explained(cfg, d, t);
    PassingScoreIsDefined(cfg, d, StateAt(cfg, d, t.EntryBar() - 1), t.EntryBar() - 1);
    if t.position.direction == Undecided && (t.exitPrice <= 0.0 || t.position.entryPrice <= 0.0) {
      assert Turnover(t.position.entryPrice, t.exitPrice, t.position.size) == 0.0;
    }
  }

  // ---- What the prices mean ----

  /** Slippage works against the trader on both legs, in both directions. */
  lemma SlippageWorksAgainst(ref: real, slippage: real)
    requires ref > 0.0 && 0.0 <= slippage < 1.0
    ensures ExitPriceFor(ref, Long, slippage) <= ref <= EntryPriceFor(ref, Long, slippage)
    ensures EntryPriceFor(ref, Short, slippage) <= ref <= ExitPriceFor(ref, Short, slippage)
    ensures EntryPriceFor(ref, Short, slippage) > 0.0 && ExitPriceFor(ref, Long, slippage) > 0.0
  {
    MulNonneg(ref, slippage);
    MulPositive(ref, 1.0 - slippage);
    assert ref * (1.0 + slippage) == ref + ref * slippage;
    assert ref * (1.0 - slippage) == ref - ref * slippage;
  }

  /** The stop stands exactly `multiplier` ATRs away: below a long, above a short. */
  lemma StopIsAtrAway(entryPrice: real, dir: Direction, atr: real, multiplier: real)
    requires entryPrice != 0.0
    ensures StopPriceFor(entryPrice, dir, Val(atr), multiplier) ==
            Val(if dir == Short then entryPrice + multiplier * atr else entryPrice - multiplier * atr)
  {
    var x := multiplier * atr;
    var q := x / entryPrice;
    assert q * entryPrice == x;
    assert entryPrice * (1.0 + q) == entryPrice + q * entryPrice;
    assert entryPrice * (1.0 - q) == entryPrice - q * entryPrice;
  }

  /** A long gains exactly what the short on the same prices loses, and gains when the price
      rises. */
  lemma LongMirrorsShort(entryPrice: real, exitPrice: real, size: real)
    requires entryPrice > 0.0 && size > 0.0
    ensures GrossPnl(Long, entryPrice, exitPrice, size) == -GrossPnl(Short, entryPrice, exitPrice, size)
    ensures GrossPnl(Long, entryPrice, exitPrice, size) > 0.0 <==> exitPrice > entryPrice
  {
    var q := (exitPrice - entryPrice) / entryPrice;
    assert q * entryPrice == exitPrice - entryPrice;
    assert (entryPrice - exitPrice) / entryPrice == -q;
    assert (-q) * size == -(q * size);
    MulStrict(entryPrice, q, 0.0);
    MulStrict(size, q, 0.0);
  }

  /** The effective ATR of a scheduled entry: one percent of the price when none is given. */
  lemma ScheduledStop(cfg: Config, d: Data, out: Output, i: nat)
    requires WellFormed(d) && i + 1 < |d.candles|
    requires d.signals[i].atr.Val? && cfg.atrMultiplier >= 0.0
    requires ScheduledEntry(cfg, d, out, i).entryPrice > 0.0
    ensures var q := ScheduledEntry(cfg, d, out, i);
            && q.stopPrice.Val?
            && (q.direction == Long ==> q.stopPrice.v <= q.entryPrice)
            && (q.direction == Short ==> q.stopPrice.v >= q.entryPrice)
  {
    hide EntryPriceFor, DecideDir, StopPriceFor;
    var price := ScheduledEntry(cfg, d, out, i).entryPrice;
    var atr := if d.signals[i].atr.v <= 0.0 then price * 0.01 else d.signals[i].atr.v;
    StopIsAtrAway(price, Dir(cfg, d, i), atr, cfg.atrMultiplier);
    MulNonneg(cfg.atrMultiplier, atr);
  }

  lemma EntryIsPositive(ref: real, dir: Direction, slippage: real)
    requires ref > 0.0 && 0.0 <= slippage < 1.0
    ensures EntryPriceFor(ref, dir, slippage) > 0.0
  {
    MulPositive(ref, 1.0 - slippage);
    MulPositive(ref, 1.0 + slippage);
  }

  lemma StopDefinedIfAtr(price: real, dir: Direction, d: Data, i: nat, cfg: Config, out: Output)
    requires WellFormed(d) && i + 1 < |d.candles|
    ensures ScheduledEntry(cfg, d, out, i).stopPrice.Val? ==> d.signals[i].atr.Val?
  {
    hide EntryPriceFor, DecideDir;
  }

  lemma SizeNonNegative(cfg: Config, d: Data, out: Output, i: nat)
    requires WellFormed(d) && i + 1 < |d.candles| && cfg.initialCapital >= 0.0
    ensures ScheduledEntry(cfg, d, out, i).size >= 0.0
  {
    hide EntryPriceFor, StopPriceFor, DecideDir;
    MulNonneg(cfg.initialCapital, if out.sizeMultiplier <= 0.0 then 0.25 else out.sizeMultiplier);
  }

  lemma FeeNonNegative(cfg: Config, p: Position, price: real)
    requires p.entryPrice > 0.0 && p.size >= 0.0 && cfg.commission >= 0.0 && price > 0.0
    ensures Fee(cfg, p, price) >= 0.0
  {
    var q := price / p.entryPrice;
    MulStrict(p.entryPrice, 0.0, q);
    MulNonneg(q, p.size);
    MulNonneg(Turnover(p.entryPrice, price, p.size), cfg.commission);
  }

  /** Leaving a long no higher, or a short no lower, than it was entered never gains. */
  lemma LosingExit(cfg: Config, p: Position, price: real)
    requires p.entryPrice > 0.0 && p.size >= 0.0 && cfg.commission >= 0.0
    requires (p.direction == Long && price <= p.entryPrice) || (p.direction == Short && price >= p.entryPrice)
    ensures NetPnl(cfg, p, price) <= 0.0
  {
    if price > 0.0 {
      FeeNonNegative(cfg, p, price);
      hide Fee;
      var q := if p.direction == Long then (price - p.entryPrice) / p.entryPrice
               else (p.entryPrice - price) / p.entryPrice;
      MulStrict(p.entryPrice, q, 0.0);
      MulNonneg(-q, p.size);
      assert (-q) * p.size == -(q * p.size);
    }
  }

  /** Every stop exit of every run loses money, for positive opens, a slippage below one and a
      non-negative multiplier, commission and capital. */
  lemma StopExitsLose(cfg: Config, d: Data, t: Trade)
    requires Runnable(cfg, d) && t in FinalState(cfg, d).trades && t.exitReason == StopHit
    requires 0.0 <= cfg.slippage < 1.0 && cfg.atrMultiplier >= 0.0
    requires cfg.commission >= 0.0 && cfg.initialCapital >= 0.0
    requires forall k :: 0 <= k < |d.candles| ==> d.candles[k].open > 0.0
    ensures t.pnl <= 0.0
  {
    hide FinalState, ExitPriceFor, EntryPriceFor, HeldThrough, StateAt, EvaluateGate, StopPriceFor, NetPnl;
    TradesAreExplained(cfg, d);
    assert Explained(cfg, d, t);
    var e, p := t.EntryBar(), t.position;
    var out := GateOutput(cfg, d, StateAt(cfg, d, e - 1), e - 1);
    SlippageWorksAgainst(d.candles[e].open, cfg.slippage);
    EntryIsPositive(d.candles[e].open, p.direction, cfg.slippage);
    StopDefinedIfAtr(p.entryPrice, p.direction, d, e - 1, cfg, out);
    ScheduledStop(cfg, d, out, e - 1);
    SizeNonNegative(cfg, d, out, e - 1);
    LosingExit(cfg, p, t.exitPrice);
  }
}
