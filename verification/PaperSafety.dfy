/** What the paper trader may do and when: the drawdown stop, the daily trade cap and the
    cooldown, in any process. */
module PaperSafety {
  import opened Numeric
  import opened MarketData
  import opened TradeGate
  import opened PaperTypes
  import opened PaperEngine
  import opened PaperLedger

  predicate OpensOn(cfg: PaperConfig, a: Account, tick: Tick) {
    a.position.None? && AfterTick(cfg, a, tick).position.Some?
  }

  /** The tick brings a new bar of another day than the current one, with no position open. */
  predicate ResetsOn(a: Account, tick: Tick) {
    !Idles(a, tick) && a.lastBar.Some? && Resets(a, tick.candle.value.time)
  }

  // ---- The drawdown stop ----

  /** A stopped account neither opens nor resumes on a tick that does not reset the day; and
      it is a reset that resumes it. */
  lemma StopHolds(cfg: PaperConfig, a: Account, tick: Tick)
    requires a.stopped && !ResetsOn(a, tick)
    ensures AfterTick(cfg, a, tick).stopped && !OpensOn(cfg, a, tick)
  {
    hide DecideDirection, ExitOf, SimulateExit, NetPnl, CloseStored, DrawdownReached, BarsStored, BarPassed, Trailed;
    hide Unrealised, PnlUpdated, Plus;
  }

  ghost predicate NoReset(cfg: PaperConfig, a: Account, ticks: seq<Tick>) {
    forall k :: 0 <= k < |ticks| ==> !ResetsOn(AfterTicks(cfg, a, ticks[..k]), ticks[k])
  }

  /** Once stopped, an account opens nothing on any tick until one that resets the day. */
  lemma {:induction false} StopHoldsUntilReset(cfg: PaperConfig, a: Account, ticks: seq<Tick>)
    requires a.stopped && NoReset(cfg, a, ticks)
    ensures AfterTicks(cfg, a, ticks).stopped
    ensures forall k :: 0 <= k < |ticks| ==> !OpensOn(cfg, AfterTicks(cfg, a, ticks[..k]), ticks[k])
  {
    hide AfterTick, OpensOn, ResetsOn;
    if ticks != [] {
      var n := |ticks| - 1;
      forall k | 0 <= k < n
        ensures ticks[..n][..k] == ticks[..k] && ticks[..n][k] == ticks[k]
      {
      }
      StopHoldsUntilReset(cfg, a, ticks[..n]);
      StopHolds(cfg, AfterTicks(cfg, a, ticks[..n]), ticks[n]);
    }
  }

  /** The stop is set exactly by a close whose realised loss, of the day or in total, reaches
      its limit. */
  lemma StopSetExactly(cfg: PaperConfig, a: Account, tick: Tick)
    requires !a.stopped
    ensures AfterTick(cfg, a, tick).stopped <==>
            var b := AfterTick(cfg, a, tick);
            && a.position.Some? && b.position.None?
            && (DrawdownReached(cfg, b.dayPnL, cfg.maxDailyDrawdownPct)
                || DrawdownReached(cfg, b.totalPnL, cfg.maxTotalDrawdownPct))
  {
    hide DecideDirection, ExitOf, SimulateExit, NetPnl, CloseStored, DrawdownReached, BarsStored, BarPassed, Trailed;
    hide Unrealised, PnlUpdated, Plus, EntrySize, SimulateEntry, Opening;
  }

  // ---- The trade cap and the gate ----

  /** Positions opened since the last reset, from the start of the run. */
  function OpensSinceReset(cfg: PaperConfig, a: Account, ticks: seq<Tick>): nat {
    if ticks == [] then 0
    else
      var n := |ticks| - 1;
      var before := AfterTicks(cfg, a, ticks[..n]);
      (if ResetsOn(before, ticks[n]) then 0 else OpensSinceReset(cfg, a, ticks[..n]))
      + if OpensOn(cfg, before, ticks[n]) then 1 else 0
  }

  /** Noting a bar clears the count exactly when it resets the day, and opens nothing. */
  lemma NotingCounts(a: Account, tick: Tick)
    requires !Idles(a, tick)
    ensures var b := BarNoted(a, tick.candle.value, tick.faults);
            && b.gate.tradeCount == (if ResetsOn(a, tick) then 0 else a.gate.tradeCount)
            && (b.position.None? <==> a.position.None?)
  {
    hide BarsStored, DayPnl, DayCount;
  }

  lemma EnteringCounts(cfg: PaperConfig, a: Account, c: Candle, r: Reading, side: Side, faults: Faults)
    requires a.position.None? && 0 <= a.gate.tradeCount <= TradeCap(cfg.gate)
    ensures var b := Entered(cfg, a, c, r, side, faults);
            && b.gate.tradeCount == a.gate.tradeCount + (if b.position.Some? then 1 else 0)
            && b.gate.tradeCount <= TradeCap(cfg.gate)
  {
    hide SimulateEntry, Opening, EvaluateGate, CalcPositionSize, Minus, Times, AtMost;
  }

  lemma ManagingCounts(cfg: PaperConfig, a: Account, p: Position, c: Candle, side: Side, faults: Faults)
    ensures Managed(cfg, a, p, c, side, faults).gate.tradeCount == a.gate.tradeCount
  {
    hide ExitOf, SimulateExit, NetPnl, CloseStored, DrawdownReached, Trailed, Unrealised, Plus, Breaches;
  }

  lemma TickCountsOpens(cfg: PaperConfig, a: Account, tick: Tick)
    requires 0 <= a.gate.tradeCount <= TradeCap(cfg.gate)
    ensures AfterTick(cfg, a, tick).gate.tradeCount ==
            (if ResetsOn(a, tick) then 0 else a.gate.tradeCount) + if OpensOn(cfg, a, tick) then 1 else 0
    ensures 0 <= AfterTick(cfg, a, tick).gate.tradeCount <= TradeCap(cfg.gate)
  {
    hide BarNoted, Entered, Managed, DecideDirection, TradeCap;
    if !Idles(a, tick) {
      NotingCounts(a, tick);
      var c, b := tick.candle.value, BarNoted(a, tick.candle.value, tick.faults);
      if tick.reading.Some? {
        var r := tick.reading.value;
        var side := DecideDirection(r.tech, cfg.longThreshold, cfg.shortThreshold);
        if b.position.Some? {
          ManagingCounts(cfg, b, b.position.value, c, side, tick.faults);
        } else {
          EnteringCounts(cfg, b, c, r, side, tick.faults);
        }
      }
    }
  }

  /** Between two resets at most maxTradesPerDay positions open, in every process. */
  lemma {:induction false} CapBindsBetweenResets(cfg: PaperConfig, db: Db, p: Process)
    ensures OpensSinceReset(cfg, Begun(cfg, db, p), p.ticks) == Run(cfg, db, p).gate.tradeCount <= TradeCap(cfg.gate)
    decreases |p.ticks|
  {
    hide AfterTick, OpensOn, ResetsOn, TradeCap, TakenOver, TotalPnl, DayPnl, DayCount;
    if p.ticks != [] {
      var n := |p.ticks| - 1;
      var q := p.(ticks := p.ticks[..n]);
      CapBindsBetweenResets(cfg, db, q);
      TickCountsOpens(cfg, Run(cfg, db, q), p.ticks[n]);
    }
  }

  // ---- The cooldown ----

  function EarliestOpen(cfg: PaperConfig, closed: seq<ClosedPosition>): int {
    if closed == [] then 0 else closed[|closed| - 1].closeBar + Gap(cfg.gate)
  }

  /** Positions in order, never overlapping, at least a cooldown apart. */
  ghost predicate Spaced(cfg: PaperConfig, closed: seq<ClosedPosition>) {
    forall k :: 0 <= k < |closed| ==>
      EarliestOpen(cfg, closed[..k]) <= closed[k].openBar <= closed[k].closeBar
  }

  ghost predicate Cooling(cfg: PaperConfig, a: Account) {
    && a.gate.state != Stopped
    && (a.gate.state == Cooldown ==>
          && a.closed != []
          && a.gate.cooldown == cfg.gate.cooldownBars - (a.barCount - a.closed[|a.closed| - 1].closeBar)
          && a.barCount - a.closed[|a.closed| - 1].closeBar < Gap(cfg.gate))
    && (a.gate.state == Idle ==> a.barCount >= EarliestOpen(cfg, a.closed))
    && (a.closed != [] ==> a.closed[|a.closed| - 1].closeBar <= a.barCount && a.lastBar.Some?)
    && (a.position.Some? ==> EarliestOpen(cfg, a.closed) <= a.position.value.openBar <= a.barCount)
    && Spaced(cfg, a.closed)
  }

  /** What noting a bar does to everything the cooldown is about. */
  lemma NotedFields(a: Account, c: Candle, faults: Faults)
    ensures var b := BarNoted(a, c, faults);
            && b.closed == a.closed && b.barCount == a.barCount + 1 && b.lastBar == Some(c.time)
            && (b.position.Some? <==> a.position.Some?)
            && (b.position.Some? ==> b.position.value.openBar == a.position.value.openBar)
            && (a.gate.state != Stopped ==>
                  var g := if a.lastBar.Some? then BarPassed(a.gate) else a.gate;
                  b.gate.state == g.state && b.gate.cooldown == g.cooldown)
  {
    hide BarsStored, DayPnl, DayCount;
  }

  lemma NotingKeepsCooling(cfg: PaperConfig, a: Account, c: Candle, faults: Faults)
    requires Cooling(cfg, a)
    ensures Cooling(cfg, BarNoted(a, c, faults))
  {
    hide BarNoted, Spaced;
    NotedFields(a, c, faults);
  }

  lemma CloseKeepsCooling(cfg: PaperConfig, a: Account, price: real, reason: ExitReason, faults: Faults)
    requires Cooling(cfg, a) && a.position.Some? && a.lastBar.Some?
    ensures Cooling(cfg, PositionClosed(cfg, a, a.position.value, price, reason, faults))
  {
    hide NetPnl, SimulateExit, CloseStored, DrawdownReached, Breaches, Plus;
    var after := PositionClosed(cfg, a, a.position.value, price, reason, faults);
    forall k | 0 <= k < |after.closed|
      ensures EarliestOpen(cfg, after.closed[..k]) <= after.closed[k].openBar <= after.closed[k].closeBar
    {
      assert after.closed[..k] == a.closed[..k];
      if k == |a.closed| {
        assert a.closed[..k] == a.closed;
      }
    }
  }

  lemma EnterKeepsCooling(cfg: PaperConfig, a: Account, c: Candle, r: Reading, side: Side, faults: Faults)
    requires Cooling(cfg, a) && a.position.None? && a.lastBar.Some?
    ensures Cooling(cfg, Entered(cfg, a, c, r, side, faults))
  {
    hide SimulateEntry, StopDistance, Over, Minus, Times, CalcPositionSize, EvaluateGate, AtMost, Spaced, Gap;
  }

  lemma BarIsNoted(a: Account, c: Candle, faults: Faults)
    ensures BarNoted(a, c, faults).lastBar == Some(c.time)
  {
    hide BarPassed, BarsStored, DayPnl, DayCount, DayReset;
  }

  lemma TickKeepsCooling(cfg: PaperConfig, a: Account, tick: Tick)
    requires Cooling(cfg, a)
    ensures Cooling(cfg, AfterTick(cfg, a, tick))
  {
    hide BarNoted, PositionClosed, Entered, DecideDirection, ExitOf, Trailed, Unrealised, Plus, Spaced, Gap;
    if !Idles(a, tick) {
      var c, b := tick.candle.value, BarNoted(a, tick.candle.value, tick.faults);
      NotingKeepsCooling(cfg, a, c, tick.faults);
      BarIsNoted(a, c, tick.faults);
      if tick.reading.Some? {
        var r := tick.reading.value;
        var side := DecideDirection(r.tech, cfg.longThreshold, cfg.shortThreshold);
        if b.position.None? {
          EnterKeepsCooling(cfg, b, c, r, side, tick.faults);
        } else {
          match ExitOf(cfg, b.position.value, c, side)
          case Some((price, reason)) => CloseKeepsCooling(cfg, b, price, reason, tick.faults);
          case None => TrailKeepsFee(cfg, b.position.value, c.close);
        }
      }
    }
  }

  /** In every process the gate is never stopped between ticks, so its drawdown stop never
      decides anything; and positions are disjoint and at least max(cooldownBars, 1) bars
      apart, counting from the closing bar to the next opening bar. */
  lemma {:induction false} PositionsAreSpaced(cfg: PaperConfig, db: Db, p: Process)
    ensures Cooling(cfg, Run(cfg, db, p))
    decreases |p.ticks|
  {
    hide AfterTick, TotalPnl, DayPnl, DayCount, OpenPositionOf;
    if p.ticks != [] {
      var n := |p.ticks| - 1;
      var q := p.(ticks := p.ticks[..n]);
      PositionsAreSpaced(cfg, db, q);
      TickKeepsCooling(cfg, Run(cfg, db, q), p.ticks[n]);
    }
  }

  // ---- Fills and sizes ----

  lemma QuotientTimes(q: real, d: real, x: real, f: real)
    requires q * d == x
    ensures (q * f) * d == x * f
  {
    assert (q * f) * d == (q * d) * f;
  }

  /** What an open position adds to the equity, times its entry price, is the price move in
      its favour times its quantity. */
  lemma UnrealisedIsTheMove(p: Position, price: real)
    requires p.side != NoSide
    ensures Unrealised(p, price).Val? <==> p.entryPrice != 0.0 && p.quantity.Val?
    ensures Unrealised(p, price).Val? ==>
              Unrealised(p, price).v * p.entryPrice
              == (if p.side == Long then price - p.entryPrice else p.entryPrice - price) * p.quantity.v
  {
    if p.entryPrice != 0.0 && p.quantity.Val? {
      var move := if p.side == Long then price - p.entryPrice else p.entryPrice - price;
      QuotientTimes(move / p.entryPrice, p.entryPrice, move, p.quantity.v);
    }
  }

  /** A market exit pays the slippage twice: once in the price the exit rule asks for, once
      when that price is filled. */
  lemma MarketExitSlipsTwice(cfg: PaperConfig, p: Position, c: Candle, side: Side)
    requires ExitOf(cfg, p, c, side).Some? && ExitOf(cfg, p, c, side).value.1 != StopLoss
    requires p.side != NoSide
    ensures var slip := if p.side == Long then 1.0 - cfg.slippage else 1.0 + cfg.slippage;
            SimulateExit(cfg, ExitOf(cfg, p, c, side).value.0, p.quantity, p.side).price == c.close * slip * slip
  {
  }

  lemma QuantityIsSize(cfg: PaperConfig, a: Account, c: Candle, fill: Fill, side: Side, atr: real, size: real)
    requires cfg.commission != 0.0 && side != NoSide
    requires fill.commission == Times(Val(size), Val(cfg.commission))
    ensures var p, distance := Opening(cfg, a, c, fill, side, atr), UsedAtr(atr, c.close) * cfg.atrMultiplier;
            && p.quantity == Val(size) && p.entryPrice == fill.price && p.side == side
            && p.stopPrice == if side == Long then fill.price - distance else fill.price + distance
  {
    QuotientOfProduct(size, cfg.commission);
  }

  lemma LossAtStop(p: Position, price: real, distance: real, size: real)
    requires price > 0.0 && p.quantity == Val(size) && p.entryPrice == price
    requires (p.side == Long && p.stopPrice == price - distance) || (p.side == Short && p.stopPrice == price + distance)
    ensures Unrealised(p, p.stopPrice).Val? && Unrealised(p, p.stopPrice).v * price == -(size * distance)
  {
    var q := -distance / price;
    assert q * price == -distance;
    assert q * size * price == (q * price) * size;
  }

  /** The size risks the configured fraction of equity if it counts coins, but the PnL takes
      it as an amount of money. So a position filled with that size, scaled by the gate's
      multiplier, loses at its own stop, before slippage and fees, the scaled fraction divided
      by the entry price, whether or not there is an ATR. */
  lemma StopLosesFractionOverPrice(
      cfg: PaperConfig, a: Account, c: Candle, atr: real, equity: real, scale: real, fill: Fill, side: Side)
    requires equity > 0.0 && c.close > 0.0 && cfg.atrMultiplier > 0.0 && cfg.riskPerTradePct > 0.0
    requires cfg.commission != 0.0 && side != NoSide && fill.price > 0.0
    requires var used := UsedAtr(atr, c.close);
             var size := CalcPositionSize(Val(equity), c.close, used, cfg.atrMultiplier, cfg.riskPerTradePct);
             fill.commission == Times(Times(size, Val(scale)), Val(cfg.commission))
    ensures var p := Opening(cfg, a, c, fill, side, atr);
            && Unrealised(p, p.stopPrice).Val?
            && Unrealised(p, p.stopPrice).v * fill.price == -(equity * (cfg.riskPerTradePct / 100.0) * scale)
  {
    hide CalcPositionSize, Opening, Unrealised;
    var used := UsedAtr(atr, c.close);
    SizeRisksFraction(equity, c.close, used, cfg.atrMultiplier, cfg.riskPerTradePct);
    var size := CalcPositionSize(Val(equity), c.close, used, cfg.atrMultiplier, cfg.riskPerTradePct).v;
    var distance := used * cfg.atrMultiplier;
    QuantityIsSize(cfg, a, c, fill, side, atr, size * scale);
    LossAtStop(Opening(cfg, a, c, fill, side, atr), fill.price, distance, size * scale);
    assert size * scale * distance == (size * distance) * scale;
  }
}
