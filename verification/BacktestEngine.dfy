/** The bar-by-bar simulation (internal/backtest/engine.go). `StateAt` says what the
    loop knows before each bar; `Run` is the loop itself, proved to compute it. */
module BacktestEngine {
  import opened Numeric
  import opened MarketData
  import opened TradeGate
  import opened BacktestTypes
  import opened BacktestMetrics

  datatype RunError =
    | LengthMismatch(candles: int, signals: int)
    | TooFewBars(needed: int, got: int)
    | TimestampMismatch(bar: int)

  datatype Result<+T> = Ok(value: T) | Err(error: RunError)

  datatype Summary = Summary(trades: seq<Trade>, metrics: Metrics, equityCurve: seq<Num>)

  // ---- Prices ----

  function EntryPriceFor(ref: real, dir: Direction, slippage: real): real {
    if dir == Short then ref * (1.0 - slippage) else ref * (1.0 + slippage)
  }

  function ExitPriceFor(ref: real, dir: Direction, slippage: real): real {
    if dir == Short then ref * (1.0 + slippage) else ref * (1.0 - slippage)
  }

  /** The stop is undefined (0 divided by 0) when the entry price is zero. */
  function StopPriceFor(entryPrice: real, dir: Direction, atr: Num, multiplier: real): Num {
    if entryPrice == 0.0 || atr.NaN? then NaN
    else if dir == Short then Val(entryPrice * (1.0 + multiplier * atr.v / entryPrice))
    else Val(entryPrice * (1.0 - multiplier * atr.v / entryPrice))
  }

  function DecideDir(tech: Num, longThreshold: real, shortThreshold: real): Direction {
    if tech.NaN? then Undecided
    else if tech.v >= longThreshold then Long
    else if tech.v <= shortThreshold then Short
    else Undecided
  }

  // ---- Closing a trade ----

  function GrossPnl(dir: Direction, entryPrice: real, exitPrice: real, size: real): real
    requires entryPrice != 0.0
  {
    match dir
    case Long => (exitPrice - entryPrice) / entryPrice * size
    case Short => (entryPrice - exitPrice) / entryPrice * size
    case Undecided => 0.0
  }

  /** Size plus its value at the exit price: what the commission rate applies to. A trade
      with a price that is not positive is not charged. */
  function Turnover(entryPrice: real, exitPrice: real, size: real): real {
    if exitPrice <= 0.0 || entryPrice <= 0.0 then 0.0
    else size + exitPrice / entryPrice * size
  }

  function Fee(cfg: Config, p: Position, exitPrice: real): real {
    Turnover(p.entryPrice, exitPrice, p.size) * cfg.commission
  }

  function NetPnl(cfg: Config, p: Position, exitPrice: real): real {
    if exitPrice <= 0.0 || p.entryPrice <= 0.0 then 0.0
    else GrossPnl(p.direction, p.entryPrice, exitPrice, p.size) - Fee(cfg, p, exitPrice)
  }

  function ClosedTrade(
      cfg: Config, p: Position, exitBar: int, exitTime: int, exitPrice: real, reason: ExitReason): (t: Trade)
    ensures t.position == p && t.exitBar == exitBar && t.exitPrice == exitPrice && t.exitReason == reason
  {
    var pnl := NetPnl(cfg, p, exitPrice);
    var ret := if exitPrice <= 0.0 || p.entryPrice <= 0.0 then Val(0.0) else Over(Val(pnl), Val(p.size));
    Trade(p, exitBar, exitTime, exitPrice, reason, pnl, ret)
  }

  lemma Distribute(a: real, b: real, c: real)
    ensures (a + b) * c == a * c + b * c
  {
  }

  method CloseTrade(cfg: Config, p: Position, exitBar: int, exitTime: int, exitPrice: real, reason: ExitReason)
    returns (t: Trade, fee: real)
    ensures t == ClosedTrade(cfg, p, exitBar, exitTime, exitPrice, reason)
    ensures fee == Fee(cfg, p, exitPrice)
  {
    t := Trade(p, exitBar, exitTime, exitPrice, reason, 0.0, Val(0.0));
    if exitPrice <= 0.0 || p.entryPrice <= 0.0 {
      return t, 0.0;
    }
    var grossPnl := GrossPnl(p.direction, p.entryPrice, exitPrice, p.size);
    var entryFee := p.size * cfg.commission;
    var exitFee := exitPrice / p.entryPrice * p.size * cfg.commission;
    fee := entryFee + exitFee;
    Distribute(p.size, exitPrice / p.entryPrice * p.size, cfg.commission);
    t := t.(pnl := grossPnl - fee, returnPct := Over(Val(grossPnl - fee), Val(p.size)));
  }

  /** The unrealised PnL of an open position at a closing price. */
  function MarkToMarket(p: Position, close: real): Num {
    if p.direction == Undecided then Val(0.0)
    else if p.entryPrice == 0.0 then NaN
    else Val(GrossPnl(p.direction, p.entryPrice, close, p.size))
  }

  predicate StopTouched(p: Position, c: Candle) {
    && p.stopPrice.Val?
    && (match p.direction
        case Long => c.low <= p.stopPrice.v
        case Short => c.high >= p.stopPrice.v
        case Undecided => false)
  }

  /** Whether the bar closes the position, at which price and why: the stop comes first. */
  function ExitOf(cfg: Config, p: Position, c: Candle): Option<(real, ExitReason)> {
    if StopTouched(p, c) then Some((p.stopPrice.v, StopHit))
    else if p.holdingBars >= cfg.holdingBars then
      Some((ExitPriceFor(c.close, p.direction, cfg.slippage), Expiry))
    else None
  }

  // ---- One bar ----

  datatype BarState = BarState(
    gate: GateVal, position: Option<Position>, pending: Option<Pending>, trades: seq<Trade>,
    cumulativePnL: real, totalFees: real, barsInMarket: int, curve: seq<Num>)

  const START := BarState(FRESH_GATE, None, None, [], 0.0, 0.0, 0, [])

  predicate WellFormed(d: Data) {
    |d.candles| == |d.signals|
  }

  function MlProb(d: Data, time: int): real {
    if time in d.mlProbs then d.mlProbs[time] else 1.0
  }

  function GateInput(d: Data, i: nat): Input
    requires WellFormed(d) && i < |d.candles|
  {
    var s := d.signals[i];
    Input(s.tech, s.orderFlow, s.regime, s.regimeLabel, MlProb(d, d.candles[i].time))
  }

  function GateOutput(cfg: Config, d: Data, s: BarState, i: nat): Output
    requires WellFormed(d) && i < |d.candles|
  {
    EvaluateGate(cfg.gate, s.gate, GateInput(d, i))
  }

  function Dir(cfg: Config, d: Data, i: nat): Direction
    requires WellFormed(d) && i < |d.candles|
  {
    DecideDir(d.signals[i].tech, cfg.longThreshold, cfg.shortThreshold)
  }

  /** The bar's signal would schedule an entry, were it not for the direction filter. */
  predicate Triggers(cfg: Config, d: Data, s: BarState, i: nat)
    requires WellFormed(d) && i < |d.candles|
  {
    && GateOutput(cfg, d, s, i).decision != NoTrade
    && s.position.None? && s.pending.None?
    && i < |d.candles| - 1
  }

  /** The direction filter skips the rest of the bar. */
  predicate Filtered(cfg: Config, d: Data, s: BarState, i: nat)
    requires WellFormed(d) && i < |d.candles|
  {
    && Triggers(cfg, d, s, i)
    && (|| (cfg.filter == OnlyLong && Dir(cfg, d, i) != Long)
        || (cfg.filter == OnlyShort && Dir(cfg, d, i) != Short))
  }

  function ScheduledEntry(cfg: Config, d: Data, out: Output, i: nat): (p: Pending)
    requires WellFormed(d) && i + 1 < |d.candles|
    ensures p.entryBar == i + 1
  {
    var dir := Dir(cfg, d, i);
    var entryPrice := EntryPriceFor(d.candles[i + 1].open, dir, cfg.slippage);
    var atr := if AtMost(d.signals[i].atr, Val(0.0)) then Val(entryPrice * 0.01) else d.signals[i].atr;
    var sizeFrac := if out.sizeMultiplier <= 0.0 then 0.25 else out.sizeMultiplier;
    Pending(i + 1, entryPrice, StopPriceFor(entryPrice, dir, atr, cfg.atrMultiplier),
            cfg.initialCapital * sizeFrac, dir, out.rawConfidence)
  }

  function AfterSignal(cfg: Config, d: Data, s: BarState, i: nat): BarState
    requires WellFormed(d) && i < |d.candles|
  {
    if Triggers(cfg, d, s, i) then
      s.(pending := Some(ScheduledEntry(cfg, d, GateOutput(cfg, d, s, i), i)), gate := TradePlaced(s.gate))
    else s
  }

  function Opened(p: Pending, i: int, time: int): Position {
    Position(i, time, p.direction, p.entryPrice, p.size, p.stopPrice, p.confidence, 0)
  }

  function AfterFill(d: Data, s: BarState, i: nat): BarState
    requires i < |d.candles|
  {
    if s.position.None? && s.pending.Some? && s.pending.value.entryBar == i then
      s.(position := Some(Opened(s.pending.value, i, d.candles[i].time)), pending := None)
    else s
  }

  /** Books a closed trade; `gate` is the gate after being told. */
  function Booked(cfg: Config, s: BarState, t: Trade, gate: GateVal): BarState {
    s.(gate := gate,
       position := None,
       trades := s.trades + [t],
       cumulativePnL := s.cumulativePnL + t.pnl,
       totalFees := s.totalFees + Fee(cfg, t.position, t.exitPrice),
       barsInMarket := s.barsInMarket + t.position.holdingBars)
  }

  function Told(cfg: Config, g: GateVal, t: Trade): GateVal {
    TradeClosed(cfg.gate, PnlUpdated(cfg.gate, g, t.pnl))
  }

  function AfterExit(cfg: Config, d: Data, s: BarState, i: nat): BarState
    requires i < |d.candles|
  {
    if s.position.None? then s
    else
      var c := d.candles[i];
      var p := s.position.value.(holdingBars := i - s.position.value.entryBar + 1);
      match ExitOf(cfg, p, c)
      case Some((price, reason)) =>
        var t := ClosedTrade(cfg, p, i, c.time, price, reason);
        Booked(cfg, s, t, Told(cfg, s.gate, t))
      case None => s.(position := Some(p))
  }

  function EquityNow(cfg: Config, s: BarState, close: real): Num {
    var realised := Val(cfg.initialCapital + s.cumulativePnL);
    if s.position.None? then realised else Plus(realised, MarkToMarket(s.position.value, close))
  }

  function AfterBar(cfg: Config, d: Data, s: BarState, i: nat): BarState
    requires i < |d.candles|
  {
    s.(gate := BarPassed(s.gate), curve := s.curve + [EquityNow(cfg, s, d.candles[i].close)])
  }

  function Step(cfg: Config, d: Data, s: BarState, i: nat): BarState
    requires WellFormed(d) && i < |d.candles|
  {
    if Filtered(cfg, d, s, i) then s
    else AfterBar(cfg, d, AfterExit(cfg, d, AfterFill(d, AfterSignal(cfg, d, s, i), i), i), i)
  }

  /** The loop's state before bar `i`. */
  function StateAt(cfg: Config, d: Data, i: nat): BarState
    requires WellFormed(d) && cfg.warmupBars <= i <= |d.candles|
  {
    if i == cfg.warmupBars then START else Step(cfg, d, StateAt(cfg, d, i - 1), i - 1)
  }

  /** What is still open after the last bar is closed there; the gate is not told. */
  function Finished(cfg: Config, d: Data, s: BarState): BarState
    requires |d.candles| > 0
  {
    if s.position.None? then s
    else
      var last := d.candles[|d.candles| - 1];
      var p := s.position.value;
      var t := ClosedTrade(
        cfg, p, |d.candles| - 1, last.time, ExitPriceFor(last.close, p.direction, cfg.slippage), EndOfData);
      Booked(cfg, s, t, s.gate)
  }

  // ---- The run ----

  function MinBars(cfg: Config): nat {
    cfg.warmupBars + cfg.holdingBars + 2
  }

  predicate Aligned(d: Data) {
    && WellFormed(d)
    && forall i :: 0 <= i < |d.candles| ==> d.candles[i].time == d.signals[i].ts
  }

  /** The inputs `Run` accepts. */
  predicate Runnable(cfg: Config, d: Data) {
    Aligned(d) && |d.candles| >= MinBars(cfg)
  }

  function FinalState(cfg: Config, d: Data): BarState
    requires Runnable(cfg, d)
  {
    Finished(cfg, d, StateAt(cfg, d, |d.candles|))
  }

  function LiveBars(cfg: Config, d: Data): int {
    |d.candles| - cfg.warmupBars
  }

  function SummaryOf(cfg: Config, d: Data): Summary
    requires Runnable(cfg, d)
  {
    var s := FinalState(cfg, d);
    Summary(s.trades, MetricsOf(s.trades, cfg.initialCapital, LiveBars(cfg, d), s.barsInMarket, s.totalFees), s.curve)
  }

  /** Evaluates the bar's signal: either the direction filter skips the bar, or an entry
      may be scheduled for the next one. */
  method ReadSignal(cfg: Config, d: Data, i: nat, gate: Gate, flat: bool, ghost s: BarState)
    returns (skip: bool, scheduled: Option<Pending>)
    requires WellFormed(d) && i < |d.candles|
    requires gate.cfg == cfg.gate && gate.Value() == s.gate
    requires flat <==> s.position.None? && s.pending.None?
    modifies gate
    ensures skip <==> Filtered(cfg, d, s, i)
    ensures scheduled ==
            if Triggers(cfg, d, s, i) && !skip then Some(ScheduledEntry(cfg, d, GateOutput(cfg, d, s, i), i))
            else None
    ensures gate.Value() == if scheduled.Some? then TradePlaced(s.gate) else s.gate
  {
    hide ScheduledEntry, EvaluateGate, DecideDir;
    skip, scheduled := false, None;
    var decision := gate.Evaluate(GateInput(d, i));
    var dir := DecideDir(d.signals[i].tech, cfg.longThreshold, cfg.shortThreshold);
    if decision.decision != NoTrade && flat && i < |d.candles| - 1 {
      if (cfg.filter == OnlyLong && dir != Long) || (cfg.filter == OnlyShort && dir != Short) {
        skip := true;
      } else {
        scheduled := Some(ScheduledEntry(cfg, d, decision, i));
        gate.OnTradePlaced();
      }
    }
  }

  /** Closes the position when the bar calls for it, and tells the gate. */
  method CheckExit(cfg: Config, c: Candle, i: nat, p: Position, gate: Gate)
    returns (closed: Option<(Trade, real)>)
    requires gate.cfg == cfg.gate
    modifies gate
    ensures match ExitOf(cfg, p, c)
            case None => closed.None? && gate.Value() == old(gate.Value())
            case Some((price, reason)) =>
              var t := ClosedTrade(cfg, p, i, c.time, price, reason);
              && closed == Some((t, Fee(cfg, p, price)))
              && gate.Value() == Told(cfg, old(gate.Value()), t)
  {
    hide NetPnl, Fee, Turnover, ClosedTrade, PnlUpdated, TradeClosed;
    var exitPrice, reason := 0.0, Expiry;
    if StopTouched(p, c) {
      exitPrice, reason := p.stopPrice.v, StopHit;
    } else if p.holdingBars >= cfg.holdingBars {
      exitPrice := ExitPriceFor(c.close, p.direction, cfg.slippage);
    } else {
      return None;
    }
    var t, fee := CloseTrade(cfg, p, i, c.time, exitPrice, reason);
    gate.UpdatePnl(t.pnl);
    gate.OnTradeClosed();
    return Some((t, fee));
  }

  /** The exit part of a bar: ages the open position, and books it when the bar closes it. */
  method ManagePosition(
      cfg: Config, d: Data, i: nat, gate: Gate, entryBar: int, open: Option<Position>, trades0: seq<Trade>,
      pnl0: real, fees0: real, bars0: int, ghost s: BarState)
    returns (position: Option<Position>, trades: seq<Trade>, cumulativePnL: real, totalFees: real, barsInMarket: int)
    requires i < |d.candles| && gate.cfg == cfg.gate
    requires s == BarState(gate.Value(), open, s.pending, trades0, pnl0, fees0, bars0, s.curve)
    requires open.Some? ==> entryBar == open.value.entryBar
    modifies gate
    ensures AfterExit(cfg, d, s, i) ==
            BarState(gate.Value(), position, s.pending, trades, cumulativePnL, totalFees, barsInMarket, s.curve)
    ensures position.Some? ==> open.Some? && entryBar == position.value.entryBar
  {
    hide ExitOf, ClosedTrade, Fee, Told;
    position, trades, cumulativePnL, totalFees, barsInMarket := open, trades0, pnl0, fees0, bars0;
    if position.Some? {
      var p := position.value.(holdingBars := i - entryBar + 1);
      position := Some(p);
      var closed := CheckExit(cfg, d.candles[i], i, p, gate);
      if closed.Some? {
        var (t, fee) := closed.value;
        totalFees := totalFees + fee;
        trades := trades + [t];
        cumulativePnL := cumulativePnL + t.pnl;
        barsInMarket := barsInMarket + p.holdingBars;
        position := None;
      }
    }
  }

  /** The loop over the live bars. */
  method Simulate(cfg: Config, d: Data)
    returns (position: Option<Position>, trades: seq<Trade>, cumulativePnL: real, totalFees: real,
             barsInMarket: int, curve: seq<Num>)
    requires Runnable(cfg, d)
    ensures var s := StateAt(cfg, d, |d.candles|);
            && position == s.position && trades == s.trades && cumulativePnL == s.cumulativePnL
            && totalFees == s.totalFees && barsInMarket == s.barsInMarket && curve == s.curve
  {
    hide EntryPriceFor, ExitPriceFor, StopPriceFor, DecideDir, Dir, ExitOf, StopTouched, Told;
    hide GrossPnl, Turnover, Fee, NetPnl, Over, ClosedTrade, MarkToMarket, MlProb, GateInput, Triggers, ScheduledEntry;
    hide EvaluateGate, BarPassed, PnlUpdated, TradeClosed, TradePlaced, Plus, AfterExit, Booked;
    var gate := new Gate(cfg.gate);
    curve, cumulativePnL, totalFees, trades := [], 0.0, 0.0, [];
    position, barsInMarket := None, 0;
    var entryBar, pendingBar := -1, -1;
    var pending: Option<Pending> := None;

    ghost var s := START;
    for i := cfg.warmupBars to |d.candles|
      invariant gate.cfg == cfg.gate && fresh(gate)
      invariant s == StateAt(cfg, d, i)
      invariant s ==
                BarState(gate.Value(), position, pending, trades, cumulativePnL, totalFees, barsInMarket, curve)
      invariant pending.Some? ==> pendingBar == pending.value.entryBar >= 0
      invariant pending.None? ==> pendingBar < 0
      invariant position.Some? ==> entryBar == position.value.entryBar
    {
      assert StateAt(cfg, d, i + 1) == Step(cfg, d, s, i);
      var c := d.candles[i];
      var flat := position.None? && pendingBar < 0;
      var skip, scheduled := ReadSignal(cfg, d, i, gate, flat, s);
      if scheduled.Some? {
        pendingBar := i + 1;
        pending := scheduled;
      }
      if !skip {
        ghost var s1 := AfterSignal(cfg, d, s, i);
        assert s1 == BarState(gate.Value(), position, pending, trades, cumulativePnL, totalFees, barsInMarket, curve);

        if position.None? && pending.Some? && i == pending.value.entryBar {
          position := Some(Opened(pending.value, i, c.time));
          entryBar := i;
          pendingBar := -1;
          pending := None;
        }
        ghost var s2 := AfterFill(d, s1, i);
        assert s2 == BarState(gate.Value(), position, pending, trades, cumulativePnL, totalFees, barsInMarket, curve);

        position, trades, cumulativePnL, totalFees, barsInMarket :=
          ManagePosition(cfg, d, i, gate, entryBar, position, trades, cumulativePnL, totalFees, barsInMarket, s2);
        ghost var s3 := AfterExit(cfg, d, s2, i);
        gate.OnBar();
        var equity := Val(cfg.initialCapital + cumulativePnL);
        if position.Some? {
          equity := Plus(equity, MarkToMarket(position.value, c.close));
        }
        curve := curve + [equity];
        assert AfterBar(cfg, d, s3, i) == Step(cfg, d, s, i);
        s := AfterBar(cfg, d, s3, i);
        assert s == BarState(gate.Value(), position, pending, trades, cumulativePnL, totalFees, barsInMarket, curve);
      }
    }
  }

  method Run(cfg: Config, d: Data) returns (r: Result<Summary>)
    ensures r.Ok? <==> Runnable(cfg, d)
    ensures r.Ok? <==>
              && |d.candles| == |d.signals|
              && |d.candles| >= cfg.warmupBars + cfg.holdingBars + 2
              && forall i :: 0 <= i < |d.candles| ==> d.candles[i].time == d.signals[i].ts
    ensures r.Ok? ==> r.value == SummaryOf(cfg, d)
    ensures r.Err? ==>
              match r.error
              case LengthMismatch(a, b) => a == |d.candles| && b == |d.signals| && a != b
              case TooFewBars(needed, got) =>
                && |d.candles| == |d.signals| && needed == cfg.warmupBars + cfg.holdingBars + 2 > got == |d.candles|
              case TimestampMismatch(bar) =>
                && WellFormed(d) && 0 <= bar < |d.candles|
                && d.candles[bar].time != d.signals[bar].ts
                && forall j :: 0 <= j < bar ==> d.candles[j].time == d.signals[j].ts
  {
    hide StateAt, MetricsOf, ClosedTrade, Fee, ExitPriceFor;
    if |d.candles| != |d.signals| {
      return Err(LengthMismatch(|d.candles|, |d.signals|));
    }
    var minBars := cfg.warmupBars + cfg.holdingBars + 2;
    if |d.candles| < minBars {
      return Err(TooFewBars(minBars, |d.candles|));
    }
    for i := 0 to |d.candles|
      invariant forall j :: 0 <= j < i ==> d.candles[j].time == d.signals[j].ts
    {
      if d.candles[i].time != d.signals[i].ts {
        return Err(TimestampMismatch(i));
      }
    }

    var position, trades, cumulativePnL, totalFees, barsInMarket, curve := Simulate(cfg, d);
    if position.Some? {
      var p := position.value;
      var last := d.candles[|d.candles| - 1];
      var t, fee := CloseTrade(
        cfg, p, |d.candles| - 1, last.time, ExitPriceFor(last.close, p.direction, cfg.slippage), EndOfData);
      totalFees := totalFees + fee;
      trades := trades + [t];
      cumulativePnL := cumulativePnL + t.pnl;
      barsInMarket := barsInMarket + p.holdingBars;
    }
    assert trades == FinalState(cfg, d).trades;
    var metrics := CalculateMetrics(trades, cfg.initialCapital, |d.candles| - cfg.warmupBars, barsInMarket, totalFees);
    return Ok(Summary(trades, metrics, curve));
  }
}
