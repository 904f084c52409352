/** What one poll of the paper trader does, read off the account, the candle and the reading
    alone: when it opens, when it closes, and every number it books. */
module PaperOutcomes {
  import opened Numeric
  import opened MarketData
  import opened TradeGate
  import opened PaperTypes
  import opened PaperEngine
  import opened PaperLedger

  ghost predicate WantsLong(cfg: PaperConfig, r: Reading) {
    r.tech.Val? && r.tech.v >= cfg.longThreshold
  }

  ghost predicate WantsShort(cfg: PaperConfig, r: Reading) {
    r.tech.Val? && r.tech.v <= cfg.shortThreshold && r.tech.v < cfg.longThreshold
  }

  lemma SideMeans(cfg: PaperConfig, r: Reading)
    ensures var side := DecideDirection(r.tech, cfg.longThreshold, cfg.shortThreshold);
            (side == Long <==> WantsLong(cfg, r)) && (side == Short <==> WantsShort(cfg, r))
  {
  }

  /** The poll brings a candle not seen before. */
  ghost predicate BringsBar(a: Account, tick: Tick) {
    tick.candle.Some? && a.lastBar != Some(tick.candle.value.time)
  }

  // ---- Closing ----

  /** The bars the open position has been held, this one included. */
  ghost function HeldNow(a: Account): int
    requires a.position.Some?
  {
    a.position.value.barsHeld + if a.lastBar.Some? then 1 else 0
  }

  ghost predicate Reaches(p: Position, c: Candle) {
    (p.side == Long && c.low <= p.stopPrice) || (p.side == Short && c.high >= p.stopPrice)
  }

  /** Why a bar with a reading closes a position: its stop, its holding limit, or a signal for
      the other side, the first of them that applies. */
  ghost predicate ClosesFor(
      cfg: PaperConfig, p: Position, held: int, c: Candle, r: Reading, reason: ExitReason) {
    var opposite := (WantsLong(cfg, r) && p.side != Long) || (WantsShort(cfg, r) && p.side != Short);
    match reason
    case StopLoss => Reaches(p, c)
    case MaxHold => !Reaches(p, c) && held >= cfg.holdingBars
    case OppositeSignal => !Reaches(p, c) && held < cfg.holdingBars && opposite
  }

  ghost predicate Closes(cfg: PaperConfig, p: Position, held: int, c: Candle, r: Reading) {
    || Reaches(p, c) || held >= cfg.holdingBars
    || (WantsLong(cfg, r) && p.side != Long) || (WantsShort(cfg, r) && p.side != Short)
  }

  /** The price of the fill: the stop, or the close moved by the slippage, and that moved by the
      slippage once more; down for a long, up for a short. */
  ghost predicate FilledAt(cfg: PaperConfig, p: Position, c: Candle, reason: ExitReason, price: real) {
    var slip := if p.side == Long then 1.0 - cfg.slippage else 1.0 + cfg.slippage;
    && (p.side != NoSide && reason == StopLoss ==> price == p.stopPrice * slip)
    && (p.side != NoSide && reason != StopLoss ==> price == c.close * slip * slip)
    && (p.side == NoSide ==> price == 0.0)
  }

  lemma ExitMeans(cfg: PaperConfig, p: Position, c: Candle, r: Reading)
    ensures var exit := ExitOf(cfg, p, c, DecideDirection(r.tech, cfg.longThreshold, cfg.shortThreshold));
            && (exit.Some? <==> Closes(cfg, p, p.barsHeld, c, r))
            && (forall reason :: exit.Some? && exit.value.1 == reason <==> ClosesFor(cfg, p, p.barsHeld, c, r, reason))
            && (exit.Some? ==>
                  FilledAt(cfg, p, c, exit.value.1, SimulateExit(cfg, exit.value.0, p.quantity, p.side).price))
  {
    SideMeans(cfg, r);
  }

  /** Noting a bar while a position is open: it ages, and nothing else of the money changes. */
  lemma NotedHolding(a: Account, c: Candle, faults: Faults)
    requires a.position.Some?
    ensures var b, p := BarNoted(a, c, faults), a.position.value.(barsHeld := HeldNow(a));
            && b == a.(lastBar := Some(c.time), barCount := a.barCount + 1, gate := b.gate, db := b.db,
                       position := Some(p))
            && b.db.trades == a.db.trades && |b.db.positions| == |a.db.positions|
            && b.gate == (if a.lastBar.Some? then BarPassed(a.gate) else a.gate)
            && (forall k :: 0 <= k < |a.db.positions| ==>
                  var older, newer := a.db.positions[k], b.db.positions[k];
                  && newer.open == older.open
                  && newer.position ==
                     if k == p.id && a.lastBar.Some? && !faults.bars then older.position.(barsHeld := p.barsHeld)
                     else older.position)
  {
    hide DayPnl, DayCount;
  }

  lemma AgeIgnored(cfg: PaperConfig, p: Position, held: int, c: Candle, r: Reading)
    ensures Closes(cfg, p.(barsHeld := held), held, c, r) == Closes(cfg, p, held, c, r)
    ensures forall reason ::
              ClosesFor(cfg, p.(barsHeld := held), held, c, r, reason) == ClosesFor(cfg, p, held, c, r, reason)
  {
  }

  lemma PositionGone(cfg: PaperConfig, b: Account, p: Position, c: Candle, side: Side, faults: Faults)
    ensures Managed(cfg, b, p, c, side, faults).position.None? <==> ExitOf(cfg, p, c, side).Some?
  {
    hide ExitOf, NetPnl, SimulateExit, CloseStored, DrawdownReached, PnlUpdated, TradeClosed, Trailed, Unrealised, Plus;
  }

  /** On which polls an open position is closed. */
  lemma ClosesExactly(cfg: PaperConfig, a: Account, tick: Tick)
    requires a.position.Some?
    ensures AfterTick(cfg, a, tick).position.None? <==>
            && BringsBar(a, tick) && tick.reading.Some?
            && Closes(cfg, a.position.value, HeldNow(a), tick.candle.value, tick.reading.value)
  {
    hide BarNoted, ExitOf, DecideDirection, PositionClosed, Trailed, Unrealised, ClosesFor, Closes, FilledAt;
    if BringsBar(a, tick) {
      var c := tick.candle.value;
      NotedHolding(a, c, tick.faults);
      if tick.reading.Some? {
        var p := a.position.value.(barsHeld := HeldNow(a));
        ExitMeans(cfg, p, c, tick.reading.value);
        AgeIgnored(cfg, a.position.value, HeldNow(a), c, tick.reading.value);
        PositionGone(cfg, BarNoted(a, c, tick.faults), p, c,
                     DecideDirection(tick.reading.value.tech, cfg.longThreshold, cfg.shortThreshold), tick.faults);
      }
    }
  }

  /** The net PnL of a close at `price`: the move on the quantity, less the fee paid on entry and
      the one on exit; nothing where that is undefined. */
  ghost predicate NetOf(cfg: PaperConfig, p: Position, price: real, net: real) {
    var defined := p.quantity.Val? && p.entryFee.Val? && (p.side == NoSide || p.entryPrice != 0.0);
    && (!defined ==> net == 0.0)
    && (defined ==>
          var fees := p.entryFee.v + p.quantity.v * cfg.commission;
          match p.side
          case Long => (net + fees) * p.entryPrice == p.quantity.v * (price - p.entryPrice)
          case Short => (net + fees) * p.entryPrice == p.quantity.v * (p.entryPrice - price)
          case NoSide => net + fees == 0.0)
  }

  lemma ShareOfMove(move: real, entry: real, quantity: real, net: real, fees: real)
    requires entry != 0.0 && net == move / entry * quantity - fees
    ensures (net + fees) * entry == quantity * move
  {
    var q := move / entry;
    assert q * entry == move;
    assert (q * quantity) * entry == quantity * (q * entry);
  }

  lemma NetMeans(cfg: PaperConfig, p: Position, exit: Fill)
    requires exit.commission == Times(p.quantity, Val(cfg.commission))
    ensures NetOf(cfg, p, exit.price, NetPnl(cfg, p, exit))
  {
    if p.quantity.Val? && p.entryFee.Val? && p.side != NoSide && p.entryPrice != 0.0 {
      var fees := p.entryFee.v + p.quantity.v * cfg.commission;
      var move := if p.side == Long then exit.price - p.entryPrice else p.entryPrice - exit.price;
      ShareOfMove(move, p.entryPrice, p.quantity.v, NetPnl(cfg, p, exit), fees);
    }
  }

  /** A PnL that reaches a loss limit in percent of the starting capital. */
  ghost predicate ReachesLimit(cfg: PaperConfig, pnl: real, limitPct: real) {
    var capital := cfg.initialCapital;
    && (capital > 0.0 ==> 100.0 * pnl <= -limitPct * capital)
    && (capital < 0.0 ==> 100.0 * pnl >= -limitPct * capital)
    && (capital == 0.0 ==> pnl < 0.0)
  }

  lemma DrawdownMeans(cfg: PaperConfig, pnl: real, limitPct: real)
    ensures DrawdownReached(cfg, pnl, limitPct) == ReachesLimit(cfg, pnl, limitPct)
  {
    var capital := cfg.initialCapital;
    if capital != 0.0 {
      var q := pnl / capital;
      assert q * capital == pnl;
      assert (q * 100.0) * capital == 100.0 * pnl;
      if capital > 0.0 {
        MulStrict(capital, q * 100.0, -limitPct);
      } else {
        MulStrict(-capital, q * 100.0, -limitPct);
        assert (q * 100.0) * -capital == -(100.0 * pnl) && -limitPct * -capital == -(-limitPct * capital);
      }
    }
  }

  /** The trade's row, as recorded. */
  ghost predicate Records(
      cfg: PaperConfig, p: Position, held: int, price: real, net: real, reason: ExitReason, t: TradeRow)
  {
    && t.entryDay == p.openTime / 86400000 && t.side == p.side && t.entryPrice == p.entryPrice
    && t.exitPrice == price && t.size == p.quantity && t.netPnl == net && t.holdingBars == held && t.reason == reason
    && (p.quantity.Val? && p.entryFee.Val? ==> t.commission == Val(p.entryFee.v + p.quantity.v * cfg.commission))
  }

  /** What a close does to the tables: a trade row, and the position's row is no longer open, each
      unless its statement fails. */
  ghost predicate TablesClosed(
      cfg: PaperConfig, before: Db, p: Position, held: int, faults: Faults, price: real, net: real,
      reason: ExitReason, after: Db)
  {
    && |after.positions| == |before.positions|
    && (p.id < |before.positions| ==>
          after.positions[p.id].open == (faults.close && before.positions[p.id].open))
    && (forall k :: 0 <= k < |before.positions| && k != p.id ==> after.positions[k] == before.positions[k])
    && (if faults.trade then after.trades == before.trades
        else
          && |after.trades| == |before.trades| + 1 && after.trades[..|before.trades|] == before.trades
          && Records(cfg, p, held, price, net, reason, after.trades[|before.trades|]))
  }

  /** What a close does to the account and its tables. */
  ghost predicate Closed(
      cfg: PaperConfig, a: Account, faults: Faults, price: real, net: real, reason: ExitReason, z: Account)
    requires a.position.Some?
  {
    var p := a.position.value;
    && z.position.None? && |z.closed| == |a.closed| + 1 && z.closed[|a.closed|].netPnl == net
    && z.totalPnL == a.totalPnL + net && z.dayPnL == a.dayPnL + net && z.dayTrades == a.dayTrades + 1
    && (z.balance.Val? <==> a.balance.Val? && p.quantity.Val?)
    && (z.balance.Val? ==> z.balance.v == a.balance.v + net + p.quantity.v)
    && z.equity == z.balance
    && z.gate.state == Cooldown && z.gate.cooldown == cfg.gate.cooldownBars
    && z.gate.tradeCount == a.gate.tradeCount && z.gate.dayPnl == a.gate.dayPnl + net
    && z.stopped == (a.stopped || ReachesLimit(cfg, z.dayPnL, cfg.maxDailyDrawdownPct)
                     || ReachesLimit(cfg, z.totalPnL, cfg.maxTotalDrawdownPct))
    && TablesClosed(cfg, a.db, p, HeldNow(a), faults, price, net, reason, z.db)
  }

  lemma StoringCloses(
      cfg: PaperConfig, before: Db, noted: Db, p: Position, held: int, fill: Fill, net: real, reason: ExitReason,
      faults: Faults)
    requires noted.trades == before.trades && |noted.positions| == |before.positions|
    requires forall k :: 0 <= k < |before.positions| ==>
               && (k != p.id ==> noted.positions[k] == before.positions[k])
               && noted.positions[k].open == before.positions[k].open
    requires fill.commission == Times(p.quantity, Val(cfg.commission))
    ensures TablesClosed(cfg, before, p, held, faults, fill.price, net, reason,
                         CloseStored(noted, p.(barsHeld := held), fill, net, reason, faults))
  {
  }

  lemma BookingCloses(cfg: PaperConfig, a: Account, b: Account, faults: Faults, asked: real, reason: ExitReason)
    requires a.position.Some?
    requires var p := a.position.value.(barsHeld := HeldNow(a));
             b == a.(lastBar := b.lastBar, barCount := b.barCount, gate := b.gate, db := b.db, position := Some(p))
    requires b.gate == (if a.lastBar.Some? then BarPassed(a.gate) else a.gate)
    requires var p := b.position.value;
             var fill := SimulateExit(cfg, asked, p.quantity, p.side);
             var net := NetPnl(cfg, p, fill);
             TablesClosed(cfg, a.db, a.position.value, HeldNow(a), faults, fill.price, net, reason,
                          CloseStored(b.db, p, fill, net, reason, faults))
    ensures var p := b.position.value;
            var fill := SimulateExit(cfg, asked, p.quantity, p.side);
            Closed(cfg, a, faults, fill.price, NetPnl(cfg, p, fill), reason,
                   PositionClosed(cfg, b, p, asked, reason, faults))
  {
    hide NetPnl, SimulateExit, CloseStored, TablesClosed, DrawdownReached, ReachesLimit, Breaches;
    var p := b.position.value;
    var z := PositionClosed(cfg, b, p, asked, reason, faults);
    DrawdownMeans(cfg, z.dayPnL, cfg.maxDailyDrawdownPct);
    DrawdownMeans(cfg, z.totalPnL, cfg.maxTotalDrawdownPct);
  }

  lemma FeeOfFill(cfg: PaperConfig, price: real, size: Num, side: Side)
    ensures SimulateExit(cfg, price, size, side).commission == Times(size, Val(cfg.commission))
  {
  }

  lemma AgeOfNoMatter(
      cfg: PaperConfig, p: Position, held: int, c: Candle, reason: ExitReason, price: real, net: real)
    ensures NetOf(cfg, p.(barsHeld := held), price, net) == NetOf(cfg, p, price, net)
    ensures FilledAt(cfg, p.(barsHeld := held), c, reason, price) == FilledAt(cfg, p, c, reason, price)
  {
  }

  /** Every close: for its reason, at its price, with the net PnL these give, booked to the
      account and recorded in the tables. */
  lemma CloseBooks(cfg: PaperConfig, a: Account, tick: Tick) returns (reason: ExitReason, price: real, net: real)
    requires a.position.Some? && AfterTick(cfg, a, tick).position.None?
    ensures tick.candle.Some? && tick.reading.Some?
    ensures ClosesFor(cfg, a.position.value, HeldNow(a), tick.candle.value, tick.reading.value, reason)
    ensures FilledAt(cfg, a.position.value, tick.candle.value, reason, price)
    ensures NetOf(cfg, a.position.value, price, net)
    ensures Closed(cfg, a, tick.faults, price, net, reason, AfterTick(cfg, a, tick))
  {
    hide BarNoted, ExitOf, DecideDirection, PositionClosed, Trailed, Unrealised, ClosesFor, Closes, FilledAt;
    hide NetOf, Closed, TablesClosed, NetPnl, SimulateExit, CloseStored, BarPassed;
    ClosesExactly(cfg, a, tick);
    var c, r := tick.candle.value, tick.reading.value;
    NotedHolding(a, c, tick.faults);
    var b, p := BarNoted(a, c, tick.faults), a.position.value.(barsHeld := HeldNow(a));
    var side := DecideDirection(r.tech, cfg.longThreshold, cfg.shortThreshold);
    ExitMeans(cfg, p, c, r);
    AgeIgnored(cfg, a.position.value, HeldNow(a), c, r);
    PositionGone(cfg, b, p, c, side, tick.faults);
    var exit := ExitOf(cfg, p, c, side).value;
    reason := exit.1;
    var fill := SimulateExit(cfg, exit.0, p.quantity, p.side);
    price, net := fill.price, NetPnl(cfg, p, fill);
    FeeOfFill(cfg, exit.0, p.quantity, p.side);
    StoringCloses(cfg, a.db, b.db, a.position.value, HeldNow(a), fill, net, reason, tick.faults);
    BookingCloses(cfg, a, b, tick.faults, exit.0, reason);
    NetMeans(cfg, p, fill);
    AgeOfNoMatter(cfg, a.position.value, HeldNow(a), c, reason, price, net);
  }

  // ---- Holding ----

  /** The stop a bar leaves: that of a long rises to close * (1 - multiplier * close) if that is
      above it, where a close that is not positive counts as a hundredth in the product. */
  ghost predicate TrailsTo(cfg: PaperConfig, p: Position, close: real, stop: real) {
    var level := close * (1.0 - cfg.atrMultiplier * (if close <= 0.0 then 0.01 else close));
    stop == if p.side == Long && level > p.stopPrice then level else p.stopPrice
  }

  /** The equity is the balance and the move in the position's favour on its quantity. */
  ghost predicate MarkedTo(p: Position, balance: Num, close: real, equity: Num) {
    && (equity.Val? <==> balance.Val? && (p.side == NoSide || (p.quantity.Val? && p.entryPrice != 0.0)))
    && (equity.Val? ==>
          match p.side
          case Long => (equity.v - balance.v) * p.entryPrice == p.quantity.v * (close - p.entryPrice)
          case Short => (equity.v - balance.v) * p.entryPrice == p.quantity.v * (p.entryPrice - close)
          case NoSide => equity.v == balance.v)
  }

  lemma MarkMeans(p: Position, balance: Num, close: real)
    ensures MarkedTo(p, balance, close, Plus(balance, Unrealised(p, close)))
  {
    if balance.Val? && p.side != NoSide && p.quantity.Val? && p.entryPrice != 0.0 {
      var move := if p.side == Long then close - p.entryPrice else p.entryPrice - close;
      ShareOfMove(move, p.entryPrice, p.quantity.v, Unrealised(p, close).v, 0.0);
      assert Plus(balance, Unrealised(p, close)).v - balance.v == Unrealised(p, close).v;
    }
  }

  lemma TrailMeans(cfg: PaperConfig, p: Position, close: real)
    ensures Trailed(cfg, p, close) == p.(stopPrice := Trailed(cfg, p, close).stopPrice)
    ensures TrailsTo(cfg, p, close, Trailed(cfg, p, close).stopPrice)
  {
  }

  lemma MarkIgnores(aged: Position, p: Position, q: Position, balance: Num, close: real, cfg: PaperConfig)
    requires aged == p.(barsHeld := aged.barsHeld) && q == aged.(stopPrice := q.stopPrice)
    ensures forall equity :: MarkedTo(q, balance, close, equity) == MarkedTo(p, balance, close, equity)
    ensures forall stop :: TrailsTo(cfg, aged, close, stop) == TrailsTo(cfg, p, close, stop)
  {
  }

  /** A poll that leaves an open position open: a new bar ages it, and one with a reading trails
      its stop and marks the account to its close; the realised money stays as it is. */
  lemma HoldKeeps(cfg: PaperConfig, a: Account, tick: Tick)
    requires a.position.Some? && AfterTick(cfg, a, tick).position.Some?
    ensures !BringsBar(a, tick) ==> AfterTick(cfg, a, tick) == a
    ensures BringsBar(a, tick) ==>
              var z, p, c := AfterTick(cfg, a, tick), a.position.value, tick.candle.value;
              var q := z.position.value;
              && q == p.(barsHeld := HeldNow(a), stopPrice := q.stopPrice)
              && z == a.(lastBar := Some(c.time), barCount := a.barCount + 1, gate := z.gate, db := z.db,
                         position := Some(q), equity := z.equity)
              && z.db.trades == a.db.trades
              && (tick.reading.None? ==> q.stopPrice == p.stopPrice && z.equity == a.equity)
              && (tick.reading.Some? ==>
                    TrailsTo(cfg, p, c.close, q.stopPrice) && MarkedTo(p, a.balance, c.close, z.equity))
  {
    hide BarNoted, ExitOf, DecideDirection, PositionClosed, Unrealised, TrailStop, MarkedTo, TrailsTo, BarPassed, Plus;
    if BringsBar(a, tick) {
      var c := tick.candle.value;
      NotedHolding(a, c, tick.faults);
      if tick.reading.Some? {
        var b, p := BarNoted(a, c, tick.faults), a.position.value.(barsHeld := HeldNow(a));
        var side := DecideDirection(tick.reading.value.tech, cfg.longThreshold, cfg.shortThreshold);
        PositionGone(cfg, b, p, c, side, tick.faults);
        TrailMeans(cfg, p, c.close);
        MarkMeans(Trailed(cfg, p, c.close), a.balance, c.close);
        MarkIgnores(p, a.position.value, Trailed(cfg, p, c.close), a.balance, c.close, cfg);
      }
    }
  }

  // ---- Opening ----

  /** A new bar of another day, on a flat account that has seen a bar before. */
  ghost predicate StartsDay(a: Account, tick: Tick) {
    && BringsBar(a, tick) && a.lastBar.Some? && a.position.None?
    && a.currentDay != Some(tick.candle.value.time / 86400000)
  }

  /** The scores, the probability and the regime let the signal through. */
  ghost predicate Convinces(cfg: PaperConfig, r: Reading, blend: real) {
    && BlendsTo(cfg.gate, r.tech, r.orderFlow, r.regime, blend)
    && blend >= 60.0 && r.mlProb >= cfg.gate.metaModelThreshold
    && r.regimeLabel != RangingLowVol && r.regimeLabel != Unknown
  }

  /** The gate lets something through on this poll. */
  ghost predicate GateOpen(cfg: PaperConfig, a: Account, tick: Tick) {
    && (|| a.gate.state == Idle
        || (a.gate.state == Cooldown && a.gate.cooldown <= 1)
        || (a.gate.state == Stopped && StartsDay(a, tick)))
    && (if StartsDay(a, tick) then 0 else a.gate.tradeCount) < cfg.gate.maxTradesPerDay
  }

  /** There is a size to open with: an undefined equity passes every guard. */
  ghost predicate Affords(cfg: PaperConfig, a: Account, c: Candle) {
    && c.close > 0.0 && cfg.atrMultiplier > 0.0
    && (a.equity.Val? ==> a.equity.v > 0.0 && cfg.riskPerTradePct > 0.0)
  }

  /** The share of the full size a signal is given. */
  ghost predicate GivenShare(blend: real, regimeLabel: RegimeLabel, share: real) {
    var tier := if blend >= 80.0 then 1.0 else if blend >= 70.0 then 0.5 else 0.25;
    && (regimeLabel == TrendingLowVol ==> share == tier)
    && (regimeLabel == TrendingHighVol ==> share == 0.75 * tier)
    && (regimeLabel == RangingHighVol ==> share == 0.25 * tier)
    && (regimeLabel == OtherRegime ==> share == 0.0)
  }

  lemma SameBlends(cfg: PaperConfig, r: Reading)
    ensures forall blend ::
              BlendsTo(cfg.GateSettings(), r.tech, r.orderFlow, r.regime, blend)
              == BlendsTo(cfg.gate, r.tech, r.orderFlow, r.regime, blend)
    ensures forall blend :: BlendsTo(cfg.gate, r.tech, r.orderFlow, r.regime, blend) ==>
              r.tech.Val? && r.orderFlow.Val? && r.regime.Val?
  {
  }

  lemma GatePasses(cfg: PaperConfig, g: GateVal, r: Reading)
    ensures var out := EvaluateGate(cfg.GateSettings(), g, GateInput(r));
            && (out.decision != NoTrade <==>
                  && g.state == Idle && g.tradeCount < cfg.gate.maxTradesPerDay
                  && exists blend :: Convinces(cfg, r, blend))
            && (out.decision != NoTrade ==>
                  forall blend :: Convinces(cfg, r, blend) ==> GivenShare(blend, r.regimeLabel, out.sizeMultiplier))
  {
    hide EvaluateGate, BlendsTo;
    var blend := GateAnswers(cfg.GateSettings(), g, GateInput(r));
    SameBlends(cfg, r);
    if r.tech.Val? && r.orderFlow.Val? && r.regime.Val? {
      BlendIsUnique(cfg.gate, r.tech, r.orderFlow, r.regime, blend);
      assert EvaluateGate(cfg.GateSettings(), g, GateInput(r)).decision != NoTrade ==> Convinces(cfg, r, blend);
    }
  }

  /** Noting a bar on a flat account. */
  lemma NotedFlat(a: Account, tick: Tick)
    requires a.position.None? && BringsBar(a, tick)
    ensures var b, c := BarNoted(a, tick.candle.value, tick.faults), tick.candle.value;
            && b == a.(lastBar := Some(c.time), barCount := a.barCount + 1, gate := b.gate, stopped := b.stopped,
                       dayPnL := b.dayPnL, dayTrades := b.dayTrades, currentDay := b.currentDay)
            && b.stopped == (a.stopped && !StartsDay(a, tick))
            && b.gate.tradeCount == (if StartsDay(a, tick) then 0 else a.gate.tradeCount)
            && (a.lastBar.Some? ==>
                  (b.gate.state == Idle <==>
                     || a.gate.state == Idle || (a.gate.state == Cooldown && a.gate.cooldown <= 1)
                     || (a.gate.state == Stopped && StartsDay(a, tick))))
            && (!StartsDay(a, tick) ==>
                  b.dayPnL == a.dayPnL && b.dayTrades == a.dayTrades && b.currentDay == a.currentDay)
            && (StartsDay(a, tick) ==>
                  && b.currentDay == Some(c.time / 86400000) && b.gate.dayPnl == b.dayPnL
                  && b.dayPnL == (if tick.faults.stats then a.dayPnL else DayPnl(a.db.trades, c.time / 86400000))
                  && b.dayTrades == if tick.faults.stats then 0 else DayCount(a.db.trades, c.time / 86400000))
  {
    hide DayPnl, DayCount;
  }

  /** The ATR an entry is sized with, and the distance of its stop. */
  ghost predicate IsDistance(cfg: PaperConfig, atr: real, close: real, distance: real) {
    distance == (if atr <= 0.0 then close * 0.01 else atr) * cfg.atrMultiplier
  }

  /** The filled size: at the stop's distance it risks the configured percentage of the equity,
      times the signal's share. */
  ghost predicate SizedTo(cfg: PaperConfig, equity: Num, distance: real, share: real, size: Num) {
    && (size.Val? <==> equity.Val?)
    && (size.Val? ==> size.v * distance == equity.v * (cfg.riskPerTradePct / 100.0) * share)
  }

  lemma ScaledSize(size: real, distance: real, risk: real, share: real)
    requires size * distance == risk
    ensures (size * share) * distance == risk * share
  {
    assert (size * share) * distance == (size * distance) * share;
  }

  lemma NoSizeWithoutRisk(equity: real, distance: real, fraction: real)
    requires equity > 0.0 && distance > 0.0 && fraction <= 0.0
    ensures equity * fraction / distance <= 0.0
  {
    MulNonneg(equity, -fraction);
    assert equity * -fraction == -(equity * fraction);
    var q := equity * fraction / distance;
    assert q * distance == equity * fraction;
    MulStrict(distance, q, 0.0);
  }

  lemma SizeMeans(cfg: PaperConfig, equity: Num, close: real, atr: real, distance: real, share: real)
    requires IsDistance(cfg, atr, close, distance)
    ensures var used := UsedAtr(atr, close);
            var size := CalcPositionSize(equity, close, used, cfg.atrMultiplier, cfg.riskPerTradePct);
            && (!AtMost(size, Val(0.0)) <==>
                  && close > 0.0 && cfg.atrMultiplier > 0.0
                  && (equity.Val? ==> equity.v > 0.0 && cfg.riskPerTradePct > 0.0))
            && (!AtMost(size, Val(0.0)) ==> SizedTo(cfg, equity, distance, share, Times(size, Val(share))))
  {
    var used := UsedAtr(atr, close);
    if close > 0.0 {
      assert used > 0.0;
      if cfg.atrMultiplier > 0.0 {
        MulPositive(used, cfg.atrMultiplier);
      } else {
        MulNonneg(used, -cfg.atrMultiplier);
        assert used * -cfg.atrMultiplier == -(used * cfg.atrMultiplier);
      }
    }
    if close > 0.0 && cfg.atrMultiplier > 0.0 && equity.Val? && equity.v > 0.0 {
      var size := CalcPositionSize(equity, close, used, cfg.atrMultiplier, cfg.riskPerTradePct);
      if cfg.riskPerTradePct > 0.0 {
        SizeRisksFraction(equity.v, close, used, cfg.atrMultiplier, cfg.riskPerTradePct);
        ScaledSize(size.v, distance, equity.v * (cfg.riskPerTradePct / 100.0), share);
      } else {
        NoSizeWithoutRisk(equity.v, used * cfg.atrMultiplier, cfg.riskPerTradePct / 100.0);
      }
    }
  }

  /** On which polls a flat account opens a position. */
  ghost predicate Opens(cfg: PaperConfig, a: Account, tick: Tick) {
    && BringsBar(a, tick) && a.lastBar.Some? && tick.reading.Some?
    && (a.stopped ==> StartsDay(a, tick))
    && (WantsLong(cfg, tick.reading.value) || WantsShort(cfg, tick.reading.value))
    && GateOpen(cfg, a, tick)
    && (exists blend :: Convinces(cfg, tick.reading.value, blend))
    && Affords(cfg, a, tick.candle.value)
    && !tick.faults.order && !tick.faults.position
  }

  lemma DistanceOf(cfg: PaperConfig, atr: real, close: real) returns (distance: real)
    ensures IsDistance(cfg, atr, close, distance) && distance == StopDistance(cfg, atr, close)
    ensures forall other :: IsDistance(cfg, atr, close, other) ==> other == distance
  {
    distance := StopDistance(cfg, atr, close);
  }

  lemma EntrySizeMeans(cfg: PaperConfig, b: Account, c: Candle, r: Reading)
    ensures EntrySize(cfg, b, c, r).Some? <==>
              && b.gate.state == Idle && b.gate.tradeCount < cfg.gate.maxTradesPerDay
              && (exists blend :: Convinces(cfg, r, blend)) && Affords(cfg, b, c)
    ensures EntrySize(cfg, b, c, r).Some? ==>
              forall blend, distance :: Convinces(cfg, r, blend) && IsDistance(cfg, r.atr, c.close, distance) ==>
                var share := EvaluateGate(cfg.GateSettings(), b.gate, GateInput(r)).sizeMultiplier;
                && GivenShare(blend, r.regimeLabel, share)
                && SizedTo(cfg, b.equity, distance, share, EntrySize(cfg, b, c, r).value)
  {
    hide EvaluateGate, Convinces, GivenShare, SizedTo, CalcPositionSize, AtMost, UsedAtr, IsDistance, Times;
    GatePasses(cfg, b.gate, r);
    var distance := DistanceOf(cfg, r.atr, c.close);
    var share := EvaluateGate(cfg.GateSettings(), b.gate, GateInput(r)).sizeMultiplier;
    SizeMeans(cfg, b.equity, c.close, r.atr, distance, share);
  }

  lemma OpensExactly(cfg: PaperConfig, a: Account, tick: Tick)
    requires a.position.None?
    ensures AfterTick(cfg, a, tick).position.Some? <==> Opens(cfg, a, tick)
  {
    hide BarNoted, EntrySize, DecideDirection, SimulateEntry, Opening, Convinces, StartsDay;
    if BringsBar(a, tick) {
      NotedFlat(a, tick);
      if tick.reading.Some? {
        SideMeans(cfg, tick.reading.value);
        var b := BarNoted(a, tick.candle.value, tick.faults);
        EntrySizeMeans(cfg, b, tick.candle.value, tick.reading.value);
        assert Affords(cfg, b, tick.candle.value) == Affords(cfg, a, tick.candle.value);
      }
    }
  }

  /** The slippage of the fill: a size above one percent of the bar's volume pays a premium, in
      proportion to it, up to twice the base. */
  ghost predicate Slips(cfg: PaperConfig, size: Num, volume: real, slip: real) {
    && (volume <= 0.0 || size.NaN? || size.v <= 0.01 * volume ==> slip == cfg.slippage)
    && (volume > 0.0 && size.Val? && 0.01 * volume < size.v <= 0.02 * volume ==>
          (slip - cfg.slippage) * (0.01 * volume) == cfg.slippage * size.v)
    && (volume > 0.0 && size.Val? && size.v > 0.02 * volume ==> slip == 3.0 * cfg.slippage)
  }

  lemma PremiumMeans(base: real, q: real, unit: real, size: real)
    requires unit > 0.0 && q * unit == size
    ensures size <= 2.0 * unit ==> q <= 2.0 && (base + base * MinReal(q, 2.0) - base) * unit == base * size
    ensures size > 2.0 * unit ==> q > 2.0 && base + base * MinReal(q, 2.0) == 3.0 * base
  {
    MulStrict(unit, q, 2.0);
    MulStrict(unit, 2.0, q);
    assert (base * q) * unit == base * (q * unit);
  }

  lemma SlippageMeans(cfg: PaperConfig, size: Num, volume: real)
    ensures Slips(cfg, size, volume, EntrySlippage(size, cfg.slippage, volume))
  {
    if volume > 0.0 && size.Val? && size.v > 0.01 * volume {
      var unit := volume * 0.01;
      PremiumMeans(cfg.slippage, size.v / unit, unit, size.v);
      hide MinReal;
    }
  }

  /** The position opened: its side from the score, its price from the close and the slippage,
      its stop at the distance, its fee the rate on the size, its quantity the size again where
      the rate is not zero. */
  ghost predicate OpenedAs(
      cfg: PaperConfig, c: Candle, r: Reading, size: Num, distance: real, slip: real, p: Position)
  {
    && (p.side == Long <==> WantsLong(cfg, r)) && (p.side == Short <==> WantsShort(cfg, r)) && p.side != NoSide
    && Slips(cfg, size, c.volume, slip)
    && p.entryPrice == (if p.side == Long then c.close * (1.0 + slip) else c.close * (1.0 - slip))
    && p.stopPrice == (if p.side == Long then p.entryPrice - distance else p.entryPrice + distance)
    && (p.entryFee.Val? <==> size.Val?) && (size.Val? ==> p.entryFee.v == size.v * cfg.commission)
    && (p.quantity.Val? <==> size.Val? && cfg.commission != 0.0) && (p.quantity.Val? ==> p.quantity == size)
    && p.openTime == c.time && p.barsHeld == 0
  }

  lemma OpeningMeans(cfg: PaperConfig, b: Account, c: Candle, r: Reading, size: Num, side: Side)
    returns (distance: real, slip: real)
    requires side == DecideDirection(r.tech, cfg.longThreshold, cfg.shortThreshold) && side != NoSide
    ensures IsDistance(cfg, r.atr, c.close, distance)
    ensures OpenedAs(cfg, c, r, size, distance, slip,
                     Opening(cfg, b, c, SimulateEntry(cfg, c.close, size, side, c.volume), side, r.atr))
  {
    hide EntrySlippage, DecideDirection, StopDistance, Slips;
    SideMeans(cfg, r);
    distance := DistanceOf(cfg, r.atr, c.close);
    slip := EntrySlippage(size, cfg.slippage, c.volume);
    SlippageMeans(cfg, size, c.volume);
    if size.Val? && cfg.commission != 0.0 {
      QuotientOfProduct(size.v, cfg.commission);
    }
  }

  lemma OpenedDefined(
      cfg: PaperConfig, c: Candle, r: Reading, size: Num, distance: real, slip: real, p: Position)
    requires OpenedAs(cfg, c, r, size, distance, slip, p)
    ensures p.entryFee.Val? <==> size.Val?
  {
  }

  /** Every open: the size from the equity, the signal's share and the distance; the position;
      the balance pays the fee, the gate counts the trade, and the row is stored. */
  lemma OpenBooks(cfg: PaperConfig, a: Account, tick: Tick)
    returns (blend: real, share: real, distance: real, size: Num, slip: real)
    requires a.position.None? && AfterTick(cfg, a, tick).position.Some?
    ensures tick.candle.Some? && tick.reading.Some?
    ensures Convinces(cfg, tick.reading.value, blend) && GivenShare(blend, tick.reading.value.regimeLabel, share)
    ensures IsDistance(cfg, tick.reading.value.atr, tick.candle.value.close, distance)
    ensures SizedTo(cfg, a.equity, distance, share, size)
    ensures var z, c, r := AfterTick(cfg, a, tick), tick.candle.value, tick.reading.value;
            var p := z.position.value;
            && OpenedAs(cfg, c, r, size, distance, slip, p)
            && (z.balance.Val? <==> a.balance.Val? && size.Val?)
            && (z.balance.Val? ==> z.balance.v == a.balance.v - p.entryFee.v)
            && z.equity == a.equity && z.totalPnL == a.totalPnL && z.closed == a.closed
            && z.gate.state == Idle && z.gate.tradeCount == (if StartsDay(a, tick) then 0 else a.gate.tradeCount) + 1
            && z.db.trades == a.db.trades && z.db.positions == a.db.positions + [PositionRow(p, true)]
            && p.id == |a.db.positions|
  {
    hide BarNoted, EntrySize, DecideDirection, SimulateEntry, Convinces, StartsDay, OpenedAs, GivenShare, SizedTo;
    hide StopDistance, Over, IsDistance, EvaluateGate, Affords;
    OpensExactly(cfg, a, tick);
    NotedFlat(a, tick);
    var c, r := tick.candle.value, tick.reading.value;
    var b := BarNoted(a, c, tick.faults);
    var side := DecideDirection(r.tech, cfg.longThreshold, cfg.shortThreshold);
    EntrySizeMeans(cfg, b, c, r);
    size := EntrySize(cfg, b, c, r).value;
    share := EvaluateGate(cfg.GateSettings(), b.gate, GateInput(r)).sizeMultiplier;
    blend :| Convinces(cfg, r, blend);
    distance, slip := OpeningMeans(cfg, b, c, r, size, side);
    OpenedDefined(cfg, c, r, size, distance, slip, AfterTick(cfg, a, tick).position.value);
  }

  // ---- What the tables add up to ----

  lemma {:induction false} TotalIsSum(trades: seq<TradeRow>)
    ensures var n := |trades|;
            TotalPnl(trades) == Sum(seq(n, k requires 0 <= k < n => trades[k].netPnl), n)
  {
    if trades != [] {
      var n := |trades| - 1;
      TotalIsSum(trades[..n]);
      SumAgrees(seq(n + 1, k requires 0 <= k < n + 1 => trades[k].netPnl),
                seq(n, k requires 0 <= k < n => trades[..n][k].netPnl), n);
    }
  }

  /** `pnl` and `count` are those of the trades entered on `day`. */
  ghost predicate DayAddsUp(trades: seq<TradeRow>, day: int, pnl: real, count: int) {
    var n := |trades|;
    && pnl == Sum(seq(n, k requires 0 <= k < n => if trades[k].entryDay == day then trades[k].netPnl else 0.0), n)
    && count == |set k: nat | k < n && trades[k].entryDay == day|
  }

  lemma {:induction false} DayPnlIsSum(trades: seq<TradeRow>, day: int)
    ensures var n := |trades|;
            DayPnl(trades, day) ==
            Sum(seq(n, k requires 0 <= k < n => if trades[k].entryDay == day then trades[k].netPnl else 0.0), n)
  {
    if trades != [] {
      var n := |trades| - 1;
      DayPnlIsSum(trades[..n], day);
      SumAgrees(
        seq(n + 1, k requires 0 <= k < n + 1 => if trades[k].entryDay == day then trades[k].netPnl else 0.0),
        seq(n, k requires 0 <= k < n => if trades[..n][k].entryDay == day then trades[..n][k].netPnl else 0.0), n);
    }
  }

  lemma {:induction false} DayCountIsSize(trades: seq<TradeRow>, day: int)
    ensures DayCount(trades, day) == |set k: nat | k < |trades| && trades[k].entryDay == day|
  {
    if trades != [] {
      var n := |trades| - 1;
      DayCountIsSize(trades[..n], day);
      var before := set k: nat | k < n && trades[..n][k].entryDay == day;
      assert (set k: nat | k < n + 1 && trades[k].entryDay == day)
             == if trades[n].entryDay == day then before + {n} else before;
    }
  }

  lemma DayIsSum(trades: seq<TradeRow>, day: int)
    ensures DayAddsUp(trades, day, DayPnl(trades, day), DayCount(trades, day))
  {
    hide DayPnl, DayCount;
    DayPnlIsSum(trades, day);
    DayCountIsSize(trades, day);
  }

  lemma NoBarNoDay(a: Account, tick: Tick)
    requires !BringsBar(a, tick)
    ensures !StartsDay(a, tick)
  {
  }

  /** A poll that leaves a flat account flat: the money and the tables stay. */
  lemma FlatKeeps(cfg: PaperConfig, a: Account, tick: Tick)
    requires a.position.None? && AfterTick(cfg, a, tick).position.None?
    ensures !BringsBar(a, tick) ==> AfterTick(cfg, a, tick) == a
    ensures var z := AfterTick(cfg, a, tick);
            && z.balance == a.balance && z.equity == a.equity && z.totalPnL == a.totalPnL
            && z.db == a.db && z.closed == a.closed
            && z.stopped == (a.stopped && !StartsDay(a, tick))
            && (!StartsDay(a, tick) ==> z.dayPnL == a.dayPnL && z.dayTrades == a.dayTrades)
  {
    hide EntrySize, DecideDirection, SimulateEntry, Opening, DayPnl, DayCount, BarNoted, StartsDay;
    if BringsBar(a, tick) {
      NotedFlat(a, tick);
    } else {
      NoBarNoDay(a, tick);
    }
  }

  /** A new day releases the drawdown stop and reloads the day's PnL and count from the trades
      entered on it. */
  lemma DayBegins(cfg: PaperConfig, a: Account, tick: Tick)
    requires StartsDay(a, tick)
    ensures var z, day := AfterTick(cfg, a, tick), tick.candle.value.time / 86400000;
            && z.currentDay == Some(day) && z.gate.dayPnl == z.dayPnL && !z.stopped
            && (tick.faults.stats ==> z.dayPnL == a.dayPnL && z.dayTrades == 0)
            && (!tick.faults.stats ==> DayAddsUp(a.db.trades, day, z.dayPnL, z.dayTrades))
  {
    hide EntrySize, DecideDirection, SimulateEntry, Opening, DayPnl, DayCount, BarNoted, DayAddsUp;
    NotedFlat(a, tick);
    DayIsSum(a.db.trades, tick.candle.value.time / 86400000);
  }

  lemma {:induction false} NewestIsOpen(rows: seq<PositionRow>) returns (k: int)
    ensures OpenPositionOf(rows).None? ==> forall l :: 0 <= l < |rows| ==> !rows[l].open
    ensures OpenPositionOf(rows).Some? ==>
              && 0 <= k < |rows| && rows[k].open && (forall l :: k < l < |rows| ==> !rows[l].open)
              && OpenPositionOf(rows).value == rows[k].position
  {
    k := |rows| - 1;
    if rows != [] && !rows[k].open {
      var n := k;
      k := NewestIsOpen(rows[..n]);
      assert forall l :: 0 <= l < n ==> rows[..n][l] == rows[l];
    }
  }

  /** What a process knows after its recovery: the newest open position, the sum of the trades
      table, and the day's trades, each unless its query fails; a failing position query ends it. */
  lemma RecoveryReads(cfg: PaperConfig, db: Db, today: int, faults: RecoveryFaults)
    ensures var a, rows, n := Recovered(cfg, db, today, faults), db.positions, |db.trades|;
            && a.db == db && a.closed == [] && !a.stopped && a.lastBar.None?
            && a.gate.state == Idle && a.gate.tradeCount == 0 && a.gate.dayPnl == 0.0
            && a.balance == Val(cfg.initialCapital + a.totalPnL) && a.equity == a.balance
            && (faults.open || faults.total ==> a.totalPnL == 0.0)
            && (!faults.open && !faults.total ==>
                  a.totalPnL == Sum(seq(n, k requires 0 <= k < n => db.trades[k].netPnl), n))
            && (faults.open || faults.daily ==> a.dayPnL == 0.0 && a.dayTrades == 0)
            && (!faults.open && !faults.daily ==> DayAddsUp(db.trades, today, a.dayPnL, a.dayTrades))
            && (a.position.Some? <==> !faults.open && exists k :: 0 <= k < |rows| && rows[k].open)
            && (a.position.Some? ==>
                  exists k :: && 0 <= k < |rows| && rows[k].open && (forall l :: k < l < |rows| ==> !rows[l].open)
                              && a.position.value == rows[k].position.(openBar := 0))
  {
    hide TotalPnl, DayPnl, DayCount, OpenPositionOf, DayAddsUp;
    TotalIsSum(db.trades);
    DayIsSum(db.trades, today);
    var newest := NewestIsOpen(db.positions);
  }
}
