/** The paper trader (internal/papertrade/engine.go). `AfterTick` says what one poll does to
    the account; the class does it in place, and is proved to do just that. */
module PaperEngine {
  import opened Numeric
  import opened MarketData
  import opened TradeGate
  import opened PaperTypes

  /** A position already closed by this process: its row, the entry fee the balance was debited
      for it (none for one the process found in the tables), what it made, the bars it spanned,
      whether it was found in the tables, and whether the statements that record its trade and
      mark its row closed succeeded. */
  datatype ClosedPosition = ClosedPosition(
    id: nat, quantity: Num, paidFee: Num, netPnl: real, openBar: nat, closeBar: nat,
    carried: bool, recorded: bool, marked: bool)

  datatype Account = Account(
    gate: GateVal, stopped: bool, position: Option<Position>, lastBar: Option<int>,
    equity: Num, balance: Num, totalPnL: real, dayPnL: real, dayTrades: int, currentDay: Option<int>,
    barCount: nat, db: Db, closed: seq<ClosedPosition>, carried: bool)

  /** A new process before recovery. `closed` and `carried`, whether the open position was
      found in the tables, are not stored by the source. */
  function Fresh(cfg: PaperConfig, db: Db): Account {
    Account(FRESH_GATE, false, None, None, Val(cfg.initialCapital), Val(cfg.initialCapital),
            0.0, 0.0, 0, None, 0, db, [], false)
  }

  // ---- The tables ----

  function TotalPnl(trades: seq<TradeRow>): real {
    if trades == [] then 0.0 else TotalPnl(trades[..|trades| - 1]) + trades[|trades| - 1].netPnl
  }

  function DayPnl(trades: seq<TradeRow>, day: int): real {
    if trades == [] then 0.0
    else
      var t := trades[|trades| - 1];
      DayPnl(trades[..|trades| - 1], day) + if t.entryDay == day then t.netPnl else 0.0
  }

  function DayCount(trades: seq<TradeRow>, day: int): nat {
    if trades == [] then 0
    else DayCount(trades[..|trades| - 1], day) + if trades[|trades| - 1].entryDay == day then 1 else 0
  }

  /** The newest position still marked open. */
  function OpenPositionOf(rows: seq<PositionRow>): Option<Position> {
    if rows == [] then None
    else
      var last := rows[|rows| - 1];
      if last.open then Some(last.position) else OpenPositionOf(rows[..|rows| - 1])
  }

  function BarsStored(db: Db, id: nat, bars: int): Db {
    if id >= |db.positions| then db
    else
      var row := db.positions[id];
      db.(positions := db.positions[id := row.(position := row.position.(barsHeld := bars))])
  }

  function MarkedClosed(db: Db, id: nat): Db {
    if id >= |db.positions| then db
    else db.(positions := db.positions[id := db.positions[id].(open := false)])
  }

  // ---- Steps of a tick ----

  /** Reloads the day's statistics; a failed query keeps the PnL and forgets the count. */
  function DayStarted(a: Account, day: int, faults: Faults): Account {
    var pnl := if faults.stats then a.dayPnL else DayPnl(a.db.trades, day);
    a.(dayPnL := pnl,
       dayTrades := if faults.stats then 0 else DayCount(a.db.trades, day),
       currentDay := Some(day),
       gate := DayReset(a.gate, pnl),
       stopped := false)
  }

  function Aged(a: Account, faults: Faults): Account {
    if a.position.None? then a
    else
      var p := a.position.value.(barsHeld := a.position.value.barsHeld + 1);
      a.(position := Some(p), db := if faults.bars then a.db else BarsStored(a.db, p.id, p.barsHeld))
  }

  /** A new bar resets the day only when no position is open. */
  predicate Resets(a: Account, time: int) {
    a.currentDay != Some(DayOf(time)) && a.position.None?
  }

  function BarStarted(a: Account, c: Candle, faults: Faults): Account {
    var older := Aged(a.(gate := BarPassed(a.gate)), faults);
    if Resets(older, c.time) then DayStarted(older, DayOf(c.time), faults) else older
  }

  function NetPnl(cfg: PaperConfig, p: Position, exit: Fill): real {
    var gross :=
      match p.side
      case Long => Times(Over(Val(exit.price - p.entryPrice), Val(p.entryPrice)), p.quantity)
      case Short => Times(Over(Val(p.entryPrice - exit.price), Val(p.entryPrice)), p.quantity)
      case NoSide => Val(0.0);
    match Minus(gross, Plus(p.entryFee, exit.commission))
    case NaN => 0.0
    case Val(net) => net
  }

  function TradeRowOf(p: Position, exit: Fill, net: real, reason: ExitReason): TradeRow {
    TradeRow(DayOf(p.openTime), p.side, p.entryPrice, exit.price, p.quantity,
             Plus(p.entryFee, exit.commission), net, p.barsHeld, reason)
  }

  predicate DrawdownReached(cfg: PaperConfig, pnl: real, limitPct: real) {
    AtMost(Times(Over(Val(pnl), Val(cfg.initialCapital)), Val(100.0)), Val(-limitPct))
    || (cfg.initialCapital == 0.0 && pnl < 0.0)
  }

  /** The close as the tables see it: a trade row, and the position marked closed. */
  function CloseStored(db: Db, p: Position, exit: Fill, net: real, reason: ExitReason, faults: Faults): Db {
    var recorded := if faults.trade then db else db.(trades := db.trades + [TradeRowOf(p, exit, net, reason)]);
    if faults.close then recorded else MarkedClosed(recorded, p.id)
  }

  /** What the balance was debited when the open position was opened. */
  function PaidFee(p: Position, carried: bool): Num {
    if carried then Val(0.0) else p.entryFee
  }

  function Record(a: Account, p: Position, net: real, faults: Faults): ClosedPosition {
    ClosedPosition(
      p.id, p.quantity, PaidFee(p, a.carried), net, p.openBar, a.barCount, a.carried, !faults.trade, !faults.close)
  }

  /** Booking a close: the quantity is credited, although opening never debited it, and the
      entry fee, paid on opening, is part of the net PnL once more. */
  function PositionClosed(
      cfg: PaperConfig, a: Account, p: Position, price: real, reason: ExitReason, faults: Faults): Account
  {
    var exit := SimulateExit(cfg, price, p.quantity, p.side);
    var net := NetPnl(cfg, p, exit);
    var balance := Plus(a.balance, Plus(Val(net), p.quantity));
    var dayPnL, totalPnL := a.dayPnL + net, a.totalPnL + net;
    a.(position := None,
       balance := balance, equity := balance, totalPnL := totalPnL, dayPnL := dayPnL, dayTrades := a.dayTrades + 1,
       gate := TradeClosed(cfg.GateSettings(), PnlUpdated(cfg.GateSettings(), a.gate, net)),
       stopped := a.stopped || DrawdownReached(cfg, dayPnL, cfg.maxDailyDrawdownPct)
                  || DrawdownReached(cfg, totalPnL, cfg.maxTotalDrawdownPct),
       db := CloseStored(a.db, p, exit, net, reason, faults),
       closed := a.closed + [Record(a, p, net, faults)],
       carried := false)
  }

  function StopHit(p: Position, c: Candle): bool {
    (p.side == Long && c.low <= p.stopPrice) || (p.side == Short && c.high >= p.stopPrice)
  }

  /** Why and at what price the bar closes the position: stop, holding limit, opposite signal. */
  function ExitOf(cfg: PaperConfig, p: Position, c: Candle, side: Side): Option<(real, ExitReason)> {
    var market := if p.side == NoSide then 0.0 else Against(c.close, p.side == Short, cfg.slippage);
    if StopHit(p, c) then Some((p.stopPrice, StopLoss))
    else if p.barsHeld >= cfg.holdingBars then Some((market, MaxHold))
    else if side != NoSide && side != p.side then Some((market, OppositeSignal))
    else None
  }

  /** The distance the trailing stop keeps. The source passes the close where an ATR is meant. */
  function CandleAtr(atr: real): real {
    if atr <= 0.0 then 0.01 else atr
  }

  function TrailStop(cfg: PaperConfig, close: real): real {
    close * (1.0 - cfg.atrMultiplier * CandleAtr(close))
  }

  function Trailed(cfg: PaperConfig, p: Position, close: real): Position {
    var newStop := TrailStop(cfg, close);
    if p.side == Long && newStop > p.stopPrice then p.(stopPrice := newStop) else p
  }

  function Unrealised(p: Position, price: real): Num {
    match p.side
    case Long => Times(Over(Val(price - p.entryPrice), Val(p.entryPrice)), p.quantity)
    case Short => Times(Over(Val(p.entryPrice - price), Val(p.entryPrice)), p.quantity)
    case NoSide => Val(0.0)
  }

  function Held(cfg: PaperConfig, a: Account, p: Position, close: real): Account {
    var q := Trailed(cfg, p, close);
    a.(position := Some(q), equity := Plus(a.balance, Unrealised(q, close)))
  }

  function Managed(cfg: PaperConfig, a: Account, p: Position, c: Candle, side: Side, faults: Faults): Account {
    match ExitOf(cfg, p, c, side)
    case Some((price, reason)) => PositionClosed(cfg, a, p, price, reason, faults)
    case None => Held(cfg, a, p, c.close)
  }

  /** The ATR an entry is sized and stopped with: one percent of the close when there is none. */
  function UsedAtr(atr: real, close: real): real {
    if atr <= 0.0 then close * 0.01 else atr
  }

  function StopDistance(cfg: PaperConfig, atr: real, close: real): real {
    if atr <= 0.0 then close * 0.01 * cfg.atrMultiplier else atr * cfg.atrMultiplier
  }

  /** The filled quantity is the commission divided by the rate: undefined at a zero rate. */
  function Opening(cfg: PaperConfig, a: Account, c: Candle, fill: Fill, side: Side, atr: real): Position {
    var distance := StopDistance(cfg, atr, c.close);
    Position(
      |a.db.positions|, side, Over(fill.commission, Val(cfg.commission)), fill.price, fill.commission,
      if side == Long then fill.price - distance else fill.price + distance,
      c.time, 0, a.barCount)
  }

  function PositionOpened(cfg: PaperConfig, a: Account, p: Position, faults: Faults): Account {
    if faults.order || faults.position then a
    else
      a.(position := Some(p), carried := false, balance := Minus(a.balance, p.entryFee), gate := TradePlaced(a.gate),
         db := a.db.(positions := a.db.positions + [PositionRow(p, true)]))
  }

  function GateInput(r: Reading): Input {
    Input(r.tech, r.orderFlow, r.regime, r.regimeLabel, r.mlProb)
  }

  /** The size the account would open with: none unless the gate lets the signal through. */
  function EntrySize(cfg: PaperConfig, a: Account, c: Candle, r: Reading): Option<Num> {
    var out := EvaluateGate(cfg.GateSettings(), a.gate, GateInput(r));
    if out.decision == NoTrade then None
    else
      var size := CalcPositionSize(a.equity, c.close, UsedAtr(r.atr, c.close), cfg.atrMultiplier, cfg.riskPerTradePct);
      if AtMost(size, Val(0.0)) then None else Some(Times(size, Val(out.sizeMultiplier)))
  }

  function Entered(cfg: PaperConfig, a: Account, c: Candle, r: Reading, side: Side, faults: Faults): Account {
    match EntrySize(cfg, a, c, r)
    case None => a
    case Some(size) =>
      var fill := SimulateEntry(cfg, c.close, size, side, c.volume);
      PositionOpened(cfg, a, Opening(cfg, a, c, fill, side, r.atr), faults)
  }

  function Seen(a: Account, c: Candle): Account {
    a.(lastBar := Some(c.time), barCount := a.barCount + 1)
  }

  /** The account after the bar is noted: aged, and reset if a day began. */
  function BarNoted(a: Account, c: Candle, faults: Faults): Account {
    if a.lastBar.Some? then BarStarted(Seen(a, c), c, faults) else Seen(a, c)
  }

  /** A poll that brings nothing new. */
  predicate Idles(a: Account, tick: Tick) {
    tick.candle.None? || a.lastBar == Some(tick.candle.value.time)
  }

  function AfterTick(cfg: PaperConfig, a: Account, tick: Tick): Account {
    if Idles(a, tick) then a
    else
      var c := tick.candle.value;
      var b := BarNoted(a, c, tick.faults);
      if tick.reading.None? then b
      else
        var r := tick.reading.value;
        var side := DecideDirection(r.tech, cfg.longThreshold, cfg.shortThreshold);
        if b.position.Some? then Managed(cfg, b, b.position.value, c, side, tick.faults)
        else if a.lastBar.None? || b.stopped || side == NoSide then b
        else Entered(cfg, b, c, r, side, tick.faults)
  }

  function AfterTicks(cfg: PaperConfig, a: Account, ticks: seq<Tick>): Account {
    if ticks == [] then a
    else AfterTick(cfg, AfterTicks(cfg, a, ticks[..|ticks| - 1]), ticks[|ticks| - 1])
  }

  // ---- Restart ----

  /** Which of the three recovery queries fail. */
  datatype RecoveryFaults = RecoveryFaults(open: bool, total: bool, daily: bool)

  /** The position a new process takes over; it counts its bars from zero. */
  function TakenOver(rows: seq<PositionRow>): Option<Position> {
    match OpenPositionOf(rows)
    case Some(p) => Some(p.(openBar := 0))
    case None => None
  }

  function WithPosition(a: Account): Account {
    a.(position := TakenOver(a.db.positions), carried := TakenOver(a.db.positions).Some?)
  }

  function WithTotal(cfg: PaperConfig, a: Account): Account {
    var total := TotalPnl(a.db.trades);
    a.(totalPnL := total, balance := Val(cfg.initialCapital + total), equity := Val(cfg.initialCapital + total))
  }

  function WithDay(a: Account, today: int): Account {
    a.(dayPnL := DayPnl(a.db.trades, today), dayTrades := DayCount(a.db.trades, today))
  }

  /** What a new process makes of the tables on day `today`. A position query that fails ends
      the recovery; the other two only leave out what they would have loaded. */
  function Recovered(cfg: PaperConfig, db: Db, today: int, faults: RecoveryFaults): Account {
    var a := Fresh(cfg, db);
    if faults.open then a
    else
      var b := WithPosition(a);
      var c := if faults.total then b else WithTotal(cfg, b);
      var d := if faults.daily then c else WithDay(c, today);
      d.(currentDay := Some(today))
  }

  // ---- The engine ----

  class PaperStore {
    var db: Db

    constructor (db: Db)
      ensures this.db == db
    {
      this.db := db;
    }

    method StoreClose(p: Position, exit: Fill, net: real, reason: ExitReason, faults: Faults)
      modifies this
      ensures db == CloseStored(old(db), p, exit, net, reason, faults)
    {
      if !faults.trade {
        db := db.(trades := db.trades + [TradeRowOf(p, exit, net, reason)]);
      }
      if !faults.close {
        db := MarkedClosed(db, p.id);
      }
    }
  }

  class PaperEngine {
    const cfg: PaperConfig
    const gate: Gate
    const store: PaperStore
    var stopped: bool
    var position: Option<Position>
    var lastBarTS: Option<int>
    var equity: Num
    var balance: Num
    var totalPnL: real
    var dayPnL: real
    var dayTrades: int
    var currentDay: Option<int>
    var barCount: nat
    ghost var closed: seq<ClosedPosition>
    ghost var carried: bool

    ghost predicate Valid() {
      gate.cfg == cfg.GateSettings()
    }

    ghost function Value(): Account
      reads this, gate, store
    {
      Account(gate.Value(), stopped, position, lastBarTS, equity, balance, totalPnL, dayPnL, dayTrades,
              currentDay, barCount, store.db, closed, carried)
    }

    constructor (cfg: PaperConfig, store: PaperStore)
      ensures Valid() && this.cfg == cfg && this.store == store && fresh(gate)
      ensures Value() == Fresh(cfg, store.db)
    {
      this.cfg := cfg;
      this.store := store;
      gate := new Gate(cfg.GateSettings());
      stopped, position, lastBarTS := false, None, None;
      equity, balance := Val(cfg.initialCapital), Val(cfg.initialCapital);
      totalPnL, dayPnL, dayTrades, currentDay, barCount := 0.0, 0.0, 0, None, 0;
      closed, carried := [], false;
    }

    method LoadTotal()
      modifies this`totalPnL, this`balance, this`equity
      ensures Value() == WithTotal(cfg, old(Value()))
    {
      hide TotalPnl;
      totalPnL := TotalPnl(store.db.trades);
      balance := Val(cfg.initialCapital + totalPnL);
      equity := balance;
    }

    method LoadDay(today: int)
      modifies this`dayPnL, this`dayTrades
      ensures Value() == WithDay(old(Value()), today)
    {
      hide DayPnl, DayCount;
      dayPnL := DayPnl(store.db.trades, today);
      dayTrades := DayCount(store.db.trades, today);
    }

    method RecoverState(today: int, faults: RecoveryFaults)
      requires Valid() && Value() == Fresh(cfg, store.db)
      modifies this
      ensures Value() == Recovered(cfg, store.db, today, faults)
    {
      hide TakenOver, WithTotal, WithDay;
      if faults.open {
        return;
      }
      position := TakenOver(store.db.positions);
      carried := position.Some?;
      if !faults.total {
        LoadTotal();
      }
      if !faults.daily {
        LoadDay(today);
      }
      currentDay := Some(today);
    }

    method ResetDay(day: int, faults: Faults)
      requires Valid()
      modifies this, gate
      ensures Value() == DayStarted(old(Value()), day, faults)
    {
      if !faults.stats {
        dayPnL := DayPnl(store.db.trades, day);
      }
      dayTrades := if faults.stats then 0 else DayCount(store.db.trades, day);
      currentDay := Some(day);
      var resumed := gate.ResetDay(dayPnL);
      if stopped {
        stopped := false;
      }
    }

    method CheckDrawdown()
      modifies this`stopped
      ensures stopped == (old(stopped) || DrawdownReached(cfg, dayPnL, cfg.maxDailyDrawdownPct)
                          || DrawdownReached(cfg, totalPnL, cfg.maxTotalDrawdownPct))
    {
      hide DrawdownReached;
      if DrawdownReached(cfg, dayPnL, cfg.maxDailyDrawdownPct) {
        stopped := true;
      }
      if DrawdownReached(cfg, totalPnL, cfg.maxTotalDrawdownPct) {
        stopped := true;
      }
    }

    method BookMoney(net: real, quantity: Num)
      modifies this`balance, this`totalPnL, this`dayPnL, this`dayTrades
      ensures balance == Plus(old(balance), Plus(Val(net), quantity))
      ensures totalPnL == old(totalPnL) + net && dayPnL == old(dayPnL) + net && dayTrades == old(dayTrades) + 1
    {
      balance := Plus(balance, Plus(Val(net), quantity));
      totalPnL := totalPnL + net;
      dayPnL := dayPnL + net;
      dayTrades := dayTrades + 1;
    }

    method ClosePosition(price: real, reason: ExitReason, faults: Faults)
      requires Valid() && position.Some?
      modifies this, gate, store
      ensures Value() == PositionClosed(cfg, old(Value()), old(position.value), price, reason, faults)
    {
      hide NetPnl, SimulateExit, DrawdownReached, PnlUpdated, TradeClosed, Plus, CloseStored, PaidFee;
      var pos := position.value;
      var exit := SimulateExit(cfg, price, pos.quantity, pos.side);
      var net := NetPnl(cfg, pos, exit);
      store.StoreClose(pos, exit, net, reason, faults);
      ghost var record := Record(Value(), pos, net, faults);
      BookMoney(net, pos.quantity);
      gate.UpdatePnl(net);
      gate.OnTradeClosed();
      CheckDrawdown();
      equity := balance;
      position := None;
      closed := closed + [record];
      carried := false;
    }

    method UpdateUnrealized(price: real)
      requires position.Some?
      modifies this`equity
      ensures equity == Plus(balance, Unrealised(position.value, price))
    {
      equity := Plus(balance, Unrealised(position.value, price));
    }

    method CheckExit(c: Candle, side: Side, faults: Faults) returns (exited: bool)
      requires Valid() && position.Some?
      modifies this, gate, store
      ensures exited <==> ExitOf(cfg, old(position.value), c, side).Some?
      ensures exited ==> Value() == Managed(cfg, old(Value()), old(position.value), c, side, faults)
      ensures !exited ==>
                Value() == old(Value()).(position := Some(Trailed(cfg, old(position.value), c.close)))
    {
      hide PositionClosed, StopHit, Against, TrailStop;
      var pos := position.value;
      var exitPrice, reason := 0.0, StopLoss;
      exited := false;
      if StopHit(pos, c) {
        exitPrice, reason, exited := pos.stopPrice, StopLoss, true;
      }
      if !exited && pos.barsHeld >= cfg.holdingBars {
        if pos.side != NoSide {
          exitPrice := Against(c.close, pos.side == Short, cfg.slippage);
        }
        reason, exited := MaxHold, true;
      }
      if !exited && side != NoSide && side != pos.side {
        if pos.side != NoSide {
          exitPrice := Against(c.close, pos.side == Short, cfg.slippage);
        }
        reason, exited := OppositeSignal, true;
      }
      if !exited {
        if pos.side == Long {
          var newStop := TrailStop(cfg, c.close);
          if newStop > pos.stopPrice {
            position := Some(pos.(stopPrice := newStop));
          }
        }
        return;
      }
      ClosePosition(exitPrice, reason, faults);
    }

    method OpenPosition(c: Candle, fill: Fill, side: Side, atr: real, faults: Faults)
      requires Valid()
      modifies this, gate, store
      ensures Value() == PositionOpened(cfg, old(Value()), Opening(cfg, old(Value()), c, fill, side, atr), faults)
    {
      hide StopDistance, Over, Minus;
      if faults.order {
        return;
      }
      var distance := StopDistance(cfg, atr, c.close);
      var stopPrice := if side == Long then fill.price - distance else fill.price + distance;
      var quantity := Over(fill.commission, Val(cfg.commission));
      var pos := Position(
        |store.db.positions|, side, quantity, fill.price, fill.commission, stopPrice, c.time, 0, barCount);
      if faults.position {
        return;
      }
      store.db := store.db.(positions := store.db.positions + [PositionRow(pos, true)]);
      position := Some(pos);
      carried := false;
      balance := Minus(balance, fill.commission);
      gate.OnTradePlaced();
    }

    /** Notes a candle not seen before. */
    method NoteBar(c: Candle, faults: Faults) returns (isNewBar: bool)
      requires Valid()
      modifies this, gate, store
      ensures isNewBar <==> old(lastBarTS).Some?
      ensures Value() == BarNoted(old(Value()), c, faults)
    {
      hide BarPassed, DayStarted, BarsStored;
      isNewBar := lastBarTS.Some?;
      lastBarTS := Some(c.time);
      barCount := barCount + 1;
      if isNewBar {
        gate.OnBar();
        if position.Some? {
          var p := position.value.(barsHeld := position.value.barsHeld + 1);
          position := Some(p);
          if !faults.bars {
            store.db := BarsStored(store.db, p.id, p.barsHeld);
          }
        }
        var day := DayOf(c.time);
        if Some(day) != currentDay && position.None? {
          ResetDay(day, faults);
        }
      }
    }

    method ProcessTick(tick: Tick)
      requires Valid()
      modifies this, gate, store
      ensures Value() == AfterTick(cfg, old(Value()), tick)
    {
      hide BarNoted, ExitOf, PositionClosed, Trailed, Unrealised, Opening, PositionOpened, SimulateEntry;
      hide CalcPositionSize, EvaluateGate, DecideDirection, Times, AtMost, Plus;
      if tick.candle.None? {
        return;
      }
      var c := tick.candle.value;
      if lastBarTS == Some(c.time) {
        return;
      }
      var isNewBar := NoteBar(c, tick.faults);
      if tick.reading.None? {
        return;
      }
      var r := tick.reading.value;
      var side := DecideDirection(r.tech, cfg.longThreshold, cfg.shortThreshold);
      if position.Some? {
        var exited := CheckExit(c, side, tick.faults);
        if !exited {
          UpdateUnrealized(c.close);
        }
        return;
      }
      if !isNewBar || stopped || side == NoSide {
        return;
      }
      var out := gate.Evaluate(GateInput(r));
      if out.decision == NoTrade {
        return;
      }
      var atr := if r.atr <= 0.0 then c.close * 0.01 else r.atr;
      var positionSize := CalcPositionSize(equity, c.close, atr, cfg.atrMultiplier, cfg.riskPerTradePct);
      if AtMost(positionSize, Val(0.0)) {
        return;
      }
      positionSize := Times(positionSize, Val(out.sizeMultiplier));
      var fill := SimulateEntry(cfg, c.close, positionSize, side, c.volume);
      OpenPosition(c, fill, side, r.atr, tick.faults);
    }
  }
}
