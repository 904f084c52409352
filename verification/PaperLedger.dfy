/** What the paper account's money adds up to over any run, and what a restart keeps. */
module PaperLedger {
  import opened Numeric
  import opened MarketData
  import opened TradeGate
  import opened PaperTypes
  import opened PaperEngine

  const EMPTY_DB := Db([], [])

  /** One process of the trader: the day it starts on, the recovery queries that fail, and
      its polls. */
  datatype Process = Process(today: int, faults: RecoveryFaults, ticks: seq<Tick>)

  function Begun(cfg: PaperConfig, db: Db, p: Process): Account {
    Recovered(cfg, db, p.today, p.faults)
  }

  function Run(cfg: PaperConfig, db: Db, p: Process): Account {
    AfterTicks(cfg, Begun(cfg, db, p), p.ticks)
  }

  /** What a row of processes, each taking over from the one before, leaves in the tables. */
  function TablesAfter(cfg: PaperConfig, past: seq<Process>): Db {
    if past == [] then EMPTY_DB
    else Run(cfg, TablesAfter(cfg, past[..|past| - 1]), past[|past| - 1]).db
  }

  /** What closing adds beyond the net PnL: the quantity, less the entry fee charged twice. */
  function Drift(closed: seq<ClosedPosition>): Num {
    if closed == [] then Val(0.0)
    else
      var last := closed[|closed| - 1];
      Plus(Drift(closed[..|closed| - 1]), Minus(last.quantity, last.paidFee))
  }

  function NetSum(closed: seq<ClosedPosition>): real {
    if closed == [] then 0.0 else NetSum(closed[..|closed| - 1]) + closed[|closed| - 1].netPnl
  }

  function OpenFee(a: Account): Num {
    if a.position.None? then Val(0.0) else PaidFee(a.position.value, a.carried)
  }

  /** `before` is the realised PnL the process started with. */
  ghost predicate Ledger(cfg: PaperConfig, before: real, a: Account) {
    && a.totalPnL == before + NetSum(a.closed)
    && a.balance == Minus(Plus(Val(cfg.initialCapital + a.totalPnL), Drift(a.closed)), OpenFee(a))
    && (a.position.None? ==> a.equity == a.balance)
  }

  lemma CloseKeepsLedger(cfg: PaperConfig, before: real, a: Account, price: real, reason: ExitReason, faults: Faults)
    requires Ledger(cfg, before, a) && a.position.Some?
    ensures Ledger(cfg, before, PositionClosed(cfg, a, a.position.value, price, reason, faults))
  {
    hide NetPnl, SimulateExit, CloseStored, DrawdownReached, PnlUpdated, TradeClosed;
    var p := a.position.value;
    var net := NetPnl(cfg, p, SimulateExit(cfg, price, p.quantity, p.side));
    var longer := a.closed + [Record(a, p, net, faults)];
    assert longer[..|a.closed|] == a.closed;
  }

  lemma NotingKeepsLedger(cfg: PaperConfig, before: real, a: Account, c: Candle, faults: Faults)
    requires Ledger(cfg, before, a)
    ensures Ledger(cfg, before, BarNoted(a, c, faults))
  {
    hide DayPnl, DayCount, BarsStored, BarPassed, DayReset, Drift, NetSum;
  }

  lemma TrailKeepsFee(cfg: PaperConfig, p: Position, close: real)
    ensures Trailed(cfg, p, close) == p.(stopPrice := Trailed(cfg, p, close).stopPrice)
    ensures Trailed(cfg, p, close).stopPrice >= p.stopPrice
    ensures p.side != Long ==> Trailed(cfg, p, close) == p
  {
    hide TrailStop;
  }

  lemma TickKeepsLedger(cfg: PaperConfig, before: real, a: Account, tick: Tick)
    requires Ledger(cfg, before, a)
    ensures Ledger(cfg, before, AfterTick(cfg, a, tick))
  {
    hide Drift, NetSum, BarNoted, PositionClosed, ExitOf;
    hide Trailed, Unrealised, EntrySize, SimulateEntry, DecideDirection;
    hide StopDistance, Over;
    if !Idles(a, tick) {
      var b := BarNoted(a, tick.candle.value, tick.faults);
      NotingKeepsLedger(cfg, before, a, tick.candle.value, tick.faults);
      if tick.reading.Some? && b.position.Some? {
        var side := DecideDirection(tick.reading.value.tech, cfg.longThreshold, cfg.shortThreshold);
        var exit := ExitOf(cfg, b.position.value, tick.candle.value, side);
        if exit.Some? {
          CloseKeepsLedger(cfg, before, b, exit.value.0, exit.value.1, tick.faults);
        } else {
          assert Trailed(cfg, b.position.value, tick.candle.value.close).entryFee == b.position.value.entryFee by {
            TrailKeepsFee(cfg, b.position.value, tick.candle.value.close);
          }
        }
      }
    }
  }

  /** In any process, whatever tables it finds and whatever statements fail, recovery included:
      the realised PnL is what it started with plus what its closed positions made; the
      balance is the starting capital plus the realised PnL plus, for every position closed,
      its quantity less the entry fee paid for it, minus the fee paid for the open position;
      and a flat account's equity is its balance. */
  lemma {:induction false} LedgerHolds(cfg: PaperConfig, db: Db, p: Process)
    ensures Ledger(cfg, Begun(cfg, db, p).totalPnL, Run(cfg, db, p))
    decreases |p.ticks|
  {
    hide AfterTick, TotalPnl, DayPnl, DayCount, TakenOver;
    if p.ticks != [] {
      var n := |p.ticks| - 1;
      var q := p.(ticks := p.ticks[..n]);
      LedgerHolds(cfg, db, q);
      TickKeepsLedger(cfg, Begun(cfg, db, p).totalPnL, Run(cfg, db, q), p.ticks[n]);
    }
  }

  // ---- When the balance is a number ----

  /** A quantity with the entry fee for it. At a zero commission rate the quantity is 0/0; at any
      other the fee is the rate on it, and at a positive one it is not negative. */
  ghost predicate Priced(cfg: PaperConfig, quantity: Num, fee: Num) {
    if cfg.commission == 0.0 then quantity.NaN?
    else
      && quantity.Val? && fee == Times(quantity, Val(cfg.commission))
      && (cfg.commission > 0.0 ==> quantity.v >= 0.0)
  }

  ghost predicate RowsPriced(cfg: PaperConfig, rows: seq<PositionRow>) {
    forall k :: 0 <= k < |rows| ==> Priced(cfg, rows[k].position.quantity, rows[k].position.entryFee)
  }

  /** What was paid for a closed position: its entry fee, or nothing if it was found in the tables. */
  ghost predicate ClosesPriced(cfg: PaperConfig, closed: seq<ClosedPosition>) {
    forall k :: 0 <= k < |closed| ==>
      if closed[k].carried then Priced(cfg, closed[k].quantity, Times(closed[k].quantity, Val(cfg.commission)))
                                && closed[k].paidFee == Val(0.0)
      else Priced(cfg, closed[k].quantity, closed[k].paidFee)
  }

  /** The balance is a number until a position is closed at a zero rate. */
  ghost predicate Defined(cfg: PaperConfig, a: Account) {
    && (a.balance.Val? <==> cfg.commission != 0.0 || a.closed == [])
    && (a.position.None? ==> a.equity == a.balance)
    && (a.position.Some? ==> Priced(cfg, a.position.value.quantity, a.position.value.entryFee))
    && RowsPriced(cfg, a.db.positions)
    && ClosesPriced(cfg, a.closed)
  }

  lemma SizeIsNumber(equity: Num, entryPrice: real, atr: real, atrMultiplier: real, riskPct: real)
    requires equity.Val?
    ensures CalcPositionSize(equity, entryPrice, atr, atrMultiplier, riskPct).Val?
  {
  }

  lemma SizeDefined(cfg: PaperConfig, a: Account, c: Candle, r: Reading)
    requires a.equity.Val? && EntrySize(cfg, a, c, r).Some?
    ensures EntrySize(cfg, a, c, r).value.Val? && EntrySize(cfg, a, c, r).value.v >= 0.0
  {
    hide EvaluateGate, CalcPositionSize;
    var atr := UsedAtr(r.atr, c.close);
    var size := CalcPositionSize(a.equity, c.close, atr, cfg.atrMultiplier, cfg.riskPerTradePct);
    SizeIsNumber(a.equity, c.close, atr, cfg.atrMultiplier, cfg.riskPerTradePct);
    AcceptedSize(cfg.GateSettings(), a.gate, GateInput(r));
    MulNonneg(size.v, EvaluateGate(cfg.GateSettings(), a.gate, GateInput(r)).sizeMultiplier);
  }

  lemma FilledIsPriced(cfg: PaperConfig, size: Num)
    requires size.Val? && size.v >= 0.0
    ensures var fee := Times(size, Val(cfg.commission)); Priced(cfg, Over(fee, Val(cfg.commission)), fee)
  {
    if cfg.commission != 0.0 {
      QuotientOfProduct(size.v, cfg.commission);
    }
  }

  lemma CloseKeepsRows(
      cfg: PaperConfig, db: Db, p: Position, exit: Fill, net: real, reason: ExitReason, faults: Faults)
    requires RowsPriced(cfg, db.positions)
    ensures RowsPriced(cfg, CloseStored(db, p, exit, net, reason, faults).positions)
  {
    hide Priced, TradeRowOf;
  }

  lemma AgeingKeepsRows(cfg: PaperConfig, db: Db, id: nat, bars: int)
    requires RowsPriced(cfg, db.positions)
    ensures RowsPriced(cfg, BarsStored(db, id, bars).positions)
  {
  }

  lemma FeeIsNumber(cfg: PaperConfig, size: Num)
    requires size.Val?
    ensures Times(size, Val(cfg.commission)).Val?
  {
  }

  /** Whatever the size, at a zero rate there is no quantity. */
  lemma FreeIsPriced(cfg: PaperConfig, size: Num)
    ensures cfg.commission == 0.0 ==>
              Priced(cfg, Over(Times(size, Val(cfg.commission)), Val(cfg.commission)), Times(size, Val(cfg.commission)))
  {
  }

  lemma EnteringKeepsDefined(cfg: PaperConfig, a: Account, c: Candle, r: Reading, side: Side, faults: Faults)
    requires Defined(cfg, a) && a.position.None?
    ensures Defined(cfg, Entered(cfg, a, c, r, side, faults))
  {
    hide EntrySize, StopDistance, EntrySlippage, Against, Priced, ClosesPriced;
    if EntrySize(cfg, a, c, r).Some? {
      if a.equity.Val? {
        SizeDefined(cfg, a, c, r);
        FilledIsPriced(cfg, EntrySize(cfg, a, c, r).value);
        FeeIsNumber(cfg, EntrySize(cfg, a, c, r).value);
      } else {
        FreeIsPriced(cfg, EntrySize(cfg, a, c, r).value);
      }
    }
  }

  lemma ClosingKeepsPriced(cfg: PaperConfig, a: Account, p: Position, net: real, faults: Faults)
    requires ClosesPriced(cfg, a.closed) && Priced(cfg, p.quantity, p.entryFee)
    ensures ClosesPriced(cfg, a.closed + [Record(a, p, net, faults)])
  {
  }

  lemma ManagingKeepsDefined(cfg: PaperConfig, a: Account, c: Candle, side: Side, faults: Faults)
    requires Defined(cfg, a) && a.position.Some?
    ensures Defined(cfg, Managed(cfg, a, a.position.value, c, side, faults))
  {
    hide NetPnl, SimulateExit, CloseStored, DrawdownReached, PnlUpdated, TradeClosed, ExitOf, Unrealised, Trailed;
    hide RowsPriced, ClosesPriced;
    var p := a.position.value;
    TrailKeepsFee(cfg, p, c.close);
    match ExitOf(cfg, p, c, side)
    case Some((price, reason)) =>
      var exit := SimulateExit(cfg, price, p.quantity, p.side);
      CloseKeepsRows(cfg, a.db, p, exit, NetPnl(cfg, p, exit), reason, faults);
      ClosingKeepsPriced(cfg, a, p, NetPnl(cfg, p, exit), faults);
    case None =>
  }

  lemma NotingKeepsDefined(cfg: PaperConfig, a: Account, c: Candle, faults: Faults)
    requires Defined(cfg, a)
    ensures Defined(cfg, BarNoted(a, c, faults))
  {
    hide DayPnl, DayCount, BarsStored, BarPassed, DayReset, RowsPriced, ClosesPriced, Priced;
    if a.position.Some? {
      AgeingKeepsRows(cfg, a.db, a.position.value.id, a.position.value.barsHeld + 1);
    }
  }

  lemma TickKeepsDefined(cfg: PaperConfig, a: Account, tick: Tick)
    requires Defined(cfg, a)
    ensures Defined(cfg, AfterTick(cfg, a, tick))
  {
    hide Defined, BarNoted, Managed, Entered, DecideDirection;
    if !Idles(a, tick) {
      var c, b := tick.candle.value, BarNoted(a, tick.candle.value, tick.faults);
      NotingKeepsDefined(cfg, a, c, tick.faults);
      if tick.reading.Some? {
        var r := tick.reading.value;
        var side := DecideDirection(r.tech, cfg.longThreshold, cfg.shortThreshold);
        if b.position.Some? {
          ManagingKeepsDefined(cfg, b, c, side, tick.faults);
        } else {
          EnteringKeepsDefined(cfg, b, c, r, side, tick.faults);
        }
      }
    }
  }

  lemma {:induction false} TakenOverPriced(cfg: PaperConfig, rows: seq<PositionRow>)
    requires RowsPriced(cfg, rows)
    ensures TakenOver(rows).Some? ==> Priced(cfg, TakenOver(rows).value.quantity, TakenOver(rows).value.entryFee)
  {
    hide Priced;
    if rows != [] {
      TakenOverPriced(cfg, rows[..|rows| - 1]);
    }
  }

  lemma {:induction false} ProcessKeepsDefined(cfg: PaperConfig, db: Db, p: Process)
    requires RowsPriced(cfg, db.positions)
    ensures Defined(cfg, Run(cfg, db, p))
    decreases |p.ticks|
  {
    hide AfterTick, TotalPnl, DayPnl, DayCount, TakenOver, Priced;
    if p.ticks == [] {
      TakenOverPriced(cfg, db.positions);
    } else {
      var n := |p.ticks| - 1;
      var q := p.(ticks := p.ticks[..n]);
      ProcessKeepsDefined(cfg, db, q);
      TickKeepsDefined(cfg, Run(cfg, db, q), p.ticks[n]);
    }
  }

  lemma {:induction false} TablesStayPriced(cfg: PaperConfig, past: seq<Process>)
    ensures RowsPriced(cfg, TablesAfter(cfg, past).positions)
  {
    hide Run, Priced;
    if past != [] {
      var n := |past| - 1;
      TablesStayPriced(cfg, past[..n]);
      ProcessKeepsDefined(cfg, TablesAfter(cfg, past[..n]), past[n]);
    }
  }

  /** In any process after any others, whatever fails, the balance is a number if and only if
      the commission rate is not zero or the process has not closed a position yet. */
  lemma BalanceDefinedExactly(cfg: PaperConfig, past: seq<Process>, now: Process)
    ensures var a := Run(cfg, TablesAfter(cfg, past), now);
            a.balance.Val? <==> cfg.commission != 0.0 || a.closed == []
  {
    hide Run, TablesAfter, RowsPriced, ClosesPriced;
    TablesStayPriced(cfg, past);
    ProcessKeepsDefined(cfg, TablesAfter(cfg, past), now);
  }

  // ---- By how much the balance is off ----

  /** The quantities of the closed positions that were, or were not, found in the tables. */
  function Quantities(closed: seq<ClosedPosition>, carried: bool): real {
    if closed == [] then 0.0
    else
      var last := closed[|closed| - 1];
      Quantities(closed[..|closed| - 1], carried)
      + if last.carried == carried && last.quantity.Val? then last.quantity.v else 0.0
  }

  /** What is left of an amount at rate `c`. */
  function LessRate(c: real, amount: real): real {
    (1.0 - c) * amount
  }

  lemma LessRateAdds(c: real, x: real, y: real)
    ensures LessRate(c, x + y) == LessRate(c, x) + LessRate(c, y)
    ensures LessRate(c, 0.0) == 0.0
  {
  }

  lemma EarlierPriced(cfg: PaperConfig, closed: seq<ClosedPosition>)
    requires ClosesPriced(cfg, closed) && closed != []
    ensures ClosesPriced(cfg, closed[..|closed| - 1])
  {
    hide Priced;
  }

  lemma LastDrift(cfg: PaperConfig, closed: seq<ClosedPosition>, k: nat)
    requires cfg.commission != 0.0 && ClosesPriced(cfg, closed) && k < |closed|
    ensures closed[k].quantity.Val?
    ensures var q := closed[k].quantity.v;
            Minus(closed[k].quantity, closed[k].paidFee)
            == Val(if closed[k].carried then q else LessRate(cfg.commission, q))
  {
    assert closed[k].quantity.Val?;
  }

  lemma {:induction false} DriftIsQuantities(cfg: PaperConfig, closed: seq<ClosedPosition>)
    requires cfg.commission != 0.0 && ClosesPriced(cfg, closed)
    ensures Drift(closed) == Val(LessRate(cfg.commission, Quantities(closed, false)) + Quantities(closed, true))
  {
    hide ClosesPriced, Minus, LessRate;
    LessRateAdds(cfg.commission, 0.0, 0.0);
    if closed != [] {
      var n := |closed| - 1;
      EarlierPriced(cfg, closed);
      DriftIsQuantities(cfg, closed[..n]);
      LastDrift(cfg, closed, n);
      LessRateAdds(cfg.commission, Quantities(closed[..n], false), closed[n].quantity.v);
    }
  }

  lemma {:induction false} QuantitiesZeroExactly(cfg: PaperConfig, closed: seq<ClosedPosition>)
    requires cfg.commission > 0.0 && ClosesPriced(cfg, closed)
    ensures Quantities(closed, false) >= 0.0 && Quantities(closed, true) >= 0.0
    ensures Quantities(closed, false) == 0.0 && Quantities(closed, true) == 0.0
            <==> forall k :: 0 <= k < |closed| ==> closed[k].quantity == Val(0.0)
  {
    if closed != [] {
      var n := |closed| - 1;
      QuantitiesZeroExactly(cfg, closed[..n]);
      assert closed[n].quantity.Val? && closed[n].quantity.v >= 0.0;
      assert forall k :: 0 <= k < n ==> closed[..n][k] == closed[k];
    }
  }

  /** At any non-zero rate, in any process after any others, whatever fails: a flat account's
      balance exceeds capital plus realised PnL by the quantities it closed, less the rate on
      those whose entry fee it paid. */
  lemma FlatBalance(cfg: PaperConfig, past: seq<Process>, now: Process)
    requires cfg.commission != 0.0
    ensures var a := Run(cfg, TablesAfter(cfg, past), now);
            a.position.None? ==>
              a.balance == Val(cfg.initialCapital + a.totalPnL
                               + (LessRate(cfg.commission, Quantities(a.closed, false)) + Quantities(a.closed, true)))
  {
    hide Run, TablesAfter, RowsPriced, ClosesPriced, Drift, NetSum, Quantities, LessRate;
    var a := Run(cfg, TablesAfter(cfg, past), now);
    TablesStayPriced(cfg, past);
    ProcessKeepsDefined(cfg, TablesAfter(cfg, past), now);
    LedgerHolds(cfg, TablesAfter(cfg, past), now);
    DriftIsQuantities(cfg, a.closed);
  }

  lemma LessRateZeroExactly(c: real, x: real, y: real)
    requires c < 1.0 && x >= 0.0 && y >= 0.0
    ensures LessRate(c, x) + y == 0.0 <==> x == 0.0 && y == 0.0
  {
    if x > 0.0 {
      MulPositive(1.0 - c, x);
    } else {
      assert LessRate(c, x) == 0.0;
    }
  }

  /** So at a rate between zero and one a flat account reconciles if and only if no position it
      closed had any quantity. */
  lemma ReconcilesExactly(cfg: PaperConfig, past: seq<Process>, now: Process)
    requires 0.0 < cfg.commission < 1.0
    ensures var a := Run(cfg, TablesAfter(cfg, past), now);
            a.position.None? ==>
              (a.balance == Val(cfg.initialCapital + a.totalPnL) <==>
               forall k :: 0 <= k < |a.closed| ==> a.closed[k].quantity == Val(0.0))
  {
    hide Run, TablesAfter, RowsPriced, ClosesPriced, Quantities, LessRate;
    var a := Run(cfg, TablesAfter(cfg, past), now);
    TablesStayPriced(cfg, past);
    ProcessKeepsDefined(cfg, TablesAfter(cfg, past), now);
    FlatBalance(cfg, past, now);
    QuantitiesZeroExactly(cfg, a.closed);
    LessRateZeroExactly(cfg.commission, Quantities(a.closed, false), Quantities(a.closed, true));
  }

  // ---- The trailing stop ----

  lemma StopLevel(cfg: PaperConfig, close: real)
    requires close > 0.0
    ensures TrailStop(cfg, close) == close * (1.0 - cfg.atrMultiplier * close)
    ensures TrailStop(cfg, close) > 0.0 <==> cfg.atrMultiplier * close < 1.0
  {
    var room := 1.0 - cfg.atrMultiplier * close;
    MulStrict(close, room, 0.0);
    assert room * close == close * room;
  }

  /** A long's stop moves exactly when it stands below close * (1 - multiplier * close), and
      to there: the close stands where the ATR should. */
  lemma TrailingStopMovesExactly(cfg: PaperConfig, p: Position, close: real)
    requires close > 0.0 && p.side == Long
    ensures Trailed(cfg, p, close) != p <==> p.stopPrice < close * (1.0 - cfg.atrMultiplier * close)
    ensures Trailed(cfg, p, close) != p ==>
              Trailed(cfg, p, close).stopPrice == close * (1.0 - cfg.atrMultiplier * close)
  {
    hide TrailStop;
    StopLevel(cfg, close);
  }

  /** So at a given close no stop that is not negative ever moves if and only if multiplier
      times close is at least one. */
  lemma TrailingStopNeverMoves(cfg: PaperConfig, p: Position, close: real)
    requires close > 0.0 && p.side == Long
    ensures (forall stop: real :: stop >= 0.0 ==>
               Trailed(cfg, p.(stopPrice := stop), close) == p.(stopPrice := stop))
            <==> cfg.atrMultiplier * close >= 1.0
  {
    hide TrailStop;
    StopLevel(cfg, close);
    if cfg.atrMultiplier * close < 1.0 {
      assert Trailed(cfg, p.(stopPrice := 0.0), close) != p.(stopPrice := 0.0);
    }
  }

  /** And at whatever close it moves, it never gets above one over four times the multiplier:
      with a multiplier of one, 25 cents. */
  lemma TrailedStopCeiling(cfg: PaperConfig, p: Position, close: real)
    requires close > 0.0 && cfg.atrMultiplier > 0.0 && Trailed(cfg, p, close) != p
    ensures 4.0 * cfg.atrMultiplier * Trailed(cfg, p, close).stopPrice <= 1.0
  {
    hide TrailStop;
    StopLevel(cfg, close);
    var x := cfg.atrMultiplier * close;
    var stop := close * (1.0 - x);
    assert cfg.atrMultiplier * stop == x * (1.0 - x);
    SquareNonNegative(1.0 - 2.0 * x);
    assert (1.0 - 2.0 * x) * (1.0 - 2.0 * x) == 1.0 - 4.0 * (x * (1.0 - x));
  }
}
