/** What the tables hold after any process of the paper trader, whatever statements failed, and
    what the next process makes of them. */
module PaperRestart {
  import opened Numeric
  import opened MarketData
  import opened TradeGate
  import opened PaperTypes
  import opened PaperEngine
  import opened PaperLedger

  const FOUND_ALL := RecoveryFaults(false, false, false)

  // ---- Which position rows are open ----

  /** A row's number is its place in the table. */
  ghost predicate Numbered(rows: seq<PositionRow>) {
    forall k :: 0 <= k < |rows| ==> rows[k].position.id == k
  }

  /** The stored row of a position: the same but for the stop, which is never updated, the age,
      which may lag behind, and the bar count, which is not stored. */
  ghost predicate StoredAs(stored: Position, p: Position) {
    && stored == p.(stopPrice := stored.stopPrice, barsHeld := stored.barsHeld, openBar := stored.openBar)
    && stored.stopPrice <= p.stopPrice && stored.barsHeld <= p.barsHeld
    && (p.side != Long ==> stored.stopPrice == p.stopPrice)
  }

  ghost predicate ClosedHere(closed: seq<ClosedPosition>, k: int) {
    exists i :: 0 <= i < |closed| && closed[i].id == k
  }

  /** The process closed position `k`, but the statement that marks its row failed. */
  ghost predicate LeftOpen(closed: seq<ClosedPosition>, k: int) {
    exists i :: 0 <= i < |closed| && closed[i].id == k && !closed[i].marked
  }

  /** Row `k` is open: the account holds the position, or its close was not marked, or it was
      open in the tables the process started on and the process never had it. */
  ghost predicate StillOpen(before: seq<PositionRow>, a: Account, k: int) {
    || (a.position.Some? && a.position.value.id == k)
    || LeftOpen(a.closed, k)
    || (0 <= k < |before| && before[k].open && !ClosedHere(a.closed, k))
  }

  /** The account's position is the newest open row. */
  ghost predicate HoldsNewest(a: Account, p: Position) {
    var rows := a.db.positions;
    && p.id < |rows| && !ClosedHere(a.closed, p.id)
    && StoredAs(rows[p.id].position, p)
    && (forall k :: p.id < k < |rows| ==> !rows[k].open)
  }

  ghost predicate RowsFollow(before: seq<PositionRow>, a: Account) {
    var rows := a.db.positions;
    && Numbered(rows) && |before| <= |rows|
    && (forall i :: 0 <= i < |a.closed| ==> a.closed[i].id < |rows|)
    && (forall k :: 0 <= k < |rows| ==> (rows[k].open <==> StillOpen(before, a, k)))
    && (a.position.Some? ==> HoldsNewest(a, a.position.value))
  }

  lemma {:induction false} NewestOpen(rows: seq<PositionRow>)
    requires Numbered(rows)
    ensures OpenPositionOf(rows).None? ==> forall k :: 0 <= k < |rows| ==> !rows[k].open
    ensures OpenPositionOf(rows).Some? ==>
              var p := OpenPositionOf(rows).value;
              && p.id < |rows| && rows[p.id].open && rows[p.id].position == p
              && forall k :: p.id < k < |rows| ==> !rows[k].open
  {
    if rows != [] {
      NewestOpen(rows[..|rows| - 1]);
    }
  }

  lemma RecoveryFollows(cfg: PaperConfig, db: Db, day: int, faults: RecoveryFaults)
    requires Numbered(db.positions)
    ensures RowsFollow(db.positions, Recovered(cfg, db, day, faults))
  {
    hide TotalPnl, DayPnl, DayCount, OpenPositionOf;
    NewestOpen(db.positions);
  }

  lemma SameAccountFollows(before: seq<PositionRow>, a: Account, b: Account)
    requires RowsFollow(before, a)
    requires b.db.positions == a.db.positions && b.closed == a.closed && b.position == a.position
    ensures RowsFollow(before, b)
  {
  }

  lemma AgeingFollows(before: seq<PositionRow>, a: Account, faults: Faults)
    requires RowsFollow(before, a)
    ensures RowsFollow(before, Aged(a, faults))
  {
    hide LeftOpen, ClosedHere;
    var b := Aged(a, faults);
    forall k | 0 <= k < |b.db.positions|
      ensures b.db.positions[k].open <==> StillOpen(before, b, k)
    {
      assert b.db.positions[k].open == a.db.positions[k].open;
      assert StillOpen(before, b, k) == StillOpen(before, a, k);
    }
  }

  lemma NotingFollows(before: seq<PositionRow>, a: Account, c: Candle, faults: Faults)
    requires RowsFollow(before, a)
    ensures RowsFollow(before, BarNoted(a, c, faults))
  {
    hide RowsFollow, Aged, DayPnl, DayCount, BarPassed, DayReset;
    var seen := Seen(a, c);
    SameAccountFollows(before, a, seen);
    var turned := seen.(gate := BarPassed(seen.gate));
    SameAccountFollows(before, seen, turned);
    AgeingFollows(before, turned, faults);
    SameAccountFollows(before, Aged(turned, faults), BarStarted(seen, c, faults));
  }

  lemma ClosedGrows(closed: seq<ClosedPosition>, longer: seq<ClosedPosition>, k: int)
    requires |longer| == |closed| + 1 && longer[..|closed|] == closed
    ensures var last := longer[|closed|];
            && (ClosedHere(longer, k) <==> ClosedHere(closed, k) || last.id == k)
            && (LeftOpen(longer, k) <==> LeftOpen(closed, k) || (last.id == k && !last.marked))
  {
    var n := |closed|;
    assert forall i :: 0 <= i < n ==> longer[i] == closed[i];
    if ClosedHere(closed, k) {
      var i :| 0 <= i < n && closed[i].id == k;
      assert longer[i].id == k;
    }
    if LeftOpen(closed, k) {
      var i :| 0 <= i < n && closed[i].id == k && !closed[i].marked;
      assert longer[i].id == k && !longer[i].marked;
    }
  }

  lemma ClosingFollows(
      cfg: PaperConfig, before: seq<PositionRow>, a: Account, price: real, reason: ExitReason, faults: Faults)
    requires RowsFollow(before, a) && a.position.Some?
    ensures RowsFollow(before, PositionClosed(cfg, a, a.position.value, price, reason, faults))
  {
    hide NetPnl, SimulateExit, TradeClosed, PnlUpdated, DrawdownReached, StoredAs, Plus, TradeRowOf;
    var p := a.position.value;
    var b := PositionClosed(cfg, a, p, price, reason, faults);
    var n := |a.closed|;
    assert b.closed[n].id == p.id && b.closed[n].marked == !faults.close;
    forall k | 0 <= k < |b.db.positions|
      ensures b.db.positions[k].open <==> StillOpen(before, b, k)
    {
      assert a.db.positions[k].open <==> StillOpen(before, a, k);
      ClosedGrows(a.closed, b.closed, k);
    }
  }

  lemma HoldingFollows(cfg: PaperConfig, before: seq<PositionRow>, a: Account, close: real)
    requires RowsFollow(before, a) && a.position.Some?
    ensures RowsFollow(before, Held(cfg, a, a.position.value, close))
  {
    hide Trailed, Unrealised, Plus, LeftOpen, ClosedHere;
    TrailKeepsFee(cfg, a.position.value, close);
    var b := Held(cfg, a, a.position.value, close);
    assert forall k :: StillOpen(before, b, k) == StillOpen(before, a, k);
  }

  lemma NotClosedYet(closed: seq<ClosedPosition>, n: nat)
    requires forall i :: 0 <= i < |closed| ==> closed[i].id < n
    ensures !ClosedHere(closed, n) && !LeftOpen(closed, n)
  {
  }

  lemma EnteringFollows(
      cfg: PaperConfig, before: seq<PositionRow>, a: Account, c: Candle, r: Reading, side: Side, faults: Faults)
    requires RowsFollow(before, a) && a.position.None?
    ensures RowsFollow(before, Entered(cfg, a, c, r, side, faults))
  {
    hide EntrySize, SimulateEntry, StopDistance, Over, Minus, LeftOpen, ClosedHere;
    var b := Entered(cfg, a, c, r, side, faults);
    if b.position.Some? {
      var n := |a.db.positions|;
      NotClosedYet(a.closed, n);
      forall k | 0 <= k < n
        ensures b.db.positions[k].open <==> StillOpen(before, b, k)
      {
        assert a.db.positions[k].open <==> StillOpen(before, a, k);
      }
    }
  }

  lemma TickFollows(cfg: PaperConfig, before: seq<PositionRow>, a: Account, tick: Tick)
    requires RowsFollow(before, a)
    ensures RowsFollow(before, AfterTick(cfg, a, tick))
  {
    hide RowsFollow, BarNoted, Held, PositionClosed, Entered, DecideDirection, ExitOf;
    if !Idles(a, tick) {
      var c, b := tick.candle.value, BarNoted(a, tick.candle.value, tick.faults);
      NotingFollows(before, a, c, tick.faults);
      if tick.reading.Some? {
        var r := tick.reading.value;
        var side := DecideDirection(r.tech, cfg.longThreshold, cfg.shortThreshold);
        if b.position.None? {
          EnteringFollows(cfg, before, b, c, r, side, tick.faults);
        } else {
          match ExitOf(cfg, b.position.value, c, side)
          case Some((price, reason)) => ClosingFollows(cfg, before, b, price, reason, tick.faults);
          case None => HoldingFollows(cfg, before, b, c.close);
        }
      }
    }
  }

  lemma {:induction false} ProcessFollows(cfg: PaperConfig, db: Db, p: Process)
    requires Numbered(db.positions)
    ensures RowsFollow(db.positions, Run(cfg, db, p))
    decreases |p.ticks|
  {
    hide AfterTick, Recovered, RowsFollow, Numbered;
    if p.ticks == [] {
      RecoveryFollows(cfg, db, p.today, p.faults);
    } else {
      var n := |p.ticks| - 1;
      var q := p.(ticks := p.ticks[..n]);
      ProcessFollows(cfg, db, q);
      TickFollows(cfg, db.positions, Run(cfg, db, q), p.ticks[n]);
    }
  }

  lemma {:induction false} TablesStayNumbered(cfg: PaperConfig, past: seq<Process>)
    ensures Numbered(TablesAfter(cfg, past).positions)
  {
    hide Run, StillOpen, HoldsNewest;
    if past != [] {
      var n := |past| - 1;
      TablesStayNumbered(cfg, past[..n]);
      ProcessFollows(cfg, TablesAfter(cfg, past[..n]), past[n]);
    }
  }

  /** Through any number of restarts, whatever fails: a position row is open exactly when the
      account holds it, when its close was not marked, or when it was open before and the
      process never had it; and the account's own is the newest of them. */
  lemma TablesMirrorAccount(cfg: PaperConfig, past: seq<Process>, now: Process)
    ensures RowsFollow(TablesAfter(cfg, past).positions, Run(cfg, TablesAfter(cfg, past), now))
  {
    hide Run, TablesAfter, RowsFollow, Numbered;
    TablesStayNumbered(cfg, past);
    ProcessFollows(cfg, TablesAfter(cfg, past), now);
  }

  // ---- What the trades table sums to ----

  /** What the process made on closes whose trade statement failed. */
  function Lost(closed: seq<ClosedPosition>): real {
    if closed == [] then 0.0
    else
      var last := closed[|closed| - 1];
      Lost(closed[..|closed| - 1]) + if last.recorded then 0.0 else last.netPnl
  }

  lemma ClosingCounts(cfg: PaperConfig, a: Account, price: real, reason: ExitReason, faults: Faults)
    requires a.position.Some?
    ensures var b := PositionClosed(cfg, a, a.position.value, price, reason, faults);
            TotalPnl(b.db.trades) + Lost(b.closed) - NetSum(b.closed)
            == TotalPnl(a.db.trades) + Lost(a.closed) - NetSum(a.closed)
  {
    hide NetPnl, SimulateExit, TradeClosed, PnlUpdated, DrawdownReached, Plus;
    var b := PositionClosed(cfg, a, a.position.value, price, reason, faults);
    assert b.closed[..|a.closed|] == a.closed;
    if !faults.trade {
      assert b.db.trades[..|a.db.trades|] == a.db.trades;
    }
  }

  lemma NotingKeepsTrades(a: Account, c: Candle, faults: Faults)
    ensures BarNoted(a, c, faults).db.trades == a.db.trades && BarNoted(a, c, faults).closed == a.closed
  {
    hide DayPnl, DayCount, BarPassed, DayReset;
  }

  lemma EnteringKeepsTrades(cfg: PaperConfig, a: Account, c: Candle, r: Reading, side: Side, faults: Faults)
    ensures var b := Entered(cfg, a, c, r, side, faults); b.db.trades == a.db.trades && b.closed == a.closed
  {
    hide EntrySize, SimulateEntry, Opening, Minus;
  }

  lemma TickCounts(cfg: PaperConfig, a: Account, tick: Tick)
    ensures var b := AfterTick(cfg, a, tick);
            TotalPnl(b.db.trades) + Lost(b.closed) - NetSum(b.closed)
            == TotalPnl(a.db.trades) + Lost(a.closed) - NetSum(a.closed)
  {
    hide BarNoted, PositionClosed, Entered, DecideDirection, ExitOf, Trailed, Unrealised, Plus, TotalPnl, Lost, NetSum;
    if !Idles(a, tick) {
      var c, b := tick.candle.value, BarNoted(a, tick.candle.value, tick.faults);
      NotingKeepsTrades(a, c, tick.faults);
      if tick.reading.Some? {
        var r := tick.reading.value;
        var side := DecideDirection(r.tech, cfg.longThreshold, cfg.shortThreshold);
        if b.position.None? {
          EnteringKeepsTrades(cfg, b, c, r, side, tick.faults);
        } else if ExitOf(cfg, b.position.value, c, side).Some? {
          var (price, reason) := ExitOf(cfg, b.position.value, c, side).value;
          ClosingCounts(cfg, b, price, reason, tick.faults);
        }
      }
    }
  }

  /** The trades table grows by what the process made, less what was lost. */
  lemma {:induction false} TradesGrow(cfg: PaperConfig, db: Db, p: Process)
    ensures var a := Run(cfg, db, p);
            TotalPnl(a.db.trades) == TotalPnl(db.trades) + NetSum(a.closed) - Lost(a.closed)
    decreases |p.ticks|
  {
    hide AfterTick, TotalPnl, DayPnl, DayCount, TakenOver;
    if p.ticks == [] {
      assert Lost([]) == 0.0 && NetSum([]) == 0.0;
    } else {
      var n := |p.ticks| - 1;
      var q := p.(ticks := p.ticks[..n]);
      TradesGrow(cfg, db, q);
      TickCounts(cfg, Run(cfg, db, q), p.ticks[n]);
    }
  }

  /** What the process did not know when it started: the realised PnL of the tables, if the
      queries of its recovery failed. */
  function Missed(cfg: PaperConfig, db: Db, p: Process): real {
    TotalPnl(db.trades) - Begun(cfg, db, p).totalPnL
  }

  lemma NothingMissed(cfg: PaperConfig, db: Db, p: Process)
    requires !p.faults.open && !p.faults.total
    ensures Missed(cfg, db, p) == 0.0
  {
    hide TotalPnl, DayPnl, DayCount, TakenOver;
  }

  // ---- Restart ----

  /** The position a restart finds when the account was flat: the newest row left open, if any. */
  ghost predicate ComesBack(before: seq<PositionRow>, a: Account, found: Option<Position>) {
    match found
    case None => forall k :: 0 <= k < |a.db.positions| ==> !StillOpen(before, a, k)
    case Some(q) =>
      StillOpen(before, a, q.id) && forall k :: q.id < k < |a.db.positions| ==> !StillOpen(before, a, k)
  }

  lemma FoundPosition(cfg: PaperConfig, before: seq<PositionRow>, a: Account, day: int)
    requires RowsFollow(before, a)
    ensures var r := Recovered(cfg, a.db, day, FOUND_ALL);
            && (a.position.Some? ==> r.position.Some? && StoredAs(r.position.value, a.position.value))
            && (a.position.None? ==> ComesBack(before, a, r.position))
  {
    hide TotalPnl, DayPnl, DayCount, OpenPositionOf, LeftOpen, ClosedHere;
    NewestOpen(a.db.positions);
  }

  /** Restarting at any moment, whatever statements failed before. The realised PnL loses what
      was lost on unrecorded closes, and regains what this process had missed; the balance is
      the capital plus that, so it also drops the drift and the open entry fee. The account's
      own position comes back with the stop it was opened with, which for a long can only be
      lower, and an age that can only lag; a flat account gets the newest row left open. The
      gate and the drawdown stop start over. */
  lemma RestartKeepsAllButDrift(cfg: PaperConfig, past: seq<Process>, now: Process, day: int)
    ensures var before := TablesAfter(cfg, past);
            var a := Run(cfg, before, now);
            var r := Recovered(cfg, a.db, day, FOUND_ALL);
            var off := Lost(a.closed) - Missed(cfg, before, now);
            && r.totalPnL == a.totalPnL - off
            && r.balance == Val(cfg.initialCapital + r.totalPnL)
            && a.balance == Minus(Plus(Plus(r.balance, Val(off)), Drift(a.closed)), OpenFee(a))
            && (a.position.Some? ==> r.position.Some? && StoredAs(r.position.value, a.position.value))
            && (a.position.None? ==> ComesBack(before.positions, a, r.position))
            && r.gate == FRESH_GATE && !r.stopped
  {
    hide Run, TablesAfter, TotalPnl, DayPnl, DayCount, Drift, NetSum, Lost, TakenOver, RowsFollow, ComesBack, StoredAs;
    var before := TablesAfter(cfg, past);
    var a := Run(cfg, before, now);
    TablesMirrorAccount(cfg, past, now);
    TradesGrow(cfg, before, now);
    LedgerHolds(cfg, before, now);
    FoundPosition(cfg, before.positions, a, day);
  }

  /** So, when the process had found the PnL of the tables, a restart keeps the realised PnL if
      and only if what was lost sums to zero. */
  lemma RestartKeepsTotalExactly(cfg: PaperConfig, past: seq<Process>, now: Process, day: int)
    requires !now.faults.open && !now.faults.total
    ensures var a := Run(cfg, TablesAfter(cfg, past), now);
            Recovered(cfg, a.db, day, FOUND_ALL).totalPnL == a.totalPnL <==> Lost(a.closed) == 0.0
  {
    hide Run, TablesAfter, Recovered, Lost;
    RestartKeepsAllButDrift(cfg, past, now, day);
    NothingMissed(cfg, TablesAfter(cfg, past), now);
  }

  /** And when it had found no open row, a flat account stays flat if and only if every close
      was marked. */
  lemma FlatStaysFlatExactly(cfg: PaperConfig, past: seq<Process>, now: Process, day: int)
    requires forall k :: 0 <= k < |TablesAfter(cfg, past).positions| ==> !TablesAfter(cfg, past).positions[k].open
    requires Run(cfg, TablesAfter(cfg, past), now).position.None?
    ensures var a := Run(cfg, TablesAfter(cfg, past), now);
            Recovered(cfg, a.db, day, FOUND_ALL).position.None? <==>
            forall i :: 0 <= i < |a.closed| ==> a.closed[i].marked
  {
    hide Run, TablesAfter, Recovered;
    var before := TablesAfter(cfg, past).positions;
    var a := Run(cfg, TablesAfter(cfg, past), now);
    RestartKeepsAllButDrift(cfg, past, now, day);
    TablesMirrorAccount(cfg, past, now);
    var found := Recovered(cfg, a.db, day, FOUND_ALL).position;
    if i :| 0 <= i < |a.closed| && !a.closed[i].marked {
      assert LeftOpen(a.closed, a.closed[i].id);
      assert StillOpen(before, a, a.closed[i].id);
    }
    if found.Some? {
      assert LeftOpen(a.closed, found.value.id);
    }
  }

  // ---- When nothing fails ----

  ghost predicate FaultFree(p: Process) {
    p.faults == FOUND_ALL && forall k :: 0 <= k < |p.ticks| ==> p.ticks[k].faults == NO_FAULTS
  }

  ghost predicate AllFaultFree(past: seq<Process>) {
    forall k :: 0 <= k < |past| ==> FaultFree(past[k])
  }

  /** Every close was recorded and marked, and the stored age is the real one. */
  ghost predicate Clean(a: Account) {
    && (forall i :: 0 <= i < |a.closed| ==> a.closed[i].recorded && a.closed[i].marked)
    && (a.position.Some? && a.position.value.id < |a.db.positions| ==>
          a.db.positions[a.position.value.id].position.barsHeld == a.position.value.barsHeld)
  }

  lemma NotingKeepsClean(a: Account, c: Candle)
    requires Clean(a)
    ensures Clean(BarNoted(a, c, NO_FAULTS))
  {
    hide DayPnl, DayCount, BarPassed, DayReset;
  }

  lemma ManagingKeepsClean(cfg: PaperConfig, a: Account, c: Candle, side: Side)
    requires Clean(a) && a.position.Some?
    ensures Clean(Managed(cfg, a, a.position.value, c, side, NO_FAULTS))
  {
    hide ExitOf, NetPnl, SimulateExit, CloseStored, DrawdownReached, PnlUpdated, TradeClosed, Unrealised, Plus, Trailed;
    TrailKeepsFee(cfg, a.position.value, c.close);
  }

  lemma TickKeepsClean(cfg: PaperConfig, a: Account, tick: Tick)
    requires Clean(a) && tick.faults == NO_FAULTS
    ensures Clean(AfterTick(cfg, a, tick))
  {
    hide BarNoted, Managed, EntrySize, SimulateEntry, StopDistance, Over, Minus, DecideDirection;
    if !Idles(a, tick) {
      var c, b := tick.candle.value, BarNoted(a, tick.candle.value, tick.faults);
      NotingKeepsClean(a, c);
      if tick.reading.Some? && b.position.Some? {
        var side := DecideDirection(tick.reading.value.tech, cfg.longThreshold, cfg.shortThreshold);
        ManagingKeepsClean(cfg, b, c, side);
      }
    }
  }

  lemma {:induction false} ProcessStaysClean(cfg: PaperConfig, db: Db, p: Process)
    requires Numbered(db.positions) && FaultFree(p)
    ensures Clean(Run(cfg, db, p))
    decreases |p.ticks|
  {
    hide AfterTick, TotalPnl, DayPnl, DayCount, OpenPositionOf;
    if p.ticks == [] {
      NewestOpen(db.positions);
    } else {
      var n := |p.ticks| - 1;
      var q := p.(ticks := p.ticks[..n]);
      ProcessStaysClean(cfg, db, q);
      TickKeepsClean(cfg, Run(cfg, db, q), p.ticks[n]);
    }
  }

  lemma {:induction false} NothingLost(closed: seq<ClosedPosition>)
    requires forall i :: 0 <= i < |closed| ==> closed[i].recorded
    ensures Lost(closed) == 0.0
  {
    if closed != [] {
      NothingLost(closed[..|closed| - 1]);
    }
  }

  ghost predicate OneOpen(rows: seq<PositionRow>) {
    forall j, k :: 0 <= j < |rows| && 0 <= k < |rows| && rows[j].open && rows[k].open ==> j == k
  }

  /** A position the account has or has closed stays so. */
  lemma TickKeepsHad(cfg: PaperConfig, a: Account, tick: Tick, k: int)
    requires (a.position.Some? && a.position.value.id == k) || ClosedHere(a.closed, k)
    ensures var b := AfterTick(cfg, a, tick);
            (b.position.Some? && b.position.value.id == k) || ClosedHere(b.closed, k)
  {
    hide DecideDirection, ExitOf, SimulateExit, NetPnl, CloseStored, DrawdownReached, BarsStored, BarPassed, Trailed;
    hide Unrealised, PnlUpdated, Plus, EntrySize, SimulateEntry, Opening, DayPnl, DayCount;
    if !Idles(a, tick) {
      var c, m := tick.candle.value, BarNoted(a, tick.candle.value, tick.faults);
      assert m.closed == a.closed;
      assert a.position.Some? ==> m.position.Some? && m.position.value.id == a.position.value.id;
      if m.position.Some? {
        TrailKeepsFee(cfg, m.position.value, c.close);
      }
      var b := AfterTick(cfg, a, tick);
      if |b.closed| > |a.closed| {
        assert b.closed[..|a.closed|] == a.closed;
        ClosedGrows(a.closed, b.closed, k);
      }
    }
  }

  /** A process that finds at most one open row takes it over, so when nothing fails the only
      row open is the one the account holds. */
  lemma {:induction false} TakesItsRow(cfg: PaperConfig, db: Db, p: Process)
    requires Numbered(db.positions) && OneOpen(db.positions) && p.faults == FOUND_ALL
    ensures var a := Run(cfg, db, p);
            forall k :: 0 <= k < |db.positions| && db.positions[k].open ==>
              (a.position.Some? && a.position.value.id == k) || ClosedHere(a.closed, k)
    decreases |p.ticks|
  {
    hide AfterTick, TotalPnl, DayPnl, DayCount, OpenPositionOf;
    if p.ticks == [] {
      NewestOpen(db.positions);
    } else {
      var n := |p.ticks| - 1;
      var q := p.(ticks := p.ticks[..n]);
      TakesItsRow(cfg, db, q);
      var a := Run(cfg, db, q);
      forall k | 0 <= k < |db.positions| && db.positions[k].open
        ensures var b := Run(cfg, db, p); (b.position.Some? && b.position.value.id == k) || ClosedHere(b.closed, k)
      {
        TickKeepsHad(cfg, a, p.ticks[n], k);
      }
    }
  }

  lemma UniqueRow(a: Account)
    requires forall k :: 0 <= k < |a.db.positions| && a.db.positions[k].open ==>
               a.position.Some? && a.position.value.id == k
    ensures OneOpen(a.db.positions)
  {
  }

  lemma OnlyOwnRowOpen(cfg: PaperConfig, db: Db, p: Process)
    requires Numbered(db.positions) && OneOpen(db.positions) && FaultFree(p)
    ensures var a := Run(cfg, db, p);
            && OneOpen(a.db.positions)
            && forall k :: 0 <= k < |a.db.positions| && a.db.positions[k].open ==>
                 a.position.Some? && a.position.value.id == k
  {
    hide Run, HoldsNewest, Numbered, OneOpen;
    ProcessFollows(cfg, db, p);
    ProcessStaysClean(cfg, db, p);
    TakesItsRow(cfg, db, p);
    var a := Run(cfg, db, p);
    assert OneOpen(a.db.positions) by {
      assert forall k :: 0 <= k < |a.db.positions| && a.db.positions[k].open ==>
               a.position.Some? && a.position.value.id == k;
      UniqueRow(a);
    }
  }

  lemma {:induction false} OneRowOpen(cfg: PaperConfig, past: seq<Process>)
    requires AllFaultFree(past)
    ensures OneOpen(TablesAfter(cfg, past).positions)
  {
    hide Run, HoldsNewest, FaultFree;
    if past != [] {
      var n := |past| - 1;
      var db := TablesAfter(cfg, past[..n]);
      OneRowOpen(cfg, past[..n]);
      TablesStayNumbered(cfg, past[..n]);
      OnlyOwnRowOpen(cfg, db, past[n]);
    }
  }

  /** When no statement ever fails, a restart keeps the realised PnL, brings back exactly the
      position the account holds, at its age, and a flat account stays flat. */
  lemma FaultFreeRestart(cfg: PaperConfig, past: seq<Process>, now: Process, day: int)
    requires AllFaultFree(past) && FaultFree(now)
    ensures var a := Run(cfg, TablesAfter(cfg, past), now);
            var r := Recovered(cfg, a.db, day, FOUND_ALL);
            && r.totalPnL == a.totalPnL
            && a.balance == Minus(Plus(r.balance, Drift(a.closed)), OpenFee(a))
            && (a.position.None? <==> r.position.None?)
            && (a.position.Some? ==>
                  && StoredAs(r.position.value, a.position.value)
                  && r.position.value.barsHeld == a.position.value.barsHeld)
  {
    hide Run, TablesAfter, Drift, Lost, OneOpen, Numbered;
    hide TotalPnl, DayPnl, DayCount, OpenPositionOf, LeftOpen, ClosedHere;
    var before := TablesAfter(cfg, past);
    var a := Run(cfg, before, now);
    RestartKeepsAllButDrift(cfg, past, now, day);
    OneRowOpen(cfg, past);
    TablesStayNumbered(cfg, past);
    OnlyOwnRowOpen(cfg, before, now);
    ProcessFollows(cfg, before, now);
    ProcessStaysClean(cfg, before, now);
    NothingLost(a.closed);
    NothingMissed(cfg, before, now);
    NewestOpen(a.db.positions);
  }
}
