/** Small concrete processes of the paper trader on which it does less than one might expect. */
module PaperExamples {
  import opened Numeric
  import opened MarketData
  import opened TradeGate
  import opened PaperTypes
  import opened PaperEngine
  import opened PaperLedger
  import opened PaperRestart

  /** Positions are held for one bar. */
  function Settings(commission: real): PaperConfig {
    PaperConfig(
      10000.0, commission, 0.0, 1.0, 1, 1.0, 100.0, 100.0, 60.0, 40.0,
      GateConfig(0, 5, -0.05, 10000.0, 0.45, 0.4, 0.4, 0.2))
  }

  const STRONG := Reading(Val(85.0), Val(90.0), Val(90.0), TrendingLowVol, 1.0, 1.0)

  function FlatBar(time: int): Candle {
    Candle(time, 100.0, 100.0, 100.0, 100.0, 0.0)
  }

  function Poll(time: int, faults: Faults): Tick {
    Tick(Some(FlatBar(time)), Some(STRONG), faults)
  }

  /** Looks at a first bar, enters on the second, and closes on the third with `faults`. */
  function OneTrade(faults: Faults): Process {
    Process(0, FOUND_ALL, [Poll(0, NO_FAULTS), Poll(1, NO_FAULTS), Poll(2, faults)])
  }

  const TRADE_FAILS := NO_FAULTS.(trade := true)
  const CLOSE_FAILS := NO_FAULTS.(close := true)

  lemma NothingFound(cfg: PaperConfig)
    ensures Recovered(cfg, EMPTY_DB, 0, FOUND_ALL)
            == Fresh(cfg, EMPTY_DB).(currentDay := Some(0))
  {
  }

  lemma FirstPollOnlyLooks(cfg: PaperConfig, a: Account)
    requires a == Fresh(cfg, EMPTY_DB).(currentDay := Some(0))
    ensures AfterTick(cfg, a, Poll(0, NO_FAULTS)) == Seen(a, FlatBar(0))
  {
    hide Entered, Managed, DecideDirection;
  }

  lemma StrongSignalIsSized(commission: real, a: Account)
    requires a.gate == FRESH_GATE && a.equity == Val(10000.0)
    ensures EntrySize(Settings(commission), a, FlatBar(1), STRONG) == Some(Val(100.0))
  {
    var inp := GateInput(STRONG);
    assert Blend(Settings(commission).GateSettings(), inp) == 88.0;
    SizeRisksFraction(10000.0, 100.0, 1.0, 1.0, 1.0);
  }

  /** The position the second poll opens. */
  ghost predicate Entry(commission: real, p: Position) {
    && p.side == Long && p.stopPrice == 99.0 && p.entryPrice == 100.0 && p.barsHeld == 0 && p.id == 0
    && p.entryFee == Val(100.0 * commission) && (commission != 0.0 ==> p.quantity == Val(100.0))
  }

  lemma SecondPollEnters(commission: real, a: Account)
    requires a == Seen(Fresh(Settings(commission), EMPTY_DB).(currentDay := Some(0)), FlatBar(0))
    ensures var b := AfterTick(Settings(commission), a, Poll(1, NO_FAULTS));
            && b.position.Some? && Entry(commission, b.position.value)
            && b.lastBar == Some(1) && b.currentDay == Some(0) && b.closed == [] && !b.carried
  {
    hide Managed, EntrySize, DayStarted;
    var b := BarNoted(a, FlatBar(1), NO_FAULTS);
    assert b.gate == FRESH_GATE && b.position.None? && b.equity == Val(10000.0);
    StrongSignalIsSized(commission, b);
    if commission != 0.0 {
      QuotientOfProduct(100.0, commission);
    }
  }

  lemma FlatTradeLosesFees(commission: real, p: Position)
    requires p.side == Long && p.entryPrice == 100.0
    requires p.quantity == Val(100.0) && p.entryFee == Val(100.0 * commission)
    ensures NetPnl(Settings(commission), p, SimulateExit(Settings(commission), 100.0, p.quantity, p.side))
            == -(200.0 * commission)
  {
  }

  lemma ThirdPollCloses(commission: real, a: Account, faults: Faults)
    requires a.position.Some? && Entry(commission, a.position.value)
    requires a.lastBar == Some(1) && a.closed == [] && !a.carried
    ensures var b := AfterTick(Settings(commission), a, Poll(2, faults));
            && b.position.None? && |b.closed| == 1
            && (commission != 0.0 ==>
                  && b.closed[0].quantity == Val(100.0) && b.closed[0].netPnl == -(200.0 * commission)
                  && b.closed[0].recorded == !faults.trade && b.closed[0].marked == !faults.close)
  {
    hide Entered, CloseStored, DrawdownReached, DayStarted, BarsStored, Plus;
    var m := BarNoted(a, FlatBar(2), faults);
    var p := m.position.value;
    assert ExitOf(Settings(commission), p, FlatBar(2), Long) == Some((100.0, MaxHold));
    if commission != 0.0 {
      FlatTradeLosesFees(commission, p);
    }
  }

  lemma ThreePolls(cfg: PaperConfig, a: Account, t0: Tick, t1: Tick, t2: Tick)
    ensures AfterTicks(cfg, a, [t0, t1, t2]) == AfterTick(cfg, AfterTick(cfg, AfterTick(cfg, a, t0), t1), t2)
  {
    hide AfterTick;
    assert [t0, t1, t2][..2] == [t0, t1] && [t0, t1][..1] == [t0] && [t0][..0] == [];
    assert AfterTicks(cfg, a, [t0]) == AfterTick(cfg, AfterTicks(cfg, a, []), t0);
    assert AfterTicks(cfg, a, [t0, t1]) == AfterTick(cfg, AfterTicks(cfg, a, [t0]), t1);
  }

  /** After its one trade the process is flat. */
  lemma OneTradeDone(commission: real, faults: Faults)
    ensures var a := Run(Settings(commission), EMPTY_DB, OneTrade(faults));
            && a.position.None? && |a.closed| == 1
            && (commission != 0.0 ==>
                  && a.closed[0].quantity == Val(100.0) && a.closed[0].netPnl == -(200.0 * commission)
                  && a.closed[0].recorded == !faults.trade && a.closed[0].marked == !faults.close)
  {
    hide AfterTick, Recovered, Settings;
    var cfg := Settings(commission);
    var begun := Begun(cfg, EMPTY_DB, OneTrade(faults));
    NothingFound(cfg);
    var seen := AfterTick(cfg, begun, Poll(0, NO_FAULTS));
    FirstPollOnlyLooks(cfg, begun);
    SecondPollEnters(commission, seen);
    ThirdPollCloses(commission, AfterTick(cfg, seen, Poll(1, NO_FAULTS)), faults);
    ThreePolls(cfg, begun, Poll(0, NO_FAULTS), Poll(1, NO_FAULTS), Poll(2, faults));
  }

  lemma NoPast(cfg: PaperConfig)
    ensures TablesAfter(cfg, []) == EMPTY_DB
  {
  }

  /** With no commission the quantity of the entry is 0/0, and closing it makes the balance NaN. */
  lemma FreeTradingLosesBalance()
    ensures Run(Settings(0.0), EMPTY_DB, OneTrade(NO_FAULTS)).balance == NaN
  {
    hide Run, TablesAfter;
    OneTradeDone(0.0, NO_FAULTS);
    NoPast(Settings(0.0));
    BalanceDefinedExactly(Settings(0.0), [], OneTrade(NO_FAULTS));
  }

  /** With one, the flat account's balance is not capital plus realised PnL. */
  lemma PaidTradingIsOff()
    ensures var a := Run(Settings(0.001), EMPTY_DB, OneTrade(NO_FAULTS));
            a.position.None? && a.balance != Val(10000.0 + a.totalPnL)
  {
    hide Run, TablesAfter;
    OneTradeDone(0.001, NO_FAULTS);
    NoPast(Settings(0.001));
    ReconcilesExactly(Settings(0.001), [], OneTrade(NO_FAULTS));
  }

  lemma LostOne(closed: seq<ClosedPosition>)
    requires |closed| == 1 && !closed[0].recorded
    ensures Lost(closed) == closed[0].netPnl
  {
    assert closed[..0] == [];
    assert Lost([]) == 0.0;
  }

  /** A trade statement that fails makes the next process forget what the trade lost. */
  lemma UnrecordedTradeIsForgotten()
    ensures var a := Run(Settings(0.001), EMPTY_DB, OneTrade(TRADE_FAILS));
            Recovered(Settings(0.001), a.db, 0, FOUND_ALL).totalPnL != a.totalPnL
  {
    hide Run, TablesAfter, Recovered;
    OneTradeDone(0.001, TRADE_FAILS);
    NoPast(Settings(0.001));
    RestartKeepsTotalExactly(Settings(0.001), [], OneTrade(TRADE_FAILS), 0);
    LostOne(Run(Settings(0.001), EMPTY_DB, OneTrade(TRADE_FAILS)).closed);
  }

  /** A close statement that fails brings the closed position back. */
  lemma UnmarkedCloseComesBack()
    ensures var a := Run(Settings(0.001), EMPTY_DB, OneTrade(CLOSE_FAILS));
            a.position.None? && Recovered(Settings(0.001), a.db, 0, FOUND_ALL).position.Some?
  {
    hide Run, TablesAfter, Recovered;
    OneTradeDone(0.001, CLOSE_FAILS);
    NoPast(Settings(0.001));
    FlatStaysFlatExactly(Settings(0.001), [], OneTrade(CLOSE_FAILS), 0);
  }
}
