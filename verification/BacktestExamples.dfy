/** Small concrete backtests on which the engine does less than one might expect. */
module BacktestExamples {
  import opened Numeric
  import opened MarketData
  import opened TradeGate
  import opened BacktestTypes
  import opened BacktestEngine
  import opened BacktestLedger
  import opened BacktestComparisons

  const GATE := GateConfig(0, 5, -0.05, 10000.0, 0.45, 0.4, 0.4, 0.2)

  /** No warm-up and a holding period of one bar. */
  function Settings(filter: DirectionFilter): Config {
    Config(10000.0, 0.001, 0.0, 1, filter, 1.0, 0, 60.0, 40.0, GATE)
  }

  /** Three bars on which nothing moves, with the same technical score each. */
  function FlatMarket(tech: real): Data {
    Data(
      seq(3, i => Candle(i, 100.0, 100.0, 100.0, 100.0, 1.0)),
      seq(3, i => Signal(i, Val(tech), Val(90.0), Val(90.0), TrendingLowVol, Val(1.0))),
      map[])
  }

  lemma FlatMarketPasses(tech: real, filter: DirectionFilter)
    requires 50.0 <= tech <= 85.0
    ensures Runnable(Settings(filter), FlatMarket(tech))
    ensures Triggers(Settings(filter), FlatMarket(tech), START, 0)
  {
    var inp := GateInput(FlatMarket(tech), 0);
    assert 70.0 <= Blend(GATE, inp) <= 100.0;
  }

  /** A strong long signal under the filter "short": its bar is missing from the curve. */
  lemma FilteredBarIsMissing()
    ensures var cfg, d := Settings(OnlyShort), FlatMarket(85.0);
            Runnable(cfg, d) && |FinalState(cfg, d).curve| < LiveBars(cfg, d)
  {
    hide FinalState, Triggers;
    var cfg, d := Settings(OnlyShort), FlatMarket(85.0);
    FlatMarketPasses(85.0, OnlyShort);
    assert StateAt(cfg, d, 0) == START;
    assert Filtered(cfg, d, START, 0);
    CurveLength(cfg, d);
  }

  lemma SignalBarSchedules(cfg: Config, d: Data)
    requires cfg == Settings(AnyDirection) && d == FlatMarket(50.0) && Triggers(cfg, d, START, 0)
    ensures var s := Step(cfg, d, START, 0);
            && s.trades == [] && s.position.None?
            && s.pending == Some(ScheduledEntry(cfg, d, GateOutput(cfg, d, START, 0), 0))
  {
    hide Triggers, GateOutput, ScheduledEntry, EquityNow;
  }

  lemma EntryBarTrades(cfg: Config, d: Data, s: BarState)
    requires cfg == Settings(AnyDirection) && d == FlatMarket(50.0)
    requires s.trades == [] && s.position.None?
    requires s.pending == Some(ScheduledEntry(cfg, d, GateOutput(cfg, d, START, 0), 0))
    ensures |Step(cfg, d, s, 1).trades| == 1
    ensures var t := Step(cfg, d, s, 1).trades[0]; t.position.direction == Undecided && t.pnl < 0.0
  {
    hide GateOutput, StopPriceFor, EquityNow, Told, Over;
    var p := s.pending.value;
    assert p.direction == Undecided && p.entryPrice == 100.0 && p.size > 0.0;
    var held := Opened(p, 1, 1).(holdingBars := 1);
    assert ExitOf(cfg, held, d.candles[1]) == Some((100.0, Expiry));
    assert NetPnl(cfg, held, 100.0) == -(held.size + 100.0 / 100.0 * held.size) * 0.001;
  }

  lemma FirstTradeIsFinal(cfg: Config, d: Data)
    requires Runnable(cfg, d) && cfg.warmupBars == 0 && |d.candles| == 3
    requires |Step(cfg, d, Step(cfg, d, START, 0), 1).trades| == 1
    ensures Step(cfg, d, Step(cfg, d, START, 0), 1).trades[0] in FinalState(cfg, d).trades
  {
    hide Step;
    assert StateAt(cfg, d, 1) == Step(cfg, d, START, 0);
    assert StateAt(cfg, d, 2) == Step(cfg, d, StateAt(cfg, d, 1), 1);
    BooksOnlyGrow(cfg, d, 2, 3);
    var t := StateAt(cfg, d, 2).trades[0];
    assert StateAt(cfg, d, 3).trades[0] == t;
  }

  /** Scores between the thresholds without a filter: a trade without a direction is on the
      books, and it lost its fee. */
  lemma UndecidedTradeHappens()
    ensures var cfg, d := Settings(AnyDirection), FlatMarket(50.0);
            && Runnable(cfg, d)
            && exists t :: t in FinalState(cfg, d).trades && t.position.direction == Undecided && t.pnl < 0.0
  {
    hide FinalState, StateAt, Step;
    var cfg, d := Settings(AnyDirection), FlatMarket(50.0);
    FlatMarketPasses(50.0, AnyDirection);
    SignalBarSchedules(cfg, d);
    EntryBarTrades(cfg, d, Step(cfg, d, START, 0));
    FirstTradeIsFinal(cfg, d);
  }
}
