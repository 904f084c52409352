/** Entities of the paper trader (internal/papertrade/types.go, executor.go and the tables
    of store.go), and the fills it simulates. */
module PaperTypes {
  import opened Numeric
  import opened MarketData
  import opened TradeGate

  datatype Side = Long | Short | NoSide

  datatype PaperConfig = PaperConfig(
    initialCapital: real, commission: real, slippage: real, atrMultiplier: real, holdingBars: int,
    riskPerTradePct: real, maxDailyDrawdownPct: real, maxTotalDrawdownPct: real,
    longThreshold: real, shortThreshold: real, gate: GateConfig)
  {
    /** The gate measures its drawdown against the account's capital. */
    function GateSettings(): GateConfig {
      gate.(startingCapital := initialCapital)
    }
  }

  /** The latest feature row: the scores drawn from it, the ATR and the predicted probability. */
  datatype Reading = Reading(
    tech: Num, orderFlow: Num, regime: Num, regimeLabel: RegimeLabel, atr: real, mlProb: real)

  /** Which database statements of a tick fail. */
  datatype Faults = Faults(order: bool, position: bool, trade: bool, close: bool, bars: bool, stats: bool)

  const NO_FAULTS := Faults(false, false, false, false, false, false)

  /** One poll: the latest candle, if any could be loaded, and its features, if any. */
  datatype Tick = Tick(candle: Option<Candle>, reading: Option<Reading>, faults: Faults)

  datatype ExitReason = StopLoss | MaxHold | OppositeSignal

  /** `id` is the row in the positions table; `openBar` counts the bars seen when it opened. */
  datatype Position = Position(
    id: nat, side: Side, quantity: Num, entryPrice: real, entryFee: Num, stopPrice: real,
    openTime: int, barsHeld: int, openBar: nat)

  datatype TradeRow = TradeRow(
    entryDay: int, side: Side, entryPrice: real, exitPrice: real, size: Num, commission: Num,
    netPnl: real, holdingBars: int, reason: ExitReason)

  datatype PositionRow = PositionRow(position: Position, open: bool)

  datatype Db = Db(trades: seq<TradeRow>, positions: seq<PositionRow>)

  const MS_PER_DAY := 86400000

  function DayOf(time: int): int {
    time / MS_PER_DAY
  }

  function DecideDirection(tech: Num, longThreshold: real, shortThreshold: real): Side {
    if tech.NaN? then NoSide
    else if tech.v >= longThreshold then Long
    else if tech.v <= shortThreshold then Short
    else NoSide
  }

  // ---- Fills ----

  datatype Fill = Fill(price: real, slippage: real, commission: Num)

  /** `price` moved by `slippage` against someone who buys (or sells). */
  function Against(price: real, buying: bool, slippage: real): real {
    if buying then price * (1.0 + slippage) else price * (1.0 - slippage)
  }

  function EntrySlippage(size: Num, slippage: real, volume: real): real {
    if volume > 0.0 && size.Val? && size.v > volume * 0.01 then
      slippage + slippage * MinReal(size.v / (volume * 0.01), 2.0)
    else slippage
  }

  function SimulateEntry(cfg: PaperConfig, price: real, size: Num, side: Side, volume: real): Fill {
    var slippage := EntrySlippage(size, cfg.slippage, volume);
    Fill(if side == NoSide then price else Against(price, side == Long, slippage), slippage,
         Times(size, Val(cfg.commission)))
  }

  function SimulateExit(cfg: PaperConfig, price: real, size: Num, side: Side): Fill {
    Fill(if side == NoSide then price else Against(price, side == Short, cfg.slippage), cfg.slippage,
         Times(size, Val(cfg.commission)))
  }

  lemma RatioAboveOne(a: real, b: real)
    requires a > b > 0.0
    ensures a / b > 1.0
  {
    var q := a / b;
    assert q * b == a;
    if q <= 1.0 {
      MulMono(b, q, 1.0);
      assert false;
    }
  }

  /** The volume premium never lowers the slippage and at most triples it. */
  lemma EntrySlippageBounded(size: Num, slippage: real, volume: real)
    requires slippage >= 0.0
    ensures slippage <= EntrySlippage(size, slippage, volume) <= 3.0 * slippage
  {
    if volume > 0.0 && size.Val? && size.v > volume * 0.01 {
      RatioAboveOne(size.v, volume * 0.01);
      var factor := MinReal(size.v / (volume * 0.01), 2.0);
      MulNonneg(slippage, factor);
      MulMono(slippage, factor, 2.0);
    }
  }

  lemma ScaledWithin(price: real, a: real, b: real, c: real)
    requires price >= 0.0 && a <= b <= c
    ensures price * a <= price * b <= price * c
  {
    MulMono(price, a, b);
    MulMono(price, b, c);
  }

  lemma AgainstWithin(price: real, low: real, slippage: real, high: real)
    requires price >= 0.0 && low <= slippage <= high
    ensures price * (1.0 + low) <= Against(price, true, slippage) <= price * (1.0 + high)
    ensures price * (1.0 - high) <= Against(price, false, slippage) <= price * (1.0 - low)
  {
    ScaledWithin(price, 1.0 + low, 1.0 + slippage, 1.0 + high);
    ScaledWithin(price, 1.0 - high, 1.0 - slippage, 1.0 - low);
  }

  /** So the fill is never better than asked: a long pays at least the slippage more and at
      most three times it, a short receives as much less. */
  lemma EntryNeverBetter(cfg: PaperConfig, price: real, size: Num, side: Side, volume: real)
    requires price >= 0.0 && cfg.slippage >= 0.0
    ensures var fill := SimulateEntry(cfg, price, size, side, volume);
            && (side == Long ==> price * (1.0 + cfg.slippage) <= fill.price <= price * (1.0 + 3.0 * cfg.slippage))
            && (side == Short ==> price * (1.0 - 3.0 * cfg.slippage) <= fill.price <= price * (1.0 - cfg.slippage))
            && (side == NoSide ==> fill.price == price)
            && fill.commission == Times(size, Val(cfg.commission))
  {
    hide EntrySlippage, Times;
    var slippage := EntrySlippage(size, cfg.slippage, volume);
    EntrySlippageBounded(size, cfg.slippage, volume);
    AgainstWithin(price, cfg.slippage, slippage, 3.0 * cfg.slippage);
  }

  /** Fixed-fraction sizing. A comparison with NaN is false, so an undefined equity passes
      every guard and comes out as an undefined size. */
  function CalcPositionSize(equity: Num, entryPrice: real, atr: real, atrMultiplier: real, riskPct: real): Num {
    if atr <= 0.0 || AtMost(equity, Val(0.0)) || entryPrice <= 0.0 then Val(0.0)
    else
      var stopDistance := atr * atrMultiplier;
      if stopDistance <= 0.0 then Val(0.0)
      else
        var size := Over(Times(equity, Val(riskPct / 100.0)), Val(stopDistance));
        if AtMost(size, Val(0.0)) then Val(0.0) else size
  }

  /** Where defined, the size risks exactly the configured fraction at the stop. */
  lemma SizeRisksFraction(equity: real, entryPrice: real, atr: real, atrMultiplier: real, riskPct: real)
    requires equity > 0.0 && entryPrice > 0.0 && atr > 0.0 && atrMultiplier > 0.0 && riskPct > 0.0
    ensures var size := CalcPositionSize(Val(equity), entryPrice, atr, atrMultiplier, riskPct);
            size.Val? && size.v > 0.0 && size.v * (atr * atrMultiplier) == equity * (riskPct / 100.0)
  {
    MulPositive(atr, atrMultiplier);
    MulPositive(equity, riskPct / 100.0);
    PositiveQuotient(equity * (riskPct / 100.0), atr * atrMultiplier);
  }
}
