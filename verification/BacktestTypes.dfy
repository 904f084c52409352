/** Candles, and the entities of a backtest (internal/backtest/types.go). */
module MarketData {

  datatype Candle = Candle(time: int, open: real, high: real, low: real, close: real, volume: real)
}

module BacktestTypes {
  import opened Numeric
  import opened MarketData
  import opened TradeGate

  /** `Undecided` is the empty direction: neither threshold was reached. */
  datatype Direction = Long | Short | Undecided

  /** The `Direction` setting; every value other than "long" and "short" filters nothing. */
  datatype DirectionFilter = OnlyLong | OnlyShort | AnyDirection

  datatype Config = Config(
    initialCapital: real,
    commission: real,
    slippage: real,
    holdingBars: nat,
    filter: DirectionFilter,
    atrMultiplier: real,
    warmupBars: nat,
    longThreshold: real,
    shortThreshold: real,
    gate: GateConfig)

  /** What a bar's feature row contributes: its timestamp, the three scores, the regime
      and the ATR. The scorers are not modelled, so these values are arbitrary. */
  datatype Signal = Signal(ts: int, tech: Num, orderFlow: Num, regime: Num, regimeLabel: RegimeLabel, atr: Num)

  /** A run's inputs. A bar without a predicted probability counts as certain. */
  datatype Data = Data(candles: seq<Candle>, signals: seq<Signal>, mlProbs: map<int, real>)

  datatype Pending = Pending(
    entryBar: int, entryPrice: real, stopPrice: Num, size: real, direction: Direction, confidence: real)

  datatype Position = Position(
    entryBar: int, entryTime: int, direction: Direction, entryPrice: real, size: real,
    stopPrice: Num, confidence: real, holdingBars: int)

  datatype ExitReason = StopHit | Expiry | EndOfData

  datatype Trade = Trade(
    position: Position, exitBar: int, exitTime: int, exitPrice: real, exitReason: ExitReason,
    pnl: real, returnPct: Num)
  {
    function EntryBar(): int { position.entryBar }
  }

  function HoldingSum(trades: seq<Trade>): int {
    if trades == [] then 0
    else HoldingSum(trades[..|trades| - 1]) + trades[|trades| - 1].position.holdingBars
  }

  function PnlSum(trades: seq<Trade>): real {
    if trades == [] then 0.0
    else PnlSum(trades[..|trades| - 1]) + trades[|trades| - 1].pnl
  }

  /** `PnlSum` grows with its list one trade at a time. */
  lemma PnlSumPrefix(trades: seq<Trade>, k: nat)
    requires k < |trades|
    ensures PnlSum(trades[..k + 1]) == PnlSum(trades[..k]) + trades[k].pnl
    ensures HoldingSum(trades[..k + 1]) == HoldingSum(trades[..k]) + trades[k].position.holdingBars
  {
    assert trades[..k + 1][..k] == trades[..k];
  }
}
