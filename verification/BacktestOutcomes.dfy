/** What a backtest does, read off its inputs: every number of every trade in terms of the
    candles, the signals and the settings alone. */
module BacktestOutcomes {
  import opened Numeric
  import opened MarketData
  import opened TradeGate
  import opened BacktestTypes
  import opened BacktestMetrics
  import opened BacktestEngine
  import opened BacktestSafety
  import opened BacktestLedger
  import opened BacktestTrades

  // ---- Why a trade was entered ----

  /** A trade's direction is that of the score on the bar before its entry: long from the long
      threshold on, otherwise short up to the short threshold. */
  lemma DirectionFollowsScore(cfg: Config, d: Data, t: Trade)
    requires Runnable(cfg, d) && t in FinalState(cfg, d).trades
    ensures 0 < t.EntryBar() < |d.candles| && d.signals[t.EntryBar() - 1].tech.Val?
    ensures var score := d.signals[t.EntryBar() - 1].tech.v;
            && (t.position.direction == Long <==> score >= cfg.longThreshold)
            && (t.position.direction == Short <==> score <= cfg.shortThreshold && score < cfg.longThreshold)
  {
    hide FinalState, ExitPriceFor, EntryPriceFor, HeldThrough, StateAt, GateOutput, ScheduledEntry, ExitOf, NetPnl;
    TradesAreExplained(cfg, d);
    assert Explained(cfg, d, t);
    PassingScoreIsDefined(cfg, d, StateAt(cfg, d, t.EntryBar() - 1), t.EntryBar() - 1);
  }

  /** The bar's signal is strong and likely enough, and its regime is tradable. */
  ghost predicate Convinces(cfg: Config, d: Data, i: nat, blend: real)
    requires WellFormed(d) && i < |d.candles|
  {
    var s, time := d.signals[i], d.candles[i].time;
    && BlendsTo(cfg.gate, s.tech, s.orderFlow, s.regime, blend) && blend >= 60.0
    && (time in d.mlProbs ==> d.mlProbs[time] >= cfg.gate.metaModelThreshold)
    && (time !in d.mlProbs ==> 1.0 >= cfg.gate.metaModelThreshold)
    && s.regimeLabel != RangingLowVol && s.regimeLabel != Unknown
  }

  /** The share of the capital a signal is given: its tier times the factor of its regime, and a
      quarter where that is nothing. */
  ghost predicate GivenShare(blend: real, regimeLabel: RegimeLabel, share: real) {
    var tier := if blend >= 80.0 then 1.0 else if blend >= 70.0 then 0.5 else 0.25;
    && (regimeLabel == TrendingLowVol ==> share == tier)
    && (regimeLabel == TrendingHighVol ==> share == 0.75 * tier)
    && (regimeLabel == RangingHighVol ==> share == 0.25 * tier)
    && (regimeLabel == OtherRegime ==> share == 0.25)
  }

  lemma OnlyDefinedBlend(cfg: GateConfig, tech: Num, orderFlow: Num, regime: Num)
    ensures forall blend :: BlendsTo(cfg, tech, orderFlow, regime, blend) ==>
              tech.Val? && orderFlow.Val? && regime.Val?
  {
  }

  lemma GatePasses(cfg: Config, d: Data, s: BarState, i: nat)
    requires WellFormed(d) && i < |d.candles|
    ensures GateOutput(cfg, d, s, i).decision != NoTrade <==>
              && s.gate.state == Idle && s.gate.tradeCount < cfg.gate.maxTradesPerDay
              && exists blend :: Convinces(cfg, d, i, blend)
    ensures GateOutput(cfg, d, s, i).decision != NoTrade ==>
              forall blend :: Convinces(cfg, d, i, blend) ==>
                && GateOutput(cfg, d, s, i).rawConfidence == MinReal(blend, 100.0)
                && (var m := GateOutput(cfg, d, s, i).sizeMultiplier;
                    GivenShare(blend, d.signals[i].regimeLabel, if m <= 0.0 then 0.25 else m))
  {
    hide EvaluateGate, BlendsTo;
    var sig := d.signals[i];
    var blend := GateAnswers(cfg.gate, s.gate, GateInput(d, i));
    OnlyDefinedBlend(cfg.gate, sig.tech, sig.orderFlow, sig.regime);
    if sig.tech.Val? && sig.orderFlow.Val? && sig.regime.Val? {
      BlendIsUnique(cfg.gate, sig.tech, sig.orderFlow, sig.regime, blend);
      assert Answers(cfg.gate, s.gate, GateInput(d, i), blend, GateOutput(cfg, d, s, i));
      assert GateOutput(cfg, d, s, i).decision != NoTrade ==> Convinces(cfg, d, i, blend);
    }
  }

  /** So every trade of a run was signalled on the bar before its entry, by scores, a
      probability and a regime the filter and the gate let through; its size is the signal's
      share of the starting capital, its confidence the blend, at most 100. */
  lemma TradeWasSignalled(cfg: Config, d: Data, t: Trade) returns (blend: real, share: real)
    requires Runnable(cfg, d) && t in FinalState(cfg, d).trades
    ensures cfg.warmupBars < t.EntryBar() < |d.candles|
    ensures Convinces(cfg, d, t.EntryBar() - 1, blend)
    ensures t.position.confidence == if blend <= 100.0 then blend else 100.0
    ensures GivenShare(blend, d.signals[t.EntryBar() - 1].regimeLabel, share)
    ensures t.position.size == cfg.initialCapital * share
    ensures var score := d.signals[t.EntryBar() - 1].tech.v;
            && (cfg.filter == OnlyLong ==> score >= cfg.longThreshold)
            && (cfg.filter == OnlyShort ==> score <= cfg.shortThreshold && score < cfg.longThreshold)
  {
    hide FinalState, StateAt, GateOutput, EntryPriceFor, StopPriceFor, HeldThrough, ExitOf, NetPnl;
    hide Convinces, GivenShare;
    DirectionFollowsScore(cfg, d, t);
    TradesAreExplained(cfg, d);
    assert Explained(cfg, d, t);
    var i := t.EntryBar() - 1;
    var s := StateAt(cfg, d, i);
    GatePasses(cfg, d, s, i);
    blend :| Convinces(cfg, d, i, blend);
    var m := GateOutput(cfg, d, s, i).sizeMultiplier;
    share := if m <= 0.0 then 0.25 else m;
    assert GivenShare(blend, d.signals[i].regimeLabel, share);
  }

  // ---- At which price it was entered ----

  lemma StopDefinedExactly(price: real, dir: Direction, atr: Num, multiplier: real)
    ensures StopPriceFor(price, dir, atr, multiplier).NaN? <==> price == 0.0 || atr.NaN?
  {
  }

  /** Entered at the open of its first bar, moved by the slippage up for a short and down for
      none; its stop stands the multiplier of the ATR away, where one percent of the entry price
      counts as the ATR when there is none, and is undefined without an ATR or a price. */
  lemma TradeEntry(cfg: Config, d: Data, t: Trade)
    requires Runnable(cfg, d) && t in FinalState(cfg, d).trades
    ensures 0 < t.EntryBar() < |d.candles| && t.position.entryTime == d.candles[t.EntryBar()].time
    ensures var p, open, atr := t.position, d.candles[t.EntryBar()].open, d.signals[t.EntryBar() - 1].atr;
            && (p.direction == Short ==> p.entryPrice == open * (1.0 - cfg.slippage))
            && (p.direction != Short ==> p.entryPrice == open * (1.0 + cfg.slippage))
            && (p.stopPrice.NaN? <==> p.entryPrice == 0.0 || atr.NaN?)
            && (p.stopPrice.Val? ==>
                  var distance := cfg.atrMultiplier * (if atr.v <= 0.0 then p.entryPrice * 0.01 else atr.v);
                  p.stopPrice.v == if p.direction == Short then p.entryPrice + distance else p.entryPrice - distance)
  {
    hide FinalState, StateAt, GateOutput, HeldThrough, ExitOf, NetPnl, StopPriceFor, DecideDir;
    TradesAreExplained(cfg, d);
    assert Explained(cfg, d, t);
    var p, atr := t.position, d.signals[t.EntryBar() - 1].atr;
    var used := if AtMost(atr, Val(0.0)) then Val(p.entryPrice * 0.01) else atr;
    assert p.stopPrice == StopPriceFor(p.entryPrice, p.direction, used, cfg.atrMultiplier);
    StopDefinedExactly(p.entryPrice, p.direction, used, cfg.atrMultiplier);
    if used.Val? && p.entryPrice != 0.0 {
      StopIsAtrAway(p.entryPrice, p.direction, used.v, cfg.atrMultiplier);
    }
  }

  // ---- Why and at which price it was left ----

  /** The bar's range reaches the stop. */
  ghost predicate Reaches(p: Position, c: Candle) {
    && p.stopPrice.Val?
    && ((p.direction == Long && c.low <= p.stopPrice.v) || (p.direction == Short && c.high >= p.stopPrice.v))
  }

  /** The close moved by the slippage, up for a short. */
  ghost predicate FilledAt(cfg: Config, dir: Direction, close: real, price: real) {
    && (dir == Short ==> price == close * (1.0 + cfg.slippage))
    && (dir != Short ==> price == close * (1.0 - cfg.slippage))
  }

  lemma MarketPrice(cfg: Config, close: real, dir: Direction)
    ensures FilledAt(cfg, dir, close, ExitPriceFor(close, dir, cfg.slippage))
  {
  }

  lemma ExitMeans(cfg: Config, p: Position, c: Candle)
    ensures ExitOf(cfg, p, c).None? <==> !Reaches(p, c) && p.holdingBars < cfg.holdingBars
    ensures Reaches(p, c) ==> ExitOf(cfg, p, c) == Some((p.stopPrice.v, StopHit))
    ensures !Reaches(p, c) && p.holdingBars >= cfg.holdingBars ==>
              ExitOf(cfg, p, c) == Some((ExitPriceFor(c.close, p.direction, cfg.slippage), Expiry))
  {
  }

  lemma EntryIsLive(cfg: Config, d: Data, t: Trade)
    requires WellFormed(d) && Explained(cfg, d, t)
    ensures 0 < t.EntryBar() < |d.candles|
  {
    hide HeldThrough, ExitOf, NetPnl, StateAt, GateOutput, ScheduledEntry;
  }

  lemma AgeKeepsStop(p: Position, b: int, c: Candle)
    ensures Reaches(AgedTo(p, b), c) == Reaches(p, c)
  {
  }

  lemma ExitCause(cfg: Config, p: Position, c: Candle, price: real, reason: ExitReason)
    requires ExitOf(cfg, p, c) == Some((price, reason))
    ensures reason != EndOfData
    ensures reason == StopHit <==> Reaches(p, c)
    ensures reason == Expiry <==> !Reaches(p, c) && p.holdingBars >= cfg.holdingBars
    ensures reason == StopHit ==> price == p.stopPrice.v
    ensures reason != StopHit ==> FilledAt(cfg, p.direction, c.close, price)
  {
    hide ExitOf, Reaches, FilledAt, ExitPriceFor;
    ExitMeans(cfg, p, c);
    MarketPrice(cfg, c.close, p.direction);
  }

  /** No bar of [entry, upTo) reaches the stop or completes the holding period. */
  ghost predicate StaysUntil(cfg: Config, d: Data, p: Position, upTo: int)
    requires 0 <= p.entryBar && upTo <= |d.candles|
  {
    forall b :: p.entryBar <= b < upTo ==> !Reaches(p, d.candles[b]) && b - p.entryBar + 1 < cfg.holdingBars
  }

  lemma StayedAtLast(cfg: Config, d: Data, p: Position, last: int)
    requires 0 <= p.entryBar <= last < |d.candles| && StaysUntil(cfg, d, p, last + 1)
    ensures StaysUntil(cfg, d, p, last)
    ensures !Reaches(p, d.candles[last]) && last - p.entryBar + 1 < cfg.holdingBars
  {
    hide Reaches;
  }

  lemma NothingEarlier(cfg: Config, d: Data, p: Position, upTo: int)
    requires 0 <= p.entryBar && upTo <= |d.candles| && HeldThrough(cfg, d, p, upTo)
    ensures StaysUntil(cfg, d, p, upTo)
  {
    hide ExitOf, Reaches;
    forall b | p.entryBar <= b < upTo
      ensures !Reaches(p, d.candles[b]) && b - p.entryBar + 1 < cfg.holdingBars
    {
      assert ExitOf(cfg, AgedTo(p, b), d.candles[b]) == None;
      ExitMeans(cfg, AgedTo(p, b), d.candles[b]);
      AgeKeepsStop(p, b, d.candles[b]);
    }
  }

  /** On no bar before its last did a trade reach its stop or its holding limit; on its last it
      reached the stop, and left at the stop, or else the limit, or else the end of the data,
      and left at the close moved by the slippage, up for a short. */
  lemma TradeExit(cfg: Config, d: Data, t: Trade)
    requires Runnable(cfg, d) && t in FinalState(cfg, d).trades
    ensures 0 < t.EntryBar() <= t.exitBar < |d.candles|
    ensures StaysUntil(cfg, d, t.position, t.exitBar)
    ensures var c, held := d.candles[t.exitBar], t.exitBar - t.EntryBar() + 1;
            && t.exitTime == c.time && t.position.holdingBars == held
            && (t.exitReason == StopHit <==> Reaches(t.position, c))
            && (t.exitReason == Expiry <==> !Reaches(t.position, c) && held >= cfg.holdingBars)
            && (t.exitReason == EndOfData ==> t.exitBar == |d.candles| - 1)
            && (t.exitReason == StopHit ==> t.exitPrice == t.position.stopPrice.v)
            && (t.exitReason != StopHit ==> FilledAt(cfg, t.position.direction, c.close, t.exitPrice))
  {
    hide FinalState, Signalled, ExitOf, NetPnl, Reaches, ExitPriceFor, FilledAt;
    TradesAreExplained(cfg, d);
    assert Explained(cfg, d, t);
    EntryIsLive(cfg, d, t);
    hide StaysUntil;
    if t.exitReason == EndOfData {
      NothingEarlier(cfg, d, t.position, |d.candles|);
      StayedAtLast(cfg, d, t.position, t.exitBar);
      MarketPrice(cfg, d.candles[t.exitBar].close, t.position.direction);
    } else {
      NothingEarlier(cfg, d, t.position, t.exitBar);
      ExitCause(cfg, t.position, d.candles[t.exitBar], t.exitPrice, t.exitReason);
    }
  }

  // ---- What it made ----

  /** The price move in a trade's favour. */
  ghost predicate Favours(dir: Direction, entry: real, now: real, move: real) {
    && (dir == Long ==> move == now - entry)
    && (dir == Short ==> move == entry - now)
    && (dir == Undecided ==> move == 0.0)
  }

  lemma GrossMeans(dir: Direction, entry: real, now: real, size: real, move: real)
    requires entry != 0.0 && Favours(dir, entry, now, move)
    ensures GrossPnl(dir, entry, now, size) * entry == size * move
  {
    var q := move / entry;
    assert q * entry == move;
    assert GrossPnl(dir, entry, now, size) == q * size;
    assert (q * size) * entry == (q * entry) * size;
  }

  lemma TurnoverMeans(entry: real, exit: real, size: real)
    requires entry > 0.0 && exit > 0.0
    ensures Turnover(entry, exit, size) * entry == size * (entry + exit)
  {
    var q := exit / entry;
    assert q * entry == exit;
    assert (q * size) * entry == (q * entry) * size;
    assert (size + q * size) * entry == size * entry + (q * size) * entry;
  }

  lemma FeeMeans(cfg: Config, p: Position, exit: real)
    ensures p.entryPrice > 0.0 && exit > 0.0 ==>
              Fee(cfg, p, exit) * p.entryPrice == cfg.commission * (p.size * (p.entryPrice + exit))
    ensures p.entryPrice <= 0.0 || exit <= 0.0 ==> Fee(cfg, p, exit) == 0.0
  {
    if p.entryPrice > 0.0 && exit > 0.0 {
      hide Turnover;
      TurnoverMeans(p.entryPrice, exit, p.size);
      var x := Turnover(p.entryPrice, exit, p.size);
      assert (x * cfg.commission) * p.entryPrice == cfg.commission * (x * p.entryPrice);
    } else {
      assert Turnover(p.entryPrice, exit, p.size) == 0.0;
    }
  }

  lemma NetMeans(cfg: Config, p: Position, exit: real, move: real)
    requires p.entryPrice > 0.0 && exit > 0.0 && Favours(p.direction, p.entryPrice, exit, move)
    ensures NetPnl(cfg, p, exit) * p.entryPrice
            == p.size * move - cfg.commission * (p.size * (p.entryPrice + exit))
  {
    hide GrossPnl, Fee, Favours;
    GrossMeans(p.direction, p.entryPrice, exit, p.size, move);
    FeeMeans(cfg, p, exit);
    var gross, fee := GrossPnl(p.direction, p.entryPrice, exit, p.size), Fee(cfg, p, exit);
    assert (gross - fee) * p.entryPrice == gross * p.entryPrice - fee * p.entryPrice;
  }

  lemma ReturnMeans(pnl: real, size: real)
    ensures Over(Val(pnl), Val(size)).Val? <==> size != 0.0
    ensures size != 0.0 ==> Over(Val(pnl), Val(size)).v * size == pnl
  {
  }

  lemma NetIsNothing(cfg: Config, p: Position, exit: real)
    requires p.entryPrice <= 0.0 || exit <= 0.0
    ensures NetPnl(cfg, p, exit) == 0.0
  {
  }

  /** A trade's PnL times its entry price is the move in its favour on its size, less the
      commission rate on its size at both prices; and its return is the PnL by the size. A trade
      with a price that is not positive made nothing. */
  lemma TradeMoney(cfg: Config, d: Data, t: Trade, move: real)
    requires Runnable(cfg, d) && t in FinalState(cfg, d).trades
    requires Favours(t.position.direction, t.position.entryPrice, t.exitPrice, move)
    ensures var p := t.position;
            && (p.entryPrice > 0.0 && t.exitPrice > 0.0 ==>
                  t.pnl * p.entryPrice
                  == p.size * move - cfg.commission * (p.size * (p.entryPrice + t.exitPrice)))
            && (p.entryPrice <= 0.0 || t.exitPrice <= 0.0 ==> t.pnl == 0.0 && t.returnPct == Val(0.0))
            && (p.entryPrice > 0.0 && t.exitPrice > 0.0 ==>
                  && (t.returnPct.Val? <==> p.size != 0.0)
                  && (t.returnPct.Val? ==> t.returnPct.v * p.size == t.pnl))
  {
    hide FinalState, Signalled, HeldThrough, ExitOf, NetPnl, Favours;
    TradesAreExplained(cfg, d);
    assert Explained(cfg, d, t);
    if t.position.entryPrice > 0.0 && t.exitPrice > 0.0 {
      NetMeans(cfg, t.position, t.exitPrice, move);
      ReturnMeans(t.pnl, t.position.size);
    } else {
      NetIsNothing(cfg, t.position, t.exitPrice);
    }
  }

  // ---- When an entry is scheduled ----

  /** A bar schedules an entry for the next one exactly when the run is flat with nothing
      scheduled, another bar follows, the gate is idle and below its cap, and the bar's signal
      convinces and satisfies the direction filter. */
  ghost predicate Enters(cfg: Config, d: Data, s: BarState, i: nat)
    requires WellFormed(d) && i < |d.candles|
  {
    var score := d.signals[i].tech;
    && s.position.None? && s.pending.None? && i < |d.candles| - 1
    && s.gate.state == Idle && s.gate.tradeCount < cfg.gate.maxTradesPerDay
    && (exists blend :: Convinces(cfg, d, i, blend))
    && (cfg.filter == OnlyLong ==> score.Val? && score.v >= cfg.longThreshold)
    && (cfg.filter == OnlyShort ==> score.Val? && score.v <= cfg.shortThreshold && score.v < cfg.longThreshold)
  }

  lemma EntersExactly(cfg: Config, d: Data, s: BarState, i: nat)
    requires WellFormed(d) && i < |d.candles|
    ensures Enters(cfg, d, s, i) <==> Triggers(cfg, d, s, i) && !Filtered(cfg, d, s, i)
  {
    hide GateOutput, Convinces;
    GatePasses(cfg, d, s, i);
    if exists blend :: Convinces(cfg, d, i, blend) {
      var blend :| Convinces(cfg, d, i, blend);
      }
  }

  lemma StepSchedules(cfg: Config, d: Data, s: BarState, i: nat)
    requires WellFormed(d) && i < |d.candles|
    requires s.pending.Some? ==> s.position.None? && s.pending.value.entryBar == i
    ensures var z := Step(cfg, d, s, i);
            && (z.pending.Some? <==> Enters(cfg, d, s, i))
            && (z.pending.Some? ==> z.pending.value.entryBar == i + 1)
            && z.gate.tradeCount == s.gate.tradeCount + if Enters(cfg, d, s, i) then 1 else 0
  {
    hide Enters, Dir, GateOutput, ScheduledEntry, ExitOf, ClosedTrade, Fee, EquityNow, Breaches;
    EntersExactly(cfg, d, s, i);
  }

  lemma EntryScheduledExactly(cfg: Config, d: Data, i: nat)
    requires WellFormed(d) && cfg.warmupBars <= i < |d.candles|
    ensures var s, z := StateAt(cfg, d, i), StateAt(cfg, d, i + 1);
            && (z.pending.Some? <==> Enters(cfg, d, s, i))
            && (z.pending.Some? ==> z.pending.value.entryBar == i + 1)
            && z.gate.tradeCount == s.gate.tradeCount + if Enters(cfg, d, s, i) then 1 else 0
  {
    hide Step, Enters, Spaced, GateInv;
    EveryBarIsSafe(cfg, d, i);
    StepSchedules(cfg, d, StateAt(cfg, d, i), i);
  }

  // ---- What the equity curve and the totals add up ----

  /** The trade is open at the end of bar `b`. */
  ghost predicate OpenAt(t: Trade, b: int) {
    t.EntryBar() <= b && (b < t.exitBar || t.exitReason == EndOfData)
  }

  /** `worth` is nothing before the entry, the PnL once closed, and in between, times the entry
      price, the move in the trade's favour on its size. */
  ghost predicate IsWorth(t: Trade, b: int, close: real, worth: real) {
    && (b < t.EntryBar() ==> worth == 0.0)
    && (t.EntryBar() <= b && !OpenAt(t, b) ==> worth == t.pnl)
    && (OpenAt(t, b) && t.position.direction == Undecided ==> worth == 0.0)
    && (OpenAt(t, b) ==>
          forall move :: Favours(t.position.direction, t.position.entryPrice, close, move) ==>
            worth * t.position.entryPrice == t.position.size * move)
  }

  ghost predicate Unpriced(t: Trade, b: int) {
    OpenAt(t, b) && t.position.direction != Undecided && t.position.entryPrice == 0.0
  }

  lemma WorthMeans(t: Trade, b: int, close: real)
    ensures Worth(t, b, close).Val? <==> !Unpriced(t, b)
    ensures Worth(t, b, close).Val? ==> IsWorth(t, b, close, Worth(t, b, close).v)
  {
    if OpenAt(t, b) && t.position.direction != Undecided && t.position.entryPrice != 0.0 {
      hide GrossPnl;
      forall move | Favours(t.position.direction, t.position.entryPrice, close, move)
        ensures Worth(t, b, close).v * t.position.entryPrice == t.position.size * move
      {
        GrossMeans(t.position.direction, t.position.entryPrice, close, t.position.size, move);
      }
    }
  }

  lemma {:induction false} WorthsOf(trades: seq<Trade>, b: int, close: real) returns (worths: seq<real>)
    ensures |worths| == |trades|
    ensures WorthAll(trades, b, close).Val? <==> forall k :: 0 <= k < |trades| ==> !Unpriced(trades[k], b)
    ensures WorthAll(trades, b, close).Val? ==>
              && WorthAll(trades, b, close).v == Sum(worths, |worths|)
              && forall k :: 0 <= k < |trades| ==> IsWorth(trades[k], b, close, worths[k])
  {
    hide Worth, Unpriced, IsWorth;
    worths := [];
    if trades != [] {
      var n := |trades| - 1;
      var before := WorthsOf(trades[..n], b, close);
      WorthMeans(trades[n], b, close);
      var last := Worth(trades[n], b, close);
      worths := before + [if last.Val? then last.v else 0.0];
      SumAgrees(worths, before, n);
      assert forall k :: 0 <= k < n ==> trades[..n][k] == trades[k];
    }
  }

  /** An entry of the curve is the starting capital plus what each trade of the run was worth at
      the end of its bar, and undefined exactly when one was open then at a price of zero. */
  lemma CurveAddsUp(cfg: Config, d: Data, j: nat) returns (worths: seq<real>)
    requires Runnable(cfg, d) && j < |RecordedBars(cfg, d, |d.candles|)|
    ensures var s, b := FinalState(cfg, d), RecordedBars(cfg, d, |d.candles|)[j];
            && |worths| == |s.trades| && j < |s.curve| && 0 <= b < |d.candles|
            && (s.curve[j].Val? <==> forall k :: 0 <= k < |s.trades| ==> !Unpriced(s.trades[k], b))
            && (s.curve[j].Val? ==>
                  && s.curve[j].v == cfg.initialCapital + Sum(worths, |worths|)
                  && forall k :: 0 <= k < |s.trades| ==> IsWorth(s.trades[k], b, d.candles[b].close, worths[k]))
  {
    hide FinalState, RecordedBars, WorthAll, IsWorth, Unpriced;
    EquityCurveIsExact(cfg, d);
    var b := RecordedBars(cfg, d, |d.candles|)[j];
    worths := WorthsOf(FinalState(cfg, d).trades, b, d.candles[b].close);
  }

  /** `fee` is the commission rate on a trade's size at both its prices. */
  ghost predicate IsFee(cfg: Config, t: Trade, fee: real) {
    var p := t.position;
    && (p.entryPrice > 0.0 && t.exitPrice > 0.0 ==>
          fee * p.entryPrice == cfg.commission * (p.size * (p.entryPrice + t.exitPrice)))
    && (p.entryPrice <= 0.0 || t.exitPrice <= 0.0 ==> fee == 0.0)
  }

  lemma {:induction false} FeesOf(cfg: Config, trades: seq<Trade>) returns (fees: seq<real>)
    ensures |fees| == |trades| && FeeSum(cfg, trades) == Sum(fees, |fees|)
    ensures forall k :: 0 <= k < |trades| ==> IsFee(cfg, trades[k], fees[k])
  {
    hide Fee;
    fees := [];
    if trades != [] {
      var n := |trades| - 1;
      var before := FeesOf(cfg, trades[..n]);
      FeeMeans(cfg, trades[n].position, trades[n].exitPrice);
      fees := before + [Fee(cfg, trades[n].position, trades[n].exitPrice)];
      SumAgrees(fees, before, n);
      assert forall k :: 0 <= k < n ==> trades[..n][k] == trades[k];
    }
  }

  /** The fees a run reports are those of its trades. */
  lemma RunFees(cfg: Config, d: Data) returns (fees: seq<real>)
    requires Runnable(cfg, d)
    ensures var trades := FinalState(cfg, d).trades;
            && |fees| == |trades| && SummaryOf(cfg, d).metrics.totalFeesPaid == Sum(fees, |fees|)
            && forall k :: 0 <= k < |trades| ==> IsFee(cfg, trades[k], fees[k])
  {
    hide FinalState, SummaryOf, FeeSum, IsFee, Balanced;
    RunConservesMoney(cfg, d);
    fees := FeesOf(cfg, FinalState(cfg, d).trades);
  }
}
