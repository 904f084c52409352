/** The trade gate (internal/agent/tradegate/gate.go): a small state machine that
    lets a signal through, scales it, and blocks it while it cools down. */
module TradeGate {
  import opened Numeric

  datatype Decision = NoTrade | SmallSize | NormalSize | FullSize
  datatype GateState = Idle | Cooldown | Stopped
  datatype RegimeLabel =
    | TrendingLowVol | TrendingHighVol | RangingHighVol | RangingLowVol | Unknown
    | OtherRegime

  datatype Reason =
    | Accepted | InvalidInput | BelowMlThreshold | BlockedRegime | DrawdownHit
    | MaxTradesReached | CoolingDown(bars: int) | LowConfidence

  datatype GateConfig = GateConfig(
    cooldownBars: int,
    maxTradesPerDay: int,
    drawdownLimit: real,
    startingCapital: real,
    metaModelThreshold: real,
    techWeight: real,
    ofWeight: real,
    regimeWeight: real)

  datatype Input = Input(tech: Num, orderFlow: Num, regime: Num, regimeLabel: RegimeLabel, metaProb: real)

  datatype Output = Output(decision: Decision, sizeMultiplier: real, rawConfidence: real, reason: Reason)

  /** What the gate remembers between calls. */
  datatype GateVal = GateVal(state: GateState, cooldown: int, tradeCount: int, dayPnl: real)

  /** Bars the gate stays shut after an exit, counted from the exit bar. */
  function Gap(cfg: GateConfig): (g: int)
    ensures g >= 1
  {
    MaxInt(cfg.cooldownBars, 1)
  }

  /** How many trades the gate lets through before a reset. */
  function TradeCap(cfg: GateConfig): (cap: int)
    ensures cap >= 0
  {
    MaxInt(cfg.maxTradesPerDay, 0)
  }

  const FRESH_GATE := GateVal(Idle, 0, 0, 0.0)

  function SizeFromConfidence(conf: real): (size: real)
    ensures size == 0.0 || size == 0.25 || size == 0.5 || size == 1.0
    ensures size > 0.0 <==> conf >= 60.0
    ensures size >= 0.5 <==> conf >= 70.0
    ensures size == 1.0 <==> conf >= 80.0
  {
    if conf >= 80.0 then 1.0
    else if conf >= 70.0 then 0.5
    else if conf >= 60.0 then 0.25
    else 0.0
  }

  function DecisionFromSize(size: real): (d: Decision)
    ensures d == NoTrade <==> size <= 0.0
    ensures d == SmallSize <==> 0.0 < size < 0.5
    ensures d == NormalSize <==> 0.5 <= size < 1.0
  {
    if size >= 1.0 then FullSize
    else if size >= 0.5 then NormalSize
    else if size > 0.0 then SmallSize
    else NoTrade
  }

  function ApplyRegimeOverride(size: real, regimeLabel: RegimeLabel): real {
    if size <= 0.0 then 0.0
    else match regimeLabel
      case TrendingLowVol => size * 1.0
      case TrendingHighVol => size * 0.75
      case RangingHighVol => size * 0.25
      case _ => 0.0
  }

  function Refuse(conf: real, reason: Reason): Output {
    Output(NoTrade, 0.0, conf, reason)
  }

  function Blend(cfg: GateConfig, inp: Input): real
    requires inp.tech.Val? && inp.orderFlow.Val? && inp.regime.Val?
  {
    inp.tech.v * cfg.techWeight + inp.orderFlow.v * cfg.ofWeight + inp.regime.v * cfg.regimeWeight
  }

  function RawConfidence(cfg: GateConfig, inp: Input): (conf: real)
    requires inp.tech.Val? && inp.orderFlow.Val? && inp.regime.Val?
    ensures 0.0 <= conf <= 100.0
    ensures 0.0 <= Blend(cfg, inp) <= 100.0 ==> conf == Blend(cfg, inp)
    ensures Blend(cfg, inp) < 0.0 ==> conf == 0.0
    ensures Blend(cfg, inp) > 100.0 ==> conf == 100.0
  {
    var raw := Blend(cfg, inp);
    var capped := if raw > 100.0 then 100.0 else raw;
    if capped < 0.0 then 0.0 else capped
  }

  /** The signal passes every test before number `n`: probability, regime, stop, cap, cooldown. */
  predicate PassesFirst(cfg: GateConfig, g: GateVal, inp: Input, n: nat) {
    && (n > 0 ==> inp.metaProb >= cfg.metaModelThreshold)
    && (n > 1 ==> inp.regimeLabel != RangingLowVol && inp.regimeLabel != Unknown)
    && (n > 2 ==> g.state != Stopped)
    && (n > 3 ==> g.tradeCount < cfg.maxTradesPerDay)
    && (n > 4 ==> g.state != Cooldown)
  }

  /** The tests a signal with confidence `conf` faces once its scores are valid. The reason of
      a refusal is the first test it fails. */
  function Screen(cfg: GateConfig, g: GateVal, inp: Input, conf: real): (out: Output)
    ensures out.decision != NoTrade <==> PassesFirst(cfg, g, inp, 5) && conf >= 60.0
    ensures out.decision == NoTrade <==> out.reason != Accepted
    ensures out.reason == BelowMlThreshold <==> !PassesFirst(cfg, g, inp, 1)
    ensures out.reason == BlockedRegime <==> PassesFirst(cfg, g, inp, 1) && !PassesFirst(cfg, g, inp, 2)
    ensures out.reason == DrawdownHit <==> PassesFirst(cfg, g, inp, 2) && !PassesFirst(cfg, g, inp, 3)
    ensures out.reason == MaxTradesReached <==> PassesFirst(cfg, g, inp, 3) && !PassesFirst(cfg, g, inp, 4)
    ensures out.reason.CoolingDown? <==> PassesFirst(cfg, g, inp, 4) && !PassesFirst(cfg, g, inp, 5)
    ensures out.reason == LowConfidence <==> PassesFirst(cfg, g, inp, 5) && conf < 60.0
    ensures out.reason.CoolingDown? ==> out.reason.bars == g.cooldown
    ensures out.rawConfidence == conf
    ensures out.decision == NoTrade ==> out.sizeMultiplier == 0.0
    ensures out.decision == FullSize ==> conf >= 80.0
    ensures out.decision == NormalSize ==> 70.0 <= conf < 80.0
    ensures out.decision == SmallSize ==> 60.0 <= conf < 70.0
    ensures out.decision != NoTrade ==>
              out.sizeMultiplier ==
              (if conf >= 80.0 then 1.0 else if conf >= 70.0 then 0.5 else 0.25)
              * (match inp.regimeLabel
                 case TrendingLowVol => 1.0
                 case TrendingHighVol => 0.75
                 case RangingHighVol => 0.25
                 case _ => 0.0)
  {
    if inp.metaProb < cfg.metaModelThreshold then Refuse(conf, BelowMlThreshold)
    else if inp.regimeLabel == RangingLowVol || inp.regimeLabel == Unknown then Refuse(conf, BlockedRegime)
    else if g.state == Stopped then Refuse(conf, DrawdownHit)
    else if g.tradeCount >= cfg.maxTradesPerDay then Refuse(conf, MaxTradesReached)
    else if g.state == Cooldown then Refuse(conf, CoolingDown(g.cooldown))
    else
      var baseSize := SizeFromConfidence(conf);
      if baseSize == 0.0 then Refuse(conf, LowConfidence)
      else
        assert baseSize > 0.0;
        assert DecisionFromSize(baseSize) != NoTrade;
        assert g.state == Idle && inp.metaProb >= cfg.metaModelThreshold;
        Output(DecisionFromSize(baseSize), ApplyRegimeOverride(baseSize, inp.regimeLabel), conf, Accepted)
  }

  function EvaluateGate(cfg: GateConfig, g: GateVal, inp: Input): (out: Output)
    ensures out.decision != NoTrade ==>
              && g.state == Idle && g.tradeCount < cfg.maxTradesPerDay
              && inp.tech.Val? && inp.orderFlow.Val? && inp.regime.Val?
    ensures out.reason == InvalidInput <==> inp.tech.NaN? || inp.orderFlow.NaN? || inp.regime.NaN?
  {
    if inp.tech.NaN? || inp.orderFlow.NaN? || inp.regime.NaN? then Refuse(0.0, InvalidInput)
    else Screen(cfg, g, inp, RawConfidence(cfg, inp))
  }

  /** What the gate answers to a signal whose scores blend to `blend`: the reason is the first
      test that fails, in this order; a signal that passes has the size of its confidence tier
      times the factor of its regime. */
  ghost predicate Answers(cfg: GateConfig, g: GateVal, inp: Input, blend: real, out: Output) {
    var likely := inp.metaProb >= cfg.metaModelThreshold;
    var tradable := inp.regimeLabel != RangingLowVol && inp.regimeLabel != Unknown;
    var free := g.tradeCount < cfg.maxTradesPerDay;
    && out.rawConfidence == (if blend < 0.0 then 0.0 else if blend > 100.0 then 100.0 else blend)
    && (out.reason == BelowMlThreshold <==> !likely)
    && (out.reason == BlockedRegime <==> likely && !tradable)
    && (out.reason == DrawdownHit <==> likely && tradable && g.state == Stopped)
    && (out.reason == MaxTradesReached <==> likely && tradable && g.state != Stopped && !free)
    && (out.reason == CoolingDown(g.cooldown) <==> likely && tradable && g.state == Cooldown && free)
    && (out.reason == LowConfidence <==> likely && tradable && g.state == Idle && free && blend < 60.0)
    && (out.decision != NoTrade <==> likely && tradable && g.state == Idle && free && blend >= 60.0)
    && (out.decision == NoTrade ==> out.sizeMultiplier == 0.0)
    && (out.decision != NoTrade ==>
          && out.decision == (if blend >= 80.0 then FullSize else if blend >= 70.0 then NormalSize else SmallSize)
          && out.sizeMultiplier ==
             (if blend >= 80.0 then 1.0 else if blend >= 70.0 then 0.5 else 0.25)
             * (match inp.regimeLabel
                case TrendingLowVol => 1.0
                case TrendingHighVol => 0.75
                case RangingHighVol => 0.25
                case _ => 0.0))
  }

  lemma ScreenAnswers(cfg: GateConfig, g: GateVal, inp: Input, blend: real, conf: real)
    requires conf == if blend < 0.0 then 0.0 else if blend > 100.0 then 100.0 else blend
    ensures Answers(cfg, g, inp, blend, Screen(cfg, g, inp, conf))
  {
    hide ApplyRegimeOverride;
  }

  /** Three defined scores, weighted each by its own weight. */
  ghost predicate BlendsTo(cfg: GateConfig, tech: Num, orderFlow: Num, regime: Num, blend: real) {
    && tech.Val? && orderFlow.Val? && regime.Val?
    && blend == tech.v * cfg.techWeight + orderFlow.v * cfg.ofWeight + regime.v * cfg.regimeWeight
  }

  lemma BlendIsUnique(cfg: GateConfig, tech: Num, orderFlow: Num, regime: Num, blend: real)
    requires BlendsTo(cfg, tech, orderFlow, regime, blend)
    ensures forall other :: BlendsTo(cfg, tech, orderFlow, regime, other) ==> other == blend
  {
  }

  /** The gate answers a signal by what its scores blend to; an undefined score makes it invalid. */
  lemma GateAnswers(cfg: GateConfig, g: GateVal, inp: Input) returns (blend: real)
    ensures inp.tech.Val? && inp.orderFlow.Val? && inp.regime.Val? ==>
              && BlendsTo(cfg, inp.tech, inp.orderFlow, inp.regime, blend)
              && Answers(cfg, g, inp, blend, EvaluateGate(cfg, g, inp))
    ensures !(inp.tech.Val? && inp.orderFlow.Val? && inp.regime.Val?) ==>
              EvaluateGate(cfg, g, inp) == Output(NoTrade, 0.0, 0.0, InvalidInput)
  {
    hide Screen, Answers;
    blend := 0.0;
    if inp.tech.Val? && inp.orderFlow.Val? && inp.regime.Val? {
      blend := Blend(cfg, inp);
      ScreenAnswers(cfg, g, inp, blend, RawConfidence(cfg, inp));
    }
  }

  /** Size multipliers lie in [0, 1]; an accepted signal has full size exactly when both its
      confidence and its regime are the best ones, and no size at all exactly when its regime
      is not one of the three known tradable ones: such a trade passes with multiplier zero. */
  lemma AcceptedSize(cfg: GateConfig, g: GateVal, inp: Input)
    ensures var out := EvaluateGate(cfg, g, inp);
            && 0.0 <= out.sizeMultiplier <= 1.0
            && (out.decision == NoTrade ==> out.sizeMultiplier == 0.0)
            && (out.decision != NoTrade ==>
                  && (out.sizeMultiplier == 1.0 <==> out.rawConfidence >= 80.0 && inp.regimeLabel == TrendingLowVol)
                  && (out.sizeMultiplier == 0.0 <==> inp.regimeLabel == OtherRegime))
  {
  }

  /** Between two inputs that differ only in their scores, the one with the higher blend is
      let through whenever the other is, and never with a smaller size; and of two that differ
      only in the regime, a trending quiet market gets at least a trending volatile one, which
      gets at least a ranging volatile one. */
  lemma StrongerSignalNeverShrinks(cfg: GateConfig, g: GateVal, weak: Input, strong: Input)
    requires weak.tech.Val? && weak.orderFlow.Val? && weak.regime.Val?
    requires strong.tech.Val? && strong.orderFlow.Val? && strong.regime.Val?
    requires strong.metaProb >= weak.metaProb
    requires Blend(cfg, strong) >= Blend(cfg, weak)
    requires strong.regimeLabel == weak.regimeLabel
             || (strong.regimeLabel == TrendingLowVol && weak.regimeLabel == TrendingHighVol)
             || (strong.regimeLabel == TrendingLowVol && weak.regimeLabel == RangingHighVol)
             || (strong.regimeLabel == TrendingHighVol && weak.regimeLabel == RangingHighVol)
    ensures EvaluateGate(cfg, g, weak).decision != NoTrade ==> EvaluateGate(cfg, g, strong).decision != NoTrade
    ensures EvaluateGate(cfg, g, weak).sizeMultiplier <= EvaluateGate(cfg, g, strong).sizeMultiplier
  {
    hide Blend;
    assert RawConfidence(cfg, weak) <= RawConfidence(cfg, strong);
  }

  function TradePlaced(g: GateVal): GateVal {
    g.(tradeCount := g.tradeCount + 1)
  }

  function TradeClosed(cfg: GateConfig, g: GateVal): GateVal {
    g.(state := Cooldown, cooldown := cfg.cooldownBars)
  }

  function BarPassed(g: GateVal): GateVal {
    if g.state != Cooldown then g
    else
      var left := g.cooldown - 1;
      g.(cooldown := left, state := if left <= 0 then Idle else Cooldown)
  }

  /** Does a day's PnL reach the drawdown limit? With zero starting capital the
      quotient is minus infinity for a loss and NaN or plus infinity otherwise. */
  predicate Breaches(cfg: GateConfig, dayPnl: real) {
    if cfg.startingCapital == 0.0 then dayPnl < 0.0
    else dayPnl / cfg.startingCapital <= cfg.drawdownLimit
  }

  /** With a capital, the limit is that share of it; the order turns round below zero. */
  lemma BreachesExactly(cfg: GateConfig, dayPnl: real)
    ensures cfg.startingCapital > 0.0 ==>
              (Breaches(cfg, dayPnl) <==> dayPnl <= cfg.drawdownLimit * cfg.startingCapital)
    ensures cfg.startingCapital < 0.0 ==>
              (Breaches(cfg, dayPnl) <==> dayPnl >= cfg.drawdownLimit * cfg.startingCapital)
    ensures cfg.startingCapital == 0.0 ==> (Breaches(cfg, dayPnl) <==> dayPnl < 0.0)
  {
    var capital := cfg.startingCapital;
    if capital != 0.0 {
      var q := dayPnl / capital;
      assert q * capital == dayPnl;
      if capital > 0.0 {
        MulStrict(capital, q, cfg.drawdownLimit);
      } else {
        MulStrict(-capital, q, cfg.drawdownLimit);
        assert q * -capital == -dayPnl && cfg.drawdownLimit * -capital == -(cfg.drawdownLimit * capital);
      }
    }
  }

  function PnlUpdated(cfg: GateConfig, g: GateVal, pnl: real): GateVal {
    var day := g.dayPnl + pnl;
    g.(dayPnl := day, state := if Breaches(cfg, day) then Stopped else g.state)
  }

  function DayReset(g: GateVal, startingPnl: real): GateVal {
    g.(tradeCount := 0, dayPnl := startingPnl, state := if g.state == Stopped then Idle else g.state)
  }

  class Gate {
    const cfg: GateConfig
    var state: GateState
    var cooldownBarsRemaining: int
    var tradeCount: int
    var dayPnl: real

    function Value(): GateVal
      reads this
    {
      GateVal(state, cooldownBarsRemaining, tradeCount, dayPnl)
    }

    constructor (cfg: GateConfig)
      ensures this.cfg == cfg && Value() == FRESH_GATE
    {
      this.cfg := cfg;
      state := Idle;
      cooldownBarsRemaining := 0;
      tradeCount := 0;
      dayPnl := 0.0;
    }

    method Evaluate(inp: Input) returns (out: Output)
      ensures out == EvaluateGate(cfg, Value(), inp)
    {
      if inp.tech.NaN? || inp.orderFlow.NaN? || inp.regime.NaN? {
        return Refuse(0.0, InvalidInput);
      }
      var conf := Blend(cfg, inp);
      if conf > 100.0 {
        conf := 100.0;
      }
      if conf < 0.0 {
        conf := 0.0;
      }
      if inp.metaProb < cfg.metaModelThreshold {
        return Refuse(conf, BelowMlThreshold);
      }
      if inp.regimeLabel == RangingLowVol || inp.regimeLabel == Unknown {
        return Refuse(conf, BlockedRegime);
      }
      if state == Stopped {
        return Refuse(conf, DrawdownHit);
      }
      if tradeCount >= cfg.maxTradesPerDay {
        return Refuse(conf, MaxTradesReached);
      }
      if state == Cooldown {
        return Refuse(conf, CoolingDown(cooldownBarsRemaining));
      }
      var baseSize := SizeFromConfidence(conf);
      if baseSize == 0.0 {
        return Refuse(conf, LowConfidence);
      }
      out := Output(DecisionFromSize(baseSize), ApplyRegimeOverride(baseSize, inp.regimeLabel), conf, Accepted);
    }

    method OnTradePlaced()
      modifies this
      ensures Value() == TradePlaced(old(Value()))
      ensures tradeCount == old(tradeCount) + 1 && state == old(state)
      ensures cooldownBarsRemaining == old(cooldownBarsRemaining) && dayPnl == old(dayPnl)
    {
      tradeCount := tradeCount + 1;
    }

    method OnTradeClosed()
      modifies this
      ensures Value() == TradeClosed(cfg, old(Value()))
      ensures state == Cooldown && cooldownBarsRemaining == cfg.cooldownBars
      ensures tradeCount == old(tradeCount) && dayPnl == old(dayPnl)
    {
      state := Cooldown;
      cooldownBarsRemaining := cfg.cooldownBars;
    }

    method OnBar()
      modifies this
      ensures Value() == BarPassed(old(Value()))
      ensures old(state) == Cooldown ==>
                && cooldownBarsRemaining == old(cooldownBarsRemaining) - 1
                && (state == Idle <==> old(cooldownBarsRemaining) <= 1) && state != Stopped
      ensures old(state) != Cooldown ==> unchanged(this)
      ensures tradeCount == old(tradeCount) && dayPnl == old(dayPnl)
    {
      if state == Cooldown {
        cooldownBarsRemaining := cooldownBarsRemaining - 1;
        if cooldownBarsRemaining <= 0 {
          state := Idle;
        }
      }
    }

    method UpdatePnl(pnl: real)
      modifies this
      ensures Value() == PnlUpdated(cfg, old(Value()), pnl)
      ensures dayPnl == old(dayPnl) + pnl
      ensures cfg.startingCapital > 0.0 ==>
                state == if dayPnl <= cfg.drawdownLimit * cfg.startingCapital then Stopped else old(state)
      ensures tradeCount == old(tradeCount) && cooldownBarsRemaining == old(cooldownBarsRemaining)
    {
      dayPnl := dayPnl + pnl;
      BreachesExactly(cfg, dayPnl);
      if Breaches(cfg, dayPnl) {
        state := Stopped;
      }
    }

    method ResetDay(startingPnl: real) returns (resumed: bool)
      modifies this
      ensures Value() == DayReset(old(Value()), startingPnl)
      ensures resumed <==> old(state) == Stopped
      ensures tradeCount == 0 && dayPnl == startingPnl && cooldownBarsRemaining == old(cooldownBarsRemaining)
      ensures state == if old(state) == Stopped then Idle else old(state)
    {
      tradeCount := 0;
      dayPnl := startingPnl;
      if state == Stopped {
        state := Idle;
        return true;
      }
      return false;
    }
  }

  // ---- Call sequences ----

  datatype GateCall = Placed | Closed | Bar | Pnl(pnl: real) | Reset(startingPnl: real)

  function Apply(cfg: GateConfig, g: GateVal, call: GateCall): GateVal {
    match call
    case Placed => TradePlaced(g)
    case Closed => TradeClosed(cfg, g)
    case Bar => BarPassed(g)
    case Pnl(pnl) => PnlUpdated(cfg, g, pnl)
    case Reset(startingPnl) => DayReset(g, startingPnl)
  }

  function ApplyAll(cfg: GateConfig, g: GateVal, calls: seq<GateCall>): GateVal {
    if calls == [] then g
    else Apply(cfg, ApplyAll(cfg, g, calls[..|calls| - 1]), calls[|calls| - 1])
  }

  /** Call `i` is a PnL update that reaches the drawdown limit. */
  predicate BreachAt(cfg: GateConfig, g: GateVal, calls: seq<GateCall>, i: nat)
    requires i < |calls|
  {
    calls[i].Pnl? && Breaches(cfg, ApplyAll(cfg, g, calls[..i + 1]).dayPnl)
  }

  /** No call after `i` closes a trade or starts a day. */
  predicate Unforgotten(calls: seq<GateCall>, i: nat) {
    forall j :: i < j < |calls| ==> !calls[j].Closed? && !calls[j].Reset?
  }

  ghost predicate StopPending(cfg: GateConfig, g: GateVal, calls: seq<GateCall>) {
    exists i: nat :: i < |calls| && BreachAt(cfg, g, calls, i) && Unforgotten(calls, i)
  }

  lemma EarlierCalls(cfg: GateConfig, g: GateVal, calls: seq<GateCall>, i: nat)
    requires i < |calls| - 1
    ensures var n := |calls| - 1;
            && BreachAt(cfg, g, calls[..n], i) == BreachAt(cfg, g, calls, i)
            && Unforgotten(calls, i) == (Unforgotten(calls[..n], i) && !calls[n].Closed? && !calls[n].Reset?)
  {
    hide ApplyAll, Breaches;
    var n := |calls| - 1;
    var before := calls[..n];
    assert before[..i + 1] == calls[..i + 1];
    if Unforgotten(calls, i) {
      forall j | i < j < n ensures !before[j].Closed? && !before[j].Reset? {
        assert before[j] == calls[j];
      }
    }
  }

  /** A stop is pending after the last call if that call breaches, or if one was pending
      before and the call neither closes a trade nor resets the day. */
  lemma StopPendingStep(cfg: GateConfig, g: GateVal, calls: seq<GateCall>)
    requires calls != []
    ensures var n := |calls| - 1;
            StopPending(cfg, g, calls) <==>
              BreachAt(cfg, g, calls, n)
              || (StopPending(cfg, g, calls[..n]) && !calls[n].Closed? && !calls[n].Reset?)
  {
    hide BreachAt;
    var n := |calls| - 1;
    var before := calls[..n];
    if BreachAt(cfg, g, calls, n) {
      assert Unforgotten(calls, n);
    } else if StopPending(cfg, g, calls) {
      var i: nat :| i < |calls| && BreachAt(cfg, g, calls, i) && Unforgotten(calls, i);
      EarlierCalls(cfg, g, calls, i);
    }
    if StopPending(cfg, g, before) && !calls[n].Closed? && !calls[n].Reset? {
      var i: nat :| i < |before| && BreachAt(cfg, g, before, i) && Unforgotten(before, i);
      EarlierCalls(cfg, g, calls, i);
      assert BreachAt(cfg, g, calls, i) && Unforgotten(calls, i);
    }
  }

  /** After any sequence of calls on a gate that was not stopped, the gate is stopped
      if and only if some PnL update breached the limit and no later call closed a
      trade or reset the day. Closing a trade right after its PnL update, which is
      what both engines do, therefore always cancels the stop. */
  lemma {:induction false} StoppedExactlyWhen(cfg: GateConfig, g: GateVal, calls: seq<GateCall>)
    requires g.state != Stopped
    ensures ApplyAll(cfg, g, calls).state == Stopped <==> StopPending(cfg, g, calls)
  {
    if calls != [] {
      var n := |calls| - 1;
      var before := calls[..n];
      StoppedExactlyWhen(cfg, g, before);
      StopPendingStep(cfg, g, calls);
      assert calls[..n + 1] == calls;
    }
  }

  function BarsPassed(g: GateVal, n: nat): GateVal {
    if n == 0 then g else BarPassed(BarsPassed(g, n - 1))
  }

  /** The daily-loss stop the gate is meant to give does not hold when a trade closes
      through `UpdatePnl` then `OnTradeClosed`: whatever the loss, after
      max(cooldownBars, 1) bars the gate answers any input as if there had been none. */
  lemma {:induction false} LossIsForgottenAfterCooldown(cfg: GateConfig, g: GateVal, pnl: real, n: nat)
    ensures var closed := BarsPassed(TradeClosed(cfg, PnlUpdated(cfg, g, pnl)), n);
            && closed.state == (if n >= Gap(cfg) then Idle else Cooldown)
            && (closed.state == Cooldown ==> closed.cooldown == cfg.cooldownBars - n)
            && closed.tradeCount == g.tradeCount
    decreases n
  {
    if n > 0 {
      LossIsForgottenAfterCooldown(cfg, g, pnl, n - 1);
    }
  }

  /** A concrete account: losing 800 of 10000 breaches the 5 percent limit, yet the
      gate accepts the same strong signal on the very next bar. */
  lemma StopDoesNotHold()
    ensures var cfg := GateConfig(0, 5, -0.05, 10000.0, 0.45, 0.4, 0.4, 0.2);
            var strong := Input(Val(85.0), Val(82.0), Val(80.0), TrendingLowVol, 1.0);
            var afterLoss := PnlUpdated(cfg, TradePlaced(FRESH_GATE), -800.0);
            && afterLoss.state == Stopped
            && EvaluateGate(cfg, BarPassed(TradeClosed(cfg, afterLoss)), strong).decision == FullSize
  {
  }
}
