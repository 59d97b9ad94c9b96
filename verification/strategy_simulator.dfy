/** `simulateStrategyTrades` and its exit rules in internal/backtest/strategy_backtest.go.

    The setup evaluators and the average true range are arbitrary functions of the bars seen so far, as
    in the source; any direction other than PUT and STRADDLE behaves as CALL. */
module StrategySimulator {
  import Slippage
  import opened Options
  import opened Market

  datatype Direction = CallSide | PutSide | StraddleSide
  datatype Reason = TimeStop | StopLoss | TakeProfit | EndOfData

  /** The first draft of the setups; `atr` is the entry of that name in its raw values. */
  datatype Draft = Draft(direction: Direction, stopLoss: real, takeProfit: real, atr: Option<real>)

  datatype Config = Config(
    signal: seq<MinuteBar> -> Option<Draft>, averageRange: seq<MinuteBar> -> real,
    stopATR: real, targetATR: real, optionStopPct: real, optionTargetPct: real,
    timeStopMinutes: int, capital: real, slippageBps: real)

  datatype Position =
    | Directional(entryIdx: nat, entryTs: int, put: bool, entryPrice: real, qty: int, stop: real, target: real)
    | Straddle(entryIdx: nat, entryTs: int, underlying: real, premium: real, qty: int)

  datatype Exit = Exit(price: real, pnl: real, reason: Reason)

  datatype Trade = Trade(position: Position, exitIdx: nat, exitTs: int, exit: Exit, pnlPct: real)

  // ---- Exit rules ----

  function Abs(x: real): real {
    if x < 0.0 then -x else x
  }

  function TimedOut(cfg: Config, entryTs: int, bar: MinuteBar): bool {
    cfg.timeStopMinutes > 0 && bar.ts - entryTs >= cfg.timeStopMinutes * MINUTE
  }

  /** `PnLDirection` for a directional position, the premium arithmetic for a straddle. */
  function PnL(p: Position, price: real): real {
    match p
    case Directional(_, _, put, entryPrice, qty, _, _) =>
      (if put then entryPrice - price else price - entryPrice) * qty as real
    case Straddle(_, _, underlying, premium, qty) =>
      (Abs(price - underlying) - premium) * qty as real
  }

  /** `evaluateExitBT` and `evaluateExitStraddle`: the time stop first, then the stop, then the target. */
  function ExitRule(cfg: Config, p: Position, bar: MinuteBar): Option<Exit> {
    if TimedOut(cfg, p.entryTs, bar) then Some(Exit(bar.close, PnL(p, bar.close), TimeStop))
    else match p
      case Directional(_, _, put, _, _, stop, target) =>
        if stop > 0.0 && (if put then bar.high >= stop else bar.low <= stop) then Some(Exit(stop, PnL(p, stop), StopLoss))
        else if target > 0.0 && (if put then bar.low <= target else bar.high >= target) then
          Some(Exit(target, PnL(p, target), TakeProfit))
        else None
      case Straddle(_, _, _, premium, qty) =>
        var pnl := PnL(p, bar.close);
        if cfg.optionStopPct > 0.0 && pnl <= -(premium * qty as real) * cfg.optionStopPct then
          Some(Exit(bar.close, pnl, StopLoss))
        else if cfg.optionTargetPct > 0.0 && pnl >= premium * qty as real * cfg.optionTargetPct then
          Some(Exit(bar.close, pnl, TakeProfit))
        else None
  }

  /** What the position cost. */
  function Outlay(p: Position): real {
    (if p.Straddle? then p.premium else p.entryPrice) * p.qty as real
  }

  /** The return is the profit per money laid out. */
  function Close(p: Position, i: nat, bar: MinuteBar, exit: Exit): (t: Trade)
    ensures Outlay(p) > 0.0 ==> Yields(t)
  {
    Trade(p, i, bar.ts, exit, if Outlay(p) == 0.0 then 0.0 else exit.pnl / Outlay(p))
  }

  predicate Yields(t: Trade) {
    t.pnlPct * Outlay(t.position) == t.exit.pnl
  }

  // ---- Entry rule ----

  /** How many whole shares the capital pays for. */
  function Affords(capital: real, price: real): (qty: int)
    requires price > 0.0
    ensures qty as real * price <= capital < qty as real * price + price
  {
    FloorAffords(capital, price);
    (capital / price).Floor
  }

  lemma Upper(x: real, q: real, price: real, capital: real)
    requires price > 0.0 && x < q + 1.0 && x * price == capital
    ensures capital < q * price + price
  {
    var d := q + 1.0 - x;
    assert d * price > 0.0;
    assert d * price == q * price + price - x * price;
  }

  lemma Lower(x: real, q: real, price: real, capital: real)
    requires price > 0.0 && q <= x && x * price == capital
    ensures q * price <= capital
  {
    var d := x - q;
    if d > 0.0 {
      assert d * price > 0.0;
      assert d * price == x * price - q * price;
    } else {
      assert q == x;
    }
  }

  lemma FloorAffords(capital: real, price: real)
    requires price > 0.0
    ensures (capital / price).Floor as real * price <= capital
    ensures capital < (capital / price).Floor as real * price + price
  {
    var x := capital / price;
    Quotient(capital, price, x);
    Lower(x, x.Floor as real, price, capital);
    Upper(x, x.Floor as real, price, capital);
  }

  lemma Quotient(capital: real, price: real, x: real)
    requires price > 0.0 && x == capital / price
    ensures x * price == capital
  {
  }

  lemma TooDear(capital: real, price: real)
    requires price > 0.0 && Affords(capital, price) < 1
    ensures capital < price
  {
    var q := Affords(capital, price);
    if q < 0 {
      assert q as real * price < 0.0;
    }
  }

  /** The position taken on the open of the bar after `seen`, if the draft allows one. */
  function Enter(cfg: Config, seen: seq<MinuteBar>, next: MinuteBar): (r: Option<Position>)
    ensures r.Some? ==> r.value.entryIdx == |seen| && r.value.entryTs == next.ts && r.value.qty >= 1 && Outlay(r.value) > 0.0
  {
    var signal := cfg.signal(seen);
    if signal.None? then None
    else if signal.value.direction == StraddleSide then BuyStraddle(cfg, signal.value, |seen|, next)
    else BuyShares(cfg, signal.value, cfg.averageRange(seen), |seen|, next)
  }

  /** The range that the draft carries, times the stop's multiplier. */
  function Premium(cfg: Config, d: Draft): real {
    if d.atr.Some? && d.atr.value > 0.0 then d.atr.value * cfg.stopATR else 0.0
  }

  function BuyStraddle(cfg: Config, d: Draft, i: nat, next: MinuteBar): (r: Option<Position>)
    ensures r.Some? ==> r.value.Straddle? && r.value.premium > 0.0 && r.value.qty >= 1
  {
    var premium := Premium(cfg, d);
    if premium <= 0.0 then None
    else
      var qty := Affords(cfg.capital, premium);
      if qty < 1 then None else Some(Straddle(i, next.ts, next.open, premium, qty))
  }

  function BuyShares(cfg: Config, d: Draft, range: real, i: nat, next: MinuteBar): (r: Option<Position>)
    ensures r.Some? ==> r.value.Directional? && r.value.entryPrice > 0.0 && r.value.qty >= 1
  {
    var entryPrice := Slippage.Slipped(next.open, Slippage.Buy, cfg.slippageBps);
    if entryPrice <= 0.0 then None
    else
      var qty := Affords(cfg.capital, entryPrice);
      if qty < 1 then None
      else
        var put := d.direction == PutSide;
        var (stop, target) := Levels(cfg, d, put, entryPrice, range);
        Some(Directional(i, next.ts, put, entryPrice, qty, stop, target))
  }

  /** The draft's levels, or levels from the average range when the draft lacks one of them. */
  function Levels(cfg: Config, d: Draft, put: bool, entryPrice: real, atr: real): (real, real) {
    if (d.stopLoss == 0.0 || d.takeProfit == 0.0) && atr > 0.0 then
      if put then (entryPrice + atr * cfg.stopATR, entryPrice - atr * cfg.targetATR)
      else (entryPrice - atr * cfg.stopATR, entryPrice + atr * cfg.targetATR)
    else (d.stopLoss, d.takeProfit)
  }

  /** On either side, with levels taken from the average range, a stop costs `stopATR` ranges a share and
      a target earns `targetATR` of them. */
  lemma RangeExits(cfg: Config, seen: seq<MinuteBar>, next: MinuteBar, bar: MinuteBar)
    requires cfg.signal(seen).Some? && cfg.signal(seen).value.direction != StraddleSide
    requires cfg.signal(seen).value.stopLoss == 0.0 || cfg.signal(seen).value.takeProfit == 0.0
    requires cfg.averageRange(seen) > 0.0
    requires Enter(cfg, seen, next).Some? && ExitRule(cfg, Enter(cfg, seen, next).value, bar).Some?
    ensures var p := Enter(cfg, seen, next).value; var exit := ExitRule(cfg, p, bar).value; var atr := cfg.averageRange(seen);
            && (exit.reason == StopLoss ==> exit.pnl == -(atr * cfg.stopATR) * p.qty as real)
            && (exit.reason == TakeProfit ==> exit.pnl == atr * cfg.targetATR * p.qty as real)
  {
    var p := Enter(cfg, seen, next).value;
    var atr := cfg.averageRange(seen);
    var sign := if p.put then -1.0 else 1.0;
    assert p.stop == p.entryPrice - sign * (atr * cfg.stopATR);
    assert p.target == p.entryPrice + sign * (atr * cfg.targetATR);
  }

  // ---- The loop, for any entry and exit rules ----

  datatype Rules = Rules(enter: (seq<MinuteBar>, MinuteBar) -> Option<Position>, exit: (Position, MinuteBar) -> Option<Exit>)

  /** The source's rules. */
  function RulesOf(cfg: Config): Rules {
    Rules((seen, next) => Enter(cfg, seen, next), (p, bar) => ExitRule(cfg, p, bar))
  }

  /** Positions are entered on the bar after those seen, and cost something. */
  ghost predicate Sane(rules: Rules) {
    forall seen, next :: rules.enter(seen, next).Some? ==>
      rules.enter(seen, next).value.entryIdx == |seen| && Outlay(rules.enter(seen, next).value) > 0.0
  }

  lemma RulesAreSane(cfg: Config)
    ensures Sane(RulesOf(cfg))
  {
  }

  datatype State = State(trades: seq<Trade>, position: Option<Position>)

  function Step(rules: Rules, bars: seq<MinuteBar>, i: nat, s: State): State
    requires i < |bars|
  {
    if s.position.Some? then
      var exit := rules.exit(s.position.value, bars[i]);
      if exit.None? then s else State(s.trades + [Close(s.position.value, i, bars[i], exit.value)], None)
    else if i + 1 < |bars| then s.(position := rules.enter(bars[..i + 1], bars[i + 1]))
    else s
  }

  /** The state after the first `n` bars have been processed. */
  function After(rules: Rules, bars: seq<MinuteBar>, n: nat): State
    requires n <= |bars|
  {
    if n == 0 then State([], None) else Step(rules, bars, n - 1, After(rules, bars, n - 1))
  }

  /** The trades of a whole run; a position still open closes at the last close. */
  function Simulated(rules: Rules, bars: seq<MinuteBar>): seq<Trade> {
    var s := After(rules, bars, |bars|);
    if s.position.None? || bars == [] then s.trades
    else
      var p, last := s.position.value, bars[|bars| - 1];
      s.trades + [Close(p, |bars| - 1, last, Exit(last.close, PnL(p, last.close), EndOfData))]
  }

  method SimulateStrategyTrades(cfg: Config, bars: seq<MinuteBar>) returns (trades: seq<Trade>)
    ensures trades == Simulated(RulesOf(cfg), bars)
  {
    trades := [];
    var position: Option<Position> := None;
    for i := 0 to |bars|
      invariant After(RulesOf(cfg), bars, i) == State(trades, position)
    {
      if position.Some? {
        var exit := ExitRule(cfg, position.value, bars[i]);
        if exit.Some? {
          trades := trades + [Close(position.value, i, bars[i], exit.value)];
          position := None;
        }
        continue;
      }
      if i + 1 >= |bars| {
        continue;
      }
      position := Enter(cfg, bars[..i + 1], bars[i + 1]);
    }
    if position.Some? && |bars| > 0 {
      var last := bars[|bars| - 1];
      trades := trades + [Close(position.value, |bars| - 1, last, Exit(last.close, PnL(position.value, last.close), EndOfData))];
    }
  }

  // ---- Properties of every run ----

  /** The position was taken by the entry rule, on the bar after the prefix that triggered it. */
  ghost predicate EnteredByRule(rules: Rules, bars: seq<MinuteBar>, p: Position) {
    0 < p.entryIdx < |bars| && rules.enter(bars[..p.entryIdx], bars[p.entryIdx]) == Some(p)
  }

  /** No exit rule fires on the bars from the entry up to `end`. */
  ghost predicate Quiet(rules: Rules, bars: seq<MinuteBar>, p: Position, end: int) {
    forall j :: p.entryIdx <= j < end && j < |bars| ==> rules.exit(p, bars[j]).None?
  }

  /** The trade exits on the first bar at or after its entry on which the exit rule fires. */
  ghost predicate FirstExit(rules: Rules, bars: seq<MinuteBar>, t: Trade) {
    && EnteredByRule(rules, bars, t.position)
    && t.position.entryIdx <= t.exitIdx < |bars|
    && Quiet(rules, bars, t.position, t.exitIdx)
    && rules.exit(t.position, bars[t.exitIdx]) == Some(t.exit)
    && t.exitTs == bars[t.exitIdx].ts
    && Yields(t)
  }

  /** Trades follow each other: the next entry bar comes after the previous exit bar. */
  ghost predicate Disjoint(trades: seq<Trade>) {
    forall k :: 0 <= k < |trades| - 1 ==> trades[k].exitIdx < trades[k + 1].position.entryIdx
  }

  ghost predicate ClosedWell(rules: Rules, bars: seq<MinuteBar>, n: nat, trades: seq<Trade>) {
    Disjoint(trades) && forall k :: 0 <= k < |trades| ==> FirstExit(rules, bars, trades[k]) && trades[k].exitIdx < n
  }

  ghost predicate Consistent(rules: Rules, bars: seq<MinuteBar>, n: nat, s: State) {
    && ClosedWell(rules, bars, n, s.trades)
    && (s.position.Some? ==>
          && EnteredByRule(rules, bars, s.position.value) && s.position.value.entryIdx <= n
          && Quiet(rules, bars, s.position.value, n)
          && (s.trades != [] ==> s.trades[|s.trades| - 1].exitIdx < s.position.value.entryIdx))
  }

  lemma StepConsistent(rules: Rules, bars: seq<MinuteBar>, i: nat, s: State)
    requires Sane(rules) && i < |bars| && Consistent(rules, bars, i, s)
    ensures Consistent(rules, bars, i + 1, Step(rules, bars, i, s))
  {
    if s.position.Some? {
      var p := s.position.value;
      var exit := rules.exit(p, bars[i]);
      if exit.Some? && p.entryIdx <= i {
        CloseIsFirstExit(rules, bars, i, p);
        ClosedConsistent(rules, bars, i, s, Close(p, i, bars[i], exit.value));
      } else if exit.None? {
        assert Quiet(rules, bars, p, i + 1);
      }
    }
  }

  lemma CloseIsFirstExit(rules: Rules, bars: seq<MinuteBar>, i: nat, p: Position)
    requires Sane(rules) && p.entryIdx <= i < |bars| && EnteredByRule(rules, bars, p) && Quiet(rules, bars, p, i)
    requires rules.exit(p, bars[i]).Some?
    ensures FirstExit(rules, bars, Close(p, i, bars[i], rules.exit(p, bars[i]).value))
  {
  }

  lemma ClosedConsistent(rules: Rules, bars: seq<MinuteBar>, i: nat, s: State, t: Trade)
    requires Consistent(rules, bars, i, s) && FirstExit(rules, bars, t) && t.exitIdx == i && s.position == Some(t.position)
    ensures Consistent(rules, bars, i + 1, State(s.trades + [t], None))
  {
  }

  ghost predicate RunsWell(rules: Rules, bars: seq<MinuteBar>, n: nat) {
    n <= |bars| && Consistent(rules, bars, n, After(rules, bars, n))
  }

  lemma NextRunsWell(rules: Rules, bars: seq<MinuteBar>, n: nat)
    requires Sane(rules) && n < |bars| && RunsWell(rules, bars, n)
    ensures RunsWell(rules, bars, n + 1)
  {
    StepConsistent(rules, bars, n, After(rules, bars, n));
  }

  /** After every bar the closed trades and the open position are as they should be. */
  lemma {:induction false} RunConsistent(rules: Rules, bars: seq<MinuteBar>, n: nat)
    requires Sane(rules) && n <= |bars|
    ensures RunsWell(rules, bars, n)
  {
    if n == 0 {
      StartsWell(rules, bars);
    } else {
      RunConsistent(rules, bars, n - 1);
      NextRunsWell(rules, bars, n - 1);
    }
  }

  lemma StartsWell(rules: Rules, bars: seq<MinuteBar>)
    ensures RunsWell(rules, bars, 0)
  {
  }

  /** Trades of a run under `rules`: none overlap, and each is entered by rule and leaves at the first bar whose exit
      rule fires, except a last one for which no rule fires until the data ends. */
  ghost predicate FirstExits(rules: Rules, bars: seq<MinuteBar>, trades: seq<Trade>) {
    && Disjoint(trades)
    && (forall k :: 0 <= k < |trades| ==>
          || FirstExit(rules, bars, trades[k])
          || (k == |trades| - 1 && LeftOpen(rules, bars, trades[k])))
  }

  /** No rule fires until the data end, and the trade is closed at the last close. */
  ghost predicate LeftOpen(rules: Rules, bars: seq<MinuteBar>, t: Trade) {
    && EnteredByRule(rules, bars, t.position) && Quiet(rules, bars, t.position, |bars|)
    && t.position.entryIdx <= t.exitIdx == |bars| - 1
    && t.exitTs == bars[t.exitIdx].ts && Yields(t)
    && t.exit == Exit(bars[t.exitIdx].close, PnL(t.position, bars[t.exitIdx].close), EndOfData)
  }

  lemma RulesGiveFirstExits(rules: Rules, bars: seq<MinuteBar>)
    requires Sane(rules)
    ensures FirstExits(rules, bars, Simulated(rules, bars))
  {
    RunConsistent(rules, bars, |bars|);
  }

  /** Under the source's rules, whatever its configuration. */
  lemma TradesAreFirstExits(cfg: Config, bars: seq<MinuteBar>)
    ensures FirstExits(RulesOf(cfg), bars, Simulated(RulesOf(cfg), bars))
  {
    RulesAreSane(cfg);
    RulesGiveFirstExits(RulesOf(cfg), bars);
  }

  // ---- The same in prices ----

  /** The age limit has been reached. */
  predicate Aged(cfg: Config, p: Position, bar: MinuteBar) {
    cfg.timeStopMinutes > 0 && bar.ts - p.entryTs >= cfg.timeStopMinutes * 60_000_000_000
  }

  predicate StopReached(p: Position, bar: MinuteBar)
    requires p.Directional?
  {
    p.stop > 0.0 && if p.put then p.stop <= bar.high else bar.low <= p.stop
  }

  predicate TargetReached(p: Position, bar: MinuteBar)
    requires p.Directional?
  {
    p.target > 0.0 && if p.put then bar.low <= p.target else p.target <= bar.high
  }

  /** Profit of a share at a price: long for a call, short for a put, and the move less the premium for a straddle. */
  function Gain(p: Position, price: real): real {
    if p.Straddle? then (if price >= p.underlying then price - p.underlying else p.underlying - price) - p.premium
    else if p.put then p.entryPrice - price else price - p.entryPrice
  }

  /** A position stays open through a bar: it is not too old, and the bar lies between stop and target, or the straddle's
      profit between its bounds. */
  ghost predicate Stays(cfg: Config, p: Position, bar: MinuteBar) {
    && !Aged(cfg, p, bar)
    && (p.Directional? ==>
          && (p.stop > 0.0 ==> if p.put then bar.high < p.stop else p.stop < bar.low)
          && (p.target > 0.0 ==> if p.put then p.target < bar.low else bar.high < p.target))
    && (p.Straddle? ==>
          && (cfg.optionStopPct > 0.0 ==> Gain(p, bar.close) * p.qty as real > -(p.premium * p.qty as real) * cfg.optionStopPct)
          && (cfg.optionTargetPct > 0.0 ==> Gain(p, bar.close) * p.qty as real < p.premium * p.qty as real * cfg.optionTargetPct))
  }

  /** Why a position leaves on a bar, and at what price. */
  ghost predicate Leaves(cfg: Config, p: Position, bar: MinuteBar, exit: Exit) {
    && exit.pnl == Gain(p, exit.price) * p.qty as real
    && match exit.reason
       case TimeStop => Aged(cfg, p, bar) && exit.price == bar.close
       case EndOfData => Stays(cfg, p, bar) && exit.price == bar.close
       case StopLoss =>
         && !Aged(cfg, p, bar)
         && (p.Directional? ==> StopReached(p, bar) && exit.price == p.stop)
         && (p.Straddle? ==> exit.price == bar.close && cfg.optionStopPct > 0.0
                             && exit.pnl <= -(p.premium * p.qty as real) * cfg.optionStopPct)
       case TakeProfit =>
         && !Aged(cfg, p, bar)
         && (p.Directional? ==> !StopReached(p, bar) && TargetReached(p, bar) && exit.price == p.target)
         && (p.Straddle? ==> exit.price == bar.close && cfg.optionTargetPct > 0.0
                             && exit.pnl >= p.premium * p.qty as real * cfg.optionTargetPct
                             && (cfg.optionStopPct > 0.0 ==> exit.pnl > -(p.premium * p.qty as real) * cfg.optionStopPct))
  }

  lemma GainIsPnL(p: Position, price: real)
    ensures PnL(p, price) == Gain(p, price) * p.qty as real
  {
  }

  lemma AgedRule(cfg: Config, p: Position, bar: MinuteBar)
    ensures Aged(cfg, p, bar) ==> ExitRule(cfg, p, bar) == Some(Exit(bar.close, PnL(p, bar.close), TimeStop))
    ensures Aged(cfg, p, bar) <==> TimedOut(cfg, p.entryTs, bar)
  {
  }

  lemma DirectionalRule(cfg: Config, p: Position, bar: MinuteBar)
    requires p.Directional? && !Aged(cfg, p, bar)
    ensures ExitRule(cfg, p, bar) ==
            if StopReached(p, bar) then Some(Exit(p.stop, PnL(p, p.stop), StopLoss))
            else if TargetReached(p, bar) then Some(Exit(p.target, PnL(p, p.target), TakeProfit)) else None
  {
    AgedRule(cfg, p, bar);
  }

  lemma StraddleRule(cfg: Config, p: Position, bar: MinuteBar)
    requires p.Straddle? && !Aged(cfg, p, bar)
    ensures var pnl, cost := PnL(p, bar.close), p.premium * p.qty as real;
            ExitRule(cfg, p, bar) ==
              if cfg.optionStopPct > 0.0 && pnl <= -cost * cfg.optionStopPct then Some(Exit(bar.close, pnl, StopLoss))
              else if cfg.optionTargetPct > 0.0 && pnl >= cost * cfg.optionTargetPct then Some(Exit(bar.close, pnl, TakeProfit))
              else None
  {
    AgedRule(cfg, p, bar);
  }

  ghost predicate RuledInPrices(cfg: Config, p: Position, bar: MinuteBar) {
    var exit := ExitRule(cfg, p, bar);
    if exit.None? then Stays(cfg, p, bar) else Leaves(cfg, p, bar, exit.value)
  }

  lemma DirectionalInPrices(cfg: Config, p: Position, bar: MinuteBar)
    requires p.Directional? && !Aged(cfg, p, bar)
    ensures RuledInPrices(cfg, p, bar)
  {
    DirectionalRule(cfg, p, bar);
    GainIsPnL(p, p.stop);
    GainIsPnL(p, p.target);
  }

  lemma StraddleInPrices(cfg: Config, p: Position, bar: MinuteBar)
    requires p.Straddle? && !Aged(cfg, p, bar)
    ensures RuledInPrices(cfg, p, bar)
  {
    StraddleRule(cfg, p, bar);
    GainIsPnL(p, bar.close);
  }

  lemma AgedInPrices(cfg: Config, p: Position, bar: MinuteBar)
    requires Aged(cfg, p, bar)
    ensures RuledInPrices(cfg, p, bar)
  {
    AgedRule(cfg, p, bar);
    GainIsPnL(p, bar.close);
  }

  lemma RuleInPrices(cfg: Config, p: Position, bar: MinuteBar)
    ensures RuledInPrices(cfg, p, bar)
  {
    if Aged(cfg, p, bar) {
      AgedInPrices(cfg, p, bar);
    } else if p.Directional? {
      DirectionalInPrices(cfg, p, bar);
    } else {
      StraddleInPrices(cfg, p, bar);
    }
  }

  /** The position comes from the signal on the bars before its entry bar: bought at the open with slippage, as many as
      the capital pays for, with the draft's levels or those of the average range. */
  ghost predicate Enters(cfg: Config, seen: seq<MinuteBar>, next: MinuteBar, p: Position) {
    && cfg.signal(seen).Some? && p.entryTs == next.ts && p.entryIdx == |seen|
    && var d := cfg.signal(seen).value;
       && (p.Straddle? <==> d.direction == StraddleSide)
       && (p.Straddle? ==> d.atr.Some? && p.premium == d.atr.value * cfg.stopATR && d.atr.value > 0.0 && p.underlying == next.open
                           && Affordable(cfg.capital, p.premium, p.qty))
       && (p.Directional? ==>
             && (p.put <==> d.direction == PutSide) && Affordable(cfg.capital, p.entryPrice, p.qty)
             && p.entryPrice == BuyPrice(cfg, next)
             && (if (d.stopLoss == 0.0 || d.takeProfit == 0.0) && cfg.averageRange(seen) > 0.0
                 then RangeLevels(cfg, p, cfg.averageRange(seen)) else p.stop == d.stopLoss && p.target == d.takeProfit))
  }

  /** The most whole shares, and at least one, that the capital pays for. */
  ghost predicate Affordable(capital: real, price: real, qty: int) {
    price > 0.0 && qty >= 1 && qty as real * price <= capital < qty as real * price + price
  }

  /** The stop is on the losing side of the entry and the target on the winning side. */
  ghost predicate RangeLevels(cfg: Config, p: Position, range: real)
    requires p.Directional?
  {
    Gain(p, p.stop) == -(range * cfg.stopATR) && Gain(p, p.target) == range * cfg.targetATR
  }

  lemma EntryInPrices(cfg: Config, seen: seq<MinuteBar>, next: MinuteBar)
    requires Enter(cfg, seen, next).Some?
    ensures Enters(cfg, seen, next, Enter(cfg, seen, next).value)
  {
    var d := cfg.signal(seen).value;
    if d.direction != StraddleSide {
      SharesInPrices(cfg, d, cfg.averageRange(seen), |seen|, next);
    }
  }

  lemma SharesInPrices(cfg: Config, d: Draft, range: real, i: nat, next: MinuteBar)
    requires BuyShares(cfg, d, range, i, next).Some?
    ensures var p := BuyShares(cfg, d, range, i, next).value;
            && p.entryPrice == BuyPrice(cfg, next) && Affordable(cfg.capital, p.entryPrice, p.qty)
            && (if (d.stopLoss == 0.0 || d.takeProfit == 0.0) && range > 0.0 then RangeLevels(cfg, p, range)
                else p.stop == d.stopLoss && p.target == d.takeProfit)
  {
    BuyPriceIsSlipped(cfg, next);
    LevelsInPrices(cfg, d, BuyShares(cfg, d, range, i, next).value, range);
  }

  lemma LevelsInPrices(cfg: Config, d: Draft, p: Position, range: real)
    requires p.Directional? && (p.stop, p.target) == Levels(cfg, d, p.put, p.entryPrice, range)
    ensures if (d.stopLoss == 0.0 || d.takeProfit == 0.0) && range > 0.0 then RangeLevels(cfg, p, range)
            else p.stop == d.stopLoss && p.target == d.takeProfit
  {
  }

  function BuyPrice(cfg: Config, next: MinuteBar): real {
    next.open * (1.0 + (if cfg.slippageBps > 0.0 then cfg.slippageBps else 0.0) / 10000.0)
  }

  lemma BuyPriceIsSlipped(cfg: Config, next: MinuteBar)
    ensures Slippage.Slipped(next.open, Slippage.Buy, cfg.slippageBps) == BuyPrice(cfg, next)
  {
    assert next.open * (1.0 + 0.0 / 10000.0) == next.open;
  }

  /** A signal is passed over only when there is nothing to buy: no positive price or range, or too little capital. */
  lemma PassedOverWhen(cfg: Config, seen: seq<MinuteBar>, next: MinuteBar)
    requires cfg.signal(seen).Some? && Enter(cfg, seen, next).None?
    ensures var d := cfg.signal(seen).value;
            if d.direction == StraddleSide then
              d.atr.None? || d.atr.value <= 0.0 || d.atr.value * cfg.stopATR <= 0.0 || cfg.capital < d.atr.value * cfg.stopATR
            else BuyPrice(cfg, next) <= 0.0 || cfg.capital < BuyPrice(cfg, next)
  {
    if cfg.signal(seen).value.direction == StraddleSide {
      StraddlePassedOver(cfg, seen, next, cfg.signal(seen).value);
    } else {
      BuyPriceIsSlipped(cfg, next);
      if BuyPrice(cfg, next) > 0.0 {
        TooDear(cfg.capital, BuyPrice(cfg, next));
      }
    }
  }

  lemma StraddlePassedOver(cfg: Config, seen: seq<MinuteBar>, next: MinuteBar, d: Draft)
    requires cfg.signal(seen) == Some(d) && d.direction == StraddleSide && Enter(cfg, seen, next).None?
    ensures d.atr.None? || d.atr.value <= 0.0 || d.atr.value * cfg.stopATR <= 0.0 || cfg.capital < d.atr.value * cfg.stopATR
  {
    if Premium(cfg, d) > 0.0 {
      TooDear(cfg.capital, Premium(cfg, d));
    }
  }

  /** The trade in prices: entered on a signal of the bars before it, open through every bar up to its last, and left
      there for a reason that the bar's prices give, with the return on what it cost. */
  ghost predicate InPrices(cfg: Config, bars: seq<MinuteBar>, t: Trade) {
    var p := t.position;
    && 0 < p.entryIdx <= t.exitIdx < |bars| && t.exitTs == bars[t.exitIdx].ts
    && Enters(cfg, bars[..p.entryIdx], bars[p.entryIdx], p)
    && (forall j :: p.entryIdx <= j < t.exitIdx ==> Stays(cfg, p, bars[j]))
    && Leaves(cfg, p, bars[t.exitIdx], t.exit)
    && ReturnOnCost(t)
  }

  ghost predicate ReturnOnCost(t: Trade) {
    var price := if t.position.Straddle? then t.position.premium else t.position.entryPrice;
    t.pnlPct * (price * t.position.qty as real) == t.exit.pnl
  }

  lemma YieldIsReturn(t: Trade)
    requires Yields(t)
    ensures ReturnOnCost(t)
  {
  }

  /** So are all simulated trades; only the last one may be closed by the end of the data. */
  lemma TradesInPrices(cfg: Config, bars: seq<MinuteBar>, k: nat)
    requires k < |Simulated(RulesOf(cfg), bars)|
    ensures InPrices(cfg, bars, Simulated(RulesOf(cfg), bars)[k])
  {
    var t := Simulated(RulesOf(cfg), bars)[k];
    TradesAreFirstExits(cfg, bars);
    TradeInPrices(cfg, bars, t);
  }

  lemma TradeInPrices(cfg: Config, bars: seq<MinuteBar>, t: Trade)
    requires FirstExit(RulesOf(cfg), bars, t) || LeftOpen(RulesOf(cfg), bars, t)
    ensures InPrices(cfg, bars, t)
  {
    EnteredInPrices(cfg, bars, t.position);
    YieldIsReturn(t);
    if FirstExit(RulesOf(cfg), bars, t) {
      StaysWhileQuiet(cfg, bars, t.position, t.exitIdx);
      ExitInPrices(cfg, bars, t);
    } else {
      StaysWhileQuiet(cfg, bars, t.position, |bars|);
      EndInPrices(cfg, t.position, bars[t.exitIdx]);
    }
  }

  lemma EndInPrices(cfg: Config, p: Position, bar: MinuteBar)
    requires Stays(cfg, p, bar)
    ensures Leaves(cfg, p, bar, Exit(bar.close, PnL(p, bar.close), EndOfData))
  {
    GainIsPnL(p, bar.close);
  }

  lemma EnteredInPrices(cfg: Config, bars: seq<MinuteBar>, p: Position)
    requires EnteredByRule(RulesOf(cfg), bars, p)
    ensures 0 < p.entryIdx < |bars| && Enters(cfg, bars[..p.entryIdx], bars[p.entryIdx], p)
  {
    EntryInPrices(cfg, bars[..p.entryIdx], bars[p.entryIdx]);
  }

  lemma ExitInPrices(cfg: Config, bars: seq<MinuteBar>, t: Trade)
    requires FirstExit(RulesOf(cfg), bars, t)
    ensures Leaves(cfg, t.position, bars[t.exitIdx], t.exit)
  {
    RuleInPrices(cfg, t.position, bars[t.exitIdx]);
  }

  lemma StaysWhileQuiet(cfg: Config, bars: seq<MinuteBar>, p: Position, end: nat)
    requires Quiet(RulesOf(cfg), bars, p, end) && end <= |bars|
    ensures forall j :: p.entryIdx <= j < end ==> Stays(cfg, p, bars[j])
  {
    forall j | p.entryIdx <= j < end ensures Stays(cfg, p, bars[j]) {
      assert RulesOf(cfg).exit(p, bars[j]).None?;
      RuleInPrices(cfg, p, bars[j]);
    }
  }

  /** Before bar `n - 1` is processed, a run on the first `n` bars is in the state of the full run. */
  lemma {:induction false} PrefixAgrees(rules: Rules, bars: seq<MinuteBar>, n: nat, i: nat)
    requires i < n <= |bars|
    ensures After(rules, bars[..n], i) == After(rules, bars, i)
  {
    if i > 0 {
      PrefixAgrees(rules, bars, n, i - 1);
      assert bars[..n][..i] == bars[..i];
    }
  }

  /** Processing more bars only appends trades, each closed on one of those bars. */
  lemma {:induction false} TradesOnlyAppended(rules: Rules, bars: seq<MinuteBar>, n: nat, m: nat)
    requires n <= m <= |bars|
    ensures After(rules, bars, n).trades <= After(rules, bars, m).trades
    ensures forall k :: |After(rules, bars, n).trades| <= k < |After(rules, bars, m).trades| ==>
              After(rules, bars, m).trades[k].exitIdx >= n
  {
    if n < m {
      TradesOnlyAppended(rules, bars, n, m - 1);
    }
  }

  /** The trades closed inside the loop before bar `n`. */
  ghost function ClosedBefore(trades: seq<Trade>, n: nat): seq<Trade> {
    if trades == [] then []
    else
      var last := trades[|trades| - 1];
      ClosedBefore(trades[..|trades| - 1], n) + if last.exitIdx < n then [last] else []
  }

  lemma {:induction false} ClosedBeforeSplit(trades: seq<Trade>, n: nat, cut: nat)
    requires cut <= |trades|
    requires forall k :: 0 <= k < cut ==> trades[k].exitIdx < n
    requires forall k :: cut <= k < |trades| ==> trades[k].exitIdx >= n
    ensures ClosedBefore(trades, n) == trades[..cut]
  {
    if |trades| > cut {
      ClosedBeforeSplit(trades[..|trades| - 1], n, cut);
      assert trades[..|trades| - 1][..cut] == trades[..cut];
    } else if cut > 0 {
      ClosedBeforeSplit(trades[..cut - 1], n, cut - 1);
      assert trades[..cut - 1][..cut - 1] + [trades[cut - 1]] == trades[..cut];
    }
  }

  /** No look-ahead: what happens from bar `n` on cannot change the trades closed before it.  The trades
      the loop closes on the first `n` bars are those the full run closes before bar `n`. */
  lemma RulesDoNotLookAhead(rules: Rules, bars: seq<MinuteBar>, n: nat)
    requires Sane(rules) && n <= |bars|
    ensures After(rules, bars[..n], n).trades == ClosedBefore(After(rules, bars, |bars|).trades, n)
  {
    if n > 0 {
      PrefixAgrees(rules, bars, n, n - 1);
    }
    assert After(rules, bars[..n], n).trades == After(rules, bars, n).trades;
    TradesOnlyAppended(rules, bars, n, |bars|);
    RunConsistent(rules, bars, n);
    var all, cut := After(rules, bars, |bars|).trades, |After(rules, bars, n).trades|;
    ClosedBeforeSplit(all, n, cut);
  }

  /** Under the source's rules, whatever its configuration. */
  lemma NoLookAhead(cfg: Config, bars: seq<MinuteBar>, n: nat)
    requires n <= |bars|
    ensures After(RulesOf(cfg), bars[..n], n).trades == ClosedBefore(After(RulesOf(cfg), bars, |bars|).trades, n)
  {
    RulesAreSane(cfg);
    RulesDoNotLookAhead(RulesOf(cfg), bars, n);
  }
}
