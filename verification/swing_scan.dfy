/** The entry and exit scan of `findSwingTrade` in internal/backtest/archive_swing.go.

    The entry signal is an arbitrary predicate of the bar index.  The zone has a fixed offset, so a local
    date is a day number. */
module SwingScan {
  import opened Options
  import opened Market

  const DAY: int := 1440 * MINUTE

  datatype Config = Config(intradayTarget: real, swingTarget: real, stopLossPct: real, holdMinGain: real, zone: int)

  datatype Reason = StopLoss | SameDayTarget | SwingTarget | SameDayClose | FinalClose

  datatype SwingTrade = SwingTrade(entryIdx: nat, exitIdx: nat, reason: Reason, success: bool)

  function Date(cfg: Config, bar: MinuteBar): int {
    (bar.ts + cfg.zone * MINUTE) / DAY
  }

  function SwingLevel(cfg: Config, entry: MinuteBar): real {
    entry.close * (1.0 + cfg.swingTarget)
  }

  function SameDayLevel(cfg: Config, entry: MinuteBar): real {
    entry.close * (1.0 + cfg.intradayTarget)
  }

  /** The stop level, 0 when there is none. */
  function StopLevel(cfg: Config, entry: MinuteBar): real {
    if cfg.stopLossPct > 0.0 then entry.close * (1.0 - cfg.stopLossPct) else 0.0
  }

  /** `close / entry - 1 < least`, with the infinities of a zero entry price. */
  predicate GainBelow(close: real, entry: real, least: real) {
    if entry == 0.0 then close < 0.0 else close / entry - 1.0 < least
  }

  // ---- The rules, bar by bar ----

  /** Bar `k` is the first after the entry on another date. */
  ghost predicate OpensNextDate(cfg: Config, bars: seq<MinuteBar>, entry: nat, k: nat)
    requires entry < k < |bars|
  {
    Date(cfg, bars[k]) != Date(cfg, bars[entry])
    && forall j :: entry < j < k ==> Date(cfg, bars[j]) == Date(cfg, bars[entry])
  }

  /** The rule that fires on bar `k` of a position entered on bar `entry`: the stop before the target,
      the target before the overnight rule, which looks only at the first bar of the next date. */
  ghost function Fires(cfg: Config, bars: seq<MinuteBar>, entry: nat, k: nat): Option<Reason>
    requires entry < k < |bars|
  {
    var e, b := bars[entry], bars[k];
    var sameDay := Date(cfg, b) == Date(cfg, e);
    if StopLevel(cfg, e) > 0.0 && b.close <= StopLevel(cfg, e) then Some(StopLoss)
    else if b.close >= (if sameDay then SameDayLevel(cfg, e) else SwingLevel(cfg, e)) then
      Some(if sameDay then SameDayTarget else SwingTarget)
    else if cfg.holdMinGain != 0.0 && OpensNextDate(cfg, bars, entry, k)
            && GainBelow(bars[k - 1].close, e.close, cfg.holdMinGain) then
      Some(SameDayClose)
    else None
  }

  /** The exit of a position: on the earliest later bar where a rule fires (the overnight rule goes back
      to the bar before), else on the last bar. */
  ghost predicate IsExit(cfg: Config, bars: seq<MinuteBar>, t: SwingTrade)
    requires t.entryIdx < |bars|
  {
    if t.reason == FinalClose then
      && t.exitIdx == |bars| - 1
      && t.success == (bars[|bars| - 1].close >= SwingLevel(cfg, bars[t.entryIdx]))
      && forall j :: t.entryIdx < j < |bars| ==> Fires(cfg, bars, t.entryIdx, j).None?
    else
      var k := if t.reason == SameDayClose then t.exitIdx + 1 else t.exitIdx;
      && t.entryIdx < k < |bars|
      && Fires(cfg, bars, t.entryIdx, k) == Some(t.reason)
      && t.success == (t.reason == SameDayTarget || t.reason == SwingTarget)
      && forall j :: t.entryIdx < j < k ==> Fires(cfg, bars, t.entryIdx, j).None?
  }

  ghost predicate IsFirstSignal(signal: nat -> bool, minIndex: nat, i: nat) {
    minIndex <= i && signal(i) && forall j: nat :: minIndex <= j < i ==> !signal(j)
  }

  /** The first signal opens the position; `hold` is the overnight threshold, spent at the first bar of
      another date that passes it. */
  method FindSwingTrade(cfg: Config, bars: seq<MinuteBar>, signal: nat -> bool, minIndex: nat)
    returns (trade: Option<SwingTrade>)
    ensures trade.None? <==> forall i: nat :: minIndex <= i < |bars| ==> !signal(i)
    ensures trade.Some? ==> trade.value.entryIdx < |bars| && IsFirstSignal(signal, minIndex, trade.value.entryIdx)
                            && IsExit(cfg, bars, trade.value)
  {
    var open: Option<nat> := None;
    var hold := cfg.holdMinGain;
    var i := minIndex;
    while i < |bars|
      invariant minIndex <= i
      invariant open.None? ==> (forall j: nat :: minIndex <= j < i && j < |bars| ==> !signal(j)) && hold == cfg.holdMinGain
      invariant open.Some? ==> open.value < i <= |bars| && IsFirstSignal(signal, minIndex, open.value)
      invariant open.Some? ==> forall j :: open.value < j < i ==> Fires(cfg, bars, open.value, j).None?
      invariant open.Some? ==> hold == cfg.holdMinGain || hold == 0.0
      invariant open.Some? && hold != 0.0 ==> forall j :: open.value < j < i ==> Date(cfg, bars[j]) == Date(cfg, bars[open.value])
      invariant open.Some? && hold != cfg.holdMinGain ==>
                  exists j :: open.value < j < i && Date(cfg, bars[j]) != Date(cfg, bars[open.value])
    {
      if open.None? {
        if signal(i) {
          open := Some(i);
        }
        i := i + 1;
        continue;
      }
      var e := open.value;
      var current := bars[i];
      var sameDay := Date(cfg, current) == Date(cfg, bars[e]);
      var target := if sameDay then SameDayLevel(cfg, bars[e]) else SwingLevel(cfg, bars[e]);
      var stop := StopLevel(cfg, bars[e]);
      if stop > 0.0 && current.close <= stop {
        return Some(SwingTrade(e, i, StopLoss, false));
      }
      if current.close >= target {
        return Some(SwingTrade(e, i, if sameDay then SameDayTarget else SwingTarget, true));
      }
      if hold != 0.0 && !sameDay {
        if GainBelow(bars[i - 1].close, bars[e].close, hold) {
          return Some(SwingTrade(e, i - 1, SameDayClose, false));
        }
        hold := 0.0;
      }
      i := i + 1;
    }
    if open.None? {
      return None;
    }
    var last := |bars| - 1;
    trade := Some(SwingTrade(open.value, last, FinalClose, bars[last].close >= SwingLevel(cfg, bars[open.value])));
  }

  // ---- In prices ----

  /** The bars are of one local day. */
  ghost predicate SameDay(cfg: Config, a: MinuteBar, b: MinuteBar) {
    (a.ts + cfg.zone * 60_000_000_000) / 86_400_000_000_000 == (b.ts + cfg.zone * 60_000_000_000) / 86_400_000_000_000
  }

  ghost predicate StopHit(cfg: Config, e: MinuteBar, b: MinuteBar) {
    cfg.stopLossPct > 0.0 && e.close * (1.0 - cfg.stopLossPct) > 0.0 && b.close <= e.close * (1.0 - cfg.stopLossPct)
  }

  /** The day of the entry has its own target. */
  ghost predicate TargetHit(cfg: Config, e: MinuteBar, b: MinuteBar) {
    if SameDay(cfg, e, b) then b.close >= e.close * (1.0 + cfg.intradayTarget) else b.close >= e.close * (1.0 + cfg.swingTarget)
  }

  /** What the closes say of an exit. */
  ghost predicate InPrices(cfg: Config, bars: seq<MinuteBar>, t: SwingTrade)
    requires t.entryIdx < |bars| && t.exitIdx < |bars|
  {
    var e, x := bars[t.entryIdx], bars[t.exitIdx];
    match t.reason
    case StopLoss => StopHit(cfg, e, x)
    case SameDayTarget => SameDay(cfg, e, x) && TargetHit(cfg, e, x) && !StopHit(cfg, e, x)
    case SwingTarget => !SameDay(cfg, e, x) && TargetHit(cfg, e, x) && !StopHit(cfg, e, x)
    case SameDayClose => TooLowToHold(cfg, bars, t.entryIdx, t.exitIdx)
    case FinalClose => t.exitIdx == |bars| - 1 && t.success == (x.close >= e.close * (1.0 + cfg.swingTarget))
  }

  /** The last bar of the entry's day, where the gain is below the least to hold on. */
  ghost predicate TooLowToHold(cfg: Config, bars: seq<MinuteBar>, entry: nat, exit: nat)
    requires entry < |bars| && exit < |bars|
  {
    && exit + 1 < |bars| && !SameDay(cfg, bars[entry], bars[exit + 1])
    && (forall j :: entry < j <= exit ==> SameDay(cfg, bars[entry], bars[j]))
    && cfg.holdMinGain != 0.0 && (bars[entry].close > 0.0 ==> bars[exit].close / bars[entry].close - 1.0 < cfg.holdMinGain)
  }

  /** A stop or a target is hit by the close of its bar, an overnight exit is the last close of the entry's day and too
      low to hold on, and no bar between entry and exit hits either level. */
  lemma ExitInPrices(cfg: Config, bars: seq<MinuteBar>, t: SwingTrade)
    requires t.entryIdx < |bars| && IsExit(cfg, bars, t)
    ensures t.exitIdx < |bars| && InPrices(cfg, bars, t)
    ensures forall j :: t.entryIdx < j < t.exitIdx ==>
              !StopHit(cfg, bars[t.entryIdx], bars[j]) && !TargetHit(cfg, bars[t.entryIdx], bars[j])
  {
    if t.reason != FinalClose {
      FiredInPrices(cfg, bars, t, if t.reason == SameDayClose then t.exitIdx + 1 else t.exitIdx);
    }
    forall j | t.entryIdx < j < t.exitIdx
      ensures !StopHit(cfg, bars[t.entryIdx], bars[j]) && !TargetHit(cfg, bars[t.entryIdx], bars[j])
    {
      HeldIsQuiet(cfg, bars, t.entryIdx, j);
    }
  }

  lemma FiredInPrices(cfg: Config, bars: seq<MinuteBar>, t: SwingTrade, k: nat)
    requires t.entryIdx < k < |bars| && Fires(cfg, bars, t.entryIdx, k) == Some(t.reason)
    requires t.exitIdx == if t.reason == SameDayClose then k - 1 else k
    ensures t.reason != FinalClose && InPrices(cfg, bars, t)
  {
    LevelsHit(cfg, bars[t.entryIdx], bars[k]);
    if t.reason == SameDayClose {
      forall j | t.entryIdx < j <= t.exitIdx ensures SameDay(cfg, bars[t.entryIdx], bars[j]) {
        SameDate(cfg, bars[t.entryIdx], bars[j]);
      }
    }
  }

  lemma SameDate(cfg: Config, a: MinuteBar, b: MinuteBar)
    ensures SameDay(cfg, a, b) <==> Date(cfg, a) == Date(cfg, b)
  {
  }

  lemma HeldIsQuiet(cfg: Config, bars: seq<MinuteBar>, entry: nat, k: nat)
    requires entry < k < |bars| && Fires(cfg, bars, entry, k).None?
    ensures !StopHit(cfg, bars[entry], bars[k]) && !TargetHit(cfg, bars[entry], bars[k])
  {
    LevelsHit(cfg, bars[entry], bars[k]);
  }

  lemma LevelsHit(cfg: Config, e: MinuteBar, b: MinuteBar)
    ensures SameDay(cfg, e, b) <==> Date(cfg, e) == Date(cfg, b)
    ensures StopHit(cfg, e, b) <==> StopLevel(cfg, e) > 0.0 && b.close <= StopLevel(cfg, e)
    ensures TargetHit(cfg, e, b) <==>
            b.close >= if Date(cfg, e) == Date(cfg, b) then SameDayLevel(cfg, e) else SwingLevel(cfg, e)
  {
    SameDate(cfg, e, b);
  }

  // ---- On time-sorted bars ----

  lemma DateMonotone(cfg: Config, a: MinuteBar, b: MinuteBar)
    requires a.ts <= b.ts
    ensures Date(cfg, a) <= Date(cfg, b)
  {
  }

  /** The exit is never before the entry; an overnight exit is on the last bar of the entry date; a stop
      exit is at or below the stop, a target exit at or above its target and above any stop. */
  lemma ExitAfterEntry(cfg: Config, bars: seq<MinuteBar>, t: SwingTrade)
    requires TimeSorted(bars) && t.entryIdx < |bars| && IsExit(cfg, bars, t)
    ensures t.entryIdx <= t.exitIdx < |bars| && bars[t.entryIdx].ts <= bars[t.exitIdx].ts
    ensures t.reason == SameDayClose ==>
              && Date(cfg, bars[t.exitIdx]) == Date(cfg, bars[t.entryIdx])
              && forall j :: t.exitIdx < j < |bars| ==> Date(cfg, bars[j]) > Date(cfg, bars[t.entryIdx])
    ensures t.reason == SameDayTarget ==> Date(cfg, bars[t.exitIdx]) == Date(cfg, bars[t.entryIdx])
    ensures t.reason == SwingTarget ==> Date(cfg, bars[t.exitIdx]) > Date(cfg, bars[t.entryIdx])
    ensures t.reason in {SameDayTarget, SwingTarget} && StopLevel(cfg, bars[t.entryIdx]) > 0.0 ==>
              bars[t.exitIdx].close > StopLevel(cfg, bars[t.entryIdx])
  {
    DateMonotone(cfg, bars[t.entryIdx], bars[t.exitIdx]);
    if t.reason == SameDayClose {
      var k := t.exitIdx + 1;
      DateMonotone(cfg, bars[t.entryIdx], bars[k]);
      forall j | t.exitIdx < j < |bars| ensures Date(cfg, bars[j]) > Date(cfg, bars[t.entryIdx]) {
        DateMonotone(cfg, bars[k], bars[j]);
      }
    }
  }
}
