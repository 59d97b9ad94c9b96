/** `priceAtOrBefore` and `exitOptionTrade` of internal/backtest/options_backtest.go over exact arithmetic. */
module OptionExit {
  import opened Options
  import Seqs
  import opened Market

  // ---- The price at or before an instant ----

  /** The least index whose bar is not before `ts`, by scanning. */
  function FirstNotBefore(bars: seq<MinuteBar>, ts: int): (i: nat)
    ensures i <= |bars|
    ensures forall j :: 0 <= j < i ==> bars[j].ts < ts
    ensures i < |bars| ==> bars[i].ts >= ts
  {
    if bars == [] || bars[0].ts >= ts then 0 else 1 + FirstNotBefore(bars[1..], ts)
  }

  /** What the code picks: a bar exactly at `ts` if there is one, else the last one before. */
  function PickedIndex(bars: seq<MinuteBar>, ts: int): Option<nat> {
    var i := FirstNotBefore(bars, ts);
    if i < |bars| && bars[i].ts == ts then Some(i) else if i == 0 then None else Some(i - 1)
  }

  function PriceOf(bars: seq<MinuteBar>, ts: int): Option<real> {
    var i := PickedIndex(bars, ts);
    if i.Some? && i.value < |bars| then Some(bars[i.value].close) else None
  }

  /** `sort.Search` on the timestamps. */
  method SearchNotBefore(bars: seq<MinuteBar>, ts: int) returns (i: nat)
    requires TimeSorted(bars)
    ensures i == FirstNotBefore(bars, ts)
  {
    var lo, hi := 0, |bars|;
    while lo < hi
      invariant 0 <= lo <= hi <= |bars|
      invariant forall j :: 0 <= j < lo ==> bars[j].ts < ts
      invariant hi < |bars| ==> bars[hi].ts >= ts
    {
      var mid := (lo + hi) / 2;
      if bars[mid].ts < ts {
        lo := mid + 1;
      } else {
        hi := mid;
      }
    }
    i := lo;
  }

  method PriceAtOrBefore(bars: seq<MinuteBar>, ts: int) returns (price: Option<real>)
    requires TimeSorted(bars)
    ensures price == PriceOf(bars, ts)
  {
    if |bars| == 0 {
      return None;
    }
    var idx := SearchNotBefore(bars, ts);
    if idx < |bars| && bars[idx].ts == ts {
      return Some(bars[idx].close);
    }
    if idx == 0 {
      return None;
    }
    price := Some(bars[idx - 1].close);
  }

  /** The price is the close of the first bar of the instant or, when there is none, of the last bar before it. */
  ghost predicate ClosesAt(bars: seq<MinuteBar>, ts: int, price: real) {
    exists i :: 0 <= i < |bars| && price == bars[i].close && IsPick(bars, ts, i)
  }

  ghost predicate IsPick(bars: seq<MinuteBar>, ts: int, i: nat)
    requires i < |bars|
  {
    if bars[i].ts == ts then forall j :: 0 <= j < i ==> bars[j].ts < ts
    else bars[i].ts < ts && forall j :: i < j < |bars| ==> bars[j].ts > ts
  }

  /** There is a price from the first bar on. */
  lemma PriceIs(bars: seq<MinuteBar>, ts: int)
    requires TimeSorted(bars)
    ensures PriceOf(bars, ts).Some? ==> ClosesAt(bars, ts, PriceOf(bars, ts).value)
    ensures PriceOf(bars, ts).None? <==> forall j :: 0 <= j < |bars| ==> bars[j].ts > ts
  {
    var i := PickedIndex(bars, ts);
    if i.Some? {
      assert IsPick(bars, ts, i.value);
    }
  }

  /** The last bar at or before `ts`, by scanning from the end. */
  function LastAtOrBefore(bars: seq<MinuteBar>, ts: int): (i: Option<nat>)
    ensures i.Some? ==> i.value < |bars| && bars[i.value].ts <= ts
    ensures forall j :: (if i.Some? then i.value else -1) < j < |bars| ==> bars[j].ts > ts
  {
    if bars == [] then None
    else if bars[|bars| - 1].ts <= ts then Some(|bars| - 1)
    else LastAtOrBefore(bars[..|bars| - 1], ts)
  }

  /** On sorted bars the pick is the last bar at or before the instant, unless two bars carry that very
      instant: then it is the first of those. */
  lemma PickIsLastIff(bars: seq<MinuteBar>, ts: int)
    requires TimeSorted(bars)
    ensures PickedIndex(bars, ts) == LastAtOrBefore(bars, ts)
        <==> forall i :: 0 <= i < |bars| - 1 ==> !(bars[i].ts == ts == bars[i + 1].ts)
    ensures PickedIndex(bars, ts).None? <==> LastAtOrBefore(bars, ts).None?
  {
    if i :| 0 <= i < |bars| - 1 && bars[i].ts == ts == bars[i + 1].ts {
      TwoAtOnce(bars, ts, i);
    } else {
      OneAtMost(bars, ts);
    }
  }

  lemma TwoAtOnce(bars: seq<MinuteBar>, ts: int, i: nat)
    requires TimeSorted(bars) && i < |bars| - 1 && bars[i].ts == ts == bars[i + 1].ts
    ensures PickedIndex(bars, ts).Some? && LastAtOrBefore(bars, ts).Some? && PickedIndex(bars, ts) != LastAtOrBefore(bars, ts)
  {
    assert FirstNotBefore(bars, ts) <= i && LastAtOrBefore(bars, ts).Some? && LastAtOrBefore(bars, ts).value >= i + 1;
  }

  lemma OneAtMost(bars: seq<MinuteBar>, ts: int)
    requires TimeSorted(bars) && forall i :: 0 <= i < |bars| - 1 ==> !(bars[i].ts == ts == bars[i + 1].ts)
    ensures PickedIndex(bars, ts) == LastAtOrBefore(bars, ts)
  {
    var first, last := FirstNotBefore(bars, ts), LastAtOrBefore(bars, ts);
    if last.Some? && first < |bars| - 1 && bars[first].ts == ts {
      assert bars[first + 1].ts != ts;
    }
  }

  // ---- The exit scan ----

  datatype Entry = Entry(time: int, ce: real, pe: real, qty: int)

  datatype Quote = Quote(ts: int, ce: real, pe: real)

  datatype Reason = Target | EndOfDay

  datatype Exit = Exit(time: int, reason: Reason, ce: real, pe: real, combo: real, pnl: real, maxPnL: real, maxPnLTime: int)

  function PnL(e: Entry, q: Quote): real {
    ((q.ce - e.ce) + (q.pe - e.pe)) * e.qty as real
  }

  /** The quote of a step, when both legs have a positive price. */
  function QuoteAt(ce: seq<MinuteBar>, pe: seq<MinuteBar>, ts: int): Option<Quote> {
    var c, p := PriceOf(ce, ts), PriceOf(pe, ts);
    if c.Some? && p.Some? && c.value > 0.0 && p.value > 0.0 then Some(Quote(ts, c.value, p.value)) else None
  }

  /** A quote takes the call's price from the call's bars and the put's from the put's; there is none before both have
      bars, and none at a price that is not positive. */
  lemma QuoteIs(ce: seq<MinuteBar>, pe: seq<MinuteBar>, ts: int)
    requires TimeSorted(ce) && TimeSorted(pe)
    ensures var q := QuoteAt(ce, pe, ts);
            if q.Some? then
              q.value.ts == ts && q.value.ce > 0.0 && q.value.pe > 0.0
              && ClosesAt(ce, ts, q.value.ce) && ClosesAt(pe, ts, q.value.pe)
            else Unpriced(ce, ts) || Unpriced(pe, ts)
  {
    PriceIs(ce, ts);
    PriceIs(pe, ts);
  }

  ghost predicate Unpriced(bars: seq<MinuteBar>, ts: int) {
    (forall j :: 0 <= j < |bars| ==> bars[j].ts > ts) || exists price :: price <= 0.0 && ClosesAt(bars, ts, price)
  }

  /** The quotes a scan sees, in order: from the entry bar, up to the first bar after `exitAt`. */
  function Quotes(underlying: seq<MinuteBar>, from: nat, ce: seq<MinuteBar>, pe: seq<MinuteBar>,
                  exitAt: int): (qs: seq<Quote>)
    decreases |underlying| - from
  {
    if from >= |underlying| || underlying[from].ts > exitAt then []
    else
      var q := QuoteAt(ce, pe, underlying[from].ts);
      var rest := Quotes(underlying, from + 1, ce, pe, exitAt);
      if q.Some? then [q.value] + rest else rest
  }

  predicate Reaches(e: Entry, target: real, q: Quote) {
    target > 0.0 && PnL(e, q) >= target
  }

  /** The running maximum of the P&L, from 0, and the instant it was last raised. */
  datatype Peak = Peak(pnl: real, time: int)

  function PeakOf(e: Entry, qs: seq<Quote>): Peak {
    if qs == [] then Peak(0.0, e.time)
    else Raise(PeakOf(e, qs[..|qs| - 1]), PnL(e, qs[|qs| - 1]), qs[|qs| - 1].ts)
  }

  function Raise(p: Peak, pnl: real, ts: int): Peak {
    if pnl > p.pnl then Peak(pnl, ts) else p
  }

  /** The peak is the first greatest P&L among the quotes, or 0 at entry when none is positive. */
  lemma {:induction false} PeakIsFirstMaximum(e: Entry, qs: seq<Quote>)
    ensures PeakOf(e, qs).pnl >= 0.0
    ensures forall i :: 0 <= i < |qs| ==> PnL(e, qs[i]) <= PeakOf(e, qs).pnl
    ensures if PeakOf(e, qs).pnl == 0.0 then PeakOf(e, qs).time == e.time
            else exists i :: 0 <= i < |qs| && PnL(e, qs[i]) == PeakOf(e, qs).pnl && qs[i].ts == PeakOf(e, qs).time
                             && forall j :: 0 <= j < i ==> PnL(e, qs[j]) < PeakOf(e, qs).pnl
  {
    if qs != [] {
      var earlier, n := qs[..|qs| - 1], |qs| - 1;
      PeakIsFirstMaximum(e, earlier);
      var peak := PeakOf(e, earlier);
      if PnL(e, qs[n]) > peak.pnl {
        assert forall j :: 0 <= j < n ==> PnL(e, qs[j]) == PnL(e, earlier[j]) < PnL(e, qs[n]);
      } else if peak.pnl != 0.0 {
        var i :| 0 <= i < n && PnL(e, earlier[i]) == peak.pnl && earlier[i].ts == peak.time
                 && forall j :: 0 <= j < i ==> PnL(e, earlier[j]) < peak.pnl;
        assert PnL(e, qs[i]) == peak.pnl && forall j :: 0 <= j < i ==> qs[j] == earlier[j];
      }
    }
  }

  function LastQuote(e: Entry, qs: seq<Quote>): Quote {
    if qs == [] then Quote(e.time, e.ce, e.pe) else qs[|qs| - 1]
  }

  /** The exit taken at the last of the quotes scanned, or at the entry prices when there is none. */
  function ExitAtLast(e: Entry, qs: seq<Quote>, reason: Reason): Exit {
    var last, peak := LastQuote(e, qs), PeakOf(e, qs);
    Exit(last.ts, reason, last.ce, last.pe, last.ce + last.pe, PnL(e, last), peak.pnl, peak.time)
  }

  /** Prices both legs at one step. */
  method ReadQuote(underlying: seq<MinuteBar>, i: nat, ce: seq<MinuteBar>, pe: seq<MinuteBar>, exitAt: int)
    returns (q: Option<Quote>)
    requires TimeSorted(ce) && TimeSorted(pe)
    requires i < |underlying| && underlying[i].ts <= exitAt
    ensures Quotes(underlying, i, ce, pe, exitAt)
         == if q.Some? then [q.value] + Quotes(underlying, i + 1, ce, pe, exitAt) else Quotes(underlying, i + 1, ce, pe, exitAt)
  {
    var ts := underlying[i].ts;
    var c := PriceAtOrBefore(ce, ts);
    var p := PriceAtOrBefore(pe, ts);
    if c.None? || p.None? || c.value <= 0.0 || p.value <= 0.0 {
      return None;
    }
    q := Some(Quote(ts, c.value, p.value));
  }

  lemma Reassociate(before: seq<Quote>, q: Quote, rest: seq<Quote>)
    ensures before + ([q] + rest) == before + [q] + rest
    ensures (before + [q])[..|before|] == before
  {
  }

  ghost predicate NoneReaches(e: Entry, target: real, qs: seq<Quote>) {
    qs != [] ==> !Reaches(e, target, qs[|qs| - 1]) && NoneReaches(e, target, qs[..|qs| - 1])
  }

  lemma {:induction false} NoneReachesMeans(e: Entry, target: real, qs: seq<Quote>)
    ensures NoneReaches(e, target, qs) <==> forall i :: 0 <= i < |qs| ==> !Reaches(e, target, qs[i])
  {
    if qs != [] {
      NoneReachesMeans(e, target, qs[..|qs| - 1]);
    }
  }

  ghost predicate Scanned(e: Entry, target: real, qs: seq<Quote>, last: Quote, peak: Peak) {
    last == LastQuote(e, qs) && peak == PeakOf(e, qs) && NoneReaches(e, target, qs)
  }

  lemma ScannedOne(e: Entry, target: real, qs: seq<Quote>, last: Quote, peak: Peak, q: Quote)
    requires Scanned(e, target, qs, last, peak)
    ensures var peak' := Raise(peak, PnL(e, q), q.ts);
            if Reaches(e, target, q) then LastQuote(e, qs + [q]) == q && PeakOf(e, qs + [q]) == peak'
            else Scanned(e, target, qs + [q], q, peak')
  {
    Seqs.Snoc(qs, qs, q);
  }

  /** What the loop knows before step `i`. */
  ghost predicate Scanning(e: Entry, target: real, all: seq<Quote>, rest: seq<Quote>, scanned: seq<Quote>, last: Quote,
                           peak: Peak) {
    scanned + rest == all && Scanned(e, target, scanned, last, peak)
  }

  /** A step that goes on, or stops at its quote. */
  lemma ScanOne(e: Entry, target: real, all: seq<Quote>, rest: seq<Quote>, scanned: seq<Quote>, last: Quote,
                peak: Peak, q: Quote)
    requires Scanning(e, target, all, [q] + rest, scanned, last, peak)
    ensures var scanned', peak' := scanned + [q], Raise(peak, PnL(e, q), q.ts);
            if Reaches(e, target, q) then Stopped(e, target, all, scanned', q, peak')
            else Scanning(e, target, all, rest, scanned', q, peak')
  {
    ScannedOne(e, target, scanned, last, peak, q);
    Reassociate(scanned, q, rest);
  }

  ghost predicate Stopped(e: Entry, target: real, all: seq<Quote>, scanned: seq<Quote>, last: Quote, peak: Peak) {
    && scanned <= all && scanned != [] && last == LastQuote(e, scanned) && peak == PeakOf(e, scanned)
    && NoneReaches(e, target, scanned[..|scanned| - 1]) && Reaches(e, target, last)
  }

  /** The loop: it stops at the first quote that reaches a positive target, or runs to the last one. */
  method ScanQuotes(e: Entry, underlying: seq<MinuteBar>, entryIdx: nat, ce: seq<MinuteBar>, pe: seq<MinuteBar>,
                    exitAt: int, target: real)
    returns (scanned: seq<Quote>, last: Quote, peak: Peak, hit: bool)
    requires TimeSorted(ce) && TimeSorted(pe)
    ensures var all := Quotes(underlying, entryIdx, ce, pe, exitAt);
            if hit then Stopped(e, target, all, scanned, last, peak)
            else scanned == all && Scanned(e, target, scanned, last, peak)
  {
    scanned, hit := [], false;
    last := Quote(e.time, e.ce, e.pe);
    peak := Peak(0.0, e.time);
    ghost var all := Quotes(underlying, entryIdx, ce, pe, exitAt);
    Seqs.Empty(all);
    var i := entryIdx;
    while i < |underlying| && underlying[i].ts <= exitAt
      invariant entryIdx <= i
      invariant Scanning(e, target, all, Quotes(underlying, i, ce, pe, exitAt), scanned, last, peak)
    {
      var q := ReadQuote(underlying, i, ce, pe, exitAt);
      if q.Some? {
        ScanOne(e, target, all, Quotes(underlying, i + 1, ce, pe, exitAt), scanned, last, peak, q.value);
        last := q.value;
        scanned := scanned + [last];
        var pnl := PnL(e, last);
        peak := Raise(peak, pnl, last.ts);
        if target > 0.0 && pnl >= target {
          hit := true;
          return;
        }
      }
      i := i + 1;
    }
    Seqs.Empty(scanned);
  }

  method ExitOptionTrade(e: Entry, underlying: seq<MinuteBar>, entryIdx: nat, ce: seq<MinuteBar>, pe: seq<MinuteBar>,
                         exitAt: int, target: real)
    returns (x: Exit, scanned: seq<Quote>)
    requires TimeSorted(ce) && TimeSorted(pe)
    ensures x == ExitAtLast(e, scanned, x.reason)
    ensures scanned <= Quotes(underlying, entryIdx, ce, pe, exitAt)
    ensures x.reason == EndOfDay ==> scanned == Quotes(underlying, entryIdx, ce, pe, exitAt) && NoneReaches(e, target, scanned)
    ensures x.reason == Target ==> scanned != [] && NoneReaches(e, target, scanned[..|scanned| - 1])
                                   && Reaches(e, target, scanned[|scanned| - 1])
  {
    var last, peak, hit;
    scanned, last, peak, hit := ScanQuotes(e, underlying, entryIdx, ce, pe, exitAt, target);
    x := Exit(last.ts, if hit then Target else EndOfDay, last.ce, last.pe, last.ce + last.pe, PnL(e, last), peak.pnl, peak.time);
  }

  /** The reported P&L is the move of the combined premium, and never above the reported maximum. */
  lemma ExitArithmetic(e: Entry, qs: seq<Quote>, reason: Reason)
    ensures var x := ExitAtLast(e, qs, reason);
            x.pnl == (x.combo - (e.ce + e.pe)) * e.qty as real && x.pnl <= x.maxPnL
  {
    var last := LastQuote(e, qs);
    assert (last.ce - e.ce) + (last.pe - e.pe) == last.ce + last.pe - (e.ce + e.pe);
    PeakIsFirstMaximum(e, qs);
    if qs == [] {
      assert PnL(e, last) == 0.0;
    }
  }
}
