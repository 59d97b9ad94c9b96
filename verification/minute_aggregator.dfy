/** The one-minute bar aggregator of internal/aggregate/minute.go.

    Prices are reals and instants integer nanoseconds, 0 being the zero `time.Time`.  The zone offset is
    a whole number of minutes, so the start of the local minute is the start of the UTC minute. */
module MinuteAggregator {
  import opened Options
  import Seqs

  const MINUTE: int := 60_000_000_000

  datatype Tick = Tick(exchange: string, token: string, ltp: real, lastQty: Option<int>,
                       cumVolume: Option<int>, oi: Option<int>, ts: int)

  datatype Bucket = Bucket(start: int, open: real, high: real, low: real, close: real, volume: int,
                           cumStart: Option<int>, cumLast: Option<int>, oi: Option<int>, lastUpdated: int)

  datatype Bar = Bar(ts: int, exchange: string, token: string, open: real, high: real, low: real, close: real,
                     volume: int, oi: Option<int>)

  function MinuteStart(ts: int): int {
    ts - ts % MINUTE
  }

  // ---- Keys ----

  function Key(t: Tick): string {
    t.exchange + ":" + t.token
  }

  /** Splits at the first colon. */
  function SplitKey(key: string): (string, string) {
    if ':' !in key then ("", key)
    else if key[0] == ':' then ("", key[1..])
    else
      var (exchange, token) := SplitKey(key[1..]);
      ([key[0]] + exchange, token)
  }

  /** Splitting a key gives back the exchange and the token exactly when the exchange has no colon. */
  lemma {:induction false} SplitKeyRoundTrip(exchange: string, token: string)
    ensures SplitKey(exchange + ":" + token) == (exchange, token) <==> ':' !in exchange
  {
    var key := exchange + ":" + token;
    assert key[|exchange|] == ':';
    if exchange == "" {
      assert key[1..] == token;
    } else {
      assert key[1..] == exchange[1..] + ":" + token;
      assert exchange == [exchange[0]] + exchange[1..];
      SplitKeyRoundTrip(exchange[1..], token);
    }
  }

  /** A colon in the exchange moves to the token. */
  lemma ColonMoves()
    ensures Key(Tick("A:B", "C", 0.0, None, None, None, 1)) == "A:B:C" && SplitKey("A:B:C") == ("A", "B:C")
  {
    assert "A:B:C"[1..] == ":B:C" && ":B:C"[1..] == "B:C";
    assert "A" + "" == "A" && ':' in "A:B:C" && ':' in ":B:C";
    assert SplitKey(":B:C") == ("", "B:C");
  }

  // ---- What the aggregator does to one key ----

  function ApplyVolume(b: Bucket, t: Tick): Bucket {
    if t.cumVolume.Some? then
      if b.cumStart.None? then b.(cumStart := t.cumVolume, cumLast := t.cumVolume) else b.(cumLast := t.cumVolume)
    else if t.lastQty.Some? then b.(volume := b.volume + t.lastQty.value)
    else b
  }

  function NewBucket(t: Tick): Bucket {
    ApplyVolume(Bucket(MinuteStart(t.ts), t.ltp, t.ltp, t.ltp, t.ltp, 0, None, None, t.oi, t.ts), t)
  }

  function Update(b: Bucket, t: Tick): Bucket {
    ApplyVolume(b.(high := if t.ltp > b.high then t.ltp else b.high,
                   low := if t.ltp < b.low then t.ltp else b.low,
                   close := t.ltp, lastUpdated := t.ts,
                   oi := if t.oi.Some? then t.oi else b.oi), t)
  }

  function Finalize(key: string, b: Bucket): Bar {
    var volume := if b.cumStart.Some? && b.cumLast.Some? && b.cumLast.value - b.cumStart.value >= 0
                  then b.cumLast.value - b.cumStart.value else b.volume;
    Bar(b.start, SplitKey(key).0, SplitKey(key).1, b.open, b.high, b.low, b.close, volume, b.oi)
  }

  predicate Due(b: Bucket, now: int, flushAfter: int) {
    b.start < MinuteStart(now) && now - b.start >= MINUTE + flushAfter
  }

  datatype Event = Arrive(tick: Tick) | Flush(now: int)

  /** What one key has gone through: the open bucket, the bars emitted, the ticks that were not dropped and, bar by bar,
      the pieces they came in; whether some tick came when its minute or a later one was flushed, and whether one
      opened a bar for a minute that had one already. */
  datatype History = History(open: Option<Bucket>, emitted: seq<Bar>, accepted: seq<Tick>, pieces: seq<seq<Tick>>,
                             late: bool, reopened: bool)

  /** The ticks of a minute. */
  function OfMinute(ticks: seq<Tick>, m: int): seq<Tick> {
    if ticks == [] then []
    else
      var before, t := OfMinute(ticks[..|ticks| - 1], m), ticks[|ticks| - 1];
      if MinuteStart(t.ts) == m then before + [t] else before
  }

  predicate Opens(open: Option<Bucket>, t: Tick) {
    open.None? || MinuteStart(t.ts) > open.value.start
  }

  predicate TooLate(h: History, t: Tick) {
    h.open.None? && h.accepted != [] && MinuteStart(t.ts) <= MinuteStart(h.accepted[|h.accepted| - 1].ts)
  }

  predicate Reopens(h: History, t: Tick) {
    Opens(h.open, t) && OfMinute(h.accepted, MinuteStart(t.ts)) != []
  }

  function Emitted(key: string, open: Option<Bucket>, emitted: seq<Bar>): seq<Bar> {
    if open.Some? then emitted + [Finalize(key, open.value)] else emitted
  }

  function Grown(pieces: seq<seq<Tick>>, t: Tick): seq<seq<Tick>> {
    if pieces == [] then [[t]] else pieces[..|pieces| - 1] + [pieces[|pieces| - 1] + [t]]
  }

  function Step(key: string, flushAfter: int, h: History, e: Event): History {
    match e
    case Flush(now) =>
      if h.open.Some? && Due(h.open.value, now, flushAfter)
      then h.(open := None, emitted := Emitted(key, h.open, h.emitted)) else h
    case Arrive(t) =>
      if Opens(h.open, t) then
        History(Some(NewBucket(t)), Emitted(key, h.open, h.emitted), h.accepted + [t], h.pieces + [[t]],
                h.late || TooLate(h, t), h.reopened || Reopens(h, t))
      else if MinuteStart(t.ts) < h.open.value.start then h
      else h.(open := Some(Update(h.open.value, t)), accepted := h.accepted + [t], pieces := Grown(h.pieces, t))
  }

  ghost function Run(key: string, flushAfter: int, events: seq<Event>): History {
    if events == [] then History(None, [], [], [], false, false)
    else Step(key, flushAfter, Run(key, flushAfter, events[..|events| - 1]), events[|events| - 1])
  }

  // ---- What a bar should be: the summary of a whole minute ----

  ghost function MaxLtp(g: seq<Tick>): real
    requires g != []
  {
    var t := g[|g| - 1];
    if |g| == 1 || t.ltp > MaxLtp(g[..|g| - 1]) then t.ltp else MaxLtp(g[..|g| - 1])
  }

  ghost function MinLtp(g: seq<Tick>): real
    requires g != []
  {
    var t := g[|g| - 1];
    if |g| == 1 || t.ltp < MinLtp(g[..|g| - 1]) then t.ltp else MinLtp(g[..|g| - 1])
  }

  /** The last open interest reported. */
  ghost function LastOI(g: seq<Tick>): Option<int> {
    if g == [] then None
    else if g[|g| - 1].oi.Some? then g[|g| - 1].oi
    else LastOI(g[..|g| - 1])
  }

  /** The cumulative volumes reported, in order. */
  ghost function Cumulative(g: seq<Tick>): seq<int> {
    if g == [] then []
    else
      var t := g[|g| - 1];
      Cumulative(g[..|g| - 1]) + if t.cumVolume.Some? then [t.cumVolume.value] else []
  }

  /** The traded quantities of the ticks that carry no cumulative volume. */
  ghost function TradedQty(g: seq<Tick>): int {
    if g == [] then 0
    else
      var t := g[|g| - 1];
      TradedQty(g[..|g| - 1]) + if t.cumVolume.None? && t.lastQty.Some? then t.lastQty.value else 0
  }

  ghost function VolumeOf(g: seq<Tick>): int {
    var c := Cumulative(g);
    if c != [] && c[|c| - 1] - c[0] >= 0 then c[|c| - 1] - c[0] else TradedQty(g)
  }

  ghost function Summary(key: string, g: seq<Tick>): Bar
    requires g != []
  {
    Bar(MinuteStart(g[0].ts), SplitKey(key).0, SplitKey(key).1,
        g[0].ltp, MaxLtp(g), MinLtp(g), g[|g| - 1].ltp, VolumeOf(g), LastOI(g))
  }

  ghost predicate NonEmpty(gs: seq<seq<Tick>>) {
    forall i :: 0 <= i < |gs| ==> gs[i] != []
  }

  ghost function Concat(gs: seq<seq<Tick>>): seq<Tick> {
    if gs == [] then [] else Concat(gs[..|gs| - 1]) + gs[|gs| - 1]
  }

  lemma ConcatSnoc(gs: seq<seq<Tick>>, g: seq<Tick>)
    ensures Concat(gs + [g]) == Concat(gs) + g
  {
    Seqs.Snoc(gs, gs, g);
  }

  ghost function Summaries(key: string, gs: seq<seq<Tick>>): seq<Bar>
    requires NonEmpty(gs)
  {
    if gs == [] then [] else Summaries(key, gs[..|gs| - 1]) + [Summary(key, gs[|gs| - 1])]
  }

  lemma SummariesSnoc(key: string, gs: seq<seq<Tick>>, g: seq<Tick>)
    requires NonEmpty(gs) && g != []
    ensures Summaries(key, gs + [g]) == Summaries(key, gs) + [Summary(key, g)]
  {
    Seqs.Snoc(gs, gs, g);
  }

  // ---- Refinement ----

  /** The bucket holds exactly what the summary of its ticks needs. */
  ghost predicate Tracks(b: Bucket, g: seq<Tick>) {
    && g != []
    && b.start == MinuteStart(g[0].ts) == MinuteStart(g[|g| - 1].ts)
    && b.open == g[0].ltp && b.close == g[|g| - 1].ltp
    && b.high == MaxLtp(g) && b.low == MinLtp(g) && b.oi == LastOI(g) && b.volume == TradedQty(g)
    && var c := Cumulative(g);
       if c == [] then b.cumStart == b.cumLast == None else b.cumStart == Some(c[0]) && b.cumLast == Some(c[|c| - 1])
  }

  lemma TracksNew(t: Tick)
    ensures Tracks(NewBucket(t), [t])
  {
    var g := [t];
    assert g[..0] == [];
  }

  lemma TracksUpdate(b: Bucket, g: seq<Tick>, t: Tick)
    requires Tracks(b, g) && MinuteStart(t.ts) == b.start
    ensures Tracks(Update(b, t), g + [t])
  {
    Seqs.Snoc(g, g, t);
  }

  lemma TracksFinalize(key: string, b: Bucket, g: seq<Tick>)
    requires Tracks(b, g)
    ensures Finalize(key, b) == Summary(key, g)
  {
  }

  /** Every bar the key has produced, the open one included. */
  ghost function AllBars(key: string, h: History): seq<Bar> {
    Emitted(key, h.open, h.emitted)
  }

  ghost predicate TsIncreasing(bars: seq<Bar>) {
    |bars| >= 2 ==> bars[|bars| - 2].ts < bars[|bars| - 1].ts && TsIncreasing(bars[..|bars| - 1])
  }

  /** The bars are the summaries of the pieces, but that an open bucket stands for the last one. */
  ghost predicate Represents(key: string, open: Option<Bucket>, emitted: seq<Bar>, gs: seq<seq<Tick>>)
    requires NonEmpty(gs)
  {
    if open.None? then emitted == Summaries(key, gs)
    else gs != [] && Tracks(open.value, gs[|gs| - 1]) && emitted == Summaries(key, gs[..|gs| - 1])
  }

  lemma CloseRepresents(key: string, open: Option<Bucket>, emitted: seq<Bar>, gs: seq<seq<Tick>>)
    requires NonEmpty(gs) && Represents(key, open, emitted, gs)
    ensures Emitted(key, open, emitted) == Summaries(key, gs)
  {
    if open.Some? {
      TracksFinalize(key, open.value, gs[|gs| - 1]);
    }
  }

  lemma GrowRepresents(key: string, b: Bucket, emitted: seq<Bar>, front: seq<seq<Tick>>, last: seq<Tick>, t: Tick)
    requires NonEmpty(front) && Tracks(b, last) && MinuteStart(t.ts) == b.start && emitted == Summaries(key, front)
    ensures NonEmpty(front + [last + [t]]) && Represents(key, Some(Update(b, t)), emitted, front + [last + [t]])
  {
    TracksUpdate(b, last, t);
    Seqs.Snoc(front, front, last + [t]);
  }

  lemma StartRepresents(key: string, emitted: seq<Bar>, gs: seq<seq<Tick>>, t: Tick)
    requires NonEmpty(gs) && emitted == Summaries(key, gs)
    ensures NonEmpty(gs + [[t]]) && Represents(key, Some(NewBucket(t)), emitted, gs + [[t]])
  {
    TracksNew(t);
    Seqs.Snoc(gs, gs, [t]);
  }

  // ---- The pieces against the minutes ----

  ghost function Minute(g: seq<Tick>): int
    requires g != []
  {
    MinuteStart(g[0].ts)
  }

  ghost predicate OneMinute(g: seq<Tick>) {
    forall i :: 0 <= i < |g| ==> MinuteStart(g[i].ts) == MinuteStart(g[0].ts)
  }

  /** The pieces are not empty, and each lies within one minute. */
  ghost predicate WithinMinutes(gs: seq<seq<Tick>>) {
    NonEmpty(gs) && forall i :: 0 <= i < |gs| ==> OneMinute(gs[i])
  }

  ghost predicate DistinctMinutes(gs: seq<seq<Tick>>)
    requires NonEmpty(gs)
  {
    forall i, j :: 0 <= i < j < |gs| ==> Minute(gs[i]) != Minute(gs[j])
  }

  lemma OfMinuteSnoc(ticks: seq<Tick>, t: Tick, m: int)
    ensures OfMinute(ticks + [t], m) == if MinuteStart(t.ts) == m then OfMinute(ticks, m) + [t] else OfMinute(ticks, m)
  {
    Seqs.Snoc(ticks, ticks, t);
  }

  /** A piece adds all its ticks to its own minute and none to another. */
  lemma {:induction false} OfMinutePiece(ticks: seq<Tick>, g: seq<Tick>, m: int)
    requires g != [] && OneMinute(g)
    ensures OfMinute(ticks + g, m) == if Minute(g) == m then OfMinute(ticks, m) + g else OfMinute(ticks, m)
  {
    var front, t := g[..|g| - 1], g[|g| - 1];
    Seqs.Last(g);
    Seqs.Snoc(ticks, front, t);
    OfMinuteSnoc(ticks + front, t, m);
    if front == [] {
      Seqs.FromStart(ticks);
    } else {
      OfMinutePiece(ticks, front, m);
      Seqs.Snoc(OfMinute(ticks, m), front, t);
    }
  }

  lemma {:induction false} NoneOfMinuteIff(gs: seq<seq<Tick>>, m: int)
    requires WithinMinutes(gs)
    ensures OfMinute(Concat(gs), m) == [] <==> forall i :: 0 <= i < |gs| ==> Minute(gs[i]) != m
  {
    if gs != [] {
      NoneOfMinuteIff(gs[..|gs| - 1], m);
      OfMinutePiece(Concat(gs[..|gs| - 1]), gs[|gs| - 1], m);
    }
  }

  /** If no other piece is of its minute, a piece is the whole minute. */
  lemma {:induction false} PieceIsMinute(gs: seq<seq<Tick>>, i: nat)
    requires WithinMinutes(gs) && DistinctMinutes(gs) && i < |gs|
    ensures OfMinute(Concat(gs), Minute(gs[i])) == gs[i]
  {
    var front, g, m := gs[..|gs| - 1], gs[|gs| - 1], Minute(gs[i]);
    OfMinutePiece(Concat(front), g, m);
    if i == |front| {
      NoneOfMinuteIff(front, m);
      Seqs.FromStart(g);
    } else {
      assert Minute(g) != m;
      PieceIsMinute(front, i);
    }
  }

  lemma {:induction false} SummaryOfEach(key: string, gs: seq<seq<Tick>>)
    requires NonEmpty(gs)
    ensures |Summaries(key, gs)| == |gs|
    ensures forall i :: 0 <= i < |gs| ==> Summaries(key, gs)[i] == Summary(key, gs[i])
  {
    if gs != [] {
      SummaryOfEach(key, gs[..|gs| - 1]);
    }
  }

  ghost predicate DistinctTs(bars: seq<Bar>) {
    forall i, j :: 0 <= i < j < |bars| ==> bars[i].ts != bars[j].ts
  }

  ghost predicate SummarisesMinute(key: string, b: Bar, ticks: seq<Tick>) {
    OfMinute(ticks, b.ts) != [] && b == Summary(key, OfMinute(ticks, b.ts))
  }

  ghost predicate HasBar(bars: seq<Bar>, m: int) {
    exists i :: 0 <= i < |bars| && bars[i].ts == m
  }

  /** The ticks grouped by minute: one bar for each minute with ticks, the summary of all of them. */
  ghost predicate Grouped(key: string, bars: seq<Bar>, ticks: seq<Tick>) {
    && DistinctTs(bars)
    && (forall i :: 0 <= i < |bars| ==> SummarisesMinute(key, bars[i], ticks))
    && (forall m :: OfMinute(ticks, m) != [] ==> HasBar(bars, m))
  }

  lemma DistinctTsIff(key: string, gs: seq<seq<Tick>>)
    requires NonEmpty(gs)
    ensures DistinctTs(Summaries(key, gs)) <==> DistinctMinutes(gs)
  {
    SummaryOfEach(key, gs);
  }

  lemma GroupedIffDistinct(key: string, gs: seq<seq<Tick>>)
    requires WithinMinutes(gs)
    ensures Grouped(key, Summaries(key, gs), Concat(gs)) <==> DistinctMinutes(gs)
  {
    DistinctTsIff(key, gs);
    if DistinctMinutes(gs) {
      var bars, ticks := Summaries(key, gs), Concat(gs);
      SummaryOfEach(key, gs);
      forall i | 0 <= i < |bars| ensures SummarisesMinute(key, bars[i], ticks) {
        PieceIsMinute(gs, i);
      }
      forall m | OfMinute(ticks, m) != [] ensures HasBar(bars, m) {
        NoneOfMinuteIff(gs, m);
        var i :| 0 <= i < |gs| && Minute(gs[i]) == m;
        assert bars[i].ts == m;
      }
    }
  }

  /** The accepted ticks in pieces, with the mark that two pieces are of one minute. */
  ghost predicate Cuts(gs: seq<seq<Tick>>, ticks: seq<Tick>, reopened: bool) {
    WithinMinutes(gs) && Concat(gs) == ticks && (reopened <==> !DistinctMinutes(gs))
  }

  lemma GrowCuts(front: seq<seq<Tick>>, last: seq<Tick>, ticks: seq<Tick>, reopened: bool, t: Tick)
    requires Cuts(front + [last], ticks, reopened) && last != [] && MinuteStart(t.ts) == Minute(last)
    ensures Cuts(front + [last + [t]], ticks + [t], reopened)
  {
    ConcatSnoc(front, last);
    ConcatSnoc(front, last + [t]);
    Seqs.Snoc(Concat(front), last, t);
    SameMinutes(front, last, last + [t]);
    GrowWithin(front, last, t);
  }

  lemma GrowWithin(front: seq<seq<Tick>>, last: seq<Tick>, t: Tick)
    requires WithinMinutes(front + [last]) && last != [] && MinuteStart(t.ts) == Minute(last)
    ensures WithinMinutes(front + [last + [t]])
  {
    var gs, gs' := front + [last], front + [last + [t]];
    assert OneMinute(gs[|front|]);
    forall i | 0 <= i < |gs'| ensures gs'[i] != [] && OneMinute(gs'[i]) {
      assert i < |front| ==> gs'[i] == gs[i];
    }
  }

  lemma SameMinutes(front: seq<seq<Tick>>, last: seq<Tick>, last': seq<Tick>)
    requires NonEmpty(front + [last]) && last != [] && last' != [] && Minute(last) == Minute(last')
    ensures NonEmpty(front + [last']) && (DistinctMinutes(front + [last']) <==> DistinctMinutes(front + [last]))
  {
    var gs, gs' := front + [last], front + [last'];
    forall i | 0 <= i < |gs'| ensures gs'[i] != [] && Minute(gs'[i]) == Minute(gs[i]) {
      assert i < |front| ==> gs'[i] == gs[i];
    }
  }

  lemma StartCuts(gs: seq<seq<Tick>>, ticks: seq<Tick>, reopened: bool, t: Tick)
    requires Cuts(gs, ticks, reopened)
    ensures Cuts(gs + [[t]], ticks + [t], reopened || OfMinute(ticks, MinuteStart(t.ts)) != [])
  {
    ConcatSnoc(gs, [t]);
    NoneOfMinuteIff(gs, MinuteStart(t.ts));
    StartWithin(gs, t);
    OneMoreMinute(gs, [t]);
  }

  lemma StartWithin(gs: seq<seq<Tick>>, t: Tick)
    requires WithinMinutes(gs)
    ensures WithinMinutes(gs + [[t]])
  {
  }

  lemma OneMoreMinute(gs: seq<seq<Tick>>, g: seq<Tick>)
    requires NonEmpty(gs) && g != []
    ensures NonEmpty(gs + [g])
    ensures DistinctMinutes(gs + [g]) <==> DistinctMinutes(gs) && forall i :: 0 <= i < |gs| ==> Minute(gs[i]) != Minute(g)
  {
    var all := gs + [g];
    if DistinctMinutes(all) {
      forall i | 0 <= i < |gs| ensures Minute(gs[i]) != Minute(g) {
        assert Minute(all[i]) != Minute(all[|gs|]);
      }
      forall i, j | 0 <= i < j < |gs| ensures Minute(gs[i]) != Minute(gs[j]) {
        assert Minute(all[i]) != Minute(all[j]);
      }
    }
  }

  // ---- Every run ----

  ghost predicate Refines(key: string, h: History) {
    Cuts(h.pieces, h.accepted, h.reopened) && Represents(key, h.open, h.emitted, h.pieces)
  }

  /** An accepted tick extends the last piece or starts a new one, and the bucket follows. */
  lemma AcceptRefines(key: string, flushAfter: int, h: History, t: Tick)
    requires Refines(key, h) && (h.open.Some? ==> MinuteStart(t.ts) >= h.open.value.start)
    ensures Refines(key, Step(key, flushAfter, h, Arrive(t)))
    ensures Step(key, flushAfter, h, Arrive(t)).accepted == h.accepted + [t]
  {
    var gs := h.pieces;
    if Opens(h.open, t) {
      CloseRepresents(key, h.open, h.emitted, gs);
      StartRepresents(key, Emitted(key, h.open, h.emitted), gs, t);
      StartCuts(gs, h.accepted, h.reopened, t);
    } else {
      Seqs.Last(gs);
      GrowRepresents(key, h.open.value, h.emitted, gs[..|gs| - 1], gs[|gs| - 1], t);
      GrowCuts(gs[..|gs| - 1], gs[|gs| - 1], h.accepted, h.reopened, t);
    }
  }

  lemma FlushRefines(key: string, flushAfter: int, h: History, now: int)
    requires Refines(key, h)
    ensures Refines(key, Step(key, flushAfter, h, Flush(now)))
  {
    CloseRepresents(key, h.open, h.emitted, h.pieces);
  }

  lemma StepRefines(key: string, flushAfter: int, h: History, e: Event)
    requires Refines(key, h)
    ensures Refines(key, Step(key, flushAfter, h, e))
  {
    if e.Flush? {
      FlushRefines(key, flushAfter, h, e.now);
    } else if h.open.None? || MinuteStart(e.tick.ts) >= h.open.value.start {
      AcceptRefines(key, flushAfter, h, e.tick);
    }
  }

  lemma {:induction false} RunRefines(key: string, flushAfter: int, events: seq<Event>)
    ensures Refines(key, Run(key, flushAfter, events))
  {
    if events != [] {
      RunRefines(key, flushAfter, events[..|events| - 1]);
      StepRefines(key, flushAfter, Run(key, flushAfter, events[..|events| - 1]), events[|events| - 1]);
    } else {
      NothingCut();
    }
  }

  lemma NothingCut()
    ensures Cuts([], [], false)
  {
  }

  /** In every run each bar, the open one included, is the summary of its own piece of the accepted ticks. */
  lemma BarsAreSummaries(key: string, flushAfter: int, events: seq<Event>)
    ensures var h := Run(key, flushAfter, events);
            WithinMinutes(h.pieces) && Concat(h.pieces) == h.accepted && AllBars(key, h) == Summaries(key, h.pieces)
  {
    var h := Run(key, flushAfter, events);
    RunRefines(key, flushAfter, events);
    CloseRepresents(key, h.open, h.emitted, h.pieces);
  }

  /** The bars are the accepted ticks grouped by minute exactly when no accepted tick opened a bar for a minute that had
      one already. */
  lemma GroupedIffNeverReopened(key: string, flushAfter: int, events: seq<Event>)
    ensures var h := Run(key, flushAfter, events); Grouped(key, AllBars(key, h), h.accepted) <==> !h.reopened
  {
    RunRefines(key, flushAfter, events);
    BarsAreSummaries(key, flushAfter, events);
    GroupedIffDistinct(key, Run(key, flushAfter, events).pieces);
  }

  /** Lateness shows in the bars: they are in strictly increasing order exactly when no tick was late. */
  ghost predicate LateShows(key: string, h: History) {
    var bars := AllBars(key, h);
    && (h.accepted == [] <==> bars == [])
    && (bars != [] ==> bars[|bars| - 1].ts == MinuteStart(h.accepted[|h.accepted| - 1].ts))
    && (TsIncreasing(bars) <==> !h.late)
  }

  lemma IncreasingSnoc(bars: seq<Bar>, b: Bar)
    ensures TsIncreasing(bars + [b]) <==> TsIncreasing(bars) && (bars != [] ==> bars[|bars| - 1].ts < b.ts)
  {
    Seqs.Snoc(bars, bars, b);
  }

  /** A step leaves the bars alone, revises the open one, or appends the bar of a new minute. */
  lemma StepBars(key: string, flushAfter: int, h: History, e: Event)
    ensures var h', bars, bars' := Step(key, flushAfter, h, e), AllBars(key, h), AllBars(key, Step(key, flushAfter, h, e));
            if h'.accepted == h.accepted then bars' == bars && h'.late == h.late
            else if h.open.Some? && MinuteStart(e.tick.ts) == h.open.value.start then
              h'.late == h.late && bars == h.emitted + [Finalize(key, h.open.value)] &&
              bars' == h.emitted + [Finalize(key, Update(h.open.value, e.tick))]
            else bars' == bars + [Finalize(key, NewBucket(e.tick))]
    ensures e.Arrive? && Step(key, flushAfter, h, e).accepted != h.accepted ==>
              Step(key, flushAfter, h, e).accepted == h.accepted + [e.tick]
  {
    if e.Arrive? {
      assert h.accepted + [e.tick] != h.accepted by {
        assert |h.accepted + [e.tick]| != |h.accepted|;
      }
    }
  }

  lemma StepLateShows(key: string, flushAfter: int, h: History, e: Event)
    requires LateShows(key, h)
    ensures LateShows(key, Step(key, flushAfter, h, e))
  {
    StepBars(key, flushAfter, h, e);
    if Step(key, flushAfter, h, e).accepted != h.accepted {
      if h.open.Some? && MinuteStart(e.tick.ts) == h.open.value.start {
        GrowLateShows(key, flushAfter, h, e);
      } else {
        StartLateShows(key, flushAfter, h, e);
      }
    }
  }

  lemma GrowLateShows(key: string, flushAfter: int, h: History, e: Event)
    requires LateShows(key, h) && e.Arrive? && h.open.Some? && MinuteStart(e.tick.ts) == h.open.value.start
    ensures LateShows(key, Step(key, flushAfter, h, e))
  {
    StepBars(key, flushAfter, h, e);
    IncreasingSnoc(h.emitted, Finalize(key, h.open.value));
    IncreasingSnoc(h.emitted, Finalize(key, Update(h.open.value, e.tick)));
  }

  lemma StartLateShows(key: string, flushAfter: int, h: History, e: Event)
    requires LateShows(key, h) && e.Arrive? && (h.open.Some? ==> MinuteStart(e.tick.ts) != h.open.value.start)
    requires Step(key, flushAfter, h, e).accepted != h.accepted
    ensures LateShows(key, Step(key, flushAfter, h, e))
  {
    StepBars(key, flushAfter, h, e);
    IncreasingSnoc(AllBars(key, h), Finalize(key, NewBucket(e.tick)));
  }

  /** Bars come out with strictly increasing timestamps exactly when no tick was late. */
  lemma {:induction false} IncreasingIffNeverLate(key: string, flushAfter: int, events: seq<Event>)
    ensures LateShows(key, Run(key, flushAfter, events))
    ensures TsIncreasing(AllBars(key, Run(key, flushAfter, events))) <==> !Run(key, flushAfter, events).late
  {
    if events != [] {
      IncreasingIffNeverLate(key, flushAfter, events[..|events| - 1]);
      StepLateShows(key, flushAfter, Run(key, flushAfter, events[..|events| - 1]), events[|events| - 1]);
    }
  }

  /** So without late ticks there is one bar for each minute. */
  lemma NeverLateIsGrouped(key: string, flushAfter: int, events: seq<Event>)
    requires !Run(key, flushAfter, events).late
    ensures Grouped(key, AllBars(key, Run(key, flushAfter, events)), Run(key, flushAfter, events).accepted)
  {
    var h := Run(key, flushAfter, events);
    IncreasingIffNeverLate(key, flushAfter, events);
    IncreasingIsDistinct(AllBars(key, h));
    RunRefines(key, flushAfter, events);
    BarsAreSummaries(key, flushAfter, events);
    DistinctTsIff(key, h.pieces);
    GroupedIffDistinct(key, h.pieces);
  }

  lemma {:induction false} IncreasingIsDistinct(bars: seq<Bar>)
    requires TsIncreasing(bars)
    ensures DistinctTs(bars) && forall i :: 0 <= i < |bars| ==> bars[i].ts <= bars[|bars| - 1].ts
  {
    if |bars| >= 2 {
      IncreasingIsDistinct(bars[..|bars| - 1]);
    }
  }

  lemma RunSnoc(key: string, flushAfter: int, events: seq<Event>, e: Event)
    ensures Run(key, flushAfter, events + [e]) == Step(key, flushAfter, Run(key, flushAfter, events), e)
  {
    Seqs.Snoc(events, events, e);
  }

  function TickAt(ts: int): Tick {
    Tick("NSE", "1", 100.0, None, None, None, ts)
  }

  /** A tick of minute 1 and a flush in minute 3. */
  ghost function Flushed(): seq<Event> {
    [Arrive(TickAt(MINUTE))] + [Flush(3 * MINUTE)]
  }

  /** A tick of minute 1 again: a second bar of that minute, out of order. */
  lemma LateTickOutOfOrder()
    ensures var h := Run("NSE:1", 0, Flushed() + [Arrive(TickAt(MINUTE))]);
            !TsIncreasing(AllBars("NSE:1", h)) && !Grouped("NSE:1", AllBars("NSE:1", h), h.accepted)
  {
    var events := Flushed() + [Arrive(TickAt(MINUTE))];
    AfterFlush("NSE:1");
    RunSnoc("NSE:1", 0, Flushed(), Arrive(TickAt(MINUTE)));
    IncreasingIffNeverLate("NSE:1", 0, events);
    GroupedIffNeverReopened("NSE:1", 0, events);
  }

  /** A tick of minute 0 instead: out of order, but there is one bar for each minute. */
  lemma EarlierTickOutOfOrder()
    ensures var h := Run("NSE:1", 0, Flushed() + [Arrive(TickAt(1))]);
            !TsIncreasing(AllBars("NSE:1", h)) && Grouped("NSE:1", AllBars("NSE:1", h), h.accepted)
  {
    var events := Flushed() + [Arrive(TickAt(1))];
    AfterFlush("NSE:1");
    RunSnoc("NSE:1", 0, Flushed(), Arrive(TickAt(1)));
    IncreasingIffNeverLate("NSE:1", 0, events);
    GroupedIffNeverReopened("NSE:1", 0, events);
  }

  /** That and a tick of minute 1 after it: the last tick finds the bucket of minute 0 open and starts a second bar of
      minute 1. */
  lemma MinuteReturns()
    ensures var h := Run("NSE:1", 0, Flushed() + [Arrive(TickAt(1))] + [Arrive(TickAt(MINUTE))]);
            && !Grouped("NSE:1", AllBars("NSE:1", h), h.accepted)
            && h.pieces == [[TickAt(MINUTE)], [TickAt(1)], [TickAt(MINUTE)]]
  {
    var events := Flushed() + [Arrive(TickAt(1))];
    AfterEarlier("NSE:1");
    RunSnoc("NSE:1", 0, events, Arrive(TickAt(MINUTE)));
    GroupedIffNeverReopened("NSE:1", 0, events + [Arrive(TickAt(MINUTE))]);
  }

  lemma AfterEarlier(key: string)
    ensures var h := Run(key, 0, Flushed() + [Arrive(TickAt(1))]);
            && h.open.Some? && h.open.value.start == 0 && h.pieces == [[TickAt(MINUTE)], [TickAt(1)]]
            && OfMinute(h.accepted, MINUTE) != []
  {
    AfterFlush(key);
    RunSnoc(key, 0, Flushed(), Arrive(TickAt(1)));
    OfMinuteSnoc([TickAt(MINUTE)], TickAt(1), MINUTE);
  }

  lemma AfterFlush(key: string)
    ensures var h := Run(key, 0, Flushed());
            && h.open == None && h.accepted == [TickAt(MINUTE)] && h.pieces == [[TickAt(MINUTE)]] && !h.late && !h.reopened
            && forall m :: OfMinute(h.accepted, m) != [] <==> m == MINUTE
  {
    AfterOne(key, TickAt(MINUTE));
    OnlyMinute(TickAt(MINUTE));
    RunSnoc(key, 0, [Arrive(TickAt(MINUTE))], Flush(3 * MINUTE));
  }

  lemma AfterOne(key: string, t: Tick)
    ensures Run(key, 0, [Arrive(t)]) == History(Some(NewBucket(t)), [], [t], [[t]], false, false)
  {
    RunSnoc(key, 0, [], Arrive(t));
    Seqs.FromStart([Arrive(t)]);
    Seqs.FromStart([t]);
    Seqs.FromStart([[t]]);
  }

  lemma OnlyMinute(t: Tick)
    ensures forall m :: OfMinute([t], m) == if m == MinuteStart(t.ts) then [t] else []
  {
    assert [t][..0] == [] && [] + [t] == [t];
  }

  // ---- Volume ----

  ghost predicate CumulativeFeed(ticks: seq<Tick>) {
    ticks != [] ==>
      var earlier, t := ticks[..|ticks| - 1], ticks[|ticks| - 1];
      && t.cumVolume.Some?
      && (earlier != [] ==> Cum(earlier[|earlier| - 1]) <= Cum(t))
      && CumulativeFeed(earlier)
  }

  ghost function Cum(t: Tick): int {
    if t.cumVolume.Some? then t.cumVolume.value else 0
  }

  ghost function TotalVolume(bars: seq<Bar>): int {
    if bars == [] then 0 else TotalVolume(bars[..|bars| - 1]) + bars[|bars| - 1].volume
  }

  /** The volume traded between the last tick of a bar and the first of the next. */
  ghost function Jumps(gs: seq<seq<Tick>>): int
    requires NonEmpty(gs)
  {
    if |gs| < 2 then 0
    else
      var g := gs[|gs| - 2];
      Jumps(gs[..|gs| - 1]) + Cum(gs[|gs| - 1][0]) - Cum(g[|g| - 1])
  }

  ghost function Rise(g: seq<Tick>): int {
    if g == [] then 0 else Cum(g[|g| - 1]) - Cum(g[0])
  }

  lemma {:induction false} VolumeOfFeed(g: seq<Tick>)
    requires g != [] && CumulativeFeed(g)
    ensures VolumeOf(g) == Rise(g) >= 0
    ensures var c := Cumulative(g); c != [] && c[0] == Cum(g[0]) && c[|c| - 1] == Cum(g[|g| - 1])
  {
    if |g| > 1 {
      VolumeOfFeed(g[..|g| - 1]);
    } else {
      assert g[..0] == [];
      assert Cumulative(g) == [Cum(g[0])];
    }
  }

  /** A monotone feed followed by some ticks. */
  lemma {:induction false} FeedConcat(a: seq<Tick>, b: seq<Tick>)
    requires CumulativeFeed(a + b) && b != []
    ensures CumulativeFeed(a) && CumulativeFeed(b)
    ensures Rise(a + b) == (if a == [] then 0 else Rise(a) + Cum(b[0]) - Cum(a[|a| - 1])) + Rise(b)
  {
    var front, t := b[..|b| - 1], b[|b| - 1];
    Seqs.Last(b);
    Seqs.Snoc(a, front, t);
    if front == [] {
      Seqs.FromStart(a);
    } else {
      FeedConcat(a, front);
    }
  }

  lemma {:induction false} LastOfConcat(gs: seq<seq<Tick>>)
    requires NonEmpty(gs) && gs != []
    ensures var c, g := Concat(gs), gs[|gs| - 1]; c != [] && c[|c| - 1] == g[|g| - 1]
  {
  }

  /** On a monotone cumulative-volume feed, cut in any way, its rise is the volume of the summaries plus the jumps
      between them. */
  lemma {:induction false} VolumeTelescopes(key: string, gs: seq<seq<Tick>>)
    requires NonEmpty(gs) && CumulativeFeed(Concat(gs))
    ensures Rise(Concat(gs)) == TotalVolume(Summaries(key, gs)) + Jumps(gs)
  {
    if gs != [] {
      var front, g := gs[..|gs| - 1], gs[|gs| - 1];
      FeedConcat(Concat(front), g);
      VolumeTelescopes(key, front);
      OnePieceMore(key, front, g);
      Seqs.Last(gs);
    }
  }

  lemma OnePieceMore(key: string, front: seq<seq<Tick>>, g: seq<Tick>)
    requires NonEmpty(front) && g != [] && CumulativeFeed(Concat(front) + g)
    requires Rise(Concat(front)) == TotalVolume(Summaries(key, front)) + Jumps(front)
    ensures NonEmpty(front + [g])
    ensures Rise(Concat(front) + g) == TotalVolume(Summaries(key, front + [g])) + Jumps(front + [g])
  {
    FeedConcat(Concat(front), g);
    VolumeOfFeed(g);
    TotalSnoc(key, front, g);
    JumpsSnoc(front, g);
    if front != [] {
      LastOfConcat(front);
    }
  }

  lemma JumpsSnoc(front: seq<seq<Tick>>, g: seq<Tick>)
    requires NonEmpty(front) && g != []
    ensures NonEmpty(front + [g])
    ensures Jumps(front + [g]) == if front == [] then 0
                                  else var last := front[|front| - 1]; Jumps(front) + Cum(g[0]) - Cum(last[|last| - 1])
  {
    Seqs.Snoc(front, front, g);
  }

  /** So in every run on such a feed the rise is the volume of the bars plus the jumps where one bar ends and the next
      begins. */
  lemma VolumeOfRun(key: string, flushAfter: int, events: seq<Event>)
    requires CumulativeFeed(Run(key, flushAfter, events).accepted)
    ensures var h := Run(key, flushAfter, events);
            NonEmpty(h.pieces) && Rise(h.accepted) == TotalVolume(AllBars(key, h)) + Jumps(h.pieces)
  {
    BarsAreSummaries(key, flushAfter, events);
    VolumeTelescopes(key, Run(key, flushAfter, events).pieces);
  }

  lemma TotalSnoc(key: string, gs: seq<seq<Tick>>, g: seq<Tick>)
    requires NonEmpty(gs) && g != []
    ensures TotalVolume(Summaries(key, gs + [g])) == TotalVolume(Summaries(key, gs)) + VolumeOf(g)
  {
    SummariesSnoc(key, gs, g);
    var bars := Summaries(key, gs);
    Seqs.Snoc(bars, bars, Summary(key, g));
  }

  // ---- The aggregator itself ----

  /** A key about which only the open bucket is known. */
  function OpenOnly(open: Option<Bucket>): History {
    History(open, [], [], [], false, false)
  }

  class Aggregator {
    const flushAfter: int
    var buckets: map<string, Bucket>

    function Open(key: string): Option<Bucket>
      reads this
    {
      OpenIn(buckets, key)
    }

    constructor (flushAfter: int)
      ensures buckets == map[] && this.flushAfter == flushAfter
    {
      this.flushAfter, buckets := flushAfter, map[];
    }

    /** The tick's key takes one step and the bars returned are those of that step; no other key is
        touched.  A tick without a timestamp gets the clock's. */
    method AddTick(t: Tick, now: int) returns (bars: seq<Bar>)
      modifies this`buckets
      ensures var tick := if t.ts == 0 then t.(ts := now) else t;
              var h := Step(Key(t), flushAfter, OpenOnly(old(Open(Key(t)))), Arrive(tick));
              Open(Key(t)) == h.open && bars == h.emitted
      ensures forall k :: k != Key(t) ==> Open(k) == old(Open(k))
    {
      var tick := if t.ts == 0 then t.(ts := now) else t;
      var key, start := Key(t), MinuteStart(tick.ts);
      bars := [];
      if key !in buckets {
        buckets := buckets[key := NewBucket(tick)];
        return;
      }
      var b := buckets[key];
      if start > b.start {
        bars := [Finalize(key, b)];
        buckets := buckets[key := NewBucket(tick)];
      } else if start == b.start {
        buckets := buckets[key := Update(b, tick)];
      }
    }

    /** Every key takes one flush step; each key whose bucket is due contributes one bar, in whatever
        order the map is walked. */
    method FlushDue(now: int) returns (bars: seq<Bar>, ghost keys: seq<string>)
      modifies this`buckets
      ensures forall k :: Open(k) == Step(k, flushAfter, OpenOnly(old(Open(k))), Flush(now)).open
      ensures |bars| == |keys| && forall i, j :: 0 <= i < j < |keys| ==> keys[i] != keys[j]
      ensures forall k :: k in keys <==> k in old(buckets) && Due(old(buckets)[k], now, flushAfter)
      ensures forall i :: 0 <= i < |keys| ==>
                            [bars[i]] == Step(keys[i], flushAfter, OpenOnly(old(Open(keys[i]))), Flush(now)).emitted
    {
      bars, keys := [], [];
      var pending := buckets.Keys;
      while pending != {}
        invariant Walked(old(buckets), buckets, pending, bars, keys, now, flushAfter)
        decreases |pending|
      {
        var key :| key in pending;
        WalkOn(old(buckets), buckets, pending, bars, keys, now, flushAfter, key);
        pending := pending - {key};
        if Due(buckets[key], now, flushAfter) {
          bars, keys := bars + [Finalize(key, buckets[key])], keys + [key];
          buckets := buckets - {key};
        }
      }
      WalkEnds(old(buckets), buckets, bars, keys, now, flushAfter);
    }
  }

  function OpenIn(buckets: map<string, Bucket>, key: string): Option<Bucket> {
    if key in buckets then Some(buckets[key]) else None
  }

  /** A flush that has yet to look at `pending`. */
  ghost predicate Walked(was: map<string, Bucket>, buckets: map<string, Bucket>, pending: set<string>, bars: seq<Bar>,
                         keys: seq<string>, now: int, flushAfter: int)
  {
    && pending <= was.Keys
    && (forall k :: k in keys <==> k in was && k !in pending && Due(was[k], now, flushAfter))
    && (forall k :: OpenIn(buckets, k) == if k in keys then None else OpenIn(was, k))
    && |bars| == |keys| && (forall i, j :: 0 <= i < j < |keys| ==> keys[i] != keys[j])
    && (forall i :: 0 <= i < |keys| ==> keys[i] in was && bars[i] == Finalize(keys[i], was[keys[i]]))
  }

  lemma WalkOn(was: map<string, Bucket>, buckets: map<string, Bucket>, pending: set<string>, bars: seq<Bar>,
               keys: seq<string>, now: int, flushAfter: int, key: string)
    requires Walked(was, buckets, pending, bars, keys, now, flushAfter) && key in pending
    ensures key in buckets && buckets[key] == was[key]
    ensures if Due(was[key], now, flushAfter)
            then Walked(was, buckets - {key}, pending - {key}, bars + [Finalize(key, was[key])], keys + [key], now, flushAfter)
            else Walked(was, buckets, pending - {key}, bars, keys, now, flushAfter)
  {
    assert OpenIn(buckets, key) == OpenIn(was, key);
    if Due(was[key], now, flushAfter) {
      forall k ensures OpenIn(buckets - {key}, k) == if k in keys + [key] then None else OpenIn(was, k) {
        assert OpenIn(buckets, k) == if k in keys then None else OpenIn(was, k);
      }
    }
  }

  lemma WalkEnds(was: map<string, Bucket>, buckets: map<string, Bucket>, bars: seq<Bar>, keys: seq<string>, now: int,
                 flushAfter: int)
    requires Walked(was, buckets, {}, bars, keys, now, flushAfter)
    ensures forall k :: OpenIn(buckets, k) == Step(k, flushAfter, OpenOnly(OpenIn(was, k)), Flush(now)).open
    ensures forall i :: 0 <= i < |keys| ==>
                          [bars[i]] == Step(keys[i], flushAfter, OpenOnly(OpenIn(was, keys[i])), Flush(now)).emitted
  {
    forall k ensures OpenIn(buckets, k) == Step(k, flushAfter, OpenOnly(OpenIn(was, k)), Flush(now)).open {
      assert OpenIn(buckets, k) == if k in keys then None else OpenIn(was, k);
    }
    forall i | 0 <= i < |keys|
      ensures [bars[i]] == Step(keys[i], flushAfter, OpenOnly(OpenIn(was, keys[i])), Flush(now)).emitted
    {
      assert keys[i] in keys;
    }
  }

  // ---- A whole run of the aggregator ----

  /** A call: a tick with the clock's reading, or a flush. */
  datatype Call = TickCall(tick: Tick, now: int) | FlushCall(now: int)

  /** A flush concerns every key, a tick its own. */
  predicate Concerns(call: Call, key: string) {
    call.FlushCall? || Key(call.tick) == key
  }

  function EventOf(call: Call): Event {
    if call.FlushCall? then Flush(call.now)
    else Arrive(if call.tick.ts == 0 then call.tick.(ts := call.now) else call.tick)
  }

  /** What the calls mean to one key. */
  ghost function EventsOf(calls: seq<Call>, key: string): seq<Event> {
    if calls == [] then []
    else
      var before, last := EventsOf(calls[..|calls| - 1], key), calls[|calls| - 1];
      if Concerns(last, key) then before + [EventOf(last)] else before
  }

  /** The bars that came out under a key. */
  ghost function BarsOf(bars: seq<Bar>, keys: seq<string>, key: string): seq<Bar>
    requires |bars| == |keys|
  {
    if bars == [] then []
    else
      var before := BarsOf(bars[..|bars| - 1], keys[..|keys| - 1], key);
      if keys[|keys| - 1] == key then before + [bars[|bars| - 1]] else before
  }

  lemma {:induction false} BarsConcat(a: seq<Bar>, ka: seq<string>, b: seq<Bar>, kb: seq<string>, key: string)
    requires |a| == |ka| && |b| == |kb|
    ensures BarsOf(a + b, ka + kb, key) == BarsOf(a, ka, key) + BarsOf(b, kb, key)
  {
    if b == [] {
      assert a + b == a && ka + kb == ka;
    } else {
      BarsConcat(a, ka, b[..|b| - 1], kb[..|kb| - 1], key);
      Seqs.Last(b);
      Seqs.Last(kb);
      Seqs.Snoc(a, b[..|b| - 1], b[|b| - 1]);
      Seqs.Snoc(ka, kb[..|kb| - 1], kb[|kb| - 1]);
      Seqs.Snoc(a + b[..|b| - 1], [], b[|b| - 1]);
      Seqs.Snoc(ka + kb[..|kb| - 1], [], kb[|kb| - 1]);
    }
  }

  /** A step depends on the open bucket alone. */
  lemma StepFromOpen(key: string, flushAfter: int, h: History, e: Event)
    ensures Step(key, flushAfter, h, e).open == Step(key, flushAfter, OpenOnly(h.open), e).open
    ensures Step(key, flushAfter, h, e).emitted == h.emitted + Step(key, flushAfter, OpenOnly(h.open), e).emitted
  {
    Seqs.FromStart(h.emitted);
    if h.open.Some? {
      assert [] + [Finalize(key, h.open.value)] == [Finalize(key, h.open.value)];
    }
  }

  /** Every key has the history of its own events. */
  ghost predicate Follows(open: Option<Bucket>, bars: seq<Bar>, keys: seq<string>, flushAfter: int, calls: seq<Call>,
                          key: string)
    requires |bars| == |keys|
  {
    var h := Run(key, flushAfter, EventsOf(calls, key));
    open == h.open && BarsOf(bars, keys, key) == h.emitted
  }

  /** One event more on a key. */
  lemma FollowsEvent(open: Option<Bucket>, bars: seq<Bar>, keys: seq<string>, flushAfter: int, calls: seq<Call>,
                     key: string, call: Call, e: Event, open': Option<Bucket>, more: seq<Bar>, moreKeys: seq<string>)
    requires |bars| == |keys| && |more| == |moreKeys| && Follows(open, bars, keys, flushAfter, calls, key)
    requires EventsOf(calls + [call], key) == EventsOf(calls, key) + [e]
    requires open' == Step(key, flushAfter, OpenOnly(open), e).open
    requires BarsOf(more, moreKeys, key) == Step(key, flushAfter, OpenOnly(open), e).emitted
    ensures Follows(open', bars + more, keys + moreKeys, flushAfter, calls + [call], key)
  {
    var events := EventsOf(calls, key);
    Seqs.Snoc(events, events, e);
    StepFromOpen(key, flushAfter, Run(key, flushAfter, events), e);
    BarsConcat(bars, keys, more, moreKeys, key);
  }

  lemma EventsSnoc(calls: seq<Call>, call: Call, key: string)
    ensures EventsOf(calls + [call], key) ==
            if Concerns(call, key) then EventsOf(calls, key) + [EventOf(call)] else EventsOf(calls, key)
  {
    Seqs.Snoc(calls, calls, call);
  }

  /** A tick on another key. */
  lemma FollowsOther(open: Option<Bucket>, bars: seq<Bar>, keys: seq<string>, flushAfter: int, calls: seq<Call>,
                     key: string, call: Call, more: seq<Bar>, moreKeys: seq<string>)
    requires |bars| == |keys| && |more| == |moreKeys| && Follows(open, bars, keys, flushAfter, calls, key)
    requires EventsOf(calls + [call], key) == EventsOf(calls, key)
    requires forall i :: 0 <= i < |moreKeys| ==> moreKeys[i] != key
    ensures Follows(open, bars + more, keys + moreKeys, flushAfter, calls + [call], key)
  {
    BarsConcat(bars, keys, more, moreKeys, key);
    NoBars(more, moreKeys, key);
    assert BarsOf(bars, keys, key) + [] == BarsOf(bars, keys, key);
  }

  lemma {:induction false} NoBars(bars: seq<Bar>, keys: seq<string>, key: string)
    requires |bars| == |keys| && forall i :: 0 <= i < |keys| ==> keys[i] != key
    ensures BarsOf(bars, keys, key) == []
  {
    if bars != [] {
      NoBars(bars[..|bars| - 1], keys[..|keys| - 1], key);
    }
  }

  lemma {:induction false} OneBar(bars: seq<Bar>, keys: seq<string>, i: nat)
    requires |bars| == |keys| && i < |keys| && forall a, b :: 0 <= a < b < |keys| ==> keys[a] != keys[b]
    ensures BarsOf(bars, keys, keys[i]) == [bars[i]]
  {
    var n := |bars| - 1;
    if i == n {
      NoBars(bars[..n], keys[..n], keys[i]);
    } else {
      OneBar(bars[..n], keys[..n], i);
    }
  }

  method TakeTick(a: Aggregator, t: Tick, now: int, ghost calls: seq<Call>, bars: seq<Bar>, ghost keys: seq<string>)
    returns (bars': seq<Bar>, ghost keys': seq<string>)
    requires |bars| == |keys| && forall k :: Follows(a.Open(k), bars, keys, a.flushAfter, calls, k)
    modifies a`buckets
    ensures |bars'| == |keys'| && forall k :: Follows(a.Open(k), bars', keys', a.flushAfter, calls + [TickCall(t, now)], k)
  {
    var more := a.AddTick(t, now);
    ghost var moreKeys := seq(|more|, _ => Key(t));
    bars', keys' := bars + more, keys + moreKeys;
    ghost var tick := if t.ts == 0 then t.(ts := now) else t;
    forall k ensures Follows(a.Open(k), bars', keys', a.flushAfter, calls + [TickCall(t, now)], k) {
      EventsSnoc(calls, TickCall(t, now), k);
      if k == Key(t) {
        AllBarsOf(more, moreKeys, k);
        FollowsEvent(old(a.Open(k)), bars, keys, a.flushAfter, calls, k, TickCall(t, now), Arrive(tick), a.Open(k),
                     more, moreKeys);
      } else {
        FollowsOther(old(a.Open(k)), bars, keys, a.flushAfter, calls, k, TickCall(t, now), more, moreKeys);
      }
    }
  }

  lemma {:induction false} AllBarsOf(bars: seq<Bar>, keys: seq<string>, key: string)
    requires |bars| == |keys| && forall i :: 0 <= i < |keys| ==> keys[i] == key
    ensures BarsOf(bars, keys, key) == bars
  {
    if bars != [] {
      AllBarsOf(bars[..|bars| - 1], keys[..|keys| - 1], key);
      Seqs.Last(bars);
    }
  }

  method TakeFlush(a: Aggregator, now: int, ghost calls: seq<Call>, bars: seq<Bar>, ghost keys: seq<string>)
    returns (bars': seq<Bar>, ghost keys': seq<string>)
    requires |bars| == |keys| && forall k :: Follows(a.Open(k), bars, keys, a.flushAfter, calls, k)
    modifies a`buckets
    ensures |bars'| == |keys'| && forall k :: Follows(a.Open(k), bars', keys', a.flushAfter, calls + [FlushCall(now)], k)
  {
    var more;
    ghost var moreKeys;
    more, moreKeys := a.FlushDue(now);
    bars', keys' := bars + more, keys + moreKeys;
    forall k ensures Follows(a.Open(k), bars', keys', a.flushAfter, calls + [FlushCall(now)], k) {
      EventsSnoc(calls, FlushCall(now), k);
      FlushedOf(more, moreKeys, a.flushAfter, old(a.Open(k)), k, now);
      FollowsEvent(old(a.Open(k)), bars, keys, a.flushAfter, calls, k, FlushCall(now), Flush(now), a.Open(k), more, moreKeys);
    }
  }

  lemma FlushedOf(bars: seq<Bar>, keys: seq<string>, flushAfter: int, open: Option<Bucket>, key: string, now: int)
    requires |bars| == |keys| && forall i, j :: 0 <= i < j < |keys| ==> keys[i] != keys[j]
    requires key in keys <==> open.Some? && Due(open.value, now, flushAfter)
    requires forall i :: 0 <= i < |keys| && keys[i] == key ==>
                           [bars[i]] == Step(key, flushAfter, OpenOnly(open), Flush(now)).emitted
    ensures BarsOf(bars, keys, key) == Step(key, flushAfter, OpenOnly(open), Flush(now)).emitted
  {
    if key in keys {
      var i :| 0 <= i < |keys| && keys[i] == key;
      OneBar(bars, keys, i);
    } else {
      NoBars(bars, keys, key);
    }
  }

  /** However ticks of any keys and flushes alternate, the bars that come out under a key and its open bucket are
      those of the key's own events. */
  method RunCalls(flushAfter: int, calls: seq<Call>) returns (a: Aggregator, bars: seq<Bar>, ghost keys: seq<string>)
    ensures a.flushAfter == flushAfter && |bars| == |keys|
    ensures forall k :: Follows(a.Open(k), bars, keys, flushAfter, calls, k)
  {
    a := new Aggregator(flushAfter);
    bars, keys := [], [];
    for i := 0 to |calls|
      invariant a.flushAfter == flushAfter && |bars| == |keys| && fresh(a)
      invariant forall k :: Follows(a.Open(k), bars, keys, flushAfter, calls[..i], k)
    {
      Seqs.Prefix(calls, i);
      if calls[i].TickCall? {
        bars, keys := TakeTick(a, calls[i].tick, calls[i].now, calls[..i], bars, keys);
      } else {
        bars, keys := TakeFlush(a, calls[i].now, calls[..i], bars, keys);
      }
    }
    Seqs.All(calls);
  }

  /** What came out under a key and is still open. */
  ghost function BarsUnder(open: Option<Bucket>, bars: seq<Bar>, keys: seq<string>, key: string): seq<Bar>
    requires |bars| == |keys|
  {
    Emitted(key, open, BarsOf(bars, keys, key))
  }

  /** So the bars of a run are, for a key, its accepted ticks grouped by minute exactly when none of them opened a bar for
      a minute that had one already; and on a cumulative feed they account for its volume in any case. */
  lemma RunGroupedIff(open: Option<Bucket>, bars: seq<Bar>, keys: seq<string>, flushAfter: int, calls: seq<Call>,
                      key: string)
    requires |bars| == |keys| && Follows(open, bars, keys, flushAfter, calls, key)
    ensures var h := Run(key, flushAfter, EventsOf(calls, key));
            && (Grouped(key, BarsUnder(open, bars, keys, key), h.accepted) <==> !h.reopened)
            && NonEmpty(h.pieces)
            && (CumulativeFeed(h.accepted) ==>
                  Rise(h.accepted) == TotalVolume(BarsUnder(open, bars, keys, key)) + Jumps(h.pieces))
  {
    var events := EventsOf(calls, key);
    GroupedIffNeverReopened(key, flushAfter, events);
    BarsAreSummaries(key, flushAfter, events);
    if CumulativeFeed(Run(key, flushAfter, events).accepted) {
      VolumeOfRun(key, flushAfter, events);
    }
  }

  // ---- The grace period ----

  /** The start of the minute that an instant is in. */
  lemma MinuteStartIs(ts: int)
    ensures MinuteStart(ts) <= ts < MinuteStart(ts) + 60_000_000_000
    ensures exists k: int :: MinuteStart(ts) == k * 60_000_000_000
  {
    assert MinuteStart(ts) == ts / MINUTE * 60_000_000_000;
  }

  /** Clock readings do not decrease. */
  ghost predicate Clocked(calls: seq<Call>) {
    forall i, j :: 0 <= i <= j < |calls| ==> calls[i].now <= calls[j].now
  }

  /** When the ticks of a key come before their minute and the grace period behind it are over. */
  ghost predicate OnTime(calls: seq<Call>, flushAfter: int, key: string) {
    forall i :: 0 <= i < |calls| && calls[i].TickCall? && Key(calls[i].tick) == key ==>
      var ts := if calls[i].tick.ts == 0 then calls[i].now else calls[i].tick.ts;
      calls[i].now < MinuteStart(ts) + 60_000_000_000 + flushAfter
  }

  /** Nothing is late yet, and a bucket has been closed by a flush only when its grace period was over. */
  ghost predicate Graceful(h: History, flushAfter: int, clock: int) {
    && !h.late
    && (h.open.Some? ==> h.accepted != [] && h.open.value.start == MinuteStart(h.accepted[|h.accepted| - 1].ts))
    && (h.open.None? && h.accepted != [] ==>
          MinuteStart(h.accepted[|h.accepted| - 1].ts) + 60_000_000_000 + flushAfter <= clock)
  }

  lemma StepGraceful(key: string, flushAfter: int, h: History, e: Event, before: int, clock: int)
    requires Graceful(h, flushAfter, before) && before <= clock
    requires e.Flush? ==> e.now == clock
    requires e.Arrive? ==> clock < MinuteStart(e.tick.ts) + 60_000_000_000 + flushAfter
    ensures Graceful(Step(key, flushAfter, h, e), flushAfter, clock)
  {
  }

  /** No tick that comes in time is late, however the flushes fall. */
  lemma {:induction false} OnTimeIsGraceful(flushAfter: int, calls: seq<Call>, key: string)
    requires Clocked(calls) && OnTime(calls, flushAfter, key)
    ensures Graceful(Run(key, flushAfter, EventsOf(calls, key)), flushAfter, if calls == [] then 0 else calls[|calls| - 1].now)
  {
    if calls != [] {
      var front, last := calls[..|calls| - 1], calls[|calls| - 1];
      OnTimeIsGraceful(flushAfter, front, key);
      var before := if front == [] then last.now else front[|front| - 1].now;
      var h := Run(key, flushAfter, EventsOf(front, key));
      assert Graceful(h, flushAfter, before) by {
        if front == [] {
          assert EventsOf(front, key) == [];
        }
      }
      if Concerns(last, key) {
        StepGraceful(key, flushAfter, h, EventOf(last), before, last.now);
        RunSnoc(key, flushAfter, EventsOf(front, key), EventOf(last));
      }
    }
  }

  /** So the bars of a key whose ticks all come within the grace period are its ticks grouped by minute. */
  lemma OnTimeIsGrouped(flushAfter: int, calls: seq<Call>, key: string)
    requires Clocked(calls) && OnTime(calls, flushAfter, key)
    ensures var h := Run(key, flushAfter, EventsOf(calls, key));
            !h.late && Grouped(key, AllBars(key, h), h.accepted)
  {
    OnTimeIsGraceful(flushAfter, calls, key);
    NeverLateIsGrouped(key, flushAfter, EventsOf(calls, key));
  }

  /** A flush closes a bucket exactly when its minute is over and the grace period behind it too. */
  lemma FlushClosesIff(key: string, flushAfter: int, h: History, now: int)
    requires h.open.Some? && h.open.value.start == MinuteStart(h.open.value.start)
    ensures var over := h.open.value.start + 60_000_000_000;
            Step(key, flushAfter, h, Flush(now)).open == None <==> now >= over && now >= over + flushAfter
  {
    MinuteStartIs(now);
    var start := h.open.value.start;
    assert MinuteStart(now) == now / MINUTE * MINUTE && start == start / MINUTE * MINUTE;
    assert MinuteStart(now) - start == (now / MINUTE - start / MINUTE) * MINUTE;
  }

  /** An open bucket starts with its minute. */
  lemma OpenAtMinute(key: string, flushAfter: int, events: seq<Event>)
    ensures var open := Run(key, flushAfter, events).open; open.Some? ==> open.value.start == MinuteStart(open.value.start)
  {
    var h := Run(key, flushAfter, events);
    RunRefines(key, flushAfter, events);
    if h.open.Some? {
      StartOfStart(h.pieces[|h.pieces| - 1][0].ts);
    }
  }

  lemma StartOfStart(ts: int)
    ensures MinuteStart(MinuteStart(ts)) == MinuteStart(ts)
  {
    assert MinuteStart(ts) == ts / MINUTE * MINUTE;
  }

  lemma LeftByFlush(key: string, flushAfter: int, events: seq<Event>, now: int)
    ensures var open := Run(key, flushAfter, events + [Flush(now)]).open;
            open.Some? ==> now < open.value.start + 60_000_000_000 || now < open.value.start + 60_000_000_000 + flushAfter
  {
    var h := Run(key, flushAfter, events);
    RunSnoc(key, flushAfter, events, Flush(now));
    OpenAtMinute(key, flushAfter, events);
    if h.open.Some? {
      FlushClosesIff(key, flushAfter, h, now);
    }
  }

  /** After a flush no bucket is left whose grace period is over. */
  lemma FlushLeavesNone(open: Option<Bucket>, bars: seq<Bar>, keys: seq<string>, flushAfter: int, calls: seq<Call>, now: int,
                        key: string)
    requires |bars| == |keys| && Follows(open, bars, keys, flushAfter, calls + [FlushCall(now)], key)
    requires open.Some?
    ensures now < open.value.start + 60_000_000_000 || now < open.value.start + 60_000_000_000 + flushAfter
  {
    EventsSnoc(calls, FlushCall(now), key);
    LeftByFlush(key, flushAfter, EventsOf(calls, key), now);
  }
}
