/** `episode_rows` of tools/oiss_evidence_fitness_experiment.py: runs of like rows within a symbol-day. */
module Episodes {
  import opened Options
  import opened StableSorting
  import opened Text
  import Seqs

  const MAX_GAP: int := 45 * 60   // seconds

  datatype Family = Actionable | Developing | NoChase

  /** A scan row; `family` is what its canonical status maps to, `asOf` seconds. */
  datatype Row = Row(id: int, asOf: int, family: Option<Family>, direction: string)

  datatype Episode = Episode(symbol: string, day: int, number: nat, family: Option<Family>, direction: string,
                             startedAt: int, endedAt: int, scanCount: nat, firstId: int, lastId: int)

  /** Rows `first` to `last` of a symbol-day, both included. */
  datatype Span = Span(first: nat, last: nat)

  // ---- What an episode is ----

  /** Rows `i` and `i + 1` belong together. */
  predicate Joined(rows: seq<Row>, i: nat)
    requires i + 1 < |rows|
  {
    var a, b := rows[i], rows[i + 1];
    a.family.Some? && a.family == b.family && a.direction == b.direction && b.asOf - a.asOf <= MAX_GAP
  }

  /** A run of joined rows that cannot be extended at either end. */
  ghost predicate MaximalRun(rows: seq<Row>, s: Span) {
    && s.first <= s.last < |rows|
    && rows[s.first].family.Some?
    && (forall i :: s.first <= i < s.last ==> Joined(rows, i))
    && (s.first > 0 ==> !Joined(rows, s.first - 1))
    && (s.last + 1 < |rows| ==> !Joined(rows, s.last))
  }

  ghost predicate Unclassified(rows: seq<Row>, from: nat, to: nat) {
    to <= |rows| && forall i :: from <= i < to ==> rows[i].family.None?
  }

  /** The rows before `end` are, in order, the maximal runs `spans` with only unclassified rows between. */
  ghost predicate Segmentation(rows: seq<Row>, spans: seq<Span>, end: nat) {
    if spans == [] then Unclassified(rows, 0, end)
    else
      var s := spans[|spans| - 1];
      && MaximalRun(rows, s) && s.last < end
      && Unclassified(rows, s.last + 1, end)
      && Segmentation(rows, spans[..|spans| - 1], s.first)
  }

  ghost predicate Covered(spans: seq<Span>, i: int) {
    exists k :: 0 <= k < |spans| && spans[k].first <= i <= spans[k].last
  }

  ghost function Describe(symbol: string, day: int, number: nat, rows: seq<Row>, s: Span): Episode
    requires s.first <= s.last < |rows|
  {
    Episode(symbol, day, number, rows[s.first].family, rows[s.first].direction, rows[s.first].asOf, rows[s.last].asOf,
            s.last - s.first + 1, rows[s.first].id, rows[s.last].id)
  }

  /** All rows of a maximal run carry the family and direction the episode reports. */
  lemma {:induction false} RunIsUniform(rows: seq<Row>, s: Span, i: nat)
    requires MaximalRun(rows, s) && s.first <= i <= s.last
    ensures rows[i].family == rows[s.first].family && rows[i].direction == rows[s.first].direction
  {
    if i > s.first {
      RunIsUniform(rows, Span(s.first, s.last), i - 1);
      assert Joined(rows, i - 1);
    }
  }

  /** The episodes are disjoint maximal runs, in order. */
  lemma {:induction false} SpansInOrder(rows: seq<Row>, spans: seq<Span>, end: nat)
    requires Segmentation(rows, spans, end)
    ensures end <= |rows|
    ensures forall k :: 0 <= k < |spans| ==> MaximalRun(rows, spans[k]) && spans[k].last < end
    ensures forall j, k :: 0 <= j < k < |spans| ==> spans[j].last < spans[k].first
  {
    if spans != [] {
      var s := spans[|spans| - 1];
      SpansInOrder(rows, spans[..|spans| - 1], s.first);
    }
  }

  /** They take in exactly the classified rows. */
  lemma {:induction false} CoveredIffClassified(rows: seq<Row>, spans: seq<Span>, end: nat, i: nat)
    requires Segmentation(rows, spans, end) && i < end <= |rows|
    ensures rows[i].family.Some? <==> Covered(spans, i)
  {
    if spans != [] {
      var earlier, s := spans[..|spans| - 1], spans[|spans| - 1];
      CoveredSnoc(earlier, s, i);
      Seqs.Last(spans);
      if i < s.first {
        CoveredIffClassified(rows, earlier, s.first, i);
      } else if i <= s.last {
        RunIsUniform(rows, s, i);
      } else {
        SpansInOrder(rows, earlier, s.first);
        assert !Covered(earlier, i);
      }
    }
  }

  /** The last maximal run before `end` cannot lie elsewhere. */
  lemma LastRunUnique(rows: seq<Row>, s: Span, t: Span, end: nat)
    requires MaximalRun(rows, s) && s.last < end && Unclassified(rows, s.last + 1, end)
    requires MaximalRun(rows, t) && t.last < end && Unclassified(rows, t.last + 1, end)
    ensures s == t
  {
    RunIsUniform(rows, s, s.last);
    RunIsUniform(rows, t, t.last);
    assert s.last == t.last;
  }

  /** Rows segment in one way only. */
  lemma {:induction false} SegmentationUnique(rows: seq<Row>, a: seq<Span>, b: seq<Span>, end: nat)
    requires Segmentation(rows, a, end) && Segmentation(rows, b, end)
    ensures a == b
  {
    if a != [] && b != [] {
      var s, t := a[|a| - 1], b[|b| - 1];
      LastRunUnique(rows, s, t, end);
      SegmentationUnique(rows, a[..|a| - 1], b[..|b| - 1], s.first);
      Seqs.Last(a);
      Seqs.Last(b);
    }
  }

  lemma CoveredSnoc(spans: seq<Span>, s: Span, i: int)
    ensures Covered(spans + [s], i) <==> Covered(spans, i) || s.first <= i <= s.last
  {
    var all := spans + [s];
    if Covered(spans, i) {
      var k :| 0 <= k < |spans| && spans[k].first <= i <= spans[k].last;
      assert all[k] == spans[k];
    }
    assert all[|spans|] == s;
  }

  /** Two neighbouring rows share an episode exactly when they are of one family and direction, at most 45 minutes apart. */
  lemma NeighboursShareIff(rows: seq<Row>, spans: seq<Span>, i: nat)
    requires Segmentation(rows, spans, |rows|) && i + 1 < |rows|
    ensures rows[i].family.Some? && rows[i + 1].family == rows[i].family && rows[i + 1].direction == rows[i].direction
              && rows[i + 1].asOf <= rows[i].asOf + 2700
            <==> exists k :: 0 <= k < |spans| && spans[k].first <= i && i + 1 <= spans[k].last
  {
    SpansInOrder(rows, spans, |rows|);
    if Joined(rows, i) {
      CoveredIffClassified(rows, spans, |rows|, i);
      var k :| 0 <= k < |spans| && spans[k].first <= i <= spans[k].last;
      assert MaximalRun(rows, spans[k]);
      assert i != spans[k].last;
    }
  }

  // ---- The loop ----

  function CountOf(episodes: seq<Episode>, symbol: string, day: int): nat {
    if episodes == [] then 0
    else
      var last := episodes[|episodes| - 1];
      CountOf(episodes[..|episodes| - 1], symbol, day) + if last.symbol == symbol && last.day == day then 1 else 0
  }

  lemma CountSnoc(episodes: seq<Episode>, e: Episode, symbol: string, day: int)
    ensures CountOf(episodes + [e], symbol, day) ==
            CountOf(episodes, symbol, day) + if e.symbol == symbol && e.day == day then 1 else 0
  {
    Seqs.Snoc(episodes, episodes, e);
  }

  ghost predicate Within(rows: seq<Row>, spans: seq<Span>) {
    forall k :: 0 <= k < |spans| ==> spans[k].first <= spans[k].last < |rows|
  }

  /** The episodes of the spans, numbered 1, 2, 3, ... */
  ghost function DescribeAll(symbol: string, day: int, rows: seq<Row>, spans: seq<Span>): (es: seq<Episode>)
    requires Within(rows, spans)
    ensures |es| == |spans|
  {
    if spans == [] then []
    else DescribeAll(symbol, day, rows, spans[..|spans| - 1]) + [Describe(symbol, day, |spans|, rows, spans[|spans| - 1])]
  }

  /** Rows `start` to `i - 1` are an active run, cut off on the left. */
  ghost predicate ActiveRun(rows: seq<Row>, start: nat, i: nat) {
    && start <= i <= |rows|
    && (start < i ==> rows[start].family.Some?)
    && (forall j :: start <= j && j + 1 < i ==> Joined(rows, j))
    && (0 < start < |rows| ==> !Joined(rows, start - 1))
  }

  lemma CloseRun(rows: seq<Row>, spans: seq<Span>, start: nat, i: nat)
    requires Segmentation(rows, spans, start) && ActiveRun(rows, start, i) && start < i
    requires i < |rows| ==> !Joined(rows, i - 1)
    ensures Segmentation(rows, spans + [Span(start, i - 1)], i) && ActiveRun(rows, i, i)
  {
    Seqs.Snoc(spans, spans, Span(start, i - 1));
  }

  lemma SkipRow(rows: seq<Row>, spans: seq<Span>, i: nat, family: Option<Family>, direction: string)
    requires Segmentation(rows, spans, i) && i < |rows| && rows[i].family.None?
    ensures Segmentation(rows, spans, i + 1)
    ensures Tracking(rows, i + 1, i + 1, [], family, direction)
  {
  }

  /** The flush closure: numbers the episode by those the symbol-day already has. */
  method Flush(symbol: string, day: int, episodes: seq<Episode>, active: seq<Row>, family: Option<Family>,
               direction: string)
    returns (episodes': seq<Episode>)
    ensures active == [] ==> episodes' == episodes
    ensures active != [] ==> episodes' == episodes + [Episode(symbol, day, CountOf(episodes, symbol, day) + 1, family, direction,
              active[0].asOf, active[|active| - 1].asOf, |active|, active[0].id, active[|active| - 1].id)]
  {
    episodes' := episodes;
    if active != [] {
      var first, last := active[0], active[|active| - 1];
      episodes' := episodes + [Episode(symbol, day, CountOf(episodes, symbol, day) + 1, family, direction,
                                       first.asOf, last.asOf, |active|, first.id, last.id)];
    }
  }

  /** The episodes appended so far are those of the spans. */
  ghost predicate Appended(symbol: string, day: int, rows: seq<Row>, before: seq<Episode>, episodes: seq<Episode>,
                           spans: seq<Span>) {
    && Within(rows, spans)
    && CountOf(episodes, symbol, day) == |spans|
    && episodes == before + DescribeAll(symbol, day, rows, spans)
  }

  lemma AppendOne(symbol: string, day: int, rows: seq<Row>, before: seq<Episode>, episodes: seq<Episode>,
                  spans: seq<Span>, s: Span)
    requires s.first <= s.last < |rows| && Appended(symbol, day, rows, before, episodes, spans)
    ensures Appended(symbol, day, rows, before, episodes + [Describe(symbol, day, |spans| + 1, rows, s)], spans + [s])
  {
    var e := Describe(symbol, day, |spans| + 1, rows, s);
    CountSnoc(episodes, e, symbol, day);
    Seqs.Snoc(spans, spans, s);
    assert before + DescribeAll(symbol, day, rows, spans) + [e] == before + (DescribeAll(symbol, day, rows, spans) + [e]);
  }

  /** What the loop knows about `active`, `family` and `direction` before row `i`. */
  ghost predicate Tracking(rows: seq<Row>, start: nat, i: nat, active: seq<Row>, family: Option<Family>,
                           direction: string) {
    && ActiveRun(rows, start, i) && active == rows[start..i]
    && (start < i ==> && rows[start].family == family == rows[i - 1].family
                      && rows[start].direction == direction == rows[i - 1].direction)
  }

  /** The row ends the active run. */
  predicate Breaks(row: Row, active: seq<Row>, family: Option<Family>, direction: string) {
    || row.family.None?
    || (active != [] && (row.family != family || row.direction != direction || row.asOf - active[|active| - 1].asOf > MAX_GAP))
  }

  lemma BreaksIff(rows: seq<Row>, start: nat, i: nat, active: seq<Row>, family: Option<Family>, direction: string)
    requires i < |rows| && Tracking(rows, start, i, active, family, direction) && start < i
    ensures Breaks(rows[i], active, family, direction) <==> !Joined(rows, i - 1)
  {
    if start < i - 1 {
      assert Joined(rows, i - 2);
    }
    assert active[|active| - 1] == rows[i - 1];
  }

  /** A row that does not end the active run extends it. */
  lemma ExtendRun(rows: seq<Row>, start: nat, i: nat, active: seq<Row>, family: Option<Family>, direction: string)
    requires i < |rows| && Tracking(rows, start, i, active, family, direction) && !Breaks(rows[i], active, family, direction)
    ensures Tracking(rows, start, i + 1, active + [rows[i]], rows[i].family, rows[i].direction)
    ensures active != [] ==> rows[i].family == family && rows[i].direction == direction
  {
    if start < i {
      BreaksIff(rows, start, i, active, family, direction);
    }
  }

  lemma DescribesRun(symbol: string, day: int, number: nat, rows: seq<Row>, active: seq<Row>, family: Option<Family>,
                     direction: string, start: nat, i: nat)
    requires Tracking(rows, start, i, active, family, direction) && start < i
    ensures Describe(symbol, day, number, rows, Span(start, i - 1)) ==
            Episode(symbol, day, number, family, direction, active[0].asOf, active[|active| - 1].asOf, |active|,
                    active[0].id, active[|active| - 1].id)
  {
  }

  /** Closes the active run, if there is one. */
  method FlushRun(symbol: string, day: int, ghost rows: seq<Row>, ghost before: seq<Episode>, episodes: seq<Episode>,
                  ghost spans: seq<Span>, active: seq<Row>, family: Option<Family>, direction: string,
                  ghost start: nat, ghost i: nat)
    returns (episodes': seq<Episode>, ghost spans': seq<Span>)
    requires Segmentation(rows, spans, start) && Tracking(rows, start, i, active, family, direction)
    requires i < |rows| ==> Breaks(rows[i], active, family, direction)
    requires Appended(symbol, day, rows, before, episodes, spans)
    ensures Segmentation(rows, spans', i) && Tracking(rows, i, i, [], family, direction)
    ensures Appended(symbol, day, rows, before, episodes', spans')
  {
    episodes' := Flush(symbol, day, episodes, active, family, direction);
    spans' := spans;
    if active != [] {
      if i < |rows| {
        BreaksIff(rows, start, i, active, family, direction);
      }
      CloseRun(rows, spans, start, i);
      DescribesRun(symbol, day, |spans| + 1, rows, active, family, direction, start, i);
      AppendOne(symbol, day, rows, before, episodes, spans, Span(start, i - 1));
      spans' := spans + [Span(start, i - 1)];
    }
  }

  /** Puts row `i` in the active run, which takes its family and direction from its first row. */
  method Append(rows: seq<Row>, active: seq<Row>, family: Option<Family>, direction: string, ghost start: nat, i: nat)
    returns (family': Option<Family>, direction': string, active': seq<Row>)
    requires i < |rows| && Tracking(rows, start, i, active, family, direction) && !Breaks(rows[i], active, family, direction)
    ensures active' == active + [rows[i]]
    ensures Tracking(rows, start, i + 1, active', family', direction')
  {
    ExtendRun(rows, start, i, active, family, direction);
    family', direction' := family, direction;
    if active == [] {
      family', direction' := rows[i].family, rows[i].direction;
    }
    active' := active + [rows[i]];
  }

  /** What holds before row `i`. */
  ghost predicate Going(symbol: string, day: int, rows: seq<Row>, before: seq<Episode>, episodes: seq<Episode>,
                        spans: seq<Span>,
                        start: nat, i: nat, active: seq<Row>, family: Option<Family>, direction: string)
  {
    && Segmentation(rows, spans, start) && Tracking(rows, start, i, active, family, direction)
    && Appended(symbol, day, rows, before, episodes, spans)
  }

  lemma StartsGoing(symbol: string, day: int, rows: seq<Row>, before: seq<Episode>)
    requires CountOf(before, symbol, day) == 0
    ensures Going(symbol, day, rows, before, before, [], 0, 0, [], None, "")
  {
    assert before + [] == before;
  }

  /** Row `i` of the loop. */
  method TakeRow(symbol: string, day: int, rows: seq<Row>, ghost before: seq<Episode>, episodes: seq<Episode>,
                 ghost spans: seq<Span>,
                 ghost start: nat, i: nat, active: seq<Row>, family: Option<Family>, direction: string)
    returns (episodes': seq<Episode>, ghost spans': seq<Span>, ghost start': nat,
             active': seq<Row>, family': Option<Family>, direction': string)
    requires i < |rows| && Going(symbol, day, rows, before, episodes, spans, start, i, active, family, direction)
    ensures Going(symbol, day, rows, before, episodes', spans', start', i + 1, active', family', direction')
  {
    episodes', spans', start', active' := episodes, spans, start, active;
    if Breaks(rows[i], active, family, direction) {
      episodes', spans' := FlushRun(symbol, day, rows, before, episodes, spans, active, family, direction, start, i);
      start', active' := i, [];
    }
    start', active', family', direction' := PlaceRow(rows, spans', start', i, active', family, direction);
  }

  /** Skips an unclassified row, else puts it in the active run. */
  method PlaceRow(rows: seq<Row>, ghost spans: seq<Span>, ghost start: nat, i: nat, active: seq<Row>,
                  family: Option<Family>, direction: string)
    returns (ghost start': nat, active': seq<Row>, family': Option<Family>, direction': string)
    requires i < |rows| && Segmentation(rows, spans, start) && Tracking(rows, start, i, active, family, direction)
    requires active == [] || !Breaks(rows[i], active, family, direction)
    ensures Segmentation(rows, spans, start') && Tracking(rows, start', i + 1, active', family', direction')
  {
    start', active', family', direction' := start, active, family, direction;
    if rows[i].family.None? {
      SkipRow(rows, spans, i, family, direction);
      start' := i + 1;
    } else {
      family', direction', active' := Append(rows, active, family, direction, start, i);
    }
  }

  /** One symbol-day. */
  method SegmentDay(symbol: string, day: int, rows: seq<Row>, before: seq<Episode>)
    returns (episodes: seq<Episode>, ghost spans: seq<Span>)
    requires CountOf(before, symbol, day) == 0
    ensures Segmentation(rows, spans, |rows|)
    ensures Within(rows, spans) && episodes == before + DescribeAll(symbol, day, rows, spans)
  {
    episodes, spans := before, [];
    var active: seq<Row> := [];
    var family, direction := None, "";
    ghost var start: nat := 0;
    StartsGoing(symbol, day, rows, before);
    for i := 0 to |rows|
      invariant Going(symbol, day, rows, before, episodes, spans, start, i, active, family, direction)
    {
      episodes, spans, start, active, family, direction :=
        TakeRow(symbol, day, rows, before, episodes, spans, start, i, active, family, direction);
    }
    episodes, spans := FlushRun(symbol, day, rows, before, episodes, spans, active, family, direction, start, |rows|);
  }

  // ---- All the symbol-days ----

  datatype Group = Group(symbol: string, day: int, rows: seq<Row>)

  ghost function DescribeGroups(groups: seq<Group>, spans: seq<seq<Span>>): seq<Episode>
    requires |spans| == |groups| && forall g :: 0 <= g < |groups| ==> Within(groups[g].rows, spans[g])
  {
    if groups == [] then []
    else
      var n := |groups| - 1;
      DescribeGroups(groups[..n], spans[..n]) + DescribeAll(groups[n].symbol, groups[n].day, groups[n].rows, spans[n])
  }

  ghost predicate DistinctGroups(groups: seq<Group>) {
    forall i, j :: 0 <= i < j < |groups| ==> groups[i].symbol != groups[j].symbol || groups[i].day != groups[j].day
  }

  lemma {:induction false} CountAppend(a: seq<Episode>, b: seq<Episode>, symbol: string, day: int)
    requires forall k :: 0 <= k < |b| ==> b[k].symbol != symbol || b[k].day != day
    ensures CountOf(a + b, symbol, day) == CountOf(a, symbol, day)
  {
    if b == [] {
      assert a + b == a;
    } else {
      CountAppend(a, b[..|b| - 1], symbol, day);
      CountSnoc(a + b[..|b| - 1], b[|b| - 1], symbol, day);
      assert a + b == a + b[..|b| - 1] + [b[|b| - 1]];
    }
  }

  lemma {:induction false} DescribedAs(symbol: string, day: int, rows: seq<Row>, spans: seq<Span>)
    requires Within(rows, spans)
    ensures forall k :: 0 <= k < |spans| ==>
                          DescribeAll(symbol, day, rows, spans)[k] == Describe(symbol, day, k + 1, rows, spans[k])
  {
    if spans != [] {
      DescribedAs(symbol, day, rows, spans[..|spans| - 1]);
    }
  }

  ghost predicate SegmentAll(groups: seq<Group>, spans: seq<seq<Span>>) {
    && |spans| == |groups|
    && forall g :: 0 <= g < |groups| ==>
                     Within(groups[g].rows, spans[g]) && Segmentation(groups[g].rows, spans[g], |groups[g].rows|)
  }

  /** The episodes are those of the maximal runs of each symbol-day. */
  ghost predicate EpisodesOf(groups: seq<Group>, episodes: seq<Episode>) {
    exists spans :: SegmentAll(groups, spans) && episodes == DescribeGroups(groups, spans)
  }

  /** The rows leave no choice of episodes. */
  lemma EpisodesUnique(groups: seq<Group>, a: seq<Episode>, b: seq<Episode>)
    requires EpisodesOf(groups, a) && EpisodesOf(groups, b)
    ensures a == b
  {
    var s :| SegmentAll(groups, s) && a == DescribeGroups(groups, s);
    var t :| SegmentAll(groups, t) && b == DescribeGroups(groups, t);
    forall g | 0 <= g < |groups| ensures s[g] == t[g] {
      SegmentationUnique(groups[g].rows, s[g], t[g], |groups[g].rows|);
    }
    assert s == t;
  }

  /** Every symbol-day gets the episodes of its own maximal runs, numbered from 1 without gaps or repeats,
      although the numbering looks them up in the common list. */
  method EpisodeRows(groups: seq<Group>) returns (episodes: seq<Episode>)
    requires DistinctGroups(groups)
    ensures EpisodesOf(groups, episodes)
  {
    episodes := [];
    ghost var spans: seq<seq<Span>> := [];
    for g := 0 to |groups|
      invariant SegmentAll(groups[..g], spans)
      invariant episodes == DescribeGroups(groups[..g], spans)
      invariant forall k :: g <= k < |groups| ==> CountOf(episodes, groups[k].symbol, groups[k].day) == 0
    {
      var group := groups[g];
      ghost var before, own := episodes, [];
      episodes, own := SegmentDay(group.symbol, group.day, group.rows, episodes);
      OthersUncounted(groups, g, before, own);
      SegmentNext(groups, g, spans, own);
      spans := spans + [own];
    }
    Seqs.All(groups);
  }

  lemma SegmentNext(groups: seq<Group>, g: nat, spans: seq<seq<Span>>, own: seq<Span>)
    requires g < |groups| && SegmentAll(groups[..g], spans)
    requires Within(groups[g].rows, own) && Segmentation(groups[g].rows, own, |groups[g].rows|)
    ensures SegmentAll(groups[..g + 1], spans + [own])
    ensures DescribeGroups(groups[..g + 1], spans + [own]) ==
            DescribeGroups(groups[..g], spans) + DescribeAll(groups[g].symbol, groups[g].day, groups[g].rows, own)
  {
    Seqs.Prefix(groups, g);
    Seqs.Snoc(spans, spans, own);
  }

  lemma OthersUncounted(groups: seq<Group>, g: nat, before: seq<Episode>, own: seq<Span>)
    requires DistinctGroups(groups) && g < |groups| && Within(groups[g].rows, own)
    requires forall k :: g < k < |groups| ==> CountOf(before, groups[k].symbol, groups[k].day) == 0
    ensures var after := before + DescribeAll(groups[g].symbol, groups[g].day, groups[g].rows, own);
            forall k :: g < k < |groups| ==> CountOf(after, groups[k].symbol, groups[k].day) == 0
  {
    var group := groups[g];
    DescribedAs(group.symbol, group.day, group.rows, own);
    forall k | g < k < |groups|
      ensures CountOf(before + DescribeAll(group.symbol, group.day, group.rows, own), groups[k].symbol, groups[k].day) == 0
    {
      CountAppend(before, DescribeAll(group.symbol, group.day, group.rows, own), groups[k].symbol, groups[k].day);
    }
  }

  // ---- From the records ----

  datatype Record = Record(symbol: string, day: int, row: Row)

  type DayKey = (string, int)

  function KeyOf(r: Record): DayKey {
    (r.symbol, r.day)
  }

  /** The rows of a symbol-day, as the records have them. */
  ghost function RowsOf(records: seq<Record>, key: DayKey): seq<Row> {
    if records == [] then []
    else
      var before, last := RowsOf(records[..|records| - 1], key), records[|records| - 1];
      if KeyOf(last) == key then before + [last.row] else before
  }

  ghost function KeysOf(records: seq<Record>): set<DayKey> {
    set i | 0 <= i < |records| :: KeyOf(records[i])
  }

  predicate KeyBefore(a: DayKey, b: DayKey) {
    StringLess(a.0, b.0) || (a.0 == b.0 && a.1 < b.1)
  }

  predicate Earlier(a: Row, b: Row) {
    a.asOf < b.asOf
  }

  ghost function GroupsFor(records: seq<Record>, keys: seq<DayKey>): (groups: seq<Group>)
    ensures |groups| == |keys|
    ensures forall i :: 0 <= i < |keys| ==> groups[i] == Group(keys[i].0, keys[i].1, Sort(RowsOf(records, keys[i]), Earlier))
  {
    seq(|keys|, i requires 0 <= i < |keys| => Group(keys[i].0, keys[i].1, Sort(RowsOf(records, keys[i]), Earlier)))
  }

  /** The symbol-days in order, each with its rows in order of time. */
  ghost function DayGroups(records: seq<Record>): seq<Group> {
    GroupsFor(records, SortedSet(KeysOf(records), KeyBefore))
  }

  lemma KeyBeforeIsOrder()
    ensures WeakOrder(KeyBefore) && forall a, b :: !KeyBefore(a, b) && !KeyBefore(b, a) ==> a == b
  {
    forall a, b, c | KeyBefore(a, c) ensures !KeyBefore(c, a) && (KeyBefore(a, b) || KeyBefore(b, c)) {
      StringLessOrder(a.0, b.0, c.0);
      StringLessOrder(b.0, a.0, c.0);
      StringLessOrder(a.0, c.0, a.0);
      StringLessOrder(b.0, c.0, a.0);
    }
    forall a, b | !KeyBefore(a, b) && !KeyBefore(b, a) ensures a == b {
      StringLessOrder(a.0, b.0, a.0);
    }
  }

  lemma GroupsDistinct(records: seq<Record>, keys: seq<DayKey>)
    requires forall i, j :: 0 <= i < j < |keys| ==> keys[i] != keys[j]
    ensures DistinctGroups(GroupsFor(records, keys))
  {
  }

  ghost predicate HasGroupOf(groups: seq<Group>, r: Record) {
    exists g :: 0 <= g < |groups| && GroupHas(groups[g], r)
  }

  /** The groups are of different symbol-days, and every record is in the group of its own. */
  lemma GroupsCover(records: seq<Record>, r: Record)
    requires r in records
    ensures DistinctGroups(DayGroups(records)) && HasGroupOf(DayGroups(records), r)
  {
    var keys := SortedSet(KeysOf(records), KeyBefore);
    SortedKeys(records);
    GroupsDistinct(records, keys);
    var i :| 0 <= i < |records| && records[i] == r;
    assert KeyOf(r) in KeysOf(records);
    var g :| 0 <= g < |keys| && keys[g] == KeyOf(r);
    RowsOfHas(records, i);
    SortOrders(RowsOf(records, keys[g]), Earlier);
    assert r.row in multiset(RowsOf(records, keys[g]));
    assert GroupHas(DayGroups(records)[g], r);
  }

  /** The rows of a group are those of its symbol-day, in order of time. */
  lemma GroupsSorted(records: seq<Record>, g: nat)
    requires g < |DayGroups(records)|
    ensures var group := DayGroups(records)[g];
            && multiset(group.rows) == multiset(RowsOf(records, (group.symbol, group.day)))
            && forall i, j :: 0 <= i < j < |group.rows| ==> group.rows[i].asOf <= group.rows[j].asOf
  {
    var keys := SortedSet(KeysOf(records), KeyBefore);
    SortOrders(RowsOf(records, keys[g]), Earlier);
  }

  /** The symbol-days come in order of the symbol, those of one symbol in order of the day. */
  lemma GroupsInOrder(records: seq<Record>, g: nat, h: nat)
    requires g < h < |DayGroups(records)|
    ensures var a, b := DayGroups(records)[g], DayGroups(records)[h];
            StringLess(a.symbol, b.symbol) || (a.symbol == b.symbol && a.day < b.day)
  {
    var keys := SortedSet(KeysOf(records), KeyBefore);
    KeyBeforeIsOrder();
    SortOrders(Listing(KeysOf(records)), KeyBefore);
    SortedKeys(records);
    assert !KeyBefore(keys[h], keys[g]) && keys[g] != keys[h];
    StringLessOrder(keys[g].0, keys[h].0, keys[g].0);
  }

  predicate GroupHas(group: Group, r: Record) {
    group.symbol == r.symbol && group.day == r.day && r.row in group.rows
  }

  lemma SortedKeys(records: seq<Record>)
    ensures var keys := SortedSet(KeysOf(records), KeyBefore);
            && (forall k :: k in keys <==> k in KeysOf(records))
            && (forall i, j :: 0 <= i < j < |keys| ==> keys[i] != keys[j])
  {
    KeyBeforeIsOrder();
    SortOrders(Listing(KeysOf(records)), KeyBefore);
    ListedOnce(SortedSet(KeysOf(records), KeyBefore), KeysOf(records));
  }

  lemma {:induction false} RowsOfHas(records: seq<Record>, i: nat)
    requires i < |records|
    ensures records[i].row in RowsOf(records, KeyOf(records[i]))
  {
    if i < |records| - 1 {
      RowsOfHas(records[..|records| - 1], i);
    }
  }

  /** Rows seen at the same time stay in the order of the records. */
  lemma TimeTiesStable(rows: seq<Row>, asOf: int)
    ensures Filter(Sort(rows, Earlier), r => AsOf(r, asOf)) == Filter(rows, r => AsOf(r, asOf))
  {
    SortStable(rows, Earlier, r => AsOf(r, asOf));
  }

  predicate AsOf(r: Row, asOf: int) {
    r.asOf == asOf
  }

  /** The dictionary of rows by symbol-day. */
  method GroupRecords(records: seq<Record>) returns (grouped: map<DayKey, seq<Row>>)
    ensures grouped.Keys == KeysOf(records)
    ensures forall k :: k in grouped ==> grouped[k] == RowsOf(records, k)
  {
    grouped := map[];
    for i := 0 to |records|
      invariant grouped.Keys == KeysOf(records[..i])
      invariant forall k :: k in grouped ==> grouped[k] == RowsOf(records[..i], k)
    {
      var key := KeyOf(records[i]);
      Seqs.Prefix(records, i);
      KeysSnoc(records[..i], records[i]);
      if key !in grouped {
        NoRowsOf(records[..i], key);
      }
      grouped := grouped[key := (if key in grouped then grouped[key] else []) + [records[i].row]];
    }
    Seqs.All(records);
  }

  lemma KeysSnoc(records: seq<Record>, r: Record)
    ensures KeysOf(records + [r]) == KeysOf(records) + {KeyOf(r)}
  {
    assert forall i :: 0 <= i < |records| ==> (records + [r])[i] == records[i];
    assert (records + [r])[|records|] == r;
  }

  lemma {:induction false} NoRowsOf(records: seq<Record>, key: DayKey)
    requires key !in KeysOf(records)
    ensures RowsOf(records, key) == []
  {
    if records != [] {
      Seqs.Last(records);
      KeysSnoc(records[..|records| - 1], records[|records| - 1]);
      NoRowsOf(records[..|records| - 1], key);
    }
  }

  /** The keys in any order of the dictionary. */
  method WalkKeys(keys: set<DayKey>) returns (listed: seq<DayKey>)
    ensures multiset(listed) == multiset(keys)
  {
    listed := [];
    var pending := keys;
    ghost var done: set<DayKey> := {};
    while pending != {}
      invariant pending == keys - done && done <= keys
      invariant multiset(listed) == multiset(done)
      decreases |pending|
    {
      var key :| key in pending;
      assert multiset(done + {key}) == multiset(done) + multiset{key};
      listed := listed + [key];
      pending, done := pending - {key}, done + {key};
    }
    assert done == keys;
  }

  /** `episode_rows`: whatever the order of the records and of the dictionary, the episodes of the records. */
  method EpisodesFromRecords(records: seq<Record>) returns (episodes: seq<Episode>)
    ensures EpisodesOf(DayGroups(records), episodes)
  {
    var grouped := GroupRecords(records);
    var listed := WalkKeys(grouped.Keys);
    KeyBeforeIsOrder();
    SortedSetUnique(listed, KeysOf(records), KeyBefore);
    var keys := Sort(listed, KeyBefore);
    SortedKeys(records);
    GroupsDistinct(records, keys);
    var groups := SortGroups(grouped, keys, records);
    episodes := EpisodeRows(groups);
  }

  method SortGroups(grouped: map<DayKey, seq<Row>>, keys: seq<DayKey>, ghost records: seq<Record>)
    returns (groups: seq<Group>)
    requires forall k :: k in keys ==> k in grouped
    requires forall k :: k in grouped ==> grouped[k] == RowsOf(records, k)
    ensures groups == GroupsFor(records, keys)
  {
    groups := [];
    for i := 0 to |keys|
      invariant |groups| == i
      invariant forall j :: 0 <= j < i ==> groups[j] == Group(keys[j].0, keys[j].1, Sort(RowsOf(records, keys[j]), Earlier))
    {
      assert keys[i] in keys;
      groups := groups + [Group(keys[i].0, keys[i].1, Sort(grouped[keys[i]], Earlier))];
    }
  }
}
