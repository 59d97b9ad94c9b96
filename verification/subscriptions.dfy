/** The subscription refresh of cmd/collector/subscriptions.go with `enforceCapacity` of cmd/collector/tasks.go.
    The subscription table is a map from its primary key. */
module Subscriptions {
  import opened Options
  import opened Text
  import opened StableSorting
  import Seqs

  datatype Sub = Sub(exchange: string, token: string, mode: string, symbol: string, priority: int, active: bool, reason: string)

  /** The table's primary key. */
  datatype RowId = RowId(exchange: string, token: string, mode: string)

  type Table = map<RowId, Sub>

  function RowOf(s: Sub): RowId {
    RowId(s.exchange, s.token, s.mode)
  }

  /** The key the collector compares by; it ignores case and outer white space. */
  function Key(id: RowId): string {
    Normal(id.exchange) + ":" + Trim(id.token) + ":" + Normal(id.mode)
  }

  /** Two subscriptions go by one key exactly when they differ in outer white space and in the case of exchange and mode
      alone, unless a colon moves between the parts. */
  lemma KeyIff(a: Sub, b: Sub)
    requires ':' !in a.exchange && ':' !in b.exchange && ':' !in a.token && ':' !in b.token
    ensures RowOf(a) == RowOf(b) <==> a.exchange == b.exchange && a.token == b.token && a.mode == b.mode
    ensures Key(RowOf(a)) == Key(RowOf(b)) <==>
            Normal(a.exchange) == Normal(b.exchange) && Trim(a.token) == Trim(b.token) && Normal(a.mode) == Normal(b.mode)
  {
    NoColon(a.exchange);
    NoColon(b.exchange);
    NoColon(a.token);
    NoColon(b.token);
    JoinedAlike(Trim(a.token), Normal(a.mode), Trim(b.token), Normal(b.mode));
    JoinedAlike(Normal(a.exchange), Trim(a.token) + ":" + Normal(a.mode),
                Normal(b.exchange), Trim(b.token) + ":" + Normal(b.mode));
    KeyParts(RowOf(a));
    KeyParts(RowOf(b));
  }

  lemma KeyParts(id: RowId)
    ensures Key(id) == Normal(id.exchange) + ":" + (Trim(id.token) + ":" + Normal(id.mode))
  {
  }

  function Keys(subs: seq<Sub>): set<string> {
    if subs == [] then {} else Keys(subs[..|subs| - 1]) + {Key(RowOf(subs[|subs| - 1]))}
  }

  predicate HasRow(subs: seq<Sub>, id: RowId) {
    subs != [] && (RowOf(subs[|subs| - 1]) == id || HasRow(subs[..|subs| - 1], id))
  }

  /** No two subscriptions share a key. */
  predicate Distinct(subs: seq<Sub>) {
    subs == [] || (Key(RowOf(subs[|subs| - 1])) !in Keys(subs[..|subs| - 1]) && Distinct(subs[..|subs| - 1]))
  }

  lemma Snoc(subs: seq<Sub>, s: Sub, id: RowId)
    ensures Keys(subs + [s]) == Keys(subs) + {Key(RowOf(s))}
    ensures HasRow(subs + [s], id) <==> RowOf(s) == id || HasRow(subs, id)
    ensures Distinct(subs + [s]) <==> Key(RowOf(s)) !in Keys(subs) && Distinct(subs)
  {
    Seqs.Snoc(subs, subs, s);
  }

  lemma {:induction false} Concat(a: seq<Sub>, b: seq<Sub>, id: RowId)
    ensures Keys(a + b) == Keys(a) + Keys(b)
    ensures HasRow(a + b, id) <==> HasRow(a, id) || HasRow(b, id)
    ensures Distinct(a + b) <==> Distinct(a) && Distinct(b) && Keys(a) !! Keys(b)
  {
    if b == [] {
      assert a + b == a;
    } else {
      var b', s := b[..|b| - 1], b[|b| - 1];
      Concat(a, b', id);
      Snoc(a + b', s, id);
      Seqs.Last(b);
      Seqs.Snoc(a, b', s);
    }
  }

  lemma {:induction false} RowHasKey(subs: seq<Sub>, id: RowId)
    ensures HasRow(subs, id) ==> Key(id) in Keys(subs)
  {
    if subs != [] {
      RowHasKey(subs[..|subs| - 1], id);
    }
  }

  // ---- appendUniqueSubscriptions ----

  method CollectKeys(subs: seq<Sub>) returns (keys: set<string>)
    ensures keys == Keys(subs)
  {
    keys := {};
    for i := 0 to |subs|
      invariant keys == Keys(subs[..i])
    {
      Seqs.Prefix(subs, i);
      keys := keys + {Key(RowOf(subs[i]))};
    }
    Seqs.All(subs);
  }

  /** `base` with what is new in `extra` behind it. */
  function Unique(base: seq<Sub>, extra: seq<Sub>): seq<Sub> {
    if extra == [] then base
    else
      var before, s := Unique(base, extra[..|extra| - 1]), extra[|extra| - 1];
      if Key(RowOf(s)) in Keys(before) then before else before + [s]
  }

  method AppendUnique(base: seq<Sub>, extra: seq<Sub>) returns (all: seq<Sub>)
    ensures all == Unique(base, extra)
  {
    var seen := CollectKeys(base);
    all := base;
    for i := 0 to |extra|
      invariant all == Unique(base, extra[..i]) && seen == Keys(all)
    {
      Seqs.Prefix(extra, i);
      var key := Key(RowOf(extra[i]));
      if key in seen {
        continue;
      }
      Snoc(all, extra[i], RowOf(extra[i]));
      all := all + [extra[i]];
      seen := seen + {key};
    }
    Seqs.All(extra);
  }

  /** Those of `extra` whose key neither `base` nor an earlier one has, in order. */
  ghost function FirstOccurrences(base: seq<Sub>, extra: seq<Sub>): seq<Sub> {
    if extra == [] then []
    else
      var before, s := extra[..|extra| - 1], extra[|extra| - 1];
      if Key(RowOf(s)) in Keys(base) || Key(RowOf(s)) in Keys(before) then FirstOccurrences(base, before)
      else FirstOccurrences(base, before) + [s]
  }

  /** The base is kept, and what is added are the first occurrences, in order. */
  lemma {:induction false} UniqueAddsFirsts(base: seq<Sub>, extra: seq<Sub>)
    ensures Unique(base, extra) == base + FirstOccurrences(base, extra)
  {
    if extra != [] {
      var before, s := extra[..|extra| - 1], extra[|extra| - 1];
      UniqueAddsFirsts(base, before);
      UniqueKeys(base, before);
      Seqs.Snoc(base, FirstOccurrences(base, before), s);
    } else {
      assert base + [] == base;
    }
  }

  /** No key is left out and none is added twice. */
  lemma {:induction false} UniqueKeys(base: seq<Sub>, extra: seq<Sub>)
    ensures Keys(Unique(base, extra)) == Keys(base) + Keys(extra)
    ensures Distinct(Unique(base, extra)) <==> Distinct(base)
  {
    if extra != [] {
      var before, s := extra[..|extra| - 1], extra[|extra| - 1];
      UniqueKeys(base, before);
      Snoc(Unique(base, before), s, RowOf(s));
    }
  }

  // ---- enforceCapacity ----

  /** The subscription goes before the other whatever their order was. */
  predicate Before(a: Sub, b: Sub) {
    a.priority < b.priority || (a.priority == b.priority && StringLess(a.symbol, b.symbol))
  }

  lemma BeforeIsOrder()
    ensures WeakOrder(Before)
  {
    forall a, b, c | Before(a, c) ensures !Before(c, a) && (Before(a, b) || Before(b, c)) {
      StringLessOrder(a.symbol, b.symbol, c.symbol);
      StringLessOrder(b.symbol, a.symbol, c.symbol);
      StringLessOrder(a.symbol, c.symbol, a.symbol);
      StringLessOrder(b.symbol, c.symbol, a.symbol);
      StringLessOrder(c.symbol, a.symbol, b.symbol);
    }
  }

  /** The stable sort by priority and trading symbol. */
  function StableSort(subs: seq<Sub>): (r: seq<Sub>)
    ensures |r| == |subs|
  {
    Sort(subs, Before)
  }

  /** The sort is an ordered permutation that keeps the order of ties. */
  lemma StableSortSorts(subs: seq<Sub>, t: Sub)
    ensures Ordered(StableSort(subs), Before) && multiset(StableSort(subs)) == multiset(subs)
    ensures Filter(StableSort(subs), s => SameRank(s, t)) == Filter(subs, s => SameRank(s, t))
  {
    BeforeIsOrder();
    SortOrders(subs, Before);
    forall a, b | SameRank(a, t) && SameRank(b, t) ensures !Before(a, b) {
      StringLessOrder(a.symbol, b.symbol, a.symbol);
    }
    SortStable(subs, Before, s => SameRank(s, t));
  }

  predicate SameRank(s: Sub, t: Sub) {
    s.priority == t.priority && s.symbol == t.symbol
  }

  function Drop(s: Sub): Sub {
    s.(active := false, reason := if s.reason == "" then "capacity_drop" else s.reason)
  }

  /** The row switched off: it keeps its reason if it has one and gets the other if not. */
  ghost predicate SwitchedOff(s: Sub, off: Sub, reason: string) {
    && off.exchange == s.exchange && off.token == s.token && off.mode == s.mode && off.symbol == s.symbol
    && off.priority == s.priority && !off.active
    && (s.reason != "" ==> off.reason == s.reason) && (s.reason == "" ==> off.reason == reason)
  }

  ghost predicate AllActive(subs: seq<Sub>, active: bool) {
    forall i :: 0 <= i < |subs| ==> subs[i].active == active
  }

  function DropAll(subs: seq<Sub>): (dropped: seq<Sub>)
    ensures |dropped| == |subs| && forall i :: 0 <= i < |subs| ==> dropped[i] == Drop(subs[i])
  {
    seq(|subs|, i requires 0 <= i < |subs| => Drop(subs[i]))
  }

  predicate AllFit(subs: seq<Sub>, capacity: int) {
    capacity <= 0 || |subs| <= capacity
  }

  /** What the capacity leaves in: everything when it fits, else the first of the stable order. */
  function KeptOf(subs: seq<Sub>, capacity: int): (keep: seq<Sub>)
    ensures |keep| == if 0 < capacity < |subs| then capacity else |subs|
  {
    if AllFit(subs, capacity) then subs else StableSort(subs)[..capacity]
  }

  /** What it leaves out, marked dropped. */
  function LeftOut(subs: seq<Sub>, capacity: int): (dropped: seq<Sub>)
    ensures AllActive(dropped, false)
  {
    if AllFit(subs, capacity) then [] else DropAll(StableSort(subs)[capacity..])
  }

  method EnforceCapacity(subs: seq<Sub>, maxConnections: int, maxTokens: int)
    returns (keep: seq<Sub>, dropped: seq<Sub>)
    ensures keep == KeptOf(subs, maxConnections * maxTokens) && dropped == LeftOut(subs, maxConnections * maxTokens)
    ensures FirstAreKept(subs, keep, dropped)
  {
    var capacity := maxConnections * maxTokens;
    CapacityKeepsFirst(subs, capacity);
    if capacity <= 0 || |subs| <= capacity {
      return subs, [];
    }
    var ordered := StableSort(subs);
    keep := ordered[..capacity];
    dropped := DropLoop(ordered[capacity..]);
  }

  method DropLoop(from: seq<Sub>) returns (dropped: seq<Sub>)
    ensures dropped == DropAll(from)
  {
    dropped := [];
    for i := 0 to |from|
      invariant |dropped| == i && forall j :: 0 <= j < i ==> dropped[j] == Drop(from[j])
    {
      dropped := dropped + [Drop(from[i])];
    }
  }

  lemma {:induction false} DropKeepsIdentity(from: seq<Sub>, id: RowId)
    ensures Keys(DropAll(from)) == Keys(from) && (HasRow(DropAll(from), id) <==> HasRow(from, id))
    ensures Distinct(DropAll(from)) <==> Distinct(from)
  {
    if from != [] {
      var before, s := from[..|from| - 1], from[|from| - 1];
      DropKeepsIdentity(before, id);
      Seqs.Last(from);
      assert DropAll(from) == DropAll(before) + [Drop(s)];
      Snoc(DropAll(before), Drop(s), id);
    }
  }

  lemma {:induction false} InsertKeepsRows(subs: seq<Sub>, s: Sub, id: RowId)
    ensures Keys(Insert(subs, s, Before)) == Keys(subs) + {Key(RowOf(s))}
    ensures HasRow(Insert(subs, s, Before), id) <==> HasRow(subs, id) || RowOf(s) == id
    ensures Distinct(Insert(subs, s, Before)) <==> Distinct(subs + [s])
  {
    Snoc(subs, s, id);
    if subs != [] && Before(s, subs[|subs| - 1]) {
      var before, last := subs[..|subs| - 1], subs[|subs| - 1];
      InsertKeepsRows(before, s, id);
      Seqs.Last(subs);
      Snoc(before, s, id);
      Snoc(before, last, id);
      Snoc(Insert(before, s, Before), last, id);
    }
  }

  lemma {:induction false} SortKeepsRows(subs: seq<Sub>, id: RowId)
    ensures Keys(StableSort(subs)) == Keys(subs) && (HasRow(StableSort(subs), id) <==> HasRow(subs, id))
    ensures Distinct(StableSort(subs)) <==> Distinct(subs)
  {
    if subs != [] {
      var before, s := subs[..|subs| - 1], subs[|subs| - 1];
      SortKeepsRows(before, id);
      InsertKeepsRows(StableSort(before), s, id);
      Snoc(StableSort(before), s, id);
    }
  }

  /** Every kept subscription has a priority no larger than every dropped one, and at the same priority a symbol that
      does not come after the dropped one's. */
  ghost predicate NoneBefore(dropped: seq<Sub>, keep: seq<Sub>) {
    forall i, j :: 0 <= i < |keep| && 0 <= j < |dropped| ==>
      && keep[i].priority <= dropped[j].priority
      && (keep[i].priority == dropped[j].priority ==> !StringLess(dropped[j].symbol, keep[i].symbol))
  }

  /** The subscriptions of one priority and symbol, in order. */
  ghost function OfRank(subs: seq<Sub>, priority: int, symbol: string): seq<Sub> {
    if subs == [] then []
    else
      var before, s := OfRank(subs[..|subs| - 1], priority, symbol), subs[|subs| - 1];
      if s.priority == priority && s.symbol == symbol then before + [s] else before
  }

  lemma {:induction false} OfRankIsFilter(subs: seq<Sub>, t: Sub)
    ensures OfRank(subs, t.priority, t.symbol) == Filter(subs, s => SameRank(s, t))
  {
    if subs != [] {
      OfRankIsFilter(subs[..|subs| - 1], t);
    }
  }

  /** The kept and, switched off, the dropped are all there is. */
  ghost predicate CutFrom(subs: seq<Sub>, keep: seq<Sub>, dropped: seq<Sub>) {
    exists rest :: multiset(keep) + multiset(rest) == multiset(subs) && AllOff(rest, dropped)
  }

  ghost predicate AllOff(rest: seq<Sub>, dropped: seq<Sub>) {
    |rest| == |dropped| && forall j :: 0 <= j < |rest| ==> SwitchedOff(rest[j], dropped[j], "capacity_drop")
  }

  lemma DroppedOff(rest: seq<Sub>)
    ensures AllOff(rest, DropAll(rest))
  {
  }

  lemma CapacityCuts(subs: seq<Sub>, capacity: int)
    ensures CutFrom(subs, KeptOf(subs, capacity), LeftOut(subs, capacity))
  {
    if AllFit(subs, capacity) {
      assert multiset(subs) + multiset([]) == multiset(subs) && AllOff([], []);
    } else {
      var ordered := StableSort(subs);
      StableSortSorts(subs, subs[0]);
      Seqs.Cut(ordered, capacity);
      Seqs.Counts(ordered[..capacity], ordered[capacity..]);
      DroppedOff(ordered[capacity..]);
    }
  }

  /** Those of the smallest priorities are kept, among them those of the smallest symbols, and of these the first. */
  ghost predicate FirstAreKept(subs: seq<Sub>, keep: seq<Sub>, dropped: seq<Sub>) {
    && CutFrom(subs, keep, dropped) && NoneBefore(dropped, keep)
    && forall priority, symbol :: OfRank(keep, priority, symbol) <= OfRank(subs, priority, symbol)
  }

  lemma OfRankKept(subs: seq<Sub>, capacity: nat, t: Sub)
    requires capacity <= |subs|
    ensures OfRank(StableSort(subs)[..capacity], t.priority, t.symbol) <= OfRank(subs, t.priority, t.symbol)
  {
    StableSortSorts(subs, t);
    FilterPrefix(StableSort(subs), capacity, s => SameRank(s, t));
    OfRankIsFilter(StableSort(subs), t);
    OfRankIsFilter(StableSort(subs)[..capacity], t);
    OfRankIsFilter(subs, t);
  }

  lemma CapacityKeepsFirst(subs: seq<Sub>, capacity: int)
    ensures FirstAreKept(subs, KeptOf(subs, capacity), LeftOut(subs, capacity))
  {
    CapacitySplits(subs, capacity, RowId("", "", ""));
    CapacityCuts(subs, capacity);
    if !AllFit(subs, capacity) {
      forall priority, symbol
        ensures OfRank(StableSort(subs)[..capacity], priority, symbol) <= OfRank(subs, priority, symbol)
      {
        OfRankKept(subs, capacity, subs[0].(priority := priority, symbol := symbol));
      }
    }
  }

  /** The capacity neither loses nor repeats a row or a key, and leaves out the last in the order. */
  lemma CapacitySplits(subs: seq<Sub>, capacity: int, id: RowId)
    ensures var keep, dropped := KeptOf(subs, capacity), LeftOut(subs, capacity);
            && Keys(keep + dropped) == Keys(subs) && (Distinct(keep + dropped) <==> Distinct(subs))
            && (HasRow(keep, id) || HasRow(dropped, id) <==> HasRow(subs, id))
            && NoneBefore(dropped, keep)
  {
    if AllFit(subs, capacity) {
      assert subs + [] == subs;
    } else {
      var ordered := StableSort(subs);
      SortKeepsRows(subs, id);
      StableSortSorts(subs, ordered[0]);
      CutSplits(ordered, capacity, id);
    }
  }

  lemma CutSplits(ordered: seq<Sub>, capacity: nat, id: RowId)
    requires capacity <= |ordered|
    ensures var keep, dropped := ordered[..capacity], DropAll(ordered[capacity..]);
            && Keys(keep + dropped) == Keys(ordered) && (Distinct(keep + dropped) <==> Distinct(ordered))
            && (HasRow(keep, id) || HasRow(dropped, id) <==> HasRow(ordered, id))
            && (Ordered(ordered, Before) ==> NoneBefore(dropped, keep))
  {
    var keep, rest := ordered[..capacity], ordered[capacity..];
    Seqs.Cut(ordered, capacity);
    DropKeepsIdentity(rest, id);
    Concat(keep, DropAll(rest), id);
    Concat(keep, rest, id);
    if Ordered(ordered, Before) {
      DropKeepsOrder(ordered, capacity);
    }
  }

  lemma DropKeepsOrder(ordered: seq<Sub>, capacity: nat)
    requires capacity <= |ordered| && Ordered(ordered, Before)
    ensures NoneBefore(DropAll(ordered[capacity..]), ordered[..capacity])
  {
    var dropped := DropAll(ordered[capacity..]);
    forall i, j | 0 <= i < capacity && 0 <= j < |dropped| ensures !Before(dropped[j], ordered[i]) {
      assert !Before(ordered[capacity + j], ordered[i]);
    }
  }

  // ---- diffRemoved ----

  predicate ActiveIn(table: Table, id: RowId) {
    id in table && table[id].active
  }

  /** `listed` are the active rows of the table, in some order. */
  ghost predicate Lists(table: Table, listed: seq<Sub>) {
    && (forall id :: HasRow(listed, id) <==> ActiveIn(table, id))
    && (forall i :: 0 <= i < |listed| ==> RowOf(listed[i]) in table && table[RowOf(listed[i])] == listed[i])
  }

  function Retire(s: Sub): Sub {
    s.(active := false, reason := if s.reason == "" then "refresh_drop" else s.reason)
  }

  /** The listed rows whose key is not wanted, switched off. */
  function Removed(listed: seq<Sub>, wanted: set<string>): seq<Sub> {
    if listed == [] then []
    else
      var before, s := Removed(listed[..|listed| - 1], wanted), listed[|listed| - 1];
      if Key(RowOf(s)) in wanted then before else before + [Retire(s)]
  }

  method DiffRemoved(listed: seq<Sub>, desired: seq<Sub>) returns (removed: seq<Sub>)
    ensures removed == Removed(listed, Keys(desired))
  {
    var wanted := CollectKeys(desired);
    removed := [];
    for i := 0 to |listed|
      invariant removed == Removed(listed[..i], wanted)
    {
      Seqs.Prefix(listed, i);
      if Key(RowOf(listed[i])) !in wanted {
        removed := removed + [Retire(listed[i])];
      }
    }
    Seqs.All(listed);
  }

  // ---- Writing the table ----

  function Upserted(table: Table, rows: seq<Sub>): Table {
    if rows == [] then table else Upserted(table, rows[..|rows| - 1])[RowOf(rows[|rows| - 1]) := rows[|rows| - 1]]
  }

  lemma {:induction false} UpsertConcat(table: Table, a: seq<Sub>, b: seq<Sub>)
    ensures Upserted(table, a + b) == Upserted(Upserted(table, a), b)
  {
    if b == [] {
      assert a + b == a;
    } else {
      UpsertConcat(table, a, b[..|b| - 1]);
      Seqs.Last(b);
      Seqs.Snoc(a, b[..|b| - 1], b[|b| - 1]);
      Seqs.Snoc(a + b[..|b| - 1], [], b[|b| - 1]);
    }
  }

  function At(table: Table, id: RowId): Option<Sub> {
    if id in table then Some(table[id]) else None
  }

  /** What writing the rows puts under an id. */
  ghost function Written(rows: seq<Sub>, id: RowId): Option<Sub> {
    if rows == [] then None
    else if RowOf(rows[|rows| - 1]) == id then Some(rows[|rows| - 1])
    else Written(rows[..|rows| - 1], id)
  }

  lemma {:induction false} UpsertAt(table: Table, rows: seq<Sub>, id: RowId)
    ensures At(Upserted(table, rows), id) == if Written(rows, id).Some? then Written(rows, id) else At(table, id)
    ensures Written(rows, id).Some? <==> HasRow(rows, id)
    ensures Written(rows, id).Some? ==> Written(rows, id).value in rows
  {
    if rows != [] {
      UpsertAt(table, rows[..|rows| - 1], id);
    }
  }

  /** The table with every active row whose key is not wanted switched off. */
  ghost function Retired(table: Table, wanted: set<string>): Table {
    map id | id in table :: if table[id].active && Key(id) !in wanted then Retire(table[id]) else table[id]
  }

  lemma {:induction false} RemovedAt(table: Table, listed: seq<Sub>, wanted: set<string>, id: RowId)
    requires forall i :: 0 <= i < |listed| ==> RowOf(listed[i]) in table && table[RowOf(listed[i])] == listed[i]
    ensures Written(Removed(listed, wanted), id) ==
            if HasRow(listed, id) && Key(id) !in wanted && id in table then Some(Retire(table[id])) else None
    ensures HasRow(listed, id) ==> id in table
  {
    if listed != [] {
      var before, s := listed[..|listed| - 1], listed[|listed| - 1];
      RemovedAt(table, before, wanted, id);
      assert listed[|listed| - 1] == s && RowOf(s) in table;
      Seqs.Snoc(Removed(before, wanted), Removed(before, wanted), Retire(s));
    }
  }

  /** The table after a refresh: unwanted rows off, kept rows written, then dropped rows. */
  ghost function After(table: Table, keep: seq<Sub>, dropped: seq<Sub>): Table {
    Upserted(Upserted(Retired(table, Keys(keep + dropped)), keep), dropped)
  }

  /** What a refresh leaves under an id: a dropped row, else a kept one, else the row as it was, switched off if it was
      active under a key that is no longer wanted. */
  lemma RowAfter(table: Table, keep: seq<Sub>, dropped: seq<Sub>, id: RowId)
    ensures var row := At(After(table, keep, dropped), id);
            if HasRow(dropped, id) then row.Some? && row.value in dropped
            else if HasRow(keep, id) then row.Some? && row.value in keep
            else if id in table && table[id].active && Key(id) !in Keys(keep + dropped) then
              row.Some? && SwitchedOff(table[id], row.value, "refresh_drop")
            else row == At(table, id)
  {
    var retired := Retired(table, Keys(keep + dropped));
    UpsertAt(retired, keep, id);
    UpsertAt(Upserted(retired, keep), dropped, id);
    assert At(retired, id).Some? <==> id in table;
  }

  /** Writing the removed rows last comes to the same. */
  method Write(table: Table, ghost listed: seq<Sub>, keep: seq<Sub>, dropped: seq<Sub>, removed: seq<Sub>)
    returns (table': Table)
    requires Lists(table, listed) && removed == Removed(listed, Keys(keep + dropped))
    ensures table' == After(table, keep, dropped)
  {
    var updates := keep + dropped + removed;
    table' := table;
    for i := 0 to |updates|
      invariant table' == Upserted(table, updates[..i])
    {
      Seqs.Prefix(updates, i);
      table' := table'[RowOf(updates[i]) := updates[i]];
    }
    Seqs.All(updates);
    RemovedLast(table, listed, keep, dropped);
  }

  lemma RemovedLast(table: Table, listed: seq<Sub>, keep: seq<Sub>, dropped: seq<Sub>)
    requires Lists(table, listed)
    ensures Upserted(table, keep + dropped + Removed(listed, Keys(keep + dropped))) == After(table, keep, dropped)
  {
    var wanted := Keys(keep + dropped);
    var removed := Removed(listed, wanted);
    UpsertConcat(table, keep + dropped, removed);
    UpsertConcat(Retired(table, wanted), keep, dropped);
    forall id
      ensures At(Upserted(Upserted(table, keep + dropped), removed), id) ==
              At(Upserted(Retired(table, wanted), keep + dropped), id) {
      UpsertAt(Upserted(table, keep + dropped), removed, id);
      UpsertAt(table, keep + dropped, id);
      UpsertAt(Retired(table, wanted), keep + dropped, id);
      RemovedAt(table, listed, wanted, id);
      RowHasKey(keep + dropped, id);
    }
    SameTable(Upserted(Upserted(table, keep + dropped), removed), Upserted(Retired(table, wanted), keep + dropped));
  }

  lemma SameTable(a: Table, b: Table)
    requires forall id :: At(a, id) == At(b, id)
    ensures a == b
  {
    forall id ensures id in a <==> id in b {
      assert At(a, id) == At(b, id);
    }
    forall id | id in a ensures a[id] == b[id] {
      assert At(a, id) == At(b, id);
    }
  }

  // ---- The refresh ----

  function Activated(subs: seq<Sub>): (active: seq<Sub>)
    ensures |active| == |subs| && forall i :: 0 <= i < |subs| ==> active[i] == subs[i].(active := true)
  {
    seq(|subs|, i requires 0 <= i < |subs| => subs[i].(active := true))
  }

  /** What the refresh wants: the base, what is new among additions and live ones, and every derivative. */
  function Wanted(base: seq<Sub>, additions: seq<Sub>, live: seq<Sub>, derivatives: seq<Sub>): seq<Sub> {
    Activated(Unique(Unique(base, additions), live) + derivatives)
  }

  lemma {:induction false} ActivatedKeepsIdentity(subs: seq<Sub>, id: RowId)
    ensures Keys(Activated(subs)) == Keys(subs) && (HasRow(Activated(subs), id) <==> HasRow(subs, id))
    ensures Distinct(Activated(subs)) <==> Distinct(subs)
  {
    if subs != [] {
      var before, s := subs[..|subs| - 1], subs[|subs| - 1];
      ActivatedKeepsIdentity(before, id);
      Seqs.Last(subs);
      assert Activated(subs) == Activated(before) + [s.(active := true)];
      Snoc(Activated(before), s.(active := true), id);
    }
  }

  /** The wanted keys, and when they are distinct. */
  lemma WantedKeys(base: seq<Sub>, additions: seq<Sub>, live: seq<Sub>, derivatives: seq<Sub>)
    ensures var wanted := Wanted(base, additions, live, derivatives);
            && Keys(wanted) == Keys(base) + Keys(additions) + Keys(live) + Keys(derivatives)
            && (Distinct(wanted) <==>
                  Distinct(base) && Distinct(derivatives) && Keys(base) + Keys(additions) + Keys(live) !! Keys(derivatives))
  {
    var first := Unique(base, additions);
    UniqueKeys(base, additions);
    UniqueKeys(first, live);
    Concat(Unique(first, live), derivatives, RowId("", "", ""));
    ActivatedKeepsIdentity(Unique(first, live) + derivatives, RowId("", "", ""));
  }

  /** `refreshSubscriptions` from the point where its sources are loaded. */
  method Refresh(table: Table, listed: seq<Sub>, base: seq<Sub>, additions: seq<Sub>, live: seq<Sub>,
                 derivatives: seq<Sub>, maxConnections: int, maxTokens: int)
    returns (keep: seq<Sub>, table': Table)
    requires Lists(table, listed)
    ensures var wanted, capacity := Wanted(base, additions, live, derivatives), maxConnections * maxTokens;
            keep == KeptOf(wanted, capacity) && table' == After(table, keep, LeftOut(wanted, capacity))
    ensures var wanted := Wanted(base, additions, live, derivatives);
            FirstAreKept(wanted, keep, LeftOut(wanted, maxConnections * maxTokens))
  {
    var desired := AppendUnique(base, additions);
    desired := AppendUnique(desired, live);
    desired := desired + derivatives;
    var wanted := Activate(desired);
    var dropped;
    keep, dropped := EnforceCapacity(wanted, maxConnections, maxTokens);
    var removed := DiffRemoved(listed, keep + dropped);
    table' := Write(table, listed, keep, dropped, removed);
  }

  method Activate(subs: seq<Sub>) returns (active: seq<Sub>)
    ensures active == Activated(subs)
  {
    active := [];
    for i := 0 to |subs|
      invariant |active| == i && forall j :: 0 <= j < i ==> active[j] == subs[j].(active := true)
    {
      active := active + [subs[i].(active := true)];
    }
  }

  // ---- Which rows are active afterwards ----

  /** The row lies on both sides of the capacity in the stable order. */
  ghost predicate Straddles(wanted: seq<Sub>, capacity: int, id: RowId) {
    !AllFit(wanted, capacity) && HasRow(StableSort(wanted)[..capacity], id) && HasRow(StableSort(wanted)[capacity..], id)
  }

  /** An active row of the table goes by a wanted key without being wanted itself. */
  ghost predicate Alias(table: Table, wanted: seq<Sub>, id: RowId) {
    ActiveIn(table, id) && Key(id) in Keys(wanted) && !HasRow(wanted, id)
  }

  /** A row is active afterwards exactly when it is kept and not on the other side too, or an alias. */
  lemma ActiveAfterIff(table: Table, wanted: seq<Sub>, capacity: int, id: RowId)
    requires AllActive(wanted, true)
    ensures ActiveIn(After(table, KeptOf(wanted, capacity), LeftOut(wanted, capacity)), id) <==>
            (HasRow(KeptOf(wanted, capacity), id) && !Straddles(wanted, capacity, id)) || Alias(table, wanted, id)
    ensures Straddles(wanted, capacity, id) ==> HasRow(KeptOf(wanted, capacity), id)
    ensures Alias(table, wanted, id) ==> !HasRow(KeptOf(wanted, capacity), id)
  {
    var keep, dropped := KeptOf(wanted, capacity), LeftOut(wanted, capacity);
    var retired := Retired(table, Keys(keep + dropped));
    CapacitySplits(wanted, capacity, id);
    KeptAreActive(wanted, capacity);
    if !AllFit(wanted, capacity) {
      DropKeepsIdentity(StableSort(wanted)[capacity..], id);
    }
    UpsertAt(retired, keep, id);
    UpsertAt(Upserted(retired, keep), dropped, id);
    RowHasKey(wanted, id);
    AfterFlag(table, keep, dropped, id);
  }

  lemma KeptAreActive(wanted: seq<Sub>, capacity: int)
    requires AllActive(wanted, true)
    ensures AllActive(KeptOf(wanted, capacity), true)
  {
    if !AllFit(wanted, capacity) {
      StableSortSorts(wanted, wanted[0]);
      forall i | 0 <= i < capacity ensures StableSort(wanted)[i].active {
        assert StableSort(wanted)[i] in multiset(wanted);
      }
    }
  }

  lemma AfterFlag(table: Table, keep: seq<Sub>, dropped: seq<Sub>, id: RowId)
    requires AllActive(keep, true) && AllActive(dropped, false)
    ensures ActiveIn(After(table, keep, dropped), id) <==>
            !HasRow(dropped, id) && (HasRow(keep, id) || (ActiveIn(table, id) && Key(id) in Keys(keep + dropped)))
  {
    var retired := Retired(table, Keys(keep + dropped));
    UpsertAt(retired, keep, id);
    UpsertAt(Upserted(retired, keep), dropped, id);
    assert At(After(table, keep, dropped), id).Some? <==> id in After(table, keep, dropped);
    assert At(retired, id).Some? <==> id in table;
  }

  /** Afterwards the active rows are the kept ones exactly when no row lies on both sides of the capacity and no
      active row goes by a wanted key without being wanted. */
  lemma ActiveAreKeptIff(table: Table, wanted: seq<Sub>, capacity: int)
    requires AllActive(wanted, true)
    ensures (forall id :: ActiveIn(After(table, KeptOf(wanted, capacity), LeftOut(wanted, capacity)), id) <==>
                          HasRow(KeptOf(wanted, capacity), id)) <==>
            (forall id :: !Straddles(wanted, capacity, id)) && (forall id :: !Alias(table, wanted, id))
  {
    var keep := KeptOf(wanted, capacity);
    var after := After(table, keep, LeftOut(wanted, capacity));
    forall id
      ensures (ActiveIn(after, id) <==> HasRow(keep, id)) <==> !Straddles(wanted, capacity, id) && !Alias(table, wanted, id) {
      ActiveAfterIff(table, wanted, capacity, id);
    }
    if forall id :: ActiveIn(after, id) <==> HasRow(keep, id) {
      forall id ensures !Straddles(wanted, capacity, id) && !Alias(table, wanted, id) {
        assert ActiveIn(after, id) <==> HasRow(keep, id);
      }
    }
  }

  /** With distinct wanted keys and no alias the active rows are the kept ones. */
  lemma DistinctKeptAreActive(table: Table, wanted: seq<Sub>, capacity: int, id: RowId)
    requires AllActive(wanted, true) && Distinct(wanted) && !Alias(table, wanted, id)
    ensures ActiveIn(After(table, KeptOf(wanted, capacity), LeftOut(wanted, capacity)), id) <==>
            HasRow(KeptOf(wanted, capacity), id)
  {
    ActiveAfterIff(table, wanted, capacity, id);
    if !AllFit(wanted, capacity) {
      var ordered := StableSort(wanted);
      SortKeepsRows(wanted, id);
      Seqs.Cut(ordered, capacity);
      Concat(ordered[..capacity], ordered[capacity..], id);
      RowHasKey(ordered[..capacity], id);
      RowHasKey(ordered[capacity..], id);
    }
  }

  /** A symbol listed twice in the base, with room for one: it is kept and ends up switched off. */
  lemma DuplicateSwitchesOff(s: Sub, table: Table)
    ensures var wanted := Wanted([s, s], [], [], []);
            && HasRow(KeptOf(wanted, 1), RowOf(s))
            && !ActiveIn(After(table, KeptOf(wanted, 1), LeftOut(wanted, 1)), RowOf(s))
  {
    var on := s.(active := true);
    var wanted := Wanted([s, s], [], [], []);
    assert Unique([s, s], []) == [s, s] && [s, s] + [] == [s, s];
    assert wanted == [on, on];
    TwinsSort(on);
    ActiveAfterIff(table, wanted, 1, RowOf(s));
    assert [on, on][..1] == [on] && [on, on][1..] == [on];
    RowHasKey([on], RowOf(s));
    assert HasRow([on], RowOf(s)) && HasRow(wanted, RowOf(s));
  }

  lemma TwinsSort(s: Sub)
    ensures StableSort([s, s]) == [s, s]
  {
    assert [s, s][..1] == [s] && [s][..0] == [];
    StringLessOrder(s.symbol, s.symbol, s.symbol);
    assert Sort([s], Before) == [s];
    assert Sort([s, s], Before) == Insert([s], s, Before);
  }

  /** The same contract stored in lower case stays on beside the kept one. */
  lemma AliasStaysOn()
    ensures var s, low := Sub("NSE", "1", "LTP", "A", 1, true, ""), Sub("nse", "1", "LTP", "A", 1, true, "");
            var wanted, table := Wanted([s], [], [], []), map[RowOf(low) := low];
            && KeptOf(wanted, 1) == [s] && !HasRow([s], RowOf(low))
            && ActiveIn(After(table, KeptOf(wanted, 1), LeftOut(wanted, 1)), RowOf(low))
  {
    var s, low := Sub("NSE", "1", "LTP", "A", 1, true, ""), Sub("nse", "1", "LTP", "A", 1, true, "");
    SpelledAlike();
    OneWanted(s);
    ActiveAfterIff(map[RowOf(low) := low], [s], 1, RowOf(low));
  }

  lemma SpelledAlike()
    ensures Key(RowId("nse", "1", "LTP")) == Key(RowId("NSE", "1", "LTP"))
  {
    assert Upper("nse") == "NSE" == Upper("NSE");
  }

  lemma OneWanted(s: Sub)
    requires s.active
    ensures Wanted([s], [], [], []) == [s] && Keys([s]) == {Key(RowOf(s))}
    ensures forall id :: HasRow([s], id) <==> id == RowOf(s)
  {
    assert [s] + [] == [s] && [s][..0] == [];
  }
}
