/** When putting flushed states back after a failed write leaves no trace in the instrument state cache of
    cmd/collector/metrics.go: a matter of observation times alone. */
module RequeueOrder {
  import opened Options
  import opened StateMerge
  import Seqs
  import Text

  // ---- One key ----

  /** The usable updates of a key, normalised, in the order they come in. */
  ghost function Of(states: seq<State>, key: string): seq<State> {
    if states == [] then []
    else
      var s, before := Normalize(states[|states| - 1]), Of(states[..|states| - 1], key);
      if Usable(s) && Key(s) == key then before + [s] else before
  }

  /** A state after some updates. */
  ghost function Onto(s: State, updates: seq<State>): State {
    if updates == [] then s else Merge(Onto(s, updates[..|updates| - 1]), updates[|updates| - 1])
  }

  /** What updates alone amount to. */
  ghost function Since(updates: seq<State>): State
    requires updates != []
  {
    Onto(updates[0], updates[1..])
  }

  lemma OntoSnoc(s: State, updates: seq<State>, u: State)
    ensures Onto(s, updates + [u]) == Merge(Onto(s, updates), u)
  {
    Seqs.Snoc(updates, updates, u);
  }

  lemma SinceSnoc(updates: seq<State>, u: State)
    requires updates != []
    ensures Since(updates + [u]) == Merge(Since(updates), u)
  {
    assert (updates + [u])[1..] == updates[1..] + [u];
    OntoSnoc(updates[0], updates[1..], u);
  }

  lemma {:induction false} OntoConcat(s: State, a: seq<State>, b: seq<State>)
    ensures Onto(s, a + b) == Onto(Onto(s, a), b)
  {
    if b == [] {
      assert a + b == a;
    } else {
      OntoConcat(s, a, b[..|b| - 1]);
      Seqs.Last(b);
      Seqs.Snoc(a, b[..|b| - 1], b[|b| - 1]);
      OntoSnoc(s, a + b[..|b| - 1], b[|b| - 1]);
    }
  }

  function At(entries: Entries, key: string): Option<State> {
    if key in entries then Some(entries[key]) else None
  }

  lemma SameEverywhere(a: Entries, b: Entries)
    requires forall key :: At(a, key) == At(b, key)
    ensures a == b
  {
    forall key ensures key in a <==> key in b {
      assert At(a, key) == At(b, key);
    }
    forall key | key in a ensures a[key] == b[key] {
      assert At(a, key) == At(b, key);
    }
  }

  ghost function OntoAny(s: Option<State>, updates: seq<State>): Option<State> {
    if updates == [] then s else Some(if s.Some? then Onto(s.value, updates) else Since(updates))
  }

  lemma OntoAnySnoc(s: Option<State>, updates: seq<State>, u: State)
    ensures OntoAny(s, updates + [u]) == Some(if OntoAny(s, updates).Some? then Merge(OntoAny(s, updates).value, u) else u)
  {
    if s.Some? {
      OntoSnoc(s.value, updates, u);
    } else if updates != [] {
      SinceSnoc(updates, u);
    } else {
      assert ([] + [u])[1..] == [];
    }
  }

  /** The cache holds, under each key, the fold of that key's updates. */
  lemma {:induction false} UpdatedAt(entries: Entries, states: seq<State>, key: string)
    ensures At(UpdatedAll(entries, states), key) == OntoAny(At(entries, key), Of(states, key))
  {
    if states != [] {
      var earlier, s := states[..|states| - 1], Normalize(states[|states| - 1]);
      UpdatedAt(entries, earlier, key);
      if Usable(s) && Key(s) == key {
        OntoAnySnoc(At(entries, key), Of(earlier, key), s);
      }
    }
  }

  // ---- The order of observation ----

  ghost function Times(updates: seq<State>): (ts: seq<int>)
    ensures |ts| == |updates| && forall i :: 0 <= i < |ts| ==> ts[i] == updates[i].lastSeen
  {
    seq(|updates|, i requires 0 <= i < |updates| => updates[i].lastSeen)
  }

  ghost predicate NonDecreasing(ts: seq<int>) {
    forall i, j :: 0 <= i <= j < |ts| ==> ts[i] <= ts[j]
  }

  ghost predicate Rising(f: int, ts: seq<int>) {
    NonDecreasing(ts) && (ts != [] ==> f <= ts[0])
  }

  ghost predicate Falling(f: int, ts: seq<int>) {
    ts != [] && ts[0] < f && forall i :: 1 <= i < |ts| ==> ts[i] < ts[0]
  }

  /** A state seen at `f` may be put back after updates seen at `ts`: they came in order and got past it, or
      all of them were late and the first is the latest. */
  ghost predicate InOrder(f: int, ts: seq<int>) {
    ts == [] || (Rising(f, ts) && f < ts[|ts| - 1]) || Falling(f, ts)
  }

  lemma FrontTimes(updates: seq<State>)
    requires updates != []
    ensures Times(updates[..|updates| - 1]) == Times(updates)[..|updates| - 1]
    ensures Times(updates)[|updates| - 1] == updates[|updates| - 1].lastSeen
  {
  }

  /** A newer update goes over the state as it does over the updates since. */
  lemma NewerOver(s: State, since: State, u: State)
    requires since.lastSeen <= u.lastSeen
    ensures Merge(since.(fields := s.fields + since.fields), u) == Merge(since, u).(fields := s.fields + Merge(since, u).fields)
  {
    assert s.fields + since.fields + u.fields == s.fields + (since.fields + u.fields);
  }

  /** A late update goes under the state as it does under the updates since. */
  lemma OlderUnder(s: State, since: State, u: State)
    requires u.lastSeen < since.lastSeen && u.lastSeen < s.lastSeen
    ensures Merge(s.(fields := since.fields + s.fields), u) == s.(fields := Merge(since, u).fields + s.fields)
  {
    assert u.fields + (since.fields + s.fields) == u.fields + since.fields + s.fields;
  }

  lemma {:induction false} RisingFold(s: State, updates: seq<State>)
    requires updates != [] && Rising(s.lastSeen, Times(updates))
    ensures Since(updates).lastSeen == updates[|updates| - 1].lastSeen
    ensures Onto(s, updates) == Since(updates).(fields := s.fields + Since(updates).fields)
  {
    var earlier, u := updates[..|updates| - 1], updates[|updates| - 1];
    Seqs.Last(updates);
    FrontTimes(updates);
    if earlier != [] {
      FrontTimes(earlier);
      RisingFold(s, earlier);
      SinceSnoc(earlier, u);
      NewerOver(s, Since(earlier), u);
    }
  }

  lemma {:induction false} FallingFold(s: State, updates: seq<State>)
    requires Falling(s.lastSeen, Times(updates))
    ensures Since(updates).lastSeen == updates[0].lastSeen
    ensures Onto(s, updates) == s.(fields := Since(updates).fields + s.fields)
  {
    var earlier, u := updates[..|updates| - 1], updates[|updates| - 1];
    Seqs.Last(updates);
    FrontTimes(updates);
    if earlier != [] {
      FallingFold(s, earlier);
      SinceSnoc(earlier, u);
      OlderUnder(s, Since(earlier), u);
    }
  }

  lemma OrderSuffices(s: State, updates: seq<State>)
    requires updates != [] && InOrder(s.lastSeen, Times(updates))
    ensures Onto(s, updates) == Merge(Since(updates), s)
  {
    if Falling(s.lastSeen, Times(updates)) {
      FallingFold(s, updates);
    } else {
      RisingFold(s, updates);
    }
  }

  // ---- Fields that tell the two apart when the order is wrong ----

  ghost function Highest(f: int, ts: seq<int>): int {
    if ts == [] then f
    else
      var before, t := Highest(f, ts[..|ts| - 1]), ts[|ts| - 1];
      if t < before then before else t
  }

  lemma {:induction false} HighestBounds(f: int, ts: seq<int>)
    ensures f <= Highest(f, ts) && forall i :: 0 <= i < |ts| ==> ts[i] <= Highest(f, ts)
    ensures Highest(f, ts) == f || exists i :: 0 <= i < |ts| && ts[i] == Highest(f, ts)
  {
    if ts != [] {
      HighestBounds(f, ts[..|ts| - 1]);
    }
  }

  ghost predicate Blank(updates: seq<State>) {
    forall i :: 0 <= i < |updates| ==> updates[i].fields == map[]
  }

  lemma {:induction false} BlankFold(s: State, updates: seq<State>)
    requires Blank(updates)
    ensures Onto(s, updates).fields == s.fields
    ensures Onto(s, updates).lastSeen == Highest(s.lastSeen, Times(updates))
  {
    if updates != [] {
      var earlier := updates[..|updates| - 1];
      BlankFold(s, earlier);
      assert Times(updates)[..|earlier|] == Times(earlier);
      assert map[] + s.fields == s.fields && s.fields + map[] == s.fields;
    }
  }

  /** One update among blank ones wins over the state unless something later was seen before it. */
  lemma OneMark(s: State, before: seq<State>, u: State, after: seq<State>)
    requires Blank(before) && Blank(after)
    ensures Onto(s, before + [u] + after).fields ==
            if u.lastSeen < Highest(s.lastSeen, Times(before)) then u.fields + s.fields else s.fields + u.fields
  {
    var marked := before + [u];
    OntoConcat(s, marked, after);
    OntoSnoc(s, before, u);
    BlankFold(s, before);
    BlankFold(Onto(s, marked), after);
  }

  lemma {:induction false} LatestSeen(s: State, updates: seq<State>)
    ensures Onto(s, updates).lastSeen == Highest(s.lastSeen, Times(updates))
  {
    if updates != [] {
      LatestSeen(s, updates[..|updates| - 1]);
      assert Times(updates)[..|updates| - 1] == Times(updates[..|updates| - 1]);
    }
  }

  /** Updates alone are updates of their first with nothing in it. */
  lemma SinceBlank(updates: seq<State>)
    requires updates != []
    ensures Since(updates) == Onto(updates[0].(fields := map[]), updates)
  {
    var first := updates[0].(fields := map[]);
    assert updates == [updates[0]] + updates[1..];
    OntoConcat(first, [updates[0]], updates[1..]);
    OntoSnoc(first, [], updates[0]);
    assert [] + [updates[0]] == [updates[0]];
    assert map[] + updates[0].fields == updates[0].fields;
  }

  /** The same observations with other fields. */
  ghost predicate SameSeen(a: State, b: State) {
    a.exchange == b.exchange && a.token == b.token && a.lastSeen == b.lastSeen
  }

  ghost predicate AllSameSeen(a: seq<State>, b: seq<State>) {
    |a| == |b| && forall i :: 0 <= i < |a| ==> SameSeen(a[i], b[i])
  }

  ghost function Bare(s: State): State {
    s.(fields := map[])
  }

  ghost function Priced(s: State, price: real): State {
    s.(fields := map[LastPrice := Number(price)])
  }

  /** The updates with a price in one of them only. */
  ghost function Marked(updates: seq<State>, i: nat): (marked: seq<State>)
    requires i < |updates|
    ensures AllSameSeen(marked, updates)
  {
    seq(|updates|, k requires 0 <= k < |updates| => if k == i then Priced(updates[k], 2.0) else Bare(updates[k]))
  }

  lemma MarkedParts(updates: seq<State>, i: nat)
    requires i < |updates|
    ensures var m := Marked(updates, i);
            && m == m[..i] + [Priced(updates[i], 2.0)] + m[i + 1..] && Blank(m[..i]) && Blank(m[i + 1..])
            && Times(m) == Times(updates) && Times(m[..i]) == Times(updates)[..i]
  {
  }

  /** The price of a state. */
  ghost function Price(s: State): Option<Value> {
    if LastPrice in s.fields then Some(s.fields[LastPrice]) else None
  }

  /** The state's price against one update's, with and without the flush. */
  lemma MarkOutcome(s: State, updates: seq<State>, i: nat)
    requires i < |updates|
    ensures var old_, m, ts := Priced(s, 1.0), Marked(updates, i), Times(updates);
            && Price(Onto(old_, m)) == Some(Number(if ts[i] < Highest(s.lastSeen, ts[..i]) then 1.0 else 2.0))
            && Price(Merge(Since(m), old_)) == Some(Number(if s.lastSeen < Highest(ts[0], ts) then 2.0 else 1.0))
  {
    var m := Marked(updates, i);
    MarkedParts(updates, i);
    OneMark(Priced(s, 1.0), m[..i], Priced(updates[i], 2.0), m[i + 1..]);
    SinceBlank(m);
    OneMark(Bare(m[0]), m[..i], Priced(updates[i], 2.0), m[i + 1..]);
    LatestSeen(Bare(m[0]), m);
  }

  /** The first update that something later was seen before. */
  lemma {:induction false} FirstLate(f: int, ts: seq<int>) returns (i: nat)
    requires !Rising(f, ts)
    ensures i < |ts| && ts[i] < Highest(f, ts[..i])
  {
    var earlier := ts[..|ts| - 1];
    if Rising(f, earlier) {
      i := |ts| - 1;
      HighestBounds(f, earlier);
    } else {
      i := FirstLate(f, earlier);
      assert earlier[..i] == ts[..i];
    }
  }

  /** The first update that is not older than the first of all. */
  lemma FirstNotOlder(ts: seq<int>) returns (i: nat)
    requires ts != [] && exists k :: 1 <= k < |ts| && ts[k] >= ts[0]
    ensures 1 <= i < |ts| && ts[i] >= ts[0] && forall k :: 1 <= k < i ==> ts[k] < ts[0]
  {
    i := 1;
    while ts[i] < ts[0]
      invariant 1 <= i < |ts|
      invariant forall k :: 1 <= k < i ==> ts[k] < ts[0]
      decreases |ts| - i
    {
      i := i + 1;
    }
  }

  lemma NotLate(f: int, ts: seq<int>, i: nat)
    requires i < |ts| && ts[i] >= f >= Highest(ts[0], ts)
    ensures ts[i] >= Highest(f, ts[..i])
  {
    HighestBounds(ts[0], ts);
    HighestBounds(f, ts[..i]);
  }

  /** Out of order, some choice of fields shows the flush. */
  lemma OrderNeeded(s0: State, updates0: seq<State>) returns (s: State, updates: seq<State>)
    requires !InOrder(s0.lastSeen, Times(updates0))
    ensures SameSeen(s, s0) && AllSameSeen(updates, updates0)
    ensures Price(Onto(s, updates)) != Price(Merge(Since(updates), s))
  {
    var f, ts := s0.lastSeen, Times(updates0);
    HighestBounds(ts[0], ts);
    if f < Highest(ts[0], ts) {
      var i := FirstLate(f, ts);
      s, updates := Priced(s0, 1.0), Marked(updates0, i);
      MarkOutcome(s0, updates0, i);
    } else if i :| 0 <= i < |ts| && ts[i] >= f {
      s, updates := Priced(s0, 1.0), Marked(updates0, i);
      NotLate(f, ts, i);
      MarkOutcome(s0, updates0, i);
    } else {
      s, updates := TwoLate(s0, updates0);
    }
  }

  /** All updates late, and some not older than the first: of those two prices the flush prefers the other. */
  lemma TwoLate(s0: State, updates0: seq<State>) returns (s: State, updates: seq<State>)
    requires !InOrder(s0.lastSeen, Times(updates0)) && forall i :: 0 <= i < |updates0| ==> Times(updates0)[i] < s0.lastSeen
    ensures SameSeen(s, s0) && AllSameSeen(updates, updates0)
    ensures Price(Onto(s, updates)) != Price(Merge(Since(updates), s))
  {
    var ts := Times(updates0);
    var i := FirstNotOlder(ts);
    var m := Marked(updates0, i);
    var first, u, between, after := Priced(updates0[0], 1.0), Priced(updates0[i], 2.0), m[1..i], m[i + 1..];
    MarkedTail(updates0, i);
    s, updates := Bare(s0), [first] + (between + [u] + after);
    SameSeenHead(m, updates0, first);
    NeverPrefersFirst(s, first, between, u, after);
    RequeuePrefersSecond(s, first, between, u, after);
  }

  lemma MarkedTail(updates: seq<State>, i: nat)
    requires 1 <= i < |updates|
    ensures var m := Marked(updates, i);
            && m[1..] == m[1..i] + [Priced(updates[i], 2.0)] + m[i + 1..] && Blank(m[1..i]) && Blank(m[i + 1..])
            && forall k :: 0 <= k < i - 1 ==> m[1..i][k].lastSeen == updates[k + 1].lastSeen
  {
  }

  lemma SameSeenHead(m: seq<State>, updates: seq<State>, first: State)
    requires AllSameSeen(m, updates) && updates != [] && SameSeen(first, updates[0])
    ensures AllSameSeen([first] + m[1..], updates)
  {
  }

  lemma NeverPrefersFirst(s: State, first: State, between: seq<State>, u: State, after: seq<State>)
    requires s.fields == map[] && Blank(between) && Blank(after)
    requires first.fields == map[LastPrice := Number(1.0)] && u.fields == map[LastPrice := Number(2.0)]
    requires first.lastSeen < s.lastSeen && u.lastSeen < s.lastSeen
    ensures Price(Onto(s, [first] + (between + [u] + after))) == Some(Number(1.0))
  {
    var start := Merge(s, first);
    OntoConcat(s, [first], between + [u] + after);
    OntoSnoc(s, [], first);
    assert [] + [first] == [first];
    OneMark(start, between, u, after);
    HighestBounds(start.lastSeen, Times(between));
  }

  lemma RequeuePrefersSecond(s: State, first: State, between: seq<State>, u: State, after: seq<State>)
    requires s.fields == map[] && Blank(between) && Blank(after)
    requires first.fields == map[LastPrice := Number(1.0)] && u.fields == map[LastPrice := Number(2.0)]
    requires first.lastSeen <= u.lastSeen && forall k :: 0 <= k < |between| ==> between[k].lastSeen < first.lastSeen
    ensures Price(Merge(Since([first] + (between + [u] + after)), s)) == Some(Number(2.0))
  {
    var rest := between + [u] + after;
    assert ([first] + rest)[1..] == rest;
    OneMark(first, between, u, after);
    HighestBounds(first.lastSeen, Times(between));
  }

  // ---- A whole cycle: put-backs with updates in between ----

  ghost predicate Concerns(s: State, key: string) {
    Usable(Normalize(s)) && Key(Normalize(s)) == key
  }

  ghost predicate IsBack(steps: seq<Step>, key: string) {
    steps != [] &&
    var last := steps[|steps| - 1];
    (last.PutBack? && Key(last.state) == key) || IsBack(steps[..|steps| - 1], key)
  }

  /** The updates of a key that arrive before its own put-back, normalised. */
  ghost function Early(steps: seq<Step>, key: string): seq<State> {
    if steps == [] then []
    else
      var front, last := steps[..|steps| - 1], steps[|steps| - 1];
      if last.Arrival? && Concerns(last.state, key) && !IsBack(front, key)
      then Early(front, key) + [Normalize(last.state)] else Early(front, key)
  }

  /** Those that arrive after it. */
  ghost function Late(steps: seq<Step>, key: string): seq<State> {
    if steps == [] then []
    else
      var front, last := steps[..|steps| - 1], steps[|steps| - 1];
      if last.Arrival? && Concerns(last.state, key) && IsBack(front, key)
      then Late(front, key) + [Normalize(last.state)] else Late(front, key)
  }

  lemma {:induction false} EarlyThenLate(steps: seq<Step>, key: string)
    ensures Of(Arrivals(steps), key) == Early(steps, key) + Late(steps, key)
    ensures !IsBack(steps, key) ==> Late(steps, key) == []
  {
    if steps != [] {
      var front, last := steps[..|steps| - 1], steps[|steps| - 1];
      EarlyThenLate(front, key);
      OfSnoc(Arrivals(front), last.state, key);
      Seqs.Snoc(Early(front, key), Late(front, key), Normalize(last.state));
      Seqs.FromStart(Early(front, key));
      Seqs.FromStart(Early(front, key) + [Normalize(last.state)]);
    }
  }

  /** A state put back over the updates that came before it. */
  ghost function Over(early: seq<State>, s: State): State {
    if early == [] then s else Merge(Since(early), s)
  }

  /** What the steps leave under a key. */
  ghost function Left(flushed: Entries, steps: seq<Step>, key: string): Option<State> {
    if key in flushed then Some(Onto(Over(Early(steps, key), flushed[key]), Late(steps, key)))
    else OntoAny(None, Early(steps, key))
  }

  lemma PutAt(entries: Entries, s: State, key: string)
    requires IsNormal(s)
    ensures At(Updated(entries, s), key) ==
            if Key(s) != key then At(entries, key)
            else Some(if At(entries, key).Some? then Merge(At(entries, key).value, s) else s)
  {
    UpdatedNormal(entries, s);
  }

  lemma UpdateAt(entries: Entries, s: State, key: string)
    ensures At(Updated(entries, s), key) ==
            if !Concerns(s, key) then At(entries, key)
            else Some(if At(entries, key).Some? then Merge(At(entries, key).value, Normalize(s)) else Normalize(s))
  {
  }

  /** One more put-back. */
  lemma PutBackLeaves(flushed: Entries, front: seq<Step>, last: Step, key: string)
    requires last.PutBack? && IsNormal(last.state) && Key(last.state) in flushed && flushed[Key(last.state)] == last.state
    requires IsBack(front, key) <==> key in flushed - {Key(last.state)}
    requires At(UpdatedAll(map[], States(front)), key) == Left(flushed - {Key(last.state)}, front, key)
    ensures IsBack(front + [last], key) <==> key in flushed
    ensures At(UpdatedAll(map[], States(front) + [last.state]), key) == Left(flushed, front + [last], key)
  {
    Seqs.Snoc(front, front, last);
    UpdatedSnoc(map[], States(front), last.state);
    PutAt(UpdatedAll(map[], States(front)), last.state, key);
    EarlyThenLate(front, key);
  }

  /** One more update. */
  lemma ArrivalLeaves(flushed: Entries, front: seq<Step>, last: Step, key: string)
    requires last.Arrival? && (IsBack(front, key) <==> key in flushed)
    requires At(UpdatedAll(map[], States(front)), key) == Left(flushed, front, key)
    ensures IsBack(front + [last], key) <==> key in flushed
    ensures At(UpdatedAll(map[], States(front) + [last.state]), key) == Left(flushed, front + [last], key)
  {
    Seqs.Snoc(front, front, last);
    UpdatedSnoc(map[], States(front), last.state);
    UpdateAt(UpdatedAll(map[], States(front)), last.state, key);
    if Concerns(last.state, key) {
      if key in flushed {
        OntoSnoc(Over(Early(front, key), flushed[key]), Late(front, key), Normalize(last.state));
      } else {
        OntoAnySnoc(None, Early(front, key), Normalize(last.state));
      }
    }
  }

  lemma {:induction false} InterleavedAt(flushed: Entries, steps: seq<Step>, key: string)
    requires AllNormal(flushed) && Lists(PutBacks(steps), flushed)
    ensures IsBack(steps, key) <==> key in flushed
    ensures At(UpdatedAll(map[], States(steps)), key) == Left(flushed, steps, key)
  {
    if steps != [] {
      var front, last := steps[..|steps| - 1], steps[|steps| - 1];
      Seqs.Last(steps);
      if last.PutBack? {
        ListsLast(PutBacks(front), last.state, flushed);
        InterleavedAt(flushed - {Key(last.state)}, front, key);
        PutBackLeaves(flushed, front, last, key);
      } else {
        InterleavedAt(flushed, front, key);
        ArrivalLeaves(flushed, front, last, key);
      }
    }
  }

  /** What would be there without the flush. */
  lemma NeverFlushedAt(flushed: Entries, steps: seq<Step>, key: string)
    ensures At(UpdatedAll(flushed, Arrivals(steps)), key) ==
            if key in flushed then Some(Onto(Onto(flushed[key], Early(steps, key)), Late(steps, key)))
            else OntoAny(None, Early(steps, key) + Late(steps, key))
  {
    UpdatedAt(flushed, Arrivals(steps), key);
    EarlyThenLate(steps, key);
    if key in flushed {
      OntoConcat(flushed[key], Early(steps, key), Late(steps, key));
    }
  }

  /** Every flushed key may be put back after those of its updates that arrive before that. */
  ghost predicate RequeueSafe(flushed: Entries, steps: seq<Step>) {
    forall key :: key in flushed ==> InOrder(flushed[key].lastSeen, Times(Early(steps, key)))
  }

  /** The cache is as if it had never been flushed. */
  lemma SafeLeavesNoTrace(flushed: Entries, steps: seq<Step>)
    requires AllNormal(flushed) && Lists(PutBacks(steps), flushed) && RequeueSafe(flushed, steps)
    ensures UpdatedAll(map[], States(steps)) == UpdatedAll(flushed, Arrivals(steps))
  {
    var requeued, never := UpdatedAll(map[], States(steps)), UpdatedAll(flushed, Arrivals(steps));
    forall key ensures At(requeued, key) == At(never, key) {
      SafeAt(flushed, steps, key);
    }
    SameEverywhere(requeued, never);
  }

  lemma SafeAt(flushed: Entries, steps: seq<Step>, key: string)
    requires AllNormal(flushed) && Lists(PutBacks(steps), flushed) && RequeueSafe(flushed, steps)
    ensures At(UpdatedAll(map[], States(steps)), key) == At(UpdatedAll(flushed, Arrivals(steps)), key)
  {
    InterleavedAt(flushed, steps, key);
    NeverFlushedAt(flushed, steps, key);
    if key !in flushed {
      EarlyThenLate(steps, key);
      Seqs.FromStart(Early(steps, key));
    } else if Early(steps, key) != [] {
      OrderSuffices(flushed[key], Early(steps, key));
    }
  }

  ghost predicate EntriesSameSeen(a: Entries, b: Entries) {
    a.Keys == b.Keys && forall key :: key in a ==> SameSeen(a[key], b[key])
  }

  /** The same steps with other fields. */
  ghost predicate StepsSameSeen(a: seq<Step>, b: seq<Step>) {
    if a == [] || b == [] then a == b
    else
      var s, t := a[|a| - 1], b[|b| - 1];
      StepsSameSeen(a[..|a| - 1], b[..|b| - 1]) && (s.Arrival? <==> t.Arrival?) && SameSeen(s.state, t.state)
  }

  /** Whatever the states carry, a failed write leaves the cache as if it had never been flushed. */
  ghost predicate Harmless(flushed: Entries, steps: seq<Step>) {
    forall flushed', steps' ::
      EntriesSameSeen(flushed', flushed) && StepsSameSeen(steps', steps) && Lists(PutBacks(steps'), flushed') ==>
        UpdatedAll(map[], States(steps')) == UpdatedAll(flushed', Arrivals(steps'))
  }

  lemma {:induction false} EarlySameSeen(a: seq<Step>, b: seq<Step>, key: string)
    requires StepsSameSeen(a, b)
    ensures AllSameSeen(Early(a, key), Early(b, key)) && (IsBack(a, key) <==> IsBack(b, key))
  {
    if a != [] {
      EarlySameSeen(a[..|a| - 1], b[..|b| - 1], key);
      SameSeenSnoc(Early(a[..|a| - 1], key), Early(b[..|b| - 1], key), Normalize(a[|a| - 1].state), Normalize(b[|b| - 1].state));
    }
  }

  lemma SameSeenSnoc(a: seq<State>, b: seq<State>, s: State, t: State)
    requires AllSameSeen(a, b)
    ensures SameSeen(s, t) ==> AllSameSeen(a + [s], b + [t])
  {
  }

  /** The steps with `s` put back under the key, and the fields of `updates` in what arrives before that. */
  ghost function Refield(steps: seq<Step>, key: string, s: State, updates: seq<State>): seq<Step>
    requires |updates| == |Early(steps, key)|
  {
    if steps == [] then []
    else
      var front, last := steps[..|steps| - 1], steps[|steps| - 1];
      if last.PutBack? then Refield(front, key, s, updates) + [if Key(last.state) == key then PutBack(s) else last]
      else if !Concerns(last.state, key) then Refield(front, key, s, updates) + [last]
      else if IsBack(front, key) then Refield(front, key, s, updates) + [Arrival(Bare(last.state))]
      else Refield(front, key, s, updates[..|updates| - 1]) + [Arrival(last.state.(fields := updates[|updates| - 1].fields))]
  }

  /** What refielding is for. */
  ghost predicate Refields(steps': seq<Step>, steps: seq<Step>, key: string, updates: seq<State>) {
    && StepsSameSeen(steps', steps) && (IsBack(steps', key) <==> IsBack(steps, key))
    && Early(steps', key) == updates && Blank(Late(steps', key))
  }

  lemma RefieldsSnoc(steps': seq<Step>, steps: seq<Step>, key: string, updates: seq<State>, last': Step, last: Step)
    requires Refields(steps', steps, key, updates)
    requires (last'.Arrival? <==> last.Arrival?) && SameSeen(last'.state, last.state)
    requires last.Arrival? && Concerns(last.state, key) && IsBack(steps, key) ==> last'.state.fields == map[]
    ensures Refields(steps' + [last'], steps + [last], key,
                     if last.Arrival? && Concerns(last.state, key) && !IsBack(steps, key)
                     then updates + [Normalize(last'.state)] else updates)
  {
    Seqs.Snoc(steps', steps', last');
    Seqs.Snoc(steps, steps, last);
  }

  lemma {:induction false} Refielded(steps: seq<Step>, key: string, s: State, updates: seq<State>)
    requires AllSameSeen(updates, Early(steps, key))
    requires forall i :: 0 <= i < |steps| && steps[i].PutBack? && Key(steps[i].state) == key ==> SameSeen(s, steps[i].state)
    ensures Refields(Refield(steps, key, s, updates), steps, key, updates)
  {
    if steps != [] {
      var front, last := steps[..|steps| - 1], steps[|steps| - 1];
      Seqs.Last(steps);
      if last.Arrival? && Concerns(last.state, key) && !IsBack(front, key) {
        var u := updates[|updates| - 1];
        FrontSameSeen(updates, Early(steps, key));
        Refielded(front, key, s, updates[..|updates| - 1]);
        RefieldsSnoc(Refield(front, key, s, updates[..|updates| - 1]), front, key, updates[..|updates| - 1],
                     Arrival(last.state.(fields := u.fields)), last);
        Seqs.Last(updates);
      } else {
        Refielded(front, key, s, updates);
        RefieldsSnoc(Refield(front, key, s, updates), front, key, updates,
                     if last.Arrival? then Arrival(if Concerns(last.state, key) then Bare(last.state) else last.state)
                     else if Key(last.state) == key then PutBack(s) else last, last);
      }
    }
  }

  lemma FrontSameSeen(a: seq<State>, b: seq<State>)
    requires AllSameSeen(a, b) && a != []
    ensures AllSameSeen(a[..|a| - 1], b[..|b| - 1]) && SameSeen(a[|a| - 1], b[|b| - 1])
  {
  }

  /** The entries with `s` under the key, if there is one. */
  ghost function Replaced(entries: Entries, key: string, s: State): Entries {
    if key in entries then entries[key := s] else entries
  }

  lemma {:induction false} RefieldLists(flushed: Entries, steps: seq<Step>, key: string, s: State, updates: seq<State>)
    requires |updates| == |Early(steps, key)| && Key(s) == key && Lists(PutBacks(steps), flushed)
    ensures Lists(PutBacks(Refield(steps, key, s, updates)), Replaced(flushed, key, s))
  {
    if steps != [] {
      var front, last := steps[..|steps| - 1], steps[|steps| - 1];
      if last.PutBack? {
        ListsLast(PutBacks(front), last.state, flushed);
        RefieldLists(flushed - {Key(last.state)}, front, key, s, updates);
        ReplacedBack(flushed, Refield(front, key, s, updates), last.state, key, s);
      } else if Concerns(last.state, key) && !IsBack(front, key) {
        RefieldLists(flushed, front, key, s, updates[..|updates| - 1]);
        BacksSnoc(Refield(front, key, s, updates[..|updates| - 1]),
                  Arrival(last.state.(fields := updates[|updates| - 1].fields)));
      } else {
        RefieldLists(flushed, front, key, s, updates);
        BacksSnoc(Refield(front, key, s, updates), if Concerns(last.state, key) then Arrival(Bare(last.state)) else last);
      }
    }
  }

  lemma ReplacedBack(flushed: Entries, front: seq<Step>, back: State, key: string, s: State)
    requires Key(s) == key && Key(back) in flushed && flushed[Key(back)] == back
    requires Lists(PutBacks(front), Replaced(flushed - {Key(back)}, key, s))
    ensures Lists(PutBacks(front + [if Key(back) == key then PutBack(s) else PutBack(back)]), Replaced(flushed, key, s))
  {
    var back' := if Key(back) == key then s else back;
    BacksSnoc(front, PutBack(back'));
    ListsLast(PutBacks(front), back', Replaced(flushed, key, s));
    assert Replaced(flushed, key, s) - {Key(back)} == Replaced(flushed - {Key(back)}, key, s);
  }

  lemma BacksSnoc(steps: seq<Step>, last: Step)
    ensures PutBacks(steps + [last]) == if last.PutBack? then PutBacks(steps) + [last.state] else PutBacks(steps)
  {
    Seqs.Snoc(steps, steps, last);
  }

  lemma OfSnoc(states: seq<State>, s: State, key: string)
    ensures Of(states + [s], key) == if Concerns(s, key) then Of(states, key) + [Normalize(s)] else Of(states, key)
  {
    Seqs.Snoc(states, states, s);
  }

  lemma {:induction false} BackIsFlushed(flushed: Entries, steps: seq<Step>, i: nat)
    requires Lists(PutBacks(steps), flushed) && i < |steps| && steps[i].PutBack?
    ensures Key(steps[i].state) in flushed && flushed[Key(steps[i].state)] == steps[i].state
  {
    var front, last := steps[..|steps| - 1], steps[|steps| - 1];
    if last.PutBack? {
      ListsLast(PutBacks(front), last.state, flushed);
    }
    if i < |front| {
      BackIsFlushed(if last.PutBack? then flushed - {Key(last.state)} else flushed, front, i);
    }
  }

  /** Out of order on some key, some choice of fields leaves a trace. */
  lemma UnsafeLeavesTrace(flushed: Entries, steps: seq<Step>, key: string)
    requires WellKeyed(flushed) && Lists(PutBacks(steps), flushed)
    requires key in flushed && !InOrder(flushed[key].lastSeen, Times(Early(steps, key)))
    ensures !Harmless(flushed, steps)
  {
    var s, updates := OrderNeeded(flushed[key], Early(steps, key));
    var flushed', steps' := flushed[key := s], Refield(steps, key, s, updates);
    forall i | 0 <= i < |steps| && steps[i].PutBack? && Key(steps[i].state) == key ensures SameSeen(s, steps[i].state) {
      BackIsFlushed(flushed, steps, i);
    }
    Refielded(steps, key, s, updates);
    RefieldLists(flushed, steps, key, s, updates);
    ReplacedSameSeen(flushed, key, s);
    TraceAt(flushed', steps', key);
    HarmlessAt(flushed, steps, flushed', steps');
  }

  lemma ReplacedSameSeen(entries: Entries, key: string, s: State)
    requires WellKeyed(entries) && key in entries && SameSeen(s, entries[key])
    ensures EntriesSameSeen(entries[key := s], entries) && AllNormal(entries[key := s])
  {
  }

  lemma HarmlessAt(flushed: Entries, steps: seq<Step>, flushed': Entries, steps': seq<Step>)
    requires EntriesSameSeen(flushed', flushed) && StepsSameSeen(steps', steps) && Lists(PutBacks(steps'), flushed')
    ensures Harmless(flushed, steps) ==> UpdatedAll(map[], States(steps')) == UpdatedAll(flushed', Arrivals(steps'))
  {
  }

  /** Updates without fields do not hide a difference in price. */
  lemma TraceAt(flushed: Entries, steps: seq<Step>, key: string)
    requires AllNormal(flushed) && Lists(PutBacks(steps), flushed) && key in flushed
    requires Early(steps, key) != [] && Blank(Late(steps, key))
    requires Price(Onto(flushed[key], Early(steps, key))) != Price(Merge(Since(Early(steps, key)), flushed[key]))
    ensures UpdatedAll(map[], States(steps)) != UpdatedAll(flushed, Arrivals(steps))
  {
    InterleavedAt(flushed, steps, key);
    NeverFlushedAt(flushed, steps, key);
    BlankFold(Onto(flushed[key], Early(steps, key)), Late(steps, key));
    BlankFold(Merge(Since(Early(steps, key)), flushed[key]), Late(steps, key));
  }

  /** A failed write leaves no trace, whatever fields the states carry, exactly when for every flushed key the updates
      that arrive before its put-back came in order.  The put-backs and the updates may interleave in any way. */
  lemma RequeueHarmlessIff(flushed: Entries, steps: seq<Step>)
    requires WellKeyed(flushed) && Lists(PutBacks(steps), flushed)
    ensures Harmless(flushed, steps) <==> RequeueSafe(flushed, steps)
  {
    if RequeueSafe(flushed, steps) {
      forall flushed', steps' |
          EntriesSameSeen(flushed', flushed) && StepsSameSeen(steps', steps) && Lists(PutBacks(steps'), flushed')
        ensures UpdatedAll(map[], States(steps')) == UpdatedAll(flushed', Arrivals(steps'))
      {
        SafeSameSeen(flushed', steps', flushed, steps);
        SafeLeavesNoTrace(flushed', steps');
      }
    } else {
      var key :| key in flushed && !InOrder(flushed[key].lastSeen, Times(Early(steps, key)));
      UnsafeLeavesTrace(flushed, steps, key);
    }
  }

  lemma SafeSameSeen(flushed': Entries, steps': seq<Step>, flushed: Entries, steps: seq<Step>)
    requires EntriesSameSeen(flushed', flushed) && StepsSameSeen(steps', steps)
    requires AllNormal(flushed) && RequeueSafe(flushed, steps)
    ensures AllNormal(flushed') && RequeueSafe(flushed', steps')
  {
    forall key | key in flushed' ensures InOrder(flushed'[key].lastSeen, Times(Early(steps', key))) {
      EarlySameSeen(steps', steps, key);
      SameTimes(Early(steps', key), Early(steps, key));
    }
  }

  lemma SameTimes(a: seq<State>, b: seq<State>)
    requires AllSameSeen(a, b)
    ensures Times(a) == Times(b)
  {
  }

  /** Every usable update is observed strictly later than what its key has seen so far. */
  ghost predicate Advancing(entries: Entries, states: seq<State>) {
    states != [] ==>
      var earlier, s := states[..|states| - 1], Normalize(states[|states| - 1]);
      && Advancing(entries, earlier)
      && (Usable(s) && Key(s) in UpdatedAll(entries, earlier) ==> UpdatedAll(entries, earlier)[Key(s)].lastSeen < s.lastSeen)
  }

  lemma {:induction false} AdvancingClimbs(flushed: Entries, states: seq<State>, key: string)
    requires key in flushed && Advancing(flushed, states)
    ensures Rising(flushed[key].lastSeen, Times(Of(states, key)))
    ensures forall i :: 0 <= i < |Of(states, key)| ==> flushed[key].lastSeen < Times(Of(states, key))[i]
  {
    if states != [] {
      var earlier, s := states[..|states| - 1], Normalize(states[|states| - 1]);
      AdvancingClimbs(flushed, earlier, key);
      if Usable(s) && Key(s) == key {
        UpdatedAt(flushed, earlier, key);
        LatestSeen(flushed[key], Of(earlier, key));
        HighestBounds(flushed[key].lastSeen, Times(Of(earlier, key)));
        ClimbsOn(flushed[key].lastSeen, Of(earlier, key), s);
      }
    }
  }

  lemma ClimbsOn(f: int, updates: seq<State>, u: State)
    requires Rising(f, Times(updates)) && f < u.lastSeen
    requires forall i :: 0 <= i < |updates| ==> f < Times(updates)[i] <= u.lastSeen
    ensures Rising(f, Times(updates + [u])) && forall i :: 0 <= i <= |updates| ==> f < Times(updates + [u])[i]
  {
    assert Times(updates + [u]) == Times(updates) + [u.lastSeen];
  }

  /** Observation times that strictly increase on every key are safe, whenever the states are put back. */
  lemma AdvancingIsSafe(flushed: Entries, steps: seq<Step>)
    requires Advancing(flushed, Arrivals(steps))
    ensures RequeueSafe(flushed, steps)
  {
    forall key | key in flushed ensures InOrder(flushed[key].lastSeen, Times(Early(steps, key))) {
      AdvancingClimbs(flushed, Arrivals(steps), key);
      EarlyThenLate(steps, key);
      ClimbsAtFirst(flushed[key].lastSeen, Early(steps, key), Late(steps, key));
    }
  }

  lemma ClimbsAtFirst(f: int, a: seq<State>, b: seq<State>)
    requires Rising(f, Times(a + b)) && forall i :: 0 <= i < |a + b| ==> f < Times(a + b)[i]
    ensures InOrder(f, Times(a))
  {
    assert Times(a) == Times(a + b)[..|a|];
  }

  // ---- Inputs for which it does leave a trace ----

  /** A field of the state under a key. */
  function FieldAt(entries: Entries, key: string, f: Field): Option<Value> {
    if key in entries && f in entries[key].fields then Some(entries[key].fields[f]) else None
  }

  lemma OneKey(flushed: State, meanwhile: seq<State>, key: string)
    requires IsNormal(flushed) && Key(flushed) == key
    requires meanwhile != [] && forall i :: 0 <= i < |meanwhile| ==> IsNormal(meanwhile[i]) && Key(meanwhile[i]) == key
    ensures At(UpdatedAll(map[key := flushed], meanwhile), key) == Some(Onto(flushed, meanwhile))
    ensures At(UpdatedAll(UpdatedAll(map[], meanwhile), [flushed]), key) == Some(Merge(Since(meanwhile), flushed))
  {
    OfAll(meanwhile, key);
    UpdatedAt(map[key := flushed], meanwhile, key);
    UpdatedAt(map[], meanwhile, key);
    OfAll([flushed], key);
    UpdatedAt(UpdatedAll(map[], meanwhile), [flushed], key);
    OntoOne(Since(meanwhile), flushed);
  }

  lemma OntoOne(s: State, u: State)
    ensures Onto(s, [u]) == Merge(s, u) && Since([u]) == u
  {
    assert [u][..0] == [] && [u][1..] == [];
  }

  lemma OntoTwo(s: State, u: State, v: State)
    ensures Onto(s, [u, v]) == Merge(Merge(s, u), v) && Since([u, v]) == Merge(u, v)
  {
    assert [u, v][..1] == [u] && [u, v][1..] == [v];
    OntoOne(s, u);
    OntoOne(u, v);
  }

  lemma {:induction false} OfAll(states: seq<State>, key: string)
    requires forall i :: 0 <= i < |states| ==> IsNormal(states[i]) && Key(states[i]) == key
    ensures Of(states, key) == states
  {
    if states != [] {
      OfAll(states[..|states| - 1], key);
      Seqs.Last(states);
    }
  }

  /** A state of one instrument with one field. */
  function Seen(at: int, f: Field, x: real): State {
    State("NSE", "1", at, map[f := Number(x)])
  }

  lemma SeenIsNormal(at: int, f: Field, x: real)
    requires at != 0
    ensures IsNormal(Seen(at, f, x)) && Key(Seen(at, f, x)) == "NSE:1"
  {
    assert Text.Upper("NSE") == "NSE";
  }

  /** Two prices seen at the same instant: after a failed write the older one is back. */
  lemma TieRevertsPrice()
    ensures var flushed, update := Seen(100, LastPrice, 100.0), Seen(100, LastPrice, 102.0);
            && FieldAt(UpdatedAll(map["NSE:1" := flushed], [update]), "NSE:1", LastPrice) == Some(Number(102.0))
            && FieldAt(UpdatedAll(UpdatedAll(map[], [update]), [flushed]), "NSE:1", LastPrice) == Some(Number(100.0))
  {
    var flushed, update := Seen(100, LastPrice, 100.0), Seen(100, LastPrice, 102.0);
    SeenIsNormal(100, LastPrice, 100.0);
    SeenIsNormal(100, LastPrice, 102.0);
    OneKey(flushed, [update], "NSE:1");
    OntoOne(flushed, update);
  }

  /** All times differ and the two late updates come in order: after a failed write the cache has the bid of
      the second instead of the first. */
  lemma LateUpdatesSwap()
    ensures var flushed, u, v := Seen(100, LastPrice, 100.0), Seen(90, LastBid, 1.0), Seen(95, LastBid, 2.0);
            && FieldAt(UpdatedAll(map["NSE:1" := flushed], [u, v]), "NSE:1", LastBid) == Some(Number(1.0))
            && FieldAt(UpdatedAll(UpdatedAll(map[], [u, v]), [flushed]), "NSE:1", LastBid) == Some(Number(2.0))
  {
    var flushed, u, v := Seen(100, LastPrice, 100.0), Seen(90, LastBid, 1.0), Seen(95, LastBid, 2.0);
    SeenIsNormal(100, LastPrice, 100.0);
    SeenIsNormal(90, LastBid, 1.0);
    SeenIsNormal(95, LastBid, 2.0);
    OneKey(flushed, [u, v], "NSE:1");
    OntoTwo(flushed, u, v);
  }

  /** An update at the instant of the flushed state arrives before the put-back and a newer one after it. All updates
      came in order and got past the flushed state, and yet the older price stays. */
  lemma OldPriceStays()
    ensures var flushed, u, v := Seen(100, LastPrice, 100.0), Seen(100, LastPrice, 102.0), Seen(101, LastBid, 1.0);
            var steps := [Arrival(u)] + [PutBack(flushed)] + [Arrival(v)];
            && FieldAt(UpdatedAll(map["NSE:1" := flushed], Arrivals(steps)), "NSE:1", LastPrice) == Some(Number(102.0))
            && FieldAt(UpdatedAll(map[], States(steps)), "NSE:1", LastPrice) == Some(Number(100.0))
  {
    SeenIsNormal(100, LastPrice, 100.0);
    SeenIsNormal(100, LastPrice, 102.0);
    SeenIsNormal(101, LastBid, 1.0);
    BetweenLeaves(Seen(100, LastPrice, 102.0), Seen(100, LastPrice, 100.0), Seen(101, LastBid, 1.0), "NSE:1", LastPrice);
    PricesMerged();
  }

  function FieldOf(s: State, f: Field): Option<Value> {
    if f in s.fields then Some(s.fields[f]) else None
  }

  lemma PricesMerged()
    ensures var flushed, u, v := Seen(100, LastPrice, 100.0), Seen(100, LastPrice, 102.0), Seen(101, LastBid, 1.0);
            && FieldOf(Merge(Merge(flushed, u), v), LastPrice) == Some(Number(102.0))
            && FieldOf(Merge(Merge(u, flushed), v), LastPrice) == Some(Number(100.0))
  {
  }

  lemma BetweenLeaves(u: State, flushed: State, v: State, key: string, f: Field)
    requires IsNormal(u) && IsNormal(flushed) && IsNormal(v) && Key(u) == Key(flushed) == Key(v) == key
    ensures var steps := [Arrival(u)] + [PutBack(flushed)] + [Arrival(v)];
            && FieldAt(UpdatedAll(map[key := flushed], Arrivals(steps)), key, f) == FieldOf(Merge(Merge(flushed, u), v), f)
            && FieldAt(UpdatedAll(map[], States(steps)), key, f) == FieldOf(Merge(Merge(u, flushed), v), f)
  {
    Between(u, flushed, v, key);
    OnlyOneBack(u, flushed, v, key);
    OneEachSide(map[key := flushed], [Arrival(u)] + [PutBack(flushed)] + [Arrival(v)], u, v, key, f);
  }

  /** One update before the put-back and one after it. */
  lemma OneEachSide(flushed: Entries, steps: seq<Step>, u: State, v: State, key: string, f: Field)
    requires AllNormal(flushed) && Lists(PutBacks(steps), flushed) && key in flushed
    requires Early(steps, key) == [u] && Late(steps, key) == [v]
    ensures FieldAt(UpdatedAll(flushed, Arrivals(steps)), key, f) == FieldOf(Merge(Merge(flushed[key], u), v), f)
    ensures FieldAt(UpdatedAll(map[], States(steps)), key, f) == FieldOf(Merge(Merge(u, flushed[key]), v), f)
  {
    InterleavedAt(flushed, steps, key);
    NeverFlushedAt(flushed, steps, key);
    OntoOne(flushed[key], u);
    OntoOne(u, v);
    OntoOne(Merge(flushed[key], u), v);
    OntoOne(Merge(u, flushed[key]), v);
  }

  lemma StepsSnoc(steps: seq<Step>, last: Step, key: string)
    ensures Early(steps + [last], key) == if last.Arrival? && Concerns(last.state, key) && !IsBack(steps, key)
                                          then Early(steps, key) + [Normalize(last.state)] else Early(steps, key)
    ensures Late(steps + [last], key) == if last.Arrival? && Concerns(last.state, key) && IsBack(steps, key)
                                         then Late(steps, key) + [Normalize(last.state)] else Late(steps, key)
    ensures IsBack(steps + [last], key) <==> IsBack(steps, key) || (last.PutBack? && Key(last.state) == key)
  {
    Seqs.Snoc(steps, steps, last);
  }

  lemma Between(u: State, flushed: State, v: State, key: string)
    requires IsNormal(u) && IsNormal(v) && Key(u) == Key(flushed) == Key(v) == key
    ensures var steps := [Arrival(u)] + [PutBack(flushed)] + [Arrival(v)];
            Early(steps, key) == [u] && Late(steps, key) == [v]
  {
    var one := [Arrival(u)];
    Seqs.FromStart(one);
    Seqs.FromStart([u]);
    Seqs.FromStart([v]);
    StepsSnoc([], Arrival(u), key);
    StepsSnoc(one, PutBack(flushed), key);
    StepsSnoc(one + [PutBack(flushed)], Arrival(v), key);
  }

  lemma OnlyOneBack(u: State, flushed: State, v: State, key: string)
    requires Key(flushed) == key && IsNormal(flushed)
    ensures AllNormal(map[key := flushed])
    ensures Lists(PutBacks([Arrival(u)] + [PutBack(flushed)] + [Arrival(v)]), map[key := flushed])
  {
    var one := [Arrival(u)];
    Seqs.FromStart(one);
    BacksSnoc([], Arrival(u));
    BacksSnoc(one, PutBack(flushed));
    BacksSnoc(one + [PutBack(flushed)], Arrival(v));
    ListsLast([], flushed, map[key := flushed]);
    assert map[key := flushed] - {key} == map[];
  }
}
