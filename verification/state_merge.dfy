/** How `instrumentStateCache` in cmd/collector/metrics.go merges states.

    The optional fields of a state, all merged by the same rule, are one map: an absent key is a nil
    pointer, or an empty source.  `lastSeen` 0 is the zero `time.Time`. */
module StateMerge {
  import Seqs
  import opened Text

  datatype Field =
    | LastPrice | LastSource | LastBid | LastAsk | LastBidQty | LastAskQty | LastTradeQty
    | LastOpen | LastHigh | LastLow | LastClose | LastVolume | LastOI | LastOIChangePct
    | TotalBuyQty | TotalSellQty | AvgPrice | NetChange | PercentChange
    | UpperCircuit | LowerCircuit | Week52High | Week52Low

  datatype Value = Number(n: real) | Source(name: string)

  datatype State = State(exchange: string, token: string, lastSeen: int, fields: map<Field, Value>)

  function Normalize(s: State): State {
    s.(exchange := Normal(s.exchange), token := Trim(s.token))
  }

  predicate Usable(s: State) {
    s.exchange != "" && s.token != "" && s.lastSeen != 0
  }

  function Key(s: State): string {
    s.exchange + ":" + s.token
  }

  /** The newest observation is authoritative, the other one only fills its gaps; a tie goes to the
      state that comes in. */
  function Merge(existing: State, incoming: State): State {
    var newer, older := if incoming.lastSeen < existing.lastSeen then existing else incoming,
                        if incoming.lastSeen < existing.lastSeen then incoming else existing;
    newer.(fields := older.fields + newer.fields)
  }

  type Entries = map<string, State>

  /** Merges a state into the entry of its key. */
  function Put(entries: Entries, key: string, s: State): Entries {
    entries[key := if key in entries then Merge(entries[key], s) else s]
  }

  function Updated(entries: Entries, s: State): Entries {
    var state := Normalize(s);
    if Usable(state) then Put(entries, Key(state), state) else entries
  }

  /** What one update does under each key: without an exchange, a token or a time nothing; else the state is stored under
      the normalised exchange and the trimmed token, where the later time stays and, field by field, the value of the
      later state or else the only one there is. */
  lemma UpdatedInFields(entries: Entries, s: State, key: string)
    ensures var known, after := key in entries, Updated(entries, s);
            if Trim(s.exchange) == "" || Trim(s.token) == "" || s.lastSeen == 0
               || key != Normal(s.exchange) + ":" + Trim(s.token)
            then
              (key in after <==> known) && (known ==> after[key] == entries[key])
            else
              var later := known && entries[key].lastSeen > s.lastSeen;
              && key in after && after[key].lastSeen == (if later then entries[key].lastSeen else s.lastSeen)
              && Filled(if known then entries[key].fields else map[], s.fields, later, after[key].fields)
  {
  }

  ghost predicate Filled(kept: map<Field, Value>, coming: map<Field, Value>, keptLater: bool, r: map<Field, Value>) {
    && (forall f :: f in r <==> f in kept || f in coming)
    && forall f :: f in r ==> r[f] == if f in coming && !(keptLater && f in kept) then coming[f] else kept[f]
  }

  ghost function UpdatedAll(entries: Entries, states: seq<State>): Entries {
    if states == [] then entries
    else Updated(UpdatedAll(entries, states[..|states| - 1]), states[|states| - 1])
  }

  predicate IsNormal(s: State) {
    Normal(s.exchange) == s.exchange && Trim(s.token) == s.token && Usable(s)
  }

  ghost predicate Keyed(entries: Entries) {
    forall k :: k in entries ==> Key(entries[k]) == k
  }

  ghost predicate AllNormal(entries: Entries) {
    forall k :: k in entries ==> IsNormal(entries[k])
  }

  /** Entries are normalised and stored under their own key. */
  ghost predicate WellKeyed(entries: Entries) {
    Keyed(entries) && AllNormal(entries)
  }

  lemma NormalizedIsNormal(s: State)
    requires Usable(Normalize(s))
    ensures IsNormal(Normalize(s))
  {
    NormalIdempotent(s.exchange);
    NormalIdempotent(s.token);
  }

  lemma UpdatedNormal(entries: Entries, s: State)
    requires IsNormal(s)
    ensures Updated(entries, s) == Put(entries, Key(s), s)
  {
  }

  lemma PutWellKeyed(entries: Entries, s: State)
    requires WellKeyed(entries) && IsNormal(s)
    ensures WellKeyed(Put(entries, Key(s), s))
  {
  }

  lemma {:induction false} UpdatedAllWellKeyed(entries: Entries, states: seq<State>)
    requires WellKeyed(entries)
    ensures WellKeyed(UpdatedAll(entries, states))
  {
    if states != [] {
      UpdatedAllWellKeyed(entries, states[..|states| - 1]);
      var s := states[|states| - 1];
      if Usable(Normalize(s)) {
        NormalizedIsNormal(s);
        PutWellKeyed(UpdatedAll(entries, states[..|states| - 1]), Normalize(s));
      }
    }
  }

  /** `states` are the entries, each once, in some order. */
  ghost predicate Lists(states: seq<State>, entries: Entries) {
    if states == [] then entries == map[]
    else
      var s := states[|states| - 1];
      Key(s) in entries && entries[Key(s)] == s && Lists(states[..|states| - 1], entries - {Key(s)})
  }

  lemma ListsSnoc(states: seq<State>, entries: Entries, s: State)
    requires Lists(states, entries) && Key(s) !in entries
    ensures Lists(states + [s], entries[Key(s) := s])
  {
    Seqs.Snoc(states, states, s);
    assert entries[Key(s) := s] - {Key(s)} == entries;
  }

  lemma TakeOne(states: seq<State>, taken: Entries, entries: Entries, key: string)
    requires Lists(states, taken) && Keyed(entries) && key in entries && key !in taken
    ensures Lists(states + [entries[key]], taken[key := entries[key]])
  {
    ListsSnoc(states, taken, entries[key]);
  }

  /** Updates with states that need no normalising. */
  ghost function PutAll(entries: Entries, states: seq<State>): Entries {
    if states == [] then entries
    else
      var s := states[|states| - 1];
      Put(PutAll(entries, states[..|states| - 1]), Key(s), s)
  }

  /** Putting the flushed entries back finds them already normalised. */
  lemma {:induction false} RequeueIsPutAll(newer: Entries, older: Entries, states: seq<State>)
    requires AllNormal(older) && Lists(states, older)
    ensures UpdatedAll(newer, states) == PutAll(newer, states)
  {
    if states != [] {
      var s := states[|states| - 1];
      RequeueIsPutAll(newer, older - {Key(s)}, states[..|states| - 1]);
      UpdatedNormal(UpdatedAll(newer, states[..|states| - 1]), s);
    }
  }

  // ---- Putting flushed entries back ----

  /** The entries of `older` put back under those of `newer`. */
  ghost function Overlay(newer: Entries, older: Entries): Entries {
    map k | k in newer.Keys + older.Keys ::
      if k !in older then newer[k] else if k !in newer then older[k] else Merge(newer[k], older[k])
  }

  lemma OverlayOneMore(newer: Entries, older: Entries, s: State)
    requires Key(s) in older && older[Key(s)] == s
    ensures Put(Overlay(newer, older - {Key(s)}), Key(s), s) == Overlay(newer, older)
  {
  }

  /** Putting back the flushed entries, in any order, overlays them. */
  lemma {:induction false} PutAllOverlays(newer: Entries, older: Entries, states: seq<State>)
    requires Lists(states, older)
    ensures PutAll(newer, states) == Overlay(newer, older)
  {
    if states == [] {
      assert Overlay(newer, map[]) == newer;
    } else {
      var s := states[|states| - 1];
      PutAllOverlays(newer, older - {Key(s)}, states[..|states| - 1]);
      OverlayOneMore(newer, older, s);
    }
  }

  /** So without updates in between it does not matter in which order they are put back. */
  lemma AnyOrder(newer: Entries, older: Entries, one: seq<State>, other: seq<State>)
    requires AllNormal(older) && Lists(one, older) && Lists(other, older)
    ensures UpdatedAll(newer, one) == UpdatedAll(newer, other) == Overlay(newer, older)
  {
    RequeueIsPutAll(newer, older, one);
    RequeueIsPutAll(newer, older, other);
    PutAllOverlays(newer, older, one);
    PutAllOverlays(newer, older, other);
  }

  // ---- Updates that come in between ----

  /** What the cache goes through after a flush whose write fails: the lock is taken for each state on its own. */
  datatype Step = Arrival(state: State) | PutBack(state: State)

  ghost function States(steps: seq<Step>): seq<State> {
    if steps == [] then [] else States(steps[..|steps| - 1]) + [steps[|steps| - 1].state]
  }

  ghost function Arrivals(steps: seq<Step>): seq<State> {
    if steps == [] then []
    else
      var front, last := Arrivals(steps[..|steps| - 1]), steps[|steps| - 1];
      if last.Arrival? then front + [last.state] else front
  }

  ghost function PutBacks(steps: seq<Step>): seq<State> {
    if steps == [] then []
    else
      var front, last := PutBacks(steps[..|steps| - 1]), steps[|steps| - 1];
      if last.PutBack? then front + [last.state] else front
  }

  lemma UpdatedSnoc(entries: Entries, states: seq<State>, s: State)
    ensures UpdatedAll(entries, states + [s]) == Updated(UpdatedAll(entries, states), s)
  {
    Seqs.Snoc(states, states, s);
  }

  lemma ListsLast(states: seq<State>, s: State, entries: Entries)
    ensures Lists(states + [s], entries) <==> Key(s) in entries && entries[Key(s)] == s && Lists(states, entries - {Key(s)})
  {
    Seqs.Snoc(states, states, s);
  }

  // ---- Nothing is forgotten, in any order of observation ----

  /** `later` has seen at least as much as `earlier`: no key lost, no observation time lowered, no present
      field absent. */
  ghost predicate Dominates(later: Entries, earlier: Entries) {
    forall k :: k in earlier ==>
      k in later && earlier[k].lastSeen <= later[k].lastSeen && earlier[k].fields.Keys <= later[k].fields.Keys
  }

  lemma PutDominates(entries: Entries, earlier: Entries, key: string, s: State)
    requires Dominates(entries, earlier)
    ensures Dominates(Put(entries, key, s), earlier)
    ensures Dominates(Put(entries, key, s), earlier[key := s])
  {
  }

  lemma UpdatedDominates(later: Entries, earlier: Entries, s: State)
    requires Dominates(later, earlier)
    ensures Dominates(Updated(later, s), earlier) && Dominates(Updated(later, s), Updated(earlier, s))
  {
    var state := Normalize(s);
    PutDominates(later, earlier, Key(state), state);
    MergeDominates(later, earlier, Key(state), state);
  }

  lemma MergeDominates(later: Entries, earlier: Entries, key: string, s: State)
    requires Dominates(later, earlier)
    ensures Dominates(Put(later, key, s), Put(earlier, key, s))
  {
  }

  lemma {:induction false} UpdatesDominate(entries: Entries, states: seq<State>)
    ensures Dominates(UpdatedAll(entries, states), entries)
  {
    if states != [] {
      UpdatesDominate(entries, states[..|states| - 1]);
      UpdatedDominates(UpdatedAll(entries, states[..|states| - 1]), entries, states[|states| - 1]);
    }
  }

  lemma PutBackDominates(later: Entries, flushed: Entries, s: State)
    requires Key(s) in flushed && flushed[Key(s)] == s && IsNormal(s) && Dominates(later, flushed - {Key(s)})
    ensures Dominates(Updated(later, s), flushed)
  {
    UpdatedNormal(later, s);
    PutDominates(later, flushed - {Key(s)}, Key(s), s);
    assert (flushed - {Key(s)})[Key(s) := s] == flushed;
  }

  /** Whatever comes in between the put-backs of a failed write, and in any order, nothing that a key has shown is
      lost: the cache dominates what was flushed and what has come in since. */
  lemma {:induction false} FailedFlushDominates(flushed: Entries, steps: seq<Step>)
    requires AllNormal(flushed) && Lists(PutBacks(steps), flushed)
    ensures Dominates(UpdatedAll(map[], States(steps)), flushed)
    ensures Dominates(UpdatedAll(map[], States(steps)), UpdatedAll(map[], Arrivals(steps)))
  {
    if steps != [] {
      var front, s := steps[..|steps| - 1], steps[|steps| - 1].state;
      var before, arrived := UpdatedAll(map[], States(front)), UpdatedAll(map[], Arrivals(front));
      UpdatedSnoc(map[], States(front), s);
      if steps[|steps| - 1].PutBack? {
        ListsLast(PutBacks(front), s, flushed);
        FailedFlushDominates(flushed - {Key(s)}, front);
        PutBackDominates(before, flushed, s);
      } else {
        FailedFlushDominates(flushed, front);
        UpdatedSnoc(map[], Arrivals(front), s);
        UpdatedDominates(before, flushed, s);
      }
      UpdatedDominates(before, arrived, s);
    }
  }
}
