/** `instrumentStateCache` and the requeue of `runInstrumentStateFlush` in cmd/collector/metrics.go. */
module StateCache {
  import Seqs
  import opened StateMerge
  import opened RequeueOrder

  /** A walk over the map, in any order. */
  method WalkOnce(entries: Entries) returns (out: seq<State>)
    requires Keyed(entries)
    ensures Lists(out, entries)
  {
    out := [];
    var pending := entries.Keys;
    ghost var taken: Entries := map[];
    while pending != {}
      invariant forall k :: k in entries <==> k in taken || k in pending
      invariant forall k :: k in taken ==> k !in pending && taken[k] == entries[k]
      invariant Lists(out, taken)
      decreases |pending|
    {
      var key :| key in pending;
      TakeOne(out, taken, entries, key);
      out, taken := out + [entries[key]], taken[key := entries[key]];
      pending := pending - {key};
    }
    assert taken == entries;
  }

  class Cache {
    var entries: Entries

    constructor ()
      ensures entries == map[]
    {
      entries := map[];
    }

    method Update(s: State)
      modifies this
      ensures entries == Updated(old(entries), s)
    {
      var state := Normalize(s);
      if state.exchange == "" || state.token == "" || state.lastSeen == 0 {
        return;
      }
      var key := Key(state);
      if key in entries {
        var existing := entries[key];
        if state.lastSeen < existing.lastSeen {
          state, existing := existing, state;
        }
        state := state.(fields := existing.fields + state.fields);
      }
      entries := entries[key := state];
    }

    /** Hands out every entry and forgets them all. */
    method Flush() returns (out: seq<State>)
      requires Keyed(entries)
      modifies this
      ensures entries == map[] && Lists(out, old(entries))
    {
      out := WalkOnce(entries);
      entries := map[];
    }

    method UpdateEach(states: seq<State>)
      modifies this
      ensures entries == UpdatedAll(old(entries), states)
    {
      for i := 0 to |states|
        invariant entries == UpdatedAll(old(entries), states[..i])
      {
        Seqs.Prefix(states, i);
        Update(states[i]);
      }
      Seqs.All(states);
    }

    /** The loop that puts the states back. It takes the lock for each state on its own, so that `landing(i)` may arrive
        before the i-th of them, and `landing(|written|)` after the last. */
    method PutEachBack(written: seq<State>, landing: nat -> seq<State>)
      modifies this
      ensures entries == UpdatedAll(old(entries), States(Turns(written, landing, |written|)))
    {
      UpdateEach(landing(0));
      StatesOfArrivals(landing(0));
      for i := 0 to |written|
        invariant entries == UpdatedAll(old(entries), States(Turns(written, landing, i)))
      {
        TurnStates(written, landing, i, old(entries));
        Update(written[i]);
        UpdateEach(landing(i + 1));
      }
    }

    /** One tick of the flush loop: the entries are written out and put back when the write fails, while updates keep
        arriving.  A failed write leaves no trace as long as the updates of every key that arrive before its put-back
        come in order. */
    method FlushCycle(landing: nat -> seq<State>, writeOk: bool) returns (written: seq<State>, ghost steps: seq<Step>)
      requires WellKeyed(entries)
      modifies this
      ensures WellKeyed(entries)
      ensures Lists(written, old(entries)) && steps == Turns(written, landing, |written|) && PutBacks(steps) == written
      ensures writeOk ==> entries == UpdatedAll(map[], landing(0))
      ensures !writeOk ==> entries == UpdatedAll(map[], States(steps))
      ensures !writeOk && RequeueSafe(old(entries), steps) ==> entries == UpdatedAll(old(entries), Arrivals(steps))
      ensures !writeOk && Advancing(old(entries), Arrivals(steps)) ==> entries == UpdatedAll(old(entries), Arrivals(steps))
    {
      ghost var flushed := entries;
      written := Flush();
      steps := Turns(written, landing, |written|);
      PutBacksOfTurns(written, landing, |written|);
      Seqs.All(written);
      if writeOk {
        UpdateEach(landing(0));
        UpdatedAllWellKeyed(map[], landing(0));
      } else {
        PutEachBack(written, landing);
        UpdatedAllWellKeyed(map[], States(steps));
        Untraced(flushed, steps);
      }
    }
  }

  ghost function ArrivalsOf(states: seq<State>): seq<Step> {
    if states == [] then [] else ArrivalsOf(states[..|states| - 1]) + [Arrival(states[|states| - 1])]
  }

  /** What goes on until the first `n` states are back and the updates after them have arrived. */
  ghost function Turns(written: seq<State>, landing: nat -> seq<State>, n: nat): seq<Step>
    requires n <= |written|
  {
    if n == 0 then ArrivalsOf(landing(0))
    else Turns(written, landing, n - 1) + [PutBack(written[n - 1])] + ArrivalsOf(landing(n))
  }

  lemma {:induction false} StatesConcat(a: seq<Step>, b: seq<Step>)
    ensures States(a + b) == States(a) + States(b) && PutBacks(a + b) == PutBacks(a) + PutBacks(b)
  {
    if b == [] {
      Seqs.FromStart(a);
      Seqs.FromStart(States(a));
      Seqs.FromStart(PutBacks(a));
    } else {
      var front, last := b[..|b| - 1], b[|b| - 1];
      StatesConcat(a, front);
      Seqs.Last(b);
      Seqs.Snoc(a, front, last);
      Seqs.Snoc(a + front, [], last);
      Seqs.Snoc(States(a), States(front), last.state);
      Seqs.Snoc(PutBacks(a), PutBacks(front), last.state);
    }
  }

  lemma {:induction false} StatesOfArrivals(states: seq<State>)
    ensures States(ArrivalsOf(states)) == states && PutBacks(ArrivalsOf(states)) == []
  {
    if states != [] {
      StatesOfArrivals(states[..|states| - 1]);
      Seqs.Last(states);
    }
  }

  lemma {:induction false} UpdatedConcat(entries: Entries, a: seq<State>, b: seq<State>)
    ensures UpdatedAll(entries, a + b) == UpdatedAll(UpdatedAll(entries, a), b)
  {
    if b == [] {
      Seqs.FromStart(a);
    } else {
      UpdatedConcat(entries, a, b[..|b| - 1]);
      Seqs.Last(b);
      Seqs.Snoc(a, b[..|b| - 1], b[|b| - 1]);
      UpdatedSnoc(entries, a + b[..|b| - 1], b[|b| - 1]);
    }
  }

  /** One turn: a state goes back and the next updates arrive. */
  lemma TurnStates(written: seq<State>, landing: nat -> seq<State>, i: nat, entries: Entries)
    requires i < |written|
    ensures UpdatedAll(entries, States(Turns(written, landing, i + 1))) ==
            UpdatedAll(Updated(UpdatedAll(entries, States(Turns(written, landing, i))), written[i]), landing(i + 1))
  {
    var before := Turns(written, landing, i);
    StatesConcat(before + [PutBack(written[i])], ArrivalsOf(landing(i + 1)));
    StatesOfArrivals(landing(i + 1));
    Seqs.Snoc(before, before, PutBack(written[i]));
    UpdatedConcat(entries, States(before) + [written[i]], landing(i + 1));
    UpdatedSnoc(entries, States(before), written[i]);
  }

  lemma {:induction false} PutBacksOfTurns(written: seq<State>, landing: nat -> seq<State>, n: nat)
    requires n <= |written|
    ensures PutBacks(Turns(written, landing, n)) == written[..n]
  {
    if n == 0 {
      StatesOfArrivals(landing(0));
    } else {
      PutBacksOfTurns(written, landing, n - 1);
      PutBacksTurn(Turns(written, landing, n - 1), written[n - 1], landing(n));
      Seqs.Prefix(written, n - 1);
    }
  }

  lemma PutBacksTurn(before: seq<Step>, s: State, after: seq<State>)
    ensures PutBacks(before + [PutBack(s)] + ArrivalsOf(after)) == PutBacks(before) + [s]
  {
    StatesConcat(before + [PutBack(s)], ArrivalsOf(after));
    StatesOfArrivals(after);
    BacksSnoc(before, PutBack(s));
    Seqs.FromStart(PutBacks(before) + [s]);
  }

  lemma Untraced(flushed: Entries, steps: seq<Step>)
    requires AllNormal(flushed) && Lists(PutBacks(steps), flushed)
    ensures RequeueSafe(flushed, steps) ==> UpdatedAll(map[], States(steps)) == UpdatedAll(flushed, Arrivals(steps))
    ensures Advancing(flushed, Arrivals(steps)) ==> RequeueSafe(flushed, steps)
  {
    if Advancing(flushed, Arrivals(steps)) {
      AdvancingIsSafe(flushed, steps);
    }
    if RequeueSafe(flushed, steps) {
      SafeLeavesNoTrace(flushed, steps);
    }
  }
}
