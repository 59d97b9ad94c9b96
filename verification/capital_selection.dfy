/** `selectCapitalTrades` and `filterActive` of internal/backtest/a02.go.

    Times are integers, 0 being the zero `time.Time`; amounts are reals. */
module CapitalSelection {
  import Seqs


  datatype Trade = Trade(id: int, entry: int, exit: int, amount: real)

  /** The trades of `s` that are still open after `at`. */
  ghost function OpenAfter(s: seq<Trade>, at: int): seq<Trade> {
    if s == [] then []
    else
      var t := s[|s| - 1];
      var before := OpenAfter(s[..|s| - 1], at);
      if t.exit > at then before + [t] else before
  }

  /** The trades that hold capital at instant `at`. */
  ghost function Holding(s: seq<Trade>, at: int): seq<Trade> {
    if s == [] then []
    else
      var t := s[|s| - 1];
      var before := Holding(s[..|s| - 1], at);
      if t.entry <= at < t.exit then before + [t] else before
  }

  ghost function Total(s: seq<Trade>): real {
    if s == [] then 0.0 else Total(s[..|s| - 1]) + s[|s| - 1].amount
  }

  ghost predicate EntrySorted(s: seq<Trade>) {
    forall i, j :: 0 <= i <= j < |s| ==> s[i].entry <= s[j].entry
  }

  /** Trades with both timestamps set. */
  ghost function Timed(trades: seq<Trade>): seq<Trade> {
    if trades == [] then []
    else
      var t := trades[|trades| - 1];
      var before := Timed(trades[..|trades| - 1]);
      if t.entry != 0 && t.exit != 0 then before + [t] else before
  }

  /** The rule a trade has to pass, given what is open at its entry. */
  predicate Admissible(openCount: int, committed: real, t: Trade, capitalLimit: real, maxConcurrent: int) {
    && openCount < maxConcurrent
    && 0.0 < t.amount <= capitalLimit
    && t.amount <= capitalLimit - committed
  }

  /** The selection over trades sorted by entry. */
  ghost function Selected(s: seq<Trade>, capitalLimit: real, maxConcurrent: int): seq<Trade> {
    if s == [] then []
    else
      var t, before := s[|s| - 1], Selected(s[..|s| - 1], capitalLimit, maxConcurrent);
      var open := OpenAfter(before, t.entry);
      if Admissible(|open|, Total(open), t, capitalLimit, maxConcurrent) then before + [t] else before
  }

  // ---- The loop, with the active set compacted in place ----

  /** Keeps the first `n` elements whose exit is after `entry`, in order, at the front of the array. */
  method FilterActive(active: array<Trade>, n: nat, entry: int) returns (kept: nat)
    requires n <= active.Length
    modifies active
    ensures kept <= n && active[..kept] == OpenAfter(old(active[..n]), entry)
  {
    kept := 0;
    ghost var was := active[..n];
    for i := 0 to n
      invariant kept <= i
      invariant active[..kept] == OpenAfter(was[..i], entry)
      invariant forall j :: i <= j < n ==> active[j] == was[j]
    {
      OpenAfterNext(was, i, entry);
      if active[i].exit > entry {
        PutAt(active, kept, i, n);
        kept := kept + 1;
      }
    }
    Seqs.All(was);
  }

  /** Moves element `i` to the end of the kept ones. */
  method PutAt(active: array<Trade>, kept: nat, i: nat, ghost n: nat)
    requires kept <= i < n <= active.Length
    modifies active
    ensures active[..kept + 1] == old(active[..kept]) + [old(active[i])] && forall j :: i < j < n ==> active[j] == old(active[j])
  {
    active[kept] := active[i];
  }

  lemma OpenAfterNext(s: seq<Trade>, i: nat, at: int)
    requires i < |s|
    ensures OpenAfter(s[..i + 1], at) == if s[i].exit > at then OpenAfter(s[..i], at) + [s[i]] else OpenAfter(s[..i], at)
  {
    Seqs.Prefix(s, i);
    OpenAfterSnoc(s[..i], s[i], at);
  }

  /** Dropping the trades closed by an earlier instant first makes no difference. */
  lemma {:induction false} OpenAfterTwice(s: seq<Trade>, early: int, late: int)
    requires early <= late
    ensures OpenAfter(OpenAfter(s, early), late) == OpenAfter(s, late)
  {
    if s != [] {
      OpenAfterTwice(s[..|s| - 1], early, late);
      var kept, t := OpenAfter(s[..|s| - 1], early), s[|s| - 1];
      OpenAfterSnoc(kept, t, late);
    }
  }

  lemma OpenAfterSnoc(s: seq<Trade>, t: Trade, at: int)
    ensures OpenAfter(s + [t], at) == if t.exit > at then OpenAfter(s, at) + [t] else OpenAfter(s, at)
  {
    Seqs.Snoc(s, s, t);
  }

  method TotalOf(active: array<Trade>, n: nat) returns (total: real)
    requires n <= active.Length
    ensures total == Total(active[..n])
  {
    total := 0.0;
    for j := 0 to n
      invariant total == Total(active[..j])
    {
      assert active[..j + 1][..j] == active[..j];
      total := total + active[j].amount;
    }
  }

  method AddAt(active: array<Trade>, n: nat, trade: Trade)
    requires n < active.Length
    modifies active
    ensures active[..n + 1] == old(active[..n]) + [trade]
  {
    active[n] := trade;
  }

  /** One iteration: drops what is closed and takes the trade when it is admissible beside what is left. */
  method Consider(active: array<Trade>, n: nat, trade: Trade, capitalLimit: real, maxConcurrent: int)
    returns (taken: bool, n': nat)
    requires n < active.Length
    modifies active
    ensures n' <= n + 1
    ensures var open := OpenAfter(old(active[..n]), trade.entry);
            && taken == Admissible(|open|, Total(open), trade, capitalLimit, maxConcurrent)
            && active[..n'] == if taken then open + [trade] else open
  {
    n' := FilterActive(active, n, trade.entry);
    var committed := TotalOf(active, n');
    taken := !(n' >= maxConcurrent || trade.amount <= 0.0 || trade.amount > capitalLimit
               || trade.amount > capitalLimit - committed);
    if taken {
      AddAt(active, n', trade);
      n' := n' + 1;
    }
  }

  /** The first `n` elements of `active` stand for the selected trades still open. */
  lemma StandsForSelected(working: seq<Trade>, selected: seq<Trade>, trade: Trade)
    requires OpenAfter(working, trade.entry) == OpenAfter(selected, trade.entry)
    ensures var open := OpenAfter(working, trade.entry);
            && OpenAfter(open, trade.entry) == OpenAfter(selected, trade.entry)
            && OpenAfter(open + [trade], trade.entry) == OpenAfter(selected + [trade], trade.entry)
  {
    var open := OpenAfter(working, trade.entry);
    OpenAfterTwice(working, trade.entry, trade.entry);
    OpenAfterSnoc(open, trade, trade.entry);
    OpenAfterSnoc(selected, trade, trade.entry);
  }

  /** After `i` trades the working set and the selection agree on what is open from then on. */
  ghost predicate Agree(working: seq<Trade>, selected: seq<Trade>, sorted: seq<Trade>, i: nat)
    requires i <= |sorted|
  {
    if i == 0 then working == selected == []
    else OpenAfter(working, sorted[i - 1].entry) == OpenAfter(selected, sorted[i - 1].entry)
  }

  lemma AgreeLater(working: seq<Trade>, selected: seq<Trade>, sorted: seq<Trade>, i: nat)
    requires i < |sorted| && EntrySorted(sorted) && Agree(working, selected, sorted, i)
    ensures OpenAfter(working, sorted[i].entry) == OpenAfter(selected, sorted[i].entry)
  {
    if i > 0 {
      OpenAfterTwice(working, sorted[i - 1].entry, sorted[i].entry);
      OpenAfterTwice(selected, sorted[i - 1].entry, sorted[i].entry);
    }
  }

  lemma SelectedStep(s: seq<Trade>, capitalLimit: real, maxConcurrent: int, i: nat)
    requires i < |s|
    ensures var before := Selected(s[..i], capitalLimit, maxConcurrent);
            var open := OpenAfter(before, s[i].entry);
            Selected(s[..i + 1], capitalLimit, maxConcurrent) ==
              if Admissible(|open|, Total(open), s[i], capitalLimit, maxConcurrent) then before + [s[i]] else before
  {
    Seqs.Prefix(s, i);
  }

  /** `sorted` holds the trades with both timestamps, in any arrangement by entry: the source's sort is
      not stable. */
  method SelectCapitalTrades(sorted: seq<Trade>, capitalLimit: real, maxConcurrent: int) returns (selected: seq<Trade>)
    requires EntrySorted(sorted)
    ensures selected == if capitalLimit <= 0.0 || maxConcurrent <= 0 then [] else Selected(sorted, capitalLimit, maxConcurrent)
  {
    selected := [];
    if capitalLimit <= 0.0 || maxConcurrent <= 0 {
      return;
    }
    var active := new Trade[|sorted|](_ => Trade(0, 0, 0, 0.0));
    var n: nat := 0;
    for i := 0 to |sorted|
      invariant n <= i && active.Length == |sorted|
      invariant Follows(active[..n], selected, sorted, capitalLimit, maxConcurrent, i)
    {
      ghost var before, working := selected, active[..n];
      var taken;
      taken, n := Consider(active, n, sorted[i], capitalLimit, maxConcurrent);
      if taken {
        selected := selected + [sorted[i]];
      }
      FollowsOn(working, before, sorted, capitalLimit, maxConcurrent, i, taken);
    }
    Seqs.All(sorted);
  }

  /** What holds after `i` trades. */
  ghost predicate Follows(working: seq<Trade>, selected: seq<Trade>, sorted: seq<Trade>, capitalLimit: real,
                          maxConcurrent: int, i: nat) {
    i <= |sorted| && selected == Selected(sorted[..i], capitalLimit, maxConcurrent) && Agree(working, selected, sorted, i)
  }

  lemma FollowsOn(working: seq<Trade>, before: seq<Trade>, sorted: seq<Trade>, capitalLimit: real, maxConcurrent: int,
                  i: nat, taken: bool)
    requires i < |sorted| && EntrySorted(sorted) && Follows(working, before, sorted, capitalLimit, maxConcurrent, i)
    requires var open := OpenAfter(working, sorted[i].entry);
             taken == Admissible(|open|, Total(open), sorted[i], capitalLimit, maxConcurrent)
    ensures var open := OpenAfter(working, sorted[i].entry);
            Follows(if taken then open + [sorted[i]] else open, if taken then before + [sorted[i]] else before,
                    sorted, capitalLimit, maxConcurrent, i + 1)
  {
    AgreeLater(working, before, sorted, i);
    StandsForSelected(working, before, sorted[i]);
    SelectedStep(sorted, capitalLimit, maxConcurrent, i);
  }

  /** Only timed trades are selected, each at most as often as it was given. */
  lemma SelectedAreTimed(trades: seq<Trade>, sorted: seq<Trade>, capitalLimit: real, maxConcurrent: int)
    requires multiset(sorted) == multiset(Timed(trades))
    ensures multiset(Selected(sorted, capitalLimit, maxConcurrent)) <= multiset(Timed(trades))
  {
    SelectedWithin(sorted, capitalLimit, maxConcurrent);
  }

  lemma {:induction false} SelectedWithin(s: seq<Trade>, capitalLimit: real, maxConcurrent: int)
    ensures multiset(Selected(s, capitalLimit, maxConcurrent)) <= multiset(s)
  {
    if s != [] {
      SelectedWithin(s[..|s| - 1], capitalLimit, maxConcurrent);
      Seqs.Last(s);
    }
  }

  // ---- The limits at every instant ----

  lemma HoldingSnoc(s: seq<Trade>, t: Trade, at: int)
    ensures Holding(s + [t], at) == if t.entry <= at < t.exit then Holding(s, at) + [t] else Holding(s, at)
  {
    Seqs.Snoc(s, s, t);
  }

  lemma TotalSnoc(s: seq<Trade>, t: Trade)
    ensures Total(s + [t]) == Total(s) + t.amount
  {
    Seqs.Snoc(s, s, t);
  }

  /** What is held at some instant is among what is open after any earlier one. */
  lemma {:induction false} HeldWithinOpen(s: seq<Trade>, entry: int, at: int)
    requires entry <= at
    requires forall i :: 0 <= i < |s| ==> s[i].amount > 0.0
    ensures |Holding(s, at)| <= |OpenAfter(s, entry)|
    ensures 0.0 <= Total(Holding(s, at)) <= Total(OpenAfter(s, entry))
  {
    if s != [] {
      var t := s[|s| - 1];
      HeldWithinOpen(s[..|s| - 1], entry, at);
      TotalSnoc(Holding(s[..|s| - 1], at), t);
      TotalSnoc(OpenAfter(s[..|s| - 1], entry), t);
    }
  }

  ghost predicate WithinLimits(s: seq<Trade>, capitalLimit: real, maxConcurrent: int, at: int) {
    |Holding(s, at)| <= maxConcurrent && Total(Holding(s, at)) <= capitalLimit
  }

  /** At every instant the trades in progress respect both limits, although the loop looks only at entry
      instants. */
  lemma {:induction false} LimitsHoldAlways(s: seq<Trade>, capitalLimit: real, maxConcurrent: int, at: int)
    requires EntrySorted(s) && capitalLimit > 0.0 && maxConcurrent > 0
    ensures WithinLimits(Selected(s, capitalLimit, maxConcurrent), capitalLimit, maxConcurrent, at)
    ensures forall t :: t in Selected(s, capitalLimit, maxConcurrent) ==> t in s && t.amount > 0.0
  {
    if s != [] {
      var earlier, t := s[..|s| - 1], s[|s| - 1];
      LimitsHoldAlways(earlier, capitalLimit, maxConcurrent, at);
      var before := Selected(earlier, capitalLimit, maxConcurrent);
      var open := OpenAfter(before, t.entry);
      if Admissible(|open|, Total(open), t, capitalLimit, maxConcurrent) {
        HoldingSnoc(before, t, at);
        TotalSnoc(Holding(before, at), t);
        if t.entry <= at {
          HeldWithinOpen(before, t.entry, at);
        }
      }
    }
  }

  /** A skipped trade would have broken a rule at its entry: there are already `maxConcurrent` trades held then, or
      with it they would outweigh the capital, or it is not a positive amount. */
  lemma SkippedForCause(s: seq<Trade>, capitalLimit: real, maxConcurrent: int, i: nat)
    requires EntrySorted(s) && capitalLimit > 0.0 && maxConcurrent > 0 && i < |s|
    requires Selected(s[..i + 1], capitalLimit, maxConcurrent) == Selected(s[..i], capitalLimit, maxConcurrent)
    ensures var held := Holding(Selected(s[..i], capitalLimit, maxConcurrent), s[i].entry);
            s[i].amount <= 0.0 || |held| + 1 > maxConcurrent || Total(held) + s[i].amount > capitalLimit
  {
    var before := Selected(s[..i], capitalLimit, maxConcurrent);
    EntriesBefore(s, capitalLimit, maxConcurrent, i);
    LimitsHoldAlways(s[..i], capitalLimit, maxConcurrent, s[i].entry);
    HeldIsOpen(before, s[i].entry);
    HeldWithinOpen(before, s[i].entry, s[i].entry);
    assert before + [s[i]] != before by {
      assert |before + [s[i]]| != |before|;
    }
    SelectedStep(s, capitalLimit, maxConcurrent, i);
  }

  lemma {:induction false} EntriesBefore(s: seq<Trade>, capitalLimit: real, maxConcurrent: int, i: nat)
    requires EntrySorted(s) && i < |s|
    ensures forall k :: 0 <= k < |Selected(s[..i], capitalLimit, maxConcurrent)| ==>
              Selected(s[..i], capitalLimit, maxConcurrent)[k].entry <= s[i].entry
  {
    if i > 0 {
      EntriesBefore(s, capitalLimit, maxConcurrent, i - 1);
      Seqs.Prefix(s, i - 1);
    }
  }

  lemma {:induction false} HeldIsOpen(s: seq<Trade>, at: int)
    requires forall k :: 0 <= k < |s| ==> s[k].entry <= at
    ensures Holding(s, at) == OpenAfter(s, at)
  {
    if s != [] {
      HeldIsOpen(s[..|s| - 1], at);
    }
  }
}
