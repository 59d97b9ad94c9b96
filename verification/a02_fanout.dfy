/** The worker fan-out of `runA02Backtest` in internal/backtest/a02.go: workers take symbols from a channel and append
    trades under a lock in any order; a sort follows. */
module A02FanOut {
  import opened Options
  import opened Text
  import Seqs

  datatype Ref = Ref(exchange: string, token: string, symbol: string)

  /** What the back-test of one symbol yields; `entry` is the entry time. */
  datatype Result = Result(entry: int, netProfit: real)

  datatype Trade = Trade(ref: Ref, result: Result)

  /** The pure part: skipped symbols yield nothing. */
  type Evaluate = Ref -> Option<Result>

  function Outcome(ref: Ref, eval: Evaluate): multiset<Trade> {
    match eval(ref)
    case None => multiset{}
    case Some(r) => multiset{Trade(ref, r)}
  }

  function Outcomes(refs: seq<Ref>, eval: Evaluate): multiset<Trade> {
    if refs == [] then multiset{} else Outcomes(refs[..|refs| - 1], eval) + Outcome(refs[|refs| - 1], eval)
  }

  // ---- The machine ----

  datatype State = State(next: nat, held: seq<Option<Ref>>, trades: seq<Trade>)

  /** The channel hands the next symbol to an idle worker; a worker finishes the symbol it holds. */
  datatype Step = Hand(worker: nat) | Finish(worker: nat)

  predicate Enabled(s: State, step: Step, symbols: seq<Ref>) {
    && step.worker < |s.held|
    && (step.Hand? ==> s.next < |symbols| && s.held[step.worker].None?)
    && (step.Finish? ==> s.held[step.worker].Some?)
  }

  function Take(s: State, step: Step, symbols: seq<Ref>, eval: Evaluate): State
    requires Enabled(s, step, symbols)
  {
    match step
    case Hand(w) => State(s.next + 1, s.held[w := Some(symbols[s.next])], s.trades)
    case Finish(w) =>
      var ref := s.held[w].value;
      State(s.next, s.held[w := None],
            match eval(ref)
            case None => s.trades
            case Some(r) => s.trades + [Trade(ref, r)])
  }

  /** What a schedule makes of the symbols with that many workers, if all its steps can be taken. */
  function Run(workers: nat, symbols: seq<Ref>, eval: Evaluate, steps: seq<Step>): Option<State> {
    if steps == [] then Some(State(0, seq(workers, _ => None), []))
    else
      var last := steps[|steps| - 1];
      match Run(workers, symbols, eval, steps[..|steps| - 1])
      case None => None
      case Some(before) => if Enabled(before, last, symbols) then Some(Take(before, last, symbols, eval)) else None
  }

  predicate Done(s: State, symbols: seq<Ref>) {
    s.next == |symbols| && forall w :: 0 <= w < |s.held| ==> s.held[w].None?
  }

  function Pending(held: seq<Option<Ref>>, eval: Evaluate): multiset<Trade> {
    if held == [] then multiset{}
    else
      var before, last := Pending(held[..|held| - 1], eval), held[|held| - 1];
      if last.None? then before else before + Outcome(last.value, eval)
  }

  lemma {:induction false} PendingUpdate(held: seq<Option<Ref>>, w: nat, ref: Ref, eval: Evaluate)
    requires w < |held|
    ensures Pending(held[w := Some(ref)], eval) == Pending(held[w := None], eval) + Outcome(ref, eval)
  {
    Seqs.Update(held, w, Some(ref));
    Seqs.Update(held, w, None);
    if w < |held| - 1 {
      PendingUpdate(held[..|held| - 1], w, ref, eval);
    }
  }

  lemma {:induction false} NothingPending(held: seq<Option<Ref>>, eval: Evaluate)
    requires forall w :: 0 <= w < |held| ==> held[w].None?
    ensures Pending(held, eval) == multiset{}
  {
    if held != [] {
      NothingPending(held[..|held| - 1], eval);
    }
  }

  /** Trades found and trades to come are those of the symbols handed out. */
  ghost predicate Conserved(s: State, symbols: seq<Ref>, eval: Evaluate) {
    s.next <= |symbols| && multiset(s.trades) + Pending(s.held, eval) == Outcomes(symbols[..s.next], eval)
  }

  lemma HandConserves(s: State, w: nat, symbols: seq<Ref>, eval: Evaluate)
    requires Conserved(s, symbols, eval) && Enabled(s, Hand(w), symbols)
    ensures Conserved(Take(s, Hand(w), symbols, eval), symbols, eval)
  {
    PendingUpdate(s.held, w, symbols[s.next], eval);
    assert s.held[w := None] == s.held;
    Seqs.Prefix(symbols, s.next);
  }

  lemma FinishConserves(s: State, w: nat, symbols: seq<Ref>, eval: Evaluate)
    requires Conserved(s, symbols, eval) && Enabled(s, Finish(w), symbols)
    ensures Conserved(Take(s, Finish(w), symbols, eval), symbols, eval)
  {
    PendingUpdate(s.held, w, s.held[w].value, eval);
    assert s.held[w := Some(s.held[w].value)] == s.held;
  }

  lemma {:induction false} RunConserves(workers: nat, symbols: seq<Ref>, eval: Evaluate, steps: seq<Step>)
    ensures var s := Run(workers, symbols, eval, steps); s.Some? ==> Conserved(s.value, symbols, eval)
  {
    if steps == [] {
      NothingPending(seq(workers, _ => None), eval);
    } else {
      RunConserves(workers, symbols, eval, steps[..|steps| - 1]);
      var before := Run(workers, symbols, eval, steps[..|steps| - 1]);
      var last := steps[|steps| - 1];
      if before.Some? && Enabled(before.value, last, symbols) {
        match last
        case Hand(w) => HandConserves(before.value, w, symbols, eval);
        case Finish(w) => FinishConserves(before.value, w, symbols, eval);
      }
    }
  }

  /** At the end no trade is lost or repeated. */
  lemma AllTradesFound(workers: nat, symbols: seq<Ref>, eval: Evaluate, steps: seq<Step>, s: State)
    requires Run(workers, symbols, eval, steps) == Some(s) && Done(s, symbols)
    ensures multiset(s.trades) == Outcomes(symbols, eval)
  {
    RunConserves(workers, symbols, eval, steps);
    NothingPending(s.held, eval);
    Seqs.All(symbols);
  }

  // ---- The sort ----

  predicate Before(a: Trade, b: Trade) {
    a.result.entry < b.result.entry || (a.result.entry == b.result.entry && StringLess(a.ref.token, b.ref.token))
  }

  /** `sorted` is a sort of `trades`, whatever it does with ties. */
  ghost predicate Sorts(sorted: seq<Trade>, trades: multiset<Trade>) {
    multiset(sorted) == trades && forall i, j :: 0 <= i < j < |sorted| ==> !Before(sorted[j], sorted[i])
  }

  /** In order of entry, and of tokens at one entry. */
  lemma SortedByEntry(sorted: seq<Trade>, trades: multiset<Trade>, i: nat, j: nat)
    requires Sorts(sorted, trades) && i < j < |sorted|
    ensures sorted[i].result.entry <= sorted[j].result.entry
    ensures sorted[i].result.entry == sorted[j].result.entry ==>
              sorted[i].ref.token == sorted[j].ref.token || StringLess(sorted[i].ref.token, sorted[j].ref.token)
  {
    StringLessOrder(sorted[i].ref.token, sorted[j].ref.token, sorted[i].ref.token);
  }

  ghost predicate TokensTellTrades(trades: multiset<Trade>) {
    forall a, b :: a in trades && b in trades && a.ref.token == b.ref.token ==> a == b
  }

  /** The trades sort in one way only. */
  lemma {:induction false} OneSort(a: seq<Trade>, b: seq<Trade>, trades: multiset<Trade>)
    requires Sorts(a, trades) && Sorts(b, trades) && TokensTellTrades(trades)
    ensures a == b
  {
    assert |a| == |multiset(a)| == |b|;
    if a != [] {
      SameHead(a, b, trades);
      SortsTail(a, trades);
      SortsTail(b, trades);
      OneSort(a[1..], b[1..], trades - multiset{a[0]});
    }
  }

  lemma SortsTail(a: seq<Trade>, trades: multiset<Trade>)
    requires a != [] && Sorts(a, trades)
    ensures Sorts(a[1..], trades - multiset{a[0]}) && a == [a[0]] + a[1..]
  {
    assert a == [a[0]] + a[1..];
  }

  lemma SameHead(a: seq<Trade>, b: seq<Trade>, trades: multiset<Trade>)
    requires a != [] && b != [] && Sorts(a, trades) && Sorts(b, trades) && TokensTellTrades(trades)
    ensures a[0] == b[0]
  {
    assert a[0] in multiset(b) && b[0] in multiset(a);
    var i :| 0 <= i < |b| && b[i] == a[0];
    var j :| 0 <= j < |a| && a[j] == b[0];
    StringLessOrder(a[0].ref.token, b[0].ref.token, a[0].ref.token);
    StringLessOrder(b[0].ref.token, a[0].ref.token, b[0].ref.token);
  }

  /** No two symbols share a token. */
  ghost predicate TokensUnique(symbols: seq<Ref>) {
    forall i, j :: 0 <= i < j < |symbols| ==> symbols[i].token != symbols[j].token
  }

  lemma {:induction false} OutcomesHaveSources(symbols: seq<Ref>, eval: Evaluate, t: Trade)
    requires t in Outcomes(symbols, eval)
    ensures eval(t.ref) == Some(t.result) && exists i :: 0 <= i < |symbols| && symbols[i] == t.ref
  {
    var before, last := symbols[..|symbols| - 1], symbols[|symbols| - 1];
    if t in Outcomes(before, eval) {
      OutcomesHaveSources(before, eval, t);
      var i :| 0 <= i < |before| && before[i] == t.ref;
      assert symbols[i] == t.ref;
    } else {
      assert t in Outcome(last, eval);
    }
  }

  /** With unique tokens the sorted trades are the same for every number of workers and every schedule. */
  lemma ScheduleDoesNotMatter(symbols: seq<Ref>, eval: Evaluate,
                              workers: nat, steps: seq<Step>, s: State, sorted: seq<Trade>,
                              workers': nat, steps': seq<Step>, s': State, sorted': seq<Trade>)
    requires TokensUnique(symbols)
    requires Run(workers, symbols, eval, steps) == Some(s) && Done(s, symbols) && Sorts(sorted, multiset(s.trades))
    requires Run(workers', symbols, eval, steps') == Some(s') && Done(s', symbols) && Sorts(sorted', multiset(s'.trades))
    ensures sorted == sorted' && multiset(sorted) == Outcomes(symbols, eval)
  {
    AllTradesFound(workers, symbols, eval, steps, s);
    AllTradesFound(workers', symbols, eval, steps', s');
    var trades := Outcomes(symbols, eval);
    forall a, b | a in trades && b in trades && a.ref.token == b.ref.token ensures a == b {
      OutcomesHaveSources(symbols, eval, a);
      OutcomesHaveSources(symbols, eval, b);
    }
    OneSort(sorted, sorted', trades);
  }
}
