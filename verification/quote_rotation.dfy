/** `quoteRotation.Take` of cmd/collector/tasks.go.

    A token is represented by its rank in the string order, the only thing the sort looks at. */
module QuoteRotation {
  import Sorting
  import Seqs

  type Token = int

  /** The remainder, by repeated subtraction. */
  function Wrap(p: nat, n: nat): (r: nat)
    requires n > 0
    ensures r < n
  {
    if p < n then p else Wrap(p - n, n)
  }

  lemma {:induction false} WrapIsMod(p: nat, n: nat)
    requires n > 0
    ensures Wrap(p, n) == p % n
  {
    if p < n {
      SmallMod(p, n);
    } else {
      WrapIsMod(p - n, n);
      ModStep(p - n, n);
    }
  }

  lemma SmallMod(p: nat, n: nat)
    requires p < n
    ensures p % n == p
  {
  }

  lemma ModStep(y: nat, n: nat)
    requires n > 0
    ensures (y + n) % n == y % n
  {
    var d := (y + n) / n - y / n;
    assert n * d == n + y % n - (y + n) % n;
    assert 0 < n * d < n * 2;
    OneMultiple(n, d);
  }

  lemma OneMultiple(n: nat, d: int)
    requires n > 0 && 0 < n * d < n * 2
    ensures d == 1
  {
    assert n * (2 - d) > 0;
  }

  lemma {:induction false} WrapShift(x: nat, i: nat, n: nat)
    requires n > 0
    ensures Wrap(x + i, n) == Wrap(Wrap(x, n) + i, n)
  {
    if x >= n {
      WrapShift(x - n, i, n);
      assert x + i - n == x - n + i;
    }
  }

  function CycleAt(s: seq<Token>, p: nat): Token
    requires s != []
  {
    s[Wrap(p, |s|)]
  }

  /** `k` consecutive elements of the cyclic order of `s`, from position `start`. */
  function Cyclic(s: seq<Token>, start: nat, k: nat): (r: seq<Token>)
    requires s != []
    ensures |r| == k
  {
    if k == 0 then [] else Cyclic(s, start, k - 1) + [CycleAt(s, start + k - 1)]
  }

  function StartOf(cursor: map<string, int>, key: string, n: nat): nat
    requires n > 0
  {
    if key in cursor && 0 <= cursor[key] < n then cursor[key] else 0
  }

  predicate TakesAll(tokens: seq<Token>, max: int) {
    max <= 0 || |tokens| <= max
  }

  /** The next `max` tokens from the key's cursor. */
  function Next(cursor: map<string, int>, key: string, s: seq<Token>, max: nat): (out: seq<Token>)
    requires s != []
    ensures |out| == max
  {
    Cyclic(s, StartOf(cursor, key, |s|), max)
  }

  function Advanced(cursor: map<string, int>, key: string, n: nat, max: nat): map<string, int>
    requires n > 0
  {
    cursor[key := Wrap(StartOf(cursor, key, n) + max, n)]
  }

  function Taken(cursor: map<string, int>, key: string, tokens: seq<Token>, max: int): (out: seq<Token>)
    ensures |out| == if TakesAll(tokens, max) then |tokens| else max
  {
    if TakesAll(tokens, max) then tokens else Next(cursor, key, Sorting.Sort(tokens), max)
  }

  function Moved(cursor: map<string, int>, key: string, tokens: seq<Token>, max: int): map<string, int> {
    if TakesAll(tokens, max) then cursor else Advanced(cursor, key, |tokens|, max)
  }

  method PickCyclic(sorted: seq<Token>, start: nat, max: nat) returns (out: seq<Token>)
    requires sorted != []
    ensures out == Cyclic(sorted, start, max)
  {
    out := [];
    for i := 0 to max
      invariant out == Cyclic(sorted, start, i)
    {
      WrapIsMod(start + i, |sorted|);
      out := out + [sorted[(start + i) % |sorted|]];
    }
  }

  class Rotation {
    var cursor: map<string, int>

    constructor ()
      ensures cursor == map[]
    {
      cursor := map[];
    }

    method Take(key: string, tokens: seq<Token>, max: int) returns (out: seq<Token>)
      modifies this
      ensures out == Taken(old(cursor), key, tokens, max)
      ensures cursor == Moved(old(cursor), key, tokens, max)
    {
      if max <= 0 || |tokens| <= max {
        return tokens;
      }
      var sorted := Sorting.Sort(tokens);
      var start := if key in cursor then cursor[key] else 0;
      if start < 0 || start >= |sorted| {
        start := 0;
      }
      out := PickCyclic(sorted, start, max);
      WrapIsMod(start + max, |tokens|);
      cursor := cursor[key := (start + |out|) % |sorted|];
    }
  }

  // ---- Successive calls ----

  function Sum(limits: seq<nat>): nat {
    if limits == [] then 0 else Sum(limits[..|limits| - 1]) + limits[|limits| - 1]
  }

  /** Calls with the given limits: each takes fewer tokens than there are. */
  ghost predicate Partial(limits: seq<nat>, n: nat) {
    forall i :: 0 <= i < |limits| ==> 0 < limits[i] < n
  }

  lemma {:induction false} CyclicAppend(s: seq<Token>, start: nat, k: nat, m: nat)
    requires s != []
    ensures Cyclic(s, start, k + m) == Cyclic(s, start, k) + Cyclic(s, start + k, m)
  {
    if m > 0 {
      CyclicAppend(s, start, k, m - 1);
      assert k + m - 1 == k + (m - 1);
    }
  }

  /** Only the start's remainder matters. */
  lemma {:induction false} CyclicWraps(s: seq<Token>, start: nat, k: nat)
    requires s != []
    ensures Cyclic(s, Wrap(start, |s|), k) == Cyclic(s, start, k)
  {
    if k > 0 {
      CyclicWraps(s, start, k - 1);
      WrapShift(start, k - 1, |s|);
    }
  }

  /** The outputs of successive calls laid end to end, and the cursors afterwards. */
  ghost function Rounds(cursor: map<string, int>, key: string, s: seq<Token>, limits: seq<nat>): (seq<Token>,
                        map<string, int>)
    requires s != []
  {
    if limits == [] then ([], cursor)
    else
      var (out, moved) := Rounds(cursor, key, s, limits[..|limits| - 1]);
      var limit := limits[|limits| - 1];
      (out + Next(moved, key, s, limit), Advanced(moved, key, |s|, limit))
  }

  /** After `done` picks from `start`: what was handed out, and where the cursor stands. */
  ghost predicate Tiled(key: string, s: seq<Token>, start: nat, done: nat, out: seq<Token>, cursor: map<string, int>) {
    s != [] && out == Cyclic(s, start, done) && StartOf(cursor, key, |s|) == Wrap(start + done, |s|)
  }

  /** One call goes on where the calls before it stopped. */
  lemma RoundTiles(key: string, s: seq<Token>, start: nat, done: nat, out: seq<Token>, cursor: map<string, int>,
                   limit: nat)
    requires Tiled(key, s, start, done, out, cursor)
    ensures Tiled(key, s, start, done + limit, out + Next(cursor, key, s, limit), Advanced(cursor, key, |s|, limit))
  {
    CyclicWraps(s, start + done, limit);
    CyclicAppend(s, start, done, limit);
    WrapShift(start + done, limit, |s|);
    assert start + done + limit == start + (done + limit);
  }

  lemma {:induction false} RoundsTile(cursor: map<string, int>, key: string, s: seq<Token>, limits: seq<nat>)
    requires s != []
    ensures var after := Rounds(cursor, key, s, limits);
            Tiled(key, s, StartOf(cursor, key, |s|), Sum(limits), after.0, after.1)
  {
    if limits != [] {
      var earlier := limits[..|limits| - 1];
      var before := Rounds(cursor, key, s, earlier);
      RoundsTile(cursor, key, s, earlier);
      RoundTiles(key, s, StartOf(cursor, key, |s|), Sum(earlier), before.0, before.1, limits[|limits| - 1]);
    }
  }

  /** However the limits vary, the outputs laid end to end are the cyclic order from the first cursor. */
  method TakeRounds(r: Rotation, key: string, tokens: seq<Token>, limits: seq<nat>) returns (out: seq<Token>)
    requires tokens != [] && Partial(limits, |tokens|)
    modifies r
    ensures out == Cyclic(Sorting.Sort(tokens), StartOf(old(r.cursor), key, |tokens|), Sum(limits))
    ensures Rounds(old(r.cursor), key, Sorting.Sort(tokens), limits) == (out, r.cursor)
  {
    ghost var s := Sorting.Sort(tokens);
    out := [];
    for i := 0 to |limits|
      invariant Rounds(old(r.cursor), key, s, limits[..i]) == (out, r.cursor)
    {
      Seqs.Prefix(limits, i);
      var part := r.Take(key, tokens, limits[i]);
      out := out + part;
    }
    Seqs.All(limits);
    RoundsTile(old(r.cursor), key, s, limits);
  }

  lemma {:induction false} StretchIsSlice(s: seq<Token>, start: nat, k: nat)
    requires start + k <= |s| && s != []
    ensures Cyclic(s, start, k) == s[start..start + k]
  {
    if k > 0 {
      StretchIsSlice(s, start, k - 1);
      Seqs.Next(s, start, start + k - 1);
    }
  }

  /** Any `n` consecutive picks are the whole token set once. */
  lemma FullCycle(s: seq<Token>, start: nat)
    requires s != [] && start < |s|
    ensures multiset(Cyclic(s, start, |s|)) == multiset(s)
  {
    CycleIsRotation(s, start);
    Seqs.Cut(s, start);
    Seqs.Counts(s[..start], s[start..]);
    Seqs.Counts(s[start..], s[..start]);
  }

  lemma CycleIsRotation(s: seq<Token>, start: nat)
    requires s != [] && start < |s|
    ensures Cyclic(s, start, |s|) == s[start..] + s[..start]
  {
    var tail := |s| - start;
    CyclicAppend(s, start, tail, start);
    CyclicWraps(s, |s|, start);
    assert Wrap(|s|, |s|) == 0;
    StretchIsSlice(s, start, tail);
    StretchIsSlice(s, 0, start);
  }

  function Times(n: nat, m: nat): nat {
    if m == 0 then 0 else Times(n, m - 1) + n
  }

  lemma {:induction false} TimesIsProduct(n: nat, m: nat)
    ensures Times(n, m) == n * m
  {
    if m > 0 {
      TimesIsProduct(n, m - 1);
      assert n * m == n * (m - 1) + n;
    }
  }

  lemma {:induction false} WholeRounds(start: nat, n: nat, rounds: nat)
    requires start < n
    ensures Wrap(start + Times(n, rounds), n) == start
  {
    if rounds > 0 {
      WholeRounds(start, n, rounds - 1);
    }
  }

  /** How often `x` is among the picks. */
  ghost function Picked(s: seq<Token>, start: nat, picks: nat, x: Token): nat
    requires s != []
  {
    multiset(Cyclic(s, start, picks))[x]
  }

  /** After whole rounds the picks start again where the first did. */
  lemma CycleLater(s: seq<Token>, start: nat, picks: nat, x: Token)
    requires s != [] && start < |s| && Wrap(start + picks, |s|) == start
    ensures Picked(s, start, picks + |s|, x) == Picked(s, start, picks, x) + multiset(s)[x]
  {
    var before, round := Cyclic(s, start, picks), Cyclic(s, start, |s|);
    CyclicAppend(s, start, picks, |s|);
    CyclicWraps(s, start + picks, |s|);
    assert Cyclic(s, start, picks + |s|) == before + round;
    Seqs.Counts(before, round);
    FullCycle(s, start);
  }

  lemma {:induction false} Shares(s: seq<Token>, start: nat, m: nat, x: Token)
    requires s != [] && start < |s|
    ensures Picked(s, start, Times(|s|, m), x) == Times(multiset(s)[x], m)
  {
    if m > 0 {
      Shares(s, start, m - 1, x);
      WholeRounds(start, |s|, m - 1);
      RoundShares(s, start, Times(|s|, m - 1), multiset(s)[x], m - 1, x);
    }
  }

  lemma RoundShares(s: seq<Token>, start: nat, picks: nat, count: nat, rounds: nat, x: Token)
    requires s != [] && start < |s| && Wrap(start + picks, |s|) == start && count == multiset(s)[x]
    requires Picked(s, start, picks, x) == Times(count, rounds)
    ensures Picked(s, start, picks + |s|, x) == Times(count, rounds + 1)
  {
    CycleLater(s, start, picks, x);
  }

  // ---- Calls with one limit ----

  /** `calls` calls with the limit `m`. */
  ghost function Constant(m: nat, calls: nat): (limits: seq<nat>)
    ensures |limits| == calls && forall i :: 0 <= i < calls ==> limits[i] == m
  {
    seq(calls, _ => m)
  }

  lemma {:induction false} ConstantSum(m: nat, calls: nat)
    ensures Sum(Constant(m, calls)) == Times(m, calls)
  {
    if calls > 0 {
      ConstantSum(m, calls - 1);
      assert Constant(m, calls)[..calls - 1] == Constant(m, calls - 1);
    }
  }

  lemma TimesCommutes(n: nat, m: nat)
    ensures Times(n, m) == Times(m, n)
  {
    TimesIsProduct(n, m);
    TimesIsProduct(m, n);
  }

  /** What calls with one limit hand out, from whatever cursor. */
  ghost function HandedOut(cursor: map<string, int>, key: string, tokens: seq<Token>, m: nat, calls: nat): seq<Token>
    requires tokens != []
  {
    Rounds(cursor, key, Sorting.Sort(tokens), Constant(m, calls)).0
  }

  lemma HandedOutCyclic(cursor: map<string, int>, key: string, tokens: seq<Token>, m: nat, calls: nat)
    requires tokens != []
    ensures HandedOut(cursor, key, tokens, m, calls) ==
            Cyclic(Sorting.Sort(tokens), StartOf(cursor, key, |tokens|), Times(m, calls))
  {
    ConstantSum(m, calls);
    RoundsTile(cursor, key, Sorting.Sort(tokens), Constant(m, calls));
  }

  /** n calls with limit m pick every token exactly m times, or m times as often as it occurs. */
  lemma EqualShares(cursor: map<string, int>, key: string, tokens: seq<Token>, m: nat, x: Token)
    requires 0 < m < |tokens|
    ensures multiset(HandedOut(cursor, key, tokens, m, |tokens|))[x] == Times(multiset(tokens)[x], m)
  {
    HandedOutCyclic(cursor, key, tokens, m, |tokens|);
    TimesCommutes(m, |tokens|);
    Shares(Sorting.Sort(tokens), StartOf(cursor, key, |tokens|), m, x);
  }

  /** Every token is picked within n picks. */
  lemma SoonPicked(s: seq<Token>, start: nat, picks: nat, x: Token)
    requires s != [] && start < |s| && picks >= |s| && x in s
    ensures x in Cyclic(s, start, picks)
  {
    FullCycle(s, start);
    var first := Cyclic(s, start, |s|);
    assert x in multiset(s);
    assert x in multiset(first);
    CyclicAppend(s, start, |s|, picks - |s|);
  }

  lemma EnoughCalls(n: nat, m: nat, calls: nat)
    requires m > 0 && calls >= (n + m - 1) / m
    ensures Times(m, calls) >= n
  {
    TimesIsProduct(m, calls);
    MoreCalls(n, m, calls, (n + m - 1) / m);
  }

  lemma MoreCalls(n: nat, m: nat, calls: nat, least: nat)
    requires m > 0 && calls >= least && m * least > n - 1
    ensures m * calls >= n
  {
    assert m * (calls - least) >= 0;
  }

  lemma HandedOutWhenEnough(cursor: map<string, int>, key: string, tokens: seq<Token>, m: nat, calls: nat, x: Token)
    requires 0 < m < |tokens| && Times(m, calls) >= |tokens| && x in tokens
    ensures x in HandedOut(cursor, key, tokens, m, calls)
  {
    var s := Sorting.Sort(tokens);
    HandedOutCyclic(cursor, key, tokens, m, calls);
    assert x in s;
    SoonPicked(s, StartOf(cursor, key, |tokens|), Times(m, calls), x);
  }

  /** Every token is handed out within ceil(n / m) calls with limit m. */
  lemma SoonHandedOut(cursor: map<string, int>, key: string, tokens: seq<Token>, m: nat, calls: nat, x: Token)
    requires 0 < m < |tokens| && calls >= (|tokens| + m - 1) / m && x in tokens
    ensures x in HandedOut(cursor, key, tokens, m, calls)
  {
    EnoughCalls(|tokens|, m, calls);
    HandedOutWhenEnough(cursor, key, tokens, m, calls, x);
  }
}
