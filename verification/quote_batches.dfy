/** `buildQuoteBatches` and `splitBatches` of cmd/collector/tasks.go. */
module QuoteBatches {
  import opened QuoteRotation
  import opened StableSorting
  import opened Text
  import Seqs

  datatype Subscription = Subscription(exchange: string, kind: string, token: Token, tradingSymbol: string, underlying: string)

  datatype Filter = Filter(includeOptions: bool, includeNonOptions: bool, primaryKinds: set<string>, primarySymbols: set<string>)

  datatype Class = Skipped | Primary | Secondary(kind: string)

  function Classify(f: Filter, sub: Subscription): Class {
    var kind := Upper(sub.kind);
    if (if "OPT" <= kind then !f.includeOptions else !f.includeNonOptions) then Skipped
    else if kind in f.primaryKinds
            && (kind == "INDEX" && f.primarySymbols != {} ==>
                  Normal(sub.tradingSymbol) in f.primarySymbols || Normal(sub.underlying) in f.primarySymbols)
    then Primary
    else Secondary(kind)
  }

  /** The tokens of one exchange and class, in subscription order. */
  ghost function TokensOf(f: Filter, subs: seq<Subscription>, exchange: string, class_: Class): seq<Token> {
    if subs == [] then []
    else
      var last := subs[|subs| - 1];
      var before := TokensOf(f, subs[..|subs| - 1], exchange, class_);
      if last.exchange == exchange && Classify(f, last) == class_ then before + [last.token] else before
  }

  // ---- Which subscriptions are polled first, in turn, or not at all ----

  predicate IsOption(sub: Subscription) {
    |sub.kind| >= 3 && Upper(sub.kind)[0] == 'O' && Upper(sub.kind)[1] == 'P' && Upper(sub.kind)[2] == 'T'
  }

  /** Options and the rest are polled by different pollers. */
  predicate Admitted(f: Filter, sub: Subscription) {
    (IsOption(sub) && f.includeOptions) || (!IsOption(sub) && f.includeNonOptions)
  }

  /** Of a primary kind; an index must also be named, by its symbol or its underlying, when any names are given. */
  predicate First(f: Filter, sub: Subscription) {
    && Upper(sub.kind) in f.primaryKinds
    && (Upper(sub.kind) != "INDEX" || f.primarySymbols == {}
        || Normal(sub.tradingSymbol) in f.primarySymbols || Normal(sub.underlying) in f.primarySymbols)
  }

  lemma ClassifyIs(f: Filter, sub: Subscription)
    ensures Classify(f, sub) == Skipped <==> !Admitted(f, sub)
    ensures Classify(f, sub) == Primary <==> Admitted(f, sub) && First(f, sub)
    ensures forall k :: Classify(f, sub) == Secondary(k) <==> Admitted(f, sub) && !First(f, sub) && k == Upper(sub.kind)
  {
    var kind := Upper(sub.kind);
    assert "OPT" <= kind <==> |kind| >= 3 && kind[..3] == "OPT";
    if |kind| >= 3 {
      assert kind[..3] == [kind[0], kind[1], kind[2]];
    }
  }

  /** The tokens of an exchange that are polled every time, in subscription order. */
  ghost function EveryTime(f: Filter, subs: seq<Subscription>, exchange: string): seq<Token> {
    if subs == [] then []
    else
      var before, last := EveryTime(f, subs[..|subs| - 1], exchange), subs[|subs| - 1];
      if last.exchange == exchange && Admitted(f, last) && First(f, last) then before + [last.token] else before
  }

  /** Those of one kind that are polled in turn. */
  ghost function InTurn(f: Filter, subs: seq<Subscription>, exchange: string, kind: string): seq<Token> {
    if subs == [] then []
    else
      var before, last := InTurn(f, subs[..|subs| - 1], exchange, kind), subs[|subs| - 1];
      if last.exchange == exchange && Admitted(f, last) && !First(f, last) && Upper(last.kind) == kind
      then before + [last.token] else before
  }

  lemma {:induction false} TokensAre(f: Filter, subs: seq<Subscription>, exchange: string, kind: string)
    ensures TokensOf(f, subs, exchange, Primary) == EveryTime(f, subs, exchange)
    ensures TokensOf(f, subs, exchange, Secondary(kind)) == InTurn(f, subs, exchange, kind)
  {
    if subs != [] {
      TokensAre(f, subs[..|subs| - 1], exchange, kind);
      ClassifyIs(f, subs[|subs| - 1]);
    }
  }

  type TokenLists = map<(string, string), seq<Token>>

  function ListOf(m: TokenLists, exchange: string, kind: string): seq<Token> {
    if (exchange, kind) in m then m[(exchange, kind)] else []
  }

  ghost predicate NoneEmpty(m: TokenLists) {
    forall p :: p in m ==> m[p] != []
  }

  /** One walk over the subscriptions fills the primary and the secondary lists. */
  method Partition(f: Filter, subs: seq<Subscription>) returns (primary: map<string, seq<Token>>, secondary: TokenLists)
    ensures forall e :: TokensAt(primary, e) == TokensOf(f, subs, e, Primary)
    ensures forall e, k :: ListOf(secondary, e, k) == TokensOf(f, subs, e, Secondary(k))
    ensures NoneEmpty(secondary)
  {
    primary, secondary := map[], map[];
    for i := 0 to |subs|
      invariant forall e :: TokensAt(primary, e) == TokensOf(f, subs[..i], e, Primary)
      invariant forall e, k :: ListOf(secondary, e, k) == TokensOf(f, subs[..i], e, Secondary(k))
      invariant NoneEmpty(secondary)
    {
      Seqs.Prefix(subs, i);
      var sub := subs[i];
      match Classify(f, sub)
      case Skipped =>
      case Primary =>
        primary := primary[sub.exchange := TokensAt(primary, sub.exchange) + [sub.token]];
      case Secondary(kind) =>
        secondary := secondary[(sub.exchange, kind) := ListOf(secondary, sub.exchange, kind) + [sub.token]];
    }
    Seqs.All(subs);
  }

  /** The lists are what is polled every time and what is polled in turn. */
  method PartitionInTurn(f: Filter, subs: seq<Subscription>) returns (primary: map<string, seq<Token>>, secondary: TokenLists)
    ensures forall e :: TokensAt(primary, e) == EveryTime(f, subs, e)
    ensures forall e, k :: ListOf(secondary, e, k) == InTurn(f, subs, e, k)
    ensures NoneEmpty(secondary)
  {
    primary, secondary := Partition(f, subs);
    forall e ensures TokensAt(primary, e) == EveryTime(f, subs, e) {
      TokensAre(f, subs, e, "");
    }
    forall e, k ensures ListOf(secondary, e, k) == InTurn(f, subs, e, k) {
      TokensAre(f, subs, e, k);
    }
  }

  // ---- Secondary picks under budgets ----

  datatype Pick = Pick(kind: string, tokens: seq<Token>)

  function Limit(budgets: map<string, int>, kind: string, rotationMax: int, remaining: int): int {
    var own := if kind in budgets then budgets[kind] else rotationMax;
    if own > remaining then remaining else own
  }

  /** The picks for the kinds in order, each from the cursor the ones before left behind. */
  function Picks(cursor: map<string, int>, exchange: string, byKind: map<string, seq<Token>>, kinds: seq<string>,
                 budgets: map<string, int>, rotationMax: int, remaining: int): seq<Pick>
    decreases |kinds|
  {
    if kinds == [] || remaining <= 0 then []
    else
      var kind, rest := kinds[0], kinds[1..];
      var limit := Limit(budgets, kind, rotationMax, remaining);
      if Skips(byKind, kind, limit) then
        Picks(cursor, exchange, byKind, rest, budgets, rotationMax, remaining)
      else
        var key := exchange + ":" + kind;
        var selected := Taken(cursor, key, byKind[kind], limit);
        var cursor' := Moved(cursor, key, byKind[kind], limit);
        [Pick(kind, selected)] + Picks(cursor', exchange, byKind, rest, budgets, rotationMax, remaining - |selected|)
  }

  /** The cursors that those picks leave behind. */
  function CursorAfter(cursor: map<string, int>, exchange: string, byKind: map<string, seq<Token>>, kinds: seq<string>,
                       budgets: map<string, int>, rotationMax: int, remaining: int): map<string, int>
    decreases |kinds|
  {
    if kinds == [] || remaining <= 0 then cursor
    else
      var kind, rest := kinds[0], kinds[1..];
      var limit := Limit(budgets, kind, rotationMax, remaining);
      if Skips(byKind, kind, limit) then
        CursorAfter(cursor, exchange, byKind, rest, budgets, rotationMax, remaining)
      else
        var key := exchange + ":" + kind;
        var cursor' := Moved(cursor, key, byKind[kind], limit);
        CursorAfter(cursor', exchange, byKind, rest, budgets, rotationMax, remaining - |Taken(cursor, key, byKind[kind], limit)|)
  }

  /** The kinds the configured order names that have tokens, normalised, in that order. */
  function NamedKinds(order: seq<string>, byKind: map<string, seq<Token>>): seq<string> {
    if order == [] then []
    else
      var kind := Normal(order[0]);
      var rest := NamedKinds(order[1..], byKind);
      if kind != "" && kind in byKind then [kind] + rest else rest
  }

  lemma NamedStep(order: seq<string>, i: nat, byKind: map<string, seq<Token>>, kinds: seq<string>)
    requires i < |order|
    ensures var kind := Normal(order[i]);
            kinds + NamedKinds(order[i..], byKind) ==
            (if kind != "" && kind in byKind then kinds + [kind] else kinds) + NamedKinds(order[i + 1..], byKind)
  {
    Seqs.Tail(order, i);
    Seqs.Between(kinds, Normal(order[i]), NamedKinds(order[i + 1..], byKind));
  }

  lemma ElementsSnoc(kinds: seq<string>, kind: string)
    ensures Elements(kinds + [kind]) == Elements(kinds) + {kind}
  {
  }

  method OrderKinds(order: seq<string>, byKind: map<string, seq<Token>>) returns (kinds: seq<string>, seen: set<string>)
    ensures kinds == NamedKinds(order, byKind) && seen == Elements(kinds)
  {
    kinds, seen := [], {};
    Seqs.FromStart(order);
    Seqs.FromStart(NamedKinds(order, byKind));
    for i := 0 to |order|
      invariant kinds + NamedKinds(order[i..], byKind) == NamedKinds(order, byKind)
      invariant seen == Elements(kinds)
    {
      NamedStep(order, i, byKind, kinds);
      var kind := Normal(order[i]);
      if kind != "" && kind in byKind {
        ElementsSnoc(kinds, kind);
        kinds, seen := kinds + [kind], seen + {kind};
      }
    }
    Seqs.FromStart(kinds);
  }

  ghost function Elements(kinds: seq<string>): set<string> {
    set k | k in kinds
  }

  lemma StringLessIsOrder()
    ensures WeakOrder(StringLess)
  {
    forall a, b, c | StringLess(a, c) ensures !StringLess(c, a) && (StringLess(a, b) || StringLess(b, c)) {
      StringLessOrder(a, b, c);
      StringLessOrder(b, a, c);
      StringLessOrder(a, c, a);
      StringLessOrder(b, c, a);
    }
  }

  lemma StringsTieWhenEqual()
    ensures forall a, b :: !StringLess(a, b) && !StringLess(b, a) ==> a == b
  {
    forall a, b | !StringLess(a, b) && !StringLess(b, a) ensures a == b {
      StringLessOrder(a, b, a);
    }
  }

  /** The kinds that the order leaves out, sorted. */
  ghost function RestKinds(order: seq<string>, byKind: map<string, seq<Token>>): seq<string> {
    SortedSet(byKind.Keys - Elements(NamedKinds(order, byKind)), StringLess)
  }

  /** The kinds named by the configured order, then the others. */
  ghost function KindOrder(order: seq<string>, byKind: map<string, seq<Token>>): seq<string> {
    NamedKinds(order, byKind) + RestKinds(order, byKind)
  }

  ghost function Rest(kinds: set<string>, seen: set<string>): multiset<string> {
    multiset(kinds - seen)
  }

  lemma RestOneMore(done: set<string>, seen: set<string>, kind: string)
    requires kind !in done
    ensures Rest(done + {kind}, seen) == if kind in seen then Rest(done, seen) else Rest(done, seen) + multiset{kind}
  {
    if kind in seen {
      assert done + {kind} - seen == done - seen;
    } else {
      assert done + {kind} - seen == done - seen + {kind};
    }
  }

  /** Walks the map in any order and sorts what has not been seen. */
  method ListRest(byKind: map<string, seq<Token>>, ghost order: seq<string>, seen: set<string>)
    returns (rest: seq<string>)
    requires seen == Elements(NamedKinds(order, byKind))
    ensures rest == RestKinds(order, byKind)
  {
    var unseen := WalkKinds(byKind, seen);
    StringLessIsOrder();
    StringsTieWhenEqual();
    SortedSetUnique(unseen, byKind.Keys - seen, StringLess);
    rest := Sort(unseen, StringLess);
  }

  method WalkKinds(byKind: map<string, seq<Token>>, seen: set<string>) returns (unseen: seq<string>)
    ensures multiset(unseen) == Rest(byKind.Keys, seen)
  {
    unseen := [];
    var pending := byKind.Keys;
    ghost var done: set<string> := {};
    while pending != {}
      invariant pending == byKind.Keys - done && done <= byKind.Keys
      invariant multiset(unseen) == Rest(done, seen)
      decreases |pending|
    {
      var kind :| kind in pending;
      RestOneMore(done, seen, kind);
      if kind !in seen {
        unseen := unseen + [kind];
      }
      pending, done := pending - {kind}, done + {kind};
    }
    assert done == byKind.Keys;
  }

  /** What the picks so far and those still to come amount to. */
  ghost function Outlook(picks: seq<Pick>, cursor: map<string, int>, exchange: string, byKind: map<string, seq<Token>>,
                         kinds: seq<string>,
                         i: nat, budgets: map<string, int>, rotationMax: int, remaining: int): seq<Pick>
    requires i <= |kinds|
  {
    picks + Picks(cursor, exchange, byKind, kinds[i..], budgets, rotationMax, remaining)
  }

  lemma OutlookEnds(picks: seq<Pick>, cursor: map<string, int>, exchange: string, byKind: map<string, seq<Token>>,
                    kinds: seq<string>, budgets: map<string, int>, rotationMax: int, remaining: int)
    ensures Outlook([], cursor, exchange, byKind, kinds, 0, budgets, rotationMax, remaining) ==
            Picks(cursor, exchange, byKind, kinds, budgets, rotationMax, remaining)
    ensures forall i :: 0 <= i <= |kinds| && (i == |kinds| || remaining <= 0) ==>
                          Outlook(picks, cursor, exchange, byKind, kinds, i, budgets, rotationMax, remaining) == picks
  {
    Seqs.FromStart(kinds);
    Seqs.FromStart(picks);
    Seqs.FromStart(Picks(cursor, exchange, byKind, kinds, budgets, rotationMax, remaining));
  }

  /** The cursors in the end, seen from the `i`-th kind. */
  ghost function Destination(cursor: map<string, int>, exchange: string, byKind: map<string, seq<Token>>,
                             kinds: seq<string>,
                             i: nat, budgets: map<string, int>, rotationMax: int, remaining: int): map<string, int>
    requires i <= |kinds|
  {
    CursorAfter(cursor, exchange, byKind, kinds[i..], budgets, rotationMax, remaining)
  }

  predicate Skips(byKind: map<string, seq<Token>>, kind: string, limit: int) {
    kind !in byKind || byKind[kind] == [] || limit <= 0
  }

  lemma PicksSkip(cursor: map<string, int>, exchange: string, byKind: map<string, seq<Token>>, kinds: seq<string>,
                  i: nat, budgets: map<string, int>, rotationMax: int, remaining: int, done: seq<Pick>)
    requires i < |kinds| && remaining > 0 && Skips(byKind, kinds[i], Limit(budgets, kinds[i], rotationMax, remaining))
    ensures Outlook(done, cursor, exchange, byKind, kinds, i, budgets, rotationMax, remaining) ==
            Outlook(done, cursor, exchange, byKind, kinds, i + 1, budgets, rotationMax, remaining)
    ensures Destination(cursor, exchange, byKind, kinds, i, budgets, rotationMax, remaining) ==
            Destination(cursor, exchange, byKind, kinds, i + 1, budgets, rotationMax, remaining)
  {
    Seqs.Tail(kinds, i);
  }

  lemma PicksTake(cursor: map<string, int>, exchange: string, byKind: map<string, seq<Token>>, kinds: seq<string>,
                  i: nat, budgets: map<string, int>, rotationMax: int, remaining: int, done: seq<Pick>,
                  limit: int, key: string)
    requires i < |kinds| && remaining > 0 && limit == Limit(budgets, kinds[i], rotationMax, remaining)
    requires !Skips(byKind, kinds[i], limit) && key == exchange + ":" + kinds[i]
    ensures var selected := Taken(cursor, key, byKind[kinds[i]], limit);
            Outlook(done, cursor, exchange, byKind, kinds, i, budgets, rotationMax, remaining) ==
            Outlook(done + [Pick(kinds[i], selected)], Moved(cursor, key, byKind[kinds[i]], limit), exchange, byKind,
                    kinds, i + 1, budgets, rotationMax, remaining - |selected|)
    ensures Destination(cursor, exchange, byKind, kinds, i, budgets, rotationMax, remaining) ==
            Destination(Moved(cursor, key, byKind[kinds[i]], limit), exchange, byKind, kinds, i + 1, budgets, rotationMax,
                        remaining - |Taken(cursor, key, byKind[kinds[i]], limit)|)
  {
    Seqs.Tail(kinds, i);
  }

  /** Picks and cursors are on the way to those of the whole walk from `start`. */
  ghost predicate OnTheWay(start: map<string, int>, picks: seq<Pick>, cursor: map<string, int>, exchange: string,
                           byKind: map<string, seq<Token>>, kinds: seq<string>, i: nat, budgets: map<string, int>,
                           rotationMax: int, remaining: int)
    requires i <= |kinds|
  {
    && Outlook(picks, cursor, exchange, byKind, kinds, i, budgets, rotationMax, remaining) ==
       Picks(start, exchange, byKind, kinds, budgets, rotationMax, rotationMax)
    && Destination(cursor, exchange, byKind, kinds, i, budgets, rotationMax, remaining) ==
       CursorAfter(start, exchange, byKind, kinds, budgets, rotationMax, rotationMax)
  }

  /** One kind of the order. */
  method PickKind(ghost start: map<string, int>, r: Rotation, exchange: string, byKind: map<string, seq<Token>>,
                  kinds: seq<string>, i: nat, budgets: map<string, int>, rotationMax: int, remaining: int, picks: seq<Pick>)
    returns (picks': seq<Pick>, remaining': int)
    requires i < |kinds| && remaining > 0
    requires OnTheWay(start, picks, r.cursor, exchange, byKind, kinds, i, budgets, rotationMax, remaining)
    modifies r
    ensures OnTheWay(start, picks', r.cursor, exchange, byKind, kinds, i + 1, budgets, rotationMax, remaining')
  {
    picks', remaining' := picks, remaining;
    var kind := kinds[i];
    var limit := Limit(budgets, kind, rotationMax, remaining);
    if Skips(byKind, kind, limit) {
      PicksSkip(r.cursor, exchange, byKind, kinds, i, budgets, rotationMax, remaining, picks);
    } else {
      var key := exchange + ":" + kind;
      PicksTake(r.cursor, exchange, byKind, kinds, i, budgets, rotationMax, remaining, picks, limit, key);
      var selected := r.Take(key, byKind[kind], limit);
      remaining' := remaining - |selected|;
      picks' := picks + [Pick(kind, selected)];
    }
  }

  method PickSecondary(r: Rotation, exchange: string, byKind: map<string, seq<Token>>, order: seq<string>,
                       budgets: map<string, int>, rotationMax: int) returns (picks: seq<Pick>)
    modifies r
    ensures picks == Picks(old(r.cursor), exchange, byKind, KindOrder(order, byKind), budgets, rotationMax, rotationMax)
    ensures r.cursor == CursorAfter(old(r.cursor), exchange, byKind, KindOrder(order, byKind), budgets, rotationMax, rotationMax)
  {
    var named, seen := OrderKinds(order, byKind);
    var rest := ListRest(byKind, order, seen);
    picks := PickInOrder(r, exchange, byKind, named + rest, budgets, rotationMax);
  }

  method PickInOrder(r: Rotation, exchange: string, byKind: map<string, seq<Token>>, kinds: seq<string>,
                     budgets: map<string, int>, rotationMax: int) returns (picks: seq<Pick>)
    modifies r
    ensures picks == Picks(old(r.cursor), exchange, byKind, kinds, budgets, rotationMax, rotationMax)
    ensures r.cursor == CursorAfter(old(r.cursor), exchange, byKind, kinds, budgets, rotationMax, rotationMax)
  {
    var remaining := rotationMax;
    picks := [];
    var i := 0;
    SetOut(r.cursor, exchange, byKind, kinds, budgets, rotationMax);
    while i < |kinds| && remaining > 0
      invariant 0 <= i <= |kinds|
      invariant OnTheWay(old(r.cursor), picks, r.cursor, exchange, byKind, kinds, i, budgets, rotationMax, remaining)
    {
      picks, remaining := PickKind(old(r.cursor), r, exchange, byKind, kinds, i, budgets, rotationMax, remaining, picks);
      i := i + 1;
    }
    Arrive(old(r.cursor), picks, r.cursor, exchange, byKind, kinds, i, budgets, rotationMax, remaining);
  }

  lemma SetOut(start: map<string, int>, exchange: string, byKind: map<string, seq<Token>>, kinds: seq<string>,
               budgets: map<string, int>, rotationMax: int)
    ensures OnTheWay(start, [], start, exchange, byKind, kinds, 0, budgets, rotationMax, rotationMax)
  {
    OutlookEnds([], start, exchange, byKind, kinds, budgets, rotationMax, rotationMax);
    Seqs.FromStart(kinds);
  }

  lemma Arrive(start: map<string, int>, picks: seq<Pick>, cursor: map<string, int>, exchange: string,
               byKind: map<string, seq<Token>>, kinds: seq<string>, i: nat, budgets: map<string, int>, rotationMax: int,
               remaining: int)
    requires i <= |kinds| && (i == |kinds| || remaining <= 0)
    requires OnTheWay(start, picks, cursor, exchange, byKind, kinds, i, budgets, rotationMax, remaining)
    ensures picks == Picks(start, exchange, byKind, kinds, budgets, rotationMax, rotationMax)
    ensures cursor == CursorAfter(start, exchange, byKind, kinds, budgets, rotationMax, rotationMax)
  {
    OutlookEnds(picks, cursor, exchange, byKind, kinds, budgets, rotationMax, remaining);
  }

  function CountPicked(picks: seq<Pick>): nat {
    if picks == [] then 0 else |picks[0].tokens| + CountPicked(picks[1..])
  }

  function CountPickedOf(picks: seq<Pick>, kind: string): nat {
    if picks == [] then 0
    else (if picks[0].kind == kind then |picks[0].tokens| else 0) + CountPickedOf(picks[1..], kind)
  }

  function Occurrences(kinds: seq<string>, kind: string): nat {
    if kinds == [] then 0 else (if kinds[0] == kind then 1 else 0) + Occurrences(kinds[1..], kind)
  }

  function Positive(x: int): nat {
    if x > 0 then x else 0
  }

  /** A pick of some of the kind's own tokens, within its budget if it has one. */
  ghost predicate Fits(p: Pick, byKind: map<string, seq<Token>>, budgets: map<string, int>) {
    && p.kind in byKind && p.tokens != [] && (forall t :: t in p.tokens ==> t in byKind[p.kind])
    && (p.kind in budgets ==> |p.tokens| <= Positive(budgets[p.kind]))
  }

  /** At most one fitting pick for each kind listed, in the order of the list. */
  ghost predicate FitKinds(picks: seq<Pick>, kinds: seq<string>, byKind: map<string, seq<Token>>,
                           budgets: map<string, int>) {
    if kinds == [] then picks == []
    else
      || FitKinds(picks, kinds[1..], byKind, budgets)
      || (picks != [] && picks[0].kind == kinds[0] && Fits(picks[0], byKind, budgets)
          && FitKinds(picks[1..], kinds[1..], byKind, budgets))
  }

  lemma {:induction false} PicksFitKinds(cursor: map<string, int>, exchange: string, byKind: map<string, seq<Token>>,
      kinds: seq<string>, budgets: map<string, int>, rotationMax: int, remaining: int)
    ensures FitKinds(Picks(cursor, exchange, byKind, kinds, budgets, rotationMax, remaining), kinds, byKind, budgets)
    decreases |kinds|
  {
    if kinds != [] && remaining > 0 {
      var picked, pick, cursor', remaining' := LeadingPick(cursor, exchange, byKind, kinds, budgets, rotationMax, remaining);
      PicksFitKinds(cursor', exchange, byKind, kinds[1..], budgets, rotationMax, remaining');
      if picked {
        FitFirst(pick, Picks(cursor', exchange, byKind, kinds[1..], budgets, rotationMax, remaining'), kinds, byKind, budgets);
      }
    } else {
      NoPicksFit(kinds, byKind, budgets);
    }
  }

  lemma LeadingPick(cursor: map<string, int>, exchange: string, byKind: map<string, seq<Token>>,
      kinds: seq<string>, budgets: map<string, int>, rotationMax: int, remaining: int)
    returns (picked: bool, pick: Pick, cursor': map<string, int>, remaining': int)
    requires kinds != [] && remaining > 0
    ensures var later := Picks(cursor', exchange, byKind, kinds[1..], budgets, rotationMax, remaining');
            Picks(cursor, exchange, byKind, kinds, budgets, rotationMax, remaining) == if picked then [pick] + later else later
    ensures picked ==> pick.kind == kinds[0] && Fits(pick, byKind, budgets)
  {
    var k := kinds[0];
    var limit := Limit(budgets, k, rotationMax, remaining);
    picked, pick, cursor', remaining' := !Skips(byKind, k, limit), Pick(k, []), cursor, remaining;
    if picked {
      var key := exchange + ":" + k;
      var selected := Taken(cursor, key, byKind[k], limit);
      TakenFits(cursor, key, k, byKind, budgets, limit);
      pick, cursor', remaining' := Pick(k, selected), Moved(cursor, key, byKind[k], limit), remaining - |selected|;
    }
  }

  lemma TakenFits(cursor: map<string, int>, key: string, k: string, byKind: map<string, seq<Token>>,
                  budgets: map<string, int>, limit: int)
    requires k in byKind && byKind[k] != [] && limit > 0 && (k in budgets ==> limit <= budgets[k])
    ensures Fits(Pick(k, Taken(cursor, key, byKind[k], limit)), byKind, budgets)
  {
    TakenFromTokens(cursor, key, byKind[k], limit);
  }

  lemma FitFirst(p: Pick, picks: seq<Pick>, kinds: seq<string>, byKind: map<string, seq<Token>>,
                 budgets: map<string, int>)
    requires kinds != [] && p.kind == kinds[0] && Fits(p, byKind, budgets) && FitKinds(picks, kinds[1..], byKind, budgets)
    ensures FitKinds([p] + picks, kinds, byKind, budgets)
  {
    assert ([p] + picks)[1..] == picks;
  }

  lemma {:induction false} NoPicksFit(kinds: seq<string>, byKind: map<string, seq<Token>>, budgets: map<string, int>)
    ensures FitKinds([], kinds, byKind, budgets)
  {
    if kinds != [] {
      NoPicksFit(kinds[1..], byKind, budgets);
    }
  }

  lemma {:induction false} FitWithinListings(picks: seq<Pick>, kinds: seq<string>, byKind: map<string, seq<Token>>,
                                             budgets: map<string, int>, kind: string)
    requires FitKinds(picks, kinds, byKind, budgets) && kind in budgets
    ensures CountPickedOf(picks, kind) <= Times(Positive(budgets[kind]), Occurrences(kinds, kind))
    decreases |kinds|
  {
    if kinds != [] {
      if FitKinds(picks, kinds[1..], byKind, budgets) {
        FitWithinListings(picks, kinds[1..], byKind, budgets, kind);
      } else {
        FitWithinListings(picks[1..], kinds[1..], byKind, budgets, kind);
      }
    }
  }

  lemma {:induction false} FitFromKinds(picks: seq<Pick>, kinds: seq<string>, byKind: map<string, seq<Token>>,
                                        budgets: map<string, int>)
    requires FitKinds(picks, kinds, byKind, budgets)
    ensures forall p :: p in picks ==> Fits(p, byKind, budgets)
    decreases |kinds|
  {
    if kinds != [] {
      if FitKinds(picks, kinds[1..], byKind, budgets) {
        FitFromKinds(picks, kinds[1..], byKind, budgets);
      } else {
        FitFromKinds(picks[1..], kinds[1..], byKind, budgets);
        assert picks == [picks[0]] + picks[1..];
      }
    }
  }

  /** Of a kind with a budget never more than the budget for each time the kind is listed. */
  lemma PicksWithinLimits(cursor: map<string, int>, exchange: string, byKind: map<string, seq<Token>>,
      kinds: seq<string>, budgets: map<string, int>, rotationMax: int, remaining: int, kind: string)
    requires kind in budgets
    ensures CountPickedOf(Picks(cursor, exchange, byKind, kinds, budgets, rotationMax, remaining), kind)
            <= Times(Positive(budgets[kind]), Occurrences(kinds, kind))
  {
    PicksFitKinds(cursor, exchange, byKind, kinds, budgets, rotationMax, remaining);
    FitWithinListings(Picks(cursor, exchange, byKind, kinds, budgets, rotationMax, remaining), kinds, byKind, budgets, kind);
  }

  /** Never more than the secondary tokens an exchange may still be given. */
  lemma {:induction false} PicksWithinRotation(cursor: map<string, int>, exchange: string,
                                               byKind: map<string, seq<Token>>,
      kinds: seq<string>, budgets: map<string, int>, rotationMax: int, remaining: int)
    requires remaining <= rotationMax
    ensures CountPicked(Picks(cursor, exchange, byKind, kinds, budgets, rotationMax, remaining)) <= Positive(remaining)
    decreases |kinds|
  {
    if kinds != [] && remaining > 0 {
      var k, rest := kinds[0], kinds[1..];
      var limit := Limit(budgets, k, rotationMax, remaining);
      if k !in byKind || byKind[k] == [] || limit <= 0 {
        PicksWithinRotation(cursor, exchange, byKind, rest, budgets, rotationMax, remaining);
      } else {
        var key := exchange + ":" + k;
        var selected := Taken(cursor, key, byKind[k], limit);
        var cursor' := Moved(cursor, key, byKind[k], limit);
        PicksWithinRotation(cursor', exchange, byKind, rest, budgets, rotationMax, remaining - |selected|);
        CountFirst(Pick(k, selected), Picks(cursor', exchange, byKind, rest, budgets, rotationMax, remaining - |selected|), k);
      }
    }
  }

  lemma CountFirst(p: Pick, rest: seq<Pick>, kind: string)
    ensures CountPicked([p] + rest) == |p.tokens| + CountPicked(rest)
    ensures CountPickedOf([p] + rest, kind) == (if p.kind == kind then |p.tokens| else 0) + CountPickedOf(rest, kind)
  {
    assert ([p] + rest)[1..] == rest;
  }

  /** Every pick comes from its kind's own tokens, within its budget. */
  lemma PicksFromKinds(cursor: map<string, int>, exchange: string, byKind: map<string, seq<Token>>,
      kinds: seq<string>, budgets: map<string, int>, rotationMax: int, remaining: int)
    ensures forall p :: p in Picks(cursor, exchange, byKind, kinds, budgets, rotationMax, remaining) ==> Fits(p, byKind, budgets)
  {
    PicksFitKinds(cursor, exchange, byKind, kinds, budgets, rotationMax, remaining);
    FitFromKinds(Picks(cursor, exchange, byKind, kinds, budgets, rotationMax, remaining), kinds, byKind, budgets);
  }

  lemma TakenFromTokens(cursor: map<string, int>, key: string, tokens: seq<Token>, max: int)
    ensures forall t :: t in Taken(cursor, key, tokens, max) ==> t in tokens
  {
    if !TakesAll(tokens, max) {
      CyclicWithin(QuoteRotation.Sorting.Sort(tokens), StartOf(cursor, key, |tokens|), max);
    }
  }

  lemma {:induction false} CyclicWithin(s: seq<Token>, start: nat, k: nat)
    requires s != []
    ensures forall t :: t in Cyclic(s, start, k) ==> t in s
  {
    if k > 0 {
      CyclicWithin(s, start, k - 1);
    }
  }

  // ---- How often a kind is listed ----

  lemma {:induction false} OccurrencesIsCount(kinds: seq<string>, kind: string)
    ensures Occurrences(kinds, kind) == multiset(kinds)[kind]
  {
    if kinds != [] {
      OccurrencesIsCount(kinds[1..], kind);
      assert kinds == [kinds[0]] + kinds[1..];
    }
  }

  /** How many entries of the configured order name the kind. */
  function Mentions(order: seq<string>, kind: string): nat {
    if order == [] then 0 else (if Normal(order[0]) == kind then 1 else 0) + Mentions(order[1..], kind)
  }

  lemma {:induction false} NamedOccurrences(order: seq<string>, byKind: map<string, seq<Token>>, kind: string)
    ensures Occurrences(NamedKinds(order, byKind), kind) == if kind != "" && kind in byKind then Mentions(order, kind) else 0
  {
    if order != [] {
      NamedOccurrences(order[1..], byKind, kind);
      var named, rest := Normal(order[0]), NamedKinds(order[1..], byKind);
      assert ([named] + rest)[1..] == rest;
    }
  }

  /** How often the picking comes to a kind: as often as the order names it, and once when it does not. */
  function Listings(order: seq<string>, kind: string): nat {
    if kind == "" || Mentions(order, kind) == 0 then 1 else Mentions(order, kind)
  }

  lemma ListedAsOften(order: seq<string>, byKind: map<string, seq<Token>>, kind: string)
    ensures Occurrences(KindOrder(order, byKind), kind) == if kind in byKind then Listings(order, kind) else 0
  {
    var named, rest := NamedKinds(order, byKind), RestKinds(order, byKind);
    NamedOccurrences(order, byKind, kind);
    OccurrencesIsCount(named, kind);
    OccurrencesIsCount(named + rest, kind);
    Seqs.Counts(named, rest);
    RestOnce(order, byKind, kind);
    assert kind in named <==> multiset(named)[kind] > 0;
  }

  lemma RestOnce(order: seq<string>, byKind: map<string, seq<Token>>, kind: string)
    ensures multiset(RestKinds(order, byKind))[kind] == if kind in byKind && kind !in NamedKinds(order, byKind) then 1 else 0
  {
    StringLessIsOrder();
    SortOrders(Listing(byKind.Keys - Elements(NamedKinds(order, byKind))), StringLess);
  }

  /** No two entries of the order name the same kind. */
  ghost predicate DistinctOrder(order: seq<string>) {
    forall i, j :: 0 <= i < j < |order| && Normal(order[i]) != "" ==> Normal(order[i]) != Normal(order[j])
  }

  lemma {:induction false} NotMentioned(order: seq<string>, kind: string)
    ensures Mentions(order, kind) == 0 <==> forall i :: 0 <= i < |order| ==> Normal(order[i]) != kind
  {
    if order != [] {
      var rest := order[1..];
      NotMentioned(rest, kind);
      if Mentions(order, kind) == 0 {
        forall i | 0 <= i < |order| ensures Normal(order[i]) != kind {
          assert i > 0 ==> order[i] == rest[i - 1];
        }
      } else if Mentions(rest, kind) > 0 {
        var i :| 0 <= i < |rest| && Normal(rest[i]) == kind;
        assert order[i + 1] == rest[i];
      }
    }
  }

  ghost predicate MentionsOnce(order: seq<string>) {
    forall kind :: kind != "" ==> Mentions(order, kind) <= 1
  }

  lemma {:induction false} MentionedOnceIff(order: seq<string>)
    ensures DistinctOrder(order) <==> MentionsOnce(order)
  {
    if order != [] {
      MentionedOnceIff(order[1..]);
      DistinctTail(order);
      if DistinctOrder(order) {
        forall kind | kind != "" ensures Mentions(order, kind) <= 1 {
          assert Mentions(order[1..], kind) <= 1;
        }
      } else if !MentionsOnce(order[1..]) {
        var kind :| kind != "" && Mentions(order[1..], kind) > 1;
        assert Mentions(order, kind) > 1;
      } else {
        assert Mentions(order, Normal(order[0])) > 1;
      }
    }
  }

  lemma DistinctTail(order: seq<string>)
    requires order != []
    ensures DistinctOrder(order) <==>
            DistinctOrder(order[1..]) && (Normal(order[0]) == "" || Mentions(order[1..], Normal(order[0])) == 0)
  {
    var rest := order[1..];
    NotMentioned(rest, Normal(order[0]));
    assert forall i :: 1 <= i < |order| ==> order[i] == rest[i - 1];
    assert forall i :: 0 <= i < |rest| ==> rest[i] == order[i + 1];
  }

  /** One picking keeps the kind within its budget. */
  ghost predicate Keeps(order: seq<string>, cursor: map<string, int>, exchange: string, byKind: map<string, seq<Token>>,
                        budgets: map<string, int>, rotationMax: int, kind: string)
  {
    kind in budgets ==>
      CountPickedOf(Picks(cursor, exchange, byKind, KindOrder(order, byKind), budgets, rotationMax, rotationMax), kind)
      <= Positive(budgets[kind])
  }

  /** Every picking does, whatever the tokens, budgets and cursors. */
  ghost predicate BudgetSafe(order: seq<string>) {
    forall cursor, exchange, byKind, budgets, rotationMax, kind ::
      Keeps(order, cursor, exchange, byKind, budgets, rotationMax, kind)
  }

  lemma WithinListings(cursor: map<string, int>, exchange: string, byKind: map<string, seq<Token>>, order: seq<string>,
                       budgets: map<string, int>, rotationMax: int, kind: string)
    requires kind in budgets
    ensures CountPickedOf(Picks(cursor, exchange, byKind, KindOrder(order, byKind), budgets, rotationMax, rotationMax), kind)
            <= Times(Positive(budgets[kind]), Listings(order, kind))
  {
    PicksWithinLimits(cursor, exchange, byKind, KindOrder(order, byKind), budgets, rotationMax, rotationMax, kind);
    ListedAsOften(order, byKind, kind);
  }

  lemma OncePerBudget(order: seq<string>, kind: string, budget: nat)
    requires DistinctOrder(order)
    ensures Times(budget, Listings(order, kind)) == budget
  {
    MentionedOnceIff(order);
    assert kind != "" ==> Mentions(order, kind) <= 1;
    assert Listings(order, kind) == 1 && Times(budget, 1) == Times(budget, 0) + budget;
  }

  lemma WithinBudget(order: seq<string>, cursor: map<string, int>, exchange: string, byKind: map<string, seq<Token>>,
                     budgets: map<string, int>, rotationMax: int, kind: string)
    requires DistinctOrder(order)
    ensures Keeps(order, cursor, exchange, byKind, budgets, rotationMax, kind)
  {
    if kind in budgets {
      WithinListings(cursor, exchange, byKind, order, budgets, rotationMax, kind);
      OncePerBudget(order, kind, Positive(budgets[kind]));
    }
  }

  lemma SafeWhenDistinct(order: seq<string>)
    requires DistinctOrder(order)
    ensures BudgetSafe(order)
  {
    forall cursor, exchange, byKind, budgets, rotationMax, kind
      ensures Keeps(order, cursor, exchange, byKind, budgets, rotationMax, kind)
    {
      WithinBudget(order, cursor, exchange, byKind, budgets, rotationMax, kind);
    }
  }

  lemma SafeMeans(order: seq<string>, cursor: map<string, int>, exchange: string, byKind: map<string, seq<Token>>,
                  budgets: map<string, int>, rotationMax: int, kind: string)
    requires BudgetSafe(order)
    ensures Keeps(order, cursor, exchange, byKind, budgets, rotationMax, kind)
  {
  }

  /** A configured order keeps every kind within its budget exactly when no two of its entries name the same
      kind.  The source does not check this: a kind named twice is let through twice. */
  lemma BudgetsHoldIffDistinct(order: seq<string>)
    ensures BudgetSafe(order) <==> DistinctOrder(order)
  {
    MentionedOnceIff(order);
    if DistinctOrder(order) {
      SafeWhenDistinct(order);
    } else if BudgetSafe(order) {
      var kind :| kind != "" && Mentions(order, kind) > 1;
      SafeMeans(order, map[], "", map[kind := [1, 2]], map[kind := 1], 2, kind);
      NamedTwice(order, kind);
      assert false;
    }
  }

  /** Two tokens of a kind, a budget of one and an order that names the kind twice. */
  lemma NamedTwice(order: seq<string>, kind: string)
    requires kind != "" && Mentions(order, kind) > 1
    ensures !Keeps(order, map[], "", map[kind := [1, 2]], map[kind := 1], 2, kind)
  {
    var kinds := KindOrder(order, map[kind := [1, 2]]);
    ListedAsOften(order, map[kind := [1, 2]], kind);
    var i, j := OccursTwice(kinds, kind);
    OverBudget(map[], "", kind, kinds, 2, i, j);
  }

  lemma {:induction false} OccursTwice(kinds: seq<string>, kind: string) returns (i: nat, j: nat)
    requires Occurrences(kinds, kind) > 1
    ensures i < j < |kinds| && kinds[i] == kind == kinds[j]
  {
    if kinds[0] == kind {
      j := OccursOnce(kinds[1..], kind);
      i, j := 0, j + 1;
    } else {
      i, j := OccursTwice(kinds[1..], kind);
      i, j := i + 1, j + 1;
    }
  }

  lemma {:induction false} OccursOnce(kinds: seq<string>, kind: string) returns (i: nat)
    requires Occurrences(kinds, kind) > 0
    ensures i < |kinds| && kinds[i] == kind
  {
    if kinds[0] == kind {
      i := 0;
    } else {
      i := OccursOnce(kinds[1..], kind);
      i := i + 1;
    }
  }

  /** With one kind of two tokens and a budget of one, each listing of the kind picks one token. */
  lemma {:induction false} OneMore(cursor: map<string, int>, exchange: string, kind: string, kinds: seq<string>,
                                   remaining: int, i: nat)
    requires 0 < remaining <= 2 && i < |kinds| && kinds[i] == kind
    ensures CountPickedOf(Picks(cursor, exchange, map[kind := [1, 2]], kinds, map[kind := 1], 2, remaining), kind) >= 1
  {
    if kinds[0] != kind {
      OneMore(cursor, exchange, kind, kinds[1..], remaining, i - 1);
    }
  }

  lemma FirstPick(cursor: map<string, int>, exchange: string, kind: string, kinds: seq<string>, remaining: int)
    requires 0 < remaining <= 2 && kinds != [] && kinds[0] == kind
    ensures var byKind, budgets, moved := map[kind := [1, 2]], map[kind := 1], Moved(cursor, exchange + ":" + kind, [1, 2], 1);
            CountPickedOf(Picks(cursor, exchange, byKind, kinds, budgets, 2, remaining), kind) ==
            1 + CountPickedOf(Picks(moved, exchange, byKind, kinds[1..], budgets, 2, remaining - 1), kind)
  {
    var byKind, budgets, moved := map[kind := [1, 2]], map[kind := 1], Moved(cursor, exchange + ":" + kind, [1, 2], 1);
    var rest := Picks(moved, exchange, byKind, kinds[1..], budgets, 2, remaining - 1);
    CountFirst(Pick(kind, Taken(cursor, exchange + ":" + kind, [1, 2], 1)), rest, kind);
  }

  lemma {:induction false} OverBudget(cursor: map<string, int>, exchange: string, kind: string, kinds: seq<string>,
                                      remaining: int, i: nat, j: nat)
    requires remaining == 2 && i < j < |kinds| && kinds[i] == kind == kinds[j]
    ensures CountPickedOf(Picks(cursor, exchange, map[kind := [1, 2]], kinds, map[kind := 1], 2, remaining), kind) >= 2
  {
    if kinds[0] == kind {
      FirstPick(cursor, exchange, kind, kinds, 2);
      OneMore(Moved(cursor, exchange + ":" + kind, [1, 2], 1), exchange, kind, kinds[1..], 1, j - 1);
    } else {
      OverBudget(cursor, exchange, kind, kinds[1..], remaining, i - 1, j - 1);
    }
  }

  // ---- Splitting ----

  datatype Batch = Batch(exchange: string, tokens: seq<Token>)

  /** What the batches hold for one exchange, in order. */
  ghost function Held(batches: seq<Batch>, exchange: string): seq<Token> {
    if batches == [] then []
    else
      var last := batches[|batches| - 1];
      var before := Held(batches[..|batches| - 1], exchange);
      if last.exchange == exchange then before + last.tokens else before
  }

  lemma HeldSnoc(batches: seq<Batch>, b: Batch, exchange: string)
    ensures Held(batches + [b], exchange)
         == if b.exchange == exchange then Held(batches, exchange) + b.tokens else Held(batches, exchange)
  {
    Seqs.Snoc(batches, batches, b);
  }

  ghost predicate WithinSize(batches: seq<Batch>, maxTokens: int) {
    forall b :: b in batches ==> b.tokens != [] && (maxTokens > 0 ==> |b.tokens| <= maxTokens)
  }

  /** `batches` hold what `before` does, and `done` behind it for one exchange. */
  ghost predicate Longer(before: seq<Batch>, batches: seq<Batch>, exchange: string, done: seq<Token>) {
    forall e :: Held(batches, e) == if e == exchange then Held(before, e) + done else Held(before, e)
  }

  lemma LongerStill(before: seq<Batch>, batches: seq<Batch>, exchange: string, done: seq<Token>, b: Batch)
    requires Longer(before, batches, exchange, done) && b.exchange == exchange
    ensures Longer(before, batches + [b], exchange, done + b.tokens)
  {
    forall e ensures Held(batches + [b], e) == if e == exchange then Held(before, e) + (done + b.tokens) else Held(before, e) {
      HeldSnoc(batches, b, e);
      assert Held(before, e) + done + b.tokens == Held(before, e) + (done + b.tokens);
    }
  }

  /** Appends the tokens of one exchange, cut into chunks. */
  method SplitOne(before: seq<Batch>, exchange: string, all: seq<Token>, maxTokens: int) returns (batches: seq<Batch>)
    requires WithinSize(before, maxTokens)
    ensures WithinSize(batches, maxTokens) && Longer(before, batches, exchange, all)
  {
    batches := before;
    var tokens := all;
    ghost var done: seq<Token> := [];
    Seqs.FromStart(all);
    while tokens != []
      invariant done + tokens == all && WithinSize(batches, maxTokens)
      invariant Longer(before, batches, exchange, done)
      decreases |tokens|
    {
      var cut := if maxTokens > 0 && |tokens| > maxTokens then maxTokens else |tokens|;
      var b := Batch(exchange, tokens[..cut]);
      Seqs.Cut(tokens, cut);
      LongerStill(before, batches, exchange, done, b);
      batches, tokens, done := batches + [b], tokens[cut..], done + b.tokens;
    }
    Seqs.FromStart(done);
  }

  ghost predicate SplitButFor(batches: seq<Batch>, perExchange: map<string, seq<Token>>, pending: set<string>) {
    forall e :: Held(batches, e) == if e in pending then [] else TokensAt(perExchange, e)
  }

  lemma SplitMore(before: seq<Batch>, batches: seq<Batch>, perExchange: map<string, seq<Token>>, pending: set<string>,
                  exchange: string)
    requires exchange in pending && pending <= perExchange.Keys && SplitButFor(before, perExchange, pending)
    requires Longer(before, batches, exchange, perExchange[exchange])
    ensures SplitButFor(batches, perExchange, pending - {exchange})
  {
    assert Held(before, exchange) == [];
  }

  /** Splitting loses and repeats nothing, whatever the order the map is walked in, and with a positive
      limit no batch exceeds it. */
  method SplitBatches(perExchange: map<string, seq<Token>>, maxTokens: int) returns (batches: seq<Batch>)
    ensures forall e :: Held(batches, e) == TokensAt(perExchange, e)
    ensures WithinSize(batches, maxTokens)
  {
    batches := [];
    var pending := perExchange.Keys;
    while pending != {}
      invariant pending <= perExchange.Keys && WithinSize(batches, maxTokens)
      invariant SplitButFor(batches, perExchange, pending)
      decreases |pending|
    {
      var exchange :| exchange in pending;
      ghost var before := batches;
      batches := SplitOne(batches, exchange, perExchange[exchange], maxTokens);
      SplitMore(before, batches, perExchange, pending, exchange);
      pending := pending - {exchange};
    }
  }

  // ---- The whole builder ----

  /** Every token of an exchange that the filter lets through, in subscription order. */
  ghost function AllTokens(f: Filter, subs: seq<Subscription>, exchange: string): seq<Token> {
    if subs == [] then []
    else
      var last := subs[|subs| - 1];
      var before := AllTokens(f, subs[..|subs| - 1], exchange);
      if last.exchange == exchange && Admitted(f, last) then before + [last.token] else before
  }

  /** Without rotation everything included goes into the batches. */
  method BuildAllBatches(f: Filter, subs: seq<Subscription>, maxTokens: int) returns (batches: seq<Batch>)
    ensures forall e :: Held(batches, e) == AllTokens(f, subs, e)
    ensures WithinSize(batches, maxTokens)
  {
    var perExchange: map<string, seq<Token>> := map[];
    for i := 0 to |subs|
      invariant forall e :: TokensAt(perExchange, e) == AllTokens(f, subs[..i], e)
    {
      Seqs.Prefix(subs, i);
      var sub := subs[i];
      ClassifyIs(f, sub);
      if !Classify(f, sub).Skipped? {
        perExchange := perExchange[sub.exchange := TokensAt(perExchange, sub.exchange) + [sub.token]];
      }
    }
    Seqs.All(subs);
    batches := SplitBatches(perExchange, maxTokens);
  }

  function Flatten(picks: seq<Pick>): (tokens: seq<Token>)
    ensures |tokens| == CountPicked(picks)
  {
    if picks == [] then [] else picks[0].tokens + Flatten(picks[1..])
  }

  /** Laid end to end in the order of the picks. */
  lemma {:induction false} FlattenAt(picks: seq<Pick>, i: nat, j: nat)
    requires i < |picks| && j < |picks[i].tokens|
    ensures var at := CountPicked(picks[..i]) + j; at < |Flatten(picks)| && Flatten(picks)[at] == picks[i].tokens[j]
  {
    if i > 0 {
      FlattenAt(picks[1..], i - 1, j);
      assert picks[..i][1..] == picks[1..][..i - 1];
    }
  }

  function KindsOf(secondary: TokenLists, exchange: string): map<string, seq<Token>> {
    map p | p in secondary && p.0 == exchange :: p.1 := secondary[p]
  }

  /** What each exchange may be given besides its primary tokens: at most `rotationMax` secondary ones, of a
      kind no more than its budget for each time the configured order lists it, and of its own tokens. */
  ghost predicate FairPicks(secondary: TokenLists, exchange: string, order: seq<string>, budgets: map<string, int>,
                            rotationMax: int, picks: seq<Pick>)
  {
    && CountPicked(picks) <= rotationMax
    && (forall k :: k in budgets ==> CountPickedOf(picks, k) <= Times(Positive(budgets[k]), Listings(order, k)))
    && (forall p, t :: p in picks && t in p.tokens ==> t in ListOf(secondary, exchange, p.kind))
  }

  /** Under an order that names no kind twice, fair picks keep every budget. */
  lemma FairWithinBudget(secondary: TokenLists, exchange: string, order: seq<string>, budgets: map<string, int>,
                         rotationMax: int, picks: seq<Pick>, kind: string)
    requires FairPicks(secondary, exchange, order, budgets, rotationMax, picks) && DistinctOrder(order) && kind in budgets
    ensures CountPickedOf(picks, kind) <= Positive(budgets[kind])
  {
    OncePerBudget(order, kind, Positive(budgets[kind]));
  }

  /** What the picks depend on besides the cursors. */
  datatype Plan = Plan(lists: TokenLists, order: seq<string>, budgets: map<string, int>, rotationMax: int)

  ghost function KindsFor(plan: Plan, exchange: string): seq<string> {
    KindOrder(plan.order, KindsOf(plan.lists, exchange))
  }

  ghost function PicksFor(plan: Plan, cursor: map<string, int>, exchange: string): seq<Pick> {
    Picks(cursor, exchange, KindsOf(plan.lists, exchange), KindsFor(plan, exchange), plan.budgets,
          plan.rotationMax, plan.rotationMax)
  }

  ghost function CursorFor(plan: Plan, cursor: map<string, int>, exchange: string): map<string, int> {
    CursorAfter(cursor, exchange, KindsOf(plan.lists, exchange), KindsFor(plan, exchange), plan.budgets, plan.rotationMax,
                plan.rotationMax)
  }

  /** The cursors and the picks after visiting some exchanges. */
  ghost function WalkCursor(plan: Plan, cursor: map<string, int>, visited: seq<string>): map<string, int> {
    if visited == [] then cursor
    else CursorFor(plan, WalkCursor(plan, cursor, visited[..|visited| - 1]), visited[|visited| - 1])
  }

  ghost function WalkPicks(plan: Plan, cursor: map<string, int>, visited: seq<string>): map<string, seq<Pick>> {
    if visited == [] then map[]
    else
      var front, e := visited[..|visited| - 1], visited[|visited| - 1];
      WalkPicks(plan, cursor, front)[e := PicksFor(plan, WalkCursor(plan, cursor, front), e)]
  }

  lemma WalkSnoc(plan: Plan, cursor: map<string, int>, visited: seq<string>, e: string)
    ensures WalkCursor(plan, cursor, visited + [e]) == CursorFor(plan, WalkCursor(plan, cursor, visited), e)
    ensures WalkPicks(plan, cursor, visited + [e]) ==
            WalkPicks(plan, cursor, visited)[e := PicksFor(plan, WalkCursor(plan, cursor, visited), e)]
  {
    Seqs.Snoc(visited, visited, e);
  }

  function Exchanges(lists: TokenLists): set<string> {
    set p | p in lists :: p.0
  }

  /** The picks of one exchange under budgets. */
  method PickForExchange(r: Rotation, secondary: TokenLists, exchange: string, order: seq<string>,
                         budgets: map<string, int>, rotationMax: int) returns (picks: seq<Pick>)
    requires rotationMax > 0
    modifies r
    ensures FairPicks(secondary, exchange, order, budgets, rotationMax, picks)
    ensures var plan := Plan(secondary, order, budgets, rotationMax);
            picks == PicksFor(plan, old(r.cursor), exchange) && r.cursor == CursorFor(plan, old(r.cursor), exchange)
  {
    var byKind := KindsOf(secondary, exchange);
    ghost var cursor := r.cursor;
    picks := PickSecondary(r, exchange, byKind, order, budgets, rotationMax);
    forall k | k in budgets ensures CountPickedOf(picks, k) <= Times(Positive(budgets[k]), Listings(order, k)) {
      WithinListings(cursor, exchange, byKind, order, budgets, rotationMax, k);
    }
    PicksWithinRotation(cursor, exchange, byKind, KindOrder(order, byKind), budgets, rotationMax, rotationMax);
    PicksFromKinds(cursor, exchange, byKind, KindOrder(order, byKind), budgets, rotationMax, rotationMax);
  }

  function TokensAt(m: map<string, seq<Token>>, exchange: string): seq<Token> {
    if exchange in m then m[exchange] else []
  }

  function PickedAt(picked: map<string, seq<Pick>>, exchange: string): seq<Token> {
    if exchange in picked then Flatten(picked[exchange]) else []
  }

  ghost predicate AllFair(secondary: TokenLists, order: seq<string>,
                          budgets: map<string, int>, rotationMax: int, picked: map<string, seq<Pick>>)
  {
    forall e :: e in picked ==> FairPicks(secondary, e, order, budgets, rotationMax, picked[e])
  }

  lemma AllFairAdd(secondary: TokenLists, order: seq<string>, budgets: map<string, int>,
                   rotationMax: int, picked: map<string, seq<Pick>>, exchange: string, picks: seq<Pick>)
    requires AllFair(secondary, order, budgets, rotationMax, picked)
    requires FairPicks(secondary, exchange, order, budgets, rotationMax, picks)
    ensures AllFair(secondary, order, budgets, rotationMax, picked[exchange := picks])
  {
  }

  /** What a walk over some of the exchanges has done. */
  ghost predicate Added(primary: map<string, seq<Token>>, plan: Plan, cursor: map<string, int>, visited: seq<string>,
                        perExchange: map<string, seq<Token>>, picked: map<string, seq<Pick>>)
  {
    && picked == WalkPicks(plan, cursor, visited)
    && (forall e :: e in picked <==> e in visited)
    && Appended(primary, perExchange, picked)
  }

  ghost predicate Appended(primary: map<string, seq<Token>>, perExchange: map<string, seq<Token>>,
                           picked: map<string, seq<Pick>>) {
    forall e :: TokensAt(perExchange, e) == TokensAt(primary, e) + PickedAt(picked, e)
  }

  lemma AppendOne(primary: map<string, seq<Token>>, perExchange: map<string, seq<Token>>,
                  picked: map<string, seq<Pick>>, e: string, picks: seq<Pick>)
    requires Appended(primary, perExchange, picked) && e !in picked
    ensures Appended(primary, perExchange[e := TokensAt(perExchange, e) + Flatten(picks)], picked[e := picks])
  {
    Seqs.FromStart(TokensAt(primary, e));
    assert TokensAt(perExchange, e) == TokensAt(primary, e) + PickedAt(picked, e);
  }

  lemma AddOne(primary: map<string, seq<Token>>, plan: Plan, cursor: map<string, int>, visited: seq<string>,
               perExchange: map<string, seq<Token>>, picked: map<string, seq<Pick>>, e: string, picks: seq<Pick>)
    requires Added(primary, plan, cursor, visited, perExchange, picked) && e !in visited
    requires picks == PicksFor(plan, WalkCursor(plan, cursor, visited), e)
    ensures Added(primary, plan, cursor, visited + [e],
                  perExchange[e := TokensAt(perExchange, e) + Flatten(picks)], picked[e := picks])
  {
    WalkSnoc(plan, cursor, visited, e);
    AppendOne(primary, perExchange, picked, e, picks);
  }

  /** Appends the picks of every exchange with secondary tokens to its primary tokens, one exchange after the other. */
  method AddPicks(r: Rotation, primary: map<string, seq<Token>>, secondary: TokenLists, order: seq<string>,
                  budgets: map<string, int>, rotationMax: int)
    returns (perExchange: map<string, seq<Token>>, picked: map<string, seq<Pick>>, ghost visited: seq<string>)
    requires rotationMax > 0
    modifies r
    ensures multiset(visited) == multiset(Exchanges(secondary))
    ensures var plan := Plan(secondary, order, budgets, rotationMax);
            && Added(primary, plan, old(r.cursor), visited, perExchange, picked)
            && r.cursor == WalkCursor(plan, old(r.cursor), visited)
    ensures AllFair(secondary, order, budgets, rotationMax, picked)
  {
    perExchange, picked, visited := primary, map[], [];
    ghost var plan := Plan(secondary, order, budgets, rotationMax);
    var pending := Exchanges(secondary);
    NothingAdded(primary, plan, r.cursor);
    while pending != {}
      invariant pending <= Exchanges(secondary) && multiset(visited) == multiset(Exchanges(secondary) - pending)
      invariant Added(primary, plan, old(r.cursor), visited, perExchange, picked)
      invariant r.cursor == WalkCursor(plan, old(r.cursor), visited)
      invariant AllFair(secondary, order, budgets, rotationMax, picked)
      decreases |pending|
    {
      var exchange :| exchange in pending;
      VisitOne(Exchanges(secondary), pending, visited, exchange);
      pending := pending - {exchange};
      var picks := PickForExchange(r, secondary, exchange, order, budgets, rotationMax);
      AddOne(primary, plan, old(r.cursor), visited, perExchange, picked, exchange, picks);
      WalkSnoc(plan, old(r.cursor), visited, exchange);
      AllFairAdd(secondary, order, budgets, rotationMax, picked, exchange, picks);
      perExchange := perExchange[exchange := TokensAt(perExchange, exchange) + Flatten(picks)];
      picked, visited := picked[exchange := picks], visited + [exchange];
    }
  }

  lemma NothingAdded(primary: map<string, seq<Token>>, plan: Plan, cursor: map<string, int>)
    ensures Added(primary, plan, cursor, [], primary, map[])
  {
    forall e ensures TokensAt(primary, e) == TokensAt(primary, e) + PickedAt(map[], e) {
      Seqs.FromStart(TokensAt(primary, e));
    }
  }

  lemma VisitOne(all: set<string>, pending: set<string>, visited: seq<string>, e: string)
    requires e in pending && pending <= all && multiset(visited) == multiset(all - pending)
    ensures e !in visited && multiset(visited + [e]) == multiset(all - (pending - {e}))
  {
    assert e in visited ==> e in multiset(visited);
    assert all - (pending - {e}) == all - pending + {e};
  }

  /** With rotation and budgets every exchange keeps all its primary tokens, followed by its picks. */
  method BuildRotatedBatches(f: Filter, subs: seq<Subscription>, maxTokens: int, r: Rotation, rotationMax: int,
                             budgets: map<string, int>, order: seq<string>)
    returns (batches: seq<Batch>, secondary: TokenLists, picked: map<string, seq<Pick>>, ghost visited: seq<string>)
    requires rotationMax > 0
    modifies r
    ensures forall e, k :: ListOf(secondary, e, k) == InTurn(f, subs, e, k)
    ensures NoneEmpty(secondary) && multiset(visited) == multiset(Exchanges(secondary))
    ensures var plan := Plan(secondary, order, budgets, rotationMax);
            picked == WalkPicks(plan, old(r.cursor), visited) && r.cursor == WalkCursor(plan, old(r.cursor), visited)
    ensures forall p :: p in secondary ==> p.0 in picked
    ensures forall e :: Held(batches, e) == EveryTime(f, subs, e) + PickedAt(picked, e)
    ensures AllFair(secondary, order, budgets, rotationMax, picked)
    ensures WithinSize(batches, maxTokens)
  {
    var primary, perExchange;
    primary, secondary := PartitionInTurn(f, subs);
    perExchange, picked, visited := AddPicks(r, primary, secondary, order, budgets, rotationMax);
    forall p | p in secondary ensures p.0 in picked {
      Visited(secondary, visited, p);
    }
    batches := SplitBatches(perExchange, maxTokens);
  }

  lemma Visited(lists: TokenLists, visited: seq<string>, p: (string, string))
    requires multiset(visited) == multiset(Exchanges(lists)) && p in lists
    ensures p.0 in visited
  {
    assert p.0 in Exchanges(lists);
    assert p.0 in multiset(visited);
  }
}
