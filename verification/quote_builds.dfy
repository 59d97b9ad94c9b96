/** Successive builds of `buildQuoteBatches` in cmd/collector/tasks.go with one rotation and the same subscriptions: what
    each kind of an exchange gets from build to build. */
module QuoteBuilds {
  import opened QuoteRotation
  import opened QuoteBatches
  import Sorting
  import StableSorting
  import Seqs

  function KeyFor(exchange: string, kind: string): string {
    exchange + ":" + kind
  }

  function CursorAt(cursor: map<string, int>, key: string): int {
    if key in cursor then cursor[key] else 0
  }

  lemma SameAt(a: map<string, int>, b: map<string, int>, key: string, tokens: seq<Token>, max: int)
    requires CursorAt(a, key) == CursorAt(b, key)
    ensures Taken(a, key, tokens, max) == Taken(b, key, tokens, max)
    ensures CursorAt(Moved(a, key, tokens, max), key) == CursorAt(Moved(b, key, tokens, max), key)
  {
  }

  lemma MovedElsewhere(cursor: map<string, int>, key: string, tokens: seq<Token>, max: int, other: string)
    requires other != key
    ensures CursorAt(Moved(cursor, key, tokens, max), other) == CursorAt(cursor, other)
  {
  }

  // ---- One exchange ----

  /** The limit a kind comes to: its own, cut to what the kinds before it leave; 0 when nothing is left. No cursor has a
      part in it. */
  function Share(byKind: map<string, seq<Token>>, kinds: seq<string>, budgets: map<string, int>, rotationMax: int,
                 remaining: int, kind: string): nat
    decreases |kinds|
  {
    if kinds == [] || remaining <= 0 then 0
    else
      var first, rest := kinds[0], kinds[1..];
      var limit := Limit(budgets, first, rotationMax, remaining);
      if Skips(byKind, first, limit) then Share(byKind, rest, budgets, rotationMax, remaining, kind)
      else if first == kind then limit
      else Share(byKind, rest, budgets, rotationMax, remaining - Used(byKind[first], limit), kind)
  }

  function Used(tokens: seq<Token>, limit: int): nat {
    if TakesAll(tokens, limit) then |tokens| else limit
  }

  /** How many tokens a kind would take with the rotation to itself: those it has, up to its budget if it has one. */
  function Demand(byKind: map<string, seq<Token>>, budgets: map<string, int>, rotationMax: int, kind: string): nat {
    if kind !in byKind then 0
    else
      var own := Positive(if kind in budgets then budgets[kind] else rotationMax);
      if |byKind[kind]| < own then |byKind[kind]| else own
  }

  function Demands(byKind: map<string, seq<Token>>, budgets: map<string, int>, rotationMax: int, kinds: seq<string>): nat {
    if kinds == [] then 0
    else Demand(byKind, budgets, rotationMax, kinds[0]) + Demands(byKind, budgets, rotationMax, kinds[1..])
  }

  /** What a kind leaves of the rotation. */
  function Left(byKind: map<string, seq<Token>>, budgets: map<string, int>, rotationMax: int, remaining: int, kind: string): int {
    var limit := Limit(budgets, kind, rotationMax, remaining);
    if Skips(byKind, kind, limit) then remaining else remaining - Used(byKind[kind], limit)
  }

  lemma LeftAfterDemand(byKind: map<string, seq<Token>>, budgets: map<string, int>, rotationMax: int, remaining: int,
                        kind: string)
    requires remaining <= rotationMax
    ensures var left := Left(byKind, budgets, rotationMax, remaining, kind);
            && left <= rotationMax
            && (remaining > 0 ==> Positive(left) == Positive(remaining - Demand(byKind, budgets, rotationMax, kind)))
  {
  }

  lemma SplitDemands(byKind: map<string, seq<Token>>, budgets: map<string, int>, rotationMax: int, kinds: seq<string>, n: nat)
    requires 0 < n < |kinds| && kinds[n] !in kinds[..n]
    ensures kinds[0] != kinds[n] && kinds[1..][n - 1] == kinds[n] && kinds[n] !in kinds[1..][..n - 1]
    ensures Demands(byKind, budgets, rotationMax, kinds[..n]) ==
            Demand(byKind, budgets, rotationMax, kinds[0]) + Demands(byKind, budgets, rotationMax, kinds[1..][..n - 1])
  {
    assert kinds[..n][0] == kinds[0] && kinds[..n][1..] == kinds[1..][..n - 1];
  }

  /** A kind gets what it demands, cut to what the demands of the kinds in front of it leave of the rotation. */
  lemma {:induction false} ShareIsLeftover(byKind: map<string, seq<Token>>, kinds: seq<string>, budgets: map<string, int>,
                                           rotationMax: int, remaining: int, n: nat)
    requires n < |kinds| && kinds[n] !in kinds[..n] && kinds[n] in byKind && remaining <= rotationMax
    ensures var demand := Demand(byKind, budgets, rotationMax, kinds[n]);
            var left := Positive(remaining - Demands(byKind, budgets, rotationMax, kinds[..n]));
            Least(Share(byKind, kinds, budgets, rotationMax, remaining, kinds[n]), |byKind[kinds[n]]|) == Least(demand, left)
    decreases n
  {
    if n == 0 {
      FirstShare(byKind, kinds, budgets, rotationMax, remaining);
    } else {
      SplitDemands(byKind, budgets, rotationMax, kinds, n);
      LaterShare(byKind, kinds, budgets, rotationMax, remaining, kinds[n]);
      if remaining > 0 {
        LeftAfterDemand(byKind, budgets, rotationMax, remaining, kinds[0]);
        ShareIsLeftover(byKind, kinds[1..], budgets, rotationMax, Left(byKind, budgets, rotationMax, remaining, kinds[0]), n - 1);
      }
    }
  }

  lemma FirstShare(byKind: map<string, seq<Token>>, kinds: seq<string>, budgets: map<string, int>, rotationMax: int,
                   remaining: int)
    requires kinds != [] && kinds[0] in byKind && remaining <= rotationMax
    ensures Least(Share(byKind, kinds, budgets, rotationMax, remaining, kinds[0]), |byKind[kinds[0]]|) ==
            Least(Demand(byKind, budgets, rotationMax, kinds[0]), Positive(remaining))
  {
    if kinds[0] in budgets && budgets[kinds[0]] <= 0 {
      NothingAllowed(byKind, kinds, budgets, rotationMax, remaining, kinds[0]);
    }
  }

  lemma LaterShare(byKind: map<string, seq<Token>>, kinds: seq<string>, budgets: map<string, int>, rotationMax: int,
                   remaining: int, kind: string)
    requires kinds != [] && kinds[0] != kind
    ensures Share(byKind, kinds, budgets, rotationMax, remaining, kind) ==
            if remaining <= 0 then 0
            else Share(byKind, kinds[1..], budgets, rotationMax, Left(byKind, budgets, rotationMax, remaining, kinds[0]), kind)
  {
  }

  function Least(a: nat, b: nat): nat {
    if a < b then a else b
  }

  lemma {:induction false} NothingAllowed(byKind: map<string, seq<Token>>, kinds: seq<string>, budgets: map<string, int>,
                                          rotationMax: int, remaining: int, kind: string)
    requires kind in budgets && budgets[kind] <= 0
    ensures Share(byKind, kinds, budgets, rotationMax, remaining, kind) == 0
    decreases |kinds|
  {
    if kinds != [] && remaining > 0 {
      NothingAllowed(byKind, kinds[1..], budgets, rotationMax, Left(byKind, budgets, rotationMax, remaining, kinds[0]), kind);
    }
  }

  function PickedOf(picks: seq<Pick>, kind: string): seq<Token> {
    if picks == [] then [] else (if picks[0].kind == kind then picks[0].tokens else []) + PickedOf(picks[1..], kind)
  }

  lemma PickedFirst(p: Pick, picks: seq<Pick>, kind: string)
    ensures PickedOf([p] + picks, kind) == (if p.kind == kind then p.tokens else []) + PickedOf(picks, kind)
  {
    assert ([p] + picks)[1..] == picks;
  }

  /** What a share hands out, and where it leaves the cursor. */
  function Served(cursor: map<string, int>, key: string, tokens: seq<Token>, share: nat): seq<Token> {
    if share == 0 then [] else Taken(cursor, key, tokens, share)
  }

  function ServedCursor(cursor: map<string, int>, key: string, tokens: seq<Token>, share: nat): int {
    CursorAt(if share == 0 then cursor else Moved(cursor, key, tokens, share), key)
  }

  lemma SameServed(a: map<string, int>, b: map<string, int>, key: string, tokens: seq<Token>, share: nat)
    requires CursorAt(a, key) == CursorAt(b, key)
    ensures Served(a, key, tokens, share) == Served(b, key, tokens, share)
    ensures ServedCursor(a, key, tokens, share) == ServedCursor(b, key, tokens, share)
  {
    SameAt(a, b, key, tokens, share);
  }

  function TokensIn(byKind: map<string, seq<Token>>, kind: string): seq<Token> {
    if kind in byKind then byKind[kind] else []
  }

  /** The first kind takes something, and the others go on with what is left. */
  lemma FirstTakes(cursor: map<string, int>, exchange: string, byKind: map<string, seq<Token>>, kinds: seq<string>,
                   budgets: map<string, int>, rotationMax: int, remaining: int, limit: nat, moved: map<string, int>, left: int)
    requires kinds != [] && remaining > 0 && limit == Limit(budgets, kinds[0], rotationMax, remaining)
    requires !Skips(byKind, kinds[0], limit)
    requires moved == Moved(cursor, KeyFor(exchange, kinds[0]), byKind[kinds[0]], limit)
    requires left == remaining - Used(byKind[kinds[0]], limit)
    ensures Picks(cursor, exchange, byKind, kinds, budgets, rotationMax, remaining) ==
            [Pick(kinds[0], Taken(cursor, KeyFor(exchange, kinds[0]), byKind[kinds[0]], limit))] +
            Picks(moved, exchange, byKind, kinds[1..], budgets, rotationMax, left)
    ensures CursorAfter(cursor, exchange, byKind, kinds, budgets, rotationMax, remaining) ==
            CursorAfter(moved, exchange, byKind, kinds[1..], budgets, rotationMax, left)
  {
  }

  ghost predicate KeyOfNone(exchange: string, kinds: seq<string>, key: string) {
    forall i :: 0 <= i < |kinds| ==> KeyFor(exchange, kinds[i]) != key
  }

  /** The walk leaves the other cursors alone. */
  lemma {:induction false} CursorElsewhere(cursor: map<string, int>, exchange: string, byKind: map<string, seq<Token>>,
                                           kinds: seq<string>, budgets: map<string, int>, rotationMax: int, remaining: int,
                                           key: string)
    requires KeyOfNone(exchange, kinds, key)
    ensures CursorAt(CursorAfter(cursor, exchange, byKind, kinds, budgets, rotationMax, remaining), key) == CursorAt(cursor, key)
    decreases |kinds|
  {
    if kinds != [] && remaining > 0 {
      var first := kinds[0];
      var limit := Limit(budgets, first, rotationMax, remaining);
      if Skips(byKind, first, limit) {
        CursorElsewhere(cursor, exchange, byKind, kinds[1..], budgets, rotationMax, remaining, key);
      } else {
        var own, left := KeyFor(exchange, first), remaining - Used(byKind[first], limit);
        var moved := Moved(cursor, own, byKind[first], limit);
        FirstTakes(cursor, exchange, byKind, kinds, budgets, rotationMax, remaining, limit, moved, left);
        CursorElsewhere(moved, exchange, byKind, kinds[1..], budgets, rotationMax, left, key);
        MovedElsewhere(cursor, own, byKind[first], limit, key);
      }
    }
  }

  lemma {:induction false} NothingPicked(cursor: map<string, int>, exchange: string, byKind: map<string, seq<Token>>,
                                         kinds: seq<string>, budgets: map<string, int>, rotationMax: int, remaining: int,
                                         kind: string)
    requires Occurrences(kinds, kind) == 0
    ensures PickedOf(Picks(cursor, exchange, byKind, kinds, budgets, rotationMax, remaining), kind) == []
    decreases |kinds|
  {
    if kinds != [] && remaining > 0 {
      var first := kinds[0];
      var limit := Limit(budgets, first, rotationMax, remaining);
      if Skips(byKind, first, limit) {
        NothingPicked(cursor, exchange, byKind, kinds[1..], budgets, rotationMax, remaining, kind);
      } else {
        var own, left := KeyFor(exchange, first), remaining - Used(byKind[first], limit);
        var moved := Moved(cursor, own, byKind[first], limit);
        FirstTakes(cursor, exchange, byKind, kinds, budgets, rotationMax, remaining, limit, moved, left);
        NothingPicked(moved, exchange, byKind, kinds[1..], budgets, rotationMax, left, kind);
        PickedFirst(Pick(first, Taken(cursor, own, byKind[first], limit)),
                    Picks(moved, exchange, byKind, kinds[1..], budgets, rotationMax, left), kind);
      }
    }
  }

  lemma {:induction false} NotAmong(exchange: string, kinds: seq<string>, kind: string)
    requires Occurrences(kinds, kind) == 0
    ensures KeyOfNone(exchange, kinds, KeyFor(exchange, kind))
  {
    if kinds != [] {
      NotAmong(exchange, kinds[1..], kind);
      OwnKeys(exchange, kinds[0], kind);
    }
  }

  lemma OwnKeys(exchange: string, a: string, b: string)
    ensures KeyFor(exchange, a) == KeyFor(exchange, b) ==> a == b
  {
    var n := |exchange| + 1;
    assert KeyFor(exchange, a)[n..] == a && KeyFor(exchange, b)[n..] == b;
  }

  /** A kind gets its share, from its own cursor. */
  ghost predicate GetsShare(cursor: map<string, int>, exchange: string, byKind: map<string, seq<Token>>,
                            kinds: seq<string>,
                             budgets: map<string, int>, rotationMax: int, remaining: int, kind: string)
  {
    var share, key := Share(byKind, kinds, budgets, rotationMax, remaining, kind), KeyFor(exchange, kind);
    && PickedOf(Picks(cursor, exchange, byKind, kinds, budgets, rotationMax, remaining), kind) ==
       Served(cursor, key, TokensIn(byKind, kind), share)
    && CursorAt(CursorAfter(cursor, exchange, byKind, kinds, budgets, rotationMax, remaining), key) ==
       ServedCursor(cursor, key, TokensIn(byKind, kind), share)
  }

  lemma {:induction false} KindServed(cursor: map<string, int>, exchange: string, byKind: map<string, seq<Token>>,
                                      kinds: seq<string>,
                             budgets: map<string, int>, rotationMax: int, remaining: int, kind: string)
    requires Occurrences(kinds, kind) <= 1
    ensures GetsShare(cursor, exchange, byKind, kinds, budgets, rotationMax, remaining, kind)
    decreases |kinds|
  {
    if kinds != [] && remaining > 0 {
      var first, rest := kinds[0], kinds[1..];
      var limit := Limit(budgets, first, rotationMax, remaining);
      if Skips(byKind, first, limit) {
        KindServed(cursor, exchange, byKind, rest, budgets, rotationMax, remaining, kind);
      } else if first == kind {
        OwnTurn(cursor, exchange, byKind, kinds, budgets, rotationMax, remaining, kind, limit);
      } else {
        var moved := Moved(cursor, KeyFor(exchange, first), byKind[first], limit);
        KindServed(moved, exchange, byKind, rest, budgets, rotationMax, remaining - Used(byKind[first], limit), kind);
        OtherTurn(cursor, exchange, byKind, kinds, budgets, rotationMax, remaining, kind, limit, moved);
      }
    }
  }

  lemma OwnTurn(cursor: map<string, int>, exchange: string, byKind: map<string, seq<Token>>, kinds: seq<string>,
                             budgets: map<string, int>, rotationMax: int, remaining: int, kind: string,
                limit: nat)
    requires kinds != [] && remaining > 0 && limit == Limit(budgets, kinds[0], rotationMax, remaining)
    requires !Skips(byKind, kinds[0], limit) && kinds[0] == kind && Occurrences(kinds, kind) <= 1
    ensures GetsShare(cursor, exchange, byKind, kinds, budgets, rotationMax, remaining, kind)
  {
    var rest, key, left := kinds[1..], KeyFor(exchange, kind), remaining - Used(byKind[kind], limit);
    var moved, taken := Moved(cursor, key, byKind[kind], limit), Taken(cursor, key, byKind[kind], limit);
    FirstTakes(cursor, exchange, byKind, kinds, budgets, rotationMax, remaining, limit, moved, left);
    PickedFirst(Pick(kind, taken), Picks(moved, exchange, byKind, rest, budgets, rotationMax, left), kind);
    NothingPicked(moved, exchange, byKind, rest, budgets, rotationMax, left, kind);
    NotAmong(exchange, rest, kind);
    CursorElsewhere(moved, exchange, byKind, rest, budgets, rotationMax, left, key);
    Seqs.FromStart(taken);
  }

  lemma OtherTurn(cursor: map<string, int>, exchange: string, byKind: map<string, seq<Token>>, kinds: seq<string>,
                             budgets: map<string, int>, rotationMax: int, remaining: int, kind: string,
                  limit: nat, moved: map<string, int>)
    requires kinds != [] && remaining > 0 && limit == Limit(budgets, kinds[0], rotationMax, remaining)
    requires !Skips(byKind, kinds[0], limit) && kinds[0] != kind
    requires moved == Moved(cursor, KeyFor(exchange, kinds[0]), byKind[kinds[0]], limit)
    requires GetsShare(moved, exchange, byKind, kinds[1..], budgets, rotationMax,
                       remaining - Used(byKind[kinds[0]], limit), kind)
    ensures GetsShare(cursor, exchange, byKind, kinds, budgets, rotationMax, remaining, kind)
  {
    var left := remaining - Used(byKind[kinds[0]], limit);
    OthersFirst(cursor, exchange, byKind, kinds, budgets, rotationMax, remaining, kind, limit, moved, left);
    OwnKeys(exchange, kinds[0], kind);
    MovedElsewhere(cursor, KeyFor(exchange, kinds[0]), byKind[kinds[0]], limit, KeyFor(exchange, kind));
    SameServed(moved, cursor, KeyFor(exchange, kind), TokensIn(byKind, kind),
               Share(byKind, kinds[1..], budgets, rotationMax, left, kind));
  }

  /** The turn of another kind. */
  lemma OthersFirst(cursor: map<string, int>, exchange: string, byKind: map<string, seq<Token>>, kinds: seq<string>,
                             budgets: map<string, int>, rotationMax: int, remaining: int, kind: string,
                    limit: nat, moved: map<string, int>, left: int)
    requires kinds != [] && remaining > 0 && limit == Limit(budgets, kinds[0], rotationMax, remaining)
    requires !Skips(byKind, kinds[0], limit) && kinds[0] != kind
    requires moved == Moved(cursor, KeyFor(exchange, kinds[0]), byKind[kinds[0]], limit)
    requires left == remaining - Used(byKind[kinds[0]], limit)
    ensures PickedOf(Picks(cursor, exchange, byKind, kinds, budgets, rotationMax, remaining), kind) ==
            PickedOf(Picks(moved, exchange, byKind, kinds[1..], budgets, rotationMax, left), kind)
    ensures CursorAfter(cursor, exchange, byKind, kinds, budgets, rotationMax, remaining) ==
            CursorAfter(moved, exchange, byKind, kinds[1..], budgets, rotationMax, left)
    ensures Share(byKind, kinds, budgets, rotationMax, remaining, kind) ==
            Share(byKind, kinds[1..], budgets, rotationMax, left, kind)
  {
    var own, rest := KeyFor(exchange, kinds[0]), Picks(moved, exchange, byKind, kinds[1..], budgets, rotationMax, left);
    FirstTakes(cursor, exchange, byKind, kinds, budgets, rotationMax, remaining, limit, moved, left);
    PickedFirst(Pick(kinds[0], Taken(cursor, own, byKind[kinds[0]], limit)), rest, kind);
    Seqs.FromStart(PickedOf(rest, kind));
  }

  // ---- One build ----

  /** Keys of different exchanges differ when no exchange has a colon in it. */
  lemma KeysDiffer(a: string, k: string, b: string, l: string)
    requires ':' !in a && ':' !in b
    ensures KeyFor(a, k) == KeyFor(b, l) ==> a == b
  {
    KeyParts(a, k, |b|);
    KeyParts(b, l, |a|);
  }

  lemma KeyParts(a: string, k: string, i: nat)
    ensures KeyFor(a, k)[..|a|] == a && KeyFor(a, k)[|a|] == ':'
    ensures i < |a| ==> KeyFor(a, k)[i] == a[i]
  {
  }

  ghost predicate NoColons(names: seq<string>) {
    forall i :: 0 <= i < |names| ==> ':' !in names[i]
  }

  function ShareOf(byKind: map<string, seq<Token>>, kinds: seq<string>, budgets: map<string, int>, rotationMax: int,
                   kind: string): nat
  {
    Share(byKind, kinds, budgets, rotationMax, rotationMax, kind)
  }

  /** What a kind of an exchange comes to in every build. */
  ghost function PlanShare(plan: Plan, exchange: string, kind: string): nat {
    ShareOf(KindsOf(plan.lists, exchange), KindsFor(plan, exchange), plan.budgets, plan.rotationMax, kind)
  }

  ghost function PlanTokens(plan: Plan, exchange: string, kind: string): seq<Token> {
    TokensIn(KindsOf(plan.lists, exchange), kind)
  }

  lemma PlanTokensAre(plan: Plan, exchange: string, kind: string)
    ensures PlanTokens(plan, exchange, kind) == ListOf(plan.lists, exchange, kind)
  {
  }

  /** The `n`-th kind of an exchange has its demand handed out in every build, cut to what the demands of the kinds in
      front of it leave of the rotation. */
  lemma PlanShareIs(plan: Plan, exchange: string, n: nat)
    requires var kinds := KindsFor(plan, exchange);
             n < |kinds| && kinds[n] !in kinds[..n] && (exchange, kinds[n]) in plan.lists
    ensures var kinds, byKind := KindsFor(plan, exchange), KindsOf(plan.lists, exchange);
            var demand := Demand(byKind, plan.budgets, plan.rotationMax, kinds[n]);
            var left := Positive(plan.rotationMax - Demands(byKind, plan.budgets, plan.rotationMax, kinds[..n]));
            Least(PlanShare(plan, exchange, kinds[n]), |PlanTokens(plan, exchange, kinds[n])|) == Least(demand, left)
  {
    ShareIsLeftover(KindsOf(plan.lists, exchange), KindsFor(plan, exchange), plan.budgets, plan.rotationMax,
                    plan.rotationMax, n);
  }

  function PicksAt(picked: map<string, seq<Pick>>, exchange: string): seq<Pick> {
    if exchange in picked then picked[exchange] else []
  }

  lemma VisitServes(plan: Plan, cursor: map<string, int>, exchange: string, kind: string)
    requires Listings(plan.order, kind) == 1
    ensures var key, tokens, share := KeyFor(exchange, kind), PlanTokens(plan, exchange, kind), PlanShare(plan, exchange, kind);
            && PickedOf(PicksFor(plan, cursor, exchange), kind) == Served(cursor, key, tokens, share)
            && CursorAt(CursorFor(plan, cursor, exchange), key) == ServedCursor(cursor, key, tokens, share)
  {
    var byKind := KindsOf(plan.lists, exchange);
    ListedAsOften(plan.order, byKind, kind);
    KindServed(cursor, exchange, byKind, KindsFor(plan, exchange), plan.budgets, plan.rotationMax, plan.rotationMax, kind);
  }

  lemma VisitElsewhere(plan: Plan, cursor: map<string, int>, exchange: string, other: string, kind: string)
    requires exchange != other && ':' !in exchange && ':' !in other
    ensures CursorAt(CursorFor(plan, cursor, other), KeyFor(exchange, kind)) == CursorAt(cursor, KeyFor(exchange, kind))
  {
    var kinds := KindsFor(plan, other);
    forall i | 0 <= i < |kinds| ensures KeyFor(other, kinds[i]) != KeyFor(exchange, kind) {
      KeysDiffer(other, kinds[i], exchange, kind);
    }
    CursorElsewhere(cursor, other, KindsOf(plan.lists, other), kinds, plan.budgets, plan.rotationMax, plan.rotationMax,
                    KeyFor(exchange, kind));
  }

  ghost predicate Once(visited: seq<string>) {
    forall i, j :: 0 <= i < j < |visited| ==> visited[i] != visited[j]
  }

  lemma {:induction false} NotVisited(plan: Plan, cursor: map<string, int>, visited: seq<string>, exchange: string,
                                      kind: string)
    requires NoColons(visited) && ':' !in exchange && exchange !in visited
    ensures CursorAt(WalkCursor(plan, cursor, visited), KeyFor(exchange, kind)) == CursorAt(cursor, KeyFor(exchange, kind))
  {
    if visited != [] {
      var front, last := visited[..|visited| - 1], visited[|visited| - 1];
      NotVisited(plan, cursor, front, exchange, kind);
      VisitElsewhere(plan, WalkCursor(plan, cursor, front), exchange, last, kind);
    }
  }

  /** A build gives a kind its share, from its own cursor. */
  ghost predicate BuildGives(plan: Plan, cursor: map<string, int>, picks: seq<Pick>, after: map<string, int>,
                             exchange: string, kind: string)
  {
    var key, tokens, share := KeyFor(exchange, kind), PlanTokens(plan, exchange, kind), PlanShare(plan, exchange, kind);
    && PickedOf(picks, kind) == Served(cursor, key, tokens, share)
    && CursorAt(after, key) == ServedCursor(cursor, key, tokens, share)
  }

  lemma VisitGives(plan: Plan, cursor: map<string, int>, before: map<string, int>, exchange: string, kind: string)
    requires Listings(plan.order, kind) == 1
    requires CursorAt(before, KeyFor(exchange, kind)) == CursorAt(cursor, KeyFor(exchange, kind))
    ensures BuildGives(plan, cursor, PicksFor(plan, before, exchange), CursorFor(plan, before, exchange), exchange, kind)
  {
    VisitServes(plan, before, exchange, kind);
    SameServed(before, cursor, KeyFor(exchange, kind), PlanTokens(plan, exchange, kind), PlanShare(plan, exchange, kind));
  }

  /** In a build that visits every exchange once, in any order. */
  lemma {:induction false} BuildServes(plan: Plan, cursor: map<string, int>, visited: seq<string>, exchange: string,
                                       kind: string)
    requires NoColons(visited) && Once(visited) && exchange in visited && Listings(plan.order, kind) == 1
    ensures BuildGives(plan, cursor, PicksAt(WalkPicks(plan, cursor, visited), exchange), WalkCursor(plan, cursor, visited),
                       exchange, kind)
  {
    var front, last := visited[..|visited| - 1], visited[|visited| - 1];
    var before := WalkCursor(plan, cursor, front);
    VisitLast(plan, cursor, visited, exchange);
    CursorLast(plan, cursor, visited);
    LastOnce(visited, exchange);
    if last == exchange {
      NotVisited(plan, cursor, front, exchange, kind);
      VisitGives(plan, cursor, before, exchange, kind);
    } else {
      BuildServes(plan, cursor, front, exchange, kind);
      VisitKeeps(plan, cursor, PicksAt(WalkPicks(plan, cursor, front), exchange), before, exchange, kind, last);
    }
  }

  lemma VisitLast(plan: Plan, cursor: map<string, int>, visited: seq<string>, exchange: string)
    requires visited != []
    ensures var front, last := visited[..|visited| - 1], visited[|visited| - 1];
            PicksAt(WalkPicks(plan, cursor, visited), exchange) ==
               if last == exchange then PicksFor(plan, WalkCursor(plan, cursor, front), last)
               else PicksAt(WalkPicks(plan, cursor, front), exchange)
  {
  }

  lemma CursorLast(plan: Plan, cursor: map<string, int>, visited: seq<string>)
    requires visited != []
    ensures WalkCursor(plan, cursor, visited) ==
            CursorFor(plan, WalkCursor(plan, cursor, visited[..|visited| - 1]), visited[|visited| - 1])
  {
  }

  lemma LastOnce(visited: seq<string>, exchange: string)
    requires Once(visited) && exchange in visited
    ensures var front, last := visited[..|visited| - 1], visited[|visited| - 1];
            Once(front) && (exchange in front <==> exchange != last)
  {
  }

  lemma VisitKeeps(plan: Plan, cursor: map<string, int>, picks: seq<Pick>, before: map<string, int>, exchange: string,
                   kind: string, last: string)
    requires BuildGives(plan, cursor, picks, before, exchange, kind)
    requires last != exchange && ':' !in last && ':' !in exchange
    ensures BuildGives(plan, cursor, picks, CursorFor(plan, before, last), exchange, kind)
  {
    VisitElsewhere(plan, before, exchange, last, kind);
  }

  // ---- Successive builds ----

  ghost function BuildsCursor(plan: Plan, cursor: map<string, int>, visits: seq<seq<string>>): map<string, int> {
    if visits == [] then cursor
    else WalkCursor(plan, BuildsCursor(plan, cursor, visits[..|visits| - 1]), visits[|visits| - 1])
  }

  /** The picks of each build. */
  ghost function BuildsPicks(plan: Plan, cursor: map<string, int>,
                             visits: seq<seq<string>>): seq<map<string, seq<Pick>>> {
    if visits == [] then []
    else
      var front := visits[..|visits| - 1];
      BuildsPicks(plan, cursor, front) + [WalkPicks(plan, BuildsCursor(plan, cursor, front), visits[|visits| - 1])]
  }

  /** All that the builds hand out of one kind of an exchange, in order. */
  ghost function HandedBy(builds: seq<map<string, seq<Pick>>>, exchange: string, kind: string): seq<Token> {
    if builds == [] then []
    else HandedBy(builds[..|builds| - 1], exchange, kind) + PickedOf(PicksAt(builds[|builds| - 1], exchange), kind)
  }

  lemma HandedSnoc(builds: seq<map<string, seq<Pick>>>, picked: map<string, seq<Pick>>, exchange: string, kind: string)
    ensures HandedBy(builds + [picked], exchange, kind) ==
            HandedBy(builds, exchange, kind) + PickedOf(PicksAt(picked, exchange), kind)
  {
    Seqs.Snoc(builds, builds, picked);
  }

  /** Every build visits every exchange once, in whatever order the map is walked. */
  ghost predicate VisitAll(plan: Plan, visits: seq<seq<string>>) {
    forall i :: 0 <= i < |visits| ==> multiset(visits[i]) == multiset(Exchanges(plan.lists))
  }

  ghost predicate Rotates(plan: Plan, exchange: string, kind: string) {
    && Listings(plan.order, kind) == 1 && exchange in Exchanges(plan.lists)
    && forall e :: e in Exchanges(plan.lists) ==> ':' !in e
  }

  lemma OneBuild(plan: Plan, cursor: map<string, int>, visited: seq<string>, exchange: string, kind: string)
    requires multiset(visited) == multiset(Exchanges(plan.lists)) && Rotates(plan, exchange, kind)
    ensures BuildGives(plan, cursor, PicksAt(WalkPicks(plan, cursor, visited), exchange), WalkCursor(plan, cursor, visited),
                       exchange, kind)
  {
    StableSorting.ListedOnce(visited, Exchanges(plan.lists));
    BuildServes(plan, cursor, visited, exchange, kind);
  }

  /** One call more with the same limit. */
  lemma RoundsMore(cursor: map<string, int>, key: string, tokens: seq<Token>, m: nat, calls: nat)
    requires tokens != []
    ensures var s := Sorting.Sort(tokens);
            var before, after := Rounds(cursor, key, s, Constant(m, calls)), Rounds(cursor, key, s, Constant(m, calls + 1));
            after.0 == before.0 + Next(before.1, key, s, m) && after.1 == Advanced(before.1, key, |s|, m)
  {
    assert Constant(m, calls + 1)[..calls] == Constant(m, calls);
  }

  /** The builds hand out what as many calls with the kind's share do. */
  lemma {:induction false} BuildsRotate(plan: Plan, cursor: map<string, int>, visits: seq<seq<string>>,
                                        exchange: string, kind: string)
    requires VisitAll(plan, visits) && Rotates(plan, exchange, kind)
    requires 0 < PlanShare(plan, exchange, kind) < |PlanTokens(plan, exchange, kind)|
    ensures var key, tokens, m := KeyFor(exchange, kind), PlanTokens(plan, exchange, kind), PlanShare(plan, exchange, kind);
            && HandedBy(BuildsPicks(plan, cursor, visits), exchange, kind) == HandedOut(cursor, key, tokens, m, |visits|)
            && CursorAt(BuildsCursor(plan, cursor, visits), key) ==
               CursorAt(Rounds(cursor, key, Sorting.Sort(tokens), Constant(m, |visits|)).1, key)
  {
    if visits != [] {
      var front, last := visits[..|visits| - 1], visits[|visits| - 1];
      var before, key, tokens, m := BuildsCursor(plan, cursor, front), KeyFor(exchange, kind),
                                    PlanTokens(plan, exchange, kind), PlanShare(plan, exchange, kind);
      BuildsRotate(plan, cursor, front, exchange, kind);
      OneBuild(plan, before, last, exchange, kind);
      HandedSnoc(BuildsPicks(plan, cursor, front), WalkPicks(plan, before, last), exchange, kind);
      RoundsMore(cursor, key, tokens, m, |front|);
      SameServed(before, Rounds(cursor, key, Sorting.Sort(tokens), Constant(m, |front|)).1, key, tokens, m);
    }
  }

  /** The kind has these tokens and comes to `m` of them in every one of the builds. */
  ghost predicate Comes(plan: Plan, visits: seq<seq<string>>, exchange: string, kind: string, tokens: seq<Token>,
                        m: nat) {
    && VisitAll(plan, visits) && Rotates(plan, exchange, kind)
    && tokens == PlanTokens(plan, exchange, kind) && m == PlanShare(plan, exchange, kind)
  }

  lemma HandedInBuild(plan: Plan, cursor: map<string, int>, visits: seq<seq<string>>, exchange: string, kind: string,
                      tokens: seq<Token>, m: nat, x: Token)
    requires Comes(plan, visits, exchange, kind, tokens, m) && visits != [] && m >= |tokens| && x in tokens
    ensures x in HandedBy(BuildsPicks(plan, cursor, visits), exchange, kind)
  {
    var front, last := visits[..|visits| - 1], visits[|visits| - 1];
    var before := BuildsCursor(plan, cursor, front);
    OneBuild(plan, before, last, exchange, kind);
    HandedSnoc(BuildsPicks(plan, cursor, front), WalkPicks(plan, before, last), exchange, kind);
  }

  lemma PartialWithinBuilds(plan: Plan, cursor: map<string, int>, visits: seq<seq<string>>, exchange: string,
                            kind: string, tokens: seq<Token>, m: nat, x: Token)
    requires Comes(plan, visits, exchange, kind, tokens, m) && 0 < m < |tokens| && x in tokens
    requires |visits| >= (|tokens| + m - 1) / m
    ensures x in HandedBy(BuildsPicks(plan, cursor, visits), exchange, kind)
  {
    BuildsRotate(plan, cursor, visits, exchange, kind);
    SoonHandedOut(cursor, KeyFor(exchange, kind), tokens, m, |visits|, x);
  }

  /** A kind of n tokens that comes to m of them has all of them handed out within ceil(n / m) builds. */
  lemma AllWithinBuilds(plan: Plan, cursor: map<string, int>, visits: seq<seq<string>>, exchange: string, kind: string,
                        tokens: seq<Token>, m: nat, x: Token)
    requires Comes(plan, visits, exchange, kind, tokens, m) && m > 0 && x in tokens
    requires |visits| >= (|tokens| + m - 1) / m
    ensures x in HandedBy(BuildsPicks(plan, cursor, visits), exchange, kind)
  {
    if m < |tokens| {
      PartialWithinBuilds(plan, cursor, visits, exchange, kind, tokens, m, x);
    } else {
      SomeCall(|tokens|, m, |visits|);
      HandedInBuild(plan, cursor, visits, exchange, kind, tokens, m, x);
    }
  }

  lemma SomeCall(n: nat, m: nat, calls: nat)
    requires n > 0 && m > 0 && calls >= (n + m - 1) / m
    ensures calls > 0
  {
    EnoughCalls(n, m, calls);
  }

  /** And in n builds each of them exactly m times. */
  lemma EqualSharesOfBuilds(plan: Plan, cursor: map<string, int>, visits: seq<seq<string>>, exchange: string,
                            kind: string, x: Token)
    requires VisitAll(plan, visits) && Rotates(plan, exchange, kind) && |visits| == |PlanTokens(plan, exchange, kind)|
    requires 0 < PlanShare(plan, exchange, kind) < |PlanTokens(plan, exchange, kind)|
    ensures multiset(HandedBy(BuildsPicks(plan, cursor, visits), exchange, kind))[x] ==
            Times(multiset(PlanTokens(plan, exchange, kind))[x], PlanShare(plan, exchange, kind))
  {
    BuildsRotate(plan, cursor, visits, exchange, kind);
    EqualShares(cursor, KeyFor(exchange, kind), PlanTokens(plan, exchange, kind), PlanShare(plan, exchange, kind), x);
  }

  /** A kind to which the kinds before it leave nothing is never handed out. */
  lemma {:induction false} StarvesWithoutShare(plan: Plan, cursor: map<string, int>, visits: seq<seq<string>>,
                                               exchange: string, kind: string)
    requires VisitAll(plan, visits) && Rotates(plan, exchange, kind) && PlanShare(plan, exchange, kind) == 0
    ensures HandedBy(BuildsPicks(plan, cursor, visits), exchange, kind) == []
  {
    if visits != [] {
      var front, last := visits[..|visits| - 1], visits[|visits| - 1];
      var before := BuildsCursor(plan, cursor, front);
      StarvesWithoutShare(plan, cursor, front, exchange, kind);
      OneBuild(plan, before, last, exchange, kind);
      HandedSnoc(BuildsPicks(plan, cursor, front), WalkPicks(plan, before, last), exchange, kind);
    }
  }

  /** Two tokens of one kind with a budget of two take up a rotation of two, and nothing is left to the next kind. */
  lemma NextKindStarves()
    ensures Share(map["EQ" := [1, 2], "FUT" := [3]], ["EQ", "FUT"], map["EQ" := 2], 2, 2, "FUT") == 0
  {
    assert ["EQ", "FUT"][1..] == ["FUT"] && ["FUT"][1..] == [];
  }

  /** The builder called again and again with the same subscriptions. */
  method RepeatBuilds(f: Filter, subs: seq<Subscription>, maxTokens: int, r: Rotation, rotationMax: int,
                      budgets: map<string, int>, order: seq<string>, count: nat)
    returns (builds: seq<map<string, seq<Pick>>>, lists: TokenLists, ghost visits: seq<seq<string>>)
    requires rotationMax > 0
    modifies r
    ensures forall e, k :: ListOf(lists, e, k) == InTurn(f, subs, e, k)
    ensures var plan := Plan(lists, order, budgets, rotationMax);
            && |visits| == count && VisitAll(plan, visits)
            && builds == BuildsPicks(plan, old(r.cursor), visits) && r.cursor == BuildsCursor(plan, old(r.cursor), visits)
  {
    var primary;
    primary, lists := PartitionInTurn(f, subs);
    ghost var plan := Plan(lists, order, budgets, rotationMax);
    builds, visits := [], [];
    for i := 0 to count
      invariant |visits| == i && VisitAll(plan, visits)
      invariant builds == BuildsPicks(plan, old(r.cursor), visits) && r.cursor == BuildsCursor(plan, old(r.cursor), visits)
    {
      var batches, secondary, picked;
      ghost var visited;
      batches, secondary, picked, visited := BuildRotatedBatches(f, subs, maxTokens, r, rotationMax, budgets, order);
      SameLists(lists, secondary);
      BuildsSnoc(plan, old(r.cursor), visits, visited);
      builds, visits := builds + [picked], visits + [visited];
    }
  }

  lemma BuildsSnoc(plan: Plan, cursor: map<string, int>, visits: seq<seq<string>>, visited: seq<string>)
    ensures BuildsCursor(plan, cursor, visits + [visited]) == WalkCursor(plan, BuildsCursor(plan, cursor, visits), visited)
    ensures BuildsPicks(plan, cursor, visits + [visited]) ==
            BuildsPicks(plan, cursor, visits) + [WalkPicks(plan, BuildsCursor(plan, cursor, visits), visited)]
  {
    Seqs.Snoc(visits, visits, visited);
  }

  lemma SameLists(a: TokenLists, b: TokenLists)
    requires NoneEmpty(a) && NoneEmpty(b) && forall e, k :: ListOf(a, e, k) == ListOf(b, e, k)
    ensures a == b
  {
    forall p ensures (p in a <==> p in b) && (p in a ==> a[p] == b[p]) {
      assert ListOf(a, p.0, p.1) == ListOf(b, p.0, p.1);
    }
  }
}
