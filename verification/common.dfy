/** Small datatypes and library stand-ins shared by the models. */
module Options {
  datatype Option<+T> = None | Some(value: T)
}

/** The minute bar of the backtest packages.  Instants are integer nanoseconds, prices reals. */
module Market {
  const MINUTE: int := 60_000_000_000

  datatype MinuteBar = MinuteBar(ts: int, open: real, high: real, low: real, close: real, volume: int)

  ghost predicate TimeSorted(bars: seq<MinuteBar>) {
    forall i, j :: 0 <= i <= j < |bars| ==> bars[i].ts <= bars[j].ts
  }
}

/** A stand-in for Go's `sort` on keys represented by integers: without equal keys the result does not
    depend on the algorithm. */
module Sorting {
  ghost predicate Increasing(s: seq<int>) {
    forall i, j :: 0 <= i < j < |s| ==> s[i] < s[j]
  }

  function Insert(s: seq<int>, x: int): (r: seq<int>)
    ensures forall y :: y in r <==> y in s || y == x
    ensures multiset(r) == multiset(s) + multiset{x}
  {
    if s == [] || x < s[0] then [x] + s
    else
      assert s == [s[0]] + s[1..];
      [s[0]] + Insert(s[1..], x)
  }

  lemma {:induction false} InsertIncreasing(s: seq<int>, x: int)
    requires Increasing(s) && x !in s
    ensures Increasing(Insert(s, x))
  {
    if s != [] && x > s[0] {
      InsertIncreasing(s[1..], x);
      var rest := Insert(s[1..], x);
      forall j | 0 <= j < |rest| ensures s[0] < rest[j] {
        assert rest[j] in rest;
      }
    }
  }

  function Sort(s: seq<int>): (r: seq<int>)
    ensures forall y :: y in r <==> y in s
    ensures multiset(r) == multiset(s) && |r| == |s|
  {
    if s == [] then []
    else
      assert s == [s[0]] + s[1..];
      Insert(Sort(s[1..]), s[0])
  }

  /** Distinct integers come out in increasing order. */
  lemma {:induction false} SortIncreasing(s: seq<int>)
    requires forall i, j :: 0 <= i < j < |s| ==> s[i] != s[j]
    ensures Increasing(Sort(s))
  {
    if s != [] {
      SortIncreasing(s[1..]);
      assert s[0] !in s[1..];
      InsertIncreasing(Sort(s[1..]), s[0]);
    }
  }

  ghost function First(s: seq<int>): int {
    if s == [] then 0 else s[0]
  }

  /** Increasing sequences with the same elements are equal. */
  lemma {:induction false} IncreasingUnique(s: seq<int>, t: seq<int>)
    requires Increasing(s) && Increasing(t)
    requires forall y :: y in s <==> y in t
    ensures s == t
  {
    if s == [] {
      assert First(t) in s <==> First(t) in t;
    } else {
      assert s[0] in s && s[0] in t;
      var x, y := s[|s| - 1], t[|t| - 1];
      assert x in s && y in t && x in t && y in s;
      assert x == y;
      var s', t' := s[..|s| - 1], t[..|t| - 1];
      forall z ensures z in s' <==> z in t' {
        assert z in s' <==> z in s && z != x;
        assert z in t' <==> z in t && z != y;
      }
      IncreasingUnique(s', t');
      assert s == s' + [x] && t == t' + [y];
    }
  }
}

/** ASCII versions of `strings.TrimSpace` and `strings.ToUpper`. */
module Text {
  predicate IsSpace(c: char) {
    c == ' ' || '\t' <= c <= '\r'
  }

  function TrimLeft(s: string): (r: string)
    ensures r != [] ==> !IsSpace(r[0])
    ensures s != [] && !IsSpace(s[0]) ==> r == s
  {
    if s != [] && IsSpace(s[0]) then TrimLeft(s[1..]) else s
  }

  function TrimRight(s: string): (r: string)
    ensures r <= s && (r != [] ==> !IsSpace(r[|r| - 1]))
    ensures s != [] && !IsSpace(s[|s| - 1]) ==> r == s
  {
    if s != [] && IsSpace(s[|s| - 1]) then TrimRight(s[..|s| - 1]) else s
  }

  function Trim(s: string): (r: string)
    ensures r != [] ==> !IsSpace(r[0]) && !IsSpace(r[|r| - 1])
  {
    TrimRight(TrimLeft(s))
  }

  lemma {:induction false} TrimLeftDrops(s: string) returns (i: nat)
    ensures i <= |s| && TrimLeft(s) == s[i..] && forall k :: 0 <= k < i ==> IsSpace(s[k])
  {
    i := 0;
    if s != [] && IsSpace(s[0]) {
      var j := TrimLeftDrops(s[1..]);
      assert s[1..][j..] == s[j + 1..];
      assert forall k :: 0 < k <= j ==> s[k] == s[1..][k - 1];
      i := j + 1;
    }
  }

  lemma {:induction false} TrimRightDrops(s: string) returns (j: nat)
    ensures j <= |s| && TrimRight(s) == s[..j] && forall k :: j <= k < |s| ==> IsSpace(s[k])
  {
    j := |s|;
    if s != [] && IsSpace(s[|s| - 1]) {
      j := TrimRightDrops(s[..|s| - 1]);
      assert s[..|s| - 1][..j] == s[..j];
    }
  }

  /** Trimming takes off outer white space and no more. */
  lemma TrimIs(s: string) returns (i: nat, j: nat)
    ensures i <= j <= |s| && Trim(s) == s[i..j]
    ensures forall k :: 0 <= k < i || j <= k < |s| ==> IsSpace(s[k])
    ensures i < j ==> !IsSpace(s[i]) && !IsSpace(s[j - 1])
  {
    i := TrimLeftDrops(s);
    var n := TrimRightDrops(s[i..]);
    j := i + n;
    assert s[i..][..n] == s[i..j];
    assert forall k :: j <= k < |s| ==> s[k] == s[i..][k - i];
    assert i < j ==> s[i..j][0] == s[i] && s[i..j][j - i - 1] == s[j - 1];
  }

  function UpperChar(c: char): char {
    if 'a' <= c <= 'z' then c - 'a' + 'A' else c
  }

  function Upper(s: string): (r: string)
    ensures |r| == |s| && forall i :: 0 <= i < |s| ==> r[i] == UpperChar(s[i])
  {
    seq(|s|, i requires 0 <= i < |s| => UpperChar(s[i]))
  }

  function Normal(s: string): string {
    Upper(Trim(s))
  }

  lemma NoColon(s: string)
    requires ':' !in s
    ensures ':' !in Trim(s) && ':' !in Normal(s)
  {
    var i, j := TrimIs(s);
    assert forall k :: 0 <= k < j - i ==> Trim(s)[k] == s[i + k];
  }

  /** Normalising twice is normalising once. */
  lemma NormalIdempotent(s: string)
    ensures Normal(Normal(s)) == Normal(s)
    ensures Trim(Trim(s)) == Trim(s)
  {
    var t := Trim(s);
    var u := Upper(t);
    if t != [] {
      assert !IsSpace(u[0]) && !IsSpace(u[|u| - 1]);
      assert TrimLeft(u) == u && TrimLeft(t) == t;
    } else {
      assert u == [];
    }
    assert Upper(u) == u;
  }

  /** Joined at a colon, two pairs of strings are the same only when both parts are, if the first has no colon. */
  lemma JoinedAlike(a: string, b: string, c: string, d: string)
    requires ':' !in a && ':' !in c
    ensures a + ":" + b == c + ":" + d <==> a == c && b == d
  {
    var s, t := a + ":" + b, c + ":" + d;
    assert s[..|a|] == a && s[|a|] == ':' && s[|a| + 1..] == b;
    assert t[..|c|] == c && t[|c|] == ':' && t[|c| + 1..] == d;
    assert forall i :: 0 <= i < |a| ==> s[i] == a[i];
    assert forall i :: 0 <= i < |c| ==> t[i] == c[i];
  }

  predicate StringLess(a: string, b: string) {
    b != [] && (a == [] || a[0] < b[0] || (a[0] == b[0] && StringLess(a[1..], b[1..])))
  }

  /** The strings agree in front of `n`, where the first has ended or has the smaller character. */
  ghost predicate LessAt(a: string, b: string, n: nat) {
    n <= |a| && n < |b| && (forall i :: 0 <= i < n ==> a[i] == b[i]) && (n == |a| || a[n] < b[n])
  }

  lemma {:induction false} FirstDifference(a: string, b: string) returns (n: nat)
    requires StringLess(a, b)
    ensures LessAt(a, b, n)
  {
    n := 0;
    if a != [] && a[0] == b[0] {
      var m := FirstDifference(a[1..], b[1..]);
      n := m + 1;
      assert forall i :: 0 < i < n ==> a[i] == a[1..][i - 1] && b[i] == b[1..][i - 1];
    }
  }

  lemma {:induction false} LessAtMeansLess(a: string, b: string, n: nat)
    requires LessAt(a, b, n)
    ensures StringLess(a, b)
  {
    if n > 0 {
      LessAtMeansLess(a[1..], b[1..], n - 1);
    }
  }

  /** A string is less than another exactly when it ends or has the smaller character where they first differ. */
  lemma StringLessIff(a: string, b: string)
    ensures StringLess(a, b) <==> exists n :: LessAt(a, b, n)
  {
    if StringLess(a, b) {
      var n := FirstDifference(a, b);
    }
    if n :| LessAt(a, b, n) {
      LessAtMeansLess(a, b, n);
    }
  }

  lemma {:induction false} StringLessOrder(a: string, b: string, c: string)
    ensures !StringLess(a, a)
    ensures StringLess(a, b) || a == b || StringLess(b, a)
    ensures StringLess(a, b) && StringLess(b, c) ==> StringLess(a, c)
  {
    if a != [] {
      if b != [] {
        assert a[1..] == b[1..] && a[0] == b[0] ==> a == b;
      }
      StringLessOrder(a[1..], if b == [] then [] else b[1..], if c == [] then [] else c[1..]);
    }
  }
}

/** A stand-in for Go's `sort.SliceStable` and Python's `list.sort`, which leave no choice of result; without
    ties it stands in for Go's `sort` as well. */
module StableSorting {
  import Seqs

  /** What "goes before" has to be for sorting to make sense. */
  ghost predicate WeakOrder<T(!new)>(before: (T, T) -> bool) {
    && (forall a, b :: before(a, b) ==> !before(b, a))
    && (forall a, b, c :: before(a, c) ==> before(a, b) || before(b, c))
  }

  ghost predicate Ordered<T>(s: seq<T>, before: (T, T) -> bool) {
    forall i, j :: 0 <= i < j < |s| ==> !before(s[j], s[i])
  }

  /** Puts `x` behind everything it does not go before. */
  function Insert<T>(s: seq<T>, x: T, before: (T, T) -> bool): (r: seq<T>)
    ensures |r| == |s| + 1
  {
    if s != [] && before(x, s[|s| - 1]) then Insert(s[..|s| - 1], x, before) + [s[|s| - 1]] else s + [x]
  }

  function Sort<T>(s: seq<T>, before: (T, T) -> bool): (r: seq<T>)
    ensures |r| == |s|
  {
    if s == [] then [] else Insert(Sort(s[..|s| - 1], before), s[|s| - 1], before)
  }

  lemma {:induction false} InsertPermutes<T>(s: seq<T>, x: T, before: (T, T) -> bool)
    ensures multiset(Insert(s, x, before)) == multiset(s) + multiset{x}
  {
    if s != [] && before(x, s[|s| - 1]) {
      Seqs.Last(s);
      InsertPermutes(s[..|s| - 1], x, before);
    }
  }

  ghost predicate EndsWith<T>(s: seq<T>, last: T, before: (T, T) -> bool) {
    forall i :: 0 <= i < |s| ==> !before(last, s[i])
  }

  lemma OrderedSnoc<T>(s: seq<T>, last: T, before: (T, T) -> bool)
    requires Ordered(s, before) && EndsWith(s, last, before)
    ensures Ordered(s + [last], before)
  {
  }

  lemma {:induction false} InsertOrders<T(!new)>(s: seq<T>, x: T, before: (T, T) -> bool)
    requires Ordered(s, before) && WeakOrder(before)
    ensures Ordered(Insert(s, x, before), before)
  {
    if s != [] && before(x, s[|s| - 1]) {
      var front, last := s[..|s| - 1], s[|s| - 1];
      InsertOrders(front, x, before);
      InsertPermutes(front, x, before);
      forall i | 0 <= i < |Insert(front, x, before)| ensures !before(last, Insert(front, x, before)[i]) {
        assert Insert(front, x, before)[i] in multiset(front) + multiset{x};
      }
      OrderedSnoc(Insert(front, x, before), last, before);
    } else {
      if s != [] {
        var last := s[|s| - 1];
        forall i | 0 <= i < |s| ensures !before(x, s[i]) {
          var y := s[i];
          assert before(x, y) ==> before(x, last) || before(last, y);
          assert before(last, last) ==> !before(last, last);
        }
      }
      OrderedSnoc(s, x, before);
    }
  }

  /** The sort is an ordered permutation. */
  lemma {:induction false} SortOrders<T(!new)>(s: seq<T>, before: (T, T) -> bool)
    requires WeakOrder(before)
    ensures Ordered(Sort(s, before), before) && multiset(Sort(s, before)) == multiset(s)
  {
    if s != [] {
      SortOrders(s[..|s| - 1], before);
      InsertOrders(Sort(s[..|s| - 1], before), s[|s| - 1], before);
      InsertPermutes(Sort(s[..|s| - 1], before), s[|s| - 1], before);
      Seqs.Last(s);
    }
  }

  ghost function Filter<T>(s: seq<T>, keep: T -> bool): seq<T> {
    if s == [] then []
    else if keep(s[|s| - 1]) then Filter(s[..|s| - 1], keep) + [s[|s| - 1]] else Filter(s[..|s| - 1], keep)
  }

  lemma FilterSnoc<T>(s: seq<T>, x: T, keep: T -> bool)
    ensures Filter(s + [x], keep) == if keep(x) then Filter(s, keep) + [x] else Filter(s, keep)
  {
    Seqs.Snoc(s, s, x);
  }

  lemma {:induction false} FilterPrefix<T>(s: seq<T>, n: nat, keep: T -> bool)
    requires n <= |s|
    ensures Filter(s[..n], keep) <= Filter(s, keep)
  {
    if n == |s| {
      Seqs.All(s);
    } else {
      FilterPrefix(s[..|s| - 1], n, keep);
      assert s[..|s| - 1][..n] == s[..n];
    }
  }

  /** No two of the elements go before one another. */
  ghost predicate Ties<T(!new)>(keep: T -> bool, before: (T, T) -> bool) {
    forall a, b :: keep(a) && keep(b) ==> !before(a, b)
  }

  lemma {:induction false} InsertStable<T(!new)>(s: seq<T>, x: T, before: (T, T) -> bool, keep: T -> bool)
    requires Ties(keep, before)
    ensures Filter(Insert(s, x, before), keep) == Filter(s + [x], keep)
  {
    if s != [] && before(x, s[|s| - 1]) {
      var front, last := s[..|s| - 1], s[|s| - 1];
      InsertStable(front, x, before, keep);
      Seqs.Last(s);
      FilterSnoc(Insert(front, x, before), last, keep);
      FilterSnoc(front, last, keep);
      FilterSnoc(front, x, keep);
      FilterSnoc(s, x, keep);
    }
  }

  /** Elements that tie keep their order. */
  lemma {:induction false} SortStable<T(!new)>(s: seq<T>, before: (T, T) -> bool, keep: T -> bool)
    requires Ties(keep, before)
    ensures Filter(Sort(s, before), keep) == Filter(s, keep)
  {
    if s != [] {
      var front, x := s[..|s| - 1], s[|s| - 1];
      SortStable(front, before, keep);
      InsertStable(Sort(front, before), x, before, keep);
      FilterSnoc(Sort(front, before), x, keep);
      FilterSnoc(front, x, keep);
      Seqs.Last(s);
    }
  }

  /** The elements of a set in some order, each once. */
  ghost function Listing<T>(elements: set<T>): (s: seq<T>)
    ensures multiset(s) == multiset(elements)
  {
    if elements == {} then []
    else
      var x :| x in elements;
      assert multiset(elements) == multiset(elements - {x}) + multiset{x};
      Listing(elements - {x}) + [x]
  }

  lemma ListedOnce<T>(s: seq<T>, elements: set<T>)
    requires multiset(s) == multiset(elements)
    ensures forall x :: x in s <==> x in elements
    ensures forall i, j :: 0 <= i < j < |s| ==> s[i] != s[j]
  {
    forall x ensures x in s <==> x in elements {
      assert x in s <==> x in multiset(s);
    }
    forall i, j | 0 <= i < j < |s| ensures s[i] != s[j] {
      CountedTwice(s, i, j);
    }
  }

  lemma CountedTwice<T>(s: seq<T>, i: nat, j: nat)
    requires i < j < |s|
    ensures s[i] == s[j] ==> multiset(s)[s[i]] >= 2
  {
    var x := s[j];
    Seqs.Cut(s, j);
    assert s[j..] == [x] + s[j + 1..];
    Seqs.Counts(s[..j], s[j..]);
    assert s[..j][i] == s[i];
  }

  /** The elements of a set, sorted. */
  ghost function SortedSet<T>(elements: set<T>, before: (T, T) -> bool): seq<T> {
    Sort(Listing(elements), before)
  }

  /** Where only equal elements tie, every listing of a set sorts to the same. */
  lemma SortedSetUnique<T(!new)>(s: seq<T>, elements: set<T>, before: (T, T) -> bool)
    requires WeakOrder(before) && (forall a, b :: !before(a, b) && !before(b, a) ==> a == b)
    requires multiset(s) == multiset(elements)
    ensures Sort(s, before) == SortedSet(elements, before)
  {
    SortOrders(s, before);
    SortOrders(Listing(elements), before);
    OrderUnique(Sort(s, before), SortedSet(elements, before), before);
  }

  ghost predicate NoTwoTie<T>(s: seq<T>, before: (T, T) -> bool) {
    forall a, b :: a in s && b in s && !before(a, b) && !before(b, a) ==> a == b
  }

  /** Where only equal elements tie, there is one order. */
  lemma {:induction false} OrderUnique<T>(s: seq<T>, t: seq<T>, before: (T, T) -> bool)
    requires Ordered(s, before) && Ordered(t, before) && multiset(s) == multiset(t)
    requires NoTwoTie(s, before)
    ensures s == t
  {
    Seqs.SameCount(s, t);
    if s != [] {
      LastUnique(s, t, before);
      Seqs.Last(s);
      Seqs.Last(t);
      FrontCount(s);
      FrontCount(t);
      OrderUnique(s[..|s| - 1], t[..|t| - 1], before);
    }
  }

  lemma FrontCount<T>(s: seq<T>)
    requires s != []
    ensures multiset(s[..|s| - 1]) == multiset(s) - multiset{s[|s| - 1]}
    ensures forall x :: x in s[..|s| - 1] ==> x in s
  {
    Seqs.Last(s);
  }

  lemma LastUnique<T>(s: seq<T>, t: seq<T>, before: (T, T) -> bool)
    requires Ordered(s, before) && Ordered(t, before) && multiset(s) == multiset(t) && s != [] && t != []
    requires NoTwoTie(s, before)
    ensures s[|s| - 1] == t[|t| - 1]
  {
    var x, y := s[|s| - 1], t[|t| - 1];
    assert x in multiset(t) && y in multiset(s);
    var i :| 0 <= i < |t| && t[i] == x;
    var j :| 0 <= j < |s| && s[j] == y;
    assert x != y ==> !before(y, x) && !before(x, y);
  }
}

/** `applySlippageBT` of internal/backtest/strategy_backtest.go; the fill is worse than the price on either side. */
module Slippage {
  datatype Side = Buy | Sell

  function Slipped(price: real, side: Side, bps: real): real {
    if bps <= 0.0 then price
    else if side.Sell? then price * (1.0 - bps / 10000.0)
    else price * (1.0 + bps / 10000.0)
  }
}

/** Facts about sequences, proved once for any element type. */
module Seqs {
  lemma Last<T>(s: seq<T>)
    requires s != []
    ensures s == s[..|s| - 1] + [s[|s| - 1]]
  {
  }

  lemma All<T>(s: seq<T>)
    ensures s[..|s|] == s
  {
  }

  lemma Cut<T>(s: seq<T>, n: nat)
    requires n <= |s|
    ensures s[..n] + s[n..] == s
  {
  }

  lemma Next<T>(s: seq<T>, from: nat, to: nat)
    requires from <= to < |s|
    ensures s[from..to + 1] == s[from..to] + [s[to]]
  {
  }

  lemma Prefix<T>(s: seq<T>, n: nat)
    requires n < |s|
    ensures s[..n + 1][..n] == s[..n] && s[..n + 1] == s[..n] + [s[n]]
  {
  }

  lemma Tail<T>(s: seq<T>, i: nat)
    requires i < |s|
    ensures s[i..][1..] == s[i + 1..] && s[i..] == [s[i]] + s[i + 1..]
  {
  }

  lemma Update<T>(s: seq<T>, i: nat, x: T)
    requires i < |s|
    ensures var n := |s| - 1;
            s[i := x][..n] == (if i == n then s[..n] else s[..n][i := x]) && s[i := x][n] == if i == n then x else s[n]
  {
  }

  lemma PrefixOfMore<T>(s: seq<T>, x: T, n: nat)
    requires n < |s|
    ensures (s + [x])[..n] == s[..n] && (s + [x])[n] == s[n]
  {
  }

  lemma Empty<T>(s: seq<T>)
    ensures s + [] == s && [] + s == s
  {
  }

  lemma FromStart<T>(s: seq<T>)
    ensures s[0..] == s && [] + s == s && s + [] == s
  {
  }

  lemma Between<T>(a: seq<T>, x: T, b: seq<T>)
    ensures a + ([x] + b) == a + [x] + b
  {
  }

  /** Moving the head of the third to the end of the second. */
  lemma Shift<T>(a: seq<T>, b: seq<T>, c: seq<T>)
    requires c != []
    ensures a + (b + [c[0]]) + c[1..] == a + b + c
  {
  }

  lemma SameCount<T>(a: seq<T>, b: seq<T>)
    requires multiset(a) == multiset(b)
    ensures |a| == |b|
  {
    assert |multiset(a)| == |multiset(b)|;
  }

  lemma Counts<T>(a: seq<T>, b: seq<T>)
    ensures multiset(a + b) == multiset(a) + multiset(b)
  {
  }

  lemma Snoc<T>(a: seq<T>, b: seq<T>, x: T)
    ensures a + (b + [x]) == (a + b) + [x] && (a + [x])[..|a|] == a
  {
  }
}
