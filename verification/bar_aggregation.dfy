/** `aggregateBarsBT` of internal/backtest/strategy_backtest.go.  The folds are about any function from instants to
    buckets; `Bucket` is the source's. */
module BarAggregation {
  import opened Market
  import opened MinuteBuckets
  import Seqs
  import Sorting

  // ---- What an aggregated bar is ----

  /** The bars of one bucket, in the order they came. */
  ghost function Members(bars: seq<MinuteBar>, bucket: int -> int, key: int): seq<MinuteBar> {
    if bars == [] then []
    else
      var b := bars[|bars| - 1];
      Members(bars[..|bars| - 1], bucket, key) + if bucket(b.ts) == key then [b] else []
  }

  ghost function MaxHigh(g: seq<MinuteBar>): real
    requires g != []
  {
    var b := g[|g| - 1];
    if |g| == 1 || b.high > MaxHigh(g[..|g| - 1]) then b.high else MaxHigh(g[..|g| - 1])
  }

  ghost function MinLow(g: seq<MinuteBar>): real
    requires g != []
  {
    var b := g[|g| - 1];
    if |g| == 1 || b.low < MinLow(g[..|g| - 1]) then b.low else MinLow(g[..|g| - 1])
  }

  ghost function Volume(g: seq<MinuteBar>): int {
    if g == [] then 0 else Volume(g[..|g| - 1]) + g[|g| - 1].volume
  }

  /** Open of the first, close of the last, extreme high and low, total volume. */
  ghost function Ohlc(key: int, g: seq<MinuteBar>): MinuteBar
    requires g != []
  {
    MinuteBar(key, g[0].open, MaxHigh(g), MinLow(g), g[|g| - 1].close, Volume(g))
  }

  ghost predicate TsIncreasing(bars: seq<MinuteBar>) {
    forall i, j :: 0 <= i < j < |bars| ==> bars[i].ts < bars[j].ts
  }

  /** `out` has one bar per non-empty bucket, in time order, each the summary of its bucket. */
  ghost predicate IsAggregation(bars: seq<MinuteBar>, bucket: int -> int, out: seq<MinuteBar>) {
    && TsIncreasing(out)
    && (forall j :: 0 <= j < |out| ==>
          var g := Members(bars, bucket, out[j].ts); g != [] && out[j] == Ohlc(out[j].ts, g))
    && (forall key :: Members(bars, bucket, key) != [] ==> exists j :: 0 <= j < |out| && out[j].ts == key)
  }

  ghost function Stamps(bars: seq<MinuteBar>): seq<int> {
    seq(|bars|, i requires 0 <= i < |bars| => bars[i].ts)
  }

  /** The three conditions leave no freedom. */
  lemma AggregationUnique(bars: seq<MinuteBar>, bucket: int -> int, x: seq<MinuteBar>, y: seq<MinuteBar>)
    requires IsAggregation(bars, bucket, x) && IsAggregation(bars, bucket, y)
    ensures x == y
  {
    SameStamps(bars, bucket, x, y);
    SameStamps(bars, bucket, y, x);
    Sorting.IncreasingUnique(Stamps(x), Stamps(y));
    forall j | 0 <= j < |x| ensures x[j] == y[j] {
      assert Stamps(x)[j] == Stamps(y)[j];
    }
    assert |Stamps(x)| == |x| && |Stamps(y)| == |y|;
  }

  lemma SameStamps(bars: seq<MinuteBar>, bucket: int -> int, x: seq<MinuteBar>, y: seq<MinuteBar>)
    requires IsAggregation(bars, bucket, x) && IsAggregation(bars, bucket, y)
    ensures forall t :: t in Stamps(x) ==> t in Stamps(y)
  {
    forall t | t in Stamps(x) ensures t in Stamps(y) {
      var i :| 0 <= i < |x| && Stamps(x)[i] == t;
      var j :| 0 <= j < |y| && y[j].ts == x[i].ts;
      assert Stamps(y)[j] == t;
    }
  }

  // ---- The map-based loop ----

  /** The map after some bars: the summary of every non-empty bucket so far. */
  ghost predicate Holds(buckets: map<int, MinuteBar>, bars: seq<MinuteBar>, bucket: int -> int) {
    && (forall k :: k in buckets <==> Members(bars, bucket, k) != [])
    && (forall k :: k in buckets ==> buckets[k] == Ohlc(k, Members(bars, bucket, k)))
  }

  /** The map's keys, each listed once. */
  ghost predicate Lists(keys: seq<int>, buckets: map<int, MinuteBar>) {
    && (forall k :: k in keys <==> k in buckets)
    && (forall a, b :: 0 <= a < b < |keys| ==> keys[a] != keys[b])
  }

  function Absorb(buckets: map<int, MinuteBar>, bar: MinuteBar, key: int): map<int, MinuteBar> {
    buckets[key := if key in buckets then Merge(buckets[key], bar) else bar.(ts := key)]
  }

  lemma ListsAbsorbed(keys: seq<int>, buckets: map<int, MinuteBar>, bar: MinuteBar, key: int)
    requires Lists(keys, buckets)
    ensures Lists(if key in buckets then keys else keys + [key], Absorb(buckets, bar, key))
  {
    if key !in buckets {
      forall a | 0 <= a < |keys| ensures keys[a] != key {
        assert keys[a] in keys;
      }
    }
  }

  lemma AbsorbHolds(buckets: map<int, MinuteBar>, bars: seq<MinuteBar>, bar: MinuteBar, bucket: int -> int)
    requires Holds(buckets, bars, bucket)
    ensures Holds(Absorb(buckets, bar, bucket(bar.ts)), bars + [bar], bucket)
  {
    var key := bucket(bar.ts);
    var after := Absorb(buckets, bar, key);
    MembersSnoc(bars, bar, bucket);
    forall k | k in after ensures after[k] == Ohlc(k, Members(bars + [bar], bucket, k)) {
      var g := Members(bars, bucket, k);
      if k != key {
        assert g + [] == g;
      } else if k in buckets {
        OhlcSnoc(key, g, bar);
      } else {
        assert g + [bar] == [bar];
        OhlcSingle(key, bar);
      }
    }
  }

  method AggregateBars(bars: seq<MinuteBar>, minutes: int, zone: int) returns (out: seq<MinuteBar>)
    ensures minutes <= 1 ==> out == bars
    ensures minutes > 1 ==> IsAggregation(bars, Bucket(minutes, zone), out)
  {
    if minutes <= 1 {
      return bars;
    }
    out := AggregateBy(bars, Bucket(minutes, zone));
  }

  method AggregateBy(bars: seq<MinuteBar>, bucket: int -> int) returns (out: seq<MinuteBar>)
    ensures IsAggregation(bars, bucket, out)
  {
    var buckets: map<int, MinuteBar> := map[];
    var keys: seq<int> := [];
    for i := 0 to |bars|
      invariant Holds(buckets, bars[..i], bucket)
      invariant Lists(keys, buckets)
    {
      var key := bucket(bars[i].ts);
      AbsorbHolds(buckets, bars[..i], bars[i], bucket);
      ListsAbsorbed(keys, buckets, bars[i], key);
      Seqs.Prefix(bars, i);
      if key !in buckets {
        keys := keys + [key];
      }
      buckets := Absorb(buckets, bars[i], key);
    }
    Seqs.All(bars);
    out := EmitInOrder(buckets, keys, bars, bucket);
  }

  method EmitInOrder(buckets: map<int, MinuteBar>, keys: seq<int>, ghost bars: seq<MinuteBar>, ghost bucket: int -> int)
    returns (out: seq<MinuteBar>)
    requires Holds(buckets, bars, bucket)
    requires Lists(keys, buckets)
    ensures IsAggregation(bars, bucket, out)
  {
    var sorted := Sorting.Sort(keys);
    Sorting.SortIncreasing(keys);
    forall j | 0 <= j < |sorted| ensures sorted[j] in buckets {
      assert sorted[j] in sorted;
    }
    out := Emit(buckets, sorted);
    EmittedIsAggregation(buckets, sorted, bars, bucket, out);
  }

  method Emit(buckets: map<int, MinuteBar>, sorted: seq<int>) returns (out: seq<MinuteBar>)
    requires forall j :: 0 <= j < |sorted| ==> sorted[j] in buckets
    ensures |out| == |sorted| && forall j :: 0 <= j < |out| ==> sorted[j] in buckets && out[j] == buckets[sorted[j]]
  {
    out := [];
    for i := 0 to |sorted|
      invariant |out| == i && forall j :: 0 <= j < i ==> sorted[j] in buckets && out[j] == buckets[sorted[j]]
    {
      out := out + [buckets[sorted[i]]];
    }
  }

  lemma EmittedIsAggregation(buckets: map<int, MinuteBar>, sorted: seq<int>, bars: seq<MinuteBar>, bucket: int -> int,
                             out: seq<MinuteBar>)
    requires Holds(buckets, bars, bucket)
    requires Sorting.Increasing(sorted) && forall k :: k in sorted <==> k in buckets
    requires |out| == |sorted| && forall j :: 0 <= j < |out| ==> sorted[j] in buckets && out[j] == buckets[sorted[j]]
    ensures IsAggregation(bars, bucket, out)
  {
    forall k | Members(bars, bucket, k) != [] ensures exists j :: 0 <= j < |out| && out[j].ts == k {
      assert k in sorted;
      var j :| 0 <= j < |sorted| && sorted[j] == k;
      assert out[j].ts == k;
    }
  }

  function Merge(entry: MinuteBar, bar: MinuteBar): MinuteBar {
    MinuteBar(entry.ts, entry.open, if bar.high > entry.high then bar.high else entry.high,
              if bar.low < entry.low then bar.low else entry.low, bar.close, entry.volume + bar.volume)
  }

  lemma MembersSnoc(bars: seq<MinuteBar>, b: MinuteBar, bucket: int -> int)
    ensures forall k :: Members(bars + [b], bucket, k)
                     == Members(bars, bucket, k) + if bucket(b.ts) == k then [b] else []
  {
    Seqs.Snoc(bars, bars, b);
  }

  lemma OhlcSingle(key: int, b: MinuteBar)
    ensures Ohlc(key, [b]) == b.(ts := key)
  {
    assert [b][..0] == [];
    assert Volume([b]) == b.volume;
  }

  lemma OhlcSnoc(key: int, g: seq<MinuteBar>, b: MinuteBar)
    requires g != []
    ensures Ohlc(key, g + [b]) == Merge(Ohlc(key, g), b)
  {
    Seqs.Snoc(g, g, b);
  }

  // ---- Composition ----

  /** Later bars do not fall into earlier buckets. */
  ghost predicate Monotone(bucket: int -> int) {
    forall s, t :: s <= t ==> bucket(s) <= bucket(t)
  }

  /** The same bars as one pass that only looks at the last bucket; right when the bars are sorted. */
  ghost function Fold(bars: seq<MinuteBar>, bucket: int -> int): seq<MinuteBar> {
    if bars == [] then [] else Push(Fold(bars[..|bars| - 1], bucket), bars[|bars| - 1], bucket)
  }

  ghost function Push(out: seq<MinuteBar>, b: MinuteBar, bucket: int -> int): seq<MinuteBar> {
    var key := bucket(b.ts);
    if out != [] && out[|out| - 1].ts == key then out[..|out| - 1] + [Merge(out[|out| - 1], b)]
    else out + [b.(ts := key)]
  }

  lemma FoldSnoc(bars: seq<MinuteBar>, b: MinuteBar, bucket: int -> int)
    ensures Fold(bars + [b], bucket) == Push(Fold(bars, bucket), b, bucket)
  {
    Seqs.Snoc(bars, bars, b);
  }

  /** What a fold looks like after a sorted prefix that ends at `last`. */
  ghost predicate FoldShape(bars: seq<MinuteBar>, bucket: int -> int) {
    var out := Fold(bars, bucket);
    && (bars == [] <==> out == [])
    && (bars != [] ==> out[|out| - 1].ts == bucket(bars[|bars| - 1].ts))
    && IsAggregation(bars, bucket, out)
  }

  /** On sorted bars the fold is the aggregation. */
  lemma {:induction false} FoldAggregates(bars: seq<MinuteBar>, bucket: int -> int)
    requires TimeSorted(bars) && Monotone(bucket)
    ensures FoldShape(bars, bucket)
  {
    if bars != [] {
      var earlier, b := bars[..|bars| - 1], bars[|bars| - 1];
      FoldAggregates(earlier, bucket);
      PushAggregates(earlier, b, bucket);
      Seqs.Last(bars);
    }
  }

  lemma PushIncreasing(out: seq<MinuteBar>, b: MinuteBar, bucket: int -> int)
    requires TsIncreasing(out)
    requires out != [] ==> out[|out| - 1].ts <= bucket(b.ts)
    ensures TsIncreasing(Push(out, b, bucket))
    ensures forall j :: 0 <= j < |out| ==> j < |Push(out, b, bucket)| && Push(out, b, bucket)[j].ts == out[j].ts
    ensures forall j :: 0 <= j < |Push(out, b, bucket)| ==> j < |out| || Push(out, b, bucket)[j].ts == bucket(b.ts)
  {
  }

  lemma PushSummaries(earlier: seq<MinuteBar>, b: MinuteBar, bucket: int -> int, out: seq<MinuteBar>, j: nat)
    requires IsAggregation(earlier, bucket, out) && j < |Push(out, b, bucket)|
    requires out != [] ==> out[|out| - 1].ts <= bucket(b.ts)
    ensures var out' := Push(out, b, bucket); var g := Members(earlier + [b], bucket, out'[j].ts);
            g != [] && out'[j] == Ohlc(out'[j].ts, g)
  {
    var key := bucket(b.ts);
    var out' := Push(out, b, bucket);
    var g := Members(earlier, bucket, out'[j].ts);
    MembersSnoc(earlier, b, bucket);
    if j < |out'| - 1 {
      assert out'[j] == out[j] && out[j].ts < key;
      assert g + [] == g;
    } else if out != [] && out[|out| - 1].ts == key {
      OhlcSnoc(key, g, b);
    } else {
      NothingElsewhere(earlier, bucket, out, key);
      assert g + [b] == [b];
      OhlcSingle(key, b);
    }
  }

  lemma NothingElsewhere(bars: seq<MinuteBar>, bucket: int -> int, out: seq<MinuteBar>, key: int)
    requires IsAggregation(bars, bucket, out)
    requires out != [] ==> out[|out| - 1].ts < key
    ensures Members(bars, bucket, key) == []
  {
    assert forall i :: 0 <= i < |out| ==> out[i].ts < key;
  }

  lemma PushAggregates(earlier: seq<MinuteBar>, b: MinuteBar, bucket: int -> int)
    requires FoldShape(earlier, bucket)
    requires earlier != [] ==> bucket(earlier[|earlier| - 1].ts) <= bucket(b.ts)
    ensures FoldShape(earlier + [b], bucket)
  {
    var out := Fold(earlier, bucket);
    var out' := Push(out, b, bucket);
    FoldSnoc(earlier, b, bucket);
    PushIncreasing(out, b, bucket);
    forall j | 0 <= j < |out'|
      ensures var g := Members(earlier + [b], bucket, out'[j].ts); g != [] && out'[j] == Ohlc(out'[j].ts, g)
    {
      PushSummaries(earlier, b, bucket, out, j);
    }
    forall k | Members(earlier + [b], bucket, k) != [] ensures exists j :: 0 <= j < |out'| && out'[j].ts == k {
      PushCovers(earlier, b, bucket, out, k);
    }
  }

  lemma PushCovers(earlier: seq<MinuteBar>, b: MinuteBar, bucket: int -> int, out: seq<MinuteBar>, k: int)
    requires IsAggregation(earlier, bucket, out) && Members(earlier + [b], bucket, k) != []
    requires out != [] ==> out[|out| - 1].ts <= bucket(b.ts)
    ensures var out' := Push(out, b, bucket); exists j :: 0 <= j < |out'| && out'[j].ts == k
  {
    var out' := Push(out, b, bucket);
    MembersSnoc(earlier, b, bucket);
    PushIncreasing(out, b, bucket);
    if Members(earlier, bucket, k) != [] {
      var j :| 0 <= j < |out| && out[j].ts == k;
      assert out'[j].ts == k;
    } else {
      assert out'[|out'| - 1].ts == k;
    }
  }

  lemma MergeAssociative(x: MinuteBar, y: MinuteBar, z: MinuteBar)
    ensures Merge(Merge(x, y), z) == Merge(x, Merge(y, z))
  {
  }

  /** Folding the bars of finer buckets into coarser ones is folding the original bars. */
  lemma {:induction false} FoldComposes(bars: seq<MinuteBar>, fine: int -> int, coarse: int -> int)
    requires forall ts :: coarse(fine(ts)) == coarse(ts)
    ensures Fold(Fold(bars, fine), coarse) == Fold(bars, coarse)
  {
    if bars != [] {
      var earlier, bar := bars[..|bars| - 1], bars[|bars| - 1];
      FoldComposes(earlier, fine, coarse);
      PushComposes(Fold(earlier, fine), bar, fine, coarse);
    }
  }

  lemma PushComposes(out: seq<MinuteBar>, bar: MinuteBar, fine: int -> int, coarse: int -> int)
    requires coarse(fine(bar.ts)) == coarse(bar.ts)
    ensures Fold(Push(out, bar, fine), coarse) == Push(Fold(out, coarse), bar, coarse)
  {
    if out != [] && out[|out| - 1].ts == fine(bar.ts) {
      Seqs.Last(out);
      FoldMerged(out[..|out| - 1], out[|out| - 1], bar, coarse);
    } else {
      FoldAdded(out, bar, fine(bar.ts), coarse);
    }
  }

  lemma FoldAdded(out: seq<MinuteBar>, bar: MinuteBar, key: int, bucket: int -> int)
    requires bucket(key) == bucket(bar.ts)
    ensures Fold(out + [bar.(ts := key)], bucket) == Push(Fold(out, bucket), bar, bucket)
  {
    FoldSnoc(out, bar.(ts := key), bucket);
  }

  lemma FoldMerged(front: seq<MinuteBar>, last: MinuteBar, bar: MinuteBar, bucket: int -> int)
    requires bucket(last.ts) == bucket(bar.ts)
    ensures Fold(front + [Merge(last, bar)], bucket) == Push(Fold(front + [last], bucket), bar, bucket)
  {
    FoldSnoc(front, last, bucket);
    FoldSnoc(front, Merge(last, bar), bucket);
    PushMerged(Fold(front, bucket), last, bar, bucket);
  }

  lemma PushMerged(out: seq<MinuteBar>, last: MinuteBar, bar: MinuteBar, bucket: int -> int)
    requires bucket(last.ts) == bucket(bar.ts)
    ensures Push(out, Merge(last, bar), bucket) == Push(Push(out, last, bucket), bar, bucket)
  {
    var once := Push(out, last, bucket);
    if out != [] && out[|out| - 1].ts == bucket(last.ts) {
      MergeAssociative(out[|out| - 1], last, bar);
      Seqs.Snoc(out[..|out| - 1], out[..|out| - 1], Merge(out[|out| - 1], last));
    } else {
      Seqs.Snoc(out, out, last.(ts := bucket(last.ts)));
    }
  }

  /** Buckets nested in coarser ones, neither ever turning back. */
  lemma NestedCompose(bars: seq<MinuteBar>, fine: int -> int, coarse: int -> int, x: seq<MinuteBar>, y: seq<MinuteBar>,
                      direct: seq<MinuteBar>)
    requires Monotone(fine) && Monotone(coarse) && (forall ts :: coarse(fine(ts)) == coarse(ts)) && TimeSorted(bars)
    requires IsAggregation(bars, fine, x) && IsAggregation(x, coarse, y) && IsAggregation(bars, coarse, direct)
    ensures y == direct
  {
    FoldAggregates(bars, fine);
    AggregationUnique(bars, fine, x, Fold(bars, fine));
    FoldAggregates(x, coarse);
    AggregationUnique(x, coarse, y, Fold(x, coarse));
    FoldAggregates(bars, coarse);
    AggregationUnique(bars, coarse, direct, Fold(bars, coarse));
    FoldComposes(bars, fine, coarse);
  }

  /** Aggregating time-sorted bars to `a` minutes and the result to `a·b` minutes gives the same bars as
      aggregating to `a·b` minutes directly. */
  lemma AggregationComposes(bars: seq<MinuteBar>, a: int, b: int, zone: int, x: seq<MinuteBar>, y: seq<MinuteBar>,
                            direct: seq<MinuteBar>)
    requires a >= 1 && b >= 1 && a * b >= 1 && TimeSorted(bars)
    requires IsAggregation(bars, Bucket(a, zone), x) && IsAggregation(x, Bucket(a * b, zone), y)
    requires IsAggregation(bars, Bucket(a * b, zone), direct)
    ensures y == direct
  {
    BucketsNest(a, b, a * b, zone);
    NestedCompose(bars, Bucket(a, zone), Bucket(a * b, zone), x, y, direct);
  }

  lemma BucketsNest(a: int, b: int, n: int, zone: int)
    requires a >= 1 && b >= 1 && n == a * b >= 1
    ensures Monotone(Bucket(a, zone)) && Monotone(Bucket(n, zone))
    ensures forall ts :: Bucket(n, zone)(Bucket(a, zone)(ts)) == Bucket(n, zone)(ts)
  {
    forall s, t | s <= t ensures Bucket(a, zone)(s) <= Bucket(a, zone)(t) && Bucket(n, zone)(s) <= Bucket(n, zone)(t) {
      BucketMonotone(s, t, a, zone);
      BucketMonotone(s, t, n, zone);
    }
    forall ts ensures Bucket(n, zone)(Bucket(a, zone)(ts)) == Bucket(n, zone)(ts) {
      BucketCompose(ts, a, b, zone);
    }
  }

  /** The volume of the bars in the buckets listed. */
  ghost function VolumeIn(keys: seq<int>, bars: seq<MinuteBar>, bucket: int -> int): int {
    if keys == [] then 0
    else VolumeIn(keys[..|keys| - 1], bars, bucket) + Volume(Members(bars, bucket, keys[|keys| - 1]))
  }

  /** One more bar adds its volume where its bucket is listed, once. */
  lemma {:induction false} VolumeInSnoc(keys: seq<int>, bars: seq<MinuteBar>, b: MinuteBar, bucket: int -> int)
    requires forall i, j :: 0 <= i < j < |keys| ==> keys[i] != keys[j]
    ensures VolumeIn(keys, bars + [b], bucket) ==
            VolumeIn(keys, bars, bucket) + if bucket(b.ts) in keys then b.volume else 0
  {
    if keys != [] {
      var front, key := keys[..|keys| - 1], keys[|keys| - 1];
      VolumeInSnoc(front, bars, b, bucket);
      MembersVolume(bars, b, bucket, key);
      assert bucket(b.ts) in keys <==> bucket(b.ts) in front || bucket(b.ts) == key;
    }
  }

  lemma MembersVolume(bars: seq<MinuteBar>, b: MinuteBar, bucket: int -> int, key: int)
    ensures Volume(Members(bars + [b], bucket, key)) ==
            Volume(Members(bars, bucket, key)) + if bucket(b.ts) == key then b.volume else 0
  {
    var g := Members(bars, bucket, key);
    Seqs.Snoc(bars, bars, b);
    Seqs.Snoc(g, g, b);
    assert g + [] == g;
  }

  lemma {:induction false} NothingIn(keys: seq<int>, bucket: int -> int)
    ensures VolumeIn(keys, [], bucket) == 0
  {
    if keys != [] {
      NothingIn(keys[..|keys| - 1], bucket);
    }
  }

  lemma {:induction false} AllIn(keys: seq<int>, bars: seq<MinuteBar>, bucket: int -> int)
    requires forall i, j :: 0 <= i < j < |keys| ==> keys[i] != keys[j]
    requires forall i :: 0 <= i < |bars| ==> bucket(bars[i].ts) in keys
    ensures VolumeIn(keys, bars, bucket) == Volume(bars)
  {
    if bars == [] {
      NothingIn(keys, bucket);
    } else {
      AllIn(keys, bars[..|bars| - 1], bucket);
      VolumeInSnoc(keys, bars[..|bars| - 1], bars[|bars| - 1], bucket);
      Seqs.Last(bars);
    }
  }

  lemma {:induction false} BucketsVolume(bars: seq<MinuteBar>, bucket: int -> int, out: seq<MinuteBar>)
    requires forall j :: 0 <= j < |out| ==> var g := Members(bars, bucket, out[j].ts); g != [] && out[j] == Ohlc(out[j].ts, g)
    ensures Volume(out) == VolumeIn(Stamps(out), bars, bucket)
  {
    if out != [] {
      var front := out[..|out| - 1];
      BucketsVolume(bars, bucket, front);
      assert Stamps(out)[..|front|] == Stamps(front);
    }
  }

  lemma {:induction false} InSomeBucket(bars: seq<MinuteBar>, bucket: int -> int, i: nat)
    requires i < |bars|
    ensures Members(bars, bucket, bucket(bars[i].ts)) != []
  {
    if i < |bars| - 1 {
      InSomeBucket(bars[..|bars| - 1], bucket, i);
    }
  }

  /** Aggregation neither creates nor loses volume, sorted bars or not. */
  lemma VolumeConserved(bars: seq<MinuteBar>, bucket: int -> int, out: seq<MinuteBar>)
    requires IsAggregation(bars, bucket, out)
    ensures Volume(out) == Volume(bars)
  {
    var keys := Stamps(out);
    forall i | 0 <= i < |bars| ensures bucket(bars[i].ts) in keys {
      InSomeBucket(bars, bucket, i);
      var j :| 0 <= j < |out| && out[j].ts == bucket(bars[i].ts);
      assert keys[j] == out[j].ts;
    }
    BucketsVolume(bars, bucket, out);
    AllIn(keys, bars, bucket);
  }
}
