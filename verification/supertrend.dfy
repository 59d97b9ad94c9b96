/** `supertrendBT` of internal/backtest/strategy_backtest.go over exact arithmetic. */
module Supertrend {

  datatype Input = Input(highs: seq<real>, lows: seq<real>, closes: seq<real>, period: int, multiplier: real)

  datatype Bands = Bands(upper: real, lower: real, direction: int)

  predicate Usable(x: Input) {
    x.period > 0 && |x.closes| > x.period && |x.highs| == |x.closes| && |x.lows| == |x.closes|
  }

  function Abs(r: real): real {
    if r < 0.0 then -r else r
  }

  function Max(a: real, b: real): real {
    if a >= b then a else b
  }

  function TrueRange(x: Input, i: nat): real
    requires Usable(x) && 1 <= i < |x.closes|
  {
    Max(x.highs[i] - x.lows[i], Max(Abs(x.highs[i] - x.closes[i - 1]), Abs(x.lows[i] - x.closes[i - 1])))
  }

  function RangeSum(x: Input, i: nat): real
    requires Usable(x) && i < |x.closes|
  {
    if i == 0 then 0.0 else RangeSum(x, i - 1) + TrueRange(x, i)
  }

  function Mean(sum: real, period: int): real
    requires period > 0
  {
    sum / period as real
  }

  function Smooth(previous: real, tr: real, period: int): real
    requires period > 0
  {
    (previous * (period - 1) as real + tr) / period as real
  }

  /** The smoothed average true range. */
  function Atr(x: Input, i: nat): real
    requires Usable(x) && x.period <= i < |x.closes|
  {
    if i == x.period then Mean(RangeSum(x, i), x.period)
    else Smooth(Atr(x, i - 1), TrueRange(x, i), x.period)
  }

  /** The middle of bar `i`, moved by `multiplier` average ranges. */
  function Basic(x: Input, i: nat, side: real, atr: real): real
    requires Usable(x) && i < |x.closes|
  {
    (x.highs[i] + x.lows[i]) / 2.0 + side * (x.multiplier * atr)
  }

  function BasicUpper(x: Input, i: nat): real
    requires Usable(x) && x.period <= i < |x.closes|
  {
    Basic(x, i, 1.0, Atr(x, i))
  }

  function BasicLower(x: Input, i: nat): real
    requires Usable(x) && x.period <= i < |x.closes|
  {
    Basic(x, i, -1.0, Atr(x, i))
  }

  /** One bar's bands from the previous bar's: `close` and `previousClose` are the two closes. */
  function Advance(prev: Bands, basicUpper: real, basicLower: real, previousClose: real, close: real): Bands {
    var upper := if basicUpper < prev.upper || previousClose > prev.upper then basicUpper else prev.upper;
    var lower := if basicLower > prev.lower || previousClose < prev.lower then basicLower else prev.lower;
    Bands(upper, lower,
          if prev.direction == -1 && close > upper then 1
          else if prev.direction == 1 && close < lower then -1
          else prev.direction)
  }

  function At(x: Input, i: nat): (b: Bands)
    requires Usable(x) && x.period <= i < |x.closes|
    ensures b.direction == 1 || b.direction == -1
  {
    if i == x.period then
      Bands(BasicUpper(x, i), BasicLower(x, i), if x.closes[i] > BasicUpper(x, i) then 1 else -1)
    else Advance(At(x, i - 1), BasicUpper(x, i), BasicLower(x, i), x.closes[i - 1], x.closes[i])
  }

  method TrueRanges(x: Input) returns (tr: seq<real>)
    requires Usable(x)
    ensures |tr| == |x.closes| && forall i :: 1 <= i < |x.closes| ==> tr[i] == TrueRange(x, i)
  {
    tr := [0.0];
    for i := 1 to |x.closes|
      invariant |tr| == i && forall j :: 1 <= j < i ==> tr[j] == TrueRange(x, j)
    {
      var hl := x.highs[i] - x.lows[i];
      var hc := Abs(x.highs[i] - x.closes[i - 1]);
      var lc := Abs(x.lows[i] - x.closes[i - 1]);
      tr := tr + [Max(hl, Max(hc, lc))];
    }
  }

  method FirstRanges(x: Input, tr: seq<real>) returns (sum: real)
    requires Usable(x)
    requires |tr| == |x.closes| && forall i :: 1 <= i < |x.closes| ==> tr[i] == TrueRange(x, i)
    ensures sum == RangeSum(x, x.period)
  {
    sum := 0.0;
    for i := 1 to x.period + 1
      invariant sum == RangeSum(x, i - 1)
    {
      sum := sum + tr[i];
    }
  }

  method Ranges(x: Input) returns (atr: seq<real>)
    requires Usable(x)
    ensures |atr| == |x.closes| && forall i :: x.period <= i < |x.closes| ==> atr[i] == Atr(x, i)
  {
    var tr := TrueRanges(x);
    var sum := FirstRanges(x, tr);
    atr := seq(x.period, _ => 0.0) + [Mean(sum, x.period)];
    for i := x.period + 1 to |x.closes|
      invariant |atr| == i && forall j :: x.period <= j < i ==> atr[j] == Atr(x, j)
    {
      var next := Smooth(atr[i - 1], tr[i], x.period);
      assert next == Atr(x, i);
      atr := atr + [next];
    }
  }

  /** The active band and the direction at the last bar, or (0, 0) when there is too little data. */
  method SupertrendLine(x: Input) returns (line: real, direction: int)
    ensures !Usable(x) ==> line == 0.0 && direction == 0
    ensures Usable(x) ==> var b := At(x, |x.closes| - 1);
              direction == b.direction && line == if b.direction == 1 then b.lower else b.upper
  {
    if !Usable(x) {
      return 0.0, 0;
    }
    var atr := Ranges(x);
    var bands := BandSeries(x, atr);
    var last := bands[|x.closes| - 1];
    if last.direction >= 0 {
      return last.lower, 1;
    }
    return last.upper, -1;
  }

  method BandSeries(x: Input, atr: seq<real>) returns (bands: seq<Bands>)
    requires Usable(x) && |atr| == |x.closes|
    requires forall i :: x.period <= i < |x.closes| ==> atr[i] == Atr(x, i)
    ensures |bands| == |x.closes| && forall i :: x.period <= i < |x.closes| ==> bands[i] == At(x, i)
  {
    bands := seq(x.period, _ => Bands(0.0, 0.0, 0));
    for i := x.period to |x.closes|
      invariant |bands| == i && forall j :: x.period <= j < i ==> bands[j] == At(x, j)
    {
      var b := BandAt(x, i, atr[i], if i == x.period then Bands(0.0, 0.0, 0) else bands[i - 1]);
      bands := bands + [b];
    }
  }

  method BandAt(x: Input, i: nat, atr: real, prev: Bands) returns (b: Bands)
    requires Usable(x) && x.period <= i < |x.closes| && atr == Atr(x, i)
    requires i > x.period ==> prev == At(x, i - 1)
    ensures b == At(x, i)
  {
    var basicUpper, basicLower := Basic(x, i, 1.0, atr), Basic(x, i, -1.0, atr);
    if i == x.period {
      return Bands(basicUpper, basicLower, if x.closes[i] > basicUpper then 1 else -1);
    }
    b := NextBands(prev, basicUpper, basicLower, x.closes[i - 1], x.closes[i]);
  }

  method NextBands(prev: Bands, basicUpper: real, basicLower: real, previousClose: real, close: real) returns (b: Bands)
    ensures b == Advance(prev, basicUpper, basicLower, previousClose, close)
  {
    var upper, lower, direction := prev.upper, prev.lower, prev.direction;
    if basicUpper < prev.upper || previousClose > prev.upper {
      upper := basicUpper;
    }
    if basicLower > prev.lower || previousClose < prev.lower {
      lower := basicLower;
    }
    if prev.direction == -1 && close > upper {
      direction := 1;
    } else if prev.direction == 1 && close < lower {
      direction := -1;
    }
    b := Bands(upper, lower, direction);
  }

  // ---- The ranges and bands in prices ----

  /** The true range is the largest of the bar's own span and its two distances from the close before. */
  lemma TrueRangeIs(x: Input, i: nat)
    requires Usable(x) && 1 <= i < |x.closes|
    ensures var r, h, l, c := TrueRange(x, i), x.highs[i], x.lows[i], x.closes[i - 1];
            && r >= h - l && r >= h - c && r >= c - h && r >= l - c && r >= c - l
            && (r == h - l || r == h - c || r == c - h || r == l - c || r == c - l)
  {
  }

  /** The sum of the true ranges of bars 1 to `i`. */
  ghost function TrueRanges1To(x: Input, i: nat): real
    requires Usable(x) && i < |x.closes|
  {
    if i == 0 then 0.0 else TrueRange(x, i) + TrueRanges1To(x, i - 1)
  }

  lemma {:induction false} RangeSumIs(x: Input, i: nat)
    requires Usable(x) && i < |x.closes|
    ensures RangeSum(x, i) == TrueRanges1To(x, i)
  {
    if i > 0 {
      RangeSumIs(x, i - 1);
    }
  }

  /** The first average is the mean of the first `period` true ranges; each later one moves a `period`-th of the way
      towards the bar's own range. */
  lemma AverageMoves(x: Input, i: nat)
    requires Usable(x) && x.period <= i < |x.closes|
    ensures i == x.period ==> IsMean(Atr(x, i), TrueRanges1To(x, i), x.period as real)
    ensures i > x.period ==> MovesTowards(Atr(x, i - 1), Atr(x, i), TrueRange(x, i), x.period as real)
  {
    if i == x.period {
      RangeSumIs(x, i);
      MeanIs(RangeSum(x, i), x.period);
    } else {
      Moves(Atr(x, i - 1), TrueRange(x, i), x.period);
    }
  }

  ghost predicate IsMean(mean: real, sum: real, n: real) {
    mean * n == sum
  }

  /** From `before` to `after` is an `n`-th of the way from `before` to `goal`. */
  ghost predicate MovesTowards(before: real, after: real, goal: real, n: real) {
    (after - before) * n == goal - before
  }

  lemma MeanIs(sum: real, period: int)
    requires period > 0
    ensures IsMean(Mean(sum, period), sum, period as real)
  {
  }

  lemma Moves(previous: real, tr: real, period: int)
    requires period > 0
    ensures MovesTowards(previous, Smooth(previous, tr, period), tr, period as real)
  {
    var n := period as real;
    assert (period - 1) as real == n - 1.0;
    assert Smooth(previous, tr, period) * n == previous * (n - 1.0) + tr;
  }

  /** The basic bands are that average, times the multiplier, above and below the middle of the bar. */
  ghost predicate AroundMiddle(upper: real, lower: real, high: real, low: real, width: real) {
    upper + lower == high + low && upper - lower == 2.0 * width
  }

  lemma BandsAroundMiddle(x: Input, i: nat)
    requires Usable(x) && x.period <= i < |x.closes|
    ensures AroundMiddle(BasicUpper(x, i), BasicLower(x, i), x.highs[i], x.lows[i], x.multiplier * Atr(x, i))
  {
    var atr := Atr(x, i);
    assert BasicUpper(x, i) == Basic(x, i, 1.0, atr) && BasicLower(x, i) == Basic(x, i, -1.0, atr);
    BothSides(x, i, atr);
  }

  lemma BothSides(x: Input, i: nat, atr: real)
    requires Usable(x) && i < |x.closes|
    ensures AroundMiddle(Basic(x, i, 1.0, atr), Basic(x, i, -1.0, atr), x.highs[i], x.lows[i], x.multiplier * atr)
  {
  }

  // ---- Properties, for all inputs ----

  /** The direction flips exactly on a close strictly beyond the active band. */
  lemma FlipsBeyondBand(x: Input, i: nat)
    requires Usable(x) && x.period < i < |x.closes|
    ensures At(x, i - 1).direction == -1 ==> (At(x, i).direction == 1 <==> x.closes[i] > At(x, i).upper)
    ensures At(x, i - 1).direction == 1 ==> (At(x, i).direction == -1 <==> x.closes[i] < At(x, i).lower)
  {
  }

  /** When the upper band rises from one bar to the next: only after a close above it. */
  lemma UpperRisesWhen(x: Input, i: nat)
    requires Usable(x) && x.period <= i && i + 1 < |x.closes|
    ensures At(x, i + 1).upper > At(x, i).upper <==> x.closes[i] > At(x, i).upper && BasicUpper(x, i + 1) > At(x, i).upper
    ensures At(x, i + 1).lower < At(x, i).lower <==> x.closes[i] < At(x, i).lower && BasicLower(x, i + 1) < At(x, i).lower
  {
  }

  /** Once the direction has held for two bars the active band does not move against it on the next bar,
      whichever way that bar goes. */
  lemma HeldTwiceNoRise(x: Input, i: nat)
    requires Usable(x) && x.period < i && i + 1 < |x.closes|
    ensures At(x, i - 1).direction == At(x, i).direction == -1 ==> At(x, i + 1).upper <= At(x, i).upper
    ensures At(x, i - 1).direction == At(x, i).direction == 1 ==> At(x, i + 1).lower >= At(x, i).lower
  {
    FlipsBeyondBand(x, i);
    UpperRisesWhen(x, i);
  }

  /** All the bars from `a` to `b` trend the same way. */
  ghost predicate Trending(x: Input, a: nat, b: nat, direction: int)
    requires Usable(x) && x.period <= a && b < |x.closes|
  {
    forall k :: a <= k <= b ==> At(x, k).direction == direction
  }

  /** During a downtrend the upper band never rises and no close is above it; during an uptrend the lower
      band never falls and no close is below it.  The bar on which the trend begins is outside the claim:
      there the bands may have crossed. */
  lemma {:induction false} BandsRatchet(x: Input, a: nat, i: nat, j: nat)
    requires Usable(x) && x.period <= a < i <= j < |x.closes|
    ensures Trending(x, a, j, -1) ==> At(x, j).upper <= At(x, i).upper && x.closes[j] <= At(x, j).upper
    ensures Trending(x, a, j, 1) ==> At(x, j).lower >= At(x, i).lower && x.closes[j] >= At(x, j).lower
  {
    FlipsBeyondBand(x, j);
    assert At(x, j - 1).direction == At(x, j).direction || !Trending(x, a, j, At(x, j).direction);
    if i < j {
      BandsRatchet(x, a, i, j - 1);
      UpperRisesWhen(x, j - 1);
      assert forall d :: Trending(x, a, j, d) ==> Trending(x, a, j - 1, d);
    }
  }

  /** The bar that starts a downtrend really is an exception: here the bands have crossed at bar 3, its
      close is above the upper band, and the upper band rises while the direction stays down. */
  lemma UpperMayRiseAtFlip()
    ensures var x := Input([10.0, 10.0, 20.0, 17.0, 18.0], [10.0, 10.0, 20.0, 13.0, 18.0],
                           [10.0, 10.0, 20.0, 16.0, 18.0], 1, 0.0);
            && Usable(x)
            && At(x, 2).direction == 1 && At(x, 3).direction == At(x, 4).direction == -1
            && At(x, 4).upper > At(x, 3).upper
  {
    var x := Input([10.0, 10.0, 20.0, 17.0, 18.0], [10.0, 10.0, 20.0, 13.0, 18.0],
                   [10.0, 10.0, 20.0, 16.0, 18.0], 1, 0.0);
    assert At(x, 1) == Bands(10.0, 10.0, -1);
    assert At(x, 2) == Bands(10.0, 20.0, 1);
    assert At(x, 3) == Bands(15.0, 20.0, -1);
    assert At(x, 4) == Bands(18.0, 18.0, -1);
  }
}
