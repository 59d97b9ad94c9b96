/** `buildEquityCurve` and `maxDrawdown` of internal/backtest/strategy_backtest.go and the same walk in
    `summarizeOptionTrades` of internal/backtest/options_backtest.go, on profits in order of exit. */
module Drawdown {
  import opened Options
  import Seqs

  datatype Point = Point(equity: real, drawdown: real)

  function Sum(pnl: seq<real>): real {
    if pnl == [] then 0.0 else Sum(pnl[..|pnl| - 1]) + pnl[|pnl| - 1]
  }

  /** What is lost from after trade `i` to after trade `j`. */
  function Loss(pnl: seq<real>, i: nat, j: nat): real
    requires i <= j <= |pnl|
  {
    Sum(pnl[..i]) - Sum(pnl[..j])
  }

  lemma SumNext(pnl: seq<real>, n: nat)
    requires n < |pnl|
    ensures Sum(pnl[..n + 1]) == Sum(pnl[..n]) + pnl[n]
  {
    Seqs.Prefix(pnl, n);
  }

  /** A loss is the loss of the trades in between. */
  lemma {:induction false} LossIsStretch(pnl: seq<real>, i: nat, j: nat)
    requires i <= j <= |pnl|
    ensures Loss(pnl, i, j) == -Sum(pnl[i..j])
  {
    if i < j {
      LossIsStretch(pnl, i, j - 1);
      SumNext(pnl, j - 1);
      assert pnl[i..j][..j - 1 - i] == pnl[i..j - 1];
    }
  }

  /** `d` is the worst loss ending after trade `j`. */
  ghost predicate WorstTo(pnl: seq<real>, j: nat, d: real)
    requires j <= |pnl|
  {
    (exists i :: 0 <= i <= j && d == Loss(pnl, i, j)) && (forall i :: 0 <= i <= j ==> Loss(pnl, i, j) <= d)
  }

  /** `d` is the worst loss over any stretch of the first `n` trades. */
  ghost predicate Worst(pnl: seq<real>, n: nat, d: real)
    requires n <= |pnl|
  {
    && (exists i, j :: 0 <= i <= j <= n && d == Loss(pnl, i, j))
    && (forall i, j :: 0 <= i <= j <= n ==> Loss(pnl, i, j) <= d)
  }

  /** Equity and its highest value so far, counting the start. */
  ghost predicate Peaked(pnl: seq<real>, n: nat, equity: real, peak: real)
    requires n <= |pnl|
  {
    equity == Sum(pnl[..n]) && WorstTo(pnl, n, peak - equity)
  }

  lemma PeakMoves(pnl: seq<real>, n: nat, equity: real, peak: real)
    requires n < |pnl| && Peaked(pnl, n, equity, peak)
    ensures var equity' := equity + pnl[n]; Peaked(pnl, n + 1, equity', if equity' > peak then equity' else peak)
  {
    SumNext(pnl, n);
    var equity', next := equity + pnl[n], n + 1;
    var i :| 0 <= i <= n && peak - equity == Loss(pnl, i, n);
    assert peak - equity' == Loss(pnl, i, next) && Loss(pnl, next, next) == 0.0;
    forall k | 0 <= k <= n ensures Loss(pnl, k, next) <= peak - equity' {
      assert Loss(pnl, k, n) <= peak - equity;
    }
  }

  lemma WorstMoves(pnl: seq<real>, n: nat, worst: real, d: real)
    requires n < |pnl| && Worst(pnl, n, worst) && WorstTo(pnl, n + 1, d)
    ensures Worst(pnl, n + 1, if d > worst then d else worst)
  {
    var i, j :| 0 <= i <= j <= n && worst == Loss(pnl, i, j);
    var k :| 0 <= k <= n + 1 && d == Loss(pnl, k, n + 1);
  }

  method BuildEquityCurve(pnl: seq<real>) returns (curve: seq<Point>)
    ensures |curve| == |pnl|
    ensures forall n :: 0 <= n < |pnl| ==> curve[n].equity == Sum(pnl[..n + 1]) && WorstTo(pnl, n + 1, curve[n].drawdown)
  {
    var equity, peak := 0.0, 0.0;
    curve := [];
    assert Loss(pnl, 0, 0) == 0.0;
    for n := 0 to |pnl|
      invariant |curve| == n && Peaked(pnl, n, equity, peak)
      invariant forall k :: 0 <= k < n ==> curve[k].equity == Sum(pnl[..k + 1]) && WorstTo(pnl, k + 1, curve[k].drawdown)
    {
      PeakMoves(pnl, n, equity, peak);
      equity := equity + pnl[n];
      if equity > peak {
        peak := equity;
      }
      curve := curve + [Point(equity, peak - equity)];
    }
  }

  /** The largest drawdown of the curve is the worst loss over any stretch of consecutive trades. */
  method MaxDrawdown(pnl: seq<real>) returns (maxDD: real)
    ensures Worst(pnl, |pnl|, maxDD)
  {
    var curve := BuildEquityCurve(pnl);
    maxDD := 0.0;
    assert Loss(pnl, 0, 0) == 0.0;
    for n := 0 to |curve|
      invariant Worst(pnl, n, maxDD)
    {
      WorstMoves(pnl, n, maxDD, curve[n].drawdown);
      if curve[n].drawdown > maxDD {
        maxDD := curve[n].drawdown;
      }
    }
  }

  function Wins(pnl: seq<real>): nat {
    if pnl == [] then 0
    else if pnl[|pnl| - 1] > 0.0 then Wins(pnl[..|pnl| - 1]) + 1 else Wins(pnl[..|pnl| - 1])
  }

  /** The normalised differences that are there. */
  function Present(norms: seq<Option<real>>): seq<real> {
    if norms == [] then []
    else
      var before, last := Present(norms[..|norms| - 1]), norms[|norms| - 1];
      if last.Some? then before + [last.value] else before
  }

  datatype Summary = Summary(totalTrades: nat, totalPnL: real, wins: nat, losses: nat, winRate: real, avgPnL: real,
                             avgNormDiff: real, maxDrawdown: real)

  /** `x` is `sum` shared among `count`, 0 when there are none. */
  predicate Average(x: real, sum: real, count: nat) {
    if count == 0 then x == 0.0 else x * count as real == sum
  }

  function Share(sum: real, count: nat): (x: real)
    ensures Average(x, sum, count)
  {
    if count == 0 then 0.0 else sum / count as real
  }

  /** One pass gives the totals, the averages and the same worst loss. */
  method SummarizeOptionTrades(pnl: seq<real>, norms: seq<Option<real>>) returns (s: Summary)
    requires |norms| == |pnl|
    ensures s.totalTrades == |pnl| && s.totalPnL == Sum(pnl) && s.wins == Wins(pnl) && s.wins + s.losses == |pnl|
    ensures Average(s.winRate, 100.0 * s.wins as real, |pnl|) && Average(s.avgPnL, Sum(pnl), |pnl|)
    ensures Average(s.avgNormDiff, Sum(Present(norms)), |Present(norms)|)
    ensures Worst(pnl, |pnl|, s.maxDrawdown)
  {
    var total, wins, losses, maxDD := SummaryWalk(pnl);
    var normSum, normCount := NormWalk(norms);
    s := Summary(|pnl|, total, wins, losses, Share(100.0 * wins as real, |pnl|), Share(total, |pnl|),
                 Share(normSum, normCount), maxDD);
  }

  method NormWalk(norms: seq<Option<real>>) returns (sum: real, count: nat)
    ensures sum == Sum(Present(norms)) && count == |Present(norms)|
  {
    sum, count := 0.0, 0;
    for n := 0 to |norms|
      invariant sum == Sum(Present(norms[..n])) && count == |Present(norms[..n])|
    {
      Seqs.Prefix(norms, n);
      if norms[n].Some? {
        Seqs.Snoc(Present(norms[..n]), Present(norms[..n]), norms[n].value);
        sum, count := sum + norms[n].value, count + 1;
      }
    }
    Seqs.All(norms);
  }

  lemma WinsNext(pnl: seq<real>, n: nat)
    requires n < |pnl|
    ensures Wins(pnl[..n + 1]) == if pnl[n] > 0.0 then Wins(pnl[..n]) + 1 else Wins(pnl[..n])
  {
    Seqs.Prefix(pnl, n);
  }

  ghost predicate Walked(pnl: seq<real>, n: nat, equity: real, peak: real, maxDD: real)
    requires n <= |pnl|
  {
    Peaked(pnl, n, equity, peak) && Worst(pnl, n, maxDD)
  }

  lemma WalkOn(pnl: seq<real>, n: nat, equity: real, peak: real, maxDD: real)
    requires n < |pnl| && Walked(pnl, n, equity, peak, maxDD)
    ensures var equity' := equity + pnl[n];
            var peak' := if equity' > peak then equity' else peak;
            Walked(pnl, n + 1, equity', peak', if peak' - equity' > maxDD then peak' - equity' else maxDD)
  {
    PeakMoves(pnl, n, equity, peak);
    var equity' := equity + pnl[n];
    WorstMoves(pnl, n, maxDD, (if equity' > peak then equity' else peak) - equity');
  }

  /** The walk over the profits. */
  method SummaryWalk(pnl: seq<real>) returns (total: real, wins: nat, losses: nat, maxDD: real)
    ensures total == Sum(pnl) && wins == Wins(pnl) && wins + losses == |pnl|
    ensures Worst(pnl, |pnl|, maxDD)
  {
    total, wins, losses, maxDD := 0.0, 0, 0, 0.0;
    var equity, peak := 0.0, 0.0;
    assert Loss(pnl, 0, 0) == 0.0;
    for n := 0 to |pnl|
      invariant total == equity && wins == Wins(pnl[..n]) && wins + losses == n
      invariant Walked(pnl, n, equity, peak, maxDD)
    {
      WalkOn(pnl, n, equity, peak, maxDD);
      WinsNext(pnl, n);
      total := total + pnl[n];
      if pnl[n] > 0.0 {
        wins := wins + 1;
      } else {
        losses := losses + 1;
      }
      equity := equity + pnl[n];
      if equity > peak {
        peak := equity;
      }
      if peak - equity > maxDD {
        maxDD := peak - equity;
      }
    }
    Seqs.All(pnl);
  }

  /** Both walks report the same drawdown, since there is only one worst loss. */
  lemma WorstUnique(pnl: seq<real>, n: nat, a: real, b: real)
    requires n <= |pnl| && Worst(pnl, n, a) && Worst(pnl, n, b)
    ensures a == b >= 0.0
  {
    var i, j :| 0 <= i <= j <= n && a == Loss(pnl, i, j);
    var k, l :| 0 <= k <= l <= n && b == Loss(pnl, k, l);
    assert Loss(pnl, 0, 0) == 0.0;
  }
}
