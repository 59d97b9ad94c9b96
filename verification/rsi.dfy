/** `rsiSeries` and `rsiValue` of internal/backtest/a02.go over exact arithmetic; NaN is `None`. */
module RSI {
  import opened Options

  /** The rise into each close, 0 when it fell; `LossSeries` is the mirror image. */
  function GainSeries(v: seq<real>): (g: seq<real>)
    ensures |g| == |v| && forall i :: 0 <= i < |g| ==> g[i] >= 0.0
  {
    seq(|v|, i requires 0 <= i < |v| => if i >= 1 && v[i] - v[i - 1] >= 0.0 then v[i] - v[i - 1] else 0.0)
  }

  function LossSeries(v: seq<real>): (l: seq<real>)
    ensures |l| == |v| && forall i :: 0 <= i < |l| ==> l[i] >= 0.0
  {
    seq(|v|, i requires 0 <= i < |v| => if i >= 1 && v[i] - v[i - 1] < 0.0 then v[i - 1] - v[i] else 0.0)
  }

  function Sum(s: seq<real>, lo: nat, hi: nat): real
    requires lo <= hi <= |s|
    decreases hi
  {
    if lo == hi then 0.0 else Sum(s, lo, hi - 1) + s[hi - 1]
  }

  lemma {:induction false} SumNonNegative(s: seq<real>, lo: nat, hi: nat)
    requires lo <= hi <= |s| && forall i :: 0 <= i < |s| ==> s[i] >= 0.0
    ensures Sum(s, lo, hi) >= 0.0
    decreases hi
  {
    if lo < hi {
      SumNonNegative(s, lo, hi - 1);
    }
  }

  function RsiValue(avgGain: real, avgLoss: real): real
    requires avgGain >= 0.0 && avgLoss >= 0.0
  {
    if avgLoss == 0.0 then 100.0
    else
      assert avgGain / avgLoss >= 0.0;
      100.0 - 100.0 / (1.0 + avgGain / avgLoss)
  }

  /** The share of the gains in all movement, in percent; 100 when nothing moved. */
  lemma RsiIsShareOfGains(gain: real, loss: real)
    requires gain >= 0.0 && loss >= 0.0
    ensures gain + loss > 0.0 ==> RsiValue(gain, loss) * (gain + loss) == 100.0 * gain
    ensures gain + loss == 0.0 ==> RsiValue(gain, loss) == 100.0
  {
    if loss > 0.0 {
      var q := gain / loss;
      assert gain == q * loss;
      assert (1.0 + q) * loss == gain + loss;
      var r := 100.0 / (1.0 + q);
      assert r * (1.0 + q) == 100.0;
      assert r * (gain + loss) == r * (1.0 + q) * loss;
    }
  }

  /** The value from the sums of gains and losses over a window. */
  function FromSums(gain: real, loss: real, period: nat): real
    requires gain >= 0.0 && loss >= 0.0 && period >= 1
  {
    var n := period as real;
    assert gain / n >= 0.0 && loss / n >= 0.0;
    RsiValue(gain / n, loss / n)
  }

  /** The value from a window of closes alone: its average gain against its average loss. */
  function WindowRsi(w: seq<real>): real
    requires |w| >= 2
  {
    SumNonNegative(GainSeries(w), 1, |w|);
    SumNonNegative(LossSeries(w), 1, |w|);
    FromSums(Sum(GainSeries(w), 1, |w|), Sum(LossSeries(w), 1, |w|), |w| - 1)
  }

  /** The gains less the losses of a window are its whole rise. */
  lemma {:induction false} GainsLessLosses(w: seq<real>, hi: nat)
    requires 1 <= hi <= |w|
    ensures Sum(GainSeries(w), 1, hi) - Sum(LossSeries(w), 1, hi) == w[hi - 1] - w[0]
    decreases hi
  {
    if hi > 1 {
      GainsLessLosses(w, hi - 1);
    }
  }

  /** In a window that moved, the value is the share of the rises in rises and falls. */
  lemma WindowIsShareOfGains(w: seq<real>)
    requires |w| >= 2
    ensures var gain, loss := Sum(GainSeries(w), 1, |w|), Sum(LossSeries(w), 1, |w|);
            gain >= 0.0 && loss >= 0.0 && IsShare(WindowRsi(w), gain, loss)
  {
    SumNonNegative(GainSeries(w), 1, |w|);
    SumNonNegative(LossSeries(w), 1, |w|);
    FromSumsShares(Sum(GainSeries(w), 1, |w|), Sum(LossSeries(w), 1, |w|), |w| - 1, WindowRsi(w));
  }

  /** The percentage that the gains have in gains and losses; 100 when nothing moved. */
  ghost predicate IsShare(r: real, gain: real, loss: real) {
    if gain + loss > 0.0 then r * (gain + loss) == 100.0 * gain else r == 100.0
  }

  lemma FromSumsShares(gain: real, loss: real, period: nat, r: real)
    requires gain >= 0.0 && loss >= 0.0 && period >= 1 && r == FromSums(gain, loss, period)
    ensures IsShare(r, gain, loss)
  {
    MeanShares(gain, loss, period as real);
  }

  lemma MeanShares(gain: real, loss: real, n: real)
    requires gain >= 0.0 && loss >= 0.0 && n > 0.0
    ensures gain / n >= 0.0 && loss / n >= 0.0
    ensures gain + loss > 0.0 ==> RsiValue(gain / n, loss / n) * (gain + loss) == 100.0 * gain
    ensures gain + loss == 0.0 ==> RsiValue(gain / n, loss / n) == 100.0
  {
    var g, l := gain / n, loss / n;
    assert gain == g * n && loss == l * n;
    RsiIsShareOfGains(g, l);
    if gain + loss > 0.0 {
      var r := RsiValue(g, l);
      assert (g + l) * n == gain + loss;
      assert g + l > 0.0;
      assert r * (g + l) == 100.0 * g;
      assert r * (gain + loss) == r * (g + l) * n;
    }
  }

  /** The from-scratch series: undefined below `period`, then the value of the last period + 1 closes. */
  function Series(v: seq<real>, period: int, i: nat): Option<real>
    requires i < |v|
  {
    if period <= 0 || i < period then None else Some(WindowRsi(v[i - period..i + 1]))
  }

  // ---- The running sums ----

  /** A sum over a stretch of `s` is the same sum in a sequence that holds the stretch. */
  lemma {:induction false} SumShift(s: seq<real>, t: seq<real>, from: nat, lo: nat, hi: nat)
    requires lo <= hi <= |t| && from + hi <= |s|
    requires forall j :: lo <= j < hi ==> t[j] == s[from + j]
    ensures Sum(t, lo, hi) == Sum(s, from + lo, from + hi)
    decreases hi
  {
    if lo < hi {
      SumShift(s, t, from, lo, hi - 1);
    }
  }

  /** Sliding a window by one drops its oldest term. */
  lemma {:induction false} DropFirst(s: seq<real>, lo: nat, hi: nat)
    requires lo < hi <= |s|
    ensures Sum(s, lo + 1, hi) == Sum(s, lo, hi) - s[lo]
    decreases hi
  {
    if lo + 1 < hi {
      DropFirst(s, lo, hi - 1);
    }
  }

  lemma SeriesFromSums(v: seq<real>, period: nat, i: nat)
    requires 1 <= period <= i < |v|
    ensures var gain, loss := Sum(GainSeries(v), i - period + 1, i + 1), Sum(LossSeries(v), i - period + 1, i + 1);
            gain >= 0.0 && loss >= 0.0 && Series(v, period, i) == Some(FromSums(gain, loss, period))
  {
    WindowSums(v, period, i);
    SumNonNegative(GainSeries(v), i - period + 1, i + 1);
    SumNonNegative(LossSeries(v), i - period + 1, i + 1);
  }

  lemma WindowSums(v: seq<real>, period: nat, i: nat)
    requires 1 <= period <= i < |v|
    ensures var w := v[i - period..i + 1];
            && |w| == period + 1
            && Sum(GainSeries(w), 1, |w|) == Sum(GainSeries(v), i - period + 1, i + 1)
            && Sum(LossSeries(w), 1, |w|) == Sum(LossSeries(v), i - period + 1, i + 1)
  {
    var w := v[i - period..i + 1];
    SumShift(GainSeries(v), GainSeries(w), i - period, 1, |w|);
    SumShift(LossSeries(v), LossSeries(w), i - period, 1, |w|);
  }

  method Differences(values: seq<real>) returns (gains: seq<real>, losses: seq<real>)
    requires values != []
    ensures gains == GainSeries(values) && losses == LossSeries(values)
  {
    gains, losses := seq(|values|, _ => 0.0), seq(|values|, _ => 0.0);
    for i := 1 to |values|
      invariant |gains| == |losses| == |values|
      invariant forall j :: 0 <= j < i && j < |values| ==> gains[j] == GainSeries(values)[j] && losses[j] == LossSeries(values)[j]
      invariant forall j :: i <= j < |values| ==> gains[j] == losses[j] == 0.0
    {
      var diff := values[i] - values[i - 1];
      if diff >= 0.0 {
        gains := gains[i := diff];
      } else {
        losses := losses[i := -diff];
      }
    }
  }

  /** The running sums compute the from-scratch value at every index. */
  method RsiSeries(values: seq<real>, period: int) returns (out: seq<Option<real>>)
    ensures |out| == |values|
    ensures forall i :: 0 <= i < |values| ==> out[i] == Series(values, period, i)
  {
    out := seq(|values|, _ => None);
    if period <= 0 || |values| <= period {
      return;
    }
    var gains, losses := Differences(values);
    var sumGain, sumLoss := FirstSums(gains, losses, period);
    FirstRunning(values, period);
    out := out[period := Some(FromSums(sumGain, sumLoss, period))];
    out := RunningValues(values, gains, losses, period, sumGain, sumLoss, out);
  }

  /** The second loop. */
  method RunningValues(values: seq<real>, gains: seq<real>, losses: seq<real>, period: int, firstGain: real,
                       firstLoss: real, start: seq<Option<real>>) returns (out: seq<Option<real>>)
    requires 1 <= period < |values| == |start| && gains == GainSeries(values) && losses == LossSeries(values)
    requires Running(values, period, period + 1, firstGain, firstLoss)
    requires forall j :: 0 <= j <= period ==> start[j] == Series(values, period, j)
    ensures |out| == |values| && forall i :: 0 <= i < |values| ==> out[i] == Series(values, period, i)
  {
    var sumGain, sumLoss := firstGain, firstLoss;
    out := start;
    for i := period + 1 to |values|
      invariant |out| == |values| && Running(values, period, i, sumGain, sumLoss)
      invariant forall j :: 0 <= j < i ==> out[j] == Series(values, period, j)
    {
      RunningMoves(values, period, i, sumGain, sumLoss);
      sumGain := sumGain + (gains[i] - gains[i - period]);
      sumLoss := sumLoss + (losses[i] - losses[i - period]);
      out := out[i := Some(FromSums(sumGain, sumLoss, period))];
    }
  }

  lemma FirstRunning(v: seq<real>, period: int)
    requires 1 <= period < |v|
    ensures var gain, loss := Sum(GainSeries(v), 1, period + 1), Sum(LossSeries(v), 1, period + 1);
            Running(v, period, period + 1, gain, loss) && gain >= 0.0 && loss >= 0.0
            && Series(v, period, period) == Some(FromSums(gain, loss, period))
  {
    SeriesFromSums(v, period, period);
  }

  method FirstSums(gains: seq<real>, losses: seq<real>, period: int) returns (sumGain: real, sumLoss: real)
    requires 1 <= period < |gains| == |losses|
    ensures sumGain == Sum(gains, 1, period + 1) && sumLoss == Sum(losses, 1, period + 1)
  {
    sumGain, sumLoss := 0.0, 0.0;
    for i := 1 to period + 1
      invariant sumGain == Sum(gains, 1, i) && sumLoss == Sum(losses, 1, i)
    {
      sumGain, sumLoss := sumGain + gains[i], sumLoss + losses[i];
    }
  }

  /** The sums over the `period` differences before index `i`. */
  ghost predicate Running(v: seq<real>, period: int, i: nat, sumGain: real, sumLoss: real) {
    1 <= period < i <= |v| && sumGain == Sum(GainSeries(v), i - period, i) && sumLoss == Sum(LossSeries(v), i - period, i)
  }

  lemma RunningMoves(v: seq<real>, period: int, i: nat, sumGain: real, sumLoss: real)
    requires i < |v| && Running(v, period, i, sumGain, sumLoss)
    ensures var gain, loss := sumGain + (GainSeries(v)[i] - GainSeries(v)[i - period]),
                              sumLoss + (LossSeries(v)[i] - LossSeries(v)[i - period]);
            && Running(v, period, i + 1, gain, loss) && gain >= 0.0 && loss >= 0.0
            && Series(v, period, i) == Some(FromSums(gain, loss, period))
  {
    DropFirst(GainSeries(v), i - period, i + 1);
    DropFirst(LossSeries(v), i - period, i + 1);
    SeriesFromSums(v, period, i);
  }

  // ---- Range and invariance ----

  lemma ValueInRange(g: real, l: real)
    requires g >= 0.0 && l >= 0.0
    ensures 0.0 <= RsiValue(g, l) <= 100.0
  {
    if l > 0.0 {
      var d := 1.0 + g / l;
      assert d >= 1.0;
      assert 0.0 <= 100.0 / d <= 100.0;
    }
  }

  /** Undefined exactly below the period, and otherwise between 0 and 100. */
  lemma SeriesInRange(v: seq<real>, period: int, i: nat)
    requires i < |v| && period >= 1
    ensures Series(v, period, i).None? <==> i < period
    ensures Series(v, period, i).Some? ==> 0.0 <= Series(v, period, i).value <= 100.0
  {
    if i >= period {
      var w := v[i - period..i + 1];
      SumNonNegative(GainSeries(w), 1, |w|);
      SumNonNegative(LossSeries(w), 1, |w|);
      ValueInRange(Sum(GainSeries(w), 1, |w|) / period as real, Sum(LossSeries(w), 1, |w|) / period as real);
    }
  }

  ghost predicate RescaledAt(r: seq<real>, v: seq<real>, scale: real, shift: real, i: nat) {
    i < |v| && i < |r| && r[i] == scale * v[i] + shift
  }

  /** `r` is the prices `v` positively scaled and moved by a constant. */
  ghost predicate Rescaled(r: seq<real>, v: seq<real>, scale: real, shift: real) {
    scale > 0.0 && |r| == |v| && forall i: nat :: i < |v| ==> RescaledAt(r, v, scale, shift, i)
  }

  ghost predicate ScaledAt(s: seq<real>, t: seq<real>, scale: real, i: nat) {
    i < |s| && i < |t| && t[i] == scale * s[i]
  }

  lemma StepScales(r: seq<real>, v: seq<real>, scale: real, shift: real, i: nat)
    requires Rescaled(r, v, scale, shift) && 1 <= i < |v|
    ensures ScaledAt(GainSeries(v), GainSeries(r), scale, i) && ScaledAt(LossSeries(v), LossSeries(r), scale, i)
  {
    assert RescaledAt(r, v, scale, shift, i) && RescaledAt(r, v, scale, shift, i - 1);
    var d := v[i] - v[i - 1];
    assert r[i] - r[i - 1] == scale * d;
    assert scale * d >= 0.0 <==> d >= 0.0;
  }

  lemma {:induction false} SumScales(s: seq<real>, t: seq<real>, scale: real, lo: nat, hi: nat)
    requires lo <= hi <= |s| == |t| && forall i: nat :: lo <= i < hi ==> ScaledAt(s, t, scale, i)
    ensures Sum(t, lo, hi) == scale * Sum(s, lo, hi)
    decreases hi
  {
    if lo < hi {
      SumScales(s, t, scale, lo, hi - 1);
      assert ScaledAt(s, t, scale, hi - 1);
    }
  }

  lemma ValueScales(g: real, l: real, g': real, l': real, scale: real, period: nat)
    requires g >= 0.0 && l >= 0.0 && g' >= 0.0 && l' >= 0.0 && scale > 0.0 && period >= 1
    requires g' == scale * g && l' == scale * l
    ensures FromSums(g', l', period) == FromSums(g, l, period)
  {
    if l > 0.0 {
      RatioOf(g, l, period as real);
      RatioOf(g', l', period as real);
      var q := g / l;
      assert g == q * l && g' == q * l';
      QuotientIs(g', l', q);
    }
  }

  lemma QuotientIs(a: real, b: real, q: real)
    requires b > 0.0 && a == q * b
    ensures a / b == q
  {
  }

  lemma RatioOf(g: real, l: real, n: real)
    requires l > 0.0 && n > 0.0
    ensures l / n > 0.0 && (g / n) / (l / n) == g / l
  {
    var q := g / l;
    assert g == q * l;
    assert g / n == q * (l / n);
    QuotientIs(g / n, l / n, q);
  }

  /** Moving or positively scaling all the prices leaves the series as it was. */
  lemma SeriesInvariant(r: seq<real>, v: seq<real>, period: int, i: nat, scale: real, shift: real)
    requires i < |v| && Rescaled(r, v, scale, shift)
    ensures Series(r, period, i) == Series(v, period, i)
  {
    if 1 <= period <= i {
      var rw, w := r[i - period..i + 1], v[i - period..i + 1];
      forall j: nat | j < |w| ensures RescaledAt(rw, w, scale, shift, j) {
        assert RescaledAt(r, v, scale, shift, i - period + j);
      }
      WindowInvariant(rw, w, scale, shift);
    }
  }

  /** The window's gains and losses scale with the prices. */
  lemma StepsScale(rw: seq<real>, w: seq<real>, scale: real, shift: real)
    requires Rescaled(rw, w, scale, shift)
    ensures forall i: nat :: 1 <= i < |w| ==> ScaledAt(GainSeries(w), GainSeries(rw), scale, i)
    ensures forall i: nat :: 1 <= i < |w| ==> ScaledAt(LossSeries(w), LossSeries(rw), scale, i)
  {
    forall i: nat | 1 <= i < |w|
      ensures ScaledAt(GainSeries(w), GainSeries(rw), scale, i) && ScaledAt(LossSeries(w), LossSeries(rw), scale, i)
    {
      StepScales(rw, w, scale, shift, i);
    }
  }

  lemma WindowInvariant(rw: seq<real>, w: seq<real>, scale: real, shift: real)
    requires |w| >= 2 && Rescaled(rw, w, scale, shift)
    ensures WindowRsi(rw) == WindowRsi(w)
  {
    var n := |w|;
    StepsScale(rw, w, scale, shift);
    SumScales(GainSeries(w), GainSeries(rw), scale, 1, n);
    SumScales(LossSeries(w), LossSeries(rw), scale, 1, n);
    SumNonNegative(GainSeries(w), 1, n);
    SumNonNegative(LossSeries(w), 1, n);
    SumNonNegative(GainSeries(rw), 1, n);
    SumNonNegative(LossSeries(rw), 1, n);
    ValueScales(Sum(GainSeries(w), 1, n), Sum(LossSeries(w), 1, n),
                Sum(GainSeries(rw), 1, n), Sum(LossSeries(rw), 1, n), scale, n - 1);
  }
}
