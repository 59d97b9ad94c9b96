/** `gate_analysis` of tools/oiss_evidence_fitness_experiment.py: a funnel of gates, the gates each record fails, and how
    often two gates fail together. The analysis works for any records and gates; the source's eleven gates follow at
    the end, with what its verdict says of them. Percentages are not rounded. */
module GateFunnel {
  import opened Options
  import opened Text
  import Seqs

  type Gate<!T> = T -> bool

  /** The first gate from `k` on that the record fails, or the number of gates. */
  function FirstFailure<T>(r: T, gates: seq<Gate<T>>, k: nat): (f: nat)
    requires k <= |gates|
    ensures k <= f <= |gates|
    ensures forall g :: k <= g < f ==> gates[g](r)
    ensures f < |gates| ==> !gates[f](r)
    decreases |gates| - k
  {
    if k == |gates| || !gates[k](r) then k else FirstFailure(r, gates, k + 1)
  }

  /** The records that get past the first `k` gates, in order. */
  function Past<T>(records: seq<T>, gates: seq<Gate<T>>, k: nat): seq<T>
    requires k <= |gates|
  {
    if records == [] then []
    else
      var before, r := Past(records[..|records| - 1], gates, k), records[|records| - 1];
      if FirstFailure(r, gates, 0) >= k then before + [r] else before
  }

  /** How many records fail gate `k` first; at the number of gates, how many fail none. */
  function FailingFirst<T>(records: seq<T>, gates: seq<Gate<T>>, k: nat): nat {
    if records == [] then 0
    else
      var before := FailingFirst(records[..|records| - 1], gates, k);
      if FirstFailure(records[|records| - 1], gates, 0) == k then before + 1 else before
  }

  /** How many records fail both gates. */
  function FailingBoth<T>(records: seq<T>, gates: seq<Gate<T>>, a: nat, b: nat): nat
    requires a < |gates| && b < |gates|
  {
    if records == [] then 0
    else
      var before, r := FailingBoth(records[..|records| - 1], gates, a, b), records[|records| - 1];
      if !gates[a](r) && !gates[b](r) then before + 1 else before
  }

  /** One comprehension of the funnel. */
  method Survive<T>(survivors: seq<T>, gate: Gate<T>, ghost records: seq<T>, ghost gates: seq<Gate<T>>, ghost k: nat)
    returns (left: seq<T>)
    requires k < |gates| && gate == gates[k] && survivors == Past(records, gates, k)
    ensures left == Past(records, gates, k + 1)
  {
    left := [];
    for i := 0 to |survivors|
      invariant left == Kept(survivors[..i], gate)
    {
      Seqs.Prefix(survivors, i);
      if gate(survivors[i]) {
        left := left + [survivors[i]];
      }
    }
    Seqs.All(survivors);
    KeptIsPast(records, gates, k);
  }

  function Kept<T>(rs: seq<T>, gate: Gate<T>): seq<T> {
    if rs == [] then []
    else if gate(rs[|rs| - 1]) then Kept(rs[..|rs| - 1], gate) + [rs[|rs| - 1]] else Kept(rs[..|rs| - 1], gate)
  }

  lemma {:induction false} KeptIsPast<T>(records: seq<T>, gates: seq<Gate<T>>, k: nat)
    requires k < |gates|
    ensures Kept(Past(records, gates, k), gates[k]) == Past(records, gates, k + 1)
  {
    if records != [] {
      KeptIsPast(records[..|records| - 1], gates, k);
      Seqs.Snoc(Past(records[..|records| - 1], gates, k), [], records[|records| - 1]);
    }
  }

  /** A stage loses exactly the records that fail its gate first, and the last stage leaves those that fail none. */
  lemma {:induction false} FunnelIsAttribution<T>(records: seq<T>, gates: seq<Gate<T>>, k: nat)
    requires k <= |gates|
    ensures k < |gates| ==> |Past(records, gates, k)| - |Past(records, gates, k + 1)| == FailingFirst(records, gates, k)
    ensures |Past(records, gates, |gates|)| == FailingFirst(records, gates, |gates|)
  {
    if records != [] {
      FunnelIsAttribution(records[..|records| - 1], gates, k);
    }
  }

  /** Two gates fail together as often one way round as the other, and at most as often as either does. */
  lemma {:induction false} OverlapBounds<T>(records: seq<T>, gates: seq<Gate<T>>, a: nat, b: nat)
    requires a < |gates| && b < |gates|
    ensures FailingBoth(records, gates, a, b) == FailingBoth(records, gates, b, a)
    ensures FailingBoth(records, gates, a, b) <= FailingBoth(records, gates, a, a) <= |records|
    ensures FailingFirst(records, gates, a) <= FailingBoth(records, gates, a, a)
  {
    if records != [] {
      OverlapBounds(records[..|records| - 1], gates, a, b);
    }
  }

  lemma {:induction false} AllPastNone<T>(records: seq<T>, gates: seq<Gate<T>>)
    ensures Past(records, gates, 0) == records
  {
    if records != [] {
      AllPastNone(records[..|records| - 1], gates);
      Seqs.Last(records);
    }
  }

  type Overlap = map<(nat, nat), nat>

  function Get(overlap: Overlap, a: nat, b: nat): nat {
    if (a, b) in overlap then overlap[(a, b)] else 0
  }

  /** `failures` lists the failed gates, each once, in order. */
  ghost predicate ListsFailures<T>(failures: seq<nat>, r: T, gates: seq<Gate<T>>, upTo: nat)
    requires upTo <= |gates|
  {
    && (forall g: nat :: g in failures <==> g < upTo && !gates[g](r))
    && (forall i, j :: 0 <= i < j < |failures| ==> failures[i] < failures[j])
  }

  method Failures<T>(r: T, gates: seq<Gate<T>>) returns (failures: seq<nat>)
    ensures ListsFailures(failures, r, gates, |gates|)
    ensures FirstFailure(r, gates, 0) == if failures == [] then |gates| else failures[0]
  {
    failures := [];
    for g := 0 to |gates|
      invariant ListsFailures(failures, r, gates, g)
    {
      if !gates[g](r) {
        assert forall i :: 0 <= i < |failures| ==> failures[i] in failures;
        failures := failures + [g];
      }
    }
    ghost var f := FirstFailure(r, gates, 0);
    if failures == [] {
      assert f < |gates| ==> f in failures;
    } else {
      assert failures[0] in failures;
      assert f < |gates| && f in failures;
    }
  }

  /** The inner two loops of the overlap count. */
  method CountPairs(overlap: Overlap, failures: seq<nat>) returns (after: Overlap)
    requires forall i, j :: 0 <= i < j < |failures| ==> failures[i] < failures[j]
    ensures forall a: nat, b: nat :: Get(after, a, b) ==
                                     if a in failures && b in failures then Get(overlap, a, b) + 1 else Get(overlap, a, b)
  {
    after := overlap;
    for i := 0 to |failures|
      invariant forall a: nat, b: nat :: Get(after, a, b) ==
                  if a in failures[..i] && b in failures then Get(overlap, a, b) + 1 else Get(overlap, a, b)
    {
      after := CountRow(after, failures[i], failures);
      Seqs.Prefix(failures, i);
    }
    Seqs.All(failures);
  }

  method CountRow(overlap: Overlap, left: nat, failures: seq<nat>) returns (after: Overlap)
    requires forall i, j :: 0 <= i < j < |failures| ==> failures[i] < failures[j]
    ensures forall a: nat, b: nat :: Get(after, a, b) ==
                                     if a == left && b in failures then Get(overlap, a, b) + 1 else Get(overlap, a, b)
  {
    after := overlap;
    for j := 0 to |failures|
      invariant forall a: nat, b: nat :: Get(after, a, b) ==
                  if a == left && b in failures[..j] then Get(overlap, a, b) + 1 else Get(overlap, a, b)
    {
      after := after[(left, failures[j]) := Get(after, left, failures[j]) + 1];
      Seqs.Prefix(failures, j);
    }
    Seqs.All(failures);
  }

  /** A funnel stage: the records left and their share of all, in percent. */
  datatype Stage = Stage(remaining: nat, percent: real)

  /** What is reported of one record; its status is replaced by "NO TRADE" when it was actionable and fails a gate. */
  datatype Attribution = Attribution(failures: seq<nat>, firstFailed: Option<nat>, executable: bool, noTrade: bool)

  datatype Analysis = Analysis(stages: seq<Stage>, attributions: seq<Attribution>, overlap: Overlap)

  ghost predicate DescribesStage<T>(stage: Stage, records: seq<T>, gates: seq<Gate<T>>, k: nat)
    requires k < |gates|
  {
    stage.remaining == |Past(records, gates, k + 1)| && stage.percent * |records| as real == 100.0 * stage.remaining as real
  }

  /** The source calls a record executable when its list of failures has no seventh entry. */
  ghost predicate DescribesRecord<T>(a: Attribution, r: T, gates: seq<Gate<T>>, actionable: T -> bool) {
    && ListsFailures(a.failures, r, gates, |gates|)
    && a.firstFailed == (if FirstFailure(r, gates, 0) == |gates| then None else Some(FirstFailure(r, gates, 0)))
    && a.executable == (|a.failures| <= 6)
    && a.noTrade == (actionable(r) && FirstFailure(r, gates, 0) < |gates|)
  }

  /** What the three tables must say. */
  ghost predicate Explains<T>(a: Analysis, records: seq<T>, gates: seq<Gate<T>>, actionable: T -> bool) {
    && |a.stages| == |gates| && (forall k :: 0 <= k < |gates| ==> DescribesStage(a.stages[k], records, gates, k))
    && |a.attributions| == |records|
    && (forall i :: 0 <= i < |records| ==> DescribesRecord(a.attributions[i], records[i], gates, actionable))
    && OverlapCounts(a.overlap, records, gates)
  }

  ghost predicate OverlapCounts<T>(overlap: Overlap, records: seq<T>, gates: seq<Gate<T>>) {
    forall x: nat, y: nat :: Get(overlap, x, y) == if x < |gates| && y < |gates| then FailingBoth(records, gates, x, y) else 0
  }

  /** No records is an error: the percentages divide by their number. */
  method GateAnalysis<T>(records: seq<T>, gates: seq<Gate<T>>, actionable: T -> bool) returns (result: Option<Analysis>)
    requires gates != []
    ensures result.None? <==> records == []
    ensures result.Some? ==> Explains(result.value, records, gates, actionable)
  {
    if records == [] {
      return None;
    }
    var stages := Funnel(records, gates);
    var attributions, overlap := Attribute(records, gates, actionable);
    return Some(Analysis(stages, attributions, overlap));
  }

  function Percent(part: nat, all: nat): (p: real)
    requires all > 0
    ensures p * all as real == 100.0 * part as real
  {
    100.0 * part as real / all as real
  }

  method Funnel<T>(records: seq<T>, gates: seq<Gate<T>>) returns (stages: seq<Stage>)
    requires records != []
    ensures |stages| == |gates| && forall k :: 0 <= k < |gates| ==> DescribesStage(stages[k], records, gates, k)
  {
    var counts := Remaining(records, gates);
    stages := [];
    for k := 0 to |counts|
      invariant |stages| == k
      invariant forall j :: 0 <= j < k ==> DescribesStage(stages[j], records, gates, j)
    {
      stages := stages + [Stage(counts[k], Percent(counts[k], |records|))];
    }
  }

  method Remaining<T>(records: seq<T>, gates: seq<Gate<T>>) returns (counts: seq<nat>)
    ensures |counts| == |gates| && forall k :: 0 <= k < |gates| ==> counts[k] == |Past(records, gates, k + 1)|
  {
    var survivors := records;
    counts := [];
    AllPastNone(records, gates);
    for k := 0 to |gates|
      invariant survivors == Past(records, gates, k)
      invariant |counts| == k && forall j :: 0 <= j < k ==> counts[j] == |Past(records, gates, j + 1)|
    {
      survivors := Survive(survivors, gates[k], records, gates, k);
      counts := counts + [|survivors|];
    }
  }

  method Attribute<T>(records: seq<T>, gates: seq<Gate<T>>, actionable: T -> bool)
    returns (attributions: seq<Attribution>, overlap: Overlap)
    ensures |attributions| == |records|
    ensures forall i :: 0 <= i < |records| ==> DescribesRecord(attributions[i], records[i], gates, actionable)
    ensures OverlapCounts(overlap, records, gates)
  {
    attributions, overlap := [], map[];
    for i := 0 to |records|
      invariant |attributions| == i
      invariant forall j :: 0 <= j < i ==> DescribesRecord(attributions[j], records[j], gates, actionable)
      invariant OverlapCounts(overlap, records[..i], gates)
    {
      var failed := Failures(records[i], gates);
      var first := if failed == [] then None else Some(failed[0]);
      FirstIsListed(failed, records[i], gates);
      attributions := attributions + [Attribution(failed, first, |failed| <= 6, actionable(records[i]) && failed != [])];
      ghost var before := overlap;
      overlap := CountPairs(overlap, failed);
      CountedOneMore(before, overlap, records[..i], records[i], gates, failed);
      Seqs.Prefix(records, i);
    }
    Seqs.All(records);
  }

  lemma FirstIsListed<T>(failures: seq<nat>, r: T, gates: seq<Gate<T>>)
    requires ListsFailures(failures, r, gates, |gates|)
    ensures failures != [] ==> failures[0] < |gates|
  {
    if failures != [] {
      assert failures[0] in failures;
    }
  }

  lemma CountedOneMore<T>(before: Overlap, after: Overlap, records: seq<T>, r: T, gates: seq<Gate<T>>,
                          failures: seq<nat>)
    requires OverlapCounts(before, records, gates) && ListsFailures(failures, r, gates, |gates|)
    requires forall a: nat, b: nat :: Get(after, a, b) ==
                                      if a in failures && b in failures then Get(before, a, b) + 1 else Get(before, a, b)
    ensures OverlapCounts(after, records + [r], gates)
  {
    Seqs.Snoc(records, records, r);
  }

  // ---- The source's gates ----

  /** The fields that the gates read; `None` is Python's. */
  datatype Candidate = Candidate(
    quality: string, ofactor: Option<real>, xfactor: Option<real>, tqs: Option<real>, extension: string,
    setupValid: bool, trigger: string, ratio: Option<real>, option: string, spread: Option<real>, lots: Option<int>,
    status: string)

  /** `(x or -inf) >= bound` for a positive bound. */
  predicate AtLeast(x: Option<real>, bound: real) {
    x.Some? && x.value >= bound
  }

  predicate GoodQuality(r: Candidate) {
    r.quality == "A" || r.quality == "B"
  }

  predicate Triggered(r: Candidate) {
    r.setupValid && Upper(r.trigger) == "TRIGGERED"
  }

  predicate NarrowSpread(r: Candidate) {
    r.spread.Some? && r.spread.value <= 0.03
  }

  /** The first six judge the signal, the last five its execution. */
  function Gates(): (gates: seq<Gate<Candidate>>)
    ensures |gates| == 11
  {
    [GoodQuality,
     (r: Candidate) => AtLeast(r.ofactor, 75.0),
     (r: Candidate) => AtLeast(r.xfactor, 75.0),
     (r: Candidate) => AtLeast(r.tqs, 78.0),
     (r: Candidate) => r.extension != "EXTREME",
     Triggered,
     (r: Candidate) => r.ratio.Some?,
     (r: Candidate) => AtLeast(r.ratio, 1.5),
     (r: Candidate) => r.option == "SELECTED",
     NarrowSpread,
     (r: Candidate) => r.lots.Some? && r.lots.value >= 1]
  }

  const EXECUTION: nat := 6   // the first execution gate, counting from 0

  predicate Actionable(r: Candidate) {
    r.status == "BUY NOW" || r.status == "SELL NOW"
  }

  method AnalyseCandidates(records: seq<Candidate>) returns (result: Option<Analysis>)
    ensures result.None? <==> records == []
    ensures result.Some? ==> Explains(result.value, records, Gates(), Actionable)
  {
    result := GateAnalysis(records, Gates(), Actionable);
  }

  /** Which gates a record is said to fail, by its fields; a value that is missing fails every gate that reads it. */
  lemma FailsIff(a: Attribution, r: Candidate)
    requires DescribesRecord(a, r, Gates(), Actionable)
    ensures 0 in a.failures <==> r.quality != "A" && r.quality != "B"
    ensures (1 in a.failures <==> Below(r.ofactor, 75.0)) && (2 in a.failures <==> Below(r.xfactor, 75.0))
    ensures 3 in a.failures <==> Below(r.tqs, 78.0)
    ensures 4 in a.failures <==> r.extension == "EXTREME"
    ensures 5 in a.failures <==> !r.setupValid || Upper(r.trigger) != "TRIGGERED"
    ensures (6 in a.failures <==> r.ratio.None?) && (7 in a.failures <==> Below(r.ratio, 1.5))
    ensures 8 in a.failures <==> r.option != "SELECTED"
    ensures 9 in a.failures <==> r.spread.None? || r.spread.value > 0.03
    ensures 10 in a.failures <==> r.lots.None? || r.lots.value < 1
    ensures a.noTrade <==> (r.status == "BUY NOW" || r.status == "SELL NOW") && a.failures != []
  {
    forall g: nat | g < 11 ensures g in a.failures <==> !Gates()[g](r) {
    }
    if a.failures != [] {
      assert a.failures[0] in a.failures;
    }
  }

  predicate Below(x: Option<real>, bound: real) {
    x.None? || x.value < bound
  }

  // ---- What the verdict "executable" says of a record ----

  /** How many of the gates from `low` up to `high` the record fails. */
  function FailedBetween<T>(r: T, gates: seq<Gate<T>>, low: nat, high: nat): nat
    requires low <= high <= |gates|
  {
    if low == high then 0
    else FailedBetween(r, gates, low, high - 1) + if gates[high - 1](r) then 0 else 1
  }

  lemma {:induction false} FailedSplits<T>(r: T, gates: seq<Gate<T>>, low: nat, mid: nat, high: nat)
    requires low <= mid <= high <= |gates|
    ensures FailedBetween(r, gates, low, high) == FailedBetween(r, gates, low, mid) + FailedBetween(r, gates, mid, high)
    ensures FailedBetween(r, gates, low, high) <= high - low
    decreases high
  {
    if mid < high {
      FailedSplits(r, gates, low, mid, high - 1);
    } else if low < high {
      FailedSplits(r, gates, low, mid - 1, high - 1);
    }
  }

  lemma EntriesIn(s: seq<nat>)
    ensures forall i :: 0 <= i < |s| ==> s[i] in s
  {
  }

  lemma {:induction false} FewBetween(s: seq<nat>, low: nat, high: nat)
    requires forall i, j :: 0 <= i < j < |s| ==> s[i] < s[j]
    requires low <= high && forall i :: 0 <= i < |s| ==> low <= s[i] < high
    ensures |s| <= high - low
  {
    if s != [] {
      FewBetween(s[..|s| - 1], low, s[|s| - 1]);
    }
  }

  /** The list of failures is as long as the count. */
  lemma {:induction false} ListedCount<T>(failures: seq<nat>, r: T, gates: seq<Gate<T>>, upTo: nat)
    requires upTo <= |gates| && ListsFailures(failures, r, gates, upTo)
    ensures |failures| == FailedBetween(r, gates, 0, upTo)
    decreases upTo
  {
    if upTo == 0 {
      EntriesIn(failures);
      FewBetween(failures, 0, 0);
    } else if gates[upTo - 1](r) {
      ListedCount(failures, r, gates, upTo - 1);
    } else {
      WithoutLast(failures, r, gates, upTo);
      ListedCount(failures[..|failures| - 1], r, gates, upTo - 1);
    }
  }

  lemma WithoutLast<T>(failures: seq<nat>, r: T, gates: seq<Gate<T>>, upTo: nat)
    requires 0 < upTo <= |gates| && ListsFailures(failures, r, gates, upTo) && !gates[upTo - 1](r)
    ensures failures != [] && ListsFailures(failures[..|failures| - 1], r, gates, upTo - 1)
  {
    assert upTo - 1 in failures;
    var front, last := failures[..|failures| - 1], failures[|failures| - 1];
    assert last in failures && last == upTo - 1;
    forall g: nat ensures g in front <==> g < upTo - 1 && !gates[g](r) {
      assert g in front ==> g in failures && g < last;
      assert g in failures ==> g in front || g == last;
    }
  }

  lemma {:induction false} NoneFailedIff<T>(r: T, gates: seq<Gate<T>>, low: nat, high: nat)
    requires low <= high <= |gates|
    ensures FailedBetween(r, gates, low, high) == 0 <==> forall g :: low <= g < high ==> gates[g](r)
  {
    if low < high {
      NoneFailedIff(r, gates, low, high - 1);
    }
  }

  /** The record passes every execution gate. */
  predicate Executable(r: Candidate) {
    r.ratio.Some? && AtLeast(r.ratio, 1.5) && r.option == "SELECTED" && NarrowSpread(r) && r.lots.Some? && r.lots.value >= 1
  }

  /** How many signal gates and how many execution gates the record fails. */
  function SignalFailures(r: Candidate): nat {
    FailedBetween(r, Gates(), 0, EXECUTION)
  }

  function ExecutionFailures(r: Candidate): nat {
    FailedBetween(r, Gates(), EXECUTION, |Gates()|)
  }

  lemma ExecutableMeansNoFailure(r: Candidate)
    ensures Executable(r) <==> ExecutionFailures(r) == 0
  {
    var gates := Gates();
    NoneFailedIff(r, gates, EXECUTION, 11);
    if ExecutionFailures(r) == 0 {
      assert gates[6](r) && gates[7](r) && gates[8](r) && gates[9](r) && gates[10](r);
    }
  }

  /** The verdict is wrong exactly on the records that fail an execution gate and at most six gates in all; then it
      calls them executable. */
  lemma ExecutableIff(a: Attribution, r: Candidate)
    requires DescribesRecord(a, r, Gates(), Actionable)
    ensures a.executable <==> SignalFailures(r) + ExecutionFailures(r) <= 6
    ensures Executable(r) ==> a.executable
    ensures (a.executable <==> Executable(r)) <==> Executable(r) || SignalFailures(r) + ExecutionFailures(r) > 6
  {
    ListedCount(a.failures, r, Gates(), 11);
    FailedSplits(r, Gates(), 0, EXECUTION, 11);
    FailedSplits(r, Gates(), 0, 0, EXECUTION);
    ExecutableMeansNoFailure(r);
  }

  /** With at most one signal gate failed the verdict is always "executable". */
  lemma GoodSignalIsExecutable(a: Attribution, r: Candidate)
    requires DescribesRecord(a, r, Gates(), Actionable) && SignalFailures(r) <= 1
    ensures a.executable
  {
    ExecutableIff(a, r);
    FailedSplits(r, Gates(), EXECUTION, EXECUTION, 11);
  }

  /** A record without a ratio fails the two gates on the ratio together. */
  lemma RatioGatesFailTogether(r: Candidate)
    ensures !Gates()[6](r) ==> !Gates()[7](r)
  {
  }

  /** A perfect record but for its missing ratio: two execution gates failed, and called executable. */
  lemma RejectedYetExecutable(a: Attribution)
    requires DescribesRecord(a, Candidate("A", Some(80.0), Some(80.0), Some(80.0), "NORMAL", true, "TRIGGERED", None,
                                          "SELECTED", Some(0.01), Some(1), "BUY NOW"), Gates(), Actionable)
    ensures a.executable && a.failures == [6, 7] && a.noTrade
    ensures var r := Candidate("A", Some(80.0), Some(80.0), Some(80.0), "NORMAL", true, "TRIGGERED", None, "SELECTED",
                               Some(0.01), Some(1), "BUY NOW");
            SignalFailures(r) == 0 && ExecutionFailures(r) == 2
  {
    var r := Candidate("A", Some(80.0), Some(80.0), Some(80.0), "NORMAL", true, "TRIGGERED", None, "SELECTED",
                       Some(0.01), Some(1), "BUY NOW");
    OnlyRatioFails(r);
    RejectedOnExecution(r);
    TwoFailures(a.failures);
  }

  /** Of the signal gates it fails none. */
  lemma RejectedOnExecution(r: Candidate)
    requires forall g: nat :: g < 11 ==> (Gates()[g](r) <==> g != 6 && g != 7)
    ensures SignalFailures(r) == 0 && ExecutionFailures(r) == 2
  {
    NoneFailedIff(r, Gates(), 0, 6);
    NoneFailedIff(r, Gates(), 8, 11);
    FailedSplits(r, Gates(), 6, 8, 11);
    assert FailedBetween(r, Gates(), 6, 8) == FailedBetween(r, Gates(), 6, 7) + 1;
    assert FailedBetween(r, Gates(), 6, 7) == FailedBetween(r, Gates(), 6, 6) + 1;
  }

  lemma OnlyRatioFails(r: Candidate)
    requires GoodQuality(r) && AtLeast(r.ofactor, 75.0) && AtLeast(r.xfactor, 75.0) && AtLeast(r.tqs, 78.0)
    requires r.extension != "EXTREME" && r.setupValid && r.trigger == "TRIGGERED" && r.ratio.None?
    requires r.option == "SELECTED" && NarrowSpread(r) && r.lots.Some? && r.lots.value >= 1
    ensures forall g: nat :: g < 11 ==> (Gates()[g](r) <==> g != 6 && g != 7)
  {
    assert Upper(r.trigger) == "TRIGGERED";
  }

  lemma TwoFailures(failures: seq<nat>)
    requires forall g: nat :: g in failures <==> g == 6 || g == 7
    requires forall i, j :: 0 <= i < j < |failures| ==> failures[i] < failures[j]
    ensures failures == [6, 7]
  {
    assert 6 in failures && 7 in failures;
    EntriesIn(failures);
    FewBetween(failures, 6, 8);
  }
}
