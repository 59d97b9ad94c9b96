/** The calls that `restQueue` (cmd/collector/rest_queue.go) makes on one endpoint against the clock of the endpoint's
    adaptive limiter (internal/ratelimit/adaptive.go). */
module EndpointRate {
  import opened RestJob
  import opened AdaptiveLimiter
  import Seqs

  /** What happens on an endpoint, in the order of time: a job in a lock-held section of the limiter, or a job making a
      call or getting past a cap. */
  datatype Moment = Section(job: nat, op: Op) | Doing(job: nat, act: Act, now: int)

  function Now(m: Moment): int {
    if m.Section? then m.op.now else m.now
  }

  predicate Calling(m: Moment) {
    m.Doing? && m.act.Call?
  }

  predicate Rated(s: State) {
    1 <= s.minRPS <= s.currentRPS <= s.maxRPS
  }

  /** The limiter's share of it. */
  ghost function Ops(ms: seq<Moment>): seq<Op> {
    if ms == [] then []
    else
      var before, m := Ops(ms[..|ms| - 1]), ms[|ms| - 1];
      if m.Section? then before + [m.op] else before
  }

  ghost predicate Grants(s: State, before: seq<Moment>, m: Moment)
    requires Rated(s)
  {
    m.Section? && m.op.Wait? && Ready(Run(s, Ops(before)), m.op.now)
  }

  /** What the moment adds to the trace of its job; a section of `Wait` that does not grant adds nothing. */
  ghost function Adds(s: State, before: seq<Moment>, m: Moment): seq<Act>
    requires Rated(s)
  {
    if m.Doing? then [m.act]
    else if m.op.Throttle? then [ReportThrottle]
    else if m.op.Success? then [ReportSuccess]
    else if Grants(s, before, m) then [AdaptiveGrant] else []
  }

  ghost function TraceOf(s: State, ms: seq<Moment>, job: nat): seq<Act>
    requires Rated(s)
  {
    if ms == [] then []
    else
      var front, m := ms[..|ms| - 1], ms[|ms| - 1];
      if m.job == job then TraceOf(s, front, job) + Adds(s, front, m) else TraceOf(s, front, job)
  }

  /** Grants come from the limiter alone, and moments in the order of their times. */
  ghost predicate Timeline(ms: seq<Moment>, start: int, jobs: nat) {
    && (forall i :: 0 <= i < |ms| ==> start <= Now(ms[i]) && ms[i].job < jobs)
    && (forall i, j :: 0 <= i <= j < |ms| ==> Now(ms[i]) <= Now(ms[j]))
    && (forall i :: 0 <= i < |ms| && ms[i].Doing? ==> ms[i].act.Call? || ms[i].act.CapGrant?)
  }

  ghost function CallsMade(ms: seq<Moment>): nat {
    if ms == [] then 0 else CallsMade(ms[..|ms| - 1]) + if Calling(ms[|ms| - 1]) then 1 else 0
  }

  // ---- Summed over the jobs ----

  ghost function JobsCalls(s: State, ms: seq<Moment>, jobs: nat): nat
    requires Rated(s)
  {
    if jobs == 0 then 0 else JobsCalls(s, ms, jobs - 1) + Calls(TraceOf(s, ms, jobs - 1))
  }

  ghost function JobsGrants(s: State, ms: seq<Moment>, jobs: nat): nat
    requires Rated(s)
  {
    if jobs == 0 then 0 else JobsGrants(s, ms, jobs - 1) + Count(TraceOf(s, ms, jobs - 1), AdaptiveGrant)
  }

  lemma TraceSnoc(s: State, front: seq<Moment>, m: Moment, job: nat)
    requires Rated(s) && (m.Doing? ==> m.act.Call? || m.act.CapGrant?)
    ensures var trace, more := TraceOf(s, front, job), TraceOf(s, front + [m], job);
            && Calls(more) == Calls(trace) + (if m.job == job && Calling(m) then 1 else 0)
            && Count(more, AdaptiveGrant) == Count(trace, AdaptiveGrant) + if m.job == job && Grants(s, front, m) then 1 else 0
  {
    var trace := TraceOf(s, front, job);
    Seqs.Snoc(front, front, m);
    if Adds(s, front, m) == [] {
      Seqs.FromStart(trace);
    } else {
      Extend(trace, Adds(s, front, m)[0]);
      assert Adds(s, front, m) == [Adds(s, front, m)[0]];
    }
  }

  lemma {:induction false} JobsSnoc(s: State, front: seq<Moment>, m: Moment, jobs: nat)
    requires Rated(s) && (m.Doing? ==> m.act.Call? || m.act.CapGrant?)
    ensures JobsCalls(s, front + [m], jobs) == JobsCalls(s, front, jobs) + if m.job < jobs && Calling(m) then 1 else 0
    ensures JobsGrants(s, front + [m], jobs) == JobsGrants(s, front, jobs) + if m.job < jobs && Grants(s, front, m) then 1 else 0
  {
    if jobs > 0 {
      JobsSnoc(s, front, m, jobs - 1);
      TraceSnoc(s, front, m, jobs - 1);
    }
  }

  lemma GrantsSnoc(s: State, front: seq<Moment>, m: Moment)
    requires Rated(s)
    ensures GrantTimes(s, Ops(front + [m])) ==
            if Grants(s, front, m) then GrantTimes(s, Ops(front)) + [Now(m)] else GrantTimes(s, Ops(front))
  {
    Seqs.Snoc(front, front, m);
    if m.Section? {
      Seqs.Snoc(Ops(front), Ops(front), m.op);
      Seqs.FromStart(GrantTimes(s, Ops(front)));
    }
  }

  lemma {:induction false} NoJobs(s: State, jobs: nat)
    requires Rated(s)
    ensures JobsCalls(s, [], jobs) == 0 && JobsGrants(s, [], jobs) == 0
  {
    if jobs > 0 {
      NoJobs(s, jobs - 1);
    }
  }

  /** The calls on the endpoint are those of its jobs, and the limiter's grants those that its jobs got. */
  lemma {:induction false} Totals(s: State, ms: seq<Moment>, start: int, jobs: nat)
    requires Rated(s) && Timeline(ms, start, jobs)
    ensures CallsMade(ms) == JobsCalls(s, ms, jobs) && |GrantTimes(s, Ops(ms))| == JobsGrants(s, ms, jobs)
  {
    if ms == [] {
      NoJobs(s, jobs);
    } else {
      var front, m := ms[..|ms| - 1], ms[|ms| - 1];
      Totals(s, front, start, jobs);
      Seqs.Last(ms);
      JobsSnoc(s, front, m, jobs);
      GrantsSnoc(s, front, m);
    }
  }

  /** Every job spends a grant of its own on every call, as `RunJob` promises of each. */
  ghost predicate AllSpend(s: State, ms: seq<Moment>, jobs: nat)
    requires Rated(s)
  {
    forall job :: 0 <= job < jobs ==> Spends(TraceOf(s, ms, job), AdaptiveGrant)
  }

  lemma {:induction false} CallsWithinGrants(s: State, ms: seq<Moment>, jobs: nat)
    requires Rated(s) && AllSpend(s, ms, jobs)
    ensures JobsCalls(s, ms, jobs) <= JobsGrants(s, ms, jobs)
  {
    if jobs > 0 {
      CallsWithinGrants(s, ms, jobs - 1);
    }
  }

  lemma {:induction false} TracePrefix(s: State, ms: seq<Moment>, i: nat, job: nat)
    requires Rated(s) && i <= |ms|
    ensures TraceOf(s, ms[..i], job) <= TraceOf(s, ms, job)
  {
    if i == |ms| {
      Seqs.All(ms);
    } else {
      TracePrefix(s, ms[..|ms| - 1], i, job);
      assert ms[..|ms| - 1][..i] == ms[..i];
    }
  }

  lemma SpendEarlier(s: State, ms: seq<Moment>, i: nat, jobs: nat)
    requires Rated(s) && i <= |ms| && AllSpend(s, ms, jobs)
    ensures AllSpend(s, ms[..i], jobs)
  {
    forall job | 0 <= job < jobs ensures Spends(TraceOf(s, ms[..i], job), AdaptiveGrant) {
      var all, part := TraceOf(s, ms, job), TraceOf(s, ms[..i], job);
      TracePrefix(s, ms, i, job);
      assert part == all[..|part|];
      SpendsPrefix(all, AdaptiveGrant, |part|);
    }
  }

  // ---- Calls against the clock ----

  lemma {:induction false} OpsClocked(ms: seq<Moment>, start: int, jobs: nat)
    requires Timeline(ms, start, jobs)
    ensures ClockedFrom(Ops(ms), start)
    ensures forall i :: 0 <= i < |Ops(ms)| ==> ms != [] && Ops(ms)[i].now <= Now(ms[|ms| - 1])
  {
    if ms != [] {
      OpsClocked(ms[..|ms| - 1], start, jobs);
    }
  }

  lemma {:induction false} GrantsNotAfter(s: State, ops: seq<Op>, now: int)
    requires Rated(s) && forall i :: 0 <= i < |ops| ==> ops[i].now <= now
    ensures forall i :: 0 <= i < |GrantTimes(s, ops)| ==> GrantTimes(s, ops)[i] <= now
  {
    if ops != [] {
      GrantsNotAfter(s, ops[..|ops| - 1], now);
    }
  }

  lemma KthGrant(s: State, ops: seq<Op>, start: int, k: nat)
    requires Invariant(s, start) && ClockedFrom(ops, start) && 1 <= k <= |GrantTimes(s, ops)|
    ensures GrantTimes(s, ops)[k - 1] >= GrantTimes(s, ops)[0] + (k - 1) * (SECOND / s.maxRPS)
  {
    GrantsAreSpaced(s, ops, start, 0, k - 1);
  }

  /** By its k-th call an endpoint has had k grants. */
  lemma EnoughGrants(s: State, ms: seq<Moment>, start: int, jobs: nat)
    requires Rated(s) && Timeline(ms, start, jobs) && AllSpend(s, ms, jobs) && ms != [] && Calling(ms[|ms| - 1])
    ensures var k, grants := CallsMade(ms), GrantTimes(s, Ops(ms));
            1 <= k <= |grants| && grants[k - 1] <= Now(ms[|ms| - 1])
  {
    Totals(s, ms, start, jobs);
    CallsWithinGrants(s, ms, jobs);
    OpsClocked(ms, start, jobs);
    GrantsNotAfter(s, Ops(ms), Now(ms[|ms| - 1]));
    CallIsCounted(ms);
  }

  lemma LastCallComesLate(s: State, ms: seq<Moment>, start: int, jobs: nat)
    requires Invariant(s, start) && Timeline(ms, start, jobs) && AllSpend(s, ms, jobs) && ms != [] && Calling(ms[|ms| - 1])
    ensures var k, grants := CallsMade(ms), GrantTimes(s, Ops(ms));
            1 <= k <= |grants| && Now(ms[|ms| - 1]) >= grants[0] + (k - 1) * (SECOND / s.maxRPS)
  {
    EnoughGrants(s, ms, start, jobs);
    OpsClocked(ms, start, jobs);
    KthGrant(s, Ops(ms), start, CallsMade(ms));
  }

  lemma CallIsCounted(ms: seq<Moment>)
    requires ms != [] && Calling(ms[|ms| - 1])
    ensures CallsMade(ms) >= 1
  {
  }

  /** However jobs of an endpoint interleave, by its k-th call the limiter has granted k times, and the call comes at
      least k - 1 intervals of 1s / maxRPS after the first grant. */
  lemma CallsAreSpaced(s: State, ms: seq<Moment>, start: int, jobs: nat, i: nat)
    requires Invariant(s, start) && Timeline(ms, start, jobs) && AllSpend(s, ms, jobs) && i < |ms| && Calling(ms[i])
    ensures var k, grants := CallsMade(ms[..i + 1]), GrantTimes(s, Ops(ms[..i + 1]));
            1 <= k <= |grants| && Now(ms[i]) >= grants[0] + (k - 1) * (SECOND / s.maxRPS)
  {
    SpendEarlier(s, ms, i + 1, jobs);
    LastCallComesLate(s, ms[..i + 1], start, jobs);
  }
}
