/** The REST queue of cmd/collector/rest_queue.go: what one job does to the limiters, and what the queue
    does to the jobs. */
module RestJob {
  import Seqs

  const MAX_ATTEMPTS: nat := 3

  /** How `run` ended, as the throttle and retry classifiers see it. */
  datatype Outcome = Ok | ThrottleErr | RetryableErr | FatalErr

  /** What `runJob` returns: nil, the error of the last call, or the context's error. */
  datatype Result = Nil | CallErr(outcome: Outcome) | ContextErr

  /** What the world answers during one attempt. */
  datatype World = World(adaptiveOk: bool, capOk: seq<bool>, outcome: Outcome, sleepOk: bool)

  datatype Act =
    | AdaptiveGrant
    | CapGrant(index: nat)
    | Call(attempt: nat, outcome: Outcome)
    | ReportSuccess
    | ReportThrottle

  ghost function Count(trace: seq<Act>, act: Act): nat {
    if trace == [] then 0 else Count(trace[..|trace| - 1], act) + if trace[|trace| - 1] == act then 1 else 0
  }

  ghost function Calls(trace: seq<Act>): nat {
    if trace == [] then 0 else Calls(trace[..|trace| - 1]) + if trace[|trace| - 1].Call? then 1 else 0
  }

  ghost function CallsEnding(trace: seq<Act>, outcome: Outcome): nat {
    if trace == [] then 0
    else
      var last := trace[|trace| - 1];
      CallsEnding(trace[..|trace| - 1], outcome) + if last.Call? && last.outcome == outcome then 1 else 0
  }

  /** How the calls ended, in order. */
  ghost function Outcomes(trace: seq<Act>): seq<Outcome> {
    if trace == [] then []
    else
      var before, last := Outcomes(trace[..|trace| - 1]), trace[|trace| - 1];
      if last.Call? then before + [last.outcome] else before
  }

  /** At every moment of the trace each call has consumed a grant `g` of its own, and at most one grant
      is waiting to be consumed. */
  ghost predicate Spends(trace: seq<Act>, g: Act) {
    && Calls(trace) <= Count(trace, g) <= Calls(trace) + 1
    && (trace != [] ==> Spends(trace[..|trace| - 1], g))
  }

  /** Calls are numbered 1, 2, 3 in order. */
  ghost predicate Numbered(trace: seq<Act>) {
    trace != [] ==>
      var earlier, last := trace[..|trace| - 1], trace[|trace| - 1];
      Numbered(earlier) && (last.Call? ==> last.attempt == Calls(earlier) + 1)
  }

  /** After one more act every count is the old count plus what the act adds. */
  lemma Extend(trace: seq<Act>, act: Act)
    ensures forall g :: Count(trace + [act], g) == Count(trace, g) + if act == g then 1 else 0
    ensures Calls(trace + [act]) == Calls(trace) + if act.Call? then 1 else 0
    ensures forall o :: CallsEnding(trace + [act], o) == CallsEnding(trace, o) + if act.Call? && act.outcome == o then 1 else 0
    ensures Outcomes(trace + [act]) == if act.Call? then Outcomes(trace) + [act.outcome] else Outcomes(trace)
    ensures forall g :: Spends(trace + [act], g) <==>
              Spends(trace, g) && Calls(trace + [act]) <= Count(trace + [act], g) <= Calls(trace + [act]) + 1
    ensures Numbered(trace + [act]) <==> Numbered(trace) && (act.Call? ==> act.attempt == Calls(trace) + 1)
  {
    Seqs.Snoc(trace, trace, act);
  }

  ghost predicate Balanced(trace: seq<Act>, g: Act, pending: bool) {
    Spends(trace, g) && Count(trace, g) == Calls(trace) + if pending then 1 else 0
  }

  /** The grants of every limiter of the endpoint are spent as they should be. */
  ghost predicate Legal(trace: seq<Act>, hasLimiter: bool, caps: seq<bool>) {
    && Numbered(trace)
    && (hasLimiter ==> Spends(trace, AdaptiveGrant))
    && (forall i :: 0 <= i < |caps| && caps[i] ==> Spends(trace, CapGrant(i)))
  }

  /** No grant of the endpoint is waiting to be spent. */
  ghost predicate Settled(trace: seq<Act>, hasLimiter: bool, caps: seq<bool>) {
    && Numbered(trace)
    && (hasLimiter ==> Balanced(trace, AdaptiveGrant, false))
    && (forall i :: 0 <= i < |caps| && caps[i] ==> Balanced(trace, CapGrant(i), false))
  }

  /** Two traces that differ only in grants. */
  ghost predicate SameCalls(a: seq<Act>, b: seq<Act>) {
    && Calls(a) == Calls(b) && Outcomes(a) == Outcomes(b)
    && Count(a, ReportSuccess) == Count(b, ReportSuccess)
    && Count(a, ReportThrottle) == Count(b, ReportThrottle)
    && forall o :: CallsEnding(a, o) == CallsEnding(b, o)
  }

  /** Waits on the adaptive limiter and then on the non-nil cap limiters in order; a cancelled wait stops
      the walk. */
  method AcquireAll(hasLimiter: bool, caps: seq<bool>, w: World, trace: seq<Act>) returns (ok: bool, trace': seq<Act>)
    requires |w.capOk| == |caps|
    requires Settled(trace, hasLimiter, caps)
    ensures SameCalls(trace', trace)
    ensures Legal(trace', hasLimiter, caps)
    ensures ok ==> hasLimiter ==> Balanced(trace', AdaptiveGrant, true)
    ensures ok ==> forall i :: 0 <= i < |caps| && caps[i] ==> Balanced(trace', CapGrant(i), true)
    ensures ok <==> (hasLimiter ==> w.adaptiveOk) && forall i :: 0 <= i < |caps| && caps[i] ==> w.capOk[i]
  {
    trace' := trace;
    if hasLimiter {
      if !w.adaptiveOk {
        return false, trace';
      }
      Extend(trace', AdaptiveGrant);
      trace' := trace' + [AdaptiveGrant];
    }
    ok, trace' := AcquireCaps(hasLimiter, caps, w.capOk, trace');
  }

  ghost predicate CapsBalanced(trace: seq<Act>, caps: seq<bool>, done: nat) {
    forall j :: 0 <= j < |caps| && caps[j] ==> Balanced(trace, CapGrant(j), j < done)
  }

  /** The first `done` caps have granted since `start`. */
  ghost predicate CapsWalked(start: seq<Act>, trace: seq<Act>, hasLimiter: bool, caps: seq<bool>, done: nat) {
    && Numbered(trace) && SameCalls(trace, start) && CapsBalanced(trace, caps, done)
    && (hasLimiter ==> Balanced(trace, AdaptiveGrant, true))
  }

  lemma CapGranted(start: seq<Act>, trace: seq<Act>, hasLimiter: bool, caps: seq<bool>, i: nat)
    requires i < |caps| && CapsWalked(start, trace, hasLimiter, caps, i)
    ensures CapsWalked(start, if caps[i] then trace + [CapGrant(i)] else trace, hasLimiter, caps, i + 1)
  {
    Extend(trace, CapGrant(i));
  }

  method AcquireCaps(ghost hasLimiter: bool, caps: seq<bool>, capOk: seq<bool>, trace: seq<Act>)
    returns (ok: bool, trace': seq<Act>)
    requires |capOk| == |caps| && Numbered(trace) && CapsBalanced(trace, caps, 0)
    requires hasLimiter ==> Balanced(trace, AdaptiveGrant, true)
    ensures exists done: nat :: done <= |caps| && CapsWalked(trace, trace', hasLimiter, caps, done) && (ok ==> done == |caps|)
    ensures ok <==> forall i :: 0 <= i < |caps| && caps[i] ==> capOk[i]
  {
    trace' := trace;
    for i := 0 to |caps|
      invariant CapsWalked(trace, trace', hasLimiter, caps, i)
      invariant forall j :: 0 <= j < i && caps[j] ==> capOk[j]
    {
      CapGranted(trace, trace', hasLimiter, caps, i);
      if caps[i] {
        if !capOk[i] {
          return false, trace';
        }
        trace' := trace' + [CapGrant(i)];
      }
    }
    ok := true;
  }

  /** The call itself, once every limiter has granted, and what is reported back to the limiter. */
  method CallAndReport(hasLimiter: bool, ghost caps: seq<bool>, attempt: nat, outcome: Outcome, trace: seq<Act>)
    returns (trace': seq<Act>)
    requires Numbered(trace) && attempt == Calls(trace) + 1
    requires hasLimiter ==> Balanced(trace, AdaptiveGrant, true)
    requires forall i :: 0 <= i < |caps| && caps[i] ==> Balanced(trace, CapGrant(i), true)
    ensures Settled(trace', hasLimiter, caps) && Calls(trace') == attempt && Outcomes(trace') == Outcomes(trace) + [outcome]
    ensures forall o :: CallsEnding(trace', o) == CallsEnding(trace, o) + if o == outcome then 1 else 0
    ensures Count(trace', ReportSuccess) == Count(trace, ReportSuccess) + if hasLimiter && outcome.Ok? then 1 else 0
    ensures Count(trace', ReportThrottle) == Count(trace, ReportThrottle) + if hasLimiter && outcome.ThrottleErr? then 1 else 0
  {
    Extend(trace, Call(attempt, outcome));
    trace' := trace + [Call(attempt, outcome)];
    if hasLimiter && outcome == Ok {
      Extend(trace', ReportSuccess);
      trace' := trace' + [ReportSuccess];
    } else if hasLimiter && outcome == ThrottleErr {
      Extend(trace', ReportThrottle);
      trace' := trace' + [ReportThrottle];
    }
  }

  /** Every wait of the attempt is granted. */
  predicate Granted(hasLimiter: bool, caps: seq<bool>, w: World)
    requires |w.capOk| == |caps|
  {
    (hasLimiter ==> w.adaptiveOk) && forall i :: 0 <= i < |caps| && caps[i] ==> w.capOk[i]
  }

  /** The attempt leads to another one: it made its call, which was throttled, or retryable with an undisturbed sleep. */
  predicate Repeats(hasLimiter: bool, caps: seq<bool>, w: World)
    requires |w.capOk| == |caps|
  {
    Granted(hasLimiter, caps, w) && (w.outcome == ThrottleErr || (w.outcome == RetryableErr && w.sleepOk))
  }

  /** The calls of a trace are the world's first ones, and have been reported. */
  ghost predicate Tallies(trace: seq<Act>, hasLimiter: bool, caps: seq<bool>, world: seq<World>) {
    && Calls(trace) == |Outcomes(trace)| <= |world| && Legal(trace, hasLimiter, caps)
    && (forall i :: 0 <= i < |Outcomes(trace)| ==> Outcomes(trace)[i] == world[i].outcome)
    && Count(trace, ReportSuccess) == (if hasLimiter then CallsEnding(trace, Ok) else 0)
    && Count(trace, ReportThrottle) == (if hasLimiter then CallsEnding(trace, ThrottleErr) else 0)
  }

  /** After `done` attempts that each lead to another. */
  ghost predicate Ongoing(trace: seq<Act>, hasLimiter: bool, caps: seq<bool>, world: seq<World>, done: nat) {
    && Tallies(trace, hasLimiter, caps, world) && Settled(trace, hasLimiter, caps) && Calls(trace) == done
    && CallsEnding(trace, Ok) == CallsEnding(trace, FatalErr) == 0
  }

  lemma LegalWhenSettled(trace: seq<Act>, hasLimiter: bool, caps: seq<bool>)
    requires Settled(trace, hasLimiter, caps)
    ensures Legal(trace, hasLimiter, caps)
  {
  }

  /** One attempt: all the waits and, when they are granted, the call. */
  method Attempt(hasLimiter: bool, caps: seq<bool>, world: seq<World>, done: nat, trace: seq<Act>)
    returns (granted: bool, trace': seq<Act>)
    requires done < |world| && |world[done].capOk| == |caps| && Ongoing(trace, hasLimiter, caps, world, done)
    ensures granted == Granted(hasLimiter, caps, world[done]) && Tallies(trace', hasLimiter, caps, world)
    ensures !granted ==> SameCalls(trace', trace)
    ensures granted ==> Settled(trace', hasLimiter, caps) && Calls(trace') == done + 1
    ensures granted ==> forall o :: CallsEnding(trace', o) ==
                                    CallsEnding(trace, o) + if o == world[done].outcome then 1 else 0
  {
    granted, trace' := AcquireAll(hasLimiter, caps, world[done], trace);
    if granted {
      trace' := CallAndReport(hasLimiter, caps, done + 1, world[done].outcome, trace');
      LegalWhenSettled(trace', hasLimiter, caps);
    }
  }

  /** One job: at most three calls, each spending its own grant from the adaptive limiter and from every non-nil cap
      limiter. The world decides the rest: `last` is the first attempt that does not lead to another one, or the third,
      and the result is the context's error exactly when a wait of that attempt was cancelled, or its sleep. */
  method RunJob(hasLimiter: bool, caps: seq<bool>, world: seq<World>)
    returns (result: Result, trace: seq<Act>, ghost last: nat)
    requires |world| == MAX_ATTEMPTS && forall k :: 0 <= k < |world| ==> |world[k].capOk| == |caps|
    ensures last < 3 && (forall j :: 0 <= j < last ==> Repeats(hasLimiter, caps, world[j]))
    ensures last < 2 ==> !Repeats(hasLimiter, caps, world[last])
    ensures Calls(trace) == if Granted(hasLimiter, caps, world[last]) then last + 1 else last
    ensures result == if !Granted(hasLimiter, caps, world[last]) then ContextErr
                      else if world[last].outcome == Ok then Nil
                      else if world[last].outcome == FatalErr || last == 2 then CallErr(world[last].outcome)
                      else ContextErr
    ensures Tallies(trace, hasLimiter, caps, world)
    ensures CallsEnding(trace, Ok) == if result == Nil then 1 else 0
    ensures CallsEnding(trace, FatalErr) == if result == CallErr(FatalErr) then 1 else 0
  {
    trace := [];
    var attempt := 1;
    while attempt <= MAX_ATTEMPTS
      invariant 1 <= attempt <= MAX_ATTEMPTS && Ongoing(trace, hasLimiter, caps, world, attempt - 1)
      invariant forall j :: 0 <= j < attempt - 1 ==> Repeats(hasLimiter, caps, world[j])
    {
      var w := world[attempt - 1];
      var granted;
      granted, trace := Attempt(hasLimiter, caps, world, attempt - 1, trace);
      if !granted {
        return ContextErr, trace, attempt - 1;
      }
      if w.outcome == Ok {
        return Nil, trace, attempt - 1;
      }
      if w.outcome == FatalErr || attempt == MAX_ATTEMPTS {
        return CallErr(w.outcome), trace, attempt - 1;
      }
      if w.outcome != ThrottleErr && !w.sleepOk {
        return ContextErr, trace, attempt - 1;
      }
      attempt := attempt + 1;
    }
    // The loop always returns from inside: the third attempt is the last.
    assert false;
    result := ContextErr;
  }

  lemma {:induction false} SpendsPrefix(trace: seq<Act>, g: Act, cut: nat)
    requires Spends(trace, g) && cut <= |trace|
    ensures Spends(trace[..cut], g)
  {
    if cut == |trace| {
      assert trace[..cut] == trace;
    } else {
      SpendsPrefix(trace[..|trace| - 1], g, cut);
      assert trace[..|trace| - 1][..cut] == trace[..cut];
    }
  }

  ghost function TotalCalls(traces: seq<seq<Act>>, cuts: seq<nat>): nat
    requires |cuts| == |traces| && forall i :: 0 <= i < |traces| ==> cuts[i] <= |traces[i]|
  {
    if traces == [] then 0 else Calls(traces[0][..cuts[0]]) + TotalCalls(traces[1..], cuts[1..])
  }

  ghost function TotalGrants(traces: seq<seq<Act>>, cuts: seq<nat>, g: Act): nat
    requires |cuts| == |traces| && forall i :: 0 <= i < |traces| ==> cuts[i] <= |traces[i]|
  {
    if traces == [] then 0 else Count(traces[0][..cuts[0]], g) + TotalGrants(traces[1..], cuts[1..], g)
  }

  /** However the jobs of one endpoint interleave, at every instant (each job stopped at its own cut)
      the calls made do not outnumber the grants given, and no more grants wait unspent than there are
      jobs. */
  lemma {:induction false} CallsNeverExceedGrants(traces: seq<seq<Act>>, cuts: seq<nat>, g: Act)
    requires |cuts| == |traces|
    requires forall i :: 0 <= i < |traces| ==> cuts[i] <= |traces[i]| && Spends(traces[i], g)
    ensures TotalCalls(traces, cuts) <= TotalGrants(traces, cuts, g) <= TotalCalls(traces, cuts) + |traces|
  {
    if traces != [] {
      SpendsPrefix(traces[0], g, cuts[0]);
      CallsNeverExceedGrants(traces[1..], cuts[1..], g);
    }
  }
}

module RestQueue {
  import opened RestJob

  datatype Priority = High | Low
  datatype Reply = MissingRun | QueueFull | Finished(result: Result)
  datatype Delivery = Delivery(job: nat, reply: Reply)
  datatype WorkerState = Idle | Waiting | Running(job: nat)

  ghost predicate Distinct(s: seq<nat>) {
    forall i, j :: 0 <= i < j < |s| ==> s[i] != s[j]
  }

  ghost function Elements(s: seq<nat>): set<nat> {
    set x | x in s
  }

  /** A channel: what went in, in order, is what came out followed by what is still inside. */
  ghost predicate Fifo(accepted: seq<nat>, started: seq<nat>, queued: seq<nat>, capacity: nat) {
    started + queued == accepted && Distinct(accepted) && |queued| <= capacity
  }

  lemma FifoPush(accepted: seq<nat>, started: seq<nat>, queued: seq<nat>, capacity: nat, job: nat)
    requires Fifo(accepted, started, queued, capacity) && |queued| < capacity && job !in accepted
    ensures Fifo(accepted + [job], started, queued + [job], capacity)
    ensures Elements(accepted + [job]) == Elements(accepted) + {job}
  {
    assert started + (queued + [job]) == accepted + [job];
  }

  lemma FifoPop(accepted: seq<nat>, started: seq<nat>, queued: seq<nat>, capacity: nat)
    requires Fifo(accepted, started, queued, capacity) && queued != []
    ensures Fifo(accepted, started + [queued[0]], queued[1..], capacity)
    ensures Elements(started + [queued[0]]) == Elements(started) + {queued[0]}
    ensures queued[0] !in started && queued[0] in accepted
  {
    assert started + [queued[0]] + queued[1..] == accepted;
    assert accepted[|started|] == queued[0];
    forall i | 0 <= i < |started| ensures started[i] != queued[0] {
      assert accepted[i] == started[i];
    }
  }

  lemma FifoPlaces(accepted: seq<nat>, started: seq<nat>, queued: seq<nat>, capacity: nat, job: nat)
    requires Fifo(accepted, started, queued, capacity)
    ensures job in accepted <==> job in started || job in queued
    ensures !(job in started && job in queued)
  {
    forall i, j | 0 <= i < |started| && 0 <= j < |queued| ensures started[i] != queued[j] {
      assert accepted[i] == started[i] && accepted[|started| + j] == queued[j];
    }
  }

  /** The jobs whose done channel has received something, each exactly once. */
  ghost predicate AnsweredOnce(delivered: seq<Delivery>, answered: set<nat>) {
    && (forall i, j :: 0 <= i < j < |delivered| ==> delivered[i].job != delivered[j].job)
    && answered == set i | 0 <= i < |delivered| :: delivered[i].job
  }

  lemma AnswerAnother(delivered: seq<Delivery>, answered: set<nat>, d: Delivery)
    requires AnsweredOnce(delivered, answered) && d.job !in answered
    ensures AnsweredOnce(delivered + [d], answered + {d.job})
  {
    var delivered' := delivered + [d];
    forall k | k in answered + {d.job} ensures exists i :: 0 <= i < |delivered'| && delivered'[i].job == k {
      if k in answered {
        var i :| 0 <= i < |delivered| && delivered[i].job == k;
        assert delivered'[i].job == k;
      } else {
        assert delivered'[|delivered|].job == k;
      }
    }
    assert forall i :: 0 <= i < |delivered| ==> delivered[i].job in answered;
  }

  ghost function RunningJobs(workers: map<nat, WorkerState>): set<nat> {
    set w | w in workers && workers[w].Running? :: workers[w].job
  }

  /** No two workers hold the same job. */
  ghost predicate HeldOnce(workers: map<nat, WorkerState>) {
    forall v, w :: v in workers && w in workers && v != w && workers[v].Running? && workers[w].Running? ==>
      workers[v].job != workers[w].job
  }

  lemma PickUp(workers: map<nat, WorkerState>, w: nat, job: nat)
    requires HeldOnce(workers) && w in workers && !workers[w].Running? && job !in RunningJobs(workers)
    ensures HeldOnce(workers[w := Running(job)])
    ensures RunningJobs(workers[w := Running(job)]) == RunningJobs(workers) + {job}
  {
    var after := workers[w := Running(job)];
    forall k | k in RunningJobs(workers) + {job} ensures k in RunningJobs(after) {
      if k == job {
        assert after[w] == Running(k);
      } else {
        var v :| v in workers && workers[v].Running? && workers[v].job == k;
        assert after[v] == workers[v];
      }
    }
  }

  lemma PutDown(workers: map<nat, WorkerState>, w: nat)
    requires HeldOnce(workers) && w in workers && workers[w].Running?
    ensures HeldOnce(workers[w := Idle])
    ensures RunningJobs(workers[w := Idle]) == RunningJobs(workers) - {workers[w].job}
  {
    var after := workers[w := Idle];
    forall k | k in RunningJobs(workers) && k != workers[w].job ensures k in RunningJobs(after) {
      var v :| v in workers && workers[v].Running? && workers[v].job == k;
      assert after[v] == workers[v];
    }
  }

  class Queue {
    const capacity: nat
    var jobsHigh: seq<nat>
    var jobsLow: seq<nat>
    var workers: map<nat, WorkerState>
    var delivered: seq<Delivery>      // sends on done channels, in order
    ghost var rejected: set<nat>
    ghost var completed: set<nat>
    ghost var acceptedHigh: seq<nat>
    ghost var acceptedLow: seq<nat>
    ghost var startedHigh: seq<nat>
    ghost var startedLow: seq<nat>

    ghost function Submitted(): set<nat>
      reads this
    {
      rejected + Elements(acceptedHigh) + Elements(acceptedLow)
    }

    ghost predicate Valid()
      reads this
    {
      && Fifo(acceptedHigh, startedHigh, jobsHigh, capacity)
      && Fifo(acceptedLow, startedLow, jobsLow, capacity)
      && Elements(acceptedHigh) !! Elements(acceptedLow)
      && rejected !! Elements(acceptedHigh) + Elements(acceptedLow)
      && HeldOnce(workers)
      && completed !! RunningJobs(workers)
      && completed + RunningJobs(workers) == Elements(startedHigh) + Elements(startedLow)
      && AnsweredOnce(delivered, rejected + completed)
    }

    constructor (buffer: int, ids: set<nat>)
      ensures Valid() && Submitted() == {} && capacity == if buffer < 1 then 128 else buffer
      ensures workers == map w | w in ids :: Idle
    {
      capacity := if buffer < 1 then 128 else buffer;
      jobsHigh, jobsLow, delivered := [], [], [];
      workers := map w | w in ids :: Idle;
      rejected, completed := {}, {};
      acceptedHigh, acceptedLow, startedHigh, startedLow := [], [], [], [];
    }

    /** Every submitted job is rejected, queued, running or completed, and never two of these; its done
        channel has received something, once, exactly when it is rejected or completed. */
    lemma ExactlyOnePlace(job: nat)
      requires Valid()
      ensures var queued := job in jobsHigh || job in jobsLow;
              var running := job in RunningJobs(workers);
              && (job in Submitted() <==> job in rejected || queued || running || job in completed)
              && !(job in rejected && (queued || running || job in completed))
              && !(queued && (running || job in completed))
              && !(running && job in completed)
              && ((exists i :: 0 <= i < |delivered| && delivered[i].job == job) <==> job in rejected || job in completed)
    {
      FifoPlaces(acceptedHigh, startedHigh, jobsHigh, capacity, job);
      FifoPlaces(acceptedLow, startedLow, jobsLow, capacity, job);
      assert job in completed + RunningJobs(workers) <==> job in Elements(startedHigh) + Elements(startedLow);
      assert job in rejected + completed <==> exists i :: 0 <= i < |delivered| && delivered[i].job == job;
    }

    method Submit(job: nat, hasRun: bool, priority: Priority) returns (accepted: bool)
      requires Valid() && job !in Submitted()
      modifies this`jobsHigh, this`jobsLow, this`delivered, this`rejected, this`acceptedHigh, this`acceptedLow
      ensures Valid() && Submitted() == old(Submitted()) + {job}
      ensures accepted == (hasRun && |old(if priority.High? then jobsHigh else jobsLow)| < capacity)
      ensures jobsHigh == old(jobsHigh) + if accepted && priority.High? then [job] else []
      ensures jobsLow == old(jobsLow) + if accepted && priority.Low? then [job] else []
      ensures delivered == old(delivered) + if accepted then [] else [Delivery(job, if hasRun then QueueFull else MissingRun)]
    {
      ExactlyOnePlace(job);
      accepted := hasRun && (if priority.High? then |jobsHigh| else |jobsLow|) < capacity;
      if !accepted {
        var d := Delivery(job, if hasRun then QueueFull else MissingRun);
        AnswerAnother(delivered, rejected + completed, d);
        delivered, rejected := delivered + [d], rejected + {job};
        assert rejected + completed == old(rejected) + completed + {job};
      } else if priority.High? {
        FifoPush(acceptedHigh, startedHigh, jobsHigh, capacity, job);
        jobsHigh, acceptedHigh := jobsHigh + [job], acceptedHigh + [job];
      } else {
        FifoPush(acceptedLow, startedLow, jobsLow, capacity, job);
        jobsLow, acceptedLow := jobsLow + [job], acceptedLow + [job];
      }
    }

    method StartHigh(w: nat)
      requires Valid() && w in workers && !workers[w].Running? && jobsHigh != []
      modifies this`workers, this`jobsHigh, this`startedHigh
      ensures Valid() && workers == old(workers)[w := Running(old(jobsHigh)[0])] && jobsHigh == old(jobsHigh)[1..]
    {
      var job := jobsHigh[0];
      ExactlyOnePlace(job);
      FifoPop(acceptedHigh, startedHigh, jobsHigh, capacity);
      PickUp(workers, w, job);
      workers, startedHigh, jobsHigh := workers[w := Running(job)], startedHigh + [job], jobsHigh[1..];
    }

    method StartLow(w: nat)
      requires Valid() && w in workers && !workers[w].Running? && jobsLow != []
      modifies this`workers, this`jobsLow, this`startedLow
      ensures Valid() && workers == old(workers)[w := Running(old(jobsLow)[0])] && jobsLow == old(jobsLow)[1..]
    {
      var job := jobsLow[0];
      ExactlyOnePlace(job);
      FifoPop(acceptedLow, startedLow, jobsLow, capacity);
      PickUp(workers, w, job);
      workers, startedLow, jobsLow := workers[w := Running(job)], startedLow + [job], jobsLow[1..];
    }

    /** The first, non-blocking select of the loop: a waiting high-priority job is always taken. */
    method Poll(w: nat)
      requires Valid() && w in workers && workers[w].Idle?
      modifies this`workers, this`jobsHigh, this`startedHigh
      ensures Valid()
      ensures workers == old(workers)[w := if old(jobsHigh) == [] then Waiting else Running(old(jobsHigh)[0])]
      ensures jobsHigh == if old(jobsHigh) == [] then [] else old(jobsHigh)[1..]
    {
      if jobsHigh != [] {
        StartHigh(w);
      } else {
        assert RunningJobs(workers[w := Waiting]) == RunningJobs(workers) by {
          forall k | k in RunningJobs(workers) ensures k in RunningJobs(workers[w := Waiting]) {
            var v :| v in workers && workers[v].Running? && workers[v].job == k;
            assert workers[w := Waiting][v] == workers[v];
          }
        }
        workers := workers[w := Waiting];
      }
    }

    /** The blocking select: reached only after a poll that found no high-priority job. */
    method Wake(w: nat, low: bool)
      requires Valid() && w in workers && workers[w].Waiting?
      requires if low then jobsLow != [] else jobsHigh != []
      modifies this`workers, this`jobsHigh, this`startedHigh, this`jobsLow, this`startedLow
      ensures Valid()
      ensures workers == old(workers)[w := Running(if low then old(jobsLow)[0] else old(jobsHigh)[0])]
      ensures jobsLow == if low then old(jobsLow)[1..] else old(jobsLow)
      ensures jobsHigh == if low then old(jobsHigh) else old(jobsHigh)[1..]
    {
      if low {
        StartLow(w);
      } else {
        StartHigh(w);
      }
    }

    /** `runJob` returned: the worker sends its result and goes back to polling. */
    method Finish(w: nat, result: Result)
      requires Valid() && w in workers && workers[w].Running?
      modifies this`workers, this`delivered, this`completed
      ensures Valid() && workers == old(workers)[w := Idle]
      ensures delivered == old(delivered) + [Delivery(old(workers)[w].job, Finished(result))]
      ensures completed == old(completed) + {old(workers)[w].job}
    {
      var job := workers[w].job;
      assert job in RunningJobs(workers);
      ExactlyOnePlace(job);
      PutDown(workers, w);
      AnswerAnother(delivered, rejected + completed, Delivery(job, Finished(result)));
      delivered := delivered + [Delivery(job, Finished(result))];
      completed, workers := completed + {job}, workers[w := Idle];
      assert rejected + completed == rejected + old(completed) + {job};
    }
  }
}
