/** The adaptive limiter of internal/ratelimit/adaptive.go.

    Time is an integer number of nanoseconds; the zero `time.Time` of `nextAt` and `lastAdjust` is
    `None`.  A run is the sequence of lock-held sections in the order the mutex admits them. */
module AdaptiveLimiter {
  import Seqs
  import opened Options

  const SECOND: int := 1_000_000_000

  datatype State = State(minRPS: int, maxRPS: int, currentRPS: int, stepUpAfter: int,
                         nextAt: Option<int>, lastAdjust: Option<int>)

  /** One lock-held section, with the clock reading it makes. */
  datatype Op = Wait(now: int) | Throttle(now: int) | Success(now: int)

  function Initial(minRPS: int, maxRPS: int, startRPS: int, stepUpAfter: int): (s: State)
    ensures 1 <= s.minRPS <= s.currentRPS <= s.maxRPS
    ensures s.maxRPS == if maxRPS < 1 then 1 else maxRPS
    ensures s.maxRPS <= s.minRPS ==> s.minRPS == s.maxRPS
  {
    var lo := if minRPS < 1 then 1 else minRPS;
    var hi := if maxRPS < 1 then 1 else maxRPS;
    var lo' := if lo > hi then hi else lo;
    var start := if startRPS <= 0 then hi else startRPS;
    var start' := if start < lo' then lo' else start;
    State(lo', hi, if start' > hi then hi else start', stepUpAfter, None, None)
  }

  function Interval(rps: int): int
    requires rps >= 1
  {
    if SECOND / rps <= 0 then SECOND else SECOND / rps
  }

  function Backoff(s: State, now: int): int {
    if s.lastAdjust.Some? && now - s.lastAdjust.value < 10 * SECOND then 2 * SECOND else SECOND
  }

  predicate Ready(s: State, now: int) {
    s.nextAt.None? || s.nextAt.value <= now
  }

  function Next(s: State, op: Op): State
    requires s.currentRPS >= 1
  {
    match op
    case Wait(now) =>
      if Ready(s, now) then s.(nextAt := Some(now + Interval(s.currentRPS))) else s
    case Throttle(now) =>
      s.(currentRPS := if s.currentRPS > s.minRPS then s.currentRPS - 1 else s.currentRPS,
         nextAt := Some(now + Backoff(s, now)), lastAdjust := Some(now))
    case Success(now) =>
      if s.currentRPS >= s.maxRPS || s.stepUpAfter <= 0 then s
      else if s.lastAdjust.None? || now - s.lastAdjust.value >= s.stepUpAfter then
        s.(currentRPS := s.currentRPS + 1, lastAdjust := Some(now))
      else s
  }

  /** What every reachable state satisfies once the clock has reached `clock`.  The last line is why a
      back-off never shortens a pending one: more than a second of pending delay comes from a recent
      adjustment, and a recent adjustment makes the next back-off two seconds. */
  predicate Invariant(s: State, clock: int) {
    && 1 <= s.minRPS <= s.currentRPS <= s.maxRPS
    && (s.lastAdjust.Some? ==> s.lastAdjust.value <= clock)
    && (s.nextAt.Some? ==>
          || s.nextAt.value <= clock + SECOND
          || (s.lastAdjust.Some? && s.nextAt.value <= s.lastAdjust.value + 2 * SECOND))
  }

  ghost predicate ClockedFrom(ops: seq<Op>, start: int) {
    && (forall i :: 0 <= i < |ops| ==> start <= ops[i].now)
    && (forall i, j :: 0 <= i <= j < |ops| ==> ops[i].now <= ops[j].now)
  }

  lemma IntervalAtLeast(current: int, max: int)
    requires 1 <= current <= max
    ensures 0 <= SECOND / max <= Interval(current) <= SECOND
  {
    DivisionShrinks(SECOND, current, max);
    DivisionShrinks(SECOND, 1, current);
  }

  lemma DivisionShrinks(a: int, b: int, c: int)
    requires 0 <= a && 1 <= b <= c
    ensures 0 <= a / c <= a / b
  {
    QuotientsOrdered(a, b, c, a / b, a / c);
  }

  lemma QuotientsOrdered(a: int, b: int, c: int, p: int, q: int)
    requires 1 <= b <= c && 0 <= q && c * q <= a < b * p + b
    ensures q <= p
  {
    var d := q - p - 1;
    assert b * q <= c * q;
    assert b * d == b * q - (b * p + b);
    assert d < 0;
  }

  /** The interval is the longest that lets `rps` of them into a second, and a second when a nanosecond is too long. */
  lemma IntervalIs(rps: int)
    requires rps >= 1
    ensures if rps <= 1_000_000_000 then rps * Interval(rps) <= 1_000_000_000 < rps * (Interval(rps) + 1)
            else Interval(rps) == 1_000_000_000
  {
    if rps <= SECOND {
      QuotientsOrdered(SECOND, rps, rps, SECOND / rps, 1);
    } else {
      QuotientsOrdered(SECOND, rps, rps, 0, SECOND / rps);
    }
  }

  /** One step keeps the invariant, and never moves `nextAt` backwards. */
  lemma StepKeeps(s: State, op: Op, clock: int)
    requires Invariant(s, clock) && clock <= op.now
    ensures Invariant(Next(s, op), op.now)
    ensures s.nextAt.Some? ==> Next(s, op).nextAt.Some? && s.nextAt.value <= Next(s, op).nextAt.value
    ensures Next(s, op).minRPS == s.minRPS && Next(s, op).maxRPS == s.maxRPS
    ensures op.Throttle? ==> Next(s, op).nextAt.value >= op.now + SECOND
    ensures op.Wait? && Ready(s, op.now) ==> Next(s, op).nextAt.value >= op.now + SECOND / s.maxRPS
  {
    IntervalAtLeast(s.currentRPS, s.maxRPS);
  }

  /** The state after a whole run. */
  ghost function Run(s: State, ops: seq<Op>): State
    requires 1 <= s.minRPS <= s.currentRPS <= s.maxRPS
    ensures var r := Run(s, ops); 1 <= r.minRPS <= r.currentRPS <= r.maxRPS
    ensures Run(s, ops).minRPS == s.minRPS && Run(s, ops).maxRPS == s.maxRPS
  {
    if ops == [] then s else Next(Run(s, ops[..|ops| - 1]), ops[|ops| - 1])
  }

  /** The clock readings at which a run lets a caller through. */
  ghost function GrantTimes(s: State, ops: seq<Op>): seq<int>
    requires 1 <= s.minRPS <= s.currentRPS <= s.maxRPS
  {
    if ops == [] then []
    else
      var earlier, op := ops[..|ops| - 1], ops[|ops| - 1];
      GrantTimes(s, earlier) + if op.Wait? && Ready(Run(s, earlier), op.now) then [op.now] else []
  }

  lemma {:induction false} RunKeeps(s: State, ops: seq<Op>, start: int)
    requires Invariant(s, start) && ClockedFrom(ops, start)
    ensures Invariant(Run(s, ops), if ops == [] then start else ops[|ops| - 1].now)
  {
    if ops != [] {
      var earlier := ops[..|ops| - 1];
      RunKeeps(s, earlier, start);
      StepKeeps(Run(s, earlier), ops[|ops| - 1], if earlier == [] then start else earlier[|earlier| - 1].now);
    }
  }

  /** For all constructor arguments and all runs the rate stays between its bounds, and splitting the
      run anywhere shows that `nextAt` has not moved backwards since. */
  lemma {:induction false} NextAtNeverRetreats(s: State, ops: seq<Op>, start: int, i: nat)
    requires Invariant(s, start) && ClockedFrom(ops, start) && i <= |ops|
    ensures var then_, now := Run(s, ops[..i]), Run(s, ops);
            && 1 <= s.minRPS == now.minRPS <= now.currentRPS <= now.maxRPS == s.maxRPS
            && (then_.nextAt.Some? ==> now.nextAt.Some? && then_.nextAt.value <= now.nextAt.value)
  {
    if i == |ops| {
      assert ops[..i] == ops;
    } else {
      var earlier := ops[..|ops| - 1];
      assert earlier[..i] == ops[..i];
      NextAtNeverRetreats(s, earlier, start, i);
      RunKeeps(s, earlier, start);
      StepKeeps(Run(s, earlier), ops[|ops| - 1], if earlier == [] then start else earlier[|earlier| - 1].now);
    }
  }

  /** No caller is let through within a second of a throttling. */
  lemma QuietAfterThrottle(s: State, ops: seq<Op>, start: int, i: nat, j: nat)
    requires Invariant(s, start) && ClockedFrom(ops, start) && i < j < |ops|
    requires ops[i].Throttle? && ops[j].Wait? && Ready(Run(s, ops[..j]), ops[j].now)
    ensures ops[j].now >= ops[i].now + SECOND
  {
    var upto := ops[..i + 1];
    assert upto[..i] == ops[..i] && ops[..j][..i + 1] == upto;
    RunKeeps(s, ops[..i], start);
    StepKeeps(Run(s, ops[..i]), ops[i], if i == 0 then start else ops[i - 1].now);
    NextAtNeverRetreats(s, ops[..j], start, i + 1);
  }

  /** The last grant pushed `nextAt` at least one minimal interval ahead. */
  lemma {:induction false} LastGrantHolds(s: State, ops: seq<Op>, start: int)
    requires Invariant(s, start) && ClockedFrom(ops, start)
    ensures var g := GrantTimes(s, ops);
            g != [] ==> Run(s, ops).nextAt.Some? && g[|g| - 1] + SECOND / s.maxRPS <= Run(s, ops).nextAt.value
  {
    if ops != [] {
      var earlier := ops[..|ops| - 1];
      LastGrantHolds(s, earlier, start);
      RunKeeps(s, earlier, start);
      StepKeeps(Run(s, earlier), ops[|ops| - 1], if earlier == [] then start else earlier[|earlier| - 1].now);
    }
  }

  /** From any grant to any later one there are at least as many minimal intervals as grants, so k
      grants span at least k - 1 intervals of 1s / maxRPS. */
  lemma {:induction false} GrantsAreSpaced(s: State, ops: seq<Op>, start: int, i: nat, j: nat)
    requires Invariant(s, start) && ClockedFrom(ops, start)
    requires i <= j < |GrantTimes(s, ops)|
    ensures GrantTimes(s, ops)[j] - GrantTimes(s, ops)[i] >= (j - i) * (SECOND / s.maxRPS)
  {
    var g := GrantTimes(s, ops);
    var earlier := ops[..|ops| - 1];
    var g' := GrantTimes(s, earlier);
    if j < |g'| {
      GrantsAreSpaced(s, earlier, start, i, j);
    } else if i < j {
      GrantsAreSpaced(s, earlier, start, i, j - 1);
      LastGrantHolds(s, earlier, start);
      OneMoreGap(j - i, SECOND / s.maxRPS);
    }
  }

  lemma OneMoreGap(k: int, gap: int)
    ensures k * gap == (k - 1) * gap + gap
  {
  }

  class Limiter {
    const minRPS: int
    const maxRPS: int
    var currentRPS: int
    const stepUpAfter: int
    var nextAt: Option<int>
    var lastAdjust: Option<int>

    function Value(): State
      reads this
    {
      State(minRPS, maxRPS, currentRPS, stepUpAfter, nextAt, lastAdjust)
    }

    constructor (minRPS: int, maxRPS: int, startRPS: int, stepUpAfter: int)
      ensures Value() == Initial(minRPS, maxRPS, startRPS, stepUpAfter)
    {
      var lo, hi, start := minRPS, maxRPS, startRPS;
      if lo < 1 { lo := 1; }
      if hi < 1 { hi := 1; }
      if lo > hi { lo := hi; }
      if start <= 0 { start := hi; }
      if start < lo { start := lo; }
      if start > hi { start := hi; }
      this.minRPS, this.maxRPS, currentRPS, this.stepUpAfter := lo, hi, start, stepUpAfter;
      nextAt, lastAdjust := None, None;
    }

    /** One lock-held section of `Wait`; a refusal says how long to sleep. */
    method TryWait(now: int) returns (granted: bool, wait: int)
      requires currentRPS >= 1
      modifies this`nextAt
      ensures Value() == Next(old(Value()), Wait(now))
      ensures granted == Ready(old(Value()), now)
      ensures !granted ==> wait > 0 && Ready(Value(), now + wait) && !Ready(Value(), now + wait - 1)
    {
      wait := 0;
      if nextAt.Some? && now < nextAt.value {
        wait := nextAt.value - now;
      }
      granted := wait == 0;
      if granted {
        var interval := SECOND / currentRPS;
        if interval <= 0 {
          interval := SECOND;
        }
        nextAt := Some(now + interval);
      }
    }

    method Throttled(now: int)
      requires currentRPS >= 1
      modifies this`nextAt, this`currentRPS, this`lastAdjust
      ensures Value() == Next(old(Value()), Throttle(now))
    {
      var backoff := SECOND;
      if lastAdjust.Some? && now - lastAdjust.value < 10 * SECOND {
        backoff := 2 * SECOND;
      }
      if currentRPS > minRPS {
        currentRPS := currentRPS - 1;
      }
      nextAt := Some(now + backoff);
      lastAdjust := Some(now);
    }

    method Succeeded(now: int)
      requires currentRPS >= 1
      modifies this`currentRPS, this`lastAdjust
      ensures Value() == Next(old(Value()), Success(now))
    {
      if currentRPS >= maxRPS || stepUpAfter <= 0 {
        return;
      }
      if lastAdjust.None? || now - lastAdjust.value >= stepUpAfter {
        currentRPS := currentRPS + 1;
        lastAdjust := Some(now);
      }
    }
  }

  /** A limiter built from any arguments and driven by any schedule lets through exactly the grants of
      the run, each at least 1s / maxRPS after the one before. */
  method RunSchedule(minRPS: int, maxRPS: int, startRPS: int, stepUpAfter: int, ops: seq<Op>, start: int)
    returns (grants: seq<int>)
    requires ClockedFrom(ops, start)
    ensures grants == GrantTimes(Initial(minRPS, maxRPS, startRPS, stepUpAfter), ops)
    ensures forall i :: 0 < i < |grants| ==> grants[i] - grants[i - 1] >= SECOND / (if maxRPS < 1 then 1 else maxRPS)
  {
    var limiter := new Limiter(minRPS, maxRPS, startRPS, stepUpAfter);
    ghost var s := Initial(minRPS, maxRPS, startRPS, stepUpAfter);
    grants := [];
    for i := 0 to |ops|
      invariant limiter.Value() == Run(s, ops[..i])
      invariant grants == GrantTimes(s, ops[..i])
    {
      Seqs.Prefix(ops, i);
      match ops[i]
      case Wait(now) =>
        var granted, _ := limiter.TryWait(now);
        if granted {
          grants := grants + [now];
        }
      case Throttle(now) => limiter.Throttled(now);
      case Success(now) => limiter.Succeeded(now);
    }
    Seqs.All(ops);
    forall i | 0 < i < |grants| ensures grants[i] - grants[i - 1] >= SECOND / s.maxRPS {
      GrantsAreSpaced(s, ops, start, i - 1, i);
    }
  }
}
