/** The rolling-window limiter of internal/ratelimit/rolling.go.

    Time is an integer number of nanoseconds.  Every lock-held section of `Wait` reads the clock while
    it holds the mutex, so an interleaving of waiters is a non-decreasing sequence of clock readings.
    The limiter only remembers the grants it has not pruned; `Reference` remembers them all, and the
    two take the same decisions. */
module RollingLimiter {
  import Seqs


  /** How many entries of `s` lie in the closed interval [lo, hi]. */
  function CountWithin(s: seq<int>, lo: int, hi: int): nat {
    if s == [] then 0
    else CountWithin(s[..|s| - 1], lo, hi) + if lo <= s[|s| - 1] <= hi then 1 else 0
  }

  ghost predicate NonDecreasing(s: seq<int>) {
    forall i, j :: 0 <= i <= j < |s| ==> s[i] <= s[j]
  }

  /** The window ending at `now` already holds `max` of the grants `h`. */
  ghost predicate WindowFull(h: seq<int>, window: int, now: int, max: int) {
    CountWithin(h, now - window, now) >= max
  }

  /** The bound `NewRollingLimiter` installs. */
  function ClampMax(max: int): (m: int)
    ensures m >= 1 && m >= max
  {
    if max < 1 then 1 else max
  }

  /** The grants of a limiter that keeps its whole history and counts it at each clock reading. */
  ghost function Reference(max: int, window: int, clock: seq<int>): (grants: seq<int>) {
    if clock == [] then []
    else Decided(Reference(max, window, clock[..|clock| - 1]), window, clock[|clock| - 1], max)
  }

  /** The grants `before` and the one made at `now`, if there is room. */
  ghost function Decided(before: seq<int>, window: int, now: int, max: int): seq<int> {
    if WindowFull(before, window, now, max) then before else before + [now]
  }

  lemma {:induction false} CountNarrows(s: seq<int>, lo: int, hi: int, lo': int, hi': int)
    requires lo' <= lo
    requires forall i :: 0 <= i < |s| ==> s[i] <= hi'
    ensures CountWithin(s, lo, hi) <= CountWithin(s, lo', hi')
  {
    if s != [] {
      CountNarrows(s[..|s| - 1], lo, hi, lo', hi');
    }
  }

  lemma {:induction false} ReferenceFromClock(max: int, window: int, clock: seq<int>, now: int)
    requires forall i :: 0 <= i < |clock| ==> clock[i] <= now
    ensures forall i :: 0 <= i < |Reference(max, window, clock)| ==> Reference(max, window, clock)[i] <= now
  {
    if clock != [] {
      ReferenceFromClock(max, window, clock[..|clock| - 1], now);
    }
  }

  /** Over a whole run, no closed interval as long as the window holds more than `max` grants. */
  lemma {:induction false} WindowBound(max: int, window: int, clock: seq<int>, lo: int)
    requires max >= 0 && NonDecreasing(clock)
    ensures CountWithin(Reference(max, window, clock), lo, lo + window) <= max
  {
    if clock != [] {
      var earlier, now := clock[..|clock| - 1], clock[|clock| - 1];
      var before := Reference(max, window, earlier);
      WindowBound(max, window, earlier, lo);
      if !WindowFull(before, window, now, max) {
        Seqs.Snoc(before, before, now);
        ReferenceFromClock(max, window, earlier, now);
        if lo <= now <= lo + window {
          CountNarrows(before, lo, lo + window, now - window, now);
        }
      }
    }
  }

  /** `dropped` lies before the interval and `kept` inside it, so only `kept` is counted. */
  lemma {:induction false} CountSuffix(dropped: seq<int>, kept: seq<int>, lo: int, hi: int)
    requires forall i :: 0 <= i < |dropped| ==> dropped[i] < lo
    requires forall i :: 0 <= i < |kept| ==> lo <= kept[i] <= hi
    ensures CountWithin(dropped + kept, lo, hi) == |kept|
  {
    var s := dropped + kept;
    if kept != [] {
      assert s[..|s| - 1] == dropped + kept[..|kept| - 1];
      assert s[|s| - 1] == kept[|kept| - 1];
      CountSuffix(dropped, kept[..|kept| - 1], lo, hi);
    } else if dropped != [] {
      assert s == dropped;
      assert dropped[..|dropped| - 1] + [] == dropped[..|dropped| - 1];
      CountSuffix(dropped[..|dropped| - 1], [], lo, hi);
    }
  }

  class Limiter {
    const max: int
    const window: int
    var stamps: seq<int>
    ghost var history: seq<int>   // every grant so far
    ghost var clock: int          // a lower bound for the next clock reading

    ghost predicate Valid()
      reads this
    {
      && max >= 1
      && |stamps| <= max
      && |stamps| <= |history| && history[|history| - |stamps|..] == stamps
      && NonDecreasing(history)
      && (forall i :: 0 <= i < |history| ==> history[i] <= clock)
      && (forall i :: 0 <= i < |history| - |stamps| ==> history[i] < clock - window)
    }

    constructor (max: int, window: int, ghost start: int)
      ensures Valid() && history == [] && clock == start
      ensures this.max == ClampMax(max) && this.window == window
    {
      this.max := if max < 1 then 1 else max;
      this.window := window;
      stamps, history, clock := [], [], start;
    }

    method Prune(now: int)
      requires Valid() && clock <= now
      modifies this`stamps, this`clock
      ensures Valid() && clock == now
      ensures forall i :: 0 <= i < |stamps| ==> now - window <= stamps[i]
    {
      var cutoff := now - window;
      var idx := 0;
      while idx < |stamps| && stamps[idx] < cutoff
        invariant 0 <= idx <= |stamps|
        invariant forall i :: 0 <= i < idx ==> stamps[i] < cutoff
      {
        idx := idx + 1;
      }
      ghost var start := |history| - |stamps|;
      assert forall i :: 0 <= i < |stamps| ==> stamps[i] == history[start + i];
      forall i | 0 <= i < start + idx ensures history[i] < cutoff {
        if i >= start {
          assert history[i] == stamps[i - start];
        }
      }
      if idx > 0 {
        stamps := stamps[idx..];
      }
      clock := now;
    }

    method Record(now: int)
      requires Valid() && clock == now && |stamps| < max
      modifies this`stamps, this`history
      ensures Valid() && history == old(history) + [now]
    {
      stamps := stamps + [now];
      history := history + [now];
    }

    /** One lock-held section of `Wait`.  A refusal comes with the time to sleep: the window is full until the instant
        the sleeper wakes, that instant included, and at every later instant it is not. */
    method TryAcquire(now: int) returns (granted: bool, wait: int)
      requires Valid() && clock <= now
      modifies this`stamps, this`history, this`clock
      ensures Valid() && clock == now
      ensures granted <==> !WindowFull(old(history), window, now, max)
      ensures history == if granted then old(history) + [now] else old(history)
      ensures !granted ==> wait >= 0
      ensures !granted ==> forall mid :: now <= mid <= now + wait ==> WindowFull(history, window, mid, max)
      ensures !granted ==> forall later :: later > now + wait ==> !WindowFull(history, window, later, max)
    {
      Prune(now);
      KeptAreCounted(now);
      if |stamps| < max {
        granted, wait := true, 0;
        Record(now);
      } else {
        granted := false;
        wait := window - (now - stamps[0]);
        if wait < 0 {
          wait := 0;
        }
        forall mid | now <= mid <= now + wait ensures WindowFull(history, window, mid, max) {
          KeptAreCounted(mid);
        }
        forall later | later > now + wait ensures !WindowFull(history, window, later, max) {
          OldestLeaves(later);
        }
      }
    }

    lemma KeptAreCounted(now: int)
      requires Valid() && clock <= now
      requires forall i :: 0 <= i < |stamps| ==> now - window <= stamps[i]
      ensures CountWithin(history, now - window, now) == |stamps|
    {
      var dropped := history[..|history| - |stamps|];
      assert history == dropped + stamps;
      forall i | 0 <= i < |stamps| ensures stamps[i] <= now {
        assert stamps[i] == history[|dropped| + i];
      }
      CountSuffix(dropped, stamps, now - window, now);
    }

    lemma OldestLeaves(later: int)
      requires Valid() && |stamps| > 0 && later > stamps[0] + window && later >= clock
      ensures CountWithin(history, later - window, later) < |stamps|
    {
      var cut := |history| - |stamps| + 1;
      var gone, left := history[..cut], history[cut..];
      assert history == gone + left;
      assert stamps[0] == history[cut - 1];
      CountAtMost(gone, left, later - window, later);
    }
  }

  lemma {:induction false} CountAtMost(gone: seq<int>, left: seq<int>, lo: int, hi: int)
    requires forall i :: 0 <= i < |gone| ==> gone[i] < lo
    ensures CountWithin(gone + left, lo, hi) <= |left|
  {
    var s := gone + left;
    if left != [] {
      assert s[..|s| - 1] == gone + left[..|left| - 1];
      CountAtMost(gone, left[..|left| - 1], lo, hi);
    } else {
      assert s == gone + [];
      CountSuffix(gone, [], lo, hi);
    }
  }

  /** Any interleaving of waiters on one limiter takes exactly the reference decisions. */
  method RunWaiters(max: int, window: int, clock: seq<int>) returns (grants: seq<int>)
    requires NonDecreasing(clock)
    ensures grants == Reference(ClampMax(max), window, clock)
  {
    var limiter := new Limiter(max, window, if clock == [] then 0 else clock[0]);
    grants := [];
    for i := 0 to |clock|
      invariant limiter.Valid() && limiter.max == ClampMax(max) && limiter.window == window
      invariant i < |clock| ==> limiter.clock <= clock[i]
      invariant grants == limiter.history
      invariant grants == Reference(ClampMax(max), window, clock[..i])
    {
      ReferenceStep(ClampMax(max), window, clock, i);
      var granted, _ := limiter.TryAcquire(clock[i]);
      if granted {
        grants := grants + [clock[i]];
      }
    }
    Seqs.All(clock);
  }

  lemma ReferenceStep(max: int, window: int, clock: seq<int>, i: nat)
    requires i < |clock|
    ensures Reference(max, window, clock[..i + 1]) == Decided(Reference(max, window, clock[..i]), window, clock[i], max)
  {
    Seqs.Prefix(clock, i);
  }

  /** One grant in any ten nanoseconds: the waiter refused at 0 wakes at 10, is refused again and has to wait one more. */
  lemma RefusedOnWaking()
    ensures Reference(1, 10, [0] + [0] + [10] + [11]) == [0, 11]
  {
    ReferenceSnoc(1, 10, [], 0);
    ReferenceSnoc(1, 10, [0], 0);
    ReferenceSnoc(1, 10, [0] + [0], 10);
    ReferenceSnoc(1, 10, [0] + [0] + [10], 11);
    Seqs.FromStart([0]);
    assert [0][..0] == [];
    assert CountWithin([0], -10, 0) == 1 && CountWithin([0], 0, 10) == 1 && CountWithin([0], 1, 11) == 0;
  }

  lemma ReferenceSnoc(max: int, window: int, clock: seq<int>, now: int)
    ensures Reference(max, window, clock + [now]) == Decided(Reference(max, window, clock), window, now, max)
  {
    Seqs.Snoc(clock, clock, now);
  }
}
