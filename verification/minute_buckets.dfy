/** `bucketStartBT` of internal/backtest/strategy_backtest.go.  The zone has a fixed offset of `zone` whole minutes. */
module MinuteBuckets {
  import opened Market

  function BucketStart(ts: int, minutes: int, zone: int): int
    requires minutes >= 1
  {
    var local := ts / MINUTE + zone;              // minutes since the epoch, on the local clock
    (local - local % 60 % minutes - zone) * MINUTE
  }

  /** The bucket of an instant. */
  function Bucket(minutes: int, zone: int): int -> int
    requires minutes >= 1
  {
    ts => BucketStart(ts, minutes, zone)
  }

  function FloorTo(x: int, n: int): int
    requires n >= 1
  {
    x - x % n
  }

  lemma SmallMultiple(n: int, d: int)
    requires n >= 1 && -n < n * d < n
    ensures d == 0
  {
  }

  lemma DivisionUnique(x: int, n: int, q: int, r: int)
    requires n >= 1 && 0 <= r < n && x == n * q + r
    ensures x % n == r && FloorTo(x, n) == n * q
  {
    var p := x / n;
    assert n * (q - p) == x % n - r;
    SmallMultiple(n, q - p);
  }

  lemma FloorToMonotone(x: int, y: int, n: int)
    requires n >= 1 && x <= y
    ensures FloorTo(x, n) <= FloorTo(y, n)
  {
    var p, q := x / n, y / n;
    assert FloorTo(x, n) == n * p && FloorTo(y, n) == n * q;
    QuotientMonotone(x, y, n, p, q);
    Product(n, q - p);
    assert n * (q - p) == n * q - n * p;
  }

  lemma QuotientMonotone(x: int, y: int, n: int, p: int, q: int)
    requires n >= 1 && n * p <= x <= y < n * q + n
    ensures p <= q
  {
    NextMultiple(n, p, q);
  }

  lemma NextMultiple(n: int, p: int, q: int)
    requires n >= 1
    ensures p > q ==> n * p >= n * q + n
  {
    if p > q {
      Product(n, p - q - 1);
      assert n * (p - q - 1) == n * p - n * q - n;
    }
  }

  lemma Product(a: int, b: int)
    requires a >= 0 && b >= 0
    ensures a * b >= 0
  {
  }

  /** Rounding to multiples of `a` and then of `a·b` is rounding to multiples of `a·b`. */
  lemma FloorToCompose(x: int, a: int, b: int)
    requires a >= 1 && b >= 1 && a * b >= 1
    ensures FloorTo(FloorTo(x, a), a * b) == FloorTo(x, a * b)
  {
    var n := a * b;
    FloorOfMultiple(x, a, b, n);
    DivisionUnique(n * (x / n) + FloorTo(x % n, a), n, x / n, FloorTo(x % n, a));
    DivisionUnique(x, n, x / n, x % n);
  }

  /** Rounding to multiples of `a` leaves the multiples of `a·b` alone. */
  lemma FloorOfMultiple(x: int, a: int, b: int, n: int)
    requires a >= 1 && b >= 1 && n == a * b >= 1
    ensures FloorTo(x, a) == n * (x / n) + FloorTo(x % n, a)
    ensures 0 <= FloorTo(x % n, a) < n
  {
    var q, s := x / n, x % n;
    assert x == n * q + s;
    Regroup(a, b, q, s);
    DivisionUnique(x, a, b * q + s / a, s % a);
    FloorToMonotone(0, s, a);
    DivisionUnique(0, a, 0, 0);
  }

  lemma Regroup(a: int, b: int, q: int, s: int)
    requires a >= 1
    ensures a * b * q + s == a * (b * q + s / a) + s % a
    ensures a * (b * q + s / a) == a * b * q + (s - s % a)
  {
    assert a * (b * q + s / a) == a * (b * q) + a * (s / a);
    assert a * b * q == a * (b * q);
  }

  function MinuteFloor(local: int, minutes: int): int
    requires minutes >= 1
  {
    local - local % 60 + FloorTo(local % 60, minutes)
  }

  lemma BucketIsMinuteFloor(ts: int, minutes: int, zone: int)
    requires minutes >= 1
    ensures BucketStart(ts, minutes, zone) == (MinuteFloor(ts / MINUTE + zone, minutes) - zone) * MINUTE
  {
  }

  lemma MinuteFloorMonotone(x: int, y: int, minutes: int)
    requires minutes >= 1 && x <= y
    ensures MinuteFloor(x, minutes) <= MinuteFloor(y, minutes)
  {
    FloorToMonotone(0, x % 60, minutes);
    FloorToMonotone(0, y % 60, minutes);
    DivisionUnique(0, minutes, 0, 0);
    if x / 60 == y / 60 {
      FloorToMonotone(x % 60, y % 60, minutes);
    }
  }

  lemma BucketMonotone(s: int, t: int, minutes: int, zone: int)
    requires minutes >= 1 && s <= t
    ensures BucketStart(s, minutes, zone) <= BucketStart(t, minutes, zone)
  {
    BucketIsMinuteFloor(s, minutes, zone);
    BucketIsMinuteFloor(t, minutes, zone);
    MinuteFloorMonotone(s / MINUTE + zone, t / MINUTE + zone, minutes);
  }

  /** The bucket of an instant starts on a whole minute at or before it, a multiple of `minutes` into its local hour, and
      ends after it: `minutes` later or with the hour. */
  lemma BucketIs(ts: int, minutes: int, zone: int) returns (hour: int, part: nat)
    requires minutes >= 1
    ensures var start := (60 * hour + minutes * part - zone) * 60_000_000_000;
            && BucketStart(ts, minutes, zone) == start && minutes * part < 60
            && start <= ts < start + minutes * 60_000_000_000 && ts < (60 * (hour + 1) - zone) * 60_000_000_000
  {
    var local := ts / MINUTE + zone;
    hour, part := local / 60, local % 60 / minutes;
    BucketIsMinuteFloor(ts, minutes, zone);
    assert local % 60 == minutes * part + local % 60 % minutes;
    assert local == 60 * hour + minutes * part + local % 60 % minutes;
    WithinMinutes(ts, local - zone, local % 60 % minutes, minutes);
  }

  lemma WithinMinutes(ts: int, minute: int, past: int, minutes: int)
    requires minute == ts / MINUTE && 0 <= past < minutes
    ensures (minute - past) * MINUTE <= ts < (minute - past + minutes) * MINUTE && ts < (minute + 1) * MINUTE
  {
    assert (minute - past) * MINUTE == minute * MINUTE - past * MINUTE;
    assert (minute - past + minutes) * MINUTE == minute * MINUTE + (minutes - past) * MINUTE;
  }

  /** Bucketing twice is bucketing once: an a-minute bucket lies inside one a·b-minute bucket, even when
      neither divides the hour. */
  lemma BucketCompose(ts: int, a: int, b: int, zone: int)
    requires a >= 1 && b >= 1 && a * b >= 1
    ensures BucketStart(BucketStart(ts, a, zone), a * b, zone) == BucketStart(ts, a * b, zone)
  {
    var local := ts / MINUTE + zone;
    var r := local % 60;
    var r' := FloorTo(r, a);
    FloorToCompose(r, a, b);
    BucketIsMinuteFloor(ts, a, zone);
    BucketIsMinuteFloor(ts, a * b, zone);
    var ts' := BucketStart(ts, a, zone);
    BucketIsMinuteFloor(ts', a * b, zone);
    var local' := MinuteFloor(local, a);
    assert ts' == (local' - zone) * MINUTE;
    assert ts' / MINUTE + zone == local';
    FloorToMonotone(0, r, a);
    DivisionUnique(0, a, 0, 0);
    assert local' == 60 * (local / 60) + r';
    DivisionUnique(local', 60, local / 60, r');
  }
}
