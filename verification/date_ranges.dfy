/** `splitDateRange` of cmd/collector/tasks.go. Times are minutes in one time zone without clock changes. */
module DateRanges {
  const DAY: int := 24 * 60

  datatype DateRange = DateRange(start: int, end: int)

  function Midnight(day: int): int {
    day * DAY
  }

  /** The last minute of the last day. */
  function Last(endDay: int): int {
    Midnight(endDay) + 23 * 60 + 59
  }

  function ChunkDays(chunkDays: int): (c: int)
    ensures c > 0
  {
    if chunkDays <= 0 then 365 else chunkDays
  }

  /** The first day of range `k`. */
  function First(startDay: int, c: int, k: nat): int {
    startDay + k * (c + 1)
  }

  lemma FirstGrows(startDay: int, c: int, j: nat, k: nat)
    requires c > 0 && j < k
    ensures First(startDay, c, j) + c < First(startDay, c, k)
  {
    Spread(k, j, c + 1);
  }

  lemma Spread(a: int, b: int, x: int)
    requires x > 0
    ensures (a - b) * x == a * x - b * x
    ensures a > b ==> a * x - b * x >= x
  {
    if a > b {
      Multiple(a - b, x);
    }
  }

  lemma Multiple(a: int, x: int)
    requires a >= 1 && x > 0
    ensures a * x >= x
  {
  }

  /** Range `k` starts `k` strides after the first and lasts `c` days, unless the interval ends before. */
  ghost predicate IsRange(r: DateRange, startDay: int, endDay: int, c: int, k: nat) {
    var first := First(startDay, c, k);
    && first <= endDay && r.start == first * 1440
    && r.end == if first + c > endDay then endDay * 1440 + 1439 else (first + c) * 1440
  }

  /** The ranges are `c + 1` days apart, each lasts `c` days, and the last one is cut off. */
  ghost predicate IsSplit(ranges: seq<DateRange>, startDay: int, endDay: int, c: int) {
    (forall k: nat :: k < |ranges| ==> IsRange(ranges[k], startDay, endDay, c, k)) && First(startDay, c, |ranges|) > endDay
  }

  method SplitDateRange(startDay: int, endDay: int, chunkDays: int) returns (ranges: seq<DateRange>)
    ensures IsSplit(ranges, startDay, endDay, if chunkDays > 0 then chunkDays else 365)
  {
    var c := ChunkDays(chunkDays);
    var cursor, last := Midnight(startDay), Last(endDay);
    ranges := [];
    while cursor < last
      invariant forall k: nat :: k < |ranges| ==> IsRange(ranges[k], startDay, endDay, c, k)
      invariant AtRange(cursor, startDay, endDay, c, |ranges|)
      decreases last - cursor
    {
      var next := cursor + c * DAY;
      NextRange(cursor, startDay, endDay, c, |ranges|);
      if next > last {
        next := last;
      }
      ranges := ranges + [DateRange(cursor, next)];
      cursor := next + DAY;
    }
  }

  /** The cursor stands at the start of range `k`, or past the end when there is none. */
  ghost predicate AtRange(cursor: int, startDay: int, endDay: int, c: int, k: nat) {
    var first := First(startDay, c, k);
    if first > endDay then cursor > Last(endDay) else cursor == Midnight(first)
  }

  lemma NextRange(cursor: int, startDay: int, endDay: int, c: int, k: nat)
    requires c > 0 && AtRange(cursor, startDay, endDay, c, k) && cursor < Last(endDay)
    ensures var next := if cursor + c * DAY > Last(endDay) then Last(endDay) else cursor + c * DAY;
            next >= cursor && IsRange(DateRange(cursor, next), startDay, endDay, c, k)
            && AtRange(next + DAY, startDay, endDay, c, k + 1)
  {
    assert First(startDay, c, k + 1) == First(startDay, c, k) + c + 1;
    Multiple(c, DAY);
  }

  ghost predicate Covers(r: DateRange, t: int) {
    r.start <= t <= r.end
  }

  ghost predicate Covered(ranges: seq<DateRange>, t: int) {
    exists k :: 0 <= k < |ranges| && Covers(ranges[k], t)
  }

  /** No instant is in two ranges. */
  lemma RangesDisjoint(ranges: seq<DateRange>, startDay: int, endDay: int, c: int, j: nat, k: nat, t: int)
    requires c > 0 && IsSplit(ranges, startDay, endDay, c) && j < k < |ranges|
    ensures !(Covers(ranges[j], t) && Covers(ranges[k], t))
  {
    FirstGrows(startDay, c, j, k);
  }

  /** An instant of the interval is covered exactly when it is not inside the day that every range leaves to the next. */
  lemma InstantCoveredIff(ranges: seq<DateRange>, startDay: int, endDay: int, c: int, t: int)
    requires c > 0 && IsSplit(ranges, startDay, endDay, c) && Midnight(startDay) <= t <= Last(endDay)
    ensures Covered(ranges, t) <==> (t - Midnight(startDay)) % ((c + 1) * DAY) <= c * DAY
  {
    var m, stride := t - Midnight(startDay), (c + 1) * DAY;
    if m % stride <= c * DAY {
      InsideRange(ranges, startDay, endDay, c, t);
    }
    if Covered(ranges, t) {
      var j :| 0 <= j < |ranges| && Covers(ranges[j], t);
      WithinSpan(startDay, c, j, t, ranges[j].end);
    }
  }

  lemma WithinSpan(startDay: int, c: int, j: nat, t: int, end: int)
    requires c > 0 && Midnight(First(startDay, c, j)) <= t <= end <= Midnight(First(startDay, c, j) + c)
    ensures (t - Midnight(startDay)) % ((c + 1) * DAY) <= c * DAY
  {
    StartOf(startDay, c, j);
    Quotient(t - Midnight(startDay), (c + 1) * DAY, j);
  }

  lemma InsideRange(ranges: seq<DateRange>, startDay: int, endDay: int, c: int, t: int)
    requires c > 0 && IsSplit(ranges, startDay, endDay, c) && Midnight(startDay) <= t <= Last(endDay)
    requires (t - Midnight(startDay)) % ((c + 1) * DAY) <= c * DAY
    ensures Covered(ranges, t)
  {
    var k := Position(startDay, c, t);
    Spread(k, |ranges|, c + 1);
    assert k < |ranges|;
    assert Covers(ranges[k], t);
  }

  /** The range that `t` would be in. */
  lemma Position(startDay: int, c: int, t: int) returns (k: nat)
    requires c > 0 && Midnight(startDay) <= t && (t - Midnight(startDay)) % ((c + 1) * DAY) <= c * DAY
    ensures Midnight(First(startDay, c, k)) <= t <= Midnight(First(startDay, c, k) + c)
  {
    var m, stride := t - Midnight(startDay), (c + 1) * DAY;
    k := m / stride;
    StartOf(startDay, c, k);
    assert m == k * stride + m % stride;
  }

  lemma StartOf(startDay: int, c: int, k: nat)
    ensures Midnight(First(startDay, c, k)) == Midnight(startDay) + k * ((c + 1) * DAY)
  {
  }

  lemma Quotient(m: int, stride: int, j: nat)
    requires stride > 0 && 0 <= m - j * stride < stride
    ensures m % stride == m - j * stride
  {
    var q := m / stride;
    assert m == q * stride + m % stride;
    Spread(q, j, stride);
    Spread(j, q, stride);
  }

  /** Every midnight, where daily candles are stamped, is covered. */
  lemma MidnightsCovered(ranges: seq<DateRange>, startDay: int, endDay: int, c: int, day: int)
    requires c > 0 && IsSplit(ranges, startDay, endDay, c) && startDay <= day <= endDay
    ensures Covered(ranges, Midnight(day))
  {
    InstantCoveredIff(ranges, startDay, endDay, c, Midnight(day));
    MidnightRemainder(day - startDay, c);
    assert Midnight(day) - Midnight(startDay) == (day - startDay) * DAY;
  }

  lemma MidnightRemainder(days: int, c: int)
    requires c > 0 && days >= 0
    ensures (days * DAY) % ((c + 1) * DAY) <= c * DAY
  {
    var k, r := days / (c + 1), days % (c + 1);
    WholeStrides(k, c + 1, r);
    Quotient(days * DAY, (c + 1) * DAY, k);
  }

  lemma WholeStrides(k: int, n: int, r: int)
    ensures (k * n + r) * DAY == k * (n * DAY) + r * DAY
  {
    assert (k * n) * DAY == k * (n * DAY);
  }

  /** All instants are covered exactly when one range holds all the days. */
  lemma AllInstantsCoveredIff(ranges: seq<DateRange>, startDay: int, endDay: int, c: int)
    requires c > 0 && IsSplit(ranges, startDay, endDay, c)
    ensures (forall t :: Midnight(startDay) <= t <= Last(endDay) ==> Covered(ranges, t)) <==> endDay - startDay < c
  {
    if endDay - startDay < c {
      forall t | Midnight(startDay) <= t <= Last(endDay) ensures Covered(ranges, t) {
        InstantCoveredIff(ranges, startDay, endDay, c, t);
        Quotient(t - Midnight(startDay), (c + 1) * DAY, 0);
      }
    } else {
      var t := Midnight(startDay) + c * DAY + 1;
      InstantCoveredIff(ranges, startDay, endDay, c, t);
      Quotient(t - Midnight(startDay), (c + 1) * DAY, 0);
    }
  }

  /** Days 1 to 10 in chunks of three: day 4 is covered at its midnight only. */
  lemma DayBetweenChunksMissing(ranges: seq<DateRange>)
    requires IsSplit(ranges, 1, 10, 3)
    ensures !Covered(ranges, Midnight(4) + 1) && Covered(ranges, Midnight(4)) && Covered(ranges, Midnight(5))
  {
    InstantCoveredIff(ranges, 1, 10, 3, Midnight(4) + 1);
    MidnightsCovered(ranges, 1, 10, 3, 4);
    MidnightsCovered(ranges, 1, 10, 3, 5);
  }
}
