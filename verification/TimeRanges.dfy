/** How a roll-up cuts the life of an index into query ranges. */
module TimeRanges {
  import opened Documents

  const HOUR := 3_600_000
  const DAY := 86_400_000

  /** The half-open interval [start, end) in epoch milliseconds. */
  datatype TimeRange = TimeRange(start: int, end: int)

  ghost predicate Holds(r: TimeRange, t: int) {
    r.start <= t < r.end
  }

  /** alignToGranularBoundary: the UTC day for ranges of a day or more, the UTC hour otherwise. */
  function Align(t: int, duration: int): int {
    if duration >= DAY then FloorTo(t, DAY) else FloorTo(t, HOUR)
  }

  /** Ranges of equal length laid end to end from `start`; the last one is one millisecond longer. */
  ghost predicate Tiles(ranges: seq<TimeRange>, start: int, duration: int) {
    && duration > 0
    && |ranges| > 0
    && (forall i :: 0 <= i < |ranges| ==> ranges[i].start == start + i * duration)
    && (forall i :: 0 <= i < |ranges| - 1 ==> ranges[i].end == start + i * duration + duration)
    && ranges[|ranges| - 1].end == start + (|ranges| - 1) * duration + duration + 1
  }

  /** Everything a caller can rely on about the ranges of [minEpoch, maxEpoch]. */
  ghost predicate Splits(ranges: seq<TimeRange>, minEpoch: int, maxEpoch: int, duration: int) {
    && Tiles(ranges, Align(minEpoch, duration), duration)
    && Align(minEpoch, duration) <= minEpoch
    && maxEpoch < ranges[|ranges| - 1].end
    && (|ranges| > 1 ==> ranges[|ranges| - 1].start < maxEpoch)
  }

  method SplitByTimeRanges(minEpoch: int, maxEpoch: int, duration: int) returns (ranges: seq<TimeRange>)
    requires duration > 0
    ensures Splits(ranges, minEpoch, maxEpoch, duration)
  {
    var start := Align(minEpoch, duration);
    FloorIsMultiple(minEpoch, HOUR);
    FloorIsMultiple(minEpoch, DAY);
    if maxEpoch - start <= duration {
      return [TimeRange(start, start + duration + 1)];
    }
    ranges := [];
    var startOfRange := start;
    while startOfRange < maxEpoch
      invariant ranges == [] ==> startOfRange == start
      invariant ranges != [] ==> Chain(ranges, start, duration) && startOfRange == ranges[|ranges| - 1].end
      invariant ranges != [] ==> ranges[|ranges| - 1].start < maxEpoch
      decreases maxEpoch - startOfRange
    {
      var endOfRange := startOfRange + duration;
      ranges := ranges + [TimeRange(startOfRange, endOfRange)];
      startOfRange := endOfRange;
    }
    var last := |ranges| - 1;
    ChainTiles(ranges, start, duration);
    ranges := ranges[last := TimeRange(ranges[last].start, ranges[last].end + 1)];
  }

  /** Ranges of one length laid end to end. */
  ghost predicate Chain(ranges: seq<TimeRange>, start: int, duration: int) {
    && ranges != [] && ranges[0].start == start
    && (forall i :: 0 <= i < |ranges| ==> ranges[i].end == ranges[i].start + duration)
    && (forall i :: 0 < i < |ranges| ==> ranges[i].start == ranges[i - 1].end)
  }

  lemma {:induction false} ChainStart(ranges: seq<TimeRange>, start: int, duration: int, i: nat)
    requires Chain(ranges, start, duration) && i < |ranges|
    ensures ranges[i].start == start + i * duration
  {
    if i > 0 {
      ChainStart(ranges, start, duration, i - 1);
      assert (i - 1) * duration + duration == i * duration;
    }
  }

  lemma ChainTiles(ranges: seq<TimeRange>, start: int, duration: int)
    requires Chain(ranges, start, duration) && duration > 0
    ensures var last := |ranges| - 1;
            Tiles(ranges[last := TimeRange(ranges[last].start, ranges[last].end + 1)], start, duration)
  {
    forall i | 0 <= i < |ranges| ensures ranges[i].start == start + i * duration {
      ChainStart(ranges, start, duration, i);
    }
  }

  lemma TileOrder(ranges: seq<TimeRange>, start: int, duration: int, i: int, j: int)
    requires Tiles(ranges, start, duration) && 0 <= i < j < |ranges|
    ensures ranges[i].end <= ranges[j].start
  {
    MultipleGap(j, i, duration);
  }

  /** Disjoint and covering: every instant from the first start to the last end has exactly one range. */
  lemma ExactlyOneRange(ranges: seq<TimeRange>, start: int, duration: int, t: int)
    requires Tiles(ranges, start, duration)
    ensures (exists i :: 0 <= i < |ranges| && Holds(ranges[i], t)) <==> start <= t < ranges[|ranges| - 1].end
    ensures forall i, j :: 0 <= i < |ranges| && 0 <= j < |ranges| && Holds(ranges[i], t) && Holds(ranges[j], t) ==>
      i == j
  {
    hide Tiles;
    forall i, j | 0 <= i < j < |ranges| ensures ranges[i].end <= ranges[j].start {
      TileOrder(ranges, start, duration, i, j);
    }
    OuterTiles(ranges, start, duration);
    var last := |ranges| - 1;
    if start <= t < ranges[last].end {
      HasRange(ranges, start, duration, t);
    }
    if i :| 0 <= i < |ranges| && Holds(ranges[i], t) {
      assert i == 0 || ranges[0].end <= ranges[i].start;
      assert i == last || ranges[i].end <= ranges[last].start;
    }
  }

  lemma OuterTiles(ranges: seq<TimeRange>, start: int, duration: int)
    requires Tiles(ranges, start, duration)
    ensures |ranges| > 0 && ranges[0].start == start <= ranges[0].end
    ensures ranges[|ranges| - 1].start <= ranges[|ranges| - 1].end
  {
    assert 0 * duration == 0;
  }

  lemma QuotientBounds(t: int, duration: int)
    requires t >= 0 && duration > 0
    ensures t / duration >= 0 && (t / duration) * duration <= t < (t / duration) * duration + duration
  {
    assert t == (t / duration) * duration + t % duration;
  }

  lemma HasRange(ranges: seq<TimeRange>, start: int, duration: int, t: int)
    requires Tiles(ranges, start, duration) && start <= t < ranges[|ranges| - 1].end
    ensures exists i :: 0 <= i < |ranges| && Holds(ranges[i], t)
  {
    var n, q := |ranges|, (t - start) / duration;
    QuotientBounds(t - start, duration);
    MultipleGap(q, n - 1, duration);
    if q < n - 1 {
      assert ranges[q].start == start + q * duration;
      assert Holds(ranges[q], t);
    } else {
      assert ranges[n - 1].start == start + (n - 1) * duration;
      assert Holds(ranges[n - 1], t);
    }
  }

  /** Some histogram bucket of width `w` has instants in two different ranges. */
  ghost predicate SplitsABucket(ranges: seq<TimeRange>, w: int) {
    exists i, j, t, u ::
      0 <= i < j < |ranges| && Holds(ranges[i], t) && Holds(ranges[j], u) && FloorTo(t, w) == FloorTo(u, w)
  }

  /** Buckets stay whole exactly when every inner boundary is a multiple of the window. */
  lemma BucketsWholeIff(ranges: seq<TimeRange>, start: int, duration: int, w: int)
    requires Tiles(ranges, start, duration) && w > 0
    ensures !SplitsABucket(ranges, w) <==> forall i :: 1 <= i < |ranges| ==> ranges[i].start % w == 0
  {
    if forall i :: 1 <= i < |ranges| ==> ranges[i].start % w == 0 {
      forall i, j, t, u | 0 <= i < j < |ranges| && Holds(ranges[i], t) && Holds(ranges[j], u)
        ensures FloorTo(t, w) != FloorTo(u, w)
      {
        TileOrder(ranges, start, duration, i, j);
        FloorAbove(t, w, ranges[j].start);
        FloorAbove(u, w, ranges[j].start);
      }
    } else {
      var i :| 1 <= i < |ranges| && ranges[i].start % w != 0;
      var b := ranges[i].start;
      FloorIsMultiple(b, w);
      FloorUnique(b - 1, w, b / w);
      assert ranges[i - 1].end == b by { assert start + (i - 1) * duration + duration == start + i * duration; }
      assert Holds(ranges[i - 1], b - 1) && Holds(ranges[i], b);
    }
  }

  /** The window divides the range length and the boundary that range starts are aligned to. */
  predicate WindowFits(w: int, duration: int) {
    && w > 0 && duration > 0 && duration % w == 0
    && (if duration >= DAY then DAY % w == 0 else HOUR % w == 0)
  }

  lemma SumOfMultiples(a: int, b: int, w: int)
    requires w > 0 && a % w == 0 && b % w == 0
    ensures (a + b) % w == 0
  {
    assert a == (a / w) * w && b == (b / w) * w;
    assert a + b == (a / w + b / w) * w;
    MultipleMod(a / w + b / w, w);
  }

  lemma ProductOfMultiple(i: int, a: int, w: int)
    requires w > 0 && a % w == 0
    ensures (i * a) % w == 0
  {
    assert a == (a / w) * w;
    assert i * a == (i * (a / w)) * w;
    MultipleMod(i * (a / w), w);
  }

  lemma StartsAreMultiples(ranges: seq<TimeRange>, minEpoch: int, duration: int, w: int)
    requires Tiles(ranges, Align(minEpoch, duration), duration) && WindowFits(w, duration)
    ensures forall i :: 0 <= i < |ranges| ==> ranges[i].start % w == 0
  {
    var unit := if duration >= DAY then DAY else HOUR;
    FloorIsMultiple(minEpoch, unit);
    ProductOfMultiple(minEpoch / unit, unit, w);
    forall i | 0 <= i < |ranges| ensures ranges[i].start % w == 0 {
      ProductOfMultiple(i, duration, w);
      SumOfMultiples(Align(minEpoch, duration), i * duration, w);
    }
  }

  /** A document in a range has all of its bucket's in-reach instants in that range, bucket start included. */
  lemma BucketStaysInRange(ranges: seq<TimeRange>, minEpoch: int, maxEpoch: int, duration: int, w: int,
                           i: int, t: int, u: int)
    requires Splits(ranges, minEpoch, maxEpoch, duration) && WindowFits(w, duration)
    requires 0 <= i < |ranges| && Holds(ranges[i], t)
    requires FloorTo(t, w) == FloorTo(u, w) && minEpoch <= u <= maxEpoch
    ensures Holds(ranges[i], u) && Holds(ranges[i], FloorTo(t, w))
  {
    var start := Align(minEpoch, duration);
    StartsAreMultiples(ranges, minEpoch, duration, w);
    FloorIsMultiple(t, w);
    FloorIsMultiple(u, w);
    FloorAbove(t, w, ranges[i].start);
    if i < |ranges| - 1 {
      assert ranges[i + 1].start == ranges[i].end by {
        assert start + i * duration + duration == start + (i + 1) * duration;
      }
      FloorAbove(t, w, ranges[i + 1].start);
      FloorAbove(u, w, ranges[i + 1].start);
    }
  }
}
