/** The pages a roll-up reads and writes: settings, the buckets of a range, and the documents made from them. */
module PageRolls {
  import opened Documents
  import opened TimeRanges
  import opened Paging
  import opened RollUp
  import opened Validation
  import opened Cluster

  datatype RolloverConfig = RolloverConfig(
    aggBatchSize: int, aggQueryRange: int, validationRange: int, aggWindow: int,
    s3BackupEnabled: bool, deleteExistingRolledOverIndex: bool, skipValidation: bool, skipTenantIdValidation: bool)

  /** The orders in which the server pages composite buckets. */
  datatype Orders = Orders(keys: (Key, Key) -> bool, groups: (Group, Group) -> bool)

  ghost predicate ValidOrders(o: Orders) {
    StrictTotalOrder(o.keys) && StrictTotalOrder(o.groups) && BlankFirst(o.groups)
  }

  /** The settings under which a shared target is safe. */
  ghost predicate SafeConfig(cfg: RolloverConfig) {
    WindowFits(cfg.aggWindow, cfg.aggQueryRange) && !cfg.deleteExistingRolledOverIndex
  }

  predicate Positive(cfg: RolloverConfig) {
    cfg.aggQueryRange > 0 && cfg.validationRange > 0 && cfg.aggWindow > 0 && cfg.aggBatchSize > 0
  }

  ghost predicate Runs(plan: Plan, cfg: RolloverConfig) {
    WellPlanned(plan) && plan.window == cfg.aggWindow && plan.validates == !cfg.skipValidation
  }

  ghost predicate Wrote(s: State, target: string, src: string, keys: set<Key>) {
    forall k <- keys :: target in s.indices && Rolled(k, src) in s.indices[target]
  }

  ghost predicate Submap(part: Index, whole: Index) {
    forall id <- part :: id in whole && part[id] == whole[id]
  }

  // ----- building one page of rolled documents

  /** What the server answers for bucket `k` of the range, turned into the document to write. */
  ghost predicate RangeRoll(d: Doc, k: Key, ix: Index, w: int, r: TimeRange) {
    exists id :: id in ix && Holds(r, ix[id].ts) && KeyOf(ix[id], w) == k &&
      d == Stamp(ix[id], k, Total(ix, HasKeyIn(k, w, r.start, r.end)))
  }

  function RangeKeys(ix: Index, w: int, r: TimeRange): set<Key> {
    set id | id in ix && r.start <= ix[id].ts < r.end :: KeyOf(ix[id], w)
  }

  method BuildBatch(ix: Index, page: seq<Key>, w: int, r: TimeRange, src: string) returns (batch: Index)
    requires forall k <- page :: k in RangeKeys(ix, w, r)
    ensures forall id <- batch :: id.Rolled? && id.src == src && id.key in page
    ensures forall k <- page :: Rolled(k, src) in batch && RangeRoll(batch[Rolled(k, src)], k, ix, w, r)
  {
    hide Stamp, KeyOf, Total;
    batch := map[];
    for i := 0 to |page|
      invariant forall id <- batch :: id.Rolled? && id.src == src && id.key in page
      invariant forall j :: 0 <= j < i ==> Rolled(page[j], src) in batch
      invariant forall k :: Rolled(k, src) in batch ==> RangeRoll(batch[Rolled(k, src)], k, ix, w, r)
    {
      var k := page[i];
      assert k in page && k in RangeKeys(ix, w, r);
      var sample :| sample in ix && r.start <= ix[sample].ts < r.end && KeyOf(ix[sample], w) == k;
      var total := ComputeTotal(ix, HasKeyIn(k, w, r.start, r.end));
      batch := batch[Rolled(k, src) := Stamp(ix[sample], k, total)];
    }
  }

  /** A range that keeps its buckets whole yields the totals of the whole index. */
  lemma RangeTotalIsBucketTotal(ix: Index, k: Key, w: int, ranges: seq<TimeRange>, minVal: int, maxVal: int,
                                duration: int, i: int)
    requires Splits(ranges, minVal, maxVal, duration) && WindowFits(w, duration) && 0 <= i < |ranges|
    requires forall id <- ix :: minVal <= ix[id].ts <= maxVal
    requires k in RangeKeys(ix, w, ranges[i])
    ensures Total(ix, HasKeyIn(k, w, ranges[i].start, ranges[i].end)) == BucketTotal(ix, k, w)
  {
    hide Splits, WindowFits, KeyOf, FloorTo, Total;
    var r := ranges[i];
    var seen :| seen in ix && Holds(r, ix[seen].ts) && KeyOf(ix[seen], w) == k;
    forall id <- ix ensures HasKeyIn(k, w, r.start, r.end)(ix[id]) == HasKey(k, w)(ix[id]) {
      if KeyOf(ix[id], w) == k {
        KeyBucket(ix[seen], w);
        KeyBucket(ix[id], w);
        BucketStaysInRange(ranges, minVal, maxVal, duration, w, i, ix[seen].ts, ix[id].ts);
      }
    }
    TotalCongruent(ix, HasKeyIn(k, w, r.start, r.end), HasKey(k, w));
  }

  lemma BatchIsPart(ix: Index, batch: Index, src: string, w: int, ranges: seq<TimeRange>, minVal: int, maxVal: int,
                    duration: int, i: int, part: Index)
    requires Splits(ranges, minVal, maxVal, duration) && WindowFits(w, duration) && 0 <= i < |ranges|
    requires forall id <- ix :: minVal <= ix[id].ts <= maxVal
    requires forall k :: Rolled(k, src) in batch ==> RangeRoll(batch[Rolled(k, src)], k, ix, w, ranges[i])
    requires Submap(part, batch)
    ensures PartlyRolled(ix, src, w, part)
  {
    hide Splits, WindowFits, Stamp, KeyOf, Total;
    forall k | Rolled(k, src) in part ensures k in Keys(ix, w) && IsRoll(part[Rolled(k, src)], k, ix, w) {
      assert RangeRoll(batch[Rolled(k, src)], k, ix, w, ranges[i]);
      RangeTotalIsBucketTotal(ix, k, w, ranges, minVal, maxVal, duration, i);
    }
  }

  /** The earliest and the latest timestamp, or zeros for an empty index. */
  ghost predicate Extremes(ix: Index, minVal: int, maxVal: int) {
    && (forall id <- ix :: minVal <= ix[id].ts <= maxVal)
    && (ix == map[] ==> minVal == maxVal == 0)
    && (ix != map[] ==> (exists id <- ix :: ix[id].ts == minVal) && (exists id <- ix :: ix[id].ts == maxVal))
  }

  /** The ranges reach every document, so once all of them are written every bucket is. */
  lemma AllRangesWritten(s: State, src: string, ranges: seq<TimeRange>, minVal: int, maxVal: int, cfg: RolloverConfig,
                         plan: Plan)
    requires Runs(plan, cfg) && src in plan.frozen && Splits(ranges, minVal, maxVal, cfg.aggQueryRange)
    requires forall id <- plan.frozen[src] :: minVal <= plan.frozen[src][id].ts <= maxVal
    requires forall j :: 0 <= j < |ranges| ==>
      Wrote(s, plan.target[src], src, RangeKeys(plan.frozen[src], cfg.aggWindow, ranges[j]))
    ensures Written(s, plan, src)
  {
    hide KeyOf, FloorTo;
    var ix := plan.frozen[src];
    forall k <- Keys(ix, plan.window)
      ensures plan.target[src] in s.indices && Rolled(k, src) in s.indices[plan.target[src]]
    {
      var id :| id in ix && KeyOf(ix[id], plan.window) == k;
      ExactlyOneRange(ranges, Align(minVal, cfg.aggQueryRange), cfg.aggQueryRange, ix[id].ts);
      var j :| 0 <= j < |ranges| && Holds(ranges[j], ix[id].ts);
      assert k in RangeKeys(ix, cfg.aggWindow, ranges[j]);
    }
  }

  // ----- a window that does not fit

  lemma SameBucket(d: Doc, e: Doc, w: int)
    requires KeyOf(d, w) == KeyOf(e, w) && w > 0
    ensures FloorTo(d.ts, w) == FloorTo(e.ts, w) && FloorTo(d.ts, w) <= d.ts < FloorTo(d.ts, w) + w
  {
  }

  /**
   * Both neighbours of a boundary hold documents of the bucket, so with a window no longer than a range no other does.
   */
  lemma CutBucketIsHere(ix: Index, k: Key, w: int, ranges: seq<TimeRange>, start: int, duration: int, i: int, a: DocId,
                        b: DocId, id: DocId)
    requires Tiles(ranges, start, duration) && 0 <= i < |ranges| - 1 && 0 < w <= duration
    requires a in ix && KeyOf(ix[a], w) == k && Holds(ranges[i], ix[a].ts)
    requires b in ix && KeyOf(ix[b], w) == k && Holds(ranges[i + 1], ix[b].ts)
    requires id in ix && KeyOf(ix[id], w) == k
    ensures ranges[i].end == ranges[i + 1].start && (Holds(ranges[i], ix[id].ts) || Holds(ranges[i + 1], ix[id].ts))
  {
    hide KeyOf, FloorTo;
    TileOrder(ranges, start, duration, i, i + 1);
    assert ranges[i].start == start + i * duration && ranges[i].end == start + i * duration + duration;
    assert ranges[i + 1].start == start + (i + 1) * duration;
    assert (i + 1) * duration == i * duration + duration;
    assert ranges[i + 1].end >= ranges[i + 1].start + duration;
    SameBucket(ix[a], ix[b], w);
    SameBucket(ix[b], ix[id], w);
    SameBucket(ix[id], ix[a], w);
  }

  /**
   * In any tiling, a bucket cut by the boundary of two ranges is written twice under one id, by those two ranges
   * alone: the later half overwrites the earlier one, and exactly the earlier half is lost.
   */
  lemma CutBucketLosesHalf(ix: Index, k: Key, w: int, src: string, ranges: seq<TimeRange>, start: int, duration: int,
                           i: int, early: Doc, late: Doc)
    requires Tiles(ranges, start, duration) && 0 <= i < |ranges| - 1 && 0 < w <= duration
    requires RangeRoll(early, k, ix, w, ranges[i]) && RangeRoll(late, k, ix, w, ranges[i + 1])
    ensures forall j :: 0 <= j < |ranges| && k in RangeKeys(ix, w, ranges[j]) ==> j == i || j == i + 1
    ensures var target: Index := map[][Rolled(k, src) := early][Rolled(k, src) := late];
            target[Rolled(k, src)].counter + early.counter == BucketTotal(ix, k, w)
  {
    hide KeyOf, Total, Tiles;
    var first, second := HasKeyIn(k, w, ranges[i].start, ranges[i].end),
      HasKeyIn(k, w, ranges[i + 1].start, ranges[i + 1].end);
    var a :| a in ix && KeyOf(ix[a], w) == k && Holds(ranges[i], ix[a].ts);
    var b :| b in ix && KeyOf(ix[b], w) == k && Holds(ranges[i + 1], ix[b].ts);
    forall id | id in ix && KeyOf(ix[id], w) == k
      ensures ranges[i].end == ranges[i + 1].start && (Holds(ranges[i], ix[id].ts) || Holds(ranges[i + 1], ix[id].ts))
    {
      CutBucketIsHere(ix, k, w, ranges, start, duration, i, a, b, id);
    }
    assert ranges[i].end == ranges[i + 1].start by { assert KeyOf(ix[a], w) == k; }
    forall j | 0 <= j < |ranges| && k in RangeKeys(ix, w, ranges[j]) ensures j == i || j == i + 1 {
      var id :| id in ix && KeyOf(ix[id], w) == k && Holds(ranges[j], ix[id].ts);
      ExactlyOneRange(ranges, start, duration, ix[id].ts);
    }
    TotalOfDisjoint(ix, first, second, HasKey(k, w));
  }

  function LateDoc(ts: int, counter: int): Doc {
    Doc(Some("t"), Dims(Some("n"), Some("ns"), Some("s"), None, None, None, None, None, None), ts, counter)
  }

  lemma OneBucket(a: int, b: int)
    ensures KeyOf(LateDoc(HOUR - 1, a), 420_000) == KeyOf(LateDoc(HOUR + 1, b), 420_000)
  {
  }

  /** Seven-minute windows over hour ranges are such a case: of the counts a and b only b is kept. */
  lemma MisfitLosesCounts(a: int, b: int)
    ensures var ix := map[Raw(0) := LateDoc(HOUR - 1, a), Raw(1) := LateDoc(HOUR + 1, b)];
            var ranges, k := [TimeRange(0, HOUR), TimeRange(HOUR, 2 * HOUR + 1)], KeyOf(LateDoc(HOUR + 1, b), 420_000);
            && Splits(ranges, HOUR - 1, HOUR + 1, HOUR) && !WindowFits(420_000, HOUR)
            && RangeRoll(Stamp(ix[Raw(0)], k, a), k, ix, 420_000, ranges[0])
            && RangeRoll(Stamp(ix[Raw(1)], k, b), k, ix, 420_000, ranges[1])
            && BucketTotal(ix, k, 420_000) == a + b
  {
    hide Total, KeyOf, Stamp;
    var ix := map[Raw(0) := LateDoc(HOUR - 1, a), Raw(1) := LateDoc(HOUR + 1, b)];
    var ranges, k := [TimeRange(0, HOUR), TimeRange(HOUR, 2 * HOUR + 1)], KeyOf(LateDoc(HOUR + 1, b), 420_000);
    OneBucket(a, b);
    assert Raw(0) in ix && Holds(ranges[0], ix[Raw(0)].ts) && KeyOf(ix[Raw(0)], 420_000) == k;
    assert Raw(1) in ix && Holds(ranges[1], ix[Raw(1)].ts) && KeyOf(ix[Raw(1)], 420_000) == k;
    TotalOfOne(ix, HasKeyIn(k, 420_000, 0, HOUR), Raw(0));
    TotalOfOne(ix, HasKeyIn(k, 420_000, HOUR, 2 * HOUR + 1), Raw(1));
    CutBucketLosesHalf(ix, k, 420_000, "", ranges, 0, HOUR, 0, Stamp(ix[Raw(0)], k, a), Stamp(ix[Raw(1)], k, b)) by {
      assert Tiles(ranges, 0, HOUR);
    }
    StampCounter(ix[Raw(0)], k, a);
    StampCounter(ix[Raw(1)], k, b);
  }

  lemma StampCounter(sample: Doc, k: Key, total: int)
    ensures Stamp(sample, k, total).counter == total
  {
  }
}
