/** What acceptance by validation implies about the two indices, and exactly when a correct roll-up is accepted. */
module ValidationMeaning {
  import opened SetSums
  import opened Documents
  import opened TimeRanges
  import opened RollUp
  import opened Validation

  /** Nothing is hidden in this range: no blank-operator sum is overwritten by a missing-operator one. */
  ghost predicate Unmasked<I(!new)>(docs: map<I, Doc>, r: TimeRange, skipTenant: bool, g: Group) {
    g.operator == MISSING && g in Groups(docs, r, skipTenant) && Blank(g) in Groups(docs, r, skipTenant) ==>
      RawSum(docs, r, skipTenant, Blank(g)) == 0
  }

  /**
   * Two documents with the plain fields are counted together exactly when these, the tenant unless it is skipped,
   * and the operator are the same; a document without one of the fields is not counted.
   */
  lemma CountedTogetherIff(d: Doc, e: Doc, skipTenant: bool)
    ensures RawGroup(d, skipTenant).Some? <==>
            && d.dims.sourceId.Some? && d.dims.name.Some? && d.dims.namespace.Some? && (skipTenant || d.tenant.Some?)
    ensures RawGroup(d, skipTenant).Some? && RawGroup(e, skipTenant).Some? ==>
      (Collapse(RawGroup(d, skipTenant).value) == Collapse(RawGroup(e, skipTenant).value) <==>
        && d.dims.sourceId == e.dims.sourceId && d.dims.name == e.dims.name && d.dims.namespace == e.dims.namespace
        && (skipTenant || d.tenant == e.tenant) && SameOrMissing(d.dims.operatorId, e.dims.operatorId))
  {
  }

  lemma AbsentGroup<I(!new)>(docs: map<I, Doc>, r: TimeRange, skipTenant: bool, g: Group)
    requires g !in Groups(docs, r, skipTenant)
    ensures RawSum(docs, r, skipTenant, g) == 0
  {
    TotalOfNone(docs, RawIn(r, skipTenant, g));
  }

  lemma TrueSumOfRaw<I(!new)>(docs: map<I, Doc>, r: TimeRange, skipTenant: bool, g: Group)
    requires g.operator != ""
    ensures TrueSum(docs, r, skipTenant, g) ==
            RawSum(docs, r, skipTenant, g) + if g.operator == MISSING then RawSum(docs, r, skipTenant, Blank(g)) else 0
  {
    if g.operator == MISSING {
      TotalOfDisjoint(docs, RawIn(r, skipTenant, g), RawIn(r, skipTenant, Blank(g)), GroupIn(r, skipTenant, g));
    } else {
      TotalCongruent(docs, RawIn(r, skipTenant, g), GroupIn(r, skipTenant, g));
    }
  }

  /** The compared count is the true one exactly when nothing is masked. */
  lemma CountExactIff<I(!new)>(docs: map<I, Doc>, r: TimeRange, skipTenant: bool, g: Group)
    requires g in CountsOf(docs, r, skipTenant)
    ensures CountsOf(docs, r, skipTenant)[g] == TrueSum(docs, r, skipTenant, g) <==> Unmasked(docs, r, skipTenant, g)
  {
    var keys := Groups(docs, r, skipTenant);
    assert g.operator != "";
    TrueSumOfRaw(docs, r, skipTenant, g);
    if Blank(g) !in keys {
      AbsentGroup(docs, r, skipTenant, Blank(g));
    }
    if g !in keys {
      AbsentGroup(docs, r, skipTenant, g);
    }
  }

  lemma PresentIsCounted<I(!new)>(docs: map<I, Doc>, r: TimeRange, skipTenant: bool, id: I)
    requires id in docs && Holds(r, docs[id].ts) && RawGroup(docs[id], skipTenant).Some?
    ensures Collapse(RawGroup(docs[id], skipTenant).value) in CountsOf(docs, r, skipTenant)
  {
    var h := RawGroup(docs[id], skipTenant).value;
    assert h in Groups(docs, r, skipTenant);
    assert Collapse(h) in CollapseAll(Groups(docs, r, skipTenant));
  }

  lemma UncountedIsZero<I(!new)>(docs: map<I, Doc>, r: TimeRange, skipTenant: bool, g: Group)
    requires g.operator != "" && g !in CountsOf(docs, r, skipTenant)
    ensures TrueSum(docs, r, skipTenant, g) == 0
  {
    forall id <- docs ensures !GroupIn(r, skipTenant, g)(docs[id]) {
      if Holds(r, docs[id].ts) && RawGroup(docs[id], skipTenant).Some? {
        PresentIsCounted(docs, r, skipTenant, id);
      }
    }
    TotalOfNone(docs, GroupIn(r, skipTenant, g));
  }

  /** The blank-operator sum that the missing-operator one overwrites. */
  ghost function MaskedSum<I(!new)>(docs: map<I, Doc>, r: TimeRange, skipTenant: bool, g: Group): int {
    if g.operator == MISSING && g in Groups(docs, r, skipTenant) && Blank(g) in Groups(docs, r, skipTenant)
    then RawSum(docs, r, skipTenant, Blank(g)) else 0
  }

  lemma CountIsSumLessMasked<I(!new)>(docs: map<I, Doc>, r: TimeRange, skipTenant: bool, g: Group)
    requires g in CountsOf(docs, r, skipTenant)
    ensures g.operator != ""
    ensures CountsOf(docs, r, skipTenant)[g] == TrueSum(docs, r, skipTenant, g) - MaskedSum(docs, r, skipTenant, g)
  {
    hide RawGroup, TrueSum, RawSum;
    TrueSumOfRaw(docs, r, skipTenant, g);
    if Blank(g) !in Groups(docs, r, skipTenant) {
      AbsentGroup(docs, r, skipTenant, Blank(g));
    }
    if g !in Groups(docs, r, skipTenant) {
      AbsentGroup(docs, r, skipTenant, g);
    }
  }

  lemma UncountedMasksNothing<I(!new)>(docs: map<I, Doc>, r: TimeRange, skipTenant: bool, g: Group)
    requires g.operator != "" && g !in CountsOf(docs, r, skipTenant)
    ensures MaskedSum(docs, r, skipTenant, g) == 0
  {
    assert g in Groups(docs, r, skipTenant) ==> Collapse(g) in CollapseAll(Groups(docs, r, skipTenant));
  }

  lemma SameCountsSameSums<I(!new), J(!new)>(older: map<I, Doc>, newer: map<J, Doc>, r: TimeRange, skipTenant: bool,
                             g: Group)
    requires SameCounts(older, newer, r, skipTenant) && g.operator != ""
    requires Unmasked(older, r, skipTenant, g) && Unmasked(newer, r, skipTenant, g)
    ensures TrueSum(older, r, skipTenant, g) == TrueSum(newer, r, skipTenant, g)
  {
    if g in CountsOf(older, r, skipTenant) {
      CountExactIff(older, r, skipTenant, g);
      CountExactIff(newer, r, skipTenant, g);
    } else {
      UncountedIsZero(older, r, skipTenant, g);
      UncountedIsZero(newer, r, skipTenant, g);
    }
  }

  lemma TrueSumJoins<I(!new)>(docs: map<I, Doc>, lo: int, mid: int, hi: int, skipTenant: bool, g: Group)
    requires lo <= mid <= hi
    ensures TrueSum(docs, TimeRange(lo, hi), skipTenant, g) ==
            TrueSum(docs, TimeRange(lo, mid), skipTenant, g) + TrueSum(docs, TimeRange(mid, hi), skipTenant, g)
  {
    TotalOfDisjoint(docs, GroupIn(TimeRange(lo, mid), skipTenant, g), GroupIn(TimeRange(mid, hi), skipTenant, g),
                    GroupIn(TimeRange(lo, hi), skipTenant, g));
  }

  /** What is masked in the ranges together. */
  ghost function MaskedOver<I(!new)>(docs: map<I, Doc>, ranges: seq<TimeRange>, skipTenant: bool, g: Group): int {
    if ranges == [] then 0
    else
      var n := |ranges| - 1;
      MaskedOver(docs, ranges[..n], skipTenant, g) + MaskedSum(docs, ranges[n], skipTenant, g)
  }

  lemma SameCountsGap<I(!new), J(!new)>(older: map<I, Doc>, newer: map<J, Doc>, r: TimeRange, skipTenant: bool,
                        g: Group)
    requires SameCounts(older, newer, r, skipTenant) && g.operator != ""
    ensures TrueSum(older, r, skipTenant, g) - TrueSum(newer, r, skipTenant, g) ==
            MaskedSum(older, r, skipTenant, g) - MaskedSum(newer, r, skipTenant, g)
  {
    hide TrueSum, MaskedSum, CountsOf;
    if g in CountsOf(older, r, skipTenant) {
      CountIsSumLessMasked(older, r, skipTenant, g);
      CountIsSumLessMasked(newer, r, skipTenant, g);
    } else {
      UncountedIsZero(older, r, skipTenant, g);
      UncountedIsZero(newer, r, skipTenant, g);
      UncountedMasksNothing(older, r, skipTenant, g);
      UncountedMasksNothing(newer, r, skipTenant, g);
    }
  }

  /** The sums over the first ranges differ by what is masked in them. */
  lemma {:induction false} PrefixGap<I(!new), J(!new)>(older: map<I, Doc>, newer: map<J, Doc>, ranges: seq<TimeRange>,
                                                      start: int, duration: int, skipTenant: bool, g: Group, n: nat)
    requires Tiles(ranges, start, duration) && 1 <= n <= |ranges| && g.operator != ""
    requires forall i :: 0 <= i < n ==> SameCounts(older, newer, ranges[i], skipTenant)
    ensures var span := TimeRange(start, ranges[n - 1].end);
            TrueSum(older, span, skipTenant, g) - TrueSum(newer, span, skipTenant, g) ==
            MaskedOver(older, ranges[..n], skipTenant, g) - MaskedOver(newer, ranges[..n], skipTenant, g)
    decreases n
  {
    hide TrueSum, MaskedSum, SameCounts;
    assert ranges[..n][..n - 1] == ranges[..n - 1];
    SameCountsGap(older, newer, ranges[n - 1], skipTenant, g);
    if n == 1 {
      assert ranges[0] == TimeRange(start, ranges[0].end);
    } else {
      PrefixGap(older, newer, ranges, start, duration, skipTenant, g, n - 1);
      TileOrder(ranges, start, duration, n - 2, n - 1);
      assert start <= ranges[n - 1].start by { MultipleGap(n - 1, 0, duration); }
      assert ranges[n - 2].end == ranges[n - 1].start by { assert (n - 2) * duration + duration == (n - 1) * duration; }
      assert ranges[n - 1] == TimeRange(ranges[n - 1].start, ranges[n - 1].end);
      TrueSumJoins(older, start, ranges[n - 1].start, ranges[n - 1].end, skipTenant, g);
      TrueSumJoins(newer, start, ranges[n - 1].start, ranges[n - 1].end, skipTenant, g);
    }
  }

  /**
   * What acceptance means for a group: over the whole span the sums differ by exactly what the two sides mask, so
   * they are equal iff both sides mask the same in all ranges together.
   */
  lemma AcceptedSumsIff<I(!new), J(!new)>(older: map<I, Doc>, newer: map<J, Doc>, ranges: seq<TimeRange>,
                                          minVal: int, maxVal: int, duration: int, skipTenant: bool, g: Group)
    requires Splits(ranges, minVal, maxVal, duration) && Accepted(older, newer, ranges, minVal, skipTenant)
    requires g.operator != ""
    ensures var span := TimeRange(Align(minVal, duration), ranges[|ranges| - 1].end);
            && TrueSum(older, span, skipTenant, g) - TrueSum(newer, span, skipTenant, g) ==
               MaskedOver(older, ranges, skipTenant, g) - MaskedOver(newer, ranges, skipTenant, g)
            && (TrueSum(older, span, skipTenant, g) == TrueSum(newer, span, skipTenant, g) <==>
                MaskedOver(older, ranges, skipTenant, g) == MaskedOver(newer, ranges, skipTenant, g))
  {
    hide TrueSum, MaskedOver, SameCounts;
    PrefixGap(older, newer, ranges, Align(minVal, duration), duration, skipTenant, g, |ranges|);
    assert ranges[..|ranges|] == ranges;
  }

  lemma {:induction false} UnmaskedOver<I(!new)>(docs: map<I, Doc>, ranges: seq<TimeRange>, skipTenant: bool, g: Group)
    requires forall i :: 0 <= i < |ranges| ==> Unmasked(docs, ranges[i], skipTenant, g)
    ensures MaskedOver(docs, ranges, skipTenant, g) == 0
  {
    hide RawSum, Groups;
    if ranges != [] {
      UnmaskedOver(docs, ranges[..|ranges| - 1], skipTenant, g);
    }
  }

  /** In particular acceptance means equal sums over the whole span for every group that masks nothing. */
  lemma AcceptedIsSound<I(!new), J(!new)>(older: map<I, Doc>, newer: map<J, Doc>, ranges: seq<TimeRange>,
                                          minVal: int, maxVal: int, duration: int, skipTenant: bool, g: Group)
    requires Splits(ranges, minVal, maxVal, duration) && Accepted(older, newer, ranges, minVal, skipTenant)
    requires g.operator != ""
    requires forall i :: 0 <= i < |ranges| ==>
      Unmasked(older, ranges[i], skipTenant, g) && Unmasked(newer, ranges[i], skipTenant, g)
    ensures var span := TimeRange(Align(minVal, duration), ranges[|ranges| - 1].end);
            TrueSum(older, span, skipTenant, g) == TrueSum(newer, span, skipTenant, g)
  {
    hide TrueSum, Unmasked, Accepted;
    AcceptedSumsIff(older, newer, ranges, minVal, maxVal, duration, skipTenant, g);
    UnmaskedOver(older, ranges, skipTenant, g);
    UnmaskedOver(newer, ranges, skipTenant, g);
  }

  // ----- a masked blank operator

  function SampleDoc(operator: Option<string>, counter: int): Doc {
    Doc(Some("t"), Dims(Some("n"), Some("ns"), Some("s"), None, None, None, operator, None, None), 5, counter)
  }

  /** What splitByTimeRanges makes of an index whose only instant is 5, with ranges of an hour. */
  const FIRST_HOUR := TimeRange(0, HOUR + 1)

  const SAMPLE_GROUP := Group("t", "s", "n", "ns", MISSING)

  /** A document with a blank operator beside one without an operator. */
  function MaskedSource(blank: int, missing: int): Index {
    map[Raw(0) := SampleDoc(Some(""), blank), Raw(1) := SampleDoc(None, missing)]
  }

  function MissingKey(): Key {
    KeyOf(SampleDoc(None, 0), HOUR)
  }

  /** What the roll-up writes for the second document only. */
  function HalfTarget(missing: int): Index {
    map[Rolled(MissingKey(), "d") := Stamp(SampleDoc(None, missing), MissingKey(), missing)]
  }

  lemma MaskedGroups(blank: int, missing: int)
    ensures var keys := Groups(MaskedSource(blank, missing), FIRST_HOUR, false);
            SAMPLE_GROUP in keys && Blank(SAMPLE_GROUP) in keys && CollapseAll(keys) == {SAMPLE_GROUP}
  {
    var docs := MaskedSource(blank, missing);
    var keys := Groups(docs, FIRST_HOUR, false);
    assert Raw(1) in docs && RawGroup(docs[Raw(1)], false) == Some(SAMPLE_GROUP);
    assert Raw(0) in docs && RawGroup(docs[Raw(0)], false) == Some(Blank(SAMPLE_GROUP));
    assert SAMPLE_GROUP in keys && Collapse(SAMPLE_GROUP) == SAMPLE_GROUP;
    assert forall h <- keys :: h == SAMPLE_GROUP || h == Blank(SAMPLE_GROUP);
  }

  lemma MaskedView(blank: int, missing: int)
    ensures CountsOf(MaskedSource(blank, missing), FIRST_HOUR, false) == map[SAMPLE_GROUP := missing]
    ensures TrueSum(MaskedSource(blank, missing), FIRST_HOUR, false, SAMPLE_GROUP) == missing + blank
  {
    hide Groups, CollapseAll, Total;
    var docs, r := MaskedSource(blank, missing), FIRST_HOUR;
    MaskedGroups(blank, missing);
    assert Raw(1) in docs && Raw(0) in docs;
    TotalOfOne(docs, RawIn(r, false, SAMPLE_GROUP), Raw(1));
    TotalOfOne(docs, RawIn(r, false, Blank(SAMPLE_GROUP)), Raw(0));
    TrueSumOfRaw(docs, r, false, SAMPLE_GROUP);
  }

  lemma HalfGroups(missing: int)
    ensures Groups(HalfTarget(missing), FIRST_HOUR, false) == {SAMPLE_GROUP}
    ensures CollapseAll({SAMPLE_GROUP}) == {SAMPLE_GROUP}
  {
    hide Stamp;
    var docs, id := HalfTarget(missing), Rolled(MissingKey(), "d");
    HalfDoc(missing);
    assert id in docs && RawGroup(docs[id], false) == Some(SAMPLE_GROUP);
    assert Collapse(SAMPLE_GROUP) == SAMPLE_GROUP;
  }

  lemma HalfView(missing: int)
    ensures CountsOf(HalfTarget(missing), FIRST_HOUR, false) == map[SAMPLE_GROUP := missing]
    ensures TrueSum(HalfTarget(missing), FIRST_HOUR, false, SAMPLE_GROUP) == missing
  {
    hide Total, Groups, CollapseAll, Stamp;
    var docs, r, id := HalfTarget(missing), FIRST_HOUR, Rolled(MissingKey(), "d");
    HalfDoc(missing);
    HalfGroups(missing);
    assert id in docs && Collapse(SAMPLE_GROUP) == SAMPLE_GROUP;
    TotalOfOne(docs, RawIn(r, false, SAMPLE_GROUP), id);
    TotalOfOne(docs, GroupIn(r, false, SAMPLE_GROUP), id);
  }

  lemma HalfDoc(missing: int)
    ensures var d := Stamp(SampleDoc(None, missing), MissingKey(), missing);
            && d.ts == 0 && d.counter == missing && d.dims.operatorId == Some(MISSING)
            && RawGroup(d, false) == Some(SAMPLE_GROUP)
  {
    FloorUnique(5, HOUR, 0);
  }

  /** The half-written target is a part of the roll-up, and not all of it. */
  lemma HalfIsPart(blank: int, missing: int)
    ensures PartlyRolled(MaskedSource(blank, missing), "d", HOUR, HalfTarget(missing))
    ensures !RollsInto(MaskedSource(blank, missing), "d", HOUR, HalfTarget(missing))
  {
    hide Total;
    var ix, k := MaskedSource(blank, missing), MissingKey();
    assert Raw(1) in ix && KeyOf(ix[Raw(1)], HOUR) == k;
    assert Raw(0) in ix && KeyOf(ix[Raw(0)], HOUR).operatorId == "" && k.operatorId == MISSING;
    TotalOfOne(ix, HasKey(k, HOUR), Raw(1));
    assert IsRoll(Stamp(ix[Raw(1)], k, missing), k, ix, HOUR);
    assert KeyOf(ix[Raw(0)], HOUR) in Keys(ix, HOUR);
  }

  /**
   * Where the masked sums differ validation accepts a real loss: a target in which the bucket of the blank-operator
   * documents was never written is accepted, whatever their count.
   */
  lemma MaskedLossIsAccepted(blank: int, missing: int)
    ensures var older, newer := MaskedSource(blank, missing), HalfTarget(missing);
            && PartlyRolled(older, "d", HOUR, newer) && !RollsInto(older, "d", HOUR, newer)
            && Splits([FIRST_HOUR], 5, 5, HOUR) && Accepted(older, newer, [FIRST_HOUR], 5, false)
            && TrueSum(older, FIRST_HOUR, false, SAMPLE_GROUP) ==
               TrueSum(newer, FIRST_HOUR, false, SAMPLE_GROUP) + blank
  {
    hide TrueSum, CountsOf, RollsInto, PartlyRolled;
    var older, newer, ranges := MaskedSource(blank, missing), HalfTarget(missing), [FIRST_HOUR];
    HalfIsPart(blank, missing);
    MaskedView(blank, missing);
    HalfView(missing);
    FloorUnique(5, HOUR, 0);
    assert SAMPLE_GROUP in CountsOf(older, FIRST_HOUR, false);
    assert HasCounts(older, ranges[0], false) && SameCounts(older, newer, ranges[0], false);
  }

  // ----- a correct roll-up

  /** Every document carries the plain fields and, when tenants are compared, the same tenant. */
  ghost predicate Tagged(ix: Index, skipTenant: bool) {
    && (forall id <- ix :: RawGroup(ix[id], skipTenant).Some?)
    && (skipTenant || forall a, b :: a in ix && b in ix ==> ix[a].tenant == ix[b].tenant)
  }

  ghost predicate Within(ix: Index, minVal: int, maxVal: int) {
    forall id <- ix :: minVal <= ix[id].ts <= maxVal
  }

  ghost predicate OnlyFrom(target: Index, src: string, r: TimeRange) {
    forall id <- target :: Holds(r, target[id].ts) ==> id.Rolled? && id.src == src
  }

  lemma StampKeepsGroup(sample: Doc, d: Doc, w: int, total: int, skipTenant: bool)
    requires KeyOf(sample, w) == KeyOf(d, w)
    requires RawGroup(d, skipTenant).Some? && RawGroup(sample, skipTenant).Some?
    requires skipTenant || sample.tenant == d.tenant
    ensures RawGroup(Stamp(sample, KeyOf(d, w), total), skipTenant) == Some(Collapse(RawGroup(d, skipTenant).value))
  {
    assert KeyOf(sample, w).name == KeyOf(d, w).name && KeyOf(sample, w).namespace == KeyOf(d, w).namespace;
    assert KeyOf(sample, w).sourceId == KeyOf(d, w).sourceId;
  }

  /** A source document and its bucket's rolled document are in the same range and the same group. */
  lemma RolledDocAgrees(ix: Index, src: string, w: int, target: Index, ranges: seq<TimeRange>, minVal: int, maxVal: int,
                        duration: int, skipTenant: bool, i: int, id: DocId)
    requires Splits(ranges, minVal, maxVal, duration) && WindowFits(w, duration) && 0 <= i < |ranges|
    requires PartlyRolled(ix, src, w, target) && Tagged(ix, skipTenant) && Within(ix, minVal, maxVal)
    requires id in ix && Rolled(KeyOf(ix[id], w), src) in target
    ensures var d := target[Rolled(KeyOf(ix[id], w), src)];
            && (Holds(ranges[i], d.ts) <==> Holds(ranges[i], ix[id].ts))
            && RawGroup(d, skipTenant) == Some(Collapse(RawGroup(ix[id], skipTenant).value))
  {
    var k := KeyOf(ix[id], w);
    var d, t := target[Rolled(k, src)], ix[id].ts;
    var sid :| sid in ix && KeyOf(ix[sid], w) == k && d == Stamp(ix[sid], k, BucketTotal(ix, k, w));
    StampKeepsGroup(ix[sid], ix[id], w, BucketTotal(ix, k, w), skipTenant);
    assert d.ts == FloorTo(t, w);
    var start := Align(minVal, duration);
    ExactlyOneRange(ranges, start, duration, t);
    ExactlyOneRange(ranges, start, duration, FloorTo(t, w));
    var j :| 0 <= j < |ranges| && Holds(ranges[j], t);
    BucketStaysInRange(ranges, minVal, maxVal, duration, w, j, t, t);
  }

  lemma RollUpGroupSums(ix: Index, src: string, w: int, target: Index, ranges: seq<TimeRange>, minVal: int, maxVal: int,
                        duration: int, skipTenant: bool, i: int, g: Group)
    requires Splits(ranges, minVal, maxVal, duration) && WindowFits(w, duration) && 0 <= i < |ranges|
    requires RollsInto(ix, src, w, target) && Tagged(ix, skipTenant) && Within(ix, minVal, maxVal)
    ensures TrueSum(FromSource(target, src), ranges[i], skipTenant, g) == TrueSum(ix, ranges[i], skipTenant, g)
  {
    hide Total, Splits, WindowFits, Tagged, Within, RawGroup, Collapse;
    forall id | id in ix && Rolled(KeyOf(ix[id], w), src) in target
      ensures GroupIn(ranges[i], skipTenant, g)(target[Rolled(KeyOf(ix[id], w), src)]) ==
              GroupIn(ranges[i], skipTenant, g)(ix[id])
    {
      RolledDocAgrees(ix, src, w, target, ranges, minVal, maxVal, duration, skipTenant, i, id);
      CollapseTwice(ix, skipTenant, id);
    }
    Conservation(ix, src, w, target, GroupIn(ranges[i], skipTenant, g));
  }

  lemma CollapseTwice(ix: Index, skipTenant: bool, id: DocId)
    requires Tagged(ix, skipTenant) && id in ix
    ensures RawGroup(ix[id], skipTenant).Some?
    ensures var h := RawGroup(ix[id], skipTenant).value;
            Collapse(Collapse(h)) == Collapse(h) && Collapse(h).operator != ""
  {
  }

  /** Source and target show the same groups in a range, and the target has no blank operator. */
  lemma RollUpGroups(ix: Index, src: string, w: int, target: Index, ranges: seq<TimeRange>, minVal: int, maxVal: int,
                     duration: int, skipTenant: bool, i: int)
    requires Splits(ranges, minVal, maxVal, duration) && WindowFits(w, duration) && 0 <= i < |ranges|
    requires RollsInto(ix, src, w, target) && Tagged(ix, skipTenant) && Within(ix, minVal, maxVal)
    requires OnlyFrom(target, src, ranges[i])
    ensures Groups(target, ranges[i], skipTenant) == CollapseAll(Groups(ix, ranges[i], skipTenant))
  {
    hide Splits, WindowFits, Tagged, Within, RawGroup, Collapse, IsRoll, KeyOf;
    var r := ranges[i];
    forall id | id in ix && Holds(r, ix[id].ts)
      ensures RawGroup(ix[id], skipTenant).Some?
      ensures Collapse(RawGroup(ix[id], skipTenant).value) in Groups(target, r, skipTenant)
    {
      var rid := Rolled(KeyOf(ix[id], w), src);
      assert KeyOf(ix[id], w) in Keys(ix, w) && rid in target;
      CollapseTwice(ix, skipTenant, id);
      RolledDocAgrees(ix, src, w, target, ranges, minVal, maxVal, duration, skipTenant, i, id);
      assert Holds(r, target[rid].ts);
    }
    forall rid | rid in target && Holds(r, target[rid].ts) && RawGroup(target[rid], skipTenant).Some?
      ensures RawGroup(target[rid], skipTenant).value in CollapseAll(Groups(ix, r, skipTenant))
    {
      assert rid == Rolled(rid.key, src) && rid.key in Keys(ix, w);
      var id :| id in ix && KeyOf(ix[id], w) == rid.key;
      CollapseTwice(ix, skipTenant, id);
      RolledDocAgrees(ix, src, w, target, ranges, minVal, maxVal, duration, skipTenant, i, id);
      assert Holds(r, ix[id].ts);
      assert RawGroup(ix[id], skipTenant).value in Groups(ix, r, skipTenant);
    }
  }

  /** One range of a correct roll-up is accepted exactly when the source masks nothing in it. */
  lemma RangeAcceptedIff(ix: Index, src: string, w: int, target: Index, ranges: seq<TimeRange>, minVal: int,
                         maxVal: int, duration: int, skipTenant: bool, i: int)
    requires Splits(ranges, minVal, maxVal, duration) && WindowFits(w, duration) && 0 <= i < |ranges|
    requires RollsInto(ix, src, w, target) && Tagged(ix, skipTenant) && Within(ix, minVal, maxVal)
    requires OnlyFrom(target, src, ranges[i])
    ensures SameCounts(ix, target, ranges[i], skipTenant) <==> forall g :: Unmasked(ix, ranges[i], skipTenant, g)
  {
    hide Splits, WindowFits, Tagged, Within, RollsInto, RawGroup, TrueSum, OnlyFrom, RawSum, CountsOf, Unmasked, Groups;
    var r := ranges[i];
    RollUpGroups(ix, src, w, target, ranges, minVal, maxVal, duration, skipTenant, i);
    var older, newer := CountsOf(ix, r, skipTenant), CountsOf(target, r, skipTenant);
    SameDomain(ix, target, r, skipTenant);
    forall g <- older.Keys ensures older[g] == newer[g] <==> Unmasked(ix, r, skipTenant, g) {
      CountExactIff(ix, r, skipTenant, g);
      CountExactIff(target, r, skipTenant, g);
      OnlyFromSum(target, src, r, skipTenant, g);
      RollUpGroupSums(ix, src, w, target, ranges, minVal, maxVal, duration, skipTenant, i, g);
    }
  }

  /** A target without blank operators shows the source's groups and masks nothing itself. */
  lemma SameDomain(ix: Index, target: Index, r: TimeRange, skipTenant: bool)
    requires Groups(target, r, skipTenant) == CollapseAll(Groups(ix, r, skipTenant))
    ensures CountsOf(ix, r, skipTenant).Keys == CountsOf(target, r, skipTenant).Keys
    ensures forall g :: Unmasked(target, r, skipTenant, g)
    ensures forall g :: g !in CountsOf(ix, r, skipTenant) ==> Unmasked(ix, r, skipTenant, g)
  {
    hide RawSum, RawGroup;
    var keys := Groups(ix, r, skipTenant);
    assert forall h <- keys :: Collapse(h) in CollapseAll(keys) && Collapse(Collapse(h)) == Collapse(h);
    assert CollapseAll(CollapseAll(keys)) == CollapseAll(keys);
    forall g | g !in CollapseAll(keys) ensures Unmasked(ix, r, skipTenant, g) {
      assert g in keys ==> Collapse(g) in CollapseAll(keys);
    }
  }

  lemma OnlyFromSum(target: Index, src: string, r: TimeRange, skipTenant: bool, g: Group)
    requires OnlyFrom(target, src, r)
    ensures TrueSum(target, r, skipTenant, g) == TrueSum(FromSource(target, src), r, skipTenant, g)
  {
    TotalRestrict(target, FromSource(target, src), GroupIn(r, skipTenant, g));
  }

  /** Completeness, exactly: a correct roll-up alone in its ranges is accepted iff its source masks nothing. */
  lemma CorrectRollUpAcceptedIff(ix: Index, src: string, w: int, target: Index, ranges: seq<TimeRange>, minVal: int,
                                 maxVal: int, duration: int, skipTenant: bool)
    requires Splits(ranges, minVal, maxVal, duration) && WindowFits(w, duration)
    requires RollsInto(ix, src, w, target) && Tagged(ix, skipTenant) && Within(ix, minVal, maxVal)
    requires forall i :: 0 <= i < |ranges| ==> OnlyFrom(target, src, ranges[i])
    requires minVal > 0 ==> ix != map[]
    ensures Accepted(ix, target, ranges, minVal, skipTenant) <==>
            forall i, g :: 0 <= i < |ranges| ==> Unmasked(ix, ranges[i], skipTenant, g)
  {
    hide SameCounts, Unmasked, OnlyFrom, CountsOf;
    forall i | 0 <= i < |ranges|
      ensures SameCounts(ix, target, ranges[i], skipTenant) <==> forall g :: Unmasked(ix, ranges[i], skipTenant, g)
    {
      RangeAcceptedIff(ix, src, w, target, ranges, minVal, maxVal, duration, skipTenant, i);
    }
    if ix != map[] {
      SomeRangeCounts(ix, ranges, minVal, maxVal, duration, skipTenant);
    }
  }

  lemma SomeRangeCounts(ix: Index, ranges: seq<TimeRange>, minVal: int, maxVal: int, duration: int, skipTenant: bool)
    requires Splits(ranges, minVal, maxVal, duration) && Tagged(ix, skipTenant) && Within(ix, minVal, maxVal)
    requires ix != map[]
    ensures exists i :: 0 <= i < |ranges| && HasCounts(ix, ranges[i], skipTenant)
  {
    hide CountsOf;
    var id :| id in ix;
    ExactlyOneRange(ranges, Align(minVal, duration), duration, ix[id].ts);
    var i :| 0 <= i < |ranges| && Holds(ranges[i], ix[id].ts);
    PresentIsCounted(ix, ranges[i], skipTenant, id);
    assert HasCounts(ix, ranges[i], skipTenant);
  }

  // ----- other sources in a shared target

  ghost function Foreign(target: Index, src: string): Index {
    map id | id in target && !(id.Rolled? && id.src == src) :: target[id]
  }

  lemma TotalOfParts<I(!new)>(docs: map<I, Doc>, a: map<I, Doc>, b: map<I, Doc>, p: Doc -> bool)
    requires a.Keys !! b.Keys && docs == a + b
    ensures Total(docs, p) == Total(a, p) + Total(b, p)
  {
    SumAdd(docs.Keys, Weight(a, p), Weight(b, p), Weight(docs, p));
    SumSupport(docs.Keys, a.Keys, Weight(a, p), Weight(a, p));
    SumSupport(docs.Keys, b.Keys, Weight(b, p), Weight(b, p));
  }

  lemma ForeignSum(target: Index, src: string, r: TimeRange, skipTenant: bool, g: Group)
    ensures TrueSum(target, r, skipTenant, g) ==
            TrueSum(FromSource(target, src), r, skipTenant, g) + TrueSum(Foreign(target, src), r, skipTenant, g)
  {
    hide Total;
    assert target == FromSource(target, src) + Foreign(target, src);
    TotalOfParts(target, FromSource(target, src), Foreign(target, src), GroupIn(r, skipTenant, g));
  }

  /** Counts another source put into one of the ranges make validation refuse, however correct the roll-up. */
  lemma ForeignCountsBlock(ix: Index, src: string, w: int, target: Index, ranges: seq<TimeRange>, minVal: int,
                           maxVal: int, duration: int, skipTenant: bool, i: int, g: Group)
    requires Splits(ranges, minVal, maxVal, duration) && WindowFits(w, duration) && 0 <= i < |ranges|
    requires RollsInto(ix, src, w, target) && Tagged(ix, skipTenant) && Within(ix, minVal, maxVal)
    requires g.operator != "" && Unmasked(ix, ranges[i], skipTenant, g) && Unmasked(target, ranges[i], skipTenant, g)
    requires TrueSum(Foreign(target, src), ranges[i], skipTenant, g) != 0
    ensures !Accepted(ix, target, ranges, minVal, skipTenant)
  {
    hide TrueSum, Unmasked, SameCounts, Splits, WindowFits, RollsInto, Tagged, Within, FromSource, Foreign;
    ForeignSum(target, src, ranges[i], skipTenant, g);
    RollUpGroupSums(ix, src, w, target, ranges, minVal, maxVal, duration, skipTenant, i, g);
    if SameCounts(ix, target, ranges[i], skipTenant) {
      SameCountsSameSums(ix, target, ranges[i], skipTenant, g);
    }
  }

  ghost predicate OneDay(ix: Index, day: int) {
    day % DAY == 0 && ix != map[] && forall id <- ix :: day <= ix[id].ts < day + DAY
  }

  /** A one-day index is checked over that day and the first millisecond of the next. */
  lemma OneDayRanges(ranges: seq<TimeRange>, day: int, minVal: int, maxVal: int)
    requires day % DAY == 0 && day <= minVal <= maxVal < day + DAY && Splits(ranges, minVal, maxVal, DAY)
    ensures ranges == [TimeRange(day, day + DAY + 1)]
  {
    FloorUnique(minVal, DAY, day / DAY);
  }

  lemma DailyStamps(ix: Index, src: string, target: Index, day: int, id: DocId)
    requires OneDay(ix, day) && RollsInto(ix, src, DAY, target) && id in FromSource(target, src)
    ensures target[id].ts == day
  {
    hide IsRoll, PartlyRolled;
    FromSourceIds(ix, src, DAY, target, id);
    RolledTimestamp(ix, src, DAY, target, id.key);
    var sid :| sid in ix && KeyOf(ix[sid], DAY) == id.key;
    FloorUnique(ix[sid].ts, DAY, day / DAY);
  }

  /**
   * Days must be merged in ascending order: once the next day's counts sit in the shared target, the
   * earlier day's correct roll-up is refused on every attempt, because its last range reaches midnight.
   */
  lemma LaterDayBlocksEarlier(ix: Index, src: string, next: Index, nextSrc: string, target: Index,
                              ranges: seq<TimeRange>, day: int, minVal: int, maxVal: int, skipTenant: bool, g: Group)
    requires OneDay(ix, day) && OneDay(next, day + DAY) && src != nextSrc
    requires RollsInto(ix, src, DAY, target) && RollsInto(next, nextSrc, DAY, target)
    requires forall id <- target :: id.Rolled? && (id.src == src || id.src == nextSrc)
    requires Tagged(ix, skipTenant) && Tagged(next, skipTenant) && Within(ix, minVal, maxVal)
    requires day <= minVal <= maxVal < day + DAY && Splits(ranges, minVal, maxVal, DAY)
    requires g.operator != "" && Unmasked(ix, ranges[0], skipTenant, g) && Unmasked(target, ranges[0], skipTenant, g)
    requires TrueSum(next, TimeRange(day + DAY, day + 2 * DAY + 1), skipTenant, g) != 0
    ensures !Accepted(ix, target, ranges, minVal, skipTenant)
  {
    hide Tagged, RollsInto, Unmasked, Total, RawGroup;
    OneDayRanges(ranges, day, minVal, maxVal);
    var later := [TimeRange(day + DAY, day + 2 * DAY + 1)];
    FloorUnique(day + DAY, DAY, (day + DAY) / DAY);
    assert Tiles(later, day + DAY, DAY) && Splits(later, day + DAY, day + 2 * DAY - 1, DAY);
    RollUpGroupSums(next, nextSrc, DAY, target, later, day + DAY, day + 2 * DAY - 1, DAY, skipTenant, 0, g);
    assert Foreign(target, src) == FromSource(target, nextSrc);
    forall id <- FromSource(target, nextSrc)
      ensures GroupIn(ranges[0], skipTenant, g)(target[id]) == GroupIn(later[0], skipTenant, g)(target[id])
    {
      DailyStamps(next, nextSrc, target, day + DAY, id);
    }
    TotalCongruent(FromSource(target, nextSrc), GroupIn(ranges[0], skipTenant, g), GroupIn(later[0], skipTenant, g));
    ForeignCountsBlock(ix, src, DAY, target, ranges, minVal, maxVal, DAY, skipTenant, 0, g);
  }
}
