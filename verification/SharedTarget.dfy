/** When a correct roll-up is accepted in a target that other sources share. */
module SharedTarget {
  import opened Documents
  import opened TimeRanges
  import opened RollUp
  import opened Validation
  import opened ValidationMeaning

  /** Rolled documents never have a blank operator; a target holds only such documents. */
  ghost predicate NoBlanks<I>(docs: map<I, Doc>) {
    forall id <- docs :: docs[id].dims.operatorId != Some("")
  }

  lemma NoBlankMasksNothing<I(!new)>(docs: map<I, Doc>, r: TimeRange, skipTenant: bool, g: Group)
    requires NoBlanks(docs)
    ensures MaskedSum(docs, r, skipTenant, g) == 0 && Unmasked(docs, r, skipTenant, g)
  {
  }

  // ----- the groups of a shared target

  lemma GroupsSplit(target: Index, src: string, r: TimeRange, skipTenant: bool)
    ensures Groups(target, r, skipTenant) ==
            Groups(FromSource(target, src), r, skipTenant) + Groups(Foreign(target, src), r, skipTenant)
  {
    hide RawGroup;
    var own, foreign := FromSource(target, src), Foreign(target, src);
    assert forall id <- target :: (id in own && own[id] == target[id]) || (id in foreign && foreign[id] == target[id]);
  }

  lemma OwnPart(ix: Index, src: string, w: int, target: Index)
    requires RollsInto(ix, src, w, target)
    ensures RollsInto(ix, src, w, FromSource(target, src))
    ensures FromSource(FromSource(target, src), src) == FromSource(target, src)
    ensures forall r :: OnlyFrom(FromSource(target, src), src, r)
  {
    hide IsRoll, Keys;
  }

  lemma CollapseUnion(a: set<Group>, b: set<Group>)
    ensures CollapseAll(a + b) == CollapseAll(a) + CollapseAll(b) && CollapseAll(CollapseAll(a)) == CollapseAll(a)
  {
    assert forall h <- a :: Collapse(h) in CollapseAll(a) && Collapse(Collapse(h)) == Collapse(h);
  }

  /** The target shows the source's groups and those of the foreign documents. */
  lemma SharedDomain(ix: Index, src: string, w: int, target: Index, ranges: seq<TimeRange>, minVal: int, maxVal: int,
                     duration: int, skipTenant: bool, i: int)
    requires Splits(ranges, minVal, maxVal, duration) && WindowFits(w, duration) && 0 <= i < |ranges|
    requires RollsInto(ix, src, w, target) && Tagged(ix, skipTenant) && Within(ix, minVal, maxVal)
    ensures CountsOf(target, ranges[i], skipTenant).Keys ==
            CountsOf(ix, ranges[i], skipTenant).Keys + CountsOf(Foreign(target, src), ranges[i], skipTenant).Keys
  {
    hide Splits, WindowFits, Tagged, Within, RollsInto, Groups, FromSource, Foreign, CollapseAll, OnlyFrom;
    var r, own := ranges[i], FromSource(target, src);
    OwnPart(ix, src, w, target);
    RollUpGroups(ix, src, w, own, ranges, minVal, maxVal, duration, skipTenant, i);
    GroupsSplit(target, src, r, skipTenant);
    CollapseUnion(Groups(own, r, skipTenant), Groups(Foreign(target, src), r, skipTenant));
    CollapseUnion(Groups(ix, r, skipTenant), {});
  }

  // ----- the exact condition

  /** What other sources put into the range cancels against what is masked, and adds no group of its own. */
  ghost predicate Balanced(ix: Index, src: string, target: Index, r: TimeRange, skipTenant: bool, g: Group) {
    && TrueSum(Foreign(target, src), r, skipTenant, g) + MaskedSum(ix, r, skipTenant, g) == 0
    && (g in CountsOf(Foreign(target, src), r, skipTenant) ==> g in CountsOf(ix, r, skipTenant))
  }

  lemma GroupBalancedIff(ix: Index, src: string, w: int, target: Index, ranges: seq<TimeRange>, minVal: int,
                         maxVal: int, duration: int, skipTenant: bool, i: int, g: Group)
    requires Splits(ranges, minVal, maxVal, duration) && WindowFits(w, duration) && 0 <= i < |ranges|
    requires RollsInto(ix, src, w, target) && Tagged(ix, skipTenant) && Within(ix, minVal, maxVal) && NoBlanks(target)
    ensures var older, newer := CountsOf(ix, ranges[i], skipTenant), CountsOf(target, ranges[i], skipTenant);
            && (g in older ==>
                  g in newer && (older[g] == newer[g] <==> Balanced(ix, src, target, ranges[i], skipTenant, g)))
            && (g !in older && g.operator != "" ==>
                  (g !in newer <==> Balanced(ix, src, target, ranges[i], skipTenant, g)))
  {
    hide Splits, WindowFits, Tagged, Within, RollsInto, TrueSum, MaskedSum, CountsOf, Foreign, FromSource, NoBlanks;
    var r := ranges[i];
    SharedDomain(ix, src, w, target, ranges, minVal, maxVal, duration, skipTenant, i);
    if g in CountsOf(ix, r, skipTenant) {
      CountIsSumLessMasked(ix, r, skipTenant, g);
      CountIsSumLessMasked(target, r, skipTenant, g);
      NoBlankMasksNothing(target, r, skipTenant, g);
      ForeignSum(target, src, r, skipTenant, g);
      RollUpGroupSums(ix, src, w, target, ranges, minVal, maxVal, duration, skipTenant, i, g);
    } else if g.operator != "" {
      UncountedMasksNothing(ix, r, skipTenant, g);
      if g !in CountsOf(Foreign(target, src), r, skipTenant) {
        UncountedIsZero(Foreign(target, src), r, skipTenant, g);
      }
    }
  }

  lemma CountedOperator<I(!new)>(docs: map<I, Doc>, r: TimeRange, skipTenant: bool)
    ensures forall g <- CountsOf(docs, r, skipTenant) :: g.operator != ""
  {
  }

  lemma SharedRangeIff(ix: Index, src: string, w: int, target: Index, ranges: seq<TimeRange>, minVal: int, maxVal: int,
                       duration: int, skipTenant: bool, i: int)
    requires Splits(ranges, minVal, maxVal, duration) && WindowFits(w, duration) && 0 <= i < |ranges|
    requires RollsInto(ix, src, w, target) && Tagged(ix, skipTenant) && Within(ix, minVal, maxVal) && NoBlanks(target)
    ensures SameCounts(ix, target, ranges[i], skipTenant) <==>
            forall g: Group :: g.operator != "" ==> Balanced(ix, src, target, ranges[i], skipTenant, g)
  {
    hide Splits, WindowFits, Tagged, Within, RollsInto, CountsOf, Balanced, NoBlanks;
    var older, newer := CountsOf(ix, ranges[i], skipTenant), CountsOf(target, ranges[i], skipTenant);
    CountedOperator(ix, ranges[i], skipTenant);
    CountedOperator(target, ranges[i], skipTenant);
    forall g: Group
      ensures g in older ==>
        g in newer && (older[g] == newer[g] <==> Balanced(ix, src, target, ranges[i], skipTenant, g))
      ensures g !in older && g.operator != "" ==> (g !in newer <==> Balanced(ix, src, target, ranges[i], skipTenant, g))
    {
      GroupBalancedIff(ix, src, w, target, ranges, minVal, maxVal, duration, skipTenant, i, g);
    }
    if forall g: Group :: g.operator != "" ==> Balanced(ix, src, target, ranges[i], skipTenant, g) {
      assert forall g <- older :: older[g] == newer[g];
      assert older.Keys == newer.Keys;
    }
  }

  /** A correct roll-up in a shared target is accepted exactly when every range is balanced for every group. */
  lemma SharedTargetAcceptedIff(ix: Index, src: string, w: int, target: Index, ranges: seq<TimeRange>, minVal: int,
                                maxVal: int, duration: int, skipTenant: bool)
    requires Splits(ranges, minVal, maxVal, duration) && WindowFits(w, duration)
    requires RollsInto(ix, src, w, target) && Tagged(ix, skipTenant) && Within(ix, minVal, maxVal) && NoBlanks(target)
    requires minVal > 0 ==> ix != map[]
    ensures Accepted(ix, target, ranges, minVal, skipTenant) <==>
            forall i, g: Group :: 0 <= i < |ranges| && g.operator != "" ==>
              Balanced(ix, src, target, ranges[i], skipTenant, g)
  {
    hide SameCounts, CountsOf, Balanced, NoBlanks, RollsInto, Tagged;
    forall i | 0 <= i < |ranges|
      ensures SameCounts(ix, target, ranges[i], skipTenant) <==>
              forall g: Group :: g.operator != "" ==> Balanced(ix, src, target, ranges[i], skipTenant, g)
    {
      SharedRangeIff(ix, src, w, target, ranges, minVal, maxVal, duration, skipTenant, i);
    }
    if ix != map[] {
      SomeRangeCounts(ix, ranges, minVal, maxVal, duration, skipTenant);
    }
  }

  // ----- a witness: two neighbouring days

  function DayDoc(ts: int, counter: int): Doc {
    Doc(Some("t"), Dims(Some("n"), Some("ns"), Some("s"), None, None, None, Some("o"), None, None), ts, counter)
  }

  function RolledDay(ts: int, counter: int): Doc {
    Stamp(DayDoc(ts, counter), KeyOf(DayDoc(ts, counter), DAY), counter)
  }

  function DayId(ts: int, counter: int, src: string): DocId {
    Rolled(KeyOf(DayDoc(ts, counter), DAY), src)
  }

  /** One document is rolled into one document. */
  lemma OneDocRollsInto(ts: int, counter: int, src: string, target: Index)
    requires DayId(ts, counter, src) in target && target[DayId(ts, counter, src)] == RolledDay(ts, counter)
    requires forall id <- target :: id.Rolled? && (id.src == src ==> id == DayId(ts, counter, src))
    ensures RollsInto(map[Raw(0) := DayDoc(ts, counter)], src, DAY, target)
  {
    var d := DayDoc(ts, counter);
    var ix, k := map[Raw(0) := d], KeyOf(d, DAY);
    TotalOfOne(ix, HasKey(k, DAY), Raw(0));
    assert Raw(0) in ix && KeyOf(ix[Raw(0)], DAY) == k;
    assert IsRoll(RolledDay(ts, counter), k, ix, DAY);
  }

  lemma DayIsTagged(ts: int, counter: int)
    ensures Tagged(map[Raw(0) := DayDoc(ts, counter)], false) && NoBlanks(map[Raw(0) := DayDoc(ts, counter)])
  {
  }

  /**
   * For any two neighbouring days: in ascending order both are accepted, and with the later day already in the
   * target the earlier day's correct roll-up is refused.
   */
  lemma TwoDayWitness(a: int, b: int)
    requires b != 0
    ensures var one, two := map[Raw(0) := DayDoc(DAY + 5, a)], map[Raw(0) := DayDoc(2 * DAY + 7, b)];
            var first := map[DayId(DAY + 5, a, "d1") := RolledDay(DAY + 5, a)];
            var both := first[DayId(2 * DAY + 7, b, "d2") := RolledDay(2 * DAY + 7, b)];
            && RollsInto(one, "d1", DAY, first) && RollsInto(one, "d1", DAY, both) && RollsInto(two, "d2", DAY, both)
            && Splits([TimeRange(DAY, 2 * DAY + 1)], DAY + 5, DAY + 5, DAY)
            && Splits([TimeRange(2 * DAY, 3 * DAY + 1)], 2 * DAY + 7, 2 * DAY + 7, DAY)
            && Accepted(one, first, [TimeRange(DAY, 2 * DAY + 1)], DAY + 5, false)
            && Accepted(two, both, [TimeRange(2 * DAY, 3 * DAY + 1)], 2 * DAY + 7, false)
            && !Accepted(one, both, [TimeRange(DAY, 2 * DAY + 1)], DAY + 5, false)
  {
    hide RollsInto, Accepted, Tagged, NoBlanks, OnlyFrom, KeyOf, Unmasked, TrueSum;
    var one, two := map[Raw(0) := DayDoc(DAY + 5, a)], map[Raw(0) := DayDoc(2 * DAY + 7, b)];
    var first := map[DayId(DAY + 5, a, "d1") := RolledDay(DAY + 5, a)];
    var both := first[DayId(2 * DAY + 7, b, "d2") := RolledDay(2 * DAY + 7, b)];
    OneDocRollsInto(DAY + 5, a, "d1", first);
    OneDocRollsInto(DAY + 5, a, "d1", both);
    OneDocRollsInto(2 * DAY + 7, b, "d2", both);
    OneRange(DAY, DAY + 5);
    OneRange(2 * DAY, 2 * DAY + 7);
    RolledAtMidnight(DAY, DAY + 5, a);
    AscendingAccepted(DAY + 5, a, "d1", first, DAY);
    AscendingAccepted(2 * DAY + 7, b, "d2", both, 2 * DAY);
    LaterFirstRefused(a, b, both);
  }

  lemma OneRange(day: int, ts: int)
    requires day % DAY == 0 && day <= ts < day + DAY
    ensures Splits([TimeRange(day, day + DAY + 1)], ts, ts, DAY)
  {
    FloorUnique(ts, DAY, day / DAY);
  }

  lemma RolledAtMidnight(day: int, ts: int, counter: int)
    requires day % DAY == 0 && day <= ts < day + DAY
    ensures RolledDay(ts, counter).ts == day && RolledDay(ts, counter).dims.operatorId == Some("o")
  {
    FloorUnique(ts, DAY, day / DAY);
  }

  lemma AscendingAccepted(ts: int, counter: int, src: string, target: Index, day: int)
    requires day % DAY == 0 && day <= ts < day + DAY && day > 0
    requires RollsInto(map[Raw(0) := DayDoc(ts, counter)], src, DAY, target)
    requires forall id <- target :: id.Rolled? && (id.src == src || target[id].ts < day)
    ensures Accepted(map[Raw(0) := DayDoc(ts, counter)], target, [TimeRange(day, day + DAY + 1)], ts, false)
  {
    hide RollsInto, Accepted, Tagged, NoBlanks, Unmasked;
    var ix, ranges := map[Raw(0) := DayDoc(ts, counter)], [TimeRange(day, day + DAY + 1)];
    DayIsTagged(ts, counter);
    OneRange(day, ts);
    forall i, g | 0 <= i < |ranges| ensures Unmasked(ix, ranges[i], false, g) {
      NoBlankMasksNothing(ix, ranges[i], false, g);
    }
    assert Raw(0) in ix;
    CorrectRollUpAcceptedIff(ix, src, DAY, target, ranges, ts, ts, DAY, false);
  }

  lemma LaterFirstRefused(a: int, b: int, both: Index)
    requires b != 0
    requires both ==
             map[DayId(DAY + 5, a, "d1") := RolledDay(DAY + 5, a),
                 DayId(2 * DAY + 7, b, "d2") := RolledDay(2 * DAY + 7, b)]
    requires RollsInto(map[Raw(0) := DayDoc(DAY + 5, a)], "d1", DAY, both)
    requires RollsInto(map[Raw(0) := DayDoc(2 * DAY + 7, b)], "d2", DAY, both)
    ensures !Accepted(map[Raw(0) := DayDoc(DAY + 5, a)], both, [TimeRange(DAY, 2 * DAY + 1)], DAY + 5, false)
  {
    hide RollsInto, Accepted, Tagged, NoBlanks, Unmasked, Total, KeyOf;
    var one, two := map[Raw(0) := DayDoc(DAY + 5, a)], map[Raw(0) := DayDoc(2 * DAY + 7, b)];
    var g, ranges, later := Group("t", "s", "n", "ns", "o"), [TimeRange(DAY, 2 * DAY + 1)],
      TimeRange(DAY + DAY, DAY + 2 * DAY + 1);
    DayIsTagged(DAY + 5, a);
    DayIsTagged(2 * DAY + 7, b);
    OneRange(DAY, DAY + 5);
    NoBlankMasksNothing(one, ranges[0], false, g);
    assert NoBlanks(both) by { BothNoBlanks(a, b, both); }
    NoBlankMasksNothing(both, ranges[0], false, g);
    assert GroupIn(later, false, g)(two[Raw(0)]);
    TotalOfOne(two, GroupIn(later, false, g), Raw(0));
    assert Raw(0) in one && Raw(0) in two;
    LaterDayBlocksEarlier(one, "d1", two, "d2", both, ranges, DAY, DAY + 5, DAY + 5, false, g);
  }

  lemma BothNoBlanks(a: int, b: int, both: Index)
    requires both ==
             map[DayId(DAY + 5, a, "d1") := RolledDay(DAY + 5, a),
                 DayId(2 * DAY + 7, b, "d2") := RolledDay(2 * DAY + 7, b)]
    ensures NoBlanks(both)
  {
    RolledAtMidnight(DAY, DAY + 5, a);
    RolledAtMidnight(2 * DAY, 2 * DAY + 7, b);
  }
}
