/** The check that a rolled-up index carries the same counts as its source. */
module Validation {
  import opened SetSums
  import opened Documents
  import opened TimeRanges
  import opened Paging
  import opened RollUp

  const PAGE_SIZE := 100

  /** One validation group. The operator is the raw text the server groups by, or its normal form. */
  datatype Group = Group(tenant: string, source: string, name: string, namespace: string, operator: string)

  /** The server's grouping: a document without one of the plain fields is in no group. */
  function RawGroup(d: Doc, skipTenant: bool): Option<Group> {
    if d.dims.sourceId.None? || d.dims.name.None? || d.dims.namespace.None? || (!skipTenant && d.tenant.None?) then None
    else Some(Group(if skipTenant then "" else d.tenant.value, d.dims.sourceId.value, d.dims.name.value,
                    d.dims.namespace.value, OrNA(d.dims.operatorId)))
  }

  /** aggKeyString: a blank operator is reported as missing. */
  function Collapse(g: Group): Group {
    g.(operator := Norm(g.operator))
  }

  function Blank(g: Group): Group {
    g.(operator := "")
  }

  function RawIn(r: TimeRange, skipTenant: bool, g: Group): Doc -> bool {
    (d: Doc) => r.start <= d.ts < r.end && RawGroup(d, skipTenant) == Some(g)
  }

  /** In range and in group `g` once blank and missing operators are identified. */
  function GroupIn(r: TimeRange, skipTenant: bool, g: Group): Doc -> bool {
    (d: Doc) => r.start <= d.ts < r.end && RawGroup(d, skipTenant).Some? && Collapse(RawGroup(d, skipTenant).value) == g
  }

  function Groups<I>(docs: map<I, Doc>, r: TimeRange, skipTenant: bool): set<Group> {
    set id | id in docs && r.start <= docs[id].ts < r.end && RawGroup(docs[id], skipTenant).Some? ::
      RawGroup(docs[id], skipTenant).value
  }

  ghost function RawSum<I(!new)>(docs: map<I, Doc>, r: TimeRange, skipTenant: bool, g: Group): int {
    Total(docs, RawIn(r, skipTenant, g))
  }

  ghost function TrueSum<I(!new)>(docs: map<I, Doc>, r: TimeRange, skipTenant: bool, g: Group): int {
    Total(docs, GroupIn(r, skipTenant, g))
  }

  /** Of the raw groups that collapse to `g`, the one whose sum is kept: the later page entry overwrites. */
  ghost function Survivor(keys: set<Group>, g: Group): Group {
    if g in keys then g else Blank(g)
  }

  ghost function RawSums<I(!new)>(docs: map<I, Doc>, r: TimeRange, skipTenant: bool): Group -> int {
    g => RawSum(docs, r, skipTenant, g)
  }

  ghost function CollapseAll(keys: set<Group>): set<Group> {
    set h | h in keys :: Collapse(h)
  }

  ghost function CountsOver(sums: Group -> int, keys: set<Group>): map<Group, int> {
    map g | g in CollapseAll(keys) :: sums(Survivor(keys, g))
  }

  /** The counts map that validation compares for one range. */
  ghost function CountsOf<I(!new)>(docs: map<I, Doc>, r: TimeRange, skipTenant: bool): map<Group, int> {
    CountsOver(RawSums(docs, r, skipTenant), Groups(docs, r, skipTenant))
  }

  /** The composite order compares operators last, and "" comes before "N/A". */
  ghost predicate BlankFirst(less: (Group, Group) -> bool) {
    forall g, twin :: less(twin, g) && g.operator == "" ==> twin != g.(operator := MISSING)
  }

  /** No blank operator is reached after its missing-operator twin. */
  ghost predicate TwinLater(h: Group, seen: set<Group>) {
    h.operator == "" ==> h.(operator := MISSING) !in seen
  }

  lemma CountsGrow(sums: Group -> int, keys: set<Group>, h: Group)
    requires TwinLater(h, keys)
    ensures CountsOver(sums, keys + {h}) == CountsOver(sums, keys)[Collapse(h) := sums(h)]
  {
    assert CollapseAll(keys + {h}) == CollapseAll(keys) + {Collapse(h)};
    forall g <- CollapseAll(keys + {h})
      ensures g == Collapse(h) ==> Survivor(keys + {h}, g) == h
      ensures g != Collapse(h) ==> Survivor(keys + {h}, g) == Survivor(keys, g)
    {
      assert g.operator != "";
    }
  }

  lemma PageTwinsLater(page: seq<Group>, keys: set<Group>, after: Option<Group>, less: (Group, Group) -> bool, i: int)
    requires StrictTotalOrder(less) && BlankFirst(less) && IsPage(page, keys, after, PAGE_SIZE, less)
    requires 0 <= i < |page|
    ensures TwinLater(page[i], keys - Above(keys, after, less) + Elements(page[..i]))
  {
    var h, twin := page[i], page[i].(operator := MISSING);
    if h.operator == "" {
      assert h in Elements(page);
      assert !less(twin, h) && twin != h;
      assert less(h, twin) && !less(h, h);
      forall j | 0 <= j < i ensures page[j] != twin {
        assert less(page[j], h);
      }
      assert after.Some? ==> less(after.value, h) && less(after.value, twin);
    }
  }

  /** Adds one page of groups to the counts. */
  method AbsorbPage<I(==, !new)>(docs: map<I, Doc>, r: TimeRange, skipTenant: bool, page: seq<Group>,
                                 before: map<Group, int>, ghost seen: set<Group>) returns (counts: map<Group, int>)
    requires before == CountsOver(RawSums(docs, r, skipTenant), seen)
    requires forall i :: 0 <= i < |page| ==> TwinLater(page[i], seen + Elements(page[..i]))
    ensures counts == CountsOver(RawSums(docs, r, skipTenant), seen + Elements(page))
  {
    ghost var sums := RawSums(docs, r, skipTenant);
    counts := before;
    assert seen + Elements(page[..0]) == seen;
    for i := 0 to |page|
      invariant counts == CountsOver(sums, seen + Elements(page[..i]))
    {
      var total := ComputeTotal(docs, RawIn(r, skipTenant, page[i]));
      CountsGrow(sums, seen + Elements(page[..i]), page[i]);
      counts := counts[Collapse(page[i]) := total];
      assert seen + Elements(page[..i + 1]) == seen + Elements(page[..i]) + {page[i]};
    }
    assert page[..|page|] == page;
  }

  /** paginateAgg4 and paginateAgg5: pages of 100 groups; any search call may fail unless the server is `calm`. */
  method PaginateAgg<I(==, !new)>(docs: map<I, Doc>, r: TimeRange, skipTenant: bool, less: (Group, Group) -> bool,
                       calm: bool)
    returns (failed: bool, counts: map<Group, int>)
    requires StrictTotalOrder(less) && BlankFirst(less)
    ensures !failed ==> counts == CountsOf(docs, r, skipTenant)
    ensures calm ==> !failed
  {
    hide StrictTotalOrder, BlankFirst, IsPage, RawSums, TwinLater, Groups;
    var keys := Groups(docs, r, skipTenant);
    var after: Option<Group> := None;
    ghost var seen: set<Group> := {};
    counts := map[];
    while true
      invariant seen == keys - Above(keys, after, less)
      invariant counts == CountsOver(RawSums(docs, r, skipTenant), seen)
      decreases Above(keys, after, less)
    {
      failed := *;
      failed := failed && !calm;
      if failed {
        return;
      }
      var page := FetchPage(keys, after, PAGE_SIZE, less);
      if page == [] {
        EmptyPageIsEnd(page, keys, after, PAGE_SIZE, less);
        assert seen == keys;
        return;
      }
      forall i | 0 <= i < |page| ensures TwinLater(page[i], seen + Elements(page[..i])) {
        PageTwinsLater(page, keys, after, less, i);
      }
      counts := AbsorbPage(docs, r, skipTenant, page, counts, seen);
      seen := seen + Elements(page);
      PageAdvances(page, keys, after, PAGE_SIZE, less);
      after := Some(page[|page| - 1]);
    }
  }

  // ----- acceptance

  ghost predicate SameCounts<I(!new), J(!new)>(older: map<I, Doc>, newer: map<J, Doc>, r: TimeRange, skipTenant: bool) {
    CountsOf(older, r, skipTenant) == CountsOf(newer, r, skipTenant)
  }

  ghost predicate HasCounts<I(!new)>(docs: map<I, Doc>, r: TimeRange, skipTenant: bool) {
    CountsOf(docs, r, skipTenant) != map[]
  }

  ghost predicate Accepted<I(!new), J(!new)>(older: map<I, Doc>, newer: map<J, Doc>, ranges: seq<TimeRange>,
                             minVal: int, skipTenant: bool) {
    && (forall i :: 0 <= i < |ranges| ==> SameCounts(older, newer, ranges[i], skipTenant))
    && (minVal > 0 ==> exists i :: 0 <= i < |ranges| && HasCounts(older, ranges[i], skipTenant))
  }

  method CompareRange<I(==, !new), J(==, !new)>(older: map<I, Doc>, newer: map<J, Doc>, r: TimeRange, skipTenant: bool,
                                                less: (Group, Group) -> bool, calm: bool)
    returns (failed: bool, same: bool, saw: bool)
    requires StrictTotalOrder(less) && BlankFirst(less)
    ensures !failed ==> same == SameCounts(older, newer, r, skipTenant) && saw == HasCounts(older, r, skipTenant)
    ensures calm ==> !failed
  {
    var olderCounts, newerCounts;
    same, saw := false, false;
    failed, olderCounts := PaginateAgg(older, r, skipTenant, less, calm);
    if failed {
      return;
    }
    failed, newerCounts := PaginateAgg(newer, r, skipTenant, less, calm);
    if failed {
      return;
    }
    same, saw := olderCounts == newerCounts, olderCounts != map[];
  }

  /** Compares range by range and stops at the first difference. */
  method CompareRanges<I(==, !new), J(==, !new)>(older: map<I, Doc>, newer: map<J, Doc>, ranges: seq<TimeRange>,
                         minVal: int, skipTenant: bool, less: (Group, Group) -> bool, calm: bool)
    returns (failed: bool, accepted: bool)
    requires StrictTotalOrder(less) && BlankFirst(less)
    ensures !failed ==> (accepted <==> Accepted(older, newer, ranges, minVal, skipTenant))
    ensures failed ==> !accepted && !calm
  {
    hide SameCounts, HasCounts;
    accepted := false;
    var sawAny := false;
    for i := 0 to |ranges|
      invariant !accepted
      invariant forall j :: 0 <= j < i ==> SameCounts(older, newer, ranges[j], skipTenant)
      invariant sawAny <==> exists j :: 0 <= j < i && HasCounts(older, ranges[j], skipTenant)
    {
      var same, saw;
      failed, same, saw := CompareRange(older, newer, ranges[i], skipTenant, less, calm);
      if failed {
        return;
      }
      sawAny := sawAny || saw;
      if !same {
        return;
      }
    }
    failed := false;
    accepted := !(minVal > 0 && !sawAny);
  }

  /** validateNewData once the target has been refreshed. */
  method ValidateNewData<I(==, !new), J(==, !new)>(older: map<I, Doc>, newer: map<J, Doc>, minVal: int, maxVal: int,
                           validationRange: int, skipTenant: bool, less: (Group, Group) -> bool, calm: bool)
    returns (failed: bool, accepted: bool, ranges: seq<TimeRange>)
    requires StrictTotalOrder(less) && BlankFirst(less) && validationRange > 0
    ensures Splits(ranges, minVal, maxVal, validationRange)
    ensures !failed ==> (accepted <==> Accepted(older, newer, ranges, minVal, skipTenant))
    ensures failed ==> !accepted && !calm
  {
    ranges := SplitByTimeRanges(minVal, maxVal, validationRange);
    failed, accepted := CompareRanges(older, newer, ranges, minVal, skipTenant, less, calm);
  }
}
