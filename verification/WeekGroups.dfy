/** How the p2 to p3 migration groups day indices by tenant and week and picks the weeks that are due. */
module WeekGroups {
  import SetSums
  import opened Documents
  import opened Text
  import opened Calendar
  import opened IndexNames

  /** The day an index holds, and the number of its ISO week. */
  function DayOf(info: IndexInfo): int {
    DayNumber(info.year, info.day)
  }

  function WeekOf(info: IndexInfo): int {
    YearWeekNumber(IsoYear(DayOf(info)), IsoWeek(DayOf(info)))
  }

  /** The indices of one tenant and week, in the order they were listed. */
  function InWeek(indices: seq<IndexInfo>, tenant: string, week: int): seq<IndexInfo> {
    if indices == [] then []
    else
      var last := indices[|indices| - 1];
      InWeek(indices[..|indices| - 1], tenant, week) +
        if last.tenant == tenant && WeekOf(last) == week then [last] else []
  }

  type Groups = map<string, map<int, seq<IndexInfo>>>

  function Get(groups: Groups, tenant: string, week: int): seq<IndexInfo> {
    if tenant in groups && week in groups[tenant] then groups[tenant][week] else []
  }

  ghost predicate Grouped(groups: Groups, indices: seq<IndexInfo>) {
    && (forall t, w :: Get(groups, t, w) == InWeek(indices, t, w))
    && (forall t, w :: t in groups && w in groups[t] ==> groups[t][w] != [])
  }

  /** Appends an index to the list of its tenant and week, creating the maps on the way. */
  function Add(groups: Groups, tenant: string, week: int, info: IndexInfo): Groups {
    var weeks := if tenant in groups then groups[tenant] else map[];
    groups[tenant := weeks[week := (if week in weeks then weeks[week] else []) + [info]]]
  }

  lemma AddGet(groups: Groups, tenant: string, week: int, info: IndexInfo, t: string, w: int)
    ensures Get(Add(groups, tenant, week, info), t, w) ==
            Get(groups, t, w) + if t == tenant && w == week then [info] else []
  {
  }

  method GroupByTenantAndWeek(indices: seq<IndexInfo>) returns (groups: Groups)
    ensures Grouped(groups, indices)
  {
    hide WeekOf, Add;
    groups := map[];
    for i := 0 to |indices|
      invariant Grouped(groups, indices[..i])
    {
      var info := indices[i];
      GroupsGrow(groups, indices, i);
      groups := Add(groups, info.tenant, WeekOf(info), info);
    }
    assert indices[..|indices|] == indices;
  }

  lemma GroupsGrow(groups: Groups, indices: seq<IndexInfo>, i: nat)
    requires i < |indices| && Grouped(groups, indices[..i])
    ensures Grouped(Add(groups, indices[i].tenant, WeekOf(indices[i]), indices[i]), indices[..i + 1])
  {
    hide WeekOf, Get;
    var info := indices[i];
    assert indices[..i + 1][..i] == indices[..i];
    forall t, w ensures Get(Add(groups, info.tenant, WeekOf(info), info), t, w) == InWeek(indices[..i + 1], t, w) {
      AddGet(groups, info.tenant, WeekOf(info), info, t, w);
      assert Get(groups, t, w) == InWeek(indices[..i], t, w);
    }
  }

  /** Every listed index is in the group of its own tenant and week and in no other. */
  lemma {:induction false} ExactlyOneGroup(indices: seq<IndexInfo>, info: IndexInfo, tenant: string, week: int)
    ensures info in InWeek(indices, tenant, week) <==> info in indices && info.tenant == tenant && WeekOf(info) == week
  {
    hide WeekOf;
    if indices != [] {
      ExactlyOneGroup(indices[..|indices| - 1], info, tenant, week);
      assert indices == indices[..|indices| - 1] + [indices[|indices| - 1]];
    }
  }

  datatype WeekJob = WeekJob(tenant: string, week: int, indices: seq<IndexInfo>)

  predicate Due(weekDiff: int, today: int, week: int) {
    var (y, w) := SplitYearWeekNumber(week);
    IsWeekDifferenceMoreThan(weekDiff, IsoYear(today), IsoWeek(today), y, w)
  }

  /** A week is merged when it is due and none of its days is still waiting to be rolled. */
  ghost predicate Selected(job: WeekJob, rolled: seq<IndexInfo>, waiting: seq<IndexInfo>, today: int, weekDiff: int) {
    && job.indices == InWeek(rolled, job.tenant, job.week) && job.indices != []
    && Due(weekDiff, today, job.week) && InWeek(waiting, job.tenant, job.week) == []
  }

  // ----- from the listed names

  /** The p2 indices among the names, in the order listed. */
  function RolledIn(names: seq<string>): seq<IndexInfo> {
    if names == [] then []
    else
      var n := names[|names| - 1];
      RolledIn(names[..|names| - 1]) +
        if "rolled_over" <= n && ParseRolledOverV2P2(n).Some? then [ParseRolledOverV2P2(n).value] else []
  }

  predicate Waits(name: string) {
    && !("rolled_over" <= name) && "db_statistics" <= name
    && ParseIndexName(name).Some? && ParseIndexName(name).value.schema == "v2"
    && ParseIndexName(name).value.phase == "p1"
  }

  /** The p1 indices of schema v2 among the names, in the order listed. */
  function WaitingIn(names: seq<string>): seq<IndexInfo> {
    if names == [] then []
    else
      var n := names[|names| - 1];
      WaitingIn(names[..|names| - 1]) + if Waits(n) then [ParseIndexName(n).value] else []
  }

  lemma {:induction false} RolledInNames(names: seq<string>, info: IndexInfo)
    ensures info in RolledIn(names) <==> exists n <- names :: ParseRolledOverV2P2(n) == Some(info)
  {
    hide ParseRolledOverV2P2;
    if names != [] {
      var n := names[|names| - 1];
      RolledInNames(names[..|names| - 1], info);
      ParsedHasPrefix(n);
      assert names == names[..|names| - 1] + [n];
    }
  }

  lemma {:induction false} WaitingInNames(names: seq<string>, info: IndexInfo)
    ensures info in WaitingIn(names) <==> exists n <- names :: Waits(n) && ParseIndexName(n) == Some(info)
  {
    hide ParseIndexName, Waits;
    if names != [] {
      var n := names[|names| - 1];
      WaitingInNames(names[..|names| - 1], info);
      WaiterParses(n);
      assert names == names[..|names| - 1] + [n];
    }
  }

  lemma InWeekEmptyIff(infos: seq<IndexInfo>, tenant: string, week: int)
    ensures InWeek(infos, tenant, week) == [] <==>
            forall info <- infos :: !(info.tenant == tenant && WeekOf(info) == week)
  {
    hide WeekOf, InWeek;
    var mine := InWeek(infos, tenant, week);
    forall info ensures info in mine <==> info in infos && info.tenant == tenant && WeekOf(info) == week {
      ExactlyOneGroup(infos, info, tenant, week);
    }
    if mine != [] {
      assert mine[0] in mine;
    }
  }

  /** An index the merge looks for before it takes the week. */
  predicate Blocks(n: string, tenant: string, week: int) {
    Waits(n) && var info := ParseIndexName(n).value; info.tenant == tenant && WeekOf(info) == week
  }

  lemma NoneBlocksIff(names: seq<string>, tenant: string, week: int)
    ensures (forall n <- names :: !Blocks(n, tenant, week)) <==> InWeek(WaitingIn(names), tenant, week) == []
  {
    hide InWeek, WeekOf, ParseIndexName, Waits;
    var waiting := WaitingIn(names);
    InWeekEmptyIff(waiting, tenant, week);
    forall info ensures info in waiting <==> exists n <- names :: Waits(n) && ParseIndexName(n) == Some(info) {
      WaitingInNames(names, info);
    }
    forall n <- names ensures Blocks(n, tenant, week) ==> InWeek(waiting, tenant, week) != [] {
      WaiterParses(n);
      if Blocks(n, tenant, week) {
        assert ParseIndexName(n).value in waiting;
      }
    }
    forall info | info in waiting && info.tenant == tenant && WeekOf(info) == week
      ensures exists n <- names :: Blocks(n, tenant, week)
    {
      var n :| n in names && Waits(n) && ParseIndexName(n) == Some(info);
      assert Blocks(n, tenant, week);
    }
  }

  lemma WaiterParses(n: string)
    ensures Waits(n) ==> ParseIndexName(n).Some?
  {
  }

  lemma ParsedHasPrefix(n: string)
    ensures ParseRolledOverV2P2(n).Some? ==> "rolled_over" <= n
  {
    hide Split, Atoi, Tagged;
  }

  /** The filter loop of mergeP2Indices. */
  method ListIndices(names: seq<string>) returns (rolled: seq<IndexInfo>, waiting: seq<IndexInfo>)
    ensures rolled == RolledIn(names) && waiting == WaitingIn(names)
  {
    hide ParseRolledOverV2P2, ParseIndexName;
    rolled, waiting := [], [];
    for i := 0 to |names|
      invariant rolled == RolledIn(names[..i]) && waiting == WaitingIn(names[..i])
    {
      assert names[..i + 1][..i] == names[..i];
      var n := names[i];
      if "rolled_over" <= n {
        var index := ParseRolledOverV2P2(n);
        if index.Some? {
          rolled := rolled + [index.value];
        }
      } else if "db_statistics" <= n {
        var index := ParseIndexName(n);
        if index.Some? {
          if index.value.schema == "v2" && index.value.phase == "p1" {
            waiting := waiting + [index.value];
          }
        }
      }
    }
    assert names[..|names|] == names;
  }

  /**
   * mergeP2Indices up to the merges themselves, from the listed names: exactly the selected weeks, each once, in any
   * order.
   */
  method MergeP2Indices(names: seq<string>, today: int, weekDiff: int) returns (jobs: seq<WeekJob>)
    ensures forall job <- jobs :: Selected(job, RolledIn(names), WaitingIn(names), today, weekDiff)
    ensures forall job :: Selected(job, RolledIn(names), WaitingIn(names), today, weekDiff) ==> job in jobs
    ensures forall i, j :: 0 <= i < j < |jobs| ==> jobs[i].tenant != jobs[j].tenant || jobs[i].week != jobs[j].week
  {
    hide Selected;
    var rolled, waiting := ListIndices(names);
    jobs := WeeksToMerge(rolled, waiting, today, weekDiff);
  }

  method WeeksToMerge(rolled: seq<IndexInfo>, waiting: seq<IndexInfo>, today: int, weekDiff: int)
    returns (jobs: seq<WeekJob>)
    ensures forall job <- jobs :: Selected(job, rolled, waiting, today, weekDiff)
    ensures forall job :: Selected(job, rolled, waiting, today, weekDiff) ==> job in jobs
    ensures forall i, j :: 0 <= i < j < |jobs| ==> jobs[i].tenant != jobs[j].tenant || jobs[i].week != jobs[j].week
  {
    hide InWeek, Due, IsoYear, IsoWeek;
    var groups := GroupByTenantAndWeek(rolled);
    var pending := GroupByTenantAndWeek(waiting);
    jobs := [];
    var tenants := groups.Keys;
    while tenants != {}
      invariant tenants <= groups.Keys
      invariant forall job <- jobs :: Selected(job, rolled, waiting, today, weekDiff) && job.tenant !in tenants
      invariant forall job :: Selected(job, rolled, waiting, today, weekDiff) && job.tenant !in tenants ==> job in jobs
      invariant forall i, j :: 0 <= i < j < |jobs| ==> jobs[i].tenant != jobs[j].tenant || jobs[i].week != jobs[j].week
    {
      var t :| t in tenants;
      var more := WeeksOfTenant(groups, pending, t, rolled, waiting, today, weekDiff);
      forall job | Selected(job, rolled, waiting, today, weekDiff) && job.tenant !in tenants - {t}
        ensures job in jobs + more
      {
        assert job.tenant == t || job.tenant !in tenants;
      }
      jobs := jobs + more;
      tenants := tenants - {t};
    }
    forall job | Selected(job, rolled, waiting, today, weekDiff) ensures job in jobs {
      assert Get(groups, job.tenant, job.week) == job.indices;
    }
  }

  method WeeksOfTenant(groups: Groups, pending: Groups, t: string, ghost rolled: seq<IndexInfo>,
                       ghost waiting: seq<IndexInfo>, today: int, weekDiff: int)
    returns (jobs: seq<WeekJob>)
    requires Grouped(groups, rolled) && Grouped(pending, waiting) && t in groups
    ensures forall job <- jobs :: Selected(job, rolled, waiting, today, weekDiff) && job.tenant == t
    ensures forall job :: Selected(job, rolled, waiting, today, weekDiff) && job.tenant == t ==> job in jobs
    ensures forall i, j :: 0 <= i < j < |jobs| ==> jobs[i].week != jobs[j].week
  {
    hide InWeek, Due, IsoYear, IsoWeek;
    jobs := [];
    var weeks := groups[t].Keys;
    while weeks != {}
      decreases weeks
      invariant weeks <= groups[t].Keys
      invariant forall job <- jobs ::
        Selected(job, rolled, waiting, today, weekDiff) && job.tenant == t && job.week !in weeks
      invariant forall job ::
        Selected(job, rolled, waiting, today, weekDiff) && job.tenant == t && job.week !in weeks ==> job in jobs
      invariant forall i, j :: 0 <= i < j < |jobs| ==> jobs[i].week != jobs[j].week
    {
      var w := SetSums.AnyOf(weeks);
      var mine := groups[t][w];
      assert mine == Get(groups, t, w) == InWeek(rolled, t, w);
      assert Get(pending, t, w) == InWeek(waiting, t, w);
      var blocked := t in pending && w in pending[t] && |pending[t][w]| > 0;
      if Due(weekDiff, today, w) && !blocked {
        jobs := jobs + [WeekJob(t, w, mine)];
      }
      weeks := weeks - {w};
    }
    forall job | Selected(job, rolled, waiting, today, weekDiff) && job.tenant == t ensures job in jobs {
      assert Get(groups, t, job.week) == job.indices;
    }
  }

  /**
   * With a threshold that is not negative, every merged day lies in a week more than that many weeks before
   * today's, and no day of the same calendar week is still waiting for this tenant.
   */
  lemma MergedWeeksAreComplete(job: WeekJob, rolled: seq<IndexInfo>, waiting: seq<IndexInfo>, today: int, weekDiff: int,
                               info: IndexInfo, other: IndexInfo)
    requires weekDiff >= 0 && Selected(job, rolled, waiting, today, weekDiff)
    requires info in job.indices && IsoYear(DayOf(info)) >= 0
    ensures WeekIndex(today) > WeekIndex(DayOf(info)) + weekDiff
    ensures other in waiting && other.tenant == job.tenant ==> WeekIndex(DayOf(other)) != WeekIndex(DayOf(info))
  {
    hide IsoYear, IsoWeek, InWeek;
    ExactlyOneGroup(rolled, info, job.tenant, job.week);
    IsoWeekRule(1, DayOf(info));
    YearWeekRoundTripIff(IsoYear(DayOf(info)), IsoWeek(DayOf(info)));
    WeekTestIsSafe(weekDiff, today, DayOf(info));
    ExactlyOneGroup(waiting, other, job.tenant, job.week);
    if WeekIndex(DayOf(other)) == WeekIndex(DayOf(info)) {
      OneWeekOneDate(DayOf(other), DayOf(info));
    }
  }

  // ----- p1 to p2

  /** shouldMigrateP1ToP2 */
  predicate ShouldMigrateP1ToP2(info: IndexInfo, today: int, dayDiff: int) {
    && info.phase == "p1" && (info.schema == "v2" || info.schema == "v3")
    && IsDayDifferenceMoreThan(dayDiff, YearOf(today), YearDay(today), info.year, info.day)
  }

  /** A day index is migrated only when its day is more than the threshold before today. */
  lemma MigratedDayIsPast(info: IndexInfo, today: int, dayDiff: int)
    requires dayDiff >= 0 && ShouldMigrateP1ToP2(info, today, dayDiff)
    requires 1 <= info.day
    ensures DayOf(info) + dayDiff < today
  {
    hide YearOf, YearStart;
    DayTestIsSafe(dayDiff, today, info.year, info.day);
  }
}
