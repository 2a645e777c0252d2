/** How the p3 to p4 migration filters, sorts, limits and groups the indices it merges. */
module YearGroups {
  import SetSums
  import Sorting
  import opened Documents
  import opened Text
  import opened Calendar
  import opened IndexNames

  // ----- the filters

  predicate Due(name: string, today: int, weekDiff: int) {
    && "rolled_over" <= name && ParseRolledOverP3OrOlder(name).Some?
    && var info := ParseRolledOverP3OrOlder(name).value;
       IsWeekDifferenceMoreThan(weekDiff, IsoYear(today), IsoWeek(today), info.year, info.week)
  }

  /** The due indices among the names, in the order listed. */
  function DueIn(names: seq<string>, today: int, weekDiff: int): seq<IndexInfo> {
    if names == [] then []
    else
      var n := names[|names| - 1];
      DueIn(names[..|names| - 1], today, weekDiff) +
        if Due(n, today, weekDiff) then [ParseRolledOverP3OrOlder(n).value] else []
  }

  predicate Wanted(info: IndexInfo, tenants: string) {
    tenants == "" || info.tenant in Split(tenants, ',')
  }

  /** Those of the given tenants; an empty text means all. */
  function OfTenants(infos: seq<IndexInfo>, tenants: string): seq<IndexInfo> {
    if infos == [] then []
    else
      var last := infos[|infos| - 1];
      OfTenants(infos[..|infos| - 1], tenants) + if Wanted(last, tenants) then [last] else []
  }

  lemma {:induction false} DueInNames(names: seq<string>, today: int, weekDiff: int, info: IndexInfo)
    ensures info in DueIn(names, today, weekDiff) <==>
            exists n <- names :: Due(n, today, weekDiff) && ParseRolledOverP3OrOlder(n) == Some(info)
  {
    hide Due, ParseRolledOverP3OrOlder;
    if names != [] {
      var n := names[|names| - 1];
      DueInNames(names[..|names| - 1], today, weekDiff, info);
      DueParses(n, today, weekDiff);
      assert names == names[..|names| - 1] + [n];
    }
  }

  lemma DueParses(n: string, today: int, weekDiff: int)
    ensures Due(n, today, weekDiff) ==> ParseRolledOverP3OrOlder(n).Some?
  {
  }

  lemma {:induction false} OfTenantsMembers(infos: seq<IndexInfo>, tenants: string, info: IndexInfo)
    ensures info in OfTenants(infos, tenants) <==> info in infos && Wanted(info, tenants)
  {
    hide Wanted;
    if infos != [] {
      OfTenantsMembers(infos[..|infos| - 1], tenants, info);
      assert infos == infos[..|infos| - 1] + [infos[|infos| - 1]];
    }
  }

  /** An index is listed as due at most as often as its name is listed. */
  lemma {:induction false} DueInOnce(names: seq<string>, today: int, weekDiff: int, info: IndexInfo)
    ensures multiset(DueIn(names, today, weekDiff))[info] <= multiset(names)[info.index]
  {
    hide Due, ParseRolledOverP3OrOlder;
    if names != [] {
      var n := names[|names| - 1];
      DueInOnce(names[..|names| - 1], today, weekDiff, info);
      DueParses(n, today, weekDiff);
      ParsedKeepsName(n);
      assert names == names[..|names| - 1] + [n];
    }
  }

  lemma {:induction false} OfTenantsOnce(infos: seq<IndexInfo>, tenants: string, info: IndexInfo)
    ensures multiset(OfTenants(infos, tenants))[info] <= multiset(infos)[info]
  {
    hide Wanted;
    if infos != [] {
      OfTenantsOnce(infos[..|infos| - 1], tenants, info);
      assert infos == infos[..|infos| - 1] + [infos[|infos| - 1]];
    }
  }

  // ----- oldest first

  function WeekNumber(info: IndexInfo): int {
    YearWeekNumber(info.year, info.week)
  }

  ghost predicate OldestFirst(infos: seq<IndexInfo>) {
    forall i, j :: 0 <= i < j < |infos| ==> WeekNumber(infos[i]) <= WeekNumber(infos[j])
  }

  // ----- by tenant and year

  /** The indices of one tenant and year, in order. */
  function InYear(infos: seq<IndexInfo>, tenant: string, year: int): seq<IndexInfo> {
    if infos == [] then []
    else
      var last := infos[|infos| - 1];
      InYear(infos[..|infos| - 1], tenant, year) + if last.tenant == tenant && last.year == year then [last] else []
  }

  lemma {:induction false} InYearMembers(infos: seq<IndexInfo>, tenant: string, year: int, info: IndexInfo)
    ensures info in InYear(infos, tenant, year) <==> info in infos && info.tenant == tenant && info.year == year
  {
    if infos != [] {
      InYearMembers(infos[..|infos| - 1], tenant, year, info);
      assert infos == infos[..|infos| - 1] + [infos[|infos| - 1]];
    }
  }

  lemma {:induction false} InYearOnce(infos: seq<IndexInfo>, tenant: string, year: int, info: IndexInfo)
    ensures multiset(InYear(infos, tenant, year))[info] <= multiset(infos)[info]
  {
    if infos != [] {
      InYearOnce(infos[..|infos| - 1], tenant, year, info);
      assert infos == infos[..|infos| - 1] + [infos[|infos| - 1]];
    }
  }

  /** Grouping keeps the order, so every group is merged oldest first. */
  lemma {:induction false} YearKeepsOrder(infos: seq<IndexInfo>, tenant: string, year: int)
    requires OldestFirst(infos)
    ensures OldestFirst(InYear(infos, tenant, year))
  {
    if infos != [] {
      var n := |infos| - 1;
      YearKeepsOrder(infos[..n], tenant, year);
      forall x <- InYear(infos[..n], tenant, year) ensures WeekNumber(x) <= WeekNumber(infos[n]) {
        InYearMembers(infos[..n], tenant, year, x);
        var i :| 0 <= i < n && infos[i] == x;
      }
    }
  }

  datatype YearJob = YearJob(tenant: string, year: int, indices: seq<IndexInfo>)

  ghost predicate Selected(job: YearJob, chosen: seq<IndexInfo>) {
    job.indices == InYear(chosen, job.tenant, job.year) && job.indices != []
  }

  type Groups = map<(string, int), seq<IndexInfo>>

  ghost predicate Grouped(groups: Groups, infos: seq<IndexInfo>) {
    forall t, y ::
      ((t, y) in groups <==> InYear(infos, t, y) != []) && ((t, y) in groups ==> groups[(t, y)] == InYear(infos, t, y))
  }

  method GroupByTenantAndYear(infos: seq<IndexInfo>) returns (groups: Groups)
    ensures Grouped(groups, infos)
  {
    groups := map[];
    for i := 0 to |infos|
      invariant Grouped(groups, infos[..i])
    {
      assert infos[..i + 1][..i] == infos[..i];
      var key := (infos[i].tenant, infos[i].year);
      groups := groups[key := (if key in groups then groups[key] else []) + [infos[i]]];
    }
    assert infos[..|infos|] == infos;
  }

  method YearsToMerge(chosen: seq<IndexInfo>) returns (jobs: seq<YearJob>)
    ensures forall job <- jobs :: Selected(job, chosen)
    ensures forall job :: Selected(job, chosen) ==> job in jobs
    ensures forall i, j :: 0 <= i < j < |jobs| ==> jobs[i].tenant != jobs[j].tenant || jobs[i].year != jobs[j].year
  {
    hide InYear;
    var groups := GroupByTenantAndYear(chosen);
    jobs := [];
    var rest := groups.Keys;
    while rest != {}
      invariant rest <= groups.Keys
      invariant forall job <- jobs :: Selected(job, chosen) && (job.tenant, job.year) !in rest
      invariant forall job :: Selected(job, chosen) && (job.tenant, job.year) !in rest ==> job in jobs
      invariant forall i, j :: 0 <= i < j < |jobs| ==> jobs[i].tenant != jobs[j].tenant || jobs[i].year != jobs[j].year
    {
      var key := SetSums.AnyOf(rest);
      var job := YearJob(key.0, key.1, groups[key]);
      assert (key.0, key.1) == key && Selected(job, chosen);
      jobs := jobs + [job];
      rest := rest - {key};
    }
  }

  /** The oldest `limit` of the candidates. */
  ghost predicate Oldest(chosen: seq<IndexInfo>, candidates: seq<IndexInfo>, limit: nat) {
    && OldestFirst(chosen) && |chosen| == (if |candidates| <= limit then |candidates| else limit)
    && exists left: seq<IndexInfo> ::
         && multiset(chosen) + multiset(left) == multiset(candidates)
         && forall c, l :: c in chosen && l in left ==> WeekNumber(c) <= WeekNumber(l)
  }

  /** What is listed once is chosen and grouped at most once. */
  lemma GroupedOnce(names: seq<string>, today: int, weekDiff: int, tenants: string, limit: nat, chosen: seq<IndexInfo>,
                    job: YearJob, info: IndexInfo)
    requires Oldest(chosen, OfTenants(DueIn(names, today, weekDiff), tenants), limit) && Selected(job, chosen)
    ensures multiset(job.indices)[info] <= multiset(names)[info.index]
  {
    hide OldestFirst, Due, DueIn, OfTenants, InYear, WeekNumber;
    var due := DueIn(names, today, weekDiff);
    DueInOnce(names, today, weekDiff, info);
    OfTenantsOnce(due, tenants, info);
    InYearOnce(chosen, job.tenant, job.year, info);
    var left: seq<IndexInfo> :| multiset(chosen) + multiset(left) == multiset(OfTenants(due, tenants));
    assert multiset(chosen)[info] <= (multiset(chosen) + multiset(left))[info];
  }

  method ListDue(names: seq<string>, today: int, weekDiff: int) returns (due: seq<IndexInfo>)
    ensures due == DueIn(names, today, weekDiff)
  {
    hide ParseRolledOverP3OrOlder, Due;
    due := [];
    for i := 0 to |names|
      invariant due == DueIn(names[..i], today, weekDiff)
    {
      assert names[..i + 1][..i] == names[..i];
      DueParses(names[i], today, weekDiff);
      if Due(names[i], today, weekDiff) {
        due := due + [ParseRolledOverP3OrOlder(names[i]).value];
      }
    }
    assert names[..|names|] == names;
  }

  method KeepTenants(due: seq<IndexInfo>, tenants: string) returns (wanted: seq<IndexInfo>)
    ensures wanted == OfTenants(due, tenants)
  {
    hide Wanted;
    wanted := [];
    for i := 0 to |due|
      invariant wanted == OfTenants(due[..i], tenants)
    {
      assert due[..i + 1][..i] == due[..i];
      if Wanted(due[i], tenants) {
        wanted := wanted + [due[i]];
      }
    }
    assert due[..|due|] == due;
  }

  lemma ByWeek(sorted: seq<IndexInfo>)
    requires Sorting.Sorted(sorted, WeekNumber)
    ensures OldestFirst(sorted)
  {
    hide WeekNumber;
  }

  method TakeOldest(wanted: seq<IndexInfo>, limit: nat) returns (kept: seq<IndexInfo>)
    ensures Oldest(kept, wanted, limit)
  {
    hide OldestFirst, WeekNumber;
    var sorted := Sorting.SortBy(wanted, WeekNumber);
    ByWeek(sorted);
    kept := if |sorted| > limit then sorted[..limit] else sorted;
    SameSize(sorted, wanted);
    SplitSorted(sorted, |kept|);
    assert sorted == kept + sorted[|kept|..];
    assert multiset(kept) + multiset(sorted[|kept|..]) == multiset(wanted);
  }

  lemma SplitSorted(sorted: seq<IndexInfo>, n: nat)
    requires OldestFirst(sorted) && n <= |sorted|
    ensures OldestFirst(sorted[..n])
    ensures forall c, l :: c in sorted[..n] && l in sorted[n..] ==> WeekNumber(c) <= WeekNumber(l)
    ensures n == |sorted| ==> sorted[..n] == sorted
  {
    hide WeekNumber;
  }

  /**
   * mergeP3AndOlderRolledOverIndices up to the merges themselves: of the due indices of the wanted tenants the oldest
   * are grouped by tenant and year, each group once and oldest first.
   */
  method MergeP3Indices(names: seq<string>, today: int, weekDiff: int, tenants: string, limit: nat)
    returns (jobs: seq<YearJob>, ghost chosen: seq<IndexInfo>)
    ensures Oldest(chosen, OfTenants(DueIn(names, today, weekDiff), tenants), limit)
    ensures forall job <- jobs :: Selected(job, chosen) && OldestFirst(job.indices)
    ensures forall job :: Selected(job, chosen) ==> job in jobs
    ensures forall i, j :: 0 <= i < j < |jobs| ==> jobs[i].tenant != jobs[j].tenant || jobs[i].year != jobs[j].year
  {
    hide InYear, Oldest, OldestFirst;
    var due := ListDue(names, today, weekDiff);
    var wanted := KeepTenants(due, tenants);
    var kept := TakeOldest(wanted, limit);
    chosen := kept;
    jobs := YearsToMerge(kept);
    forall job <- jobs ensures OldestFirst(job.indices) {
      OldestInOrder(kept, wanted, limit);
      YearKeepsOrder(kept, job.tenant, job.year);
    }
  }

  lemma OldestInOrder(chosen: seq<IndexInfo>, candidates: seq<IndexInfo>, limit: nat)
    requires Oldest(chosen, candidates, limit)
    ensures OldestFirst(chosen)
  {
  }

  lemma SameSize(a: seq<IndexInfo>, b: seq<IndexInfo>)
    requires multiset(a) == multiset(b)
    ensures |a| == |b|
  {
    assert |multiset(a)| == |a| && |multiset(b)| == |b|;
  }
}
