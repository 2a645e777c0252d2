/** The merges of the p3 to p4 migration, and why oldest first is an order in which every one of them passes. */
module YearOrder {
  import opened Documents
  import opened TimeRanges
  import opened ValidationMeaning
  import opened SharedTarget
  import opened Cluster
  import opened PageRolls
  import opened Checks
  import opened Traces
  import opened Lifecycle
  import opened Merges
  import opened IndexNames
  import opened Calendar
  import opened Plans
  import Sorting
  import YearGroups

  function YearMerge(job: YearGroups.YearJob): MergeJob {
    MergeJob(NamesOf(job.indices), P4Name(job.tenant, job.year), AliasOf(job.tenant))
  }

  function YearMerges(jobs: seq<YearGroups.YearJob>): seq<MergeJob> {
    seq(|jobs|, i requires 0 <= i < |jobs| => YearMerge(jobs[i]))
  }

  ghost predicate FromNames(chosen: seq<IndexInfo>, names: seq<string>) {
    forall info <- chosen :: info.index in names && ParseRolledOverP3OrOlder(info.index) == Some(info)
  }

  lemma ChosenFromNames(names: seq<string>, today: int, weekDiff: int, tenants: string, limit: nat,
                        chosen: seq<IndexInfo>)
    requires YearGroups.Oldest(chosen, YearGroups.OfTenants(YearGroups.DueIn(names, today, weekDiff), tenants), limit)
    ensures FromNames(chosen, names)
  {
    hide ParseRolledOverP3OrOlder, YearGroups.Due, YearGroups.Wanted;
    var due := YearGroups.DueIn(names, today, weekDiff);
    var candidates := YearGroups.OfTenants(due, tenants);
    forall info <- chosen ensures info.index in names && ParseRolledOverP3OrOlder(info.index) == Some(info) {
      assert info in multiset(chosen) && info in multiset(candidates);
      YearGroups.OfTenantsMembers(due, tenants, info);
      YearGroups.DueInNames(names, today, weekDiff, info);
      var n :| n in names && ParseRolledOverP3OrOlder(n) == Some(info);
      ParsedKeepsName(n);
    }
  }

  lemma YearJobIndex(names: seq<string>, chosen: seq<IndexInfo>, job: YearGroups.YearJob, src: string)
    requires FromNames(chosen, names) && YearGroups.Selected(job, chosen) && src in NamesOf(job.indices)
    ensures src in names && ParseRolledOverP3OrOlder(src).Some?
    ensures var info := ParseRolledOverP3OrOlder(src).value;
            && info in chosen && info.index == src && info.tenant == job.tenant && info.year == job.year
            && '_' !in job.tenant
  {
    hide ParseRolledOverP3OrOlder;
    var i :| 0 <= i < |job.indices| && NamesOf(job.indices)[i] == src;
    assert job.indices[i] in job.indices;
    YearGroups.InYearMembers(chosen, job.tenant, job.year, job.indices[i]);
    ParsedKeepsName(src);
  }

  // ----- weekly indices

  /** The instants of an index's ISO week. */
  function WeekSpan(info: IndexInfo): Span {
    Span(EpochOf(MondayOf(info.year, info.week)), EpochOf(MondayOf(info.year, info.week) + 7))
  }

  /** The week of every listed index that parses. */
  function WeekSpans(names: seq<string>): map<string, Span> {
    map n | n in names && ParseRolledOverP3OrOlder(n).Some? :: WeekSpan(ParseRolledOverP3OrOlder(n).value)
  }

  predicate SameWeek(a: IndexInfo, b: IndexInfo) {
    a.tenant == b.tenant && a.year == b.year && a.week == b.week
  }

  /** No two entries of the list are for one tenant and week. */
  ghost predicate OneIndexEach(names: seq<string>) {
    forall i, j ::
      0 <= i < j < |names| && ParseRolledOverP3OrOlder(names[i]).Some? && ParseRolledOverP3OrOlder(names[j]).Some? ==>
      !SameWeek(ParseRolledOverP3OrOlder(names[i]).value, ParseRolledOverP3OrOlder(names[j]).value)
  }

  /**
   * The index holds documents of its own week only, none of them without the tags that are compared, and no index
   * with a longer name than its own or its target's holds documents of that week.
   */
  ghost predicate HoldsItsWeek(s: State, info: IndexInfo, cfg: RolloverConfig) {
    && info.index in s.indices && 1 <= info.week <= 53 && s.indices[info.index] != map[]
    && (forall id <- s.indices[info.index] :: WeekSpan(info).lo <= s.indices[info.index][id].ts < WeekSpan(info).hi)
    && ValidationMeaning.Tagged(s.indices[info.index], cfg.skipTenantIdValidation) && NoBlanks(s.indices[info.index])
    && forall n, id |
         && n in s.indices && n != info.index && (info.index <= n || P4Name(info.tenant, info.year) <= n)
         && id in s.indices[n] ::
         !InSpan(WeekSpan(info), s.indices[n][id].ts)
  }

  ghost predicate WeeklyIndices(s: State, names: seq<string>, cfg: RolloverConfig) {
    && Uniform(cfg) && OneIndexEach(names)
    && forall n <- names :: ParseRolledOverP3OrOlder(n).Some? ==>
         HoldsItsWeek(s, ParseRolledOverP3OrOlder(n).value, cfg)
  }

  // ----- oldest first is in order

  lemma OtherWeeks(names: seq<string>, a: string, b: string)
    requires OneIndexEach(names) && a in names && b in names && a != b
    requires ParseRolledOverP3OrOlder(a).Some? && ParseRolledOverP3OrOlder(b).Some?
    ensures !SameWeek(ParseRolledOverP3OrOlder(a).value, ParseRolledOverP3OrOlder(b).value)
  {
    hide ParseRolledOverP3OrOlder;
    var i :| 0 <= i < |names| && names[i] == a;
    var j :| 0 <= j < |names| && names[j] == b;
    if j < i {
      assert !SameWeek(ParseRolledOverP3OrOlder(names[j]).value, ParseRolledOverP3OrOlder(names[i]).value);
    }
  }

  /** The weeks of one group strictly ascend. */
  lemma GroupAscends(names: seq<string>, today: int, weekDiff: int, tenants: string, limit: nat, chosen: seq<IndexInfo>,
                     job: YearGroups.YearJob, a: int, b: int)
    requires YearGroups.Oldest(chosen, YearGroups.OfTenants(YearGroups.DueIn(names, today, weekDiff), tenants), limit)
    requires YearGroups.Selected(job, chosen) && YearGroups.OldestFirst(job.indices) && OneIndexEach(names)
    requires 0 <= a < b < |job.indices|
    ensures job.indices[a].week < job.indices[b].week && job.indices[a].year == job.indices[b].year
  {
    hide ParseRolledOverP3OrOlder, YearGroups.Oldest, OneIndexEach, YearGroups.Selected;
    var x, y := job.indices[a], job.indices[b];
    ChosenFromNames(names, today, weekDiff, tenants, limit, chosen);
    YearJobInfo(names, chosen, job, a);
    YearJobInfo(names, chosen, job, b);
    assert YearGroups.WeekNumber(x) <= YearGroups.WeekNumber(y);
    if x.index == y.index {
      Sorting.CountedTwice(job.indices, a, b);
      YearGroups.GroupedOnce(names, today, weekDiff, tenants, limit, chosen, job, x);
      var i, j := Sorting.FoundTwice(names, x.index);
      NotTwice(names, i, j);
    } else {
      OtherWeeks(names, x.index, y.index);
    }
  }

  lemma NotTwice(names: seq<string>, i: int, j: int)
    requires OneIndexEach(names) && 0 <= i < j < |names| && ParseRolledOverP3OrOlder(names[i]).Some?
    ensures names[i] != names[j]
  {
    hide ParseRolledOverP3OrOlder;
  }

  lemma YearJobInfo(names: seq<string>, chosen: seq<IndexInfo>, job: YearGroups.YearJob, a: int)
    requires FromNames(chosen, names) && YearGroups.Selected(job, chosen) && 0 <= a < |job.indices|
    ensures var info := job.indices[a];
            && info.index in names && ParseRolledOverP3OrOlder(info.index) == Some(info)
            && info.tenant == job.tenant && info.year == job.year && '_' !in job.tenant
  {
    hide ParseRolledOverP3OrOlder;
    assert job.indices[a] in job.indices;
    YearGroups.InYearMembers(chosen, job.tenant, job.year, job.indices[a]);
    ParsedKeepsName(job.indices[a].index);
  }

  lemma WeekSpansOf(names: seq<string>, info: IndexInfo)
    requires info.index in names && ParseRolledOverP3OrOlder(info.index) == Some(info)
    ensures info.index in WeekSpans(names) && WeekSpans(names)[info.index] == WeekSpan(info)
  {
    hide ParseRolledOverP3OrOlder, WeekSpan;
  }

  lemma LaterWeek(a: IndexInfo, b: IndexInfo)
    requires a.year == b.year && a.week < b.week
    ensures WeekSpan(a).hi <= WeekSpan(b).lo
  {
    hide DayNumber, EpochOf;
    EpochGrows(MondayOf(a.year, a.week) + 7, MondayOf(b.year, b.week));
  }

  /** Weeks of years that are not neighbours are apart, either way. */
  lemma FarWeeks(o: IndexInfo, info: IndexInfo)
    requires 1 <= o.week <= 53 && 1 <= info.week <= 53 && (o.year >= info.year + 2 || o.year <= info.year - 2)
    ensures Apart(WeekSpan(o), WeekSpan(info))
  {
    hide MondayOf, EpochOf;
    var a, b := MondayOf(o.year, o.week), MondayOf(info.year, info.week);
    if o.year >= info.year + 2 {
      FarYears(info.year, info.week, o.year, o.week);
      EpochGrows(a, b + 7);
    } else {
      FarYears(o.year, o.week, info.year, info.week);
      EpochGrows(a + 7, b);
    }
  }

  lemma YearJobsApart(s: State, names: seq<string>, cfg: RolloverConfig, chosen: seq<IndexInfo>, i: YearGroups.YearJob,
                      j: YearGroups.YearJob)
    requires WeeklyIndices(s, names, cfg) && FromNames(chosen, names) && YearGroups.Selected(i, chosen)
    requires YearGroups.Selected(j, chosen)
    requires i.tenant != j.tenant || i.year != j.year
    ensures JobsApart(WeekSpans(names), YearMerge(i), YearMerge(j))
  {
    hide ParseRolledOverP3OrOlder, P4Name, YearGroups.Selected, FromNames, Apart, WeekSpan, WeekSpans, HoldsItsWeek;
    forall o, src | o in YearMerge(i).sources && src in YearMerge(j).sources
      ensures o in WeekSpans(names) && src in WeekSpans(names)
      ensures src <= YearMerge(i).target || YearMerge(j).target <= YearMerge(i).target ==>
        Apart(WeekSpans(names)[o], WeekSpans(names)[src])
    {
      YearJobIndex(names, chosen, i, o);
      YearJobIndex(names, chosen, j, src);
      var early, late := ParseRolledOverP3OrOlder(o).value, ParseRolledOverP3OrOlder(src).value;
      WeekSpansOf(names, early);
      WeekSpansOf(names, late);
      if src <= YearMerge(i).target {
        P3AndP4Apart(src, i.tenant, i.year);
      } else if YearMerge(j).target <= YearMerge(i).target {
        P4Prefix(j.tenant, j.year, i.tenant, i.year);
        WeekIsSmall(s, early, cfg);
        WeekIsSmall(s, late, cfg);
        FarWeeks(early, late);
      }
    }
  }

  lemma WeekIsSmall(s: State, info: IndexInfo, cfg: RolloverConfig)
    requires HoldsItsWeek(s, info, cfg)
    ensures 1 <= info.week <= 53
  {
  }

  lemma GroupIsAscending(names: seq<string>, today: int, weekDiff: int, tenants: string, limit: nat,
                         chosen: seq<IndexInfo>, job: YearGroups.YearJob)
    requires YearGroups.Oldest(chosen, YearGroups.OfTenants(YearGroups.DueIn(names, today, weekDiff), tenants), limit)
    requires YearGroups.Selected(job, chosen) && YearGroups.OldestFirst(job.indices) && OneIndexEach(names)
    ensures Ascending(WeekSpans(names), YearMerge(job).sources)
  {
    hide ParseRolledOverP3OrOlder, YearGroups.Oldest, OneIndexEach, YearGroups.Selected, WeekSpan, WeekSpans,
      YearGroups.OldestFirst, P4Name;
    ChosenFromNames(names, today, weekDiff, tenants, limit, chosen);
    var spans, sources := WeekSpans(names), YearMerge(job).sources;
    forall a, b | 0 <= a < b < |sources| ensures Precedes(spans, sources[a], sources[b]) {
      YearJobInfo(names, chosen, job, a);
      YearJobInfo(names, chosen, job, b);
      WeekSpansOf(names, job.indices[a]);
      WeekSpansOf(names, job.indices[b]);
      GroupAscends(names, today, weekDiff, tenants, limit, chosen, job, a, b);
      LaterWeek(job.indices[a], job.indices[b]);
    }
  }

  lemma WeekIsSpanned(s: State, info: IndexInfo, cfg: RolloverConfig)
    requires Uniform(cfg) && HoldsItsWeek(s, info, cfg)
    ensures Spanned(s.indices[info.index], WeekSpan(info), cfg.aggWindow)
  {
    hide EpochOf, MondayOf, P4Name, NoBlanks, ValidationMeaning.Tagged;
    EpochIsAligned(MondayOf(info.year, info.week));
    EpochIsAligned(MondayOf(info.year, info.week) + 7);
  }

  lemma WeekIsPrepared(s: State, names: seq<string>, cfg: RolloverConfig, plan: Plan, info: IndexInfo)
    requires WellPlanned(plan) && WeeklyIndices(s, names, cfg) && info.index in names
    requires ParseRolledOverP3OrOlder(info.index) == Some(info)
    requires info.index in plan.frozen && plan.frozen[info.index] == s.indices[info.index]
    requires plan.target[info.index] == P4Name(info.tenant, info.year)
    ensures Prepared(s, plan, cfg, WeekSpans(names), info.index)
  {
    hide ParseRolledOverP3OrOlder, P4Name, WeekSpan, WeekSpans, Spanned, NoBlanks, ValidationMeaning.Tagged,
      OneIndexEach;
    WeekSpansOf(names, info);
    WeekIsSpanned(s, info, cfg);
    ParsedKeepsName(info.index);
    if info.index <= P4Name(info.tenant, info.year) || P4Name(info.tenant, info.year) <= info.index {
      P3AndP4Apart(info.index, info.tenant, info.year);
    }
  }

  /**
   * Sorted by week, cut and grouped by year, weekly indices are merged in an order in which none disturbs a later one.
   */
  lemma OldestFirstIsOrderly(s: State, names: seq<string>, today: int, weekDiff: int, tenants: string, limit: nat,
                             cfg: RolloverConfig, chosen: seq<IndexInfo>, years: seq<YearGroups.YearJob>)
    requires YearGroups.Oldest(chosen, YearGroups.OfTenants(YearGroups.DueIn(names, today, weekDiff), tenants), limit)
    requires forall job <- years :: YearGroups.Selected(job, chosen) && YearGroups.OldestFirst(job.indices)
    requires forall i, j :: 0 <= i < j < |years| ==>
      years[i].tenant != years[j].tenant || years[i].year != years[j].year
    requires WeeklyIndices(s, names, cfg) && Startable(s, YearMerges(years), cfg)
    ensures var plan := PlanOf(s, YearMerges(years), cfg);
            WellPlanned(plan) && Orderly(s, plan, cfg, WeekSpans(names), Order(YearMerges(years)))
  {
    hide ParseRolledOverP3OrOlder, YearGroups.Oldest, OneIndexEach, YearGroups.Selected, WeekSpan, WeekSpans,
      YearGroups.OldestFirst, P4Name,
      PlanOf, Startable, Ascending, JobsApart, Prepared, HoldsItsWeek, FromNames, Orderly, Order;
    var jobs := YearMerges(years);
    var plan := PlanOf(s, jobs, cfg);
    ChosenFromNames(names, today, weekDiff, tenants, limit, chosen);
    JobsPlanIsWell(s, jobs, cfg);
    StartableIsSeparate(s, jobs, cfg);
    forall j | 0 <= j < |jobs| ensures Ascending(WeekSpans(names), jobs[j].sources) {
      assert years[j] in years;
      GroupIsAscending(names, today, weekDiff, tenants, limit, chosen, years[j]);
    }
    forall i, j | 0 <= i < j < |jobs| ensures JobsApart(WeekSpans(names), jobs[i], jobs[j]) {
      assert years[i] in years && years[j] in years;
      YearJobsApart(s, names, cfg, chosen, years[i], years[j]);
    }
    forall j, src | 0 <= j < |jobs| && src in jobs[j].sources ensures Prepared(s, plan, cfg, WeekSpans(names), src) {
      assert years[j] in years;
      YearJobIndex(names, chosen, years[j], src);
      PlanRoutes(s, jobs, cfg, j, src);
      StartableIsThere(s, jobs, cfg, j, src);
      WeekIsPrepared(s, names, cfg, plan, ParseRolledOverP3OrOlder(src).value);
    }
    AscendingJobsAreOrderly(s, plan, cfg, WeekSpans(names), jobs);
  }

  lemma StartableIsSeparate(s: State, jobs: seq<MergeJob>, cfg: RolloverConfig)
    requires Startable(s, jobs, cfg)
    ensures Separate(jobs)
  {
  }
}
