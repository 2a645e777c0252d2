/** The p2 to p3 migration from the listed names to the merged weeks. */
module WeekMigration {
  import opened Documents
  import opened TimeRanges
  import opened RollUp
  import opened Cluster
  import opened PageRolls
  import opened Checks
  import opened Traces
  import opened Lifecycle
  import opened Merges
  import opened IndexNames
  import opened Calendar
  import opened Reruns
  import opened Plans
  import WeekGroups

  function WeekTarget(tenant: string, week: int): string {
    var (y, w) := SplitYearWeekNumber(week);
    P3Name(tenant, y, w)
  }

  function WeekMerge(job: WeekGroups.WeekJob): MergeJob {
    MergeJob(NamesOf(job.indices), WeekTarget(job.tenant, job.week), AliasOf(job.tenant))
  }

  function WeekMerges(jobs: seq<WeekGroups.WeekJob>): seq<MergeJob> {
    seq(|jobs|, i requires 0 <= i < |jobs| => WeekMerge(jobs[i]))
  }

  /** A p2 index goes into its tenant's index of its ISO week. */
  function RouteP2(n: string): Option<Way> {
    if ParseRolledOverV2P2(n).None? then None
    else
      var info := ParseRolledOverV2P2(n).value;
      Some(Way(WeekTarget(info.tenant, WeekGroups.WeekOf(info)), AliasOf(info.tenant)))
  }

  lemma RouteP2IsProper()
    ensures Proper(RouteP2)
  {
    hide ParseRolledOverV2P2, WeekTarget;
    forall n, o | RouteP2(n).Some? && RouteP2(o).Some? ensures RouteP2(n).value.target != o {
      ParsedKeepsName(n);
      WeekTargetIsNot(ParseRolledOverV2P2(n).value.tenant, WeekGroups.WeekOf(ParseRolledOverV2P2(n).value), o);
    }
  }

  ghost predicate WeekSource(names: seq<string>, today: int, weekDiff: int, src: string) {
    exists job, info ::
      && WeekGroups.Selected(job, WeekGroups.RolledIn(names), WeekGroups.WaitingIn(names), today, weekDiff)
      && info in job.indices && info.index == src
  }

  lemma WeekJobIndex(names: seq<string>, today: int, weekDiff: int, job: WeekGroups.WeekJob, src: string)
    requires WeekGroups.Selected(job, WeekGroups.RolledIn(names), WeekGroups.WaitingIn(names), today, weekDiff)
    requires src in NamesOf(job.indices)
    ensures src in names && ParseRolledOverV2P2(src).Some?
    ensures var info := ParseRolledOverV2P2(src).value;
            && info in job.indices && info.index == src && info.tenant == job.tenant
            && WeekGroups.WeekOf(info) == job.week && '_' !in job.tenant
  {
    hide ParseRolledOverV2P2;
    var i :| 0 <= i < |job.indices| && NamesOf(job.indices)[i] == src;
    var info := job.indices[i];
    assert info in job.indices;
    WeekGroups.ExactlyOneGroup(WeekGroups.RolledIn(names), info, job.tenant, job.week);
    WeekGroups.RolledInNames(names, info);
    var n :| n in names && ParseRolledOverV2P2(n) == Some(info);
    ParsedKeepsName(n);
  }

  // ----- how old a taken week is

  /** A p2 index that parses is taken iff its week is due and no v2 index of the week waits. */
  lemma WeekSourceIff(names: seq<string>, today: int, weekDiff: int, n: string)
    requires n in names && ParseRolledOverV2P2(n).Some?
    ensures var info := ParseRolledOverV2P2(n).value;
            WeekSource(names, today, weekDiff, n) <==>
              && WeekGroups.Due(weekDiff, today, WeekGroups.WeekOf(info))
              && forall o <- names :: !WeekGroups.Blocks(o, info.tenant, WeekGroups.WeekOf(info))
  {
    hide ParseRolledOverV2P2, ParseIndexName, WeekGroups.Due, WeekGroups.WeekOf, WeekGroups.InWeek, WeekGroups.Waits,
      WeekGroups.Selected;
    var info := ParseRolledOverV2P2(n).value;
    var week, rolled, waiting := WeekGroups.WeekOf(info), WeekGroups.RolledIn(names), WeekGroups.WaitingIn(names);
    ParsedKeepsName(n);
    WeekGroups.RolledInNames(names, info);
    WeekGroups.ExactlyOneGroup(rolled, info, info.tenant, week);
    WeekGroups.NoneBlocksIff(names, info.tenant, week);
    var job := WeekGroups.WeekJob(info.tenant, week, WeekGroups.InWeek(rolled, info.tenant, week));
    SelectedIff(job, names, today, weekDiff);
    if job', info' :|
      && WeekGroups.Selected(job', rolled, waiting, today, weekDiff)
      && info' in job'.indices && info'.index == n
    {
      var i :| 0 <= i < |job'.indices| && job'.indices[i] == info';
      assert NamesOf(job'.indices)[i] == n;
      WeekJobIndex(names, today, weekDiff, job', n);
      SelectedIff(job', names, today, weekDiff);
      assert job' == job;
    }
  }

  lemma SelectedIff(job: WeekGroups.WeekJob, names: seq<string>, today: int, weekDiff: int)
    ensures WeekGroups.Selected(job, WeekGroups.RolledIn(names), WeekGroups.WaitingIn(names), today, weekDiff) <==>
            && job.indices == WeekGroups.InWeek(WeekGroups.RolledIn(names), job.tenant, job.week) && job.indices != []
            && WeekGroups.Due(weekDiff, today, job.week)
            && WeekGroups.InWeek(WeekGroups.WaitingIn(names), job.tenant, job.week) == []
  {
  }

  /** No p1 index of schema v2 of this tenant and calendar week is listed. */
  ghost predicate NoneWaits(names: seq<string>, tenant: string, day: int) {
    forall o <- names :: WeekGroups.Waits(o) ==>
      var info := ParseIndexName(o).value;
      !(info.tenant == tenant && WeekIndex(DayNumber(info.year, info.day)) == WeekIndex(day))
  }

  lemma NoneWaitsIff(names: seq<string>, tenant: string, info: IndexInfo)
    ensures NoneWaits(names, tenant, DayNumber(info.year, info.day)) <==>
            forall o <- names :: !WeekGroups.Blocks(o, tenant, WeekGroups.WeekOf(info))
  {
    hide ParseIndexName, DayNumber, IsoYear, IsoWeek, YearWeekNumber, WeekIndex, WeekGroups.Waits;
    forall o <- names | WeekGroups.Waits(o)
      ensures ParseIndexName(o).Some?
      ensures var i := ParseIndexName(o).value;
              WeekGroups.WeekOf(i) == WeekGroups.WeekOf(info) <==>
              WeekIndex(DayNumber(i.year, i.day)) == WeekIndex(DayNumber(info.year, info.day))
    {
      WeekGroups.WaiterParses(o);
      var i := ParseIndexName(o).value;
      SameWeekIff(DayNumber(i.year, i.day), DayNumber(info.year, info.day));
    }
  }

  /**
   * By the true weeks: a taken p2 index is in a week more than the threshold before this one, none of whose v2 days
   * waits; when none waits, a week more than the threshold and the ISO years since then back is taken, and of this
   * ISO year exactly the weeks further back than the threshold are.
   */
  ghost predicate TakesByWeek(taken: set<string>, names: seq<string>, today: int, weekDiff: int) {
    forall n <- names :: ParseRolledOverV2P2(n).Some? ==>
      var info := ParseRolledOverV2P2(n).value;
      var day := DayNumber(info.year, info.day);
      IsoYear(day) >= 0 ==>
        var age := WeekIndex(today) - WeekIndex(day);
        && (n in taken ==> age > weekDiff && NoneWaits(names, info.tenant, day))
        && (NoneWaits(names, info.tenant, day) ==>
              && (age > weekDiff + (IsoYear(today) - IsoYear(day)) ==> n in taken)
              && (IsoYear(today) == IsoYear(day) ==> (n in taken <==> age > weekDiff)))
  }

  lemma DueByWeek(taken: set<string>, names: seq<string>, today: int, weekDiff: int)
    requires weekDiff >= 0 && forall n <- names :: n in taken <==> WeekSource(names, today, weekDiff, n)
    ensures TakesByWeek(taken, names, today, weekDiff)
  {
    hide ParseRolledOverV2P2, NoneWaits, WeekSource;
    forall n <- names | ParseRolledOverV2P2(n).Some? && IsoYearOf(ParseRolledOverV2P2(n).value) >= 0
      ensures var info := ParseRolledOverV2P2(n).value;
              var day := DayNumber(info.year, info.day);
              var age := WeekIndex(today) - WeekIndex(day);
              && (n in taken ==> age > weekDiff && NoneWaits(names, info.tenant, day))
              && (NoneWaits(names, info.tenant, day) ==>
                    && (age > weekDiff + (IsoYear(today) - IsoYear(day)) ==> n in taken)
                    && (IsoYear(today) == IsoYear(day) ==> (n in taken <==> age > weekDiff)))
    {
      WeekIsTaken(taken, names, today, weekDiff, n);
    }
  }

  function IsoYearOf(info: IndexInfo): int {
    IsoYear(DayNumber(info.year, info.day))
  }

  lemma WeekIsTaken(taken: set<string>, names: seq<string>, today: int, weekDiff: int, n: string)
    requires weekDiff >= 0 && n in names && ParseRolledOverV2P2(n).Some?
    requires n in taken <==> WeekSource(names, today, weekDiff, n)
    requires IsoYearOf(ParseRolledOverV2P2(n).value) >= 0
    ensures var info := ParseRolledOverV2P2(n).value;
            var day := DayNumber(info.year, info.day);
            var age := WeekIndex(today) - WeekIndex(day);
            && (n in taken ==> age > weekDiff && NoneWaits(names, info.tenant, day))
            && (NoneWaits(names, info.tenant, day) ==>
                  && (age > weekDiff + (IsoYear(today) - IsoYear(day)) ==> n in taken)
                  && (IsoYear(today) == IsoYear(day) ==> (n in taken <==> age > weekDiff)))
  {
    hide ParseRolledOverV2P2, NoneWaits, WeekSource, IsoYear, IsoWeek, DayNumber, WeekIndex, IsWeekDifferenceMoreThan,
      YearWeekNumber, SplitYearWeekNumber;
    var info := ParseRolledOverV2P2(n).value;
    var day := DayNumber(info.year, info.day);
    WeekSourceIff(names, today, weekDiff, n);
    NoneWaitsIff(names, info.tenant, info);
    IsoWeekRule(0, day);
    YearWeekRoundTripIff(IsoYear(day), IsoWeek(day));
    if IsWeekDifferenceMoreThan(weekDiff, IsoYear(today), IsoWeek(today), IsoYear(day), IsoWeek(day)) {
      WeekTestIsSafe(weekDiff, today, day);
    }
    if WeekIndex(today) - WeekIndex(day) > weekDiff + (IsoYear(today) - IsoYear(day)) {
      WeekTestReaches(weekDiff, today, day);
    }
    if IsoYear(today) == IsoYear(day) {
      WeekTestInYear(weekDiff, today, day);
    }
  }

  lemma WeekMergesRouted(names: seq<string>, today: int, weekDiff: int, jobs: seq<WeekGroups.WeekJob>)
    requires forall job <- jobs ::
      WeekGroups.Selected(job, WeekGroups.RolledIn(names), WeekGroups.WaitingIn(names), today, weekDiff)
    requires forall i, j :: 0 <= i < j < |jobs| ==> jobs[i].tenant != jobs[j].tenant || jobs[i].week != jobs[j].week
    ensures Routed(WeekMerges(jobs), names, RouteP2)
  {
    hide ParseRolledOverV2P2, WeekGroups.Selected, WeekTarget;
    var merges := WeekMerges(jobs);
    forall j, src | 0 <= j < |merges| && src in merges[j].sources
      ensures src in names && RouteP2(src) == Some(Way(merges[j].target, merges[j].alias))
    {
      assert jobs[j] in jobs;
      WeekJobIndex(names, today, weekDiff, jobs[j], src);
    }
    forall j | 0 <= j < |merges| ensures merges[j].sources != [] {
      assert jobs[j] in jobs;
      WeekJobNotEmpty(names, today, weekDiff, jobs[j]);
    }
    forall i, j, src | 0 <= i < j < |merges| && src in merges[i].sources ensures src !in merges[j].sources {
      assert jobs[i] in jobs && jobs[j] in jobs;
      WeekJobIndex(names, today, weekDiff, jobs[i], src);
      if src in merges[j].sources {
        WeekJobIndex(names, today, weekDiff, jobs[j], src);
      }
    }
    assert Separate(merges);
  }

  lemma WeekJobNotEmpty(names: seq<string>, today: int, weekDiff: int, job: WeekGroups.WeekJob)
    requires WeekGroups.Selected(job, WeekGroups.RolledIn(names), WeekGroups.WaitingIn(names), today, weekDiff)
    ensures job.indices != []
  {
  }

  lemma WeekTargetIsNot(tenant: string, week: int, p2: string)
    requires '_' !in tenant && ParseRolledOverV2P2(p2).Some?
    ensures WeekTarget(tenant, week) != p2
  {
    var (y, w) := SplitYearWeekNumber(week);
    TargetsAreNotSources("", IndexInfo("", "", 0, 0, 0, "", ""), tenant, y, w, p2, "");
  }

  /** The selected weeks can start. */
  lemma WeeksStart(s: State, names: seq<string>, today: int, weekDiff: int, cfg: RolloverConfig,
                   weeks: seq<WeekGroups.WeekJob>)
    requires AllReady(s, names, RouteP2, cfg)
    requires forall job <- weeks ::
      WeekGroups.Selected(job, WeekGroups.RolledIn(names), WeekGroups.WaitingIn(names), today, weekDiff)
    requires forall job |
      WeekGroups.Selected(job, WeekGroups.RolledIn(names), WeekGroups.WaitingIn(names), today, weekDiff) ::
      job in weeks
    requires forall i, j :: 0 <= i < j < |weeks| ==>
      weeks[i].tenant != weeks[j].tenant || weeks[i].week != weeks[j].week
    ensures var jobs := WeekMerges(weeks);
            var plan := PlanOf(s, jobs, cfg);
            && Routed(jobs, names, RouteP2) && Proper(RouteP2) && Runs(plan, cfg) && Planned(jobs, plan)
            && Good(s, plan, cfg) && forall src :: src in plan.frozen <==> WeekSource(names, today, weekDiff, src)
  {
    hide AllReady, RouteP2, WeekGroups.Selected, NoLoss, Startable, SafeConfig, Routed, Proper, Planned, Good, PlanOf,
      Order, WeekSource;
    var jobs := WeekMerges(weeks);
    WeekMergesRouted(names, today, weekDiff, weeks);
    RouteP2IsProper();
    RoutedStart(s, jobs, names, RouteP2, cfg);
    PlanStarts(s, jobs, cfg);
    WeekPlanSources(names, today, weekDiff, weeks);
  }

  /** mergeP2Indices: from the listed names to the merged weeks. */
  method MigrateP2ToP3(cluster: SearchCluster, names: seq<string>, today: int, weekDiff: int, cfg: RolloverConfig,
                       orders: Orders, ghost spans: map<string, Span>)
    returns (errors: nat, ghost jobs: seq<MergeJob>, ghost outcomes: seq<Outcome>, ghost plan: Plan)
    requires ValidOrders(orders) && cluster.Logged() && AllReady(cluster.st, names, RouteP2, cfg)
    modifies cluster
    ensures cluster.Logged() && Migrated(old(cluster.trace), cluster.trace, names, RouteP2, cfg, jobs, plan, errors)
    ensures forall src :: src in plan.frozen <==> WeekSource(names, today, weekDiff, src)
    ensures weekDiff >= 0 ==> TakesByWeek(plan.frozen.Keys, names, today, weekDiff)
    ensures |outcomes| == |jobs|
    ensures Accounts(cluster.trace, cluster.refused, |old(cluster.trace)| - 1, |old(cluster.refused)|, jobs, outcomes,
                     errors, plan, cfg)
    ensures cluster.Grew(old(cluster.refused))
    ensures cluster.calm && Orderly(old(cluster.st), plan, cfg, spans, Order(jobs)) ==> errors == 0
  {
    hide AllReady, RouteP2, WeekGroups.Selected, Orderly, GoneChecked, Ran, NoLoss, Startable, SafeConfig, Migrated,
      Routed, Proper, Accounts, TakesByWeek, WeekSource, Planned, Good, PlanOf, ValidOrders, Order, WellPlanned, Listed,
      WeekMerges;
    var weeks := WeekGroups.MergeP2Indices(names, today, weekDiff);
    var merges := WeekMerges(weeks);
    jobs := merges;
    plan := PlanOf(cluster.st, jobs, cfg);
    WeeksStart(cluster.st, names, today, weekDiff, cfg, weeks);
    if weekDiff >= 0 {
      DueByWeek(plan.frozen.Keys, names, today, weekDiff);
    }
    errors, outcomes := RunMerges(cluster, merges, false, cfg, orders, plan, spans);
    RunIsMigrated(old(cluster.trace), cluster.trace, names, RouteP2, cfg, jobs, plan, errors);
  }

  lemma WeekPlanSources(names: seq<string>, today: int, weekDiff: int, jobs: seq<WeekGroups.WeekJob>)
    requires forall job <- jobs ::
      WeekGroups.Selected(job, WeekGroups.RolledIn(names), WeekGroups.WaitingIn(names), today, weekDiff)
    requires forall job ::
      WeekGroups.Selected(job, WeekGroups.RolledIn(names), WeekGroups.WaitingIn(names), today, weekDiff) ==> job in jobs
    ensures forall src :: src in Order(WeekMerges(jobs)) <==> WeekSource(names, today, weekDiff, src)
  {
    hide WeekGroups.Selected, Order;
    var merges := WeekMerges(jobs);
    forall src ensures src in Order(merges) <==> WeekSource(names, today, weekDiff, src) {
      OrderMembers(merges, src);
      if j :| 0 <= j < |merges| && src in merges[j].sources {
        var i :| 0 <= i < |jobs[j].indices| && NamesOf(jobs[j].indices)[i] == src;
        assert jobs[j] in jobs && jobs[j].indices[i] in jobs[j].indices;
      }
      if job, info :|
        && WeekGroups.Selected(job, WeekGroups.RolledIn(names), WeekGroups.WaitingIn(names), today, weekDiff)
        && info in job.indices && info.index == src
      {
        var j :| 0 <= j < |jobs| && jobs[j] == job;
        var i :| 0 <= i < |job.indices| && job.indices[i] == info;
        assert NamesOf(job.indices)[i] == src;
        assert src in merges[j].sources;
      }
    }
  }
}
