/** The p3 to p4 migration from the listed names to the merged years. */
module YearMigration {
  import opened Documents
  import opened TimeRanges
  import opened RollUp
  import opened Cluster
  import opened PageRolls
  import opened Checks
  import opened Traces
  import opened Lifecycle
  import opened Merges
  import opened Text
  import opened IndexNames
  import opened Calendar
  import opened Reruns
  import opened Plans
  import opened YearOrder
  import YearGroups

  /** A p3 or older index goes into its tenant's index of its year. */
  function RouteP3(n: string): Option<Way> {
    if ParseRolledOverP3OrOlder(n).None? then None
    else
      var info := ParseRolledOverP3OrOlder(n).value;
      Some(Way(P4Name(info.tenant, info.year), AliasOf(info.tenant)))
  }

  lemma RouteP3IsProper()
    ensures Proper(RouteP3)
  {
    hide ParseRolledOverP3OrOlder, P4Name;
    forall n, o | RouteP3(n).Some? && RouteP3(o).Some? ensures RouteP3(n).value.target != o {
      ParsedKeepsName(n);
      YearTargetIsNot(ParseRolledOverP3OrOlder(n).value.tenant, ParseRolledOverP3OrOlder(n).value.year, o);
    }
  }

  lemma YearTargetIsNot(tenant: string, year: int, p3: string)
    requires '_' !in tenant && ParseRolledOverP3OrOlder(p3).Some?
    ensures P4Name(tenant, year) != p3
  {
    TargetsAreNotSources("", IndexInfo("", "", 0, 0, 0, "", ""), tenant, year, 0, "", p3);
  }

  lemma YearJobNotEmpty(job: YearGroups.YearJob, chosen: seq<IndexInfo>)
    requires YearGroups.Selected(job, chosen)
    ensures job.indices != []
  {
  }

  lemma YearMergesRouted(names: seq<string>, chosen: seq<IndexInfo>, jobs: seq<YearGroups.YearJob>)
    requires FromNames(chosen, names) && forall job <- jobs :: YearGroups.Selected(job, chosen)
    requires forall i, j :: 0 <= i < j < |jobs| ==> jobs[i].tenant != jobs[j].tenant || jobs[i].year != jobs[j].year
    ensures Routed(YearMerges(jobs), names, RouteP3)
  {
    hide ParseRolledOverP3OrOlder, YearGroups.Selected, P4Name, FromNames;
    var merges := YearMerges(jobs);
    forall j, src | 0 <= j < |merges| && src in merges[j].sources
      ensures src in names && RouteP3(src) == Some(Way(merges[j].target, merges[j].alias))
    {
      assert jobs[j] in jobs;
      YearJobIndex(names, chosen, jobs[j], src);
    }
    forall j | 0 <= j < |merges| ensures merges[j].sources != [] {
      assert jobs[j] in jobs;
      YearJobNotEmpty(jobs[j], chosen);
    }
    forall i, j, src | 0 <= i < j < |merges| && src in merges[i].sources ensures src !in merges[j].sources {
      assert jobs[i] in jobs && jobs[j] in jobs;
      YearJobIndex(names, chosen, jobs[i], src);
      if src in merges[j].sources {
        YearJobIndex(names, chosen, jobs[j], src);
      }
    }
    assert Separate(merges);
  }

  lemma YearPlanSources(names: seq<string>, chosen: seq<IndexInfo>, jobs: seq<YearGroups.YearJob>)
    requires FromNames(chosen, names) && (forall job <- jobs :: YearGroups.Selected(job, chosen))
    requires forall job :: YearGroups.Selected(job, chosen) ==> job in jobs
    ensures forall src :: src in Order(YearMerges(jobs)) <==> src in NamesOf(chosen)
  {
    hide Order, ParseRolledOverP3OrOlder;
    var merges := YearMerges(jobs);
    forall src ensures src in Order(merges) <==> src in NamesOf(chosen) {
      OrderMembers(merges, src);
      if j :| 0 <= j < |merges| && src in merges[j].sources {
        assert jobs[j] in jobs;
        YearJobIndex(names, chosen, jobs[j], src);
        var i :| 0 <= i < |chosen| && chosen[i] == ParseRolledOverP3OrOlder(src).value;
        assert NamesOf(chosen)[i] == src;
      }
      if i :| 0 <= i < |chosen| && NamesOf(chosen)[i] == src {
        var info := chosen[i];
        var job := YearGroups.YearJob(info.tenant, info.year, YearGroups.InYear(chosen, info.tenant, info.year));
        YearGroups.InYearMembers(chosen, info.tenant, info.year, info);
        var k :| 0 <= k < |job.indices| && job.indices[k] == info;
        assert YearGroups.Selected(job, chosen) && NamesOf(job.indices)[k] == src;
        var j :| 0 <= j < |jobs| && jobs[j] == job;
        assert src in merges[j].sources;
      }
    }
  }

  // ----- which tenants, and how old

  /** The tenant is one of those asked for, between commas; no text asks for all. */
  predicate AskedFor(tenant: string, tenants: string) {
    tenants == "" || tenant in Split(tenants, ',')
  }

  /** The indices taken are full up to the limit, and none of them is of a later year and week than this one. */
  ghost predicate FullOfOlder(chosen: seq<IndexInfo>, limit: nat, info: IndexInfo) {
    |chosen| == limit && forall c <- chosen :: c.year * 100 + c.week <= info.year * 100 + info.week
  }

  /**
   * By the true weeks, for names of weeks of the calendar: a taken index is of a tenant asked for and more than the
   * threshold old; one of such a tenant that is more than the threshold and the ISO years since then old is taken,
   * and so are all of this ISO year that are older than the threshold, unless the limit is used up by older ones.
   */
  ghost predicate TakesOldWeeks(taken: set<string>, names: seq<string>, today: int, weekDiff: int, tenants: string,
                                limit: nat, chosen: seq<IndexInfo>) {
    forall n <- names :: ParseRolledOverP3OrOlder(n).Some? ==>
      var info := ParseRolledOverP3OrOlder(n).value;
      && (n in taken ==> AskedFor(info.tenant, tenants))
      && (RealWeek(info.year, info.week) ==>
            var age := WeekIndex(today) - WeekIndex(MondayOf(info.year, info.week));
            && (n in taken ==> age > weekDiff)
            && (AskedFor(info.tenant, tenants) && age > weekDiff + (IsoYear(today) - info.year) ==>
                  n in taken || FullOfOlder(chosen, limit, info))
            && (AskedFor(info.tenant, tenants) && IsoYear(today) == info.year && age > weekDiff ==>
                  n in taken || FullOfOlder(chosen, limit, info)))
  }

  lemma DueByAge(taken: set<string>, names: seq<string>, today: int, weekDiff: int, tenants: string, limit: nat,
                 chosen: seq<IndexInfo>)
    requires weekDiff >= 0 && forall n :: n in taken <==> n in NamesOf(chosen)
    requires YearGroups.Oldest(chosen, YearGroups.OfTenants(YearGroups.DueIn(names, today, weekDiff), tenants), limit)
    ensures TakesOldWeeks(taken, names, today, weekDiff, tenants, limit, chosen)
  {
    hide ParseRolledOverP3OrOlder, YearGroups.Oldest, RealWeek, IsoYear, MondayOf, AskedFor, FullOfOlder, WeekIndex;
    forall n <- names | ParseRolledOverP3OrOlder(n).Some?
      ensures var info := ParseRolledOverP3OrOlder(n).value;
              && (n in taken ==> AskedFor(info.tenant, tenants))
              && (RealWeek(info.year, info.week) ==>
                    var age := WeekIndex(today) - WeekIndex(MondayOf(info.year, info.week));
                    && (n in taken ==> age > weekDiff)
                    && (AskedFor(info.tenant, tenants) && age > weekDiff + (IsoYear(today) - info.year) ==>
                          n in taken || FullOfOlder(chosen, limit, info))
                    && (AskedFor(info.tenant, tenants) && IsoYear(today) == info.year && age > weekDiff ==>
                          n in taken || FullOfOlder(chosen, limit, info)))
    {
      TakenIff(taken, names, today, weekDiff, tenants, limit, chosen, n);
      OldWeekIsDue(n, today, weekDiff);
    }
  }

  /** The age test of a name of a real week, by its true distance. */
  lemma OldWeekIsDue(n: string, today: int, weekDiff: int)
    requires weekDiff >= 0 && ParseRolledOverP3OrOlder(n).Some?
    ensures var info := ParseRolledOverP3OrOlder(n).value;
            var age := WeekIndex(today) - WeekIndex(MondayOf(info.year, info.week));
            RealWeek(info.year, info.week) ==>
              && (YearGroups.Due(n, today, weekDiff) ==> age > weekDiff)
              && (age > weekDiff + (IsoYear(today) - info.year) ==> YearGroups.Due(n, today, weekDiff))
              && (IsoYear(today) == info.year && age > weekDiff ==> YearGroups.Due(n, today, weekDiff))
  {
    hide ParseRolledOverP3OrOlder, IsoYear, IsoWeek, MondayOf, IsWeekDifferenceMoreThan, WeekIndex;
    var info := ParseRolledOverP3OrOlder(n).value;
    var monday := MondayOf(info.year, info.week);
    ParsedP3HasPrefix(n);
    if RealWeek(info.year, info.week) {
      if YearGroups.Due(n, today, weekDiff) {
        WeekTestIsSafe(weekDiff, today, monday);
      }
      if WeekIndex(today) - WeekIndex(monday) > weekDiff + (IsoYear(today) - info.year) {
        WeekTestReaches(weekDiff, today, monday);
      }
      if IsoYear(today) == info.year {
        WeekTestInYear(weekDiff, today, monday);
      }
    }
  }

  lemma ParsedP3HasPrefix(n: string)
    requires ParseRolledOverP3OrOlder(n).Some?
    ensures "rolled_over" <= n
  {
    hide Split, Atoi, Tagged, ContainsFrom;
  }

  /** A taken index is due and asked for; one that is both is taken unless the limit is used up by older ones. */
  lemma TakenIff(taken: set<string>, names: seq<string>, today: int, weekDiff: int, tenants: string, limit: nat,
                 chosen: seq<IndexInfo>, n: string)
    requires n in names && ParseRolledOverP3OrOlder(n).Some? && forall m :: m in taken <==> m in NamesOf(chosen)
    requires YearGroups.Oldest(chosen, YearGroups.OfTenants(YearGroups.DueIn(names, today, weekDiff), tenants), limit)
    ensures var info := ParseRolledOverP3OrOlder(n).value;
            && (n in taken ==> YearGroups.Due(n, today, weekDiff) && AskedFor(info.tenant, tenants))
            && (YearGroups.Due(n, today, weekDiff) && AskedFor(info.tenant, tenants) ==>
                  n in taken || FullOfOlder(chosen, limit, info))
  {
    hide ParseRolledOverP3OrOlder, YearGroups.Due, YearGroups.DueIn, YearGroups.OfTenants, YearGroups.OldestFirst;
    var info := ParseRolledOverP3OrOlder(n).value;
    var due := YearGroups.DueIn(names, today, weekDiff);
    var candidates := YearGroups.OfTenants(due, tenants);
    ParsedKeepsName(n);
    YearGroups.DueInNames(names, today, weekDiff, info);
    YearGroups.OfTenantsMembers(due, tenants, info);
    var left: seq<IndexInfo> :|
      && multiset(chosen) + multiset(left) == multiset(candidates)
      && forall c, l :: c in chosen && l in left ==> YearGroups.WeekNumber(c) <= YearGroups.WeekNumber(l);
    if n in taken {
      var i :| 0 <= i < |chosen| && NamesOf(chosen)[i] == n;
      ChosenFromNames(names, today, weekDiff, tenants, limit, chosen);
      assert chosen[i] in chosen && chosen[i] == info;
      assert info in multiset(chosen) && info in multiset(candidates);
      var m :| m in names && YearGroups.Due(m, today, weekDiff) && ParseRolledOverP3OrOlder(m) == Some(info);
      ParsedKeepsName(m);
    } else if info in candidates {
      assert info in multiset(candidates);
      NameIsThere(chosen, info);
      assert info in multiset(left);
      LimitIsUsed(chosen, left, candidates, limit);
      assert forall c <- chosen :: YearGroups.WeekNumber(c) <= YearGroups.WeekNumber(info);
    }
  }

  lemma NameIsThere(chosen: seq<IndexInfo>, info: IndexInfo)
    ensures info in chosen ==> info.index in NamesOf(chosen)
  {
    if i :| 0 <= i < |chosen| && chosen[i] == info {
      assert NamesOf(chosen)[i] == info.index;
    }
  }

  lemma LimitIsUsed(chosen: seq<IndexInfo>, left: seq<IndexInfo>, candidates: seq<IndexInfo>, limit: nat)
    requires multiset(chosen) + multiset(left) == multiset(candidates) && left != []
    requires |chosen| == if |candidates| <= limit then |candidates| else limit
    ensures |chosen| == limit
  {
    assert |multiset(chosen)| + |multiset(left)| == |multiset(chosen) + multiset(left)|;
    assert |multiset(candidates)| == |candidates| && |multiset(chosen)| == |chosen| && |multiset(left)| == |left|;
  }

  /** The chosen years can start, and in order when the indices hold their weeks. */
  lemma YearsStart(s: State, names: seq<string>, today: int, weekDiff: int, tenants: string, limit: nat,
                   cfg: RolloverConfig, chosen: seq<IndexInfo>, years: seq<YearGroups.YearJob>)
    requires AllReady(s, names, RouteP3, cfg)
    requires YearGroups.Oldest(chosen, YearGroups.OfTenants(YearGroups.DueIn(names, today, weekDiff), tenants), limit)
    requires forall job <- years :: YearGroups.Selected(job, chosen) && YearGroups.OldestFirst(job.indices)
    requires forall job :: YearGroups.Selected(job, chosen) ==> job in years
    requires forall i, j :: 0 <= i < j < |years| ==>
      years[i].tenant != years[j].tenant || years[i].year != years[j].year
    ensures var jobs := YearMerges(years);
            var plan := PlanOf(s, jobs, cfg);
            && Routed(jobs, names, RouteP3) && Proper(RouteP3) && Runs(plan, cfg) && Planned(jobs, plan)
            && Good(s, plan, cfg) && (forall src :: src in plan.frozen <==> src in NamesOf(chosen))
            && (WeeklyIndices(s, names, cfg) ==> Orderly(s, plan, cfg, WeekSpans(names), Order(jobs)))
  {
    hide AllReady, RouteP3, YearGroups.Selected, YearGroups.Oldest, YearGroups.OldestFirst, Orderly, NoLoss, Startable,
      SafeConfig, FromNames, Routed, Proper, WeeklyIndices, WeekSpans, Planned, Good, PlanOf, Order;
    var jobs := YearMerges(years);
    ChosenFromNames(names, today, weekDiff, tenants, limit, chosen);
    YearMergesRouted(names, chosen, years);
    RouteP3IsProper();
    RoutedStart(s, jobs, names, RouteP3, cfg);
    PlanStarts(s, jobs, cfg);
    YearPlanSources(names, chosen, years);
    if WeeklyIndices(s, names, cfg) {
      OldestFirstIsOrderly(s, names, today, weekDiff, tenants, limit, cfg, chosen, years);
    }
  }

  /** mergeP3AndOlderRolledOverIndices: from the listed names to the merged years, oldest first. */
  method MigrateP3ToP4(cluster: SearchCluster, names: seq<string>, today: int, weekDiff: int, tenants: string,
                       limit: nat, cfg: RolloverConfig, orders: Orders, ghost spans: map<string, Span>)
    returns (errors: nat, ghost chosen: seq<IndexInfo>, ghost jobs: seq<MergeJob>, ghost outcomes: seq<Outcome>,
             ghost plan: Plan)
    requires ValidOrders(orders) && cluster.Logged() && AllReady(cluster.st, names, RouteP3, cfg)
    modifies cluster
    ensures cluster.Logged() && Migrated(old(cluster.trace), cluster.trace, names, RouteP3, cfg, jobs, plan, errors)
    ensures YearGroups.Oldest(chosen, YearGroups.OfTenants(YearGroups.DueIn(names, today, weekDiff), tenants), limit)
    ensures forall src :: src in plan.frozen <==> src in NamesOf(chosen)
    ensures weekDiff >= 0 ==>
      TakesOldWeeks(plan.frozen.Keys, names, today, weekDiff, tenants, limit, chosen)
    ensures |outcomes| == |jobs| || (outcomes != [] && outcomes[|outcomes| - 1].aborted)
    ensures Accounts(cluster.trace, cluster.refused, |old(cluster.trace)| - 1, |old(cluster.refused)|, jobs, outcomes,
                     errors, plan, cfg)
    ensures cluster.Grew(old(cluster.refused))
    ensures cluster.calm && Orderly(old(cluster.st), plan, cfg, spans, Order(jobs)) ==> errors == 0
    ensures cluster.calm && WeeklyIndices(old(cluster.st), names, cfg) && spans == WeekSpans(names) ==> errors == 0
  {
    hide AllReady, RouteP3, YearGroups.Selected, YearGroups.Oldest, Orderly, GoneChecked, Ran, NoLoss, Startable,
      SafeConfig, FromNames, Migrated, Routed, Proper, WeeklyIndices, WeekSpans, Accounts, TakesOldWeeks, Planned, Good,
      PlanOf, ValidOrders, Order, NamesOf, YearGroups.OldestFirst, YearGroups.DueIn, YearGroups.OfTenants, WellPlanned,
      Listed, YearMerges;
    var years;
    years, chosen := YearGroups.MergeP3Indices(names, today, weekDiff, tenants, limit);
    var merges := YearMerges(years);
    jobs := merges;
    plan := PlanOf(cluster.st, jobs, cfg);
    YearsStart(cluster.st, names, today, weekDiff, tenants, limit, cfg, chosen, years);
    if weekDiff >= 0 {
      DueByAge(plan.frozen.Keys, names, today, weekDiff, tenants, limit, chosen);
    }
    errors, outcomes := RunMerges(cluster, merges, true, cfg, orders, plan, spans);
    RunIsMigrated(old(cluster.trace), cluster.trace, names, RouteP3, cfg, jobs, plan, errors);
  }
}
