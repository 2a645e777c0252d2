/** The p1 to p2 migration from the listed names to the rolled days. */
module DayMigration {
  import opened Documents
  import opened TimeRanges
  import opened RollUp
  import opened ValidationMeaning
  import opened SharedTarget
  import opened Cluster
  import opened PageRolls
  import opened Checks
  import opened Traces
  import opened Lifecycle
  import opened Merges
  import opened IndexNames
  import opened Calendar
  import opened Reruns
  import opened Plans
  import Sorting
  import WeekGroups

  predicate DueP1(name: string, today: int, dayDiff: int) {
    && "db_statistics_" <= name && ParseIndexName(name).Some?
    && WeekGroups.ShouldMigrateP1ToP2(ParseIndexName(name).value, today, dayDiff)
  }

  function DayTarget(name: string): string {
    if ParseIndexName(name).Some? && NewIndexNameForRollover(ParseIndexName(name).value, "1h").Some?
    then NewIndexNameForRollover(ParseIndexName(name).value, "1h").value else ""
  }

  function DayAlias(name: string): string {
    if ParseIndexName(name).Some? then AliasOf(ParseIndexName(name).value.tenant) else ""
  }

  // ----- how old a due day is

  /**
   * By the true dates: a taken p1 index is more than the threshold old, one that is more than the threshold and the
   * years since then old is taken, and of this year's indices exactly those older than the threshold are.
   */
  ghost predicate TakesByDate(taken: set<string>, names: seq<string>, today: int, dayDiff: int) {
    forall n <- names :: ParseIndexName(n).Some? ==>
      var info := ParseIndexName(n).value;
      && (n in taken ==> P1Index(n, info))
      && (P1Index(n, info) && RealDate(info.year, info.day) ==>
            var age := today - DayNumber(info.year, info.day);
            && (n in taken ==> age > dayDiff)
            && (age > dayDiff + (YearOf(today) - info.year) ==> n in taken)
            && (YearOf(today) == info.year ==> (n in taken <==> age > dayDiff)))
  }

  lemma DueByDate(taken: set<string>, names: seq<string>, today: int, dayDiff: int)
    requires dayDiff >= 0 && forall n <- names :: n in taken <==> DueP1(n, today, dayDiff)
    ensures TakesByDate(taken, names, today, dayDiff)
  {
    hide ParseIndexName, YearOf, YearDay, DayNumber, RealDate;
    forall n <- names | ParseIndexName(n).Some?
      ensures var info := ParseIndexName(n).value;
              && (n in taken ==> P1Index(n, info))
              && (P1Index(n, info) && RealDate(info.year, info.day) ==>
                    var age := today - DayNumber(info.year, info.day);
                    && (n in taken ==> age > dayDiff)
                    && (age > dayDiff + (YearOf(today) - info.year) ==> n in taken)
                    && (YearOf(today) == info.year ==> (n in taken <==> age > dayDiff)))
    {
      var info := ParseIndexName(n).value;
      if P1Index(n, info) && RealDate(info.year, info.day) {
        assert n in taken <==> IsDayDifferenceMoreThan(dayDiff, YearOf(today), YearDay(today), info.year, info.day);
        var age := today - DayNumber(info.year, info.day);
        RealDayIsOne(info.year, info.day);
        if n in taken {
          DayTestIsSafe(dayDiff, today, info.year, info.day);
        }
        if age > dayDiff + (YearOf(today) - info.year) {
          DayTestReaches(dayDiff, today, info.year, info.day);
        }
        if YearOf(today) == info.year {
          DayTestInYear(dayDiff, today, info.year, info.day);
        }
      }
    }
  }

  lemma RealDayIsOne(year: int, day: int)
    requires RealDate(year, day)
    ensures day >= 1
  {
  }

  // ----- the due days, in the order of their dates

  /** filterStatsIndicesForP1Migration before it sorts: the due p1 indices in the order listed. */
  function DueDays(names: seq<string>, today: int, dayDiff: int): seq<string> {
    if names == [] then []
    else
      var n := names[|names| - 1];
      DueDays(names[..|names| - 1], today, dayDiff) + if DueP1(n, today, dayDiff) then [n] else []
  }

  /** yearDayNumber of the index, by which they are sorted. */
  function DayRank(name: string): int {
    if ParseIndexName(name).Some? then ParseIndexName(name).value.year * 1000 + ParseIndexName(name).value.day else 0
  }

  method ListDue(names: seq<string>, today: int, dayDiff: int) returns (due: seq<string>)
    ensures due == DueDays(names, today, dayDiff)
  {
    hide DueP1;
    due := [];
    for i := 0 to |names|
      invariant due == DueDays(names[..i], today, dayDiff)
    {
      assert names[..i + 1][..i] == names[..i];
      if DueP1(names[i], today, dayDiff) {
        due := due + [names[i]];
      }
    }
    assert names[..|names|] == names;
  }

  lemma {:induction false} DueDaysOnce(names: seq<string>, today: int, dayDiff: int, n: string)
    ensures multiset(DueDays(names, today, dayDiff))[n] == if DueP1(n, today, dayDiff) then multiset(names)[n] else 0
  {
    hide DueP1;
    if names != [] {
      var k := |names| - 1;
      DueDaysOnce(names[..k], today, dayDiff, n);
      assert names == names[..k] + [names[k]];
    }
  }

  /** The due indices among the names, each listed as often as in the names, by date. */
  ghost predicate DaysInOrder(days: seq<string>, names: seq<string>, today: int, dayDiff: int) {
    && Sorting.Sorted(days, DayRank)
    && forall n :: multiset(days)[n] == if DueP1(n, today, dayDiff) then multiset(names)[n] else 0
  }

  /** filterStatsIndicesForP1Migration */
  method FilterDays(names: seq<string>, today: int, dayDiff: int) returns (days: seq<string>)
    ensures DaysInOrder(days, names, today, dayDiff)
  {
    hide DueP1;
    var due := ListDue(names, today, dayDiff);
    days := Sorting.SortBy(due, DayRank);
    forall n ensures multiset(due)[n] == if DueP1(n, today, dayDiff) then multiset(names)[n] else 0 {
      DueDaysOnce(names, today, dayDiff, n);
    }
  }

  /** Each day is a job of its own. */
  function DayMerges(days: seq<string>): seq<MergeJob> {
    seq(|days|, i requires 0 <= i < |days| => MergeJob([days[i]], DayTarget(days[i]), DayAlias(days[i])))
  }

  lemma DaysAreListed(days: seq<string>, names: seq<string>, today: int, dayDiff: int)
    requires DaysInOrder(days, names, today, dayDiff)
    ensures forall n :: n in days <==> n in names && DueP1(n, today, dayDiff)
  {
    hide DueP1;
    forall n ensures n in days <==> n in names && DueP1(n, today, dayDiff) {
      assert n in days <==> multiset(days)[n] > 0;
      assert n in names <==> multiset(names)[n] > 0;
    }
  }

  /** A p1 index of schema v2 or v3 goes into the index of its own p2 name. */
  function RouteP1(n: string): Option<Way> {
    if "db_statistics_" <= n && ParseIndexName(n).Some? && P1Index(n, ParseIndexName(n).value)
    then Some(Way(DayTarget(n), DayAlias(n)))
    else None
  }

  lemma RouteP1IsProper()
    ensures Proper(RouteP1)
  {
    hide ParseIndexName, NewIndexNameForRollover;
    forall n, o | RouteP1(n).Some? && RouteP1(o).Some? ensures RouteP1(n).value.target != o {
      var info := ParseIndexName(n).value;
      ParsedKeepsName(n);
      assert P1Index(n, info) && info.(index := n) == info;
      TargetsAreNotSources(n, info, "", 0, 0, "", "");
    }
  }

  lemma DueIsRouted(n: string, today: int, dayDiff: int)
    requires DueP1(n, today, dayDiff)
    ensures RouteP1(n) == Some(Way(DayTarget(n), DayAlias(n)))
  {
    hide ParseIndexName, NewIndexNameForRollover;
  }

  /** They are rolled by date. */
  lemma DaysAscend(days: seq<string>, names: seq<string>, today: int, dayDiff: int, i: nat, j: nat)
    requires DaysInOrder(days, names, today, dayDiff) && i < j < |days|
    ensures ParseIndexName(days[i]).Some? && ParseIndexName(days[j]).Some?
    ensures var a, b := ParseIndexName(days[i]).value, ParseIndexName(days[j]).value;
            RealDate(a.year, a.day) && RealDate(b.year, b.day) ==> DayNumber(a.year, a.day) <= DayNumber(b.year, b.day)
  {
    hide ParseIndexName, YearStart, YearOf, YearDay;
    DaysAreListed(days, names, today, dayDiff);
    assert days[i] in days && days[j] in days && DueP1(days[i], today, dayDiff) && DueP1(days[j], today, dayDiff);
    var a, b := ParseIndexName(days[i]).value, ParseIndexName(days[j]).value;
    assert DayRank(days[i]) <= DayRank(days[j]);
    if RealDate(a.year, a.day) && RealDate(b.year, b.day) {
      YearLength(a.year);
      YearLength(b.year);
      if a.year < b.year {
        YearStartsGrow(a.year, b.year);
      }
    }
  }

  lemma DaysDistinct(days: seq<string>, names: seq<string>, today: int, dayDiff: int)
    requires DaysInOrder(days, names, today, dayDiff) && forall i, j :: 0 <= i < j < |names| ==> names[i] != names[j]
    ensures forall i, j :: 0 <= i < j < |days| ==> days[i] != days[j]
  {
    hide DueP1, DayRank, Sorting.Sorted;
    forall i, j | 0 <= i < j < |days| ensures days[i] != days[j] {
      if days[i] == days[j] {
        Sorting.CountedTwice(days, i, j);
        var a, b := Sorting.FoundTwice(names, days[i]);
      }
    }
  }

  lemma DayMergesRouted(days: seq<string>, names: seq<string>, today: int, dayDiff: int)
    requires DaysInOrder(days, names, today, dayDiff) && forall i, j :: 0 <= i < j < |names| ==> names[i] != names[j]
    ensures Routed(DayMerges(days), names, RouteP1)
    ensures forall job <- DayMerges(days) :: |job.sources| == 1
  {
    hide DueP1, DayTarget, DayAlias, RouteP1, DaysInOrder;
    var merges := DayMerges(days);
    DaysAreListed(days, names, today, dayDiff);
    DaysDistinct(days, names, today, dayDiff);
    forall j | 0 <= j < |merges|
      ensures merges[j].sources[0] in names
      ensures RouteP1(merges[j].sources[0]) == Some(Way(merges[j].target, merges[j].alias))
    {
      assert days[j] in days;
      DueIsRouted(days[j], today, dayDiff);
    }
  }

  // ----- days that are rolled without an error

  function DayIn(info: Option<IndexInfo>): int {
    if info.None? then 0 else DayNumber(info.value.year, info.value.day)
  }

  function DaySpan(day: int): Span {
    Span(EpochOf(day), EpochOf(day + 1))
  }

  lemma DaySpanAligned(day: int)
    ensures DaySpan(day).lo % DAY == 0 && DaySpan(day).hi % DAY == 0
    ensures DaySpan(day).lo % HOUR == 0 && DaySpan(day).hi % HOUR == 0
  {
    EpochIsAligned(day);
    EpochIsAligned(day + 1);
  }

  function DaySpans(days: seq<string>): map<string, Span> {
    map n | n in days :: DaySpan(DayIn(ParseIndexName(n)))
  }

  /**
   * The index holds documents of its own real day only, none of them without the tags that are compared, and no index
   * with a longer name than its own or its target's holds documents of that day.
   */
  ghost predicate HoldsItsDay(s: State, n: string, cfg: RolloverConfig) {
    && n in s.indices && s.indices[n] != map[] && ParseIndexName(n).Some?
    && var info, span := ParseIndexName(n).value, DaySpan(DayIn(ParseIndexName(n)));
       && RealDate(info.year, info.day)
       && (forall id <- s.indices[n] :: span.lo <= s.indices[n][id].ts < span.hi)
       && ValidationMeaning.Tagged(s.indices[n], cfg.skipTenantIdValidation) && NoBlanks(s.indices[n])
       && forall m, id | m in s.indices && m != n && (n <= m || DayTarget(n) <= m) && id in s.indices[m] ::
            !InSpan(span, s.indices[m][id].ts)
  }

  /** Such indices, and where one target's name starts another's the days are different. */
  ghost predicate DailyIndices(s: State, days: seq<string>, cfg: RolloverConfig) {
    && Uniform(cfg) && (forall n <- days :: HoldsItsDay(s, n, cfg))
    && forall n, o :: n in days && o in days && n != o && DayTarget(n) <= DayTarget(o) ==>
         DayIn(ParseIndexName(n)) != DayIn(ParseIndexName(o))
  }

  lemma DayIsPrepared(s: State, days: seq<string>, cfg: RolloverConfig, plan: Plan, n: string)
    requires WellPlanned(plan) && Uniform(cfg) && HoldsItsDay(s, n, cfg) && n in days && RouteP1(n).Some?
    requires n in plan.frozen && plan.frozen[n] == s.indices[n] && plan.target[n] == DayTarget(n)
    ensures Prepared(s, plan, cfg, DaySpans(days), n)
  {
    hide ParseIndexName, DaySpan, NoBlanks, ValidationMeaning.Tagged, DayIn, RealDate, DayTarget;
    DaySpanAligned(DayIn(ParseIndexName(n)));
    DayNamesApart(n, n);
  }

  /** Names of days and of rolled days start differently. */
  lemma DayNamesApart(n: string, o: string)
    requires RouteP1(n).Some? && RouteP1(o).Some?
    ensures !(n <= DayTarget(o)) && !(DayTarget(o) <= n)
  {
    hide ParseIndexName, NewIndexNameForRollover, ParseRolledOverV2P2;
    var info := ParseIndexName(o).value;
    ParsedKeepsName(o);
    assert P1Index(o, info) && info.(index := o) == info;
    P2NameParsesBack(o, info);
    WeekGroups.ParsedHasPrefix(DayTarget(o));
    assert n[0] == 'd' by { assert "db_statistics_"[0] == 'd'; }
    assert DayTarget(o)[0] == 'r' by { assert "rolled_over"[0] == 'r'; }
  }

  /** Rolled by date, such days disturb none of their successors. */
  lemma DaysAreOrderly(s: State, plan: Plan, days: seq<string>, names: seq<string>, today: int, dayDiff: int,
                       cfg: RolloverConfig)
    requires DaysInOrder(days, names, today, dayDiff) && DailyIndices(s, days, cfg) && Runs(plan, cfg)
    requires forall i, j :: 0 <= i < j < |days| ==> days[i] != days[j]
    requires forall n <- days ::
      n in plan.frozen && n in s.indices && plan.frozen[n] == s.indices[n] && plan.target[n] == DayTarget(n)
    ensures Orderly(s, plan, cfg, DaySpans(days), days)
  {
    hide DueP1, DayTarget, RouteP1, DaysInOrder, HoldsItsDay, Prepared, DaySpan, DayIn, ParseIndexName;
    DaysAreListed(days, names, today, dayDiff);
    forall n <- days ensures RouteP1(n).Some? && Prepared(s, plan, cfg, DaySpans(days), n) {
      DueIsRouted(n, today, dayDiff);
      DayIsPrepared(s, days, cfg, plan, n);
    }
    forall i, j | 0 <= i < j < |days| ensures Unseen(plan, DaySpans(days), days[i], days[j]) {
      assert days[i] in days && days[j] in days;
      DayNamesApart(days[j], days[i]);
      if DayTarget(days[j]) <= DayTarget(days[i]) {
        DaysAscend(days, names, today, dayDiff, i, j);
        EarlierDay(s, days[i], days[j], cfg);
      }
    }
    UnseenIsOrderly(s, plan, cfg, DaySpans(days), days);
  }

  lemma EarlierDay(s: State, n: string, o: string, cfg: RolloverConfig)
    requires HoldsItsDay(s, n, cfg) && HoldsItsDay(s, o, cfg)
    requires var a, b := ParseIndexName(n).value, ParseIndexName(o).value;
             RealDate(a.year, a.day) && RealDate(b.year, b.day) ==> DayNumber(a.year, a.day) <= DayNumber(b.year, b.day)
    requires DayIn(ParseIndexName(n)) != DayIn(ParseIndexName(o))
    ensures Apart(DaySpan(DayIn(ParseIndexName(n))), DaySpan(DayIn(ParseIndexName(o))))
  {
    hide ParseIndexName, EpochOf, DayNumber, RealDate, NoBlanks, ValidationMeaning.Tagged, DayTarget;
    EpochGrows(DayIn(ParseIndexName(n)) + 1, DayIn(ParseIndexName(o)));
  }

  /**
   * runRolloverIndexToIndex, the rollovers one after the other; ParallelRollover has them side by side. A failed one
   * is counted and never stops the others.
   */
  method RunRollovers(cluster: SearchCluster, jobs: seq<MergeJob>, cfg: RolloverConfig, orders: Orders,
                      ghost plan: Plan, ghost spans: map<string, Span>)
    returns (errors: nat, ghost outcomes: seq<Outcome>)
    requires ValidOrders(orders) && Runs(plan, cfg) && cluster.Logged() && Good(cluster.st, plan, cfg)
    requires Planned(jobs, plan)
    requires forall job <- jobs :: |job.sources| == 1
    modifies cluster
    ensures cluster.Logged()
    ensures Ran(old(cluster.trace), cluster.trace, plan, cfg, Listed(Order(jobs)), Listed(Order(jobs)))
    ensures errors == 0 && SafeConfig(cfg) ==> forall src <- Order(jobs) :: src !in cluster.st.indices
    ensures GoneChecked(old(cluster.trace), cluster.trace, Order(jobs), plan, cfg)
    ensures |outcomes| == |jobs|
    ensures Accounts(cluster.trace, cluster.refused, |old(cluster.trace)| - 1, |old(cluster.refused)|, jobs, outcomes,
                     errors, plan, cfg)
    ensures cluster.Grew(old(cluster.refused))
    ensures cluster.calm && Orderly(old(cluster.st), plan, cfg, spans, Order(jobs)) ==> errors == 0
  {
    hide Good, SafeConfig, ValidOrders, Progress, Ran, Orderly, GoneChecked, Failing, Written, Worked, Accounts,
      Hindered,
      Blocked, FailedOnce, Explained, Failures, NothingToReplace, Reports;
    errors, outcomes := 0, [];
    SourcesPlanned(jobs, plan);
    NoWork(cluster.trace, plan, cfg);
    NoAccounts(cluster.trace, cluster.refused, jobs, plan, cfg);
    assert jobs[..0] == [] && Order(jobs[..0]) == [];
    ghost var orderly := cluster.calm && Orderly(old(cluster.st), plan, cfg, spans, Order(jobs));
    for j := 0 to |jobs|
      invariant cluster.Logged() && Good(cluster.st, plan, cfg) && cluster.Grew(old(cluster.refused))
      invariant Worked(old(cluster.trace), cluster.trace, Order(jobs[..j]), errors, plan, cfg)
      invariant Accounts(cluster.trace, cluster.refused, |old(cluster.trace)| - 1, |old(cluster.refused)|, jobs,
                         outcomes, errors, plan, cfg)
      invariant |outcomes| == j
      invariant orderly ==> errors == 0
    {
      label Before:
      var job := jobs[j];
      assert job in jobs;
      var src := job.sources[0];
      assert src in job.sources && job.sources == [src] && Listed([src]) == {src};
      var ok := cluster.Rollover(src, job.target, job.alias, cfg, orders, plan);
      RanGives(old@Before(cluster.trace), cluster.trace, plan, cfg, {src}, {src});
      ghost var o := OneIndex(old@Before(cluster.trace), cluster.trace, old@Before(cluster.refused), cluster.refused,
                              job, ok, plan, cfg);
      JobCounted(old(cluster.trace), old@Before(cluster.trace), cluster.trace, old@Before(cluster.refused),
                 cluster.refused, |old(cluster.refused)|, jobs, outcomes, errors, o, plan, cfg);
      if orderly {
        JobInOrder(old(cluster.trace), old@Before(cluster.trace), cluster.trace, cluster.refused, jobs, j, errors, o,
                   plan, cfg, spans);
      }
      outcomes := outcomes + [o];
      if !ok {
        errors := errors + 1;
      }
    }
    assert jobs[..|jobs|] == jobs;
    WorkDone(old(cluster.trace), cluster.trace, Order(jobs), errors, plan, cfg);
  }

  /** What a single rollover reports: it failed before its alias request or at it or after it. */
  lemma OneIndex(b: seq<State>, c: seq<State>, log: seq<Request>, log': seq<Request>, job: MergeJob, ok: bool,
                 plan: Plan, cfg: RolloverConfig) returns (o: Outcome)
    requires WellPlanned(plan) && b != [] && b <= c && log <= log' && |job.sources| == 1
    requires job.sources[0] in plan.frozen && (ok ==> job.sources[0] !in Last(c).indices)
    requires !ok ==>
      || Hindered(log', |log|, job.sources[0], job.target)
      || Blocked(log', |log|, job.sources, job.target, job.alias)
      || Failing(Last(b), Last(c), job.sources, 0, true, cfg, plan)
    ensures Reports(b, c, log, log', job, o, plan, cfg) && (o.Failed() <==> !ok)
    ensures o.since == |log| && o.until == |log'|
  {
    hide Hindered, Blocked, Failing, Written;
    var blocked := !ok && Blocked(log', |log|, job.sources, job.target, job.alias);
    o := Outcome(|b| - 1, |c| - 1, |log|, |log'|, if ok || blocked then 1 else 0, !ok && !blocked, blocked);
    assert job.sources[..1] == job.sources;
    assert c[|c| - 1] == Last(c);
  }

  /** The p1 to p2 migration: from the listed names to the rolled days. */
  method MigrateP1ToP2(cluster: SearchCluster, names: seq<string>, today: int, dayDiff: int, cfg: RolloverConfig,
                       orders: Orders, ghost spans: map<string, Span>)
    returns (errors: nat, ghost days: seq<string>, ghost outcomes: seq<Outcome>, ghost plan: Plan)
    requires ValidOrders(orders) && cluster.Logged() && AllReady(cluster.st, names, RouteP1, cfg)
    requires forall i, j :: 0 <= i < j < |names| ==> names[i] != names[j]
    modifies cluster
    ensures cluster.Logged() && DaysInOrder(days, names, today, dayDiff)
    ensures Migrated(old(cluster.trace), cluster.trace, names, RouteP1, cfg, DayMerges(days), plan, errors)
    ensures forall src :: src in plan.frozen <==> src in names && DueP1(src, today, dayDiff)
    ensures dayDiff >= 0 ==> TakesByDate(plan.frozen.Keys, names, today, dayDiff)
    ensures |outcomes| == |days|
    ensures Accounts(cluster.trace, cluster.refused, |old(cluster.trace)| - 1, |old(cluster.refused)|, DayMerges(days),
                     outcomes, errors, plan, cfg)
    ensures cluster.Grew(old(cluster.refused))
    ensures cluster.calm && Orderly(old(cluster.st), plan, cfg, spans, days) ==>
      errors == 0 && forall src <- plan.frozen :: src !in cluster.st.indices
    ensures cluster.calm && DailyIndices(old(cluster.st), days, cfg) && spans == DaySpans(days) ==>
      errors == 0 && forall src <- plan.frozen :: src !in cluster.st.indices
  {
    hide AllReady, RouteP1, GoneChecked, Ran, NoLoss, Startable, DayTarget, DayAlias, DueP1, SafeConfig, DayMerges,
      Migrated, Routed, Proper, DaysInOrder, Accounts, Orderly, TakesByDate, DailyIndices, DaySpans;
    days := [];
    var due := FilterDays(names, today, dayDiff);
    days := due;
    var jobs := DayMerges(due);
    plan := PlanOf(cluster.st, jobs, cfg);
    DayMergesRouted(days, names, today, dayDiff);
    RouteP1IsProper();
    RoutedStart(cluster.st, jobs, names, RouteP1, cfg);
    PlanStarts(cluster.st, jobs, cfg);
    DaysOrder(days, jobs);
    DaysAreListed(days, names, today, dayDiff);
    if DailyIndices(cluster.st, days, cfg) {
      DaysDistinct(days, names, today, dayDiff);
      DaysPlan(cluster.st, days, jobs, cfg);
      DaysAreOrderly(cluster.st, plan, days, names, today, dayDiff, cfg);
    }
    errors, outcomes := RunRollovers(cluster, jobs, cfg, orders, plan, spans);
    RunIsMigrated(old(cluster.trace), cluster.trace, names, RouteP1, cfg, jobs, plan, errors);
    if dayDiff >= 0 {
      DueByDate(plan.frozen.Keys, names, today, dayDiff);
    }
    if Orderly(old(cluster.st), plan, cfg, spans, days) {
      OrderlyIsSafe(old(cluster.st), plan, cfg, spans, days);
    }
  }

  lemma DaysPlan(s: State, days: seq<string>, jobs: seq<MergeJob>, cfg: RolloverConfig)
    requires jobs == DayMerges(days) && Startable(s, jobs, cfg)
    ensures WellPlanned(PlanOf(s, jobs, cfg))
    ensures var plan := PlanOf(s, jobs, cfg);
            forall n <- days ::
              n in plan.frozen && n in s.indices && plan.frozen[n] == s.indices[n] && plan.target[n] == DayTarget(n)
  {
    hide DayTarget, DayAlias, PlanOf, Startable;
    JobsPlanIsWell(s, jobs, cfg);
    forall n <- days
      ensures var plan := PlanOf(s, jobs, cfg);
              n in plan.frozen && n in s.indices && plan.frozen[n] == s.indices[n] && plan.target[n] == DayTarget(n)
    {
      var j :| 0 <= j < |days| && days[j] == n;
      assert n in jobs[j].sources;
      PlanRoutes(s, jobs, cfg, j, n);
      StartableIsThere(s, jobs, cfg, j, n);
    }
  }

  lemma {:induction false} DaysOrder(days: seq<string>, jobs: seq<MergeJob>)
    requires jobs == DayMerges(days)
    ensures Order(jobs) == days && |jobs| == |days|
  {
    hide DayTarget, DayAlias;
    if days != [] {
      var n := |days| - 1;
      assert jobs[..n] == DayMerges(days[..n]);
      DaysOrder(days[..n], jobs[..n]);
    }
  }

  /** A due index that is still there after the run failed itself, and for a reason of its own. */
  lemma LeftDayHasReason(trace: seq<State>, log: seq<Request>, n: nat, m: nat, days: seq<string>,
                         outcomes: seq<Outcome>, errors: nat, plan: Plan, cfg: RolloverConfig, j: nat)
    requires WellPlanned(plan) && |outcomes| == |days|
    requires Accounts(trace, log, n, m, DayMerges(days), outcomes, errors, plan, cfg)
    requires j < |days| && days[j] in Last(trace).indices
    ensures var o, job := outcomes[j], DayMerges(days)[j];
            && o.Failed() && days[j] in plan.frozen
            && (|| Hindered(log[..o.until], o.since, days[j], job.target)
                || Blocked(log[..o.until], o.since, [days[j]], job.target, job.alias)
                || FailedOnce(trace[o.begin], trace[..o.end + 1], o.begin, [days[j]], 0, cfg, plan)
                || NothingToReplace(trace[o.end], job, plan, cfg))
  {
    hide DayTarget, DayAlias, Hindered, Blocked, FailedOnce, NothingToReplace, BackToBack;
    var o, job := outcomes[j], DayMerges(days)[j];
    LeftHasReason(trace, log, n, m, DayMerges(days), outcomes, errors, plan, cfg, j, 0);
    assert Explained(trace, log, job, o, plan, cfg);
    assert job.sources[..1] == job.sources;
  }
}
