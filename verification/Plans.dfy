/** Plans made from merge jobs, and what a run under such a plan comes to. */
module Plans {
  import opened Documents
  import opened TimeRanges
  import opened RollUp
  import opened Cluster
  import opened PageRolls
  import opened Checks
  import opened Traces
  import opened Lifecycle
  import opened Merges
  import opened IndexNames
  import opened Reruns

  // ----- a plan from merge jobs

  ghost predicate Separate(jobs: seq<MergeJob>) {
    forall i, j, src :: 0 <= i < j < |jobs| && src in jobs[i].sources ==> src !in jobs[j].sources
  }

  ghost predicate HasJob(jobs: seq<MergeJob>, src: string) {
    exists j :: 0 <= j < |jobs| && src in jobs[j].sources
  }

  ghost function JobFor(jobs: seq<MergeJob>, src: string): MergeJob {
    if HasJob(jobs, src) then (var j :| 0 <= j < |jobs| && src in jobs[j].sources; jobs[j]) else MergeJob([], "", "")
  }

  lemma OnlyJobFor(jobs: seq<MergeJob>, j: int, src: string)
    requires Separate(jobs) && 0 <= j < |jobs| && src in jobs[j].sources
    ensures JobFor(jobs, src) == jobs[j]
  {
    assert HasJob(jobs, src);
  }

  /** The plan that freezes the sources as they are now. */
  ghost function PlanOf(s: State, jobs: seq<MergeJob>, cfg: RolloverConfig): Plan {
    var sources := set src | src in Order(jobs) && src in s.indices;
    Plan(map src | src in sources :: s.indices[src], map src | src in sources :: JobFor(jobs, src).target,
         map src | src in sources :: JobFor(jobs, src).alias, cfg.aggWindow, !cfg.skipValidation)
  }

  /** Every source can be rolled, for the first time or again, by one job only, and no target is a source. */
  ghost predicate Startable(s: State, jobs: seq<MergeJob>, cfg: RolloverConfig) {
    && Separate(jobs)
    && (forall j, src :: 0 <= j < |jobs| && src in jobs[j].sources ==>
          Ready(s, src, jobs[j].target, jobs[j].alias, cfg))
    && (forall j :: 0 <= j < |jobs| ==> jobs[j].target !in Order(jobs))
  }

  lemma {:induction false} OrderMembers(jobs: seq<MergeJob>, src: string)
    ensures src in Order(jobs) <==> HasJob(jobs, src)
  {
    if jobs != [] {
      var n := |jobs| - 1;
      OrderMembers(jobs[..n], src);
      assert HasJob(jobs, src) <==> HasJob(jobs[..n], src) || src in jobs[n].sources;
    }
  }

  lemma PlanRoutes(s: State, jobs: seq<MergeJob>, cfg: RolloverConfig, j: int, src: string)
    requires Startable(s, jobs, cfg) && 0 <= j < |jobs| && src in jobs[j].sources
    ensures var plan := PlanOf(s, jobs, cfg);
            && src in plan.frozen && plan.target[src] == jobs[j].target && plan.alias[src] == jobs[j].alias
            && plan.frozen[src] == s.indices[src]
  {
    hide Order, JobFor;
    assert HasJob(jobs, src);
    OrderMembers(jobs, src);
    OnlyJobFor(jobs, j, src);
  }

  lemma PlanSource(s: State, jobs: seq<MergeJob>, cfg: RolloverConfig, src: string) returns (j: int)
    requires Startable(s, jobs, cfg) && src in PlanOf(s, jobs, cfg).frozen
    ensures 0 <= j < |jobs| && src in jobs[j].sources
  {
    hide Order, JobFor;
    OrderMembers(jobs, src);
    j :| 0 <= j < |jobs| && src in jobs[j].sources;
  }

  lemma PlanKeys(s: State, jobs: seq<MergeJob>, cfg: RolloverConfig)
    requires Startable(s, jobs, cfg)
    ensures PlanOf(s, jobs, cfg).frozen.Keys == Listed(Order(jobs))
  {
    hide Order, JobFor;
    forall src <- Order(jobs) ensures src in s.indices {
      OrderMembers(jobs, src);
    }
  }

  lemma JobsPlanIsWell(s: State, jobs: seq<MergeJob>, cfg: RolloverConfig)
    requires Startable(s, jobs, cfg)
    ensures var plan := PlanOf(s, jobs, cfg); Runs(plan, cfg) && Planned(jobs, plan)
  {
    hide Order, JobFor, Startable;
    var plan := PlanOf(s, jobs, cfg);
    forall src <- plan.target ensures plan.target[src] !in plan.frozen {
      var j := PlanSource(s, jobs, cfg, src);
      PlanRoutes(s, jobs, cfg, j, src);
      NoTargetIsSource(s, jobs, cfg, j);
    }
    forall j, src | 0 <= j < |jobs| && src in jobs[j].sources
      ensures src in plan.frozen && plan.target[src] == jobs[j].target && plan.alias[src] == jobs[j].alias
    {
      PlanRoutes(s, jobs, cfg, j, src);
    }
  }

  lemma NoTargetIsSource(s: State, jobs: seq<MergeJob>, cfg: RolloverConfig, j: int)
    requires Startable(s, jobs, cfg) && 0 <= j < |jobs|
    ensures jobs[j].target !in Order(jobs)
  {
  }

  /** A startable set of jobs makes a plan under which nothing is lost yet. */
  lemma PlanStarts(s: State, jobs: seq<MergeJob>, cfg: RolloverConfig)
    requires Startable(s, jobs, cfg)
    ensures var plan := PlanOf(s, jobs, cfg);
            && Runs(plan, cfg) && Planned(jobs, plan) && NoLoss(s, plan) && Good(s, plan, cfg)
            && plan.frozen.Keys == Listed(Order(jobs))
  {
    hide PartlyRolled, Order, PlanOf, RollsInto;
    var plan := PlanOf(s, jobs, cfg);
    JobsPlanIsWell(s, jobs, cfg);
    PlanKeys(s, jobs, cfg);
    forall src <- plan.frozen
      ensures src in s.indices && s.indices[src] == plan.frozen[src] && Served(s, plan, src) && Tidy(s, plan, src)
    {
      var j := PlanSource(s, jobs, cfg, src);
      PlanRoutes(s, jobs, cfg, j, src);
      PlanWindow(s, jobs, cfg);
    }
  }

  lemma PlanWindow(s: State, jobs: seq<MergeJob>, cfg: RolloverConfig)
    ensures PlanOf(s, jobs, cfg).window == cfg.aggWindow
  {
  }

  // ----- jobs in order

  ghost predicate Ascending(spans: map<string, Span>, sources: seq<string>) {
    forall a, b :: 0 <= a < b < |sources| ==> Precedes(spans, sources[a], sources[b])
  }

  ghost predicate Precedes(spans: map<string, Span>, o: string, src: string) {
    o in spans && src in spans && spans[o].hi <= spans[src].lo
  }

  /** No source of job `j` sees, by its own or its target's name, what job `i` wrote in its span. */
  ghost predicate JobsApart(spans: map<string, Span>, i: MergeJob, j: MergeJob) {
    forall o, src :: o in i.sources && src in j.sources ==>
      && o in spans && src in spans && (src <= i.target || j.target <= i.target ==> Apart(spans[o], spans[src]))
  }

  /** Every job in ascending order, and the jobs apart wherever a name of one starts a target of an earlier one. */
  ghost predicate InOrder(spans: map<string, Span>, jobs: seq<MergeJob>) {
    && (forall j :: 0 <= j < |jobs| ==> Ascending(spans, jobs[j].sources))
    && forall i, j :: 0 <= i < j < |jobs| ==> JobsApart(spans, jobs[i], jobs[j])
  }

  /** So ordered, any number of jobs for any tenants, weeks and years disturb none of their successors. */
  lemma AscendingJobsAreOrderly(s: State, plan: Plan, cfg: RolloverConfig, spans: map<string, Span>,
                                jobs: seq<MergeJob>)
    requires Runs(plan, cfg) && Uniform(cfg) && Planned(jobs, plan) && Separate(jobs) && InOrder(spans, jobs)
    requires forall j, src :: 0 <= j < |jobs| && src in jobs[j].sources ==> Prepared(s, plan, cfg, spans, src)
    ensures Orderly(s, plan, cfg, spans, Order(jobs))
  {
    hide Prepared, Order, Unseen, InOrder, Planned, Separate;
    forall src <- Order(jobs) ensures Prepared(s, plan, cfg, spans, src) {
      OrderMembers(jobs, src);
    }
    OrderedUnseen(s, plan, cfg, spans, jobs);
    UnseenIsOrderly(s, plan, cfg, spans, Order(jobs));
  }

  lemma {:induction false} OrderedUnseen(s: State, plan: Plan, cfg: RolloverConfig, spans: map<string, Span>,
                                         jobs: seq<MergeJob>)
    requires WellPlanned(plan) && Planned(jobs, plan) && Separate(jobs) && InOrder(spans, jobs)
    requires forall j, src :: 0 <= j < |jobs| && src in jobs[j].sources ==> Prepared(s, plan, cfg, spans, src)
    ensures forall a, b :: 0 <= a < b < |Order(jobs)| ==> Unseen(plan, spans, Order(jobs)[a], Order(jobs)[b])
  {
    hide Prepared, Unseen, JobsApart, Ascending;
    if jobs != [] {
      var n := |jobs| - 1;
      var before, last := Order(jobs[..n]), jobs[n].sources;
      OrderedUnseen(s, plan, cfg, spans, jobs[..n]);
      forall a, b | 0 <= a < b < |before + last| && |before| <= b
        ensures Unseen(plan, spans, (before + last)[a], (before + last)[b])
      {
        var o, src := (before + last)[a], (before + last)[b];
        assert src == last[b - |before|];
        if a < |before| {
          OrderMembers(jobs[..n], o);
          var i :| 0 <= i < n && o in jobs[i].sources;
          EarlierJobUnseen(plan, spans, jobs, i, n, o, src);
        } else {
          SameJobUnseen(s, plan, cfg, spans, jobs[n], a - |before|, b - |before|);
        }
      }
    }
  }

  lemma EarlierJobUnseen(plan: Plan, spans: map<string, Span>, jobs: seq<MergeJob>, i: int, j: int, o: string,
                         src: string)
    requires WellPlanned(plan) && Planned(jobs, plan) && Separate(jobs) && 0 <= i < j < |jobs|
    requires JobsApart(spans, jobs[i], jobs[j])
    requires o in jobs[i].sources && src in jobs[j].sources
    ensures Unseen(plan, spans, o, src)
  {
  }

  lemma SameJobUnseen(s: State, plan: Plan, cfg: RolloverConfig, spans: map<string, Span>, job: MergeJob, a: int,
                      b: int)
    requires WellPlanned(plan) && 0 <= a < b < |job.sources| && Ascending(spans, job.sources)
    requires Prepared(s, plan, cfg, spans, job.sources[a]) && Prepared(s, plan, cfg, spans, job.sources[b])
    ensures Unseen(plan, spans, job.sources[a], job.sources[b])
  {
    var o := job.sources[a];
    var id :| id in plan.frozen[o];
    assert spans[o].lo <= plan.frozen[o][id].ts < spans[o].hi;
  }

  // ----- jobs by name

  function AliasOf(tenant: string): string {
    ALIAS_PREFIX + tenant
  }

  function NamesOf(infos: seq<IndexInfo>): seq<string> {
    seq(|infos|, i requires 0 <= i < |infos| => infos[i].index)
  }

  /** Each job has sources, all of them listed, and sends them where the route says. */
  ghost predicate Routed(jobs: seq<MergeJob>, names: seq<string>, route: Route) {
    && Separate(jobs)
    && (forall j :: 0 <= j < |jobs| ==> jobs[j].sources != [])
    && forall j, src :: 0 <= j < |jobs| && src in jobs[j].sources ==>
         src in names && route(src) == Some(Way(jobs[j].target, jobs[j].alias))
  }

  /** Jobs over ready names can start. */
  lemma RoutedStart(s: State, jobs: seq<MergeJob>, names: seq<string>, route: Route, cfg: RolloverConfig)
    requires Routed(jobs, names, route) && Proper(route) && AllReady(s, names, route, cfg)
    ensures Startable(s, jobs, cfg)
  {
    hide Order, Ready;
    forall j | 0 <= j < |jobs| ensures jobs[j].target !in Order(jobs) {
      var first := jobs[j].sources[0];
      assert first in jobs[j].sources && route(first).Some? && route(first).value.target == jobs[j].target;
      forall src <- Order(jobs) ensures src != jobs[j].target {
        OrderMembers(jobs, src);
        var k :| 0 <= k < |jobs| && src in jobs[k].sources;
        assert route(src).Some?;
      }
    }
    forall j, src | 0 <= j < |jobs| && src in jobs[j].sources
      ensures Ready(s, src, jobs[j].target, jobs[j].alias, cfg)
    {
      assert src in names && route(src) == Some(Way(jobs[j].target, jobs[j].alias));
    }
  }

  lemma PlanFollows(s: State, jobs: seq<MergeJob>, names: seq<string>, route: Route, cfg: RolloverConfig)
    requires Routed(jobs, names, route) && Startable(s, jobs, cfg)
    ensures var plan := PlanOf(s, jobs, cfg); WellPlanned(plan) && Follows(plan, route) && TakenFrom(plan, s)
    ensures forall src <- PlanOf(s, jobs, cfg).frozen :: src in names
  {
    hide PlanOf, Startable;
    var plan := PlanOf(s, jobs, cfg);
    JobsPlanIsWell(s, jobs, cfg);
    forall src <- plan.frozen
      ensures route(src) == Some(Way(plan.target[src], plan.alias[src])) && src in names
      ensures src in s.indices && plan.frozen[src] == s.indices[src]
    {
      var j := PlanSource(s, jobs, cfg, src);
      PlanRoutes(s, jobs, cfg, j, src);
      StartableIsThere(s, jobs, cfg, j, src);
    }
  }

  lemma StartableIsThere(s: State, jobs: seq<MergeJob>, cfg: RolloverConfig, j: int, src: string)
    requires Startable(s, jobs, cfg) && 0 <= j < |jobs| && src in jobs[j].sources
    ensures src in s.indices
  {
    hide IsServed, PartlyRolled;
  }

  // ----- what a run by names comes to

  /**
   * Under safe settings no state of the run loses a source that was listed, and whatever is still there at the end
   * is ready for the next run, wherever this one failed.
   */
  ghost predicate Resumable(before: seq<State>, after: seq<State>, names: seq<string>, route: Route,
                            cfg: RolloverConfig) {
    SafeConfig(cfg) ==>
      && before != [] && after != []
      && (forall i :: |before| - 1 <= i < |after| ==> NoLoss(after[i], FullPlan(Last(before), names, route, cfg)))
      && forall more: seq<string> :: (forall n <- more :: n in names && n in Last(after).indices) ==>
           AllReady(Last(after), more, route, cfg)
  }

  /** All that a caller learns of a migration by names. */
  ghost predicate Migrated(before: seq<State>, after: seq<State>, names: seq<string>, route: Route, cfg: RolloverConfig,
                           jobs: seq<MergeJob>, plan: Plan, errors: nat) {
    && before != [] && plan == PlanOf(Last(before), jobs, cfg) && Runs(plan, cfg)
    && Follows(plan, route) && TakenFrom(plan, Last(before)) && plan.frozen.Keys == Listed(Order(jobs))
    && (forall src <- plan.frozen :: src in names)
    && Ran(before, after, plan, cfg, plan.frozen.Keys, plan.frozen.Keys)
    && GoneChecked(before, after, Order(jobs), plan, cfg)
    && Resumable(before, after, names, route, cfg)
    && (errors == 0 && SafeConfig(cfg) && FreshTargets(Last(before), plan) ==>
          after != [] && Finished(Last(after), plan))
  }

  lemma RunIsMigrated(before: seq<State>, after: seq<State>, names: seq<string>, route: Route, cfg: RolloverConfig,
                      jobs: seq<MergeJob>, plan: Plan, errors: nat)
    requires before != [] && after != [] && Routed(jobs, names, route) && Proper(route)
    requires AllReady(Last(before), names, route, cfg) && plan == PlanOf(Last(before), jobs, cfg) && Runs(plan, cfg)
    requires Ran(before, after, plan, cfg, Listed(Order(jobs)), Listed(Order(jobs)))
    requires GoneChecked(before, after, Order(jobs), plan, cfg)
    requires errors == 0 && SafeConfig(cfg) ==> forall src <- Order(jobs) :: src !in Last(after).indices
    ensures Migrated(before, after, names, route, cfg, jobs, plan, errors)
  {
    hide AllReady, Routed, Proper, PlanOf, GoneChecked, NoLoss, Finished, Follows, FreshTargets, Adds, Stays, Good,
      Progress, SafeConfig;
    RoutedStart(Last(before), jobs, names, route, cfg);
    PlanKeys(Last(before), jobs, cfg);
    PlanFollows(Last(before), jobs, names, route, cfg);
    if SafeConfig(cfg) {
      LeavesReady(before, after, plan, names, route, cfg);
      if errors == 0 && FreshTargets(Last(before), plan) {
        FinishedIsMerged(before, after, plan, cfg, plan.frozen.Keys, plan.frozen.Keys);
      }
    }
  }

  ghost predicate IsMigration(run: Run, route: Route, cfg: RolloverConfig) {
    exists names, jobs, errors :: Migrated(run.before, run.after, names, route, cfg, jobs, run.plan, errors)
  }

  lemma MigrationGives(run: Run, route: Route, cfg: RolloverConfig)
    requires IsMigration(run, route, cfg)
    ensures Runs(run.plan, cfg) && Follows(run.plan, route)
    ensures Extends(run.before, run.after, run.plan, cfg) && TakenFrom(run.plan, Last(run.before))
  {
    hide PlanOf, Resumable, GoneChecked, Finished, Good, Adds, Stays, Steps, Progress;
  }

  /** Migrations by one route in turn; in between, the full plan's indices, aliases and record are left alone. */
  ghost predicate Repeated(runs: seq<Run>, full: Plan, route: Route, cfg: RolloverConfig) {
    && (forall k :: 0 <= k < |runs| ==> IsMigration(runs[k], route, cfg))
    && forall j, k :: 0 <= j < |runs| && 0 <= k < |runs| && k == j + 1 ==>
         runs[j].after != [] && runs[k].before != [] && Elsewhere(Last(runs[j].after), Last(runs[k].before), full)
  }

  /** The runs kept to the plan's sources, into targets that were new, and none of the sources is left. */
  ghost predicate RanOut(runs: seq<Run>, full: Plan) {
    && runs != [] && runs[0].before != [] && WellPlanned(full) && FreshTargets(Last(runs[0].before), full)
    && (forall j :: 0 <= j < |runs| ==> runs[j].plan.frozen.Keys <= full.frozen.Keys)
    && var after := runs[|runs| - 1].after;
       after != [] && forall src <- full.frozen :: src !in Last(after).indices
  }

  /**
   * However often a migration is repeated, with whatever listed names, dates and limits, and wherever each run fails:
   * no state on the way loses a source that was ready at the start, and if the runs kept to those sources and none
   * is left, the migration is finished.
   */
  lemma RepeatedLosesNothing(runs: seq<Run>, names: seq<string>, route: Route, cfg: RolloverConfig, k: nat, i: nat)
    requires Proper(route) && SafeConfig(cfg) && runs != [] && runs[0].before != []
    requires AllReady(Last(runs[0].before), names, route, cfg)
    requires var full := FullPlan(Last(runs[0].before), names, route, cfg); Repeated(runs, full, route, cfg)
    requires k < |runs| && |runs[k].before| - 1 <= i < |runs[k].after|
    ensures var full := FullPlan(Last(runs[0].before), names, route, cfg);
            && NoLoss(runs[k].after[i], full)
            && (RanOut(runs, full) ==> Finished(Last(runs[|runs| - 1].after), full))
  {
    hide NoLoss, AllReady, IsMigration, Elsewhere, Compatible, Follows, TakenFrom, FullPlan, Finished, FreshTargets,
      Steps, Good;
    var full := FullPlan(Last(runs[0].before), names, route, cfg);
    FullPlanStarts(Last(runs[0].before), names, route, cfg);
    forall j | 0 <= j < |runs|
      ensures Runs(runs[j].plan, cfg) && Compatible(full, runs[j].plan)
      ensures Extends(runs[j].before, runs[j].after, runs[j].plan, cfg) && TakenFrom(runs[j].plan, Last(runs[j].before))
    {
      MigrationGives(runs[j], route, cfg);
      FollowersAreCompatible(full, runs[j].plan, route);
    }
    RerunsLoseNothing(runs, full, cfg, k, i);
    if RanOut(runs, full) {
      RerunsFinish(runs, full, cfg);
    }
  }

  // ----- a finished migration

  /** A run that removed every source, into targets that were new, has finished the migration. */
  lemma FinishedIsMerged(before: seq<State>, after: seq<State>, plan: Plan, cfg: RolloverConfig, srcs: set<string>,
                         gone: set<string>)
    requires Runs(plan, cfg) && SafeConfig(cfg) && Ran(before, after, plan, cfg, srcs, gone)
    requires FreshTargets(Last(before), plan) && forall src <- plan.frozen :: src !in Last(after).indices
    ensures Finished(Last(after), plan)
  {
    hide RollsInto, MadeFrom, Progress, RecordsAccepted;
    var s, s' := Last(before), Last(after);
    forall src <- plan.frozen
      ensures plan.target[src] in Targets(s', plan)
      ensures RollsInto(plan.frozen[src], src, plan.window, Targets(s', plan)[plan.target[src]])
    {
      assert Served(s', plan, src);
    }
    forall t, id | t in Targets(s', plan) && id in Targets(s', plan)[t]
      ensures id.Rolled? && id.src in plan.frozen && plan.target[id.src] == t
    {
      assert id in s'.indices[t] && t !in s.indices;
    }
  }

  /**
   * The whole lifecycle: three finished migrations, each taking all targets of the one before, leave in p4 for every
   * normalised key and UTC day exactly the total of the p1 documents.
   */
  lemma LifecycleConserves(s1: State, s2: State, s3: State, p1: Plan, p2: Plan, p3: Plan, nk: Key)
    requires Finished(s1, p1) && Finished(s2, p2) && Finished(s3, p3) && p1.window == HOUR && p2.window == DAY
    requires p3.window == DAY
    requires p2.frozen == Targets(s1, p1) && p3.frozen == Targets(s2, p2)
    ensures StoreTotal(Targets(s3, p3), AtKey(nk, DAY)) == StoreTotal(p1.frozen, AtKey(nk, DAY))
  {
    hide Merged, Total, AtKey;
    MergeConserves(p1.frozen, p1.target, HOUR, Targets(s1, p1), nk, DAY);
    MergeConserves(p2.frozen, p2.target, DAY, Targets(s2, p2), nk, DAY);
    MergeConserves(p3.frozen, p3.target, DAY, Targets(s3, p3), nk, DAY);
  }
}
