/** The merge jobs of a migration one after the other, and what becomes of each. */
module Merges {
  import opened Documents
  import opened TimeRanges
  import opened RollUp
  import opened Validation
  import opened Cluster
  import opened PageRolls
  import opened Checks
  import opened Traces
  import opened Lifecycle

  // ----- jobs

  /** One group of indices to merge: a tenant's week, or a tenant's year. */
  datatype MergeJob = MergeJob(sources: seq<string>, target: string, alias: string)

  ghost predicate Planned(jobs: seq<MergeJob>, plan: Plan)
    requires WellPlanned(plan)
  {
    forall j, src :: 0 <= j < |jobs| && src in jobs[j].sources ==>
      src in plan.frozen && plan.target[src] == jobs[j].target && plan.alias[src] == jobs[j].alias
  }

  /** The sources of all jobs, in the order in which they are rolled. */
  function Order(jobs: seq<MergeJob>): seq<string> {
    if jobs == [] then [] else Order(jobs[..|jobs| - 1]) + jobs[|jobs| - 1].sources
  }

  lemma OrderGrows(jobs: seq<MergeJob>, j: nat)
    requires j < |jobs|
    ensures Order(jobs[..j + 1]) == Order(jobs[..j]) + jobs[j].sources
  {
    assert jobs[..j + 1][..j] == jobs[..j];
  }

  lemma {:induction false} OrderPrefix(jobs: seq<MergeJob>, j: nat)
    requires j <= |jobs|
    ensures Order(jobs[..j]) <= Order(jobs)
    decreases |jobs| - j
  {
    if j < |jobs| {
      OrderGrows(jobs, j);
      OrderPrefix(jobs, j + 1);
    } else {
      assert jobs[..j] == jobs;
    }
  }

  lemma NeverFailing(start: State, s: State, t: State, order: seq<string>, done: seq<string>, sources: seq<string>,
                     i: int, cfg: RolloverConfig, plan: Plan, spans: map<string, Span>)
    requires Runs(plan, cfg) && Orderly(start, plan, cfg, spans, order) && done + sources <= order
    requires forall src <- sources :: src in plan.frozen
    requires Adds(start, s, plan, Listed(done))
    requires forall n <- start.indices :: n in plan.frozen && n !in done ==> n in s.indices
    ensures !Failing(s, t, sources, i, true, cfg, plan)
  {
    hide Adds, Spanned, Excused, NoLoss, Undisturbed, Orderly;
    if 0 <= i < |sources| && Adds(s, t, plan, Listed(sources[..i + 1])) && Good(t, plan, cfg) &&
       (forall n <- s.indices :: n in plan.frozen ==> n in t.indices) {
      NthUndisturbed(start, plan, cfg, spans, order, done, sources, i);
      OrderlyIsSafe(start, plan, cfg, spans, order);
      AddsJoin(start, s, t, plan, Listed(done), Listed(sources[..i + 1]));
      assert Listed(done) + Listed(sources[..i + 1]) == Listed(done + sources[..i]) + {sources[i]} by {
        assert sources[..i + 1] == sources[..i] + [sources[i]];
      }
      OrderlyIsUniform(start, plan, cfg, spans, order);
      UndisturbedSucceeds(start, t, plan, cfg, spans, sources[i], Listed(done + sources[..i]));
    }
  }

  lemma OrderlyIsUniform(s: State, plan: Plan, cfg: RolloverConfig, spans: map<string, Span>, order: seq<string>)
    requires WellPlanned(plan) && Orderly(s, plan, cfg, spans, order)
    ensures Uniform(cfg)
  {
    hide Undisturbed;
  }

  lemma UndisturbedHasSpan(s: State, plan: Plan, cfg: RolloverConfig, spans: map<string, Span>, src: string,
                           before: set<string>)
    requires Runs(plan, cfg) && Undisturbed(s, plan, cfg, spans, src, before)
    ensures src in plan.frozen && src in spans && Spanned(plan.frozen[src], spans[src], plan.window)
  {
  }

  lemma NthUndisturbed(s: State, plan: Plan, cfg: RolloverConfig, spans: map<string, Span>, order: seq<string>,
                       done: seq<string>, sources: seq<string>, i: int)
    requires WellPlanned(plan) && Orderly(s, plan, cfg, spans, order) && done + sources <= order && 0 <= i < |sources|
    ensures sources[i] in s.indices && sources[i] !in done + sources[..i]
    ensures Undisturbed(s, plan, cfg, spans, sources[i], Listed(done + sources[..i]))
  {
    hide Undisturbed;
    var n := |done| + i;
    assert order[n] == sources[i] && order[..n] == done + sources[..i];
  }

  // ----- what became of each job

  /**
   * From and to which states of the trace and positions in the log of failed requests a job ran, how many of its
   * sources were rolled, whether the next one failed, and whether replacing the rolled ones failed.
   */
  datatype Outcome = Outcome(begin: nat, end: nat, since: nat, until: nat, done: nat, errored: bool, aborted: bool)
  {
    predicate Failed() {
      errored || aborted
    }
  }

  /**
   * The rolled sources are gone unless replacing them failed. The next source failed because a request to roll it
   * failed, or with a reason of its own in a state of the job. Replacing failed because an alias or delete request
   * for the rolled sources failed, or because they were empty and there is no target.
   */
  ghost predicate Explained(trace: seq<State>, log: seq<Request>, job: MergeJob, o: Outcome, plan: Plan,
                            cfg: RolloverConfig)
    requires WellPlanned(plan)
  {
    && o.begin <= o.end < |trace| && o.since <= o.until <= |log| && o.done <= |job.sources|
    && (!o.errored ==> o.done == |job.sources|) && (forall src <- job.sources :: src in plan.frozen)
    && (!o.aborted ==> forall src <- job.sources[..o.done] :: src !in trace[o.end].indices)
    && (o.errored ==>
          && o.done < |job.sources|
          && (Hindered(log[..o.until], o.since, job.sources[o.done], job.target) ||
              FailedOnce(trace[o.begin], trace[..o.end + 1], o.begin, job.sources, o.done, cfg, plan)))
    && (o.aborted ==>
          && o.done > 0
          && (Blocked(log[..o.until], o.since, job.sources[..o.done], job.target, job.alias) ||
              NothingToReplace(trace[o.end], job, plan, cfg)))
  }

  ghost predicate NothingToReplace(s: State, job: MergeJob, plan: Plan, cfg: RolloverConfig)
    requires WellPlanned(plan) && job.sources != [] && job.sources[0] in plan.frozen
  {
    job.target !in s.indices && (SafeConfig(cfg) ==> Written(s, plan, job.sources[0]))
  }

  ghost function Failures(outcomes: seq<Outcome>): nat {
    if outcomes == [] then 0
    else Failures(outcomes[..|outcomes| - 1]) + if outcomes[|outcomes| - 1].Failed() then 1 else 0
  }

  /** Each job began where the one before it ended, the first at `n` and `m`. */
  ghost predicate BackToBack(outcomes: seq<Outcome>, n: nat, m: nat) {
    && (outcomes != [] ==> outcomes[0].begin == n && outcomes[0].since == m)
    && forall j, k :: 0 <= j < |outcomes| && 0 <= k < |outcomes| && k == j + 1 ==>
         outcomes[k].begin == outcomes[j].end && outcomes[k].since == outcomes[j].until
  }

  /**
   * The first |outcomes| jobs were tried one after the other, from positions `n` and `m` to the ends of the trace
   * and the log; `errors` counts the failed ones, and what the others rolled is still gone.
   */
  ghost predicate Accounts(trace: seq<State>, log: seq<Request>, n: nat, m: nat, jobs: seq<MergeJob>,
                           outcomes: seq<Outcome>, errors: nat, plan: Plan, cfg: RolloverConfig)
    requires WellPlanned(plan)
  {
    && |outcomes| <= |jobs| && errors == Failures(outcomes) && trace != [] && BackToBack(outcomes, n, m)
    && (if outcomes == [] then n == |trace| - 1 && m == |log|
        else outcomes[|outcomes| - 1].end == |trace| - 1 && outcomes[|outcomes| - 1].until == |log|)
    && (forall j :: 0 <= j < |outcomes| ==> Explained(trace, log, jobs[j], outcomes[j], plan, cfg))
    && forall j, src :: 0 <= j < |outcomes| && !outcomes[j].aborted && SourceRolled(jobs[j], outcomes[j], src) ==>
         src !in Last(trace).indices
  }

  ghost predicate SourceRolled(job: MergeJob, o: Outcome, src: string) {
    o.done <= |job.sources| && src in job.sources[..o.done]
  }

  lemma ExplainedLater(trace: seq<State>, trace': seq<State>, log: seq<Request>, log': seq<Request>, job: MergeJob,
                       o: Outcome, plan: Plan, cfg: RolloverConfig)
    requires WellPlanned(plan) && trace <= trace' && log <= log' && Explained(trace, log, job, o, plan, cfg)
    ensures Explained(trace', log', job, o, plan, cfg)
  {
    hide Failing, Written;
    assert trace'[..o.end + 1] == trace[..o.end + 1] && log'[..o.until] == log[..o.until];
  }

  /** One more job. */
  lemma AccountsGrow(a: seq<State>, c: seq<State>, log: seq<Request>, log': seq<Request>, n: nat, m: nat,
                     jobs: seq<MergeJob>, outcomes: seq<Outcome>, errors: nat, o: Outcome, plan: Plan,
                     cfg: RolloverConfig)
    requires WellPlanned(plan) && Accounts(a, log, n, m, jobs, outcomes, errors, plan, cfg) && a <= c && log <= log'
    requires |outcomes| < |jobs| && Explained(c, log', jobs[|outcomes|], o, plan, cfg)
    requires o.begin == |a| - 1 && o.end == |c| - 1 && o.since == |log| && o.until == |log'|
    requires forall src <- plan.frozen :: src !in Last(a).indices ==> src !in Last(c).indices
    ensures Accounts(c, log', n, m, jobs, outcomes + [o], errors + if o.Failed() then 1 else 0, plan, cfg)
  {
    hide Explained;
    var more := outcomes + [o];
    assert more[..|more| - 1] == outcomes;
    forall j | 0 <= j < |more| ensures Explained(c, log', jobs[j], more[j], plan, cfg) {
      if j < |outcomes| {
        ExplainedLater(a, c, log, log', jobs[j], outcomes[j], plan, cfg);
      }
    }
    forall j, src | 0 <= j < |more| && !more[j].aborted && SourceRolled(jobs[j], more[j], src)
      ensures src !in Last(c).indices
    {
      ExplainedSources(c, log', jobs[j], more[j], plan, cfg, src);
    }
  }

  lemma ExplainedSources(trace: seq<State>, log: seq<Request>, job: MergeJob, o: Outcome, plan: Plan,
                         cfg: RolloverConfig, src: string)
    requires WellPlanned(plan) && Explained(trace, log, job, o, plan, cfg) && SourceRolled(job, o, src)
    ensures src in plan.frozen && (!o.aborted ==> src !in trace[o.end].indices)
  {
    hide Hindered, Blocked, FailedOnce, NothingToReplace;
  }

  /** In an orderly run the next merge of a calm cluster neither fails nor aborts. */
  lemma OrderlyMergeSucceeds(a: seq<State>, b: seq<State>, c: seq<State>, log: seq<Request>, order: seq<string>,
                             done: seq<string>, job: MergeJob, o: Outcome, errors: nat, cfg: RolloverConfig,
                             plan: Plan, spans: map<string, Span>)
    requires Runs(plan, cfg) && Worked(a, b, done, errors, plan, cfg) && Orderly(Last(a), plan, cfg, spans, order)
    requires done + job.sources <= order && Explained(c, log, job, o, plan, cfg) && c[o.begin] == Last(b)
    requires forall src <- job.sources :: src in plan.frozen && plan.target[src] == job.target
    requires o.since == o.until
    ensures !o.Failed()
  {
    hide Adds, Spanned, Excused, NoLoss, Undisturbed, Orderly, Failing, Written, WellPlanned, SafeConfig, Ran, Good,
      Progress;
    OrderlyIsSafe(Last(a), plan, cfg, spans, order);
    RanGives(a, b, plan, cfg, Listed(done), Listed(done));
    RanAdds(a, b, plan, cfg, Listed(done), Listed(done));
    if o.errored {
      var t :| t in c && Failing(Last(b), t, job.sources, o.done, true, cfg, plan);
      NeverFailing(Last(a), Last(b), t, order, done, job.sources, o.done, cfg, plan, spans);
    }
    if o.aborted {
      var first := job.sources[0];
      assert first in job.sources;
      NthUndisturbed(Last(a), plan, cfg, spans, order, done, job.sources, 0);
      UndisturbedHasSpan(Last(a), plan, cfg, spans, first, Listed(done + job.sources[..0]));
      WrittenHasTarget(c[o.end], plan, first, spans[first]);
    }
  }

  /** What is gone does not come back, whatever the settings. */
  lemma NeverBack(a: seq<State>, b: seq<State>, plan: Plan, cfg: RolloverConfig, srcs: set<string>, gone: set<string>)
    requires WellPlanned(plan) && Ran(a, b, plan, cfg, srcs, gone)
    ensures forall src <- plan.frozen :: src !in Last(a).indices ==> src !in Last(b).indices
  {
    hide Good, Adds, Steps, SafeProgress;
  }

  /**
   * A source that is still there after the run belongs to a failed job: it is the one that failed, with its reason;
   * or it comes after that one; or it was rolled and replacing it failed, with the reason of that.
   */
  lemma LeftHasReason(trace: seq<State>, log: seq<Request>, n: nat, m: nat, jobs: seq<MergeJob>,
                      outcomes: seq<Outcome>, errors: nat, plan: Plan, cfg: RolloverConfig, j: nat, i: nat)
    requires WellPlanned(plan) && Accounts(trace, log, n, m, jobs, outcomes, errors, plan, cfg)
    requires j < |outcomes| && i < |jobs[j].sources| && jobs[j].sources[i] in Last(trace).indices
    ensures var o, job := outcomes[j], jobs[j];
            && o.Failed()
            && (i == o.done ==>
                  Hindered(log[..o.until], o.since, job.sources[i], job.target) ||
                  FailedOnce(trace[o.begin], trace[..o.end + 1], o.begin, job.sources, i, cfg, plan))
            && (i > o.done ==> o.errored)
            && (i < o.done ==>
                  o.aborted &&
                  (Blocked(log[..o.until], o.since, job.sources[..o.done], job.target, job.alias) ||
                   NothingToReplace(trace[o.end], job, plan, cfg)))
  {
    hide Hindered, Blocked, FailedOnce, NothingToReplace, BackToBack;
    var o, job := outcomes[j], jobs[j];
    assert Explained(trace, log, job, o, plan, cfg);
    if i < o.done {
      assert job.sources[..o.done][i] == job.sources[i] && SourceRolled(job, o, job.sources[i]);
    }
  }

  /**
   * The group loops of mergeP2Indices, which goes on after a failed week, and of
   * mergeP3AndOlderRolledOverIndices, which gives up when an alias or delete call fails.
   */
  method RunMerges(cluster: SearchCluster, jobs: seq<MergeJob>, stopOnAbort: bool, cfg: RolloverConfig, orders: Orders,
                   ghost plan: Plan, ghost spans: map<string, Span>)
    returns (errors: nat, ghost outcomes: seq<Outcome>)
    requires ValidOrders(orders) && Runs(plan, cfg) && cluster.Logged() && Good(cluster.st, plan, cfg)
    requires Planned(jobs, plan)
    modifies cluster
    ensures cluster.Logged()
    ensures Ran(old(cluster.trace), cluster.trace, plan, cfg, Listed(Order(jobs)), Listed(Order(jobs)))
    ensures errors == 0 && SafeConfig(cfg) ==> forall src <- Order(jobs) :: src !in cluster.st.indices
    ensures GoneChecked(old(cluster.trace), cluster.trace, Order(jobs), plan, cfg)
    ensures Accounts(cluster.trace, cluster.refused, |old(cluster.trace)| - 1, |old(cluster.refused)|, jobs, outcomes,
                     errors, plan, cfg)
    ensures |outcomes| == |jobs| || (stopOnAbort && outcomes != [] && outcomes[|outcomes| - 1].aborted)
    ensures cluster.Grew(old(cluster.refused))
    ensures cluster.calm && Orderly(old(cluster.st), plan, cfg, spans, Order(jobs)) ==> errors == 0
  {
    hide Good, SafeConfig, ValidOrders, Progress, Ran, Orderly, GoneChecked, Failing, Written, Worked, Accounts,
      Hindered,
      Blocked, FailedOnce, Explained, Failures;
    errors, outcomes := 0, [];
    SourcesPlanned(jobs, plan);
    NoWork(cluster.trace, plan, cfg);
    NoAccounts(cluster.trace, cluster.refused, jobs, plan, cfg);
    assert jobs[..0] == [] && Order(jobs[..0]) == [];
    ghost var orderly := cluster.calm && Orderly(old(cluster.st), plan, cfg, spans, Order(jobs));
    for j := 0 to |jobs|
      invariant cluster.Logged() && Good(cluster.st, plan, cfg) && cluster.Grew(old(cluster.refused))
      invariant Worked(old(cluster.trace), cluster.trace, Order(jobs[..j]), errors, plan, cfg)
      invariant Accounts(cluster.trace, cluster.refused, |old(cluster.trace)| - 1, |old(cluster.refused)|, jobs,
                         outcomes, errors, plan, cfg)
      invariant |outcomes| == j
      invariant orderly ==> errors == 0
    {
      label Before:
      var aborted, errored;
      ghost var rolled;
      aborted, errored, rolled :=
        cluster.MergeIndices(jobs[j].sources, jobs[j].target, jobs[j].alias, cfg, orders, plan);
      ghost var o := Outcome(|old@Before(cluster.trace)| - 1, |cluster.trace| - 1, |old@Before(cluster.refused)|,
                             |cluster.refused|, rolled, errored, aborted);
      JobCounted(old(cluster.trace), old@Before(cluster.trace), cluster.trace, old@Before(cluster.refused),
                 cluster.refused, |old(cluster.refused)|, jobs, outcomes, errors, o, plan, cfg);
      if orderly {
        RanGives(old@Before(cluster.trace), cluster.trace, plan, cfg, Listed(jobs[j].sources), Listed(jobs[j].sources));
        JobInOrder(old(cluster.trace), old@Before(cluster.trace), cluster.trace, cluster.refused, jobs, j, errors, o,
                   plan, cfg, spans);
      }
      outcomes := outcomes + [o];
      if aborted || errored {
        errors := errors + 1;
      }
      if aborted && stopOnAbort {
        OrderPrefix(jobs, j + 1);
        StoppedEarly(old(cluster.trace), cluster.trace, Order(jobs[..j + 1]), Order(jobs), errors, cfg, plan);
        return;
      }
    }
    assert jobs[..|jobs|] == jobs;
    WorkDone(old(cluster.trace), cluster.trace, Order(jobs), errors, plan, cfg);
  }

  lemma NoAccounts(trace: seq<State>, log: seq<Request>, jobs: seq<MergeJob>, plan: Plan, cfg: RolloverConfig)
    requires WellPlanned(plan) && trace != []
    ensures Accounts(trace, log, |trace| - 1, |log|, jobs, [], 0, plan, cfg)
  {
  }

  /** What a job may say of itself when it ends. */
  ghost predicate Reports(b: seq<State>, c: seq<State>, log: seq<Request>, log': seq<Request>, job: MergeJob,
                          o: Outcome, plan: Plan, cfg: RolloverConfig)
    requires WellPlanned(plan) && b != [] && c != [] && forall src <- job.sources :: src in plan.frozen
  {
    && o.begin == |b| - 1 && o.end == |c| - 1 && o.since == |log| && o.until == |log'|
    && o.done <= |job.sources| && (!o.errored ==> o.done == |job.sources|)
    && (!o.aborted ==> forall src <- job.sources[..o.done] :: src !in Last(c).indices)
    && (o.errored ==>
          && o.done < |job.sources|
          && (Hindered(log', |log|, job.sources[o.done], job.target) ||
              FailedOnce(Last(b), c, |b| - 1, job.sources, o.done, cfg, plan)))
    && (o.aborted ==>
          && o.done > 0
          && (Blocked(log', |log|, job.sources[..o.done], job.target, job.alias) ||
              NothingToReplace(Last(c), job, plan, cfg)))
  }

  lemma ReportGives(b: seq<State>, c: seq<State>, log: seq<Request>, log': seq<Request>, job: MergeJob, o: Outcome,
                       plan: Plan, cfg: RolloverConfig)
    requires WellPlanned(plan) && b != [] && b <= c && log <= log' && forall src <- job.sources :: src in plan.frozen
    requires Reports(b, c, log, log', job, o, plan, cfg)
    ensures Explained(c, log', job, o, plan, cfg) && c[o.begin] == Last(b)
    ensures o.begin == |b| - 1 && o.end == |c| - 1 && o.since == |log| && o.until == |log'|
    ensures !o.Failed() ==> forall src <- job.sources :: src !in Last(c).indices
  {
    hide Hindered, Blocked, FailedOnce, NothingToReplace;
    assert !o.Failed() ==> job.sources[..o.done] == job.sources;
    assert c[..o.end + 1] == c && log'[..o.until] == log' && c[o.begin] == Last(b);
  }

  /** One more job, with what is known of the whole run so far. */
  lemma JobCounted(a: seq<State>, b: seq<State>, c: seq<State>, log: seq<Request>, log': seq<Request>, m: nat,
                   jobs: seq<MergeJob>, outcomes: seq<Outcome>, errors: nat, o: Outcome, plan: Plan,
                   cfg: RolloverConfig)
    requires WellPlanned(plan) && Planned(jobs, plan) && |outcomes| < |jobs| && a != [] && b != [] && log <= log'
    requires Worked(a, b, Order(jobs[..|outcomes|]), errors, plan, cfg)
    requires Accounts(b, log, |a| - 1, m, jobs, outcomes, errors, plan, cfg)
    requires var sources := jobs[|outcomes|].sources; Ran(b, c, plan, cfg, Listed(sources), Listed(sources))
    requires c != [] && forall src <- jobs[|outcomes|].sources :: src in Last(b).indices && src !in Last(c).indices ==>
      CheckedSince(b, c, src, jobs[|outcomes|].target, cfg)
    requires Reports(b, c, log, log', jobs[|outcomes|], o, plan, cfg)
    ensures var errors' := if o.Failed() then errors + 1 else errors;
            && Good(Last(c), plan, cfg) && Worked(a, c, Order(jobs[..|outcomes| + 1]), errors', plan, cfg)
            && Accounts(c, log', |a| - 1, m, jobs, outcomes + [o], errors', plan, cfg)
  {
    hide Ran, CheckedSince, Good, Worked, Explained, Order, Accounts, Reports, FailedOnce, SafeConfig, Progress;
    var job, done := jobs[|outcomes|], Order(jobs[..|outcomes|]);
    OrderGrows(jobs, |outcomes|);
    RanGives(b, c, plan, cfg, Listed(job.sources), Listed(job.sources));
    ReportGives(b, c, log, log', job, o, plan, cfg);
    NeverBack(b, c, plan, cfg, Listed(job.sources), Listed(job.sources));
    AccountsGrow(b, c, log, log', |a| - 1, m, jobs, outcomes, errors, o, plan, cfg);
    WorkedOn(a, b, c, done, job.sources, job.target, errors, o.Failed(), cfg, plan);
  }

  /** In an orderly run of a calm cluster the next job does not fail. */
  lemma JobInOrder(a: seq<State>, b: seq<State>, c: seq<State>, log: seq<Request>, jobs: seq<MergeJob>, k: nat,
                   errors: nat, o: Outcome, plan: Plan, cfg: RolloverConfig, spans: map<string, Span>)
    requires Runs(plan, cfg) && Planned(jobs, plan) && k < |jobs| && a != [] && b != [] && b <= c
    requires Worked(a, b, Order(jobs[..k]), errors, plan, cfg) && Reports(b, c, log, log, jobs[k], o, plan, cfg)
    requires Orderly(Last(a), plan, cfg, spans, Order(jobs))
    ensures !o.Failed()
  {
    hide Worked, Explained, Orderly, Order, Reports;
    OrderStep(jobs, k);
    JobIsPlanned(jobs, plan, k);
    hide Planned, WellPlanned;
    ReportGives(b, c, log, log, jobs[k], o, plan, cfg);
    OrderlyMergeSucceeds(a, b, c, log, Order(jobs), Order(jobs[..k]), jobs[k], o, errors, cfg, plan, spans);
  }

  lemma OrderStep(jobs: seq<MergeJob>, k: nat)
    requires k < |jobs|
    ensures Order(jobs[..k]) + jobs[k].sources <= Order(jobs)
  {
    OrderGrows(jobs, k);
    OrderPrefix(jobs, k + 1);
  }

  lemma JobIsPlanned(jobs: seq<MergeJob>, plan: Plan, k: nat)
    requires WellPlanned(plan) && Planned(jobs, plan) && k < |jobs|
    ensures forall src <- jobs[k].sources :: src in plan.frozen && plan.target[src] == jobs[k].target
  {
  }

  /** What was done so far: the sources of `done` were handled, and without an error they are gone. */
  ghost predicate Worked(before: seq<State>, after: seq<State>, done: seq<string>, errors: nat, plan: Plan,
                         cfg: RolloverConfig)
    requires WellPlanned(plan)
  {
    && Ran(before, after, plan, cfg, Listed(done), Listed(done)) && GoneChecked(before, after, done, plan, cfg)
    && (errors == 0 && SafeConfig(cfg) ==> forall src <- done :: src !in Last(after).indices)
  }

  lemma NoWork(trace: seq<State>, plan: Plan, cfg: RolloverConfig)
    requires WellPlanned(plan) && trace != [] && Good(Last(trace), plan, cfg)
    ensures Worked(trace, trace, [], 0, plan, cfg)
  {
    hide Ran, GoneChecked, Good;
    NoneGone(trace, plan, cfg);
    assert Listed([]) == {};
    RanNothing(trace, plan, cfg, {}, {});
  }

  lemma WorkDone(before: seq<State>, after: seq<State>, done: seq<string>, errors: nat, plan: Plan, cfg: RolloverConfig)
    requires WellPlanned(plan) && Worked(before, after, done, errors, plan, cfg)
    ensures Ran(before, after, plan, cfg, Listed(done), Listed(done)) && GoneChecked(before, after, done, plan, cfg)
    ensures after != [] && (errors == 0 && SafeConfig(cfg) ==> forall src <- done :: src !in Last(after).indices)
  {
    hide Ran, SafeConfig, CheckedSince;
  }

  /** One more group. */
  lemma WorkedOn(a: seq<State>, b: seq<State>, c: seq<State>, done: seq<string>, sources: seq<string>, target: string,
                 errors: nat, failed: bool, cfg: RolloverConfig, plan: Plan)
    requires WellPlanned(plan) && (forall src <- sources :: src in plan.frozen && plan.target[src] == target)
    requires Worked(a, b, done, errors, plan, cfg)
    requires Ran(b, c, plan, cfg, Listed(sources), Listed(sources)) && b != [] && c != []
    requires forall src <- sources :: src in Last(b).indices && src !in Last(c).indices ==>
      CheckedSince(b, c, src, target, cfg)
    requires !failed ==> forall src <- sources :: src !in Last(c).indices
    ensures Good(Last(c), plan, cfg) && Worked(a, c, done + sources, if failed then errors + 1 else errors, plan, cfg)
  {
    hide Ran, CheckedSince, Good, Progress, SafeConfig;
    MergeJoins(a, b, c, done, sources, target, cfg, plan);
    RanGives(b, c, plan, cfg, Listed(sources), Listed(sources));
    if errors == 0 && !failed && SafeConfig(cfg) {
      GoneStays(Last(b), Last(c), plan);
    }
  }

  /** Every source that disappeared on the way was compared with its target and found equal on the way. */
  ghost predicate GoneChecked(before: seq<State>, after: seq<State>, sources: seq<string>, plan: Plan,
                              cfg: RolloverConfig)
    requires WellPlanned(plan)
  {
    && before != [] && after != []
    && (forall src <- sources :: src in plan.frozen)
    && (forall src <- sources :: src in Last(before).indices && src !in Last(after).indices ==>
          CheckedSince(before, after, src, plan.target[src], cfg))
  }

  lemma NoneGone(trace: seq<State>, plan: Plan, cfg: RolloverConfig)
    requires WellPlanned(plan) && trace != []
    ensures GoneChecked(trace, trace, [], plan, cfg)
  {
  }

  lemma {:induction false} SourcesPlanned(jobs: seq<MergeJob>, plan: Plan)
    requires WellPlanned(plan) && Planned(jobs, plan)
    ensures forall src <- Order(jobs) :: src in plan.frozen
  {
    if jobs != [] {
      SourcesPlanned(jobs[..|jobs| - 1], plan);
    }
  }

  lemma GoneStays(s: State, s': State, plan: Plan)
    requires WellPlanned(plan) && Progress(s, s', plan)
    ensures forall src <- plan.frozen :: src !in s.indices ==> src !in s'.indices
  {
  }

  lemma MergeJoins(a: seq<State>, b: seq<State>, c: seq<State>, done: seq<string>, sources: seq<string>, target: string,
                   cfg: RolloverConfig, plan: Plan)
    requires WellPlanned(plan) && forall src <- sources :: src in plan.frozen && plan.target[src] == target
    requires Ran(a, b, plan, cfg, Listed(done), Listed(done)) && GoneChecked(a, b, done, plan, cfg)
    requires Ran(b, c, plan, cfg, Listed(sources), Listed(sources)) && b != [] && c != []
    requires forall src <- sources :: src in Last(b).indices && src !in Last(c).indices ==>
      CheckedSince(b, c, src, target, cfg)
    ensures Ran(a, c, plan, cfg, Listed(done + sources), Listed(done + sources))
    ensures GoneChecked(a, c, done + sources, plan, cfg)
  {
    hide Ran, CheckedSince, Good, Progress;
    RanGives(a, b, plan, cfg, Listed(done), Listed(done));
    RanGives(b, c, plan, cfg, Listed(sources), Listed(sources));
    RanJoin(a, b, c, plan, cfg, Listed(done), Listed(sources), Listed(done), Listed(sources));
    assert Listed(done + sources) == Listed(done) + Listed(sources);
    forall src | src in done + sources && src in Last(a).indices && src !in Last(c).indices
      ensures src in plan.frozen && CheckedSince(a, c, src, plan.target[src], cfg)
    {
      if src in Last(b).indices {
        CheckedLater(a, b, c, c, src, target, cfg);
      } else {
        CheckedLater(a, a, b, c, src, plan.target[src], cfg);
      }
    }
  }

  lemma StoppedEarly(a: seq<State>, b: seq<State>, done: seq<string>, order: seq<string>, errors: nat,
                     cfg: RolloverConfig, plan: Plan)
    requires WellPlanned(plan) && done <= order && (forall src <- order :: src in plan.frozen)
    requires Worked(a, b, done, errors, plan, cfg)
    ensures Ran(a, b, plan, cfg, Listed(order), Listed(order)) && GoneChecked(a, b, order, plan, cfg)
  {
    hide Ran, CheckedSince, Good, Progress;
    assert forall src <- done :: src in order;
    RanGives(a, b, plan, cfg, Listed(done), Listed(done));
    RanWithin(a, b, plan, cfg, Listed(done), Listed(order), Listed(done), Listed(order));
  }

  lemma OrderlyIsSafe(s: State, plan: Plan, cfg: RolloverConfig, spans: map<string, Span>, order: seq<string>)
    requires WellPlanned(plan) && Orderly(s, plan, cfg, spans, order)
    ensures SafeConfig(cfg)
  {
    hide Undisturbed;
    UniformIsSafe(cfg);
  }
}
