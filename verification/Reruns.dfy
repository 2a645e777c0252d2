/** Runs that follow each other: what a failed run leaves can be run again, and nothing is lost over all of them. */
module Reruns {
  import opened Documents
  import opened RollUp
  import opened Cluster
  import opened PageRolls
  import opened Checks
  import opened Traces

  // ----- two plans side by side

  /** The plans agree on common sources, and neither writes into or deletes what the other depends on. */
  ghost predicate Compatible(full: Plan, plan: Plan) {
    && WellPlanned(full) && WellPlanned(plan)
    && full.target.Values !! plan.frozen.Keys && plan.target.Values !! full.frozen.Keys
    && forall src :: src in full.frozen && src in plan.frozen ==>
         full.target[src] == plan.target[src] && full.alias[src] == plan.alias[src]
  }

  /** The plan was made from this state. */
  ghost predicate TakenFrom(plan: Plan, s: State) {
    forall src <- plan.frozen :: src in s.indices && plan.frozen[src] == s.indices[src]
  }

  /** Whether a target holds the roll-up of `src` depends on its documents from `src` only. */
  lemma OwnPartDecides(ix: Index, src: string, w: int, target: Index, target': Index)
    requires FromSource(target, src) == FromSource(target', src)
    ensures PartlyRolled(ix, src, w, target) <==> PartlyRolled(ix, src, w, target')
    ensures RollsInto(ix, src, w, target) <==> RollsInto(ix, src, w, target')
  {
    hide IsRoll, Keys;
    forall k
      ensures Rolled(k, src) in target <==> Rolled(k, src) in target'
      ensures Rolled(k, src) in target ==> target[Rolled(k, src)] == target'[Rolled(k, src)]
    {
      assert Rolled(k, src) in target <==> Rolled(k, src) in FromSource(target, src);
      assert Rolled(k, src) in target' <==> Rolled(k, src) in FromSource(target', src);
    }
  }

  /** A step of one plan leaves alone the documents of sources it does not know. */
  lemma StepSparesPart(s: State, s': State, plan: Plan, cfg: RolloverConfig, src: string, t: string)
    requires Steps(s, s', plan, cfg) && !cfg.deleteExistingRolledOverIndex && src !in plan.frozen && t !in plan.frozen
    requires t in s.indices
    ensures t in s'.indices && FromSource(s'.indices[t], src) == FromSource(s.indices[t], src)
  {
    hide MadeFrom, RecordsAccepted;
    forall id: DocId | id.Rolled? && id.src == src
      ensures id in s'.indices[t] <==> id in s.indices[t]
      ensures id in s.indices[t] ==> s'.indices[t][id] == s.indices[t][id]
    {
    }
  }

  /** A new target holds nothing of a source the plan does not know. */
  lemma NewTargetIsEmpty(s: State, s': State, plan: Plan, cfg: RolloverConfig, ix: Index, src: string, t: string)
    requires Steps(s, s', plan, cfg) && src !in plan.frozen && t !in s.indices && t in s'.indices
    ensures PartlyRolled(ix, src, plan.window, s'.indices[t])
  {
    hide MadeFrom, RecordsAccepted, IsRoll;
  }

  /** A source the plan does not know, and does not write into, is as it was. */
  lemma StepSparesIndex(s: State, s': State, plan: Plan, cfg: RolloverConfig, n: string)
    requires Steps(s, s', plan, cfg) && !cfg.deleteExistingRolledOverIndex
    requires n !in plan.frozen && n !in plan.target.Values
    ensures n in s.indices <==> n in s'.indices
    ensures n in s.indices ==> s'.indices[n] == s.indices[n]
    ensures forall a :: InAlias(s, a, n) ==> InAlias(s', a, n)
  {
    hide MadeFrom, RecordsAccepted;
    if n in s.indices {
      forall id: DocId ensures id in s'.indices[n] <==> id in s.indices[n]
        ensures id in s.indices[n] ==> s'.indices[n][id] == s.indices[n][id]
      {
      }
    }
  }

  lemma StepSparesAlias(s: State, s': State, plan: Plan, cfg: RolloverConfig, a: string, n: string)
    requires Steps(s, s', plan, cfg) && !cfg.deleteExistingRolledOverIndex && n !in plan.frozen
    ensures InAlias(s, a, n) ==> InAlias(s', a, n)
    ensures s.validated <= s'.validated
  {
    hide Adds, RecordsAccepted;
  }

  /** What a source is served by survives a step of a compatible plan that does not know it. */
  lemma UnknownStaysServed(s: State, s': State, plan: Plan, full: Plan, cfg: RolloverConfig, src: string)
    requires Runs(plan, cfg) && Runs(full, cfg) && !cfg.deleteExistingRolledOverIndex && Compatible(full, plan)
    requires Steps(s, s', plan, cfg) && src in full.frozen && src !in plan.frozen
    requires (src in s.indices ==> s.indices[src] == full.frozen[src]) && Served(s, full, src) && Tidy(s, full, src)
    ensures (src in s'.indices ==> s'.indices[src] == full.frozen[src]) && Served(s', full, src) && Tidy(s', full, src)
  {
    hide Steps, RollsInto, PartlyRolled, FromSource;
    var t, ix := full.target[src], full.frozen[src];
    assert t in full.target.Values && t !in plan.frozen;
    StepSparesIndex(s, s', plan, cfg, src);
    StepSparesAlias(s, s', plan, cfg, full.alias[src], t);
    if t in s.indices {
      StepSparesPart(s, s', plan, cfg, src, t);
      OwnPartDecides(ix, src, full.window, s.indices[t], s'.indices[t]);
    } else if t in s'.indices {
      NewTargetIsEmpty(s, s', plan, cfg, ix, src, t);
    }
  }

  /** A step of a plan keeps the no-loss of every compatible plan. */
  lemma StepKeepsOther(s: State, s': State, plan: Plan, full: Plan, cfg: RolloverConfig)
    requires Runs(plan, cfg) && Runs(full, cfg) && SafeConfig(cfg) && Compatible(full, plan) && Steps(s, s', plan, cfg)
    requires forall src :: src in full.frozen && src in plan.frozen ==> plan.frozen[src] == full.frozen[src]
    requires NoLoss(s, full) && NoLoss(s', plan)
    ensures NoLoss(s', full)
  {
    hide Steps, RollsInto, PartlyRolled;
    forall src <- full.frozen
      ensures src in s'.indices ==> s'.indices[src] == full.frozen[src]
      ensures Served(s', full, src) && Tidy(s', full, src)
    {
      assert Served(s, full, src) && Tidy(s, full, src);
      if src in plan.frozen {
        assert Served(s', plan, src) && Tidy(s', plan, src);
      } else {
        UnknownStaysServed(s, s', plan, full, cfg, src);
      }
    }
  }

  lemma SameSources(s: State, plan: Plan, full: Plan)
    requires NoLoss(s, full) && TakenFrom(plan, s)
    ensures forall src :: src in full.frozen && src in plan.frozen ==> plan.frozen[src] == full.frozen[src]
  {
    hide RollsInto, Tidy, Served;
  }

  /** Every state of a run keeps the no-loss of every compatible plan. */
  lemma {:induction false} RunKeepsOther(before: seq<State>, after: seq<State>, plan: Plan, full: Plan,
                                         cfg: RolloverConfig, i: nat)
    requires Runs(plan, cfg) && Runs(full, cfg) && SafeConfig(cfg) && Compatible(full, plan)
    requires Extends(before, after, plan, cfg) && NoLoss(Last(before), full) && TakenFrom(plan, Last(before))
    requires |before| - 1 <= i < |after|
    ensures NoLoss(after[i], full)
  {
    hide NoLoss, Steps, Compatible, TakenFrom;
    if i >= |before| {
      RunKeepsOther(before, after, plan, full, cfg, i - 1);
      SameSources(Last(before), plan, full);
      assert Steps(after[i - 1], after[i], plan, cfg) && Good(after[i], plan, cfg);
      StepKeepsOther(after[i - 1], after[i], plan, full, cfg);
    }
  }

  // ----- any number of runs

  datatype Run = Run(before: seq<State>, after: seq<State>, plan: Plan)

  /** What happens elsewhere leaves the sources, the targets, their aliases and the record alone. */
  ghost predicate Elsewhere(s: State, s': State, full: Plan) {
    && s.validated <= s'.validated
    && forall n :: n in full.frozen || n in full.target.Values ==>
         && (n in s.indices <==> n in s'.indices) && (n in s.indices ==> s'.indices[n] == s.indices[n])
         && forall a :: InAlias(s, a, n) ==> InAlias(s', a, n)
  }

  /** Runs one after the other, each with a plan taken from the state it starts in; any of them may fail anywhere. */
  ghost predicate InTurn(runs: seq<Run>, full: Plan, cfg: RolloverConfig) {
    && Runs(full, cfg) && SafeConfig(cfg)
    && (forall k :: 0 <= k < |runs| ==>
          && Runs(runs[k].plan, cfg) && Compatible(full, runs[k].plan)
          && Extends(runs[k].before, runs[k].after, runs[k].plan, cfg) && TakenFrom(runs[k].plan, Last(runs[k].before)))
    && forall j, k :: 0 <= j < |runs| && 0 <= k < |runs| && k == j + 1 ==>
         runs[j].after != [] && runs[k].before != [] && Elsewhere(Last(runs[j].after), Last(runs[k].before), full)
  }

  lemma ElsewhereKeeps(s: State, s': State, full: Plan)
    requires NoLoss(s, full) && Elsewhere(s, s', full)
    ensures NoLoss(s', full)
  {
    hide RollsInto, PartlyRolled;
    forall src <- full.frozen
      ensures src in s'.indices ==> s'.indices[src] == full.frozen[src]
      ensures Served(s', full, src) && Tidy(s', full, src)
    {
      assert Served(s, full, src) && Tidy(s, full, src);
      assert full.target[src] in full.target.Values;
    }
  }

  /**
   * Over any number of runs, failing anywhere and resumed any number of times with other selections of sources,
   * no state on the way loses a source of the full plan.
   */
  lemma {:induction false} RerunsLoseNothing(runs: seq<Run>, full: Plan, cfg: RolloverConfig, k: nat, i: nat)
    requires InTurn(runs, full, cfg) && k < |runs| && |runs[k].before| - 1 <= i < |runs[k].after|
    requires runs[0].before != [] && NoLoss(Last(runs[0].before), full)
    ensures NoLoss(runs[k].after[i], full)
    decreases k
  {
    hide NoLoss, Steps, Compatible, TakenFrom, Elsewhere;
    var run := runs[k];
    if k > 0 {
      var previous := runs[k - 1];
      assert Extends(previous.before, previous.after, previous.plan, cfg);
      RerunsLoseNothing(runs, full, cfg, k - 1, |previous.after| - 1);
      ElsewhereKeeps(Last(previous.after), Last(run.before), full);
    }
    RunKeepsOther(run.before, run.after, run.plan, full, cfg, i);
  }

  // ----- what such runs have finished

  /** The targets hold documents of the plan's own sources only, each in its own target. */
  ghost predicate OwnTargets(s: State, full: Plan)
    requires WellPlanned(full)
  {
    forall t, id :: t in full.target.Values && t in s.indices && id in s.indices[t] ==>
      id.Rolled? && id.src in full.frozen && full.target[id.src] == t
  }

  lemma StepKeepsTargets(s: State, s': State, plan: Plan, full: Plan, cfg: RolloverConfig)
    requires Compatible(full, plan) && plan.frozen.Keys <= full.frozen.Keys && Steps(s, s', plan, cfg)
    requires OwnTargets(s, full)
    ensures OwnTargets(s', full)
  {
    hide MadeFrom, RecordsAccepted, Stays;
  }

  lemma {:induction false} RunKeepsTargets(before: seq<State>, after: seq<State>, plan: Plan, full: Plan,
                                           cfg: RolloverConfig, i: nat)
    requires Compatible(full, plan) && plan.frozen.Keys <= full.frozen.Keys && Extends(before, after, plan, cfg)
    requires OwnTargets(Last(before), full) && |before| - 1 <= i < |after|
    ensures OwnTargets(after[i], full)
  {
    hide Steps, Compatible, OwnTargets, Good;
    assert WellPlanned(full) by { CompatibleIsWell(full, plan); }
    if i >= |before| {
      RunKeepsTargets(before, after, plan, full, cfg, i - 1);
      assert Steps(after[i - 1], after[i], plan, cfg);
      StepKeepsTargets(after[i - 1], after[i], plan, full, cfg);
    }
  }

  lemma CompatibleIsWell(full: Plan, plan: Plan)
    requires Compatible(full, plan)
    ensures WellPlanned(full) && WellPlanned(plan)
  {
  }

  lemma {:induction false} RerunsKeepTargets(runs: seq<Run>, full: Plan, cfg: RolloverConfig, k: nat)
    requires InTurn(runs, full, cfg) && k < |runs|
    requires forall j :: 0 <= j < |runs| ==> runs[j].plan.frozen.Keys <= full.frozen.Keys
    requires OwnTargets(Last(runs[0].before), full)
    ensures runs[k].after != [] && OwnTargets(Last(runs[k].after), full)
    decreases k
  {
    hide Steps, Compatible, TakenFrom, Good;
    var run := runs[k];
    assert Extends(run.before, run.after, run.plan, cfg);
    if k > 0 {
      RerunsKeepTargets(runs, full, cfg, k - 1);
      assert Elsewhere(Last(runs[k - 1].after), Last(run.before), full);
    }
    RunKeepsTargets(run.before, run.after, run.plan, full, cfg, |run.after| - 1);
  }

  ghost function Targets(s: State, plan: Plan): Store {
    map t | t in plan.target.Values && t in s.indices :: s.indices[t]
  }

  /** All sources are gone and the targets are exactly their merged roll-ups. */
  ghost predicate Finished(s: State, plan: Plan) {
    (forall src <- plan.frozen :: src !in s.indices) && Merged(plan.frozen, plan.target, plan.window, Targets(s, plan))
  }

  ghost predicate FreshTargets(s: State, plan: Plan) {
    forall src <- plan.target :: plan.target[src] !in s.indices
  }

  /** Nothing lost, only own documents, no source left: the migration is finished. */
  lemma GoneIsFinished(s: State, plan: Plan)
    requires NoLoss(s, plan) && OwnTargets(s, plan) && forall src <- plan.frozen :: src !in s.indices
    ensures Finished(s, plan)
  {
    hide RollsInto;
    forall src <- plan.frozen
      ensures plan.target[src] in Targets(s, plan)
      ensures RollsInto(plan.frozen[src], src, plan.window, Targets(s, plan)[plan.target[src]])
    {
      assert Served(s, plan, src);
    }
  }

  /** A migration that was cut short and resumed any number of times is finished once its sources are gone. */
  lemma RerunsFinish(runs: seq<Run>, full: Plan, cfg: RolloverConfig)
    requires InTurn(runs, full, cfg) && runs != []
    requires forall j :: 0 <= j < |runs| ==> runs[j].plan.frozen.Keys <= full.frozen.Keys
    requires NoLoss(Last(runs[0].before), full) && FreshTargets(Last(runs[0].before), full)
    requires var run := runs[|runs| - 1];
             run.after != [] && forall src <- full.frozen :: src !in Last(run.after).indices
    ensures Finished(Last(runs[|runs| - 1].after), full)
  {
    hide NoLoss, Steps, Compatible, TakenFrom, Elsewhere, Good;
    var n := |runs| - 1;
    assert Extends(runs[n].before, runs[n].after, runs[n].plan, cfg);
    RerunsLoseNothing(runs, full, cfg, n, |runs[n].after| - 1);
    assert OwnTargets(Last(runs[0].before), full);
    RerunsKeepTargets(runs, full, cfg, n);
    GoneIsFinished(Last(runs[n].after), full);
  }

  // ----- starting again by name

  /** Where a migration sends an index. */
  datatype Way = Way(target: string, alias: string)

  /** The migration's choice by name: None for a name it does not take. */
  type Route = string -> Option<Way>

  /** No target is itself taken as a source. */
  ghost predicate Proper(route: Route) {
    forall n, o :: route(n).Some? && route(o).Some? ==> route(n).value.target != o
  }

  ghost predicate AllReady(s: State, names: seq<string>, route: Route, cfg: RolloverConfig) {
    forall n <- names :: route(n).Some? ==> Ready(s, n, route(n).value.target, route(n).value.alias, cfg)
  }

  /** The plan sends its sources where the route says. */
  ghost predicate Follows(plan: Plan, route: Route)
    requires WellPlanned(plan)
  {
    forall src <- plan.frozen :: route(src) == Some(Way(plan.target[src], plan.alias[src]))
  }

  /** The plan of everything that is listed. */
  ghost function FullPlan(s: State, names: seq<string>, route: Route, cfg: RolloverConfig): Plan {
    var sources := set n | n in names && n in s.indices && route(n).Some?;
    Plan(map n | n in sources :: s.indices[n], map n | n in sources :: route(n).value.target,
         map n | n in sources :: route(n).value.alias, cfg.aggWindow, !cfg.skipValidation)
  }

  lemma FullPlanStarts(s: State, names: seq<string>, route: Route, cfg: RolloverConfig)
    requires Proper(route) && AllReady(s, names, route, cfg)
    ensures var full := FullPlan(s, names, route, cfg);
            Runs(full, cfg) && Follows(full, route) && NoLoss(s, full) && TakenFrom(full, s)
  {
    hide RollsInto, PartlyRolled;
    var full := FullPlan(s, names, route, cfg);
    forall src <- full.frozen ensures Served(s, full, src) && Tidy(s, full, src) {
      assert Ready(s, src, full.target[src], full.alias[src], cfg);
    }
  }

  lemma FollowersAreCompatible(full: Plan, plan: Plan, route: Route)
    requires WellPlanned(full) && WellPlanned(plan) && Proper(route) && Follows(full, route) && Follows(plan, route)
    ensures Compatible(full, plan)
  {
    forall t <- full.target.Values ensures t !in plan.frozen {
      var src :| src in full.frozen && full.target[src] == t;
    }
    forall t <- plan.target.Values ensures t !in full.frozen {
      var src :| src in plan.frozen && plan.target[src] == t;
    }
  }

  /** No loss gives back what a run wants at its start, for every source that is still there. */
  lemma Restart(s: State, full: Plan, cfg: RolloverConfig, src: string)
    requires Runs(full, cfg) && NoLoss(s, full) && src in full.frozen && src in s.indices
    ensures Ready(s, src, full.target[src], full.alias[src], cfg)
  {
    hide RollsInto, PartlyRolled;
    assert Served(s, full, src) && Tidy(s, full, src);
  }

  /** Whatever a run leaves, wherever it failed, is ready for the next run; nothing was lost on the way. */
  lemma LeavesReady(before: seq<State>, after: seq<State>, plan: Plan, names: seq<string>, route: Route,
                    cfg: RolloverConfig)
    requires Runs(plan, cfg) && SafeConfig(cfg) && Proper(route) && Follows(plan, route)
    requires Extends(before, after, plan, cfg)
    requires TakenFrom(plan, Last(before)) && AllReady(Last(before), names, route, cfg)
    ensures var full := FullPlan(Last(before), names, route, cfg);
            forall i :: |before| - 1 <= i < |after| ==> NoLoss(after[i], full)
    ensures after != [] && forall more: seq<string> :: (forall n <- more :: n in names && n in Last(after).indices) ==>
              AllReady(Last(after), more, route, cfg)
  {
    hide NoLoss, Steps, Compatible, TakenFrom, Ready, Good;
    var s, full := Last(before), FullPlan(Last(before), names, route, cfg);
    FullPlanStarts(s, names, route, cfg);
    FollowersAreCompatible(full, plan, route);
    forall i | |before| - 1 <= i < |after| ensures NoLoss(after[i], full) {
      RunKeepsOther(before, after, plan, full, cfg, i);
    }
    forall more: seq<string>, n |
      (forall x <- more :: x in names && x in Last(after).indices) && n in more && route(n).Some?
      ensures Ready(Last(after), n, route(n).value.target, route(n).value.alias, cfg)
    {
      ReadyIsThere(s, names, route, cfg, n);
      assert n in full.frozen;
      Restart(Last(after), full, cfg, n);
    }
  }

  lemma ReadyIsThere(s: State, names: seq<string>, route: Route, cfg: RolloverConfig, n: string)
    requires AllReady(s, names, route, cfg) && n in names && route(n).Some?
    ensures n in s.indices
  {
    hide IsServed, PartlyRolled;
  }
}
