/** Stretches of a run as traces of cluster states: what every call keeps, and what a reader of a whole trace knows. */
module Traces {
  import opened Documents
  import opened TimeRanges
  import opened RollUp
  import opened Cluster
  import opened PageRolls
  import opened Checks

  // ----- what every run keeps

  /** Kept by every call: sources are never modified, and under safe settings none is ever lost. */
  ghost predicate Good(s: State, plan: Plan, cfg: RolloverConfig) {
    FrozenSources(s, plan) && (SafeConfig(cfg) ==> NoLoss(s, plan))
  }

  ghost function Last(trace: seq<State>): State
    requires trace != []
  {
    trace[|trace| - 1]
  }

  /** Targets that the settings tell to delete first are not protected. */
  ghost predicate Unprotected(n: string, plan: Plan, cfg: RolloverConfig) {
    cfg.deleteExistingRolledOverIndex && n in plan.target.Values
  }

  /**
   * Indices and their documents disappear only if they are in `gone`, only sources leave an alias, what is
   * recorded as validated stays so, and a new index is a target.
   */
  ghost predicate Stays(s: State, s': State, plan: Plan, cfg: RolloverConfig, gone: set<string>) {
    && s.validated <= s'.validated
    && (forall n <- s.indices ::
          (n in s'.indices && s.indices[n].Keys <= s'.indices[n].Keys) || n in gone || Unprotected(n, plan, cfg))
    && (forall a, n :: InAlias(s, a, n) ==> InAlias(s', a, n) || n in plan.frozen || Unprotected(n, plan, cfg))
    && (forall n <- s'.indices :: n in s.indices || n in plan.target.Values)
  }

  /** One call: it records only accepted pairs, writes and deletes for sources of the plan only, and spares the rest. */
  ghost predicate Steps(s: State, s': State, plan: Plan, cfg: RolloverConfig) {
    && WellPlanned(plan) && RecordsAccepted(s, s', cfg)
    && Adds(s, s', plan, plan.frozen.Keys) && Stays(s, s', plan, cfg, plan.frozen.Keys)
  }

  /** The longer trace goes through good states only, one call at a time. */
  ghost predicate Extends(before: seq<State>, after: seq<State>, plan: Plan, cfg: RolloverConfig) {
    && before != [] && before <= after
    && forall i :: |before| <= i < |after| ==> Good(after[i], plan, cfg) && Steps(after[i - 1], after[i], plan, cfg)
  }

  ghost predicate SafeProgress(s: State, s': State, plan: Plan, cfg: RolloverConfig)
    requires WellPlanned(plan)
  {
    SafeConfig(cfg) ==> Progress(s, s', plan)
  }

  /** A stretch of a run that wrote documents of `srcs` only and deleted indices of `gone` only. */
  ghost predicate Ran(before: seq<State>, after: seq<State>, plan: Plan, cfg: RolloverConfig, srcs: set<string>,
                      gone: set<string>)
    requires WellPlanned(plan)
  {
    && Extends(before, after, plan, cfg) && Good(Last(after), plan, cfg)
    && SafeProgress(Last(before), Last(after), plan, cfg)
    && Adds(Last(before), Last(after), plan, srcs) && Stays(Last(before), Last(after), plan, cfg, gone)
  }

  /** At some moment from the end of `before` on, the two indices were compared and found equal. */
  ghost predicate CheckedSince(before: seq<State>, after: seq<State>, src: string, target: string,
                               cfg: RolloverConfig) {
    cfg.skipValidation || exists i :: 0 <= |before| - 1 <= i < |after| - 1 && AcceptedNow(after[i], src, target, cfg)
  }

  lemma RanNothing(trace: seq<State>, plan: Plan, cfg: RolloverConfig, srcs: set<string>, gone: set<string>)
    requires WellPlanned(plan) && trace != [] && Good(Last(trace), plan, cfg)
    ensures Ran(trace, trace, plan, cfg, srcs, gone)
  {
    hide NoLoss, Progress, Adds;
    ProgressReflexive(Last(trace), plan);
    AddsNothing(Last(trace), Last(trace), plan, srcs);
  }

  lemma RanStep(trace: seq<State>, s: State, plan: Plan, cfg: RolloverConfig, srcs: set<string>, gone: set<string>)
    requires WellPlanned(plan) && trace != [] && Good(s, plan, cfg) && RecordsAccepted(Last(trace), s, cfg)
    requires SafeProgress(Last(trace), s, plan, cfg) && Adds(Last(trace), s, plan, srcs)
    requires Stays(Last(trace), s, plan, cfg, gone)
    requires gone <= plan.frozen.Keys
    ensures Ran(trace, trace + [s], plan, cfg, srcs, gone)
  {
    hide Good, SafeProgress, Adds, Stays, RecordsAccepted;
    AddsPlanned(Last(trace), s, plan, srcs);
    StaysPlanned(Last(trace), s, plan, cfg, gone);
  }

  lemma StaysPlanned(s: State, s': State, plan: Plan, cfg: RolloverConfig, gone: set<string>)
    requires Stays(s, s', plan, cfg, gone) && gone <= plan.frozen.Keys
    ensures Stays(s, s', plan, cfg, plan.frozen.Keys)
  {
  }

  lemma StaysJoin(s: State, s': State, s'': State, plan: Plan, cfg: RolloverConfig, gone: set<string>,
                  more: set<string>)
    requires Stays(s, s', plan, cfg, gone) && Stays(s', s'', plan, cfg, more)
    ensures Stays(s, s'', plan, cfg, gone + more)
  {
    hide Unprotected;
  }

  lemma RanJoin(a: seq<State>, b: seq<State>, c: seq<State>, plan: Plan, cfg: RolloverConfig,
                srcs: set<string>, more: set<string>, gone: set<string>, goneMore: set<string>)
    requires WellPlanned(plan) && Ran(a, b, plan, cfg, srcs, gone) && Ran(b, c, plan, cfg, more, goneMore)
    ensures Ran(a, c, plan, cfg, srcs + more, gone + goneMore)
  {
    hide Good, Adds, Steps, Stays, Progress, SafeConfig;
    StaysJoin(Last(a), Last(b), Last(c), plan, cfg, gone, goneMore);
    if SafeConfig(cfg) {
      ProgressTransitive(Last(a), Last(b), Last(c), plan);
    }
    AddsJoin(Last(a), Last(b), Last(c), plan, srcs, more);
  }

  /** RanJoin for stretches that stay within the same sources. */
  lemma RanOn(a: seq<State>, b: seq<State>, c: seq<State>, plan: Plan, cfg: RolloverConfig, srcs: set<string>,
              gone: set<string>)
    requires WellPlanned(plan) && Ran(a, b, plan, cfg, srcs, gone) && Ran(b, c, plan, cfg, srcs, gone)
    ensures Ran(a, c, plan, cfg, srcs, gone)
  {
    hide Ran;
    RanJoin(a, b, c, plan, cfg, srcs, srcs, gone, gone);
    assert srcs + srcs == srcs && gone + gone == gone;
  }

  lemma RanWithin(a: seq<State>, b: seq<State>, plan: Plan, cfg: RolloverConfig, srcs: set<string>, more: set<string>,
                  gone: set<string>, goneMore: set<string>)
    requires WellPlanned(plan) && Ran(a, b, plan, cfg, srcs, gone) && srcs <= more && gone <= goneMore
    ensures Ran(a, b, plan, cfg, more, goneMore)
  {
    hide Good, Adds, SafeProgress, Steps;
    AddsMore(Last(a), Last(b), plan, srcs, more);
  }

  /** What a caller takes from a stretch. */
  lemma RanGives(a: seq<State>, b: seq<State>, plan: Plan, cfg: RolloverConfig, srcs: set<string>, gone: set<string>)
    requires WellPlanned(plan) && Ran(a, b, plan, cfg, srcs, gone)
    ensures a != [] && a <= b && b != [] && Good(Last(b), plan, cfg)
    ensures (SafeConfig(cfg) ==> Progress(Last(a), Last(b), plan))
    ensures forall n <- Last(a).indices :: n in plan.frozen && n !in gone ==> n in Last(b).indices
  {
    hide Good, Progress, SafeConfig, Adds, Steps;
  }

  lemma CheckedLater(a: seq<State>, b: seq<State>, c: seq<State>, d: seq<State>, src: string, target: string,
                     cfg: RolloverConfig)
    requires CheckedSince(b, c, src, target, cfg) && a != [] && a <= b && c <= d
    ensures CheckedSince(a, d, src, target, cfg)
  {
    hide AcceptedNow;
    if !cfg.skipValidation {
      var i :| 0 <= |b| - 1 <= i < |c| - 1 && AcceptedNow(c[i], src, target, cfg);
      assert d[i] == c[i];
    }
  }

  /**
   * Validation over whole runs: a source that a run removed was compared with its target and found equal, while
   * it still was as it had been frozen, in a state of the run before it was removed.
   */
  lemma GoneWasAccepted(before: seq<State>, after: seq<State>, plan: Plan, cfg: RolloverConfig, src: string)
    requires Runs(plan, cfg) && SafeConfig(cfg) && !cfg.skipValidation && Extends(before, after, plan, cfg)
    requires Good(Last(before), plan, cfg)
    requires src in plan.frozen && src !in Last(after).indices && (src, plan.target[src]) !in Last(before).validated
    ensures exists i ::
      && |before| - 1 <= i < |after| - 1 && AcceptedNow(after[i], src, plan.target[src], cfg)
      && after[i].indices[src] == plan.frozen[src]
  {
    hide AcceptedNow, RollsInto, Tidy;
    assert (src, plan.target[src]) in Last(after).validated;
    var i := FirstRecorded(before, after, (src, plan.target[src]), |after| - 1);
    assert RecordsAccepted(after[i - 1], after[i], cfg);
    AcceptedHasSource(after[i - 1], src, plan.target[src], cfg);
    assert Good(after[i - 1], plan, cfg);
  }

  lemma AcceptedHasSource(s: State, src: string, target: string, cfg: RolloverConfig)
    requires AcceptedNow(s, src, target, cfg)
    ensures src in s.indices && target in s.indices
  {
  }

  lemma {:induction false} FirstRecorded(before: seq<State>, after: seq<State>, pair: (string, string), n: nat)
    returns (i: nat)
    requires before != [] && before <= after && |before| - 1 <= n < |after| && pair in after[n].validated
    requires pair !in Last(before).validated
    ensures |before| <= i <= n && pair in after[i].validated && pair !in after[i - 1].validated
  {
    if pair in after[n - 1].validated {
      i := FirstRecorded(before, after, pair, n - 1);
    } else {
      i := n;
    }
  }

  // ----- each call

  /** Documents once written to `target` are still there (they may be rewritten). */
  ghost predicate KeepsDocs(s: State, s': State, target: string) {
    target in s.indices ==> target in s'.indices && s.indices[target].Keys <= s'.indices[target].Keys
  }

  /** One bulk request of a range keeps everything, whatever part of it got through. */
  lemma WriteRan(trace: seq<State>, s': State, src: string, batch: Index, part: Index, ranges: seq<TimeRange>, i: int,
                 minVal: int, maxVal: int, cfg: RolloverConfig, plan: Plan)
    requires Runs(plan, cfg) && trace != [] && Good(Last(trace), plan, cfg) && src in plan.frozen
    requires Splits(ranges, minVal, maxVal, cfg.aggQueryRange) && 0 <= i < |ranges|
    requires forall id <- plan.frozen[src] :: minVal <= plan.frozen[src][id].ts <= maxVal
    requires BatchOf(batch, src) && Submap(part, batch)
    requires forall k :: Rolled(k, src) in batch ==>
      RangeRoll(batch[Rolled(k, src)], k, plan.frozen[src], cfg.aggWindow, ranges[i])
    requires s' == Last(trace) || s' == BulkEffect(Last(trace), plan.target[src], part)
    ensures Ran(trace, trace + [s'], plan, cfg, {src}, {})
  {
    hide Splits, RangeRoll, PartlyRolled, RollsInto, Adds, Progress;
    var s := Last(trace);
    ProgressReflexive(s, plan);
    AddsNothing(s, s, plan, {src});
    BulkAdds(s, plan, src, batch, part, cfg.aggWindow, ranges[i]);
    if SafeConfig(cfg) {
      BatchIsPart(plan.frozen[src], batch, src, cfg.aggWindow, ranges, minVal, maxVal, cfg.aggQueryRange, i, part);
      BulkKeeps(s, plan, src, part);
    }
    RanStep(trace, s', plan, cfg, {src}, {});
  }

  lemma CheckRan(trace: seq<State>, src: string, target: string, cfg: RolloverConfig, plan: Plan)
    requires Runs(plan, cfg) && trace != [] && Good(Last(trace), plan, cfg)
    requires AcceptedNow(Last(trace), src, target, cfg)
    ensures Ran(trace, trace + [ValidateEffect(Last(trace), src, target)], plan, cfg, {src}, {})
  {
    hide NoLoss, Progress, Adds, AcceptedNow;
    var s := Last(trace);
    if SafeConfig(cfg) {
      ValidateKeeps(s, plan, src, target);
    }
    AddsNothing(s, ValidateEffect(s, src, target), plan, {src});
    RanStep(trace, ValidateEffect(s, src, target), plan, cfg, {src}, {});
  }

  lemma DeleteTargetRan(trace: seq<State>, s': State, src: string, cfg: RolloverConfig, plan: Plan)
    requires Runs(plan, cfg) && trace != [] && Good(Last(trace), plan, cfg) && src in plan.frozen
    requires cfg.deleteExistingRolledOverIndex
    requires s' == Last(trace) || s' == DeleteEffect(Last(trace), plan.target[src])
    ensures Ran(trace, trace + [s'], plan, cfg, {src}, {})
  {
    hide Adds;
    AddsNothing(Last(trace), s', plan, {src});
    RanStep(trace, s', plan, cfg, {src}, {});
  }

  lemma SwapRan(trace: seq<State>, s': State, alias: string, from: set<string>, to: string, cfg: RolloverConfig,
                plan: Plan)
    requires Runs(plan, cfg) && trace != [] && Good(Last(trace), plan, cfg) && to !in plan.frozen
    requires from <= plan.frozen.Keys
    requires s' == Last(trace) || (s' == SwapEffect(Last(trace), alias, from, to) && to in Last(trace).indices)
    requires SafeConfig(cfg) ==> forall src <- from ::
      && src in plan.frozen && plan.target[src] == to && plan.alias[src] == alias
      && Written(Last(trace), plan, src) && Checked(Last(trace), plan, src)
    ensures Ran(trace, trace + [s'], plan, cfg, {}, {})
  {
    hide Progress, RollsInto, PartlyRolled, Keys, Adds;
    var s := Last(trace);
    if SafeConfig(cfg) {
      ProgressReflexive(s, plan);
      if s' != s {
        forall src <- from ensures Copied(s, plan, src) {
          WrittenIsCopied(s, plan, src);
        }
        SwapKeeps(s, plan, alias, from, to);
      }
    }
    AddsNothing(s, s', plan, {});
    RanStep(trace, s', plan, cfg, {}, {});
  }

  lemma DeleteRan(trace: seq<State>, s': State, src: string, cfg: RolloverConfig, plan: Plan)
    requires Runs(plan, cfg) && trace != [] && Good(Last(trace), plan, cfg) && src in plan.frozen
    requires s' == Last(trace) || s' == DeleteEffect(Last(trace), src)
    requires SafeConfig(cfg) ==> Written(Last(trace), plan, src) && Checked(Last(trace), plan, src)
    requires SafeConfig(cfg) ==>
      plan.target[src] in Last(trace).indices && InAlias(Last(trace), plan.alias[src], plan.target[src])
    ensures Ran(trace, trace + [s'], plan, cfg, {}, {src})
    ensures forall n :: n != src ==> (n in Last(trace).indices <==> n in s'.indices)
    ensures forall a, n :: n != src && InAlias(Last(trace), a, n) ==> InAlias(s', a, n)
  {
    hide Progress, RollsInto, PartlyRolled, Keys, Adds;
    var s := Last(trace);
    if SafeConfig(cfg) {
      ProgressReflexive(s, plan);
      WrittenIsCopied(s, plan, src);
      DeleteKeeps(s, plan, src);
    }
    AddsNothing(s, s', plan, {});
    RanStep(trace, s', plan, cfg, {}, {src});
  }

  lemma SourceIsFrozen(s: State, src: string, cfg: RolloverConfig, plan: Plan)
    requires Good(s, plan, cfg) && src in plan.frozen && src in s.indices
    ensures s.indices[src] == plan.frozen[src]
  {
  }

  lemma StillDone(s: State, s': State, plan: Plan, src: string)
    requires WellPlanned(plan) && Progress(s, s', plan) && src in plan.frozen && Written(s, plan, src)
    requires Checked(s, plan, src)
    ensures Written(s', plan, src) && Checked(s', plan, src)
  {
  }

  /** Every one of these sources is written and checked. */
  ghost predicate AllDone(s: State, plan: Plan, sources: seq<string>)
    requires WellPlanned(plan)
  {
    forall src <- sources :: src in plan.frozen && Written(s, plan, src) && Checked(s, plan, src)
  }

  lemma AllStillDone(s: State, s': State, plan: Plan, sources: seq<string>)
    requires WellPlanned(plan) && Progress(s, s', plan) && AllDone(s, plan, sources)
    ensures AllDone(s', plan, sources)
  {
    hide Progress, Written, Checked;
    forall src <- sources ensures Written(s', plan, src) && Checked(s', plan, src) {
      StillDone(s, s', plan, src);
    }
  }

  /** One of the sources that were swapped out is deleted. */
  lemma DeletedNext(a: seq<State>, b: seq<State>, s': State, src: string, sources: seq<string>, target: string,
                    alias: string, cfg: RolloverConfig, plan: Plan)
    requires Runs(plan, cfg) && b != [] && Good(Last(b), plan, cfg) && src in sources && target !in plan.frozen
    requires Ran(a, b, plan, cfg, {}, Listed(sources))
    requires s' == Last(b) || s' == DeleteEffect(Last(b), src)
    requires forall x <- sources :: x in plan.frozen && plan.target[x] == target && plan.alias[x] == alias
    requires SafeConfig(cfg) ==>
      AllDone(Last(b), plan, sources) && target in Last(b).indices && InAlias(Last(b), alias, target)
    ensures Ran(a, b + [s'], plan, cfg, {}, Listed(sources)) && Good(s', plan, cfg)
    ensures SafeConfig(cfg) ==> AllDone(s', plan, sources) && target in s'.indices && InAlias(s', alias, target)
  {
    hide Ran, Good, Progress, SafeConfig, Written, Checked, InAlias;
    DeleteRan(b, s', src, cfg, plan);
    RanWithin(b, b + [s'], plan, cfg, {}, {}, {src}, Listed(sources));
    RanOn(a, b, b + [s'], plan, cfg, {}, Listed(sources));
    RanGives(b, b + [s'], plan, cfg, {}, Listed(sources));
    if SafeConfig(cfg) {
      AllStillDone(Last(b), s', plan, sources);
    }
  }

  /** The part of the target that belongs to `src` is what a single complete run would have left. */
  ghost predicate AsOneRun(s: State, plan: Plan, src: string)
    requires WellPlanned(plan) && src in plan.frozen
  {
    plan.target[src] in s.indices ==>
      forall one :: RollsInto(plan.frozen[src], src, plan.window, one) ==> Agree(one, s.indices[plan.target[src]], src)
  }

  lemma WrittenAsOneRun(s: State, plan: Plan, cfg: RolloverConfig, src: string)
    requires Runs(plan, cfg) && Good(s, plan, cfg) && src in plan.frozen && Written(s, plan, src)
    ensures SafeConfig(cfg) ==> AsOneRun(s, plan, src)
  {
    hide NoLoss, RollsInto, Agree, Written;
    if SafeConfig(cfg) && plan.target[src] in s.indices {
      forall one | RollsInto(plan.frozen[src], src, plan.window, one)
        ensures Agree(one, s.indices[plan.target[src]], src)
      {
        RetryIsIdempotent(s, plan, src, one);
      }
    }
  }
}
