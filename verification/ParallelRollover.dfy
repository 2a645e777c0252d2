/**
 * The p1 -> p2 migration rolls its indices in parallel. This is the transition system of those workers:
 * any number of them, interleaved in any way, each call failing at any time with or without effect.
 */
module ParallelRollover {
  import opened Documents
  import opened TimeRanges
  import opened Paging
  import opened RollUp
  import opened Cluster
  import opened PageRolls
  import opened Checks
  import opened Traces

  /** Where a worker is; while it writes it holds its ranges, the current one and the cursor in it. */
  datatype Stage =
    | Starting
    | Writing(minVal: int, maxVal: int, ranges: seq<TimeRange>, i: nat, after: Option<Key>)
    | Validating | Swapping | Deleting | Finished | Failed

  datatype World = World(s: State, stage: map<string, Stage>)

  /** What the run is given: the plan, safe settings and the server's page order. */
  datatype Setup = Setup(plan: Plan, cfg: RolloverConfig, less: (Key, Key) -> bool)

  ghost predicate Sensible(u: Setup) {
    Runs(u.plan, u.cfg) && SafeConfig(u.cfg) && u.cfg.aggBatchSize > 0 && StrictTotalOrder(u.less)
  }

  ghost predicate Started(w: World, u: Setup) {
    && NoLoss(w.s, u.plan) && w.stage.Keys == u.plan.frozen.Keys
    && forall src <- w.stage :: w.stage[src] == Starting
  }

  // ----- steps

  /**
   * The worker reads the next page of its range and writes one document per bucket; on an error any part may arrive.
   */
  ghost predicate WriteStep(w: World, w': World, u: Setup, src: string, page: seq<Key>, batch: Index, part: Index,
                            failed: bool)
    requires WellPlanned(u.plan) && src in u.plan.frozen && src in w.stage && src in w'.stage
  {
    && w.stage[src].Writing? && w.stage[src].i < |w.stage[src].ranges| && src in w.s.indices && page != []
    && u.cfg.aggBatchSize > 0
    && var st, r := w.stage[src], w.stage[src].ranges[w.stage[src].i];
    && IsPage(page, RangeKeys(w.s.indices[src], u.cfg.aggWindow, r), st.after, u.cfg.aggBatchSize, u.less)
    && BatchOf(batch, src) && (forall k :: Rolled(k, src) in batch <==> k in page)
    && (forall k <- page :: RangeRoll(batch[Rolled(k, src)], k, w.s.indices[src], u.cfg.aggWindow, r))
    && Submap(part, batch) && (!failed ==> part == batch)
    && (w'.s == BulkEffect(w.s, u.plan.target[src], part) || (failed && w'.s == w.s))
    && w'.stage[src] == if failed then Failed else st.(after := Some(page[|page| - 1]))
  }

  /** The ranges are split, an empty page ends a range, and the last range ends the writing. */
  ghost predicate QuietStep(w: World, w': World, u: Setup, src: string)
    requires src in w.stage && src in w'.stage
  {
    && w'.s == w.s
    && match w.stage[src]
       case Starting =>
         src in w.s.indices && exists minVal, maxVal, ranges ::
           && Extremes(w.s.indices[src], minVal, maxVal) && Splits(ranges, minVal, maxVal, u.cfg.aggQueryRange)
           && w'.stage[src] == Writing(minVal, maxVal, ranges, 0, None)
       case Writing(_, _, ranges, i, after) =>
         if i < |ranges| then
           && src in w.s.indices && u.cfg.aggBatchSize > 0
           && IsPage([], RangeKeys(w.s.indices[src], u.cfg.aggWindow, ranges[i]), after, u.cfg.aggBatchSize, u.less)
           && w'.stage[src] == w.stage[src].(i := i + 1, after := None)
         else
           w'.stage[src] == Validating
       case _ => false
  }

  /** The steps of `rollover` for one source; a failing call may have taken effect. */
  ghost predicate Step(w: World, w': World, u: Setup, src: string) {
    && WellPlanned(u.plan) && src in u.plan.frozen && src in w.stage && src in w'.stage
    && w'.stage == w.stage[src := w'.stage[src]]
    && var t, a := u.plan.target[src], u.plan.alias[src];
       || (w'.s == w.s && w'.stage[src] == Failed)
       || QuietStep(w, w', u, src)
       || (exists page, batch, part, failed :: WriteStep(w, w', u, src, page, batch, part, failed))
       || match w.stage[src]
          case Validating =>
            || (AcceptedNow(w.s, src, t, u.cfg) && w'.s == ValidateEffect(w.s, src, t) && w'.stage[src] == Swapping)
            || (w'.s == w.s && w'.stage[src] == Swapping && u.cfg.skipValidation)
          case Swapping =>
            && t in w.s.indices && w'.s == SwapEffect(w.s, a, {src}, t)
            && (w'.stage[src] == Deleting || w'.stage[src] == Failed)
          case Deleting => w'.s == DeleteEffect(w.s, src) && (w'.stage[src] == Finished || w'.stage[src] == Failed)
          case _ => false
  }

  // ----- the invariant

  ghost predicate WritingHolds(s: State, u: Setup, src: string, stage: Stage)
    requires WellPlanned(u.plan) && src in u.plan.frozen && stage.Writing?
  {
    var ix, t, w := u.plan.frozen[src], u.plan.target[src], u.cfg.aggWindow;
    && Extremes(ix, stage.minVal, stage.maxVal) && Splits(stage.ranges, stage.minVal, stage.maxVal, u.cfg.aggQueryRange)
    && stage.i <= |stage.ranges|
    && (forall j :: 0 <= j < stage.i ==> Wrote(s, t, src, RangeKeys(ix, w, stage.ranges[j])))
    && (stage.i < |stage.ranges| ==>
          var keys := RangeKeys(ix, w, stage.ranges[stage.i]);
          Wrote(s, t, src, keys - Above(keys, stage.after, u.less)))
  }

  /** What a worker's stage says about the cluster. */
  ghost predicate StageHolds(s: State, u: Setup, src: string, stage: Stage)
    requires WellPlanned(u.plan) && src in u.plan.frozen
  {
    match stage
    case Starting => true
    case Writing(_, _, _, _, _) => WritingHolds(s, u, src, stage)
    case Validating => Written(s, u.plan, src)
    case Swapping => Written(s, u.plan, src) && Checked(s, u.plan, src)
    case Deleting =>
      && Written(s, u.plan, src) && Checked(s, u.plan, src)
      && u.plan.target[src] in s.indices && InAlias(s, u.plan.alias[src], u.plan.target[src])
    case Finished => src !in s.indices
    case Failed => true
  }

  ghost predicate Inv(w: World, u: Setup) {
    && Sensible(u) && NoLoss(w.s, u.plan) && w.stage.Keys == u.plan.frozen.Keys
    && forall src <- w.stage :: StageHolds(w.s, u, src, w.stage[src])
  }

  /** A call of one worker that other workers do not notice. */
  ghost predicate Undisturbing(s: State, s': State, plan: Plan, src: string)
    requires WellPlanned(plan)
  {
    && s.validated <= s'.validated
    && (forall o <- plan.frozen :: plan.target[o] in s.indices ==>
         plan.target[o] in s'.indices && s.indices[plan.target[o]].Keys <= s'.indices[plan.target[o]].Keys)
    && (forall a, o :: o in plan.frozen && InAlias(s, a, plan.target[o]) ==> InAlias(s', a, plan.target[o]))
    && (forall o <- plan.frozen :: o != src && o !in s.indices ==> o !in s'.indices)
  }

  lemma StillWrote(s: State, s': State, plan: Plan, src: string, other: string, keys: set<Key>)
    requires WellPlanned(plan) && Undisturbing(s, s', plan, src) && other in plan.frozen
    requires Wrote(s, plan.target[other], other, keys)
    ensures Wrote(s', plan.target[other], other, keys)
  {
  }

  lemma OthersKeepTheirStage(s: State, s': State, u: Setup, src: string, other: string, stage: Stage)
    requires WellPlanned(u.plan) && Undisturbing(s, s', u.plan, src) && other in u.plan.frozen && other != src
    requires StageHolds(s, u, other, stage)
    ensures StageHolds(s', u, other, stage)
  {
    hide Keys, Extremes, Splits, RangeKeys, Above, Wrote;
    if stage.Writing? {
      var ix, t, w := u.plan.frozen[other], u.plan.target[other], u.cfg.aggWindow;
      forall keys | Wrote(s, t, other, keys) ensures Wrote(s', t, other, keys) {
        StillWrote(s, s', u.plan, src, other, keys);
      }
    }
  }

  /** Nothing is lost, the others are not disturbed and the worker's own stage holds. */
  ghost predicate SafeStep(w: World, w': World, u: Setup, src: string)
    requires WellPlanned(u.plan) && src in u.plan.frozen && src in w'.stage
  {
    NoLoss(w'.s, u.plan) && Undisturbing(w.s, w'.s, u.plan, src) && StageHolds(w'.s, u, src, w'.stage[src])
  }

  // ----- every step is safe

  lemma FrozenSource(s: State, plan: Plan, src: string)
    requires NoLoss(s, plan) && src in plan.frozen && src in s.indices
    ensures s.indices[src] == plan.frozen[src]
  {
  }

  lemma WriteIsSafe(w: World, w': World, u: Setup, src: string, page: seq<Key>, batch: Index, part: Index, failed: bool)
    requires Inv(w, u) && src in u.plan.frozen && src in w.stage && src in w'.stage
    requires WriteStep(w, w', u, src, page, batch, part, failed)
    ensures SafeStep(w, w', u, src)
  {
    hide NoLoss, Undisturbing, Progress, IsPage, RangeKeys, RangeRoll, Splits, Extremes, Wrote, StrictTotalOrder,
      PartlyRolled, SafeConfig;
    var plan, st := u.plan, w.stage[src];
    var ix, r := plan.frozen[src], st.ranges[st.i];
    assert StageHolds(w.s, u, src, st);
    FrozenSource(w.s, plan, src);
    WithinExtremes(ix, st.minVal, st.maxVal);
    SafeFits(u.cfg);
    BatchIsPart(ix, batch, src, u.cfg.aggWindow, st.ranges, st.minVal, st.maxVal, u.cfg.aggQueryRange, st.i, part);
    assert BatchOf(part, src);
    BulkKeeps(w.s, plan, src, part);
    BulkUndisturbing(w.s, plan, src, part);
    SameUndisturbed(w.s, plan, src);
    if !failed {
      CursorMoves(w.s, w'.s, u, src, st, page, batch);
    }
  }

  lemma WithinExtremes(ix: Index, minVal: int, maxVal: int)
    requires Extremes(ix, minVal, maxVal)
    ensures forall id <- ix :: minVal <= ix[id].ts <= maxVal
  {
  }

  lemma SafeFits(cfg: RolloverConfig)
    requires SafeConfig(cfg)
    ensures WindowFits(cfg.aggWindow, cfg.aggQueryRange)
  {
  }

  /** After a page is written the keys behind the moved cursor are all written. */
  lemma CursorMoves(s: State, s': State, u: Setup, src: string, st: Stage, page: seq<Key>, batch: Index)
    requires Sensible(u) && src in u.plan.frozen && st.Writing? && st.i < |st.ranges| && WritingHolds(s, u, src, st)
    requires page != []
    requires var keys := RangeKeys(u.plan.frozen[src], u.cfg.aggWindow, st.ranges[st.i]);
             IsPage(page, keys, st.after, u.cfg.aggBatchSize, u.less)
    requires (forall k <- page :: Rolled(k, src) in batch) && s' == BulkEffect(s, u.plan.target[src], batch)
    ensures WritingHolds(s', u, src, st.(after := Some(page[|page| - 1])))
  {
    hide RangeKeys, Splits, Extremes, StrictTotalOrder, IsPage;
    var keys := RangeKeys(u.plan.frozen[src], u.cfg.aggWindow, st.ranges[st.i]);
    PageAdvances(page, keys, st.after, u.cfg.aggBatchSize, u.less);
    var after := Some(page[|page| - 1]);
    assert keys - Above(keys, after, u.less) <= (keys - Above(keys, st.after, u.less)) + Elements(page);
  }

  lemma BulkUndisturbing(s: State, plan: Plan, src: string, batch: Index)
    requires WellPlanned(plan) && src in plan.frozen
    ensures Undisturbing(s, BulkEffect(s, plan.target[src], batch), plan, src)
  {
  }

  lemma SameUndisturbed(s: State, plan: Plan, src: string)
    requires WellPlanned(plan)
    ensures Undisturbing(s, s, plan, src)
  {
  }

  lemma QuietIsSafe(w: World, w': World, u: Setup, src: string)
    requires Inv(w, u) && src in u.plan.frozen && src in w.stage && src in w'.stage && QuietStep(w, w', u, src)
    ensures SafeStep(w, w', u, src)
  {
    hide NoLoss, Undisturbing, IsPage, RangeKeys, Splits, Wrote, StrictTotalOrder, Extremes, Written, SafeConfig;
    var plan, st := u.plan, w.stage[src];
    assert StageHolds(w.s, u, src, st);
    SameUndisturbed(w.s, plan, src);
    match st {
      case Starting =>
        FrozenSource(w.s, plan, src);
        var minVal, maxVal, ranges :|
          && Extremes(w.s.indices[src], minVal, maxVal) && Splits(ranges, minVal, maxVal, u.cfg.aggQueryRange)
          && w'.stage[src] == Writing(minVal, maxVal, ranges, 0, None);
        RangeStarts(w.s, u, src, ranges, 0);
      case Writing(minVal, maxVal, ranges, i, after) =>
        if i < |ranges| {
          FrozenSource(w.s, plan, src);
          RangeEnds(w.s, u, src, ranges, i, after);
          if i + 1 < |ranges| {
            RangeStarts(w.s, u, src, ranges, i + 1);
          }
        } else {
          WithinExtremes(plan.frozen[src], minVal, maxVal);
          AllRangesWritten(w.s, src, ranges, minVal, maxVal, u.cfg, plan);
        }
      case _ =>
    }
  }

  lemma RangeStarts(s: State, u: Setup, src: string, ranges: seq<TimeRange>, i: int)
    requires WellPlanned(u.plan) && src in u.plan.frozen
    ensures 0 <= i < |ranges| ==>
      var keys := RangeKeys(u.plan.frozen[src], u.cfg.aggWindow, ranges[i]);
      Wrote(s, u.plan.target[src], src, keys - Above(keys, None, u.less))
  {
    if 0 <= i < |ranges| {
      var keys := RangeKeys(u.plan.frozen[src], u.cfg.aggWindow, ranges[i]);
      assert Above(keys, None, u.less) == keys;
    }
  }

  lemma RangeEnds(s: State, u: Setup, src: string, ranges: seq<TimeRange>, i: nat, after: Option<Key>)
    requires Sensible(u) && src in u.plan.frozen && i < |ranges|
    requires var keys := RangeKeys(u.plan.frozen[src], u.cfg.aggWindow, ranges[i]);
             && IsPage([], keys, after, u.cfg.aggBatchSize, u.less)
             && Wrote(s, u.plan.target[src], src, keys - Above(keys, after, u.less))
    ensures Wrote(s, u.plan.target[src], src, RangeKeys(u.plan.frozen[src], u.cfg.aggWindow, ranges[i]))
  {
    var keys := RangeKeys(u.plan.frozen[src], u.cfg.aggWindow, ranges[i]);
    EmptyPageIsEnd([], keys, after, u.cfg.aggBatchSize, u.less);
    assert keys - Above(keys, after, u.less) == keys;
  }

  lemma CheckIsSafe(w: World, w': World, u: Setup, src: string)
    requires Inv(w, u) && src in u.plan.frozen && src in w.stage && src in w'.stage && w.stage[src].Validating?
    requires w'.stage[src] == Swapping
    requires w'.s == ValidateEffect(w.s, src, u.plan.target[src]) || (w'.s == w.s && u.cfg.skipValidation)
    ensures SafeStep(w, w', u, src)
  {
    hide NoLoss, Undisturbing, Keys;
    assert StageHolds(w.s, u, src, w.stage[src]);
    ValidateKeeps(w.s, u.plan, src, u.plan.target[src]);
    RecordUndisturbing(w.s, w'.s, u.plan, src);
  }

  lemma RecordUndisturbing(s: State, s': State, plan: Plan, src: string)
    requires WellPlanned(plan) && s'.indices == s.indices && s'.aliases == s.aliases && s.validated <= s'.validated
    ensures Undisturbing(s, s', plan, src)
  {
  }

  lemma SwapIsSafe(w: World, w': World, u: Setup, src: string)
    requires Inv(w, u) && src in u.plan.frozen && src in w.stage && src in w'.stage && w.stage[src].Swapping?
    requires w'.stage[src] == Deleting || w'.stage[src] == Failed
    requires u.plan.target[src] in w.s.indices && w'.s == SwapEffect(w.s, u.plan.alias[src], {src}, u.plan.target[src])
    ensures SafeStep(w, w', u, src)
  {
    hide Keys, NoLoss, RollsInto, Undisturbing;
    assert StageHolds(w.s, u, src, w.stage[src]);
    WrittenIsCopied(w.s, u.plan, src);
    TargetIsNoSource(u.plan, src);
    SwapKeeps(w.s, u.plan, u.plan.alias[src], {src}, u.plan.target[src]);
    SwapUndisturbing(w.s, u.plan, src);
  }

  lemma TargetIsNoSource(plan: Plan, src: string)
    requires WellPlanned(plan) && src in plan.frozen
    ensures plan.target[src] !in plan.frozen
  {
  }

  lemma SwapUndisturbing(s: State, plan: Plan, src: string)
    requires WellPlanned(plan) && src in plan.frozen
    ensures Undisturbing(s, SwapEffect(s, plan.alias[src], {src}, plan.target[src]), plan, src)
  {
    var s' := SwapEffect(s, plan.alias[src], {src}, plan.target[src]);
    forall a, o | o in plan.frozen && InAlias(s, a, plan.target[o]) ensures InAlias(s', a, plan.target[o]) {
      assert plan.target[o] !in plan.frozen;
    }
  }

  lemma DeleteIsSafe(w: World, w': World, u: Setup, src: string)
    requires Inv(w, u) && src in u.plan.frozen && src in w.stage && src in w'.stage && w.stage[src].Deleting?
    requires (w'.stage[src] == Finished || w'.stage[src] == Failed) && w'.s == DeleteEffect(w.s, src)
    ensures SafeStep(w, w', u, src)
  {
    hide Keys, NoLoss, RollsInto, Undisturbing, WellPlanned;
    assert StageHolds(w.s, u, src, w.stage[src]);
    WrittenIsCopied(w.s, u.plan, src);
    DeleteKeeps(w.s, u.plan, src);
    DeleteUndisturbing(w.s, u.plan, src);
  }

  lemma DeleteUndisturbing(s: State, plan: Plan, src: string)
    requires WellPlanned(plan) && src in plan.frozen
    ensures Undisturbing(s, DeleteEffect(s, src), plan, src)
  {
    var s' := DeleteEffect(s, src);
    forall a, o | o in plan.frozen && InAlias(s, a, plan.target[o]) ensures InAlias(s', a, plan.target[o]) {
      assert plan.target[o] !in plan.frozen;
    }
  }

  lemma StepIsSafe(w: World, w': World, u: Setup, src: string)
    requires Inv(w, u) && Step(w, w', u, src)
    ensures SafeStep(w, w', u, src)
  {
    hide NoLoss, WriteStep, QuietStep, Undisturbing, Sensible, AcceptedNow;
    assert StageHolds(w.s, u, src, w.stage[src]);
    SameUndisturbed(w.s, u.plan, src);
    if QuietStep(w, w', u, src) {
      QuietIsSafe(w, w', u, src);
    } else if page, batch, part, failed :| WriteStep(w, w', u, src, page, batch, part, failed) {
      WriteIsSafe(w, w', u, src, page, batch, part, failed);
    } else if w'.s != w.s || w'.stage[src] != Failed {
      match w.stage[src] {
        case Validating => CheckIsSafe(w, w', u, src);
        case Swapping => SwapIsSafe(w, w', u, src);
        case Deleting => DeleteIsSafe(w, w', u, src);
        case _ =>
      }
    }
  }

  lemma StepKeepsInv(w: World, w': World, u: Setup, src: string)
    requires Inv(w, u) && Step(w, w', u, src)
    ensures Inv(w', u)
  {
    hide NoLoss, Undisturbing, StageHolds, Sensible;
    StepIsSafe(w, w', u, src);
    forall other <- w'.stage ensures StageHolds(w'.s, u, other, w'.stage[other]) {
      if other != src {
        OthersKeepTheirStage(w.s, w'.s, u, src, other, w.stage[other]);
      }
    }
  }

  /** A pair enters the record only in a step that found the two indices equal. */
  lemma StepRecordsAccepted(w: World, w': World, u: Setup, src: string)
    requires Step(w, w', u, src)
    ensures RecordsAccepted(w.s, w'.s, u.cfg)
  {
    hide AcceptedNow, IsPage, RangeKeys, RangeRoll, Splits, Extremes;
  }

  // ----- runs

  ghost predicate SomeStep(w: World, w': World, u: Setup) {
    exists src :: Step(w, w', u, src)
  }

  ghost predicate Run(ws: seq<World>, u: Setup) {
    && ws != [] && Sensible(u) && Started(ws[0], u)
    && forall i :: 0 < i < |ws| ==> SomeStep(ws[i - 1], ws[i], u)
  }

  lemma {:induction false} RunKeepsInv(ws: seq<World>, u: Setup, n: nat)
    requires Run(ws, u) && n < |ws|
    ensures Inv(ws[n], u)
  {
    hide Step, NoLoss, Sensible;
    if n > 0 {
      RunKeepsInv(ws, u, n - 1);
      assert SomeStep(ws[n - 1], ws[n], u);
      var src :| Step(ws[n - 1], ws[n], u, src);
      StepKeepsInv(ws[n - 1], ws[n], u, src);
    }
  }

  /** Where a recorded pair entered the record it had just been accepted. */
  lemma {:induction false} RecordedWasAccepted(ws: seq<World>, u: Setup, n: nat, pair: (string, string))
    requires Run(ws, u) && n < |ws| && pair in ws[n].s.validated && pair !in ws[0].s.validated
    ensures exists m :: 0 <= m < n && AcceptedNow(ws[m].s, pair.0, pair.1, u.cfg)
  {
    hide Step, AcceptedNow, Started, Sensible;
    if pair in ws[n - 1].s.validated {
      RecordedWasAccepted(ws, u, n - 1, pair);
    } else {
      assert SomeStep(ws[n - 1], ws[n], u);
      var src :| Step(ws[n - 1], ws[n], u, src);
      StepRecordsAccepted(ws[n - 1], ws[n], u, src);
    }
  }

  /**
   * Safety of every parallel run: in every reachable state no source is lost, and a source that is gone is
   * aliased, counted key by key in its target, and was found equal to it in an earlier state of the run.
   */
  lemma ParallelRunsLoseNothing(ws: seq<World>, u: Setup, n: nat, src: string, nk: Key, coarse: int)
    requires Run(ws, u) && n < |ws| && src in u.plan.frozen
    requires coarse > 0 && coarse % u.plan.window == 0
    ensures NoLoss(ws[n].s, u.plan)
    ensures src in ws[n].stage && (ws[n].stage[src] == Finished ==> src !in ws[n].s.indices)
    ensures src !in ws[n].s.indices ==>
      InAlias(ws[n].s, u.plan.alias[src], u.plan.target[src]) && u.plan.target[src] in ws[n].s.indices &&
      Total(FromSource(ws[n].s.indices[u.plan.target[src]], src), AtKey(nk, coarse)) ==
        Total(u.plan.frozen[src], AtKey(nk, coarse))
    ensures src !in ws[n].s.indices && !u.cfg.skipValidation && (src, u.plan.target[src]) !in ws[0].s.validated ==>
      exists m ::
        0 <= m < n && AcceptedNow(ws[m].s, src, u.plan.target[src], u.cfg) && ws[m].s.indices[src] == u.plan.frozen[src]
  {
    hide Run, NoLoss, Total, AcceptedNow, Started, StageHolds;
    RunKeepsInv(ws, u, n);
    assert src in ws[n].stage && StageHolds(ws[n].s, u, src, ws[n].stage[src]);
    FinishedIsGone(ws[n].s, u, src, ws[n].stage[src]);
    if src !in ws[n].s.indices {
      GoneIsCounted(ws[n].s, u.plan, src, nk, coarse);
      if !u.cfg.skipValidation && (src, u.plan.target[src]) !in ws[0].s.validated {
        RecordedWasAccepted(ws, u, n, (src, u.plan.target[src]));
        var m :| 0 <= m < n && AcceptedNow(ws[m].s, src, u.plan.target[src], u.cfg);
        RunKeepsInv(ws, u, m);
        AcceptedHasSource(ws[m].s, src, u.plan.target[src], u.cfg);
        FrozenSource(ws[m].s, u.plan, src);
      }
    }
  }

  lemma FinishedIsGone(s: State, u: Setup, src: string, stage: Stage)
    requires WellPlanned(u.plan) && src in u.plan.frozen && StageHolds(s, u, src, stage)
    ensures stage == Finished ==> src !in s.indices
  {
  }
}
