/** What a validation of two indices in the cluster finds, and when a merge in order passes every one of them. */
module Checks {
  import opened Documents
  import opened TimeRanges
  import opened RollUp
  import opened Validation
  import opened ValidationMeaning
  import opened SharedTarget
  import opened Cluster
  import opened Wildcard
  import opened PageRolls

  // ----- one validation

  /** Comparing the two indices as they are now finds no difference. */
  ghost predicate AcceptedNow(s: State, src: string, target: string, cfg: RolloverConfig) {
    src in s.indices && target in s.indices && exists minVal, maxVal, ranges ::
      && Extremes(s.indices[src], minVal, maxVal) && Splits(ranges, minVal, maxVal, cfg.validationRange)
      && Accepted(View(s.indices, src), View(s.indices, target), ranges, minVal, cfg.skipTenantIdValidation)
  }

  /** Comparing the two indices as they are now finds a difference. */
  ghost predicate Refuses(s: State, src: string, target: string, cfg: RolloverConfig) {
    src in s.indices && target in s.indices && exists minVal, maxVal, ranges ::
      && Extremes(s.indices[src], minVal, maxVal) && Splits(ranges, minVal, maxVal, cfg.validationRange)
      && !Accepted(View(s.indices, src), View(s.indices, target), ranges, minVal, cfg.skipTenantIdValidation)
  }

  /** A pair is recorded as validated only by a comparison that found no difference at that moment. */
  ghost predicate RecordsAccepted(s: State, s': State, cfg: RolloverConfig) {
    forall p :: p in s'.validated && p !in s.validated ==> AcceptedNow(s, p.0, p.1, cfg)
  }

  /** No index with a longer name has a document in the range. */
  ghost predicate Alone(store: Store, name: string, r: TimeRange) {
    forall n, id :: n in store && name <= n && n != name && id in store[n] ==> !Holds(r, store[n][id].ts)
  }

  /** In every range compared for `src` the wildcards show the two indices themselves, and the target only `src`. */
  ghost predicate ClearView(s: State, src: string, target: string, cfg: RolloverConfig)
    requires src in s.indices && target in s.indices
  {
    forall minVal, maxVal, ranges, i |
      && Extremes(s.indices[src], minVal, maxVal) && Splits(ranges, minVal, maxVal, cfg.validationRange)
      && 0 <= i < |ranges| ::
      && Alone(s.indices, src, ranges[i]) && Alone(s.indices, target, ranges[i])
      && OnlyFrom(s.indices[target], src, ranges[i])
  }

  ghost predicate MasksNothing(ix: Index, cfg: RolloverConfig) {
    forall minVal, maxVal, ranges, i, g ::
      Extremes(ix, minVal, maxVal) && Splits(ranges, minVal, maxVal, cfg.validationRange) && 0 <= i < |ranges| ==>
        Unmasked(ix, ranges[i], cfg.skipTenantIdValidation, g)
  }

  lemma ViewsAccepted(s: State, src: string, target: string, ranges: seq<TimeRange>, minVal: int, skipTenant: bool)
    requires src in s.indices && target in s.indices
    requires forall i :: 0 <= i < |ranges| ==> Alone(s.indices, src, ranges[i]) && Alone(s.indices, target, ranges[i])
    ensures Accepted(View(s.indices, src), View(s.indices, target), ranges, minVal, skipTenant) <==>
            Accepted(s.indices[src], s.indices[target], ranges, minVal, skipTenant)
  {
    hide View, CountsOf;
    forall i | 0 <= i < |ranges|
      ensures CountsOf(View(s.indices, src), ranges[i], skipTenant) == CountsOf(s.indices[src], ranges[i], skipTenant)
      ensures CountsOf(View(s.indices, target), ranges[i], skipTenant) ==
              CountsOf(s.indices[target], ranges[i], skipTenant)
    {
      ViewShowsIndex(s.indices, src, ranges[i], skipTenant);
      ViewShowsIndex(s.indices, target, ranges[i], skipTenant);
    }
  }

  ghost predicate AlwaysBalanced(s: State, src: string, target: string, cfg: RolloverConfig)
    requires src in s.indices && target in s.indices
  {
    forall minVal, maxVal, ranges, i, g: Group |
      && Extremes(s.indices[src], minVal, maxVal) && Splits(ranges, minVal, maxVal, cfg.validationRange)
      && 0 <= i < |ranges| && g.operator != "" ::
      WildBalanced(s.indices, src, target, ranges[i], cfg.skipTenantIdValidation, g)
  }

  /**
   * In any cluster, with any longer names and any other sources in the target: a finished copy is refused exactly
   * when what the wildcards add does not cancel out for some group in some compared range.
   */
  lemma CopyRefusedExactly(s: State, src: string, target: string, w: int, cfg: RolloverConfig)
    requires src in s.indices && target in s.indices && WindowFits(w, cfg.validationRange)
    requires RollsInto(s.indices[src], src, w, s.indices[target]) && Tagged(s.indices[src], cfg.skipTenantIdValidation)
    ensures Refuses(s, src, target, cfg) <==> !AlwaysBalanced(s, src, target, cfg)
  {
    hide RollsInto, Accepted, View, Tagged, WildBalanced;
    forall minVal, maxVal, ranges |
      Extremes(s.indices[src], minVal, maxVal) && Splits(ranges, minVal, maxVal, cfg.validationRange)
      ensures Accepted(View(s.indices, src), View(s.indices, target), ranges, minVal, cfg.skipTenantIdValidation) <==>
              forall i, g: Group :: 0 <= i < |ranges| && g.operator != "" ==>
                WildBalanced(s.indices, src, target, ranges[i], cfg.skipTenantIdValidation, g)
    {
      WildAcceptedIff(s.indices, src, target, w, ranges, minVal, maxVal, cfg.validationRange,
                      cfg.skipTenantIdValidation);
    }
  }

  /** Seen clearly, a finished copy is refused exactly when its source masks a count. */
  lemma CopyRefusedIff(s: State, src: string, target: string, w: int, cfg: RolloverConfig)
    requires src in s.indices && target in s.indices && ClearView(s, src, target, cfg)
    requires WindowFits(w, cfg.validationRange) && RollsInto(s.indices[src], src, w, s.indices[target])
    requires Tagged(s.indices[src], cfg.skipTenantIdValidation)
    ensures Refuses(s, src, target, cfg) <==> !MasksNothing(s.indices[src], cfg)
  {
    hide RollsInto, Unmasked, Accepted, View, Tagged, OnlyFrom, Alone;
    var ix, copy, skip := s.indices[src], s.indices[target], cfg.skipTenantIdValidation;
    forall minVal, maxVal, ranges | Extremes(ix, minVal, maxVal) && Splits(ranges, minVal, maxVal, cfg.validationRange)
      ensures Accepted(View(s.indices, src), View(s.indices, target), ranges, minVal, skip) <==>
              forall i, g :: 0 <= i < |ranges| ==> Unmasked(ix, ranges[i], skip, g)
    {
      ViewsAccepted(s, src, target, ranges, minVal, skip);
      CorrectRollUpAcceptedIff(ix, src, w, copy, ranges, minVal, maxVal, cfg.validationRange, skip);
    }
  }

  // ----- where a migration may start

  /** The counts of the source are served: by itself in the alias, or by its complete and checked copy there. */
  ghost predicate IsServed(s: State, src: string, target: string, alias: string, cfg: RolloverConfig)
    requires src in s.indices
  {
    || InAlias(s, alias, src)
    || (target in s.indices && RollsInto(s.indices[src], src, cfg.aggWindow, s.indices[target])
        && (cfg.skipValidation || (src, target) in s.validated) && InAlias(s, alias, target))
  }

  /**
   * The source can be rolled, for the first time or again: it is there and served, and whatever earlier attempts
   * left in the target is a part of its roll-up.
   */
  ghost predicate Ready(s: State, src: string, target: string, alias: string, cfg: RolloverConfig) {
    && src in s.indices && IsServed(s, src, target, alias, cfg)
    && (target in s.indices ==> PartlyRolled(s.indices[src], src, cfg.aggWindow, s.indices[target]))
  }

  // ----- what a migration may add

  /** `d` was made from bucket `k` of the index. */
  ghost predicate MadeFrom(d: Doc, k: Key, ix: Index, w: int) {
    exists id, total :: id in ix && KeyOf(ix[id], w) == k && d == Stamp(ix[id], k, total)
  }

  /** Every document of `s'` was there in `s`, or was rolled from one of `srcs` into its own target. */
  ghost predicate Adds(s: State, s': State, plan: Plan, srcs: set<string>)
    requires WellPlanned(plan)
  {
    forall n, id :: n in s'.indices && id in s'.indices[n] ==>
      || (n in s.indices && id in s.indices[n] && s.indices[n][id] == s'.indices[n][id])
      || Added(s'.indices[n][id], n, id, plan, srcs)
  }

  ghost predicate Added(d: Doc, n: string, id: DocId, plan: Plan, srcs: set<string>)
    requires WellPlanned(plan)
  {
    && id.Rolled? && id.src in srcs && id.src in plan.frozen && plan.target[id.src] == n
    && MadeFrom(d, id.key, plan.frozen[id.src], plan.window)
  }

  lemma AddsNothing(s: State, s': State, plan: Plan, srcs: set<string>)
    requires WellPlanned(plan) && forall n <- s'.indices :: n in s.indices && s'.indices[n] == s.indices[n]
    ensures Adds(s, s', plan, srcs)
  {
  }

  lemma AddsJoin(s: State, s': State, s'': State, plan: Plan, srcs: set<string>, more: set<string>)
    requires WellPlanned(plan) && Adds(s, s', plan, srcs) && Adds(s', s'', plan, more)
    ensures Adds(s, s'', plan, srcs + more)
  {
    hide MadeFrom;
  }

  lemma AddsMore(s: State, s': State, plan: Plan, srcs: set<string>, more: set<string>)
    requires WellPlanned(plan) && Adds(s, s', plan, srcs) && srcs <= more
    ensures Adds(s, s', plan, more)
  {
    hide MadeFrom;
  }

  /** Only sources of the plan are ever added from. */
  lemma AddsPlanned(s: State, s': State, plan: Plan, srcs: set<string>)
    requires WellPlanned(plan) && Adds(s, s', plan, srcs)
    ensures Adds(s, s', plan, plan.frozen.Keys)
  {
    hide MadeFrom;
  }

  lemma RangeRollIsMade(d: Doc, k: Key, ix: Index, w: int, r: TimeRange)
    requires RangeRoll(d, k, ix, w, r)
    ensures MadeFrom(d, k, ix, w)
  {
  }

  lemma BulkAdds(s: State, plan: Plan, src: string, batch: Index, part: Index, w: int, r: TimeRange)
    requires WellPlanned(plan) && src in plan.frozen && w == plan.window && BatchOf(batch, src) && Submap(part, batch)
    requires forall k :: Rolled(k, src) in batch ==> RangeRoll(batch[Rolled(k, src)], k, plan.frozen[src], w, r)
    ensures Adds(s, BulkEffect(s, plan.target[src], part), plan, {src})
  {
    hide RangeRoll, MadeFrom;
    forall id <- part ensures id == Rolled(id.key, src) && MadeFrom(part[id], id.key, plan.frozen[src], w) {
      RangeRollIsMade(part[id], id.key, plan.frozen[src], w, r);
    }
  }

  // ----- merging in order

  /** The days (or hours) a source covers, from `lo` up to but not including `hi`. */
  datatype Span = Span(lo: int, hi: int)

  ghost predicate Spanned(ix: Index, p: Span, unit: int) {
    unit > 0 && p.lo % unit == 0 && p.hi % unit == 0 && ix != map[] && forall id <- ix :: p.lo <= ix[id].ts < p.hi
  }

  /** The 1h/1h/1h and 24h/24h/24h settings. */
  predicate Uniform(cfg: RolloverConfig) {
    && (cfg.aggWindow == HOUR || cfg.aggWindow == DAY) && cfg.aggQueryRange == cfg.aggWindow
    && cfg.validationRange == cfg.aggWindow
    && cfg.aggBatchSize > 0 && !cfg.deleteExistingRolledOverIndex
  }

  lemma UniformIsSafe(cfg: RolloverConfig)
    requires Uniform(cfg)
    ensures SafeConfig(cfg) && Positive(cfg) && WindowFits(cfg.aggWindow, cfg.validationRange)
  {
  }

  /** The ranges compared for a source stay within its span, but for the first instant after it. */
  lemma SpanRanges(ix: Index, p: Span, unit: int, ranges: seq<TimeRange>, minVal: int, maxVal: int, i: int, t: int)
    requires (unit == HOUR || unit == DAY) && Spanned(ix, p, unit) && Extremes(ix, minVal, maxVal)
    requires Splits(ranges, minVal, maxVal, unit) && 0 <= i < |ranges| && Holds(ranges[i], t)
    ensures p.lo <= t <= p.hi
  {
    hide Tiles;
    var start, last := Align(minVal, unit), |ranges| - 1;
    FloorAbove(minVal, unit, p.lo);
    ExactlyOneRange(ranges, start, unit, t);
    LastStarts(ranges, minVal, maxVal, unit, p.hi);
  }

  lemma LastStarts(ranges: seq<TimeRange>, minVal: int, maxVal: int, unit: int, hi: int)
    requires (unit == HOUR || unit == DAY) && Splits(ranges, minVal, maxVal, unit) && minVal <= maxVal < hi
    requires hi % unit == 0
    ensures ranges[|ranges| - 1].end <= hi + 1
  {
    var start, n := Align(minVal, unit), |ranges| - 1;
    var last := start + n * unit;
    assert ranges[n].start == last && ranges[n].end == last + unit + 1;
    assert n == 0 ==> last == start by { assert 0 * unit == 0; }
    FloorIsMultiple(minVal, unit);
    assert last == (minVal / unit + n) * unit;
    assert hi == (hi / unit) * unit;
    MultipleGap(minVal / unit + n, hi / unit, unit);
  }

  lemma MadeInSpan(d: Doc, k: Key, ix: Index, p: Span, w: int)
    requires Spanned(ix, p, w) && MadeFrom(d, k, ix, w)
    ensures p.lo <= d.ts < p.hi
  {
    var id, total :| id in ix && KeyOf(ix[id], w) == k && d == Stamp(ix[id], k, total);
    FloorAbove(ix[id].ts, w, p.lo);
    FloorIsMultiple(ix[id].ts, w);
  }

  /**
   * Nothing that was in the cluster at the start, and nothing the sources merged `before` add, shows in the
   * ranges compared for `src`, apart from its own documents.
   */
  ghost predicate Undisturbed(s: State, plan: Plan, cfg: RolloverConfig, spans: map<string, Span>, src: string,
                              before: set<string>)
    requires WellPlanned(plan)
  {
    && src in plan.frozen && src in spans && Spanned(plan.frozen[src], spans[src], cfg.aggWindow)
    && Tagged(plan.frozen[src], cfg.skipTenantIdValidation) && NoBlanks(plan.frozen[src])
    && !(src <= plan.target[src]) && !(plan.target[src] <= src)
    && (forall n, id |
          && n in s.indices && (src <= n || plan.target[src] <= n) && id in s.indices[n]
          && InSpan(spans[src], s.indices[n][id].ts) ::
          n == src || (n == plan.target[src] && id.Rolled? && id.src == src))
    && forall o <- before ::
         && o in plan.frozen && o in spans && Spanned(plan.frozen[o], spans[o], cfg.aggWindow)
         && (src <= plan.target[o] || plan.target[src] <= plan.target[o] ==> Apart(spans[o], spans[src]))
  }

  /** The ranges compared for the later source hold nothing of the earlier one. */
  ghost predicate Apart(earlier: Span, later: Span) {
    earlier.hi <= later.lo || later.hi < earlier.lo
  }

  ghost predicate InSpan(p: Span, t: int) {
    p.lo <= t <= p.hi
  }

  lemma SeenBySource(start: State, s: State, plan: Plan, cfg: RolloverConfig, spans: map<string, Span>, src: string,
                     before: set<string>, n: string, id: DocId)
    requires Runs(plan, cfg) && Undisturbed(start, plan, cfg, spans, src, before)
    requires Adds(start, s, plan, before + {src})
    requires n in s.indices && id in s.indices[n] && (src <= n || plan.target[src] <= n)
    requires InSpan(spans[src], s.indices[n][id].ts)
    ensures n == src || (n == plan.target[src] && id.Rolled? && id.src == src)
  {
    hide Spanned, MadeFrom, Tagged, NoBlanks;
    if Added(s.indices[n][id], n, id, plan, before + {src}) && id.src != src {
      MadeInSpan(s.indices[n][id], id.key, plan.frozen[id.src], spans[id.src], plan.window);
    }
  }

  /** In an undisturbed cluster the finished copy of a source is seen clearly. */
  lemma UndisturbedIsClear(start: State, s: State, plan: Plan, cfg: RolloverConfig, spans: map<string, Span>,
                           src: string, before: set<string>)
    requires Runs(plan, cfg) && Uniform(cfg) && Undisturbed(start, plan, cfg, spans, src, before)
    requires Adds(start, s, plan, before + {src})
    requires src in s.indices && s.indices[src] == plan.frozen[src] && plan.target[src] in s.indices
    ensures ClearView(s, src, plan.target[src], cfg)
  {
    hide Spanned, Adds, Tagged, NoBlanks, Splits, Extremes;
    var target := plan.target[src];
    forall minVal, maxVal, ranges, i |
      && Extremes(s.indices[src], minVal, maxVal) && Splits(ranges, minVal, maxVal, cfg.validationRange)
      && 0 <= i < |ranges|
      ensures Alone(s.indices, src, ranges[i]) && Alone(s.indices, target, ranges[i])
      ensures OnlyFrom(s.indices[target], src, ranges[i])
    {
      forall n, id | n in s.indices && src <= n && n != src && id in s.indices[n]
        ensures !Holds(ranges[i], s.indices[n][id].ts)
      {
        SeenInRange(start, s, plan, cfg, spans, src, before, ranges, minVal, maxVal, i, n, id);
      }
      forall n, id | n in s.indices && target <= n && n != target && id in s.indices[n]
        ensures !Holds(ranges[i], s.indices[n][id].ts)
      {
        SeenInRange(start, s, plan, cfg, spans, src, before, ranges, minVal, maxVal, i, n, id);
      }
      forall id <- s.indices[target]
        ensures Holds(ranges[i], s.indices[target][id].ts) ==> id.Rolled? && id.src == src
      {
        SeenInRange(start, s, plan, cfg, spans, src, before, ranges, minVal, maxVal, i, target, id);
      }
    }
  }

  lemma SeenInRange(start: State, s: State, plan: Plan, cfg: RolloverConfig, spans: map<string, Span>, src: string,
                    before: set<string>, ranges: seq<TimeRange>, minVal: int, maxVal: int, i: int, n: string, id: DocId)
    requires Runs(plan, cfg) && Uniform(cfg) && Undisturbed(start, plan, cfg, spans, src, before)
    requires Adds(start, s, plan, before + {src})
    requires Extremes(plan.frozen[src], minVal, maxVal) && Splits(ranges, minVal, maxVal, cfg.validationRange)
    requires 0 <= i < |ranges|
    requires n in s.indices && id in s.indices[n] && (src <= n || plan.target[src] <= n)
    ensures Holds(ranges[i], s.indices[n][id].ts) ==> n == src || (n == plan.target[src] && id.Rolled? && id.src == src)
  {
    hide Spanned, Adds, Tagged, NoBlanks, Splits, Extremes;
    if Holds(ranges[i], s.indices[n][id].ts) {
      SpanRanges(plan.frozen[src], spans[src], cfg.aggWindow, ranges, minVal, maxVal, i, s.indices[n][id].ts);
      SeenBySource(start, s, plan, cfg, spans, src, before, n, id);
    }
  }

  /** The reasons for which rolling `src` can fail: a failing call, a missing index, a setting, or a difference. */
  ghost predicate Excused(quiet: bool, s: State, src: string, plan: Plan, cfg: RolloverConfig)
    requires WellPlanned(plan) && src in plan.frozen
  {
    || !quiet || src !in s.indices || !Positive(cfg)
    || (Written(s, plan, src) &&
        (plan.target[src] !in s.indices || (!cfg.skipValidation && Refuses(s, src, plan.target[src], cfg))))
  }

  /** In an undisturbed and calm cluster a source that is still there has no reason to fail. */
  lemma UndisturbedSucceeds(start: State, s: State, plan: Plan, cfg: RolloverConfig, spans: map<string, Span>,
                            src: string, before: set<string>)
    requires Runs(plan, cfg) && Uniform(cfg) && Undisturbed(start, plan, cfg, spans, src, before)
    requires Adds(start, s, plan, before + {src})
    requires NoLoss(s, plan) && src in s.indices
    ensures !Excused(true, s, src, plan, cfg)
  {
    hide Adds, Tagged, Spanned, NoLoss, RollsInto, ClearView, MasksNothing, Refuses;
    UniformIsSafe(cfg);
    var target := plan.target[src];
    FrozenIs(s, plan, src);
    if Written(s, plan, src) {
      WrittenHasTarget(s, plan, src, spans[src]);
      WrittenIsCopied(s, plan, src);
      UndisturbedIsClear(start, s, plan, cfg, spans, src, before);
      NoBlanksMaskNothing(plan.frozen[src], cfg);
      CopyRefusedIff(s, src, target, plan.window, cfg);
    }
  }

  lemma FrozenIs(s: State, plan: Plan, src: string)
    requires NoLoss(s, plan) && src in plan.frozen && src in s.indices
    ensures s.indices[src] == plan.frozen[src]
  {
  }

  lemma WrittenHasTarget(s: State, plan: Plan, src: string, p: Span)
    requires WellPlanned(plan) && src in plan.frozen && Written(s, plan, src)
    requires Spanned(plan.frozen[src], p, plan.window)
    ensures plan.target[src] in s.indices
  {
    var id :| id in plan.frozen[src];
    assert KeyOf(plan.frozen[src][id], plan.window) in Keys(plan.frozen[src], plan.window);
  }

  lemma NoBlanksMaskNothing(ix: Index, cfg: RolloverConfig)
    requires NoBlanks(ix)
    ensures MasksNothing(ix, cfg)
  {
    hide Unmasked;
    forall r, g ensures Unmasked(ix, r, cfg.skipTenantIdValidation, g) {
      NoBlankMasksNothing(ix, r, cfg.skipTenantIdValidation, g);
    }
  }

  ghost function Listed(order: seq<string>): set<string> {
    set src | src in order
  }

  /** The sources can be rolled in this order, none disturbed by what came before. */
  ghost predicate Orderly(s: State, plan: Plan, cfg: RolloverConfig, spans: map<string, Span>, order: seq<string>)
    requires WellPlanned(plan)
  {
    && Uniform(cfg) && (forall i, j :: 0 <= i < j < |order| ==> order[i] != order[j])
    && forall i :: 0 <= i < |order| ==>
         order[i] in s.indices && Undisturbed(s, plan, cfg, spans, order[i], Listed(order[..i]))
  }

  /** The source can be told apart by name and time from all that is there at the start. */
  ghost predicate Prepared(s: State, plan: Plan, cfg: RolloverConfig, spans: map<string, Span>, src: string)
    requires WellPlanned(plan)
  {
    && src in plan.frozen && src in s.indices && src in spans && Spanned(plan.frozen[src], spans[src], cfg.aggWindow)
    && Tagged(plan.frozen[src], cfg.skipTenantIdValidation) && NoBlanks(plan.frozen[src])
    && !(src <= plan.target[src]) && !(plan.target[src] <= src)
    && forall n, id :: n in s.indices && n != src && (src <= n || plan.target[src] <= n) && id in s.indices[n] ==>
         !InSpan(spans[src], s.indices[n][id].ts)
  }

  /** What was rolled from `o` does not show when `src` is compared. */
  ghost predicate Unseen(plan: Plan, spans: map<string, Span>, o: string, src: string)
    requires WellPlanned(plan)
  {
    && o in plan.frozen && src in plan.frozen && o in spans && src in spans && o != src
    && (src <= plan.target[o] || plan.target[src] <= plan.target[o] ==> Apart(spans[o], spans[src]))
  }

  lemma UnseenIsOrderly(s: State, plan: Plan, cfg: RolloverConfig, spans: map<string, Span>, order: seq<string>)
    requires Runs(plan, cfg) && Uniform(cfg) && forall src <- order :: Prepared(s, plan, cfg, spans, src)
    requires forall i, j :: 0 <= i < j < |order| ==> Unseen(plan, spans, order[i], order[j])
    ensures Orderly(s, plan, cfg, spans, order)
  {
    hide Tagged, NoBlanks, Spanned, InSpan;
    forall i | 0 <= i < |order|
      ensures order[i] in s.indices && Undisturbed(s, plan, cfg, spans, order[i], Listed(order[..i]))
    {
      assert Prepared(s, plan, cfg, spans, order[i]);
      forall o <- Listed(order[..i]) ensures Unseen(plan, spans, o, order[i]) && Prepared(s, plan, cfg, spans, o) {
        var h :| 0 <= h < i && order[h] == o;
      }
    }
  }
}
