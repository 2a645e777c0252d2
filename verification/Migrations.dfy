/** How one migration prepares the next. */
module Migrations {
  import opened Documents
  import opened TimeRanges
  import opened RollUp
  import opened Cluster
  import opened PageRolls
  import opened Checks
  import opened Traces
  import opened Lifecycle
  import opened Merges
  import opened IndexNames
  import opened Calendar
  import opened Reruns
  import opened Plans
  import opened DayMigration
  import opened WeekMigration
  import opened YearOrder
  import opened YearMigration
  import WeekGroups

  /** The target of a finished source is there and in the source's alias. */
  lemma FinishedIsAliased(s: State, plan: Plan, src: string)
    requires NoLoss(s, plan) && src in plan.frozen && src !in s.indices
    ensures plan.target[src] in s.indices && InAlias(s, plan.alias[src], plan.target[src])
  {
    hide RollsInto;
    assert Served(s, plan, src);
  }

  /** An index that is there and in its alias, with a new target, is ready. */
  lemma NewTargetIsReady(s: State, n: string, target: string, alias: string, cfg: RolloverConfig)
    requires n in s.indices && InAlias(s, alias, n) && target !in s.indices
    ensures Ready(s, n, target, alias, cfg)
  {
  }

  /** What a finished p1 to p2 migration leaves is parsed and can be merged into new weeks at once. */
  lemma P2IsReady(s: State, plan: Plan, names: seq<string>, cfg: RolloverConfig)
    requires NoLoss(s, plan) && forall src <- plan.frozen :: src !in s.indices
    requires PlanIsRouted(plan, RouteP1) && forall n <- names :: exists src <- plan.frozen :: n == plan.target[src]
    requires forall n <- names :: RouteP2(n).Some? ==> RouteP2(n).value.target !in s.indices
    ensures AllReady(s, names, RouteP2, cfg) && forall n <- names :: RouteP2(n).Some?
  {
    hide RouteP1, NoLoss, Ready, ParseRolledOverV2P2, WeekTarget;
    PlanIsWell(s, plan);
    forall n <- names
      ensures RouteP2(n).Some? && Ready(s, n, RouteP2(n).value.target, RouteP2(n).value.alias, cfg)
    {
      var src :| src in plan.frozen && n == plan.target[src];
      FinishedIsAliased(s, plan, src);
      DayTargetParses(src);
      NewTargetIsReady(s, n, RouteP2(n).value.target, RouteP2(n).value.alias, cfg);
    }
  }

  ghost predicate PlanIsRouted(plan: Plan, route: Route) {
    WellPlanned(plan) && Follows(plan, route)
  }

  lemma DayTargetParses(src: string)
    requires RouteP1(src).Some?
    ensures var way := RouteP1(src).value;
            ParseRolledOverV2P2(way.target).Some? && way.alias == AliasOf(ParseRolledOverV2P2(way.target).value.tenant)
  {
    hide ParseIndexName, ParseRolledOverV2P2, NewIndexNameForRollover;
    var info := ParseIndexName(src).value;
    ParsedKeepsName(src);
    assert P1Index(src, info) && info.(index := src) == info;
    P2NameParsesBack(src, info);
  }

  /** What a finished p2 to p3 migration leaves can be merged into new years, as far as its names are parsed. */
  lemma P3IsReady(s: State, plan: Plan, names: seq<string>, cfg: RolloverConfig)
    requires NoLoss(s, plan) && forall src <- plan.frozen :: src !in s.indices
    requires PlanIsRouted(plan, RouteP2) && forall n <- names :: exists src <- plan.frozen :: n == plan.target[src]
    requires forall n <- names :: RouteP3(n).Some? ==> RouteP3(n).value.target !in s.indices
    ensures AllReady(s, names, RouteP3, cfg)
  {
    hide NoLoss, Ready, ParseRolledOverV2P2, ParseRolledOverP3OrOlder, WeekTarget, P4Name;
    PlanIsWell(s, plan);
    forall n <- names | RouteP3(n).Some?
      ensures Ready(s, n, RouteP3(n).value.target, RouteP3(n).value.alias, cfg)
    {
      var src :| src in plan.frozen && n == plan.target[src];
      FinishedIsAliased(s, plan, src);
      WeekTargetTenant(src);
      NewTargetIsReady(s, n, RouteP3(n).value.target, RouteP3(n).value.alias, cfg);
    }
  }

  lemma WeekTargetTenant(src: string)
    requires ParseRolledOverV2P2(src).Some?
    ensures var info := ParseRolledOverV2P2(src).value;
            var p := ParseRolledOverP3OrOlder(WeekTarget(info.tenant, WeekGroups.WeekOf(info)));
            p.Some? ==> p.value.tenant == info.tenant
  {
    hide ParseRolledOverV2P2, ParseRolledOverP3OrOlder, P3Name;
    ParsedKeepsName(src);
    var info := ParseRolledOverV2P2(src).value;
    var (y, k) := SplitYearWeekNumber(WeekGroups.WeekOf(info));
    P3KeepsTenant(info.tenant, y, k);
  }

  // ----- which index a day and a week go into

  /** The ISO year of the day is one that a p3 name can carry and that is migrated on. */
  predicate CarriedOn(info: IndexInfo) {
    var year := IsoYear(DayNumber(info.year, info.day));
    info.tenant != "p4" && 0 <= year && Int64(year) && year != 1970
  }

  /** By its parsed name, the target of a p2 index is its tenant's index of the ISO week of its day. */
  lemma WeekTargetNamesItsWeek(n: string)
    requires RouteP2(n).Some? && CarriedOn(ParseRolledOverV2P2(n).value)
    ensures var info, way := ParseRolledOverV2P2(n).value, RouteP2(n).value;
            var day := DayNumber(info.year, info.day);
            && way.target == P3Name(info.tenant, IsoYear(day), IsoWeek(day))
            && way.alias == "db_statistics_alias_" + info.tenant
            && ParseRolledOverP3OrOlder(way.target) ==
               Some(IndexInfo(way.target, info.tenant, IsoYear(day), IsoWeek(day), 0, "v2", "p3"))
  {
    hide ParseRolledOverV2P2, ParseRolledOverP3OrOlder, P3Name, IsoYear, IsoWeek, DayNumber;
    var info := ParseRolledOverV2P2(n).value;
    var day := DayNumber(info.year, info.day);
    ParsedKeepsName(n);
    IsoWeekRule(0, day);
    YearWeekRoundTripIff(IsoYear(day), IsoWeek(day));
    P3NameParsesBackIff(info.tenant, IsoYear(day), IsoWeek(day));
  }

  /** So two p2 indices share a target exactly when they are of one tenant and of one ISO week. */
  lemma SharedWeekIff(n: string, o: string)
    requires RouteP2(n).Some? && RouteP2(o).Some?
    requires CarriedOn(ParseRolledOverV2P2(n).value) && CarriedOn(ParseRolledOverV2P2(o).value)
    ensures var a, b := ParseRolledOverV2P2(n).value, ParseRolledOverV2P2(o).value;
            RouteP2(n).value.target == RouteP2(o).value.target <==>
            a.tenant == b.tenant && WeekIndex(DayNumber(a.year, a.day)) == WeekIndex(DayNumber(b.year, b.day))
  {
    hide ParseRolledOverV2P2, ParseRolledOverP3OrOlder, P3Name, IsoYear, IsoWeek, DayNumber, RouteP2, CarriedOn,
      WeekIndex;
    Parsable(n);
    Parsable(o);
    var a, b := ParseRolledOverV2P2(n).value, ParseRolledOverV2P2(o).value;
    WeekTargetNamesItsWeek(n);
    WeekTargetNamesItsWeek(o);
    SameWeekIff(DayNumber(a.year, a.day), DayNumber(b.year, b.day));
    if WeekIndex(DayNumber(a.year, a.day)) == WeekIndex(DayNumber(b.year, b.day)) {
      OneWeekOneDate(DayNumber(a.year, a.day), DayNumber(b.year, b.day));
    }
  }

  /** By its parsed name, the target of a p1 index is its tenant's index of the same day, with the same alias. */
  lemma DayTargetNamesItsDay(n: string)
    requires RouteP1(n).Some?
    ensures var info, way := ParseIndexName(n).value, RouteP1(n).value;
            && way.alias == "db_statistics_alias_" + info.tenant
            && ParseRolledOverV2P2(way.target) ==
               Some(IndexInfo(way.target, info.tenant, info.year, 0, info.day, "v2", "p2"))
  {
    hide ParseIndexName, ParseRolledOverV2P2, NewIndexNameForRollover;
    var info := ParseIndexName(n).value;
    ParsedKeepsName(n);
    assert P1Index(n, info) && info.(index := n) == info;
    P2NameParsesBack(n, info);
  }

  /** A p3 or older index goes into its tenant's index of its year, and two share one only if both are the same. */
  lemma SharedYearIff(n: string, o: string)
    requires RouteP3(n).Some? && RouteP3(o).Some?
    ensures var a, b := ParseRolledOverP3OrOlder(n).value, ParseRolledOverP3OrOlder(o).value;
            && RouteP3(n).value.target == P4Name(a.tenant, a.year)
            && RouteP3(n).value.alias == "db_statistics_alias_" + a.tenant
            && (RouteP3(n).value.target == RouteP3(o).value.target <==> a.tenant == b.tenant && a.year == b.year)
  {
    hide ParseRolledOverP3OrOlder, P4Name;
    var a, b := ParseRolledOverP3OrOlder(n).value, ParseRolledOverP3OrOlder(o).value;
    ParsedKeepsName(n);
    ParsedKeepsName(o);
    ParsedYearFits(n);
    ParsedYearFits(o);
    if RouteP3(n).value.target == RouteP3(o).value.target {
      P4NameInjective(a.tenant, a.year, b.tenant, b.year);
    }
  }

  // ----- what a finished migration leaves in them

  ghost predicate HoldsSpan(ix: Index, p: Span) {
    forall id <- ix :: p.lo <= ix[id].ts < p.hi
  }

  /** A rolled document stays in the span of its source's documents. */
  lemma RollStays(d: Doc, k: Key, ix: Index, w: int, p: Span)
    requires IsRoll(d, k, ix, w) && HoldsSpan(ix, p) && w > 0 && p.lo % w == 0
    ensures p.lo <= d.ts < p.hi
  {
    var id :| id in ix && KeyOf(ix[id], w) == k && d == Stamp(ix[id], k, BucketTotal(ix, k, w));
    FloorAbove(ix[id].ts, w, p.lo);
    FloorIsMultiple(ix[id].ts, w);
  }

  /** If the sources of a target hold their spans, and these lie in one, the target holds that one. */
  lemma TargetHolds(s: State, plan: Plan, t: string, spans: map<string, Span>, whole: Span)
    requires WellPlanned(plan) && Finished(s, plan) && (plan.window == HOUR || plan.window == DAY)
    requires forall src <- plan.frozen ::
      src in spans && HoldsSpan(plan.frozen[src], spans[src]) && spans[src].lo % DAY == 0
    requires forall src <- plan.frozen :: plan.target[src] == t ==>
      whole.lo <= spans[src].lo && spans[src].hi <= whole.hi
    requires t in plan.target.Values
    ensures t in s.indices && HoldsSpan(s.indices[t], whole)
  {
    hide IsRoll, HoldsSpan, FloorTo, KeyOf;
    var src :| src in plan.target && plan.target[src] == t;
    assert t in Targets(s, plan);
    forall id <- s.indices[t] ensures whole.lo <= s.indices[t][id].ts < whole.hi {
      var o := id.src;
      assert id in Targets(s, plan)[t] && o in plan.frozen && plan.target[o] == t && id == Rolled(id.key, o);
      DayAligned(spans[o].lo, plan.window);
      RollStays(s.indices[t][id], id.key, plan.frozen[o], plan.window, spans[o]);
    }
    HoldsIntro(s.indices[t], whole);
  }

  lemma HoldsIntro(ix: Index, p: Span)
    requires forall id <- ix :: p.lo <= ix[id].ts < p.hi
    ensures HoldsSpan(ix, p)
  {
  }

  lemma DayAligned(t: int, w: int)
    requires t % DAY == 0 && (w == HOUR || w == DAY)
    ensures t % w == 0
  {
    assert t == (t / DAY) * 24 * HOUR;
    MultipleMod((t / DAY) * 24, HOUR);
  }

  /** When each p1 index holds its own day, so does what a finished p1 to p2 migration leaves, by the parsed names. */
  lemma DaysHoldTheirDay(s: State, plan: Plan, src: string)
    requires PlanIsRouted(plan, RouteP1) && Finished(s, plan) && (plan.window == HOUR || plan.window == DAY)
    requires forall o <- plan.frozen :: RouteP1(o).Some? && HoldsSpan(plan.frozen[o], DaySpan(DayIn(ParseIndexName(o))))
    requires src in plan.frozen
    ensures var t := plan.target[src];
            t in s.indices && HoldsSpan(s.indices[t], DaySpan(DayIn(ParseRolledOverV2P2(t))))
  {
    hide ParseIndexName, ParseRolledOverV2P2, RouteP1, Finished, HoldsSpan, DaySpan, DayNumber;
    var spans := map o | o in plan.frozen :: DaySpan(DayIn(ParseIndexName(o)));
    var t := plan.target[src];
    forall o | o in plan.frozen && plan.target[o] == t
      ensures DaySpan(DayIn(ParseRolledOverV2P2(t))) == spans[o]
    {
      RoutedTarget(plan, RouteP1, o);
      DayTargetNamesItsDay(o);
      Parsable(o);
    }
    forall o <- plan.frozen ensures spans[o].lo % DAY == 0 {
      DaySpanAligned(DayIn(ParseIndexName(o)));
    }
    TargetHolds(s, plan, t, spans, DaySpan(DayIn(ParseRolledOverV2P2(t))));
  }

  lemma Parsable(n: string)
    ensures RouteP1(n).Some? ==> ParseIndexName(n).Some?
    ensures RouteP2(n).Some? ==> ParseRolledOverV2P2(n).Some?
  {
  }

  lemma RoutedTarget(plan: Plan, route: Route, src: string)
    requires PlanIsRouted(plan, route) && src in plan.frozen
    ensures route(src) == Some(Way(plan.target[src], plan.alias[src]))
  {
  }

  /** When each p2 index holds its own day, what a finished p2 to p3 migration leaves holds the week its name says. */
  lemma WeeksHoldTheirWeek(s: State, plan: Plan, src: string)
    requires PlanIsRouted(plan, RouteP2) && Finished(s, plan) && (plan.window == HOUR || plan.window == DAY)
    requires forall o <- plan.frozen ::
      && RouteP2(o).Some? && CarriedOn(ParseRolledOverV2P2(o).value)
      && HoldsSpan(plan.frozen[o], DaySpan(DayIn(ParseRolledOverV2P2(o))))
    requires src in plan.frozen
    ensures var t := plan.target[src];
            && t in s.indices && ParseRolledOverP3OrOlder(t).Some?
            && HoldsSpan(s.indices[t], WeekSpan(ParseRolledOverP3OrOlder(t).value))
  {
    hide ParseRolledOverP3OrOlder, ParseRolledOverV2P2, RouteP2, Finished, HoldsSpan, DaySpan, WeekSpan, DayNumber,
      CarriedOn,
      IsoYear, IsoWeek, P3Name;
    var spans := map o | o in plan.frozen :: DaySpan(DayIn(ParseRolledOverV2P2(o)));
    var t := plan.target[src];
    RoutedTarget(plan, RouteP2, src);
    WeekTargetNamesItsWeek(src);
    var week := WeekSpan(ParseRolledOverP3OrOlder(t).value);
    forall o | o in plan.frozen && plan.target[o] == t
      ensures week.lo <= spans[o].lo && spans[o].hi <= week.hi
    {
      RoutedTarget(plan, RouteP2, o);
      WeekTargetNamesItsWeek(o);
      Parsable(o);
      DayInWeek(DayIn(ParseRolledOverV2P2(o)), ParseRolledOverP3OrOlder(t).value);
    }
    forall o <- plan.frozen ensures spans[o].lo % DAY == 0 {
      DaySpanAligned(DayIn(ParseRolledOverV2P2(o)));
    }
    TargetHolds(s, plan, t, spans, week);
  }

  lemma DayInWeek(day: int, info: IndexInfo)
    requires info.year == IsoYear(day) && info.week == IsoWeek(day)
    ensures WeekSpan(info).lo <= DaySpan(day).lo && DaySpan(day).hi <= WeekSpan(info).hi
  {
    hide EpochOf, MondayOf, IsoYear, IsoWeek;
    DayOfWeek(day);
    var monday := MondayOf(info.year, info.week);
    EpochGrows(monday, day);
    EpochGrows(day + 1, monday + 7);
  }
}
