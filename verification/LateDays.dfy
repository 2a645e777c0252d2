/** Weeks that are merged while one of their days still waits, and what becomes of that day. */
module LateDays {
  import opened Documents
  import opened TimeRanges
  import opened Text
  import opened Calendar
  import opened IndexNames
  import opened RollUp
  import opened Validation
  import opened ValidationMeaning
  import opened WeekGroups
  import opened DayMigration
  import opened WeekMigration

  // ----- when a week is merged

  /** A p2 index of this tenant and week. */
  predicate RolledDay(n: string, tenant: string, week: int) {
    && ParseRolledOverV2P2(n).Some?
    && var info := ParseRolledOverV2P2(n).value; info.tenant == tenant && WeekOf(info) == week
  }

  /** A day of this tenant and week that the p1 to p2 migration has yet to roll, of either schema. */
  predicate DayWaits(n: string, tenant: string, week: int) {
    && ParseIndexName(n).Some? && P1Index(n, ParseIndexName(n).value)
    && var info := ParseIndexName(n).value; info.tenant == tenant && WeekOf(info) == week
  }

  ghost predicate Merged(names: seq<string>, today: int, weekDiff: int, tenant: string, week: int) {
    exists job ::
      Selected(job, RolledIn(names), WaitingIn(names), today, weekDiff) && job.tenant == tenant && job.week == week
  }

  /** By the listed names: a week is merged iff it is due, has a p2 index and no v2 index of it waits. */
  lemma WeekMergedIff(names: seq<string>, today: int, weekDiff: int, tenant: string, week: int)
    ensures Merged(names, today, weekDiff, tenant, week) <==>
            && Due(weekDiff, today, week) && (exists n <- names :: RolledDay(n, tenant, week))
            && (forall n <- names :: !Blocks(n, tenant, week))
  {
    hide Due, InWeek, WeekOf, ParseRolledOverV2P2, ParseIndexName, Waits;
    var rolled, waiting := RolledIn(names), WaitingIn(names);
    InWeekEmptyIff(rolled, tenant, week);
    forall info
      ensures info in rolled <==> exists n <- names :: ParseRolledOverV2P2(n) == Some(info)
    {
      RolledInNames(names, info);
    }
    assert (exists n <- names :: RolledDay(n, tenant, week)) <==> InWeek(rolled, tenant, week) != [] by {
      if n :| n in names && RolledDay(n, tenant, week) {
        assert ParseRolledOverV2P2(n).value in rolled;
      }
    }
    NoneBlocksIff(names, tenant, week);
    var job := WeekJob(tenant, week, InWeek(rolled, tenant, week));
    if Due(weekDiff, today, week) && job.indices != [] && InWeek(waiting, tenant, week) == [] {
      assert Selected(job, rolled, waiting, today, weekDiff);
    }
  }

  /** A waiting day is one the merge looks for iff its schema is v2. */
  lemma BlocksIffV2(n: string, tenant: string, week: int)
    requires DayWaits(n, tenant, week)
    ensures Blocks(n, tenant, week) <==> ParseIndexName(n).value.schema == "v2"
  {
    hide ParseIndexName;
    assert n[0] == 'd' by { assert "db_statistics_"[0] == 'd'; }
    assert "rolled_over"[0] == 'r';
    assert "db_statistics_" == "db_statistics" + "_";
  }

  /**
   * A week is merged while one of its days still waits exactly when it is due, has a p2 index, a day of schema v3
   * waits and no v2 index of the week does.
   */
  lemma MergedTooEarlyIff(names: seq<string>, today: int, weekDiff: int, tenant: string, week: int)
    ensures Merged(names, today, weekDiff, tenant, week) && (exists n <- names :: DayWaits(n, tenant, week)) <==>
            && Due(weekDiff, today, week) && (exists n <- names :: RolledDay(n, tenant, week))
            && (exists n <- names :: DayWaits(n, tenant, week) && ParseIndexName(n).value.schema == "v3")
            && (forall n <- names :: !Blocks(n, tenant, week))
  {
    hide Due, Blocks, RolledDay, ParseIndexName, Merged, P1Index, WeekOf;
    WeekMergedIff(names, today, weekDiff, tenant, week);
    forall n <- names | DayWaits(n, tenant, week)
      ensures Blocks(n, tenant, week) || ParseIndexName(n).value.schema == "v3"
    {
      BlocksIffV2(n, tenant, week);
      WaitingSchema(n, tenant, week);
    }
  }

  lemma WaitingSchema(n: string, tenant: string, week: int)
    requires DayWaits(n, tenant, week)
    ensures ParseIndexName(n).value.schema == "v2" || ParseIndexName(n).value.schema == "v3"
  {
    hide ParseIndexName;
  }

  // ----- such lists exist

  ghost function DayTail(year: int, day: int): seq<string> {
    ["y" + Itoa(year), "d" + Itoa(day)]
  }

  ghost function P1Text(tenant: string, schema: string, year: int, day: int): string {
    Join(["db", "statistics", tenant, schema, "p1"] + DayTail(year, day), '_')
  }

  ghost function P2Text(tenant: string, year: int, day: int): string {
    Join(P2Parts(tenant, "1h", DayTail(year, day)), '_')
  }

  lemma TailIsGood(year: int, day: int)
    requires Int64(year) && Int64(day)
    ensures TailParts(DayTail(year, day))
    ensures IndexNames.Tagged(DayTail(year, day)[0], 'y') == Some(year)
    ensures IndexNames.Tagged(DayTail(year, day)[1], 'd') == Some(day)
  {
    hide Itoa, IndexNames.Tagged;
    TaggedItoa('y', year);
    TaggedItoa('d', day);
    assert ['y'] + Itoa(year) == "y" + Itoa(year) && ['d'] + Itoa(day) == "d" + Itoa(day);
  }

  lemma P2TextParses(tenant: string, year: int, day: int)
    requires '_' !in tenant && Int64(year) && Int64(day) && year != 1970
    ensures ParseRolledOverV2P2(P2Text(tenant, year, day)) ==
            Some(IndexInfo(P2Text(tenant, year, day), tenant, year, 0, day, "v2", "p2"))
  {
    hide Itoa, IndexNames.Tagged, ParseRolledOverV2P2, Join;
    TailIsGood(year, day);
    P2PartsParse(tenant, DayTail(year, day), year, day);
  }

  lemma P1TextParses(tenant: string, schema: string, year: int, day: int)
    requires '_' !in tenant && Int64(year) && Int64(day) && year != 1970 && (schema == "v2" || schema == "v3")
    ensures var n := P1Text(tenant, schema, year, day);
            && ParseIndexName(n) == Some(IndexInfo(n, tenant, year, 0, day, schema, "p1"))
            && P1Index(n, ParseIndexName(n).value)
  {
    hide Itoa, IndexNames.Tagged, Join, Split;
    TailIsGood(year, day);
    var n, parts := P1Text(tenant, schema, year, day), ["db", "statistics", tenant, schema, "p1"] + DayTail(year, day);
    SplitJoin(parts, '_');
    assert parts[5] == DayTail(year, day)[0] && parts[6] == DayTail(year, day)[1];
    StartsWithStatistics(parts);
  }

  lemma StartsWithStatistics(parts: seq<string>)
    requires |parts| > 2 && parts[0] == "db" && parts[1] == "statistics"
    ensures "db_statistics_" <= Join(parts, '_')
  {
    hide Join;
    var t := Join(parts[2..], '_');
    assert parts == ["db"] + (["statistics"] + parts[2..]);
    JoinCons("statistics", parts[2..]);
    JoinCons("db", ["statistics"] + parts[2..]);
    StatisticsText(t);
  }

  lemma StatisticsText(t: string)
    ensures "db_statistics_" <= Dash("db", Dash("statistics", t))
  {
    assert "db" + "_" + "statistics" + "_" == "db_statistics_";
    assert Dash("db", Dash("statistics", t)) == "db" + "_" + "statistics" + "_" + t;
  }

  /** Names with day 0 are accepted too; after a leap year the day test calls such an index older than its day. */
  lemma DayZeroIsAccepted(tenant: string, schema: string, year: int)
    requires '_' !in tenant && Int64(year) && Int64(year + 1) && year != 1969 && (schema == "v2" || schema == "v3")
    requires IsLeap(year)
    ensures var n := P1Text(tenant, schema, year + 1, 0);
            && ParseIndexName(n).Some? && P1Index(n, ParseIndexName(n).value)
            && exists today, dayDiff ::
                 dayDiff >= 0 && DueP1(n, today, dayDiff) && today <= DayOf(ParseIndexName(n).value) + dayDiff
  {
    hide P1Text, ParseIndexName, YearOf, YearDay, DayNumber;
    var n := P1Text(tenant, schema, year + 1, 0);
    P1TextParses(tenant, schema, year + 1, 0);
    DayZeroMisread(year);
    var x: int, today: int :|
      && x >= 0 && IsDayDifferenceMoreThan(x, YearOf(today), YearDay(today), year + 1, 0)
      && today <= DayNumber(year + 1, 0) + x;
    assert DueP1(n, today, x);
  }

  /** One day of a week rolled and another, of schema v3, waiting: as soon as the week is due it is merged too early. */
  lemma TwoNamesSuffice(tenant: string, year: int, rolled: int, late: int, today: int, weekDiff: int)
    requires '_' !in tenant && Int64(year) && Int64(rolled) && Int64(late) && year != 1970
    requires IsoYear(DayNumber(year, rolled)) == IsoYear(DayNumber(year, late))
    requires IsoWeek(DayNumber(year, rolled)) == IsoWeek(DayNumber(year, late))
    requires Due(weekDiff, today, YearWeekNumber(IsoYear(DayNumber(year, rolled)), IsoWeek(DayNumber(year, rolled))))
    ensures var names := [P2Text(tenant, year, rolled), P1Text(tenant, "v3", year, late)];
            var week := YearWeekNumber(IsoYear(DayNumber(year, rolled)), IsoWeek(DayNumber(year, rolled)));
            Merged(names, today, weekDiff, tenant, week) && DayWaits(names[1], tenant, week)
  {
    hide Due, ParseRolledOverV2P2, ParseIndexName, P1Text, P2Text, IsoYear, IsoWeek, Merged, P1Index;
    var names := [P2Text(tenant, year, rolled), P1Text(tenant, "v3", year, late)];
    var week := YearWeekNumber(IsoYear(DayNumber(year, rolled)), IsoWeek(DayNumber(year, rolled)));
    P2TextParses(tenant, year, rolled);
    P1TextParses(tenant, "v3", year, late);
    assert RolledDay(names[0], tenant, week) && DayWaits(names[1], tenant, week);
    ParsedHasPrefix(names[0]);
    BlocksIffV2(names[1], tenant, week);
    NotBlocking(names[0], tenant, week);
    WeekMergedIff(names, today, weekDiff, tenant, week);
  }

  lemma NotBlocking(n: string, tenant: string, week: int)
    requires "rolled_over" <= n
    ensures !Blocks(n, tenant, week)
  {
  }

  /** For example January 7, 2025 rolled and January 6, 2025 waiting, looked at a week later. */
  lemma LateMonday()
    ensures var names := [P2Text("t", 2025, 7), P1Text("t", "v3", 2025, 6)];
            var week := YearWeekNumber(IsoYear(DayNumber(2025, 7)), IsoWeek(DayNumber(2025, 7)));
            Merged(names, DayNumber(2025, 14), 0, "t", week) && DayWaits(names[1], "t", week)
  {
    hide IsoYear, IsoWeek, Merged, DayWaits, P1Text, P2Text;
    OneWeekOneDate(DayNumber(2025, 7), DayNumber(2025, 6));
    January2025();
    WeekLaterIsDue(DayNumber(2025, 7));
    TwoNamesSuffice("t", 2025, 7, 6, DayNumber(2025, 14), 0);
  }

  lemma WeekLaterIsDue(day: int)
    requires IsoYear(day) >= 0 && IsoYear(day + 7) == IsoYear(day)
    ensures Due(0, day + 7, YearWeekNumber(IsoYear(day), IsoWeek(day)))
  {
    hide IsoYear, IsoWeek;
    IsoWeekRule(2025, day);
    NextWeek(day);
    YearWeekRoundTripIff(IsoYear(day), IsoWeek(day));
  }

  lemma January2025()
    ensures IsoYear(DayNumber(2025, 7)) == 2025 && IsoYear(DayNumber(2025, 14)) == 2025
  {
    assert YearStart(2025) == 739251 && YearStart(2026) == 739616;
    YearUnique(Thursday(DayNumber(2025, 7)), 2025);
    YearUnique(Thursday(DayNumber(2025, 14)), 2025);
  }

  // ----- what becomes of the late day

  /** Once rolled, a waiting day goes into the same weekly index as the days that were merged before it. */
  lemma LateDayTarget(n: string, tenant: string, week: int)
    requires DayWaits(n, tenant, week)
    ensures RouteP2(DayTarget(n)).Some? && RouteP2(DayTarget(n)).value.target == WeekTarget(tenant, week)
  {
    hide ParseIndexName, ParseRolledOverV2P2, NewIndexNameForRollover, WeekTarget, IsoYear, IsoWeek;
    var info := ParseIndexName(n).value;
    ParsedKeepsName(n);
    assert info.(index := n) == info;
    P2NameParsesBack(n, info);
  }

  /**
   * The cost: the day before a merged day, left waiting, ends in the same weekly index, where the merged day's counts
   * already are; and there its correct roll-up is refused.
   */
  lemma LateDayIsRefused(n: string, merged: IndexInfo, tenant: string, week: int, late: Index, next: Index,
                         nextSrc: string, target: Index, ranges: seq<TimeRange>, minVal: int, maxVal: int,
                         skipTenant: bool, g: Group)
    requires DayWaits(n, tenant, week) && merged.tenant == tenant && WeekOf(merged) == week
    requires var day := DayOf(ParseIndexName(n).value);
             && DayOf(merged) == day + 1 && OneDay(late, EpochOf(day)) && OneDay(next, EpochOf(day) + DAY)
             && EpochOf(day) <= minVal <= maxVal < EpochOf(day) + DAY
             && TrueSum(next, TimeRange(EpochOf(day) + DAY, EpochOf(day) + 2 * DAY + 1), skipTenant, g) != 0
    requires DayTarget(n) != nextSrc
    requires RollsInto(late, DayTarget(n), DAY, target) && RollsInto(next, nextSrc, DAY, target)
    requires forall id <- target :: id.Rolled? && (id.src == DayTarget(n) || id.src == nextSrc)
    requires ValidationMeaning.Tagged(late, skipTenant) && ValidationMeaning.Tagged(next, skipTenant)
    requires Within(late, minVal, maxVal)
    requires Splits(ranges, minVal, maxVal, DAY) && g.operator != ""
    requires Unmasked(late, ranges[0], skipTenant, g) && Unmasked(target, ranges[0], skipTenant, g)
    ensures RouteP2(DayTarget(n)).Some?
    ensures RouteP2(DayTarget(n)).value.target == WeekTarget(merged.tenant, WeekOf(merged))
    ensures !Accepted(late, target, ranges, minVal, skipTenant)
  {
    hide RollsInto, Splits, Unmasked, TrueSum, RouteP2, WeekTarget, DayTarget, WeekOf, EpochOf, P1Index, ParseIndexName,
      Accepted,
      ValidationMeaning.Tagged;
    LateDayTarget(n, tenant, week);
    var day := EpochOf(DayOf(ParseIndexName(n).value));
    LaterDayBlocksEarlier(late, DayTarget(n), next, nextSrc, target, ranges, day, minVal, maxVal, skipTenant, g);
  }
}
