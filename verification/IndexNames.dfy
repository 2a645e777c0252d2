/** Names of statistics indices: how they are built for each phase and which parser takes them. */
module IndexNames {
  import opened Documents
  import opened Text

  datatype IndexInfo = IndexInfo(index: string, tenant: string, year: int, week: int, day: int, schema: string,
    phase: string)

  const ALIAS_PREFIX := "db_statistics_alias_"

  /** The number after a one-letter tag such as y2025 or d12. */
  function Tagged(text: string, tag: char): Option<int> {
    if text != "" && text[0] == tag then Atoi(text[1..]) else None
  }

  /** Indices dated 1970 hold events without a time and are never migrated. */
  function Unless1970(info: IndexInfo): Option<IndexInfo> {
    if info.year != 1970 then Some(info) else None
  }

  function Dated(index: string, tenant: string, schema: string, phase: string, y: string,
                 d: string): Option<IndexInfo> {
    var year, day := Tagged(y, 'y'), Tagged(d, 'd');
    if year.None? || day.None? then None
    else Unless1970(IndexInfo(index, tenant, year.value, 0, day.value, schema, phase))
  }

  function Weekly(index: string, tenant: string, year: Option<int>, week: Option<int>, schema: string,
                  phase: string): Option<IndexInfo> {
    if year.None? || week.None? then None
    else Unless1970(IndexInfo(index, tenant, year.value, week.value, 0, schema, phase))
  }

  function ParseIndexName(index: string): Option<IndexInfo> {
    var p := Split(index, '_');
    if |p| == 5 then Weekly(index, p[2], Atoi(p[3]), Atoi(p[4]), "v1", "p1")
    else if |p| == 6 then Weekly(index, p[2], Atoi(p[4]), Atoi(p[5]), "v1", "p1")
    else if |p| == 7 then
      if p[3] == "v2" || p[3] == "v3" then Dated(index, p[2], p[3], p[4], p[5], p[6]) else None
    else if |p| == 8 then
      if p[3] == "v2" then Dated(index, p[2], p[3], p[4], p[6], p[7]) else None
    else None
  }

  function ParseRolledOverP3OrOlder(index: string): Option<IndexInfo> {
    var p := Split(index, '_');
    if !("rolled_over" <= index) || ContainsFrom(index, "_p4_", 0) then None
    else if |p| == 8 then Weekly(index, p[5], Atoi(p[6]), Atoi(p[7]), "v1", "p0")
    else if |p| == 9 then Weekly(index, p[5], Atoi(p[7]), Atoi(p[8]), "v1", "p0")
    else if |p| == 10 && p[5] == "v2" && p[6] == "p3" then
      Weekly(index, p[7], Tagged(p[8], 'y'), Tagged(p[9], 'w'), p[5], p[6])
    else None
  }

  function ParseRolledOverV2P2(index: string): Option<IndexInfo> {
    var p := Split(index, '_');
    if !("rolled_over" <= index) then None
    else if |p| == 10 then
      if p[6] == "v2" && p[7] == "p2" then Dated(index, p[5], p[6], p[7], p[8], p[9]) else None
    else if |p| == 11 then
      if p[6] == "v2" && p[7] == "p2" then Dated(index, p[5], p[6], p[7], p[9], p[10]) else None
    else None
  }

  /** next: p1 goes to p2 and p2 to p3; other phases have no name of their own to move to. */
  function NextPhase(phase: string): Option<string> {
    if phase == "p1" then Some("p2") else if phase == "p2" then Some("p3") else None
  }

  function NewIndexNameForRollover(info: IndexInfo, window: string): Option<string> {
    var rolled := "rolled_over_" + window + "_db_statistics";
    if info.schema == "v1" then Some(ReplaceAll(info.index, "db_statistics", rolled))
    else if info.schema == "v2" || info.schema == "v3" then
      var next := NextPhase(info.phase);
      if next.None? then None
      else
        var renamed := ReplaceAll(info.index, "_" + info.schema + "_" + info.phase + "_", "_v2_" + next.value + "_");
        Some(ReplaceAll(renamed, "db_statistics", rolled))
    else None
  }

  function P3Name(tenant: string, year: int, week: int): string {
    "rolled_over_1d_db_statistics_v2_p3_" + tenant + "_y" + Itoa(year) + "_w" + Itoa(week)
  }

  function P4Name(tenant: string, year: int): string {
    "rolled_over_1d_db_statistics_v2_p4_" + tenant + "_y" + Itoa(year)
  }

  // ----- p1 to p2

  /** An index the p1 to p2 migration picks up. */
  predicate P1Index(name: string, info: IndexInfo) {
    && "db_statistics_" <= name && ParseIndexName(name) == Some(info)
    && info.phase == "p1" && (info.schema == "v2" || info.schema == "v3")
  }

  ghost predicate TailParts(tail: seq<string>) {
    && 2 <= |tail| <= 3 && (forall p <- tail :: '_' !in p)
    && tail[|tail| - 2] != "" && tail[|tail| - 2][0] == 'y'
    && tail[|tail| - 1] != "" && tail[|tail| - 1][0] == 'd'
  }

  function Middle(tenant: string, schema: string, phase: string, tail: string): string {
    Dash(tenant, Dash(schema, Dash(phase, tail)))
  }

  /** The parts that a p1 name splits into. */
  lemma P1Parts(name: string, info: IndexInfo) returns (tail: seq<string>)
    requires P1Index(name, info)
    ensures TailParts(tail) && '_' !in info.tenant
    ensures Split(name, '_') == ["db", "statistics", info.tenant, info.schema, "p1"] + tail
    ensures Tagged(tail[|tail| - 2], 'y') == Some(info.year) && Tagged(tail[|tail| - 1], 'd') == Some(info.day)
    ensures info.year != 1970
  {
    hide Atoi;
    var p := Split(name, '_');
    SplitPrefix(name, p);
    tail := p[5..];
    assert p == ["db", "statistics", info.tenant, info.schema, "p1"] + tail;
    assert info.tenant in p;
  }

  lemma SplitPrefix(name: string, p: seq<string>)
    requires "db_statistics_" <= name && p == Split(name, '_')
    ensures |p| >= 3 && p[0] == "db" && p[1] == "statistics"
  {
    hide Split;
    var two := name[14..];
    assert name == Dash("db", Dash("statistics", two));
    SplitCons("db", Dash("statistics", two));
    SplitCons("statistics", two);
  }

  lemma JoinMiddle(a: string, b: string, c: string, tail: seq<string>)
    requires |tail| >= 1
    ensures Join([a, b, c] + tail, '_') == Middle(a, b, c, Join(tail, '_'))
  {
    hide Join, Dash;
    assert [a, b, c] + tail == [a] + ([b] + ([c] + tail));
    JoinCons(c, tail);
    JoinCons(b, [c] + tail);
    JoinCons(a, [b] + ([c] + tail));
  }

  lemma P1Text(name: string, tenant: string, schema: string, tail: seq<string>)
    requires |tail| >= 1 && Split(name, '_') == ["db", "statistics", tenant, schema, "p1"] + tail
    ensures name == Dash("db", Dash("statistics", Middle(tenant, schema, "p1", Join(tail, '_'))))
  {
    hide Join, Dash, Split;
    JoinSplit(name, '_');
    var rest := [tenant, schema, "p1"] + tail;
    assert ["db", "statistics", tenant, schema, "p1"] + tail == ["db"] + (["statistics"] + rest);
    JoinCons("statistics", rest);
    JoinCons("db", ["statistics"] + rest);
    JoinMiddle(tenant, schema, "p1", tail);
  }

  /** The tail holds no further schema and phase pair. */
  lemma TailUntouched(tail: seq<string>, schema: string, new_: string)
    requires TailParts(tail) && (schema == "v2" || schema == "v3")
    ensures ReplaceAll(Join(tail, '_'), "_" + Dash(schema, Dash("p1", "")), new_) == Join(tail, '_')
  {
    var old_ := "_" + Dash(schema, Dash("p1", ""));
    var n := |tail|;
    var y, d := tail[n - 2], tail[n - 1];
    assert y in tail && d in tail && tail[0] in tail;
    assert d + "" == d && ReplaceAll("", old_, new_) == "";
    ReplaceSkips(d, "", old_, new_);
    assert !(old_ <= "_" + d) by {
      assert old_[3] == '_';
      assert |d| >= 3 ==> ("_" + d)[3] == d[2];
    }
    ReplaceDash(y, d, old_, new_);
    assert Join([y, d], '_') == Dash(y, d) by { assert [y, d][1..] == [d]; }
    if n == 2 {
      assert tail == [y, d];
    } else {
      assert tail == [tail[0]] + [y, d];
      JoinCons(tail[0], [y, d]);
      assert !(old_ <= "_" + Dash(y, d)) by { assert old_[1] == 'v' && ("_" + Dash(y, d))[1] == 'y'; }
      ReplaceDash(tail[0], Dash(y, d), old_, new_);
    }
  }

  lemma UnderscorePrefix(a: string, b: string)
    ensures "_" + a <= "_" + b <==> a <= b
  {
    assert ("_" + b)[1..] == b && ("_" + a)[1..] == a;
    if "_" + a <= "_" + b {
      assert ("_" + b)[..|a| + 1][1..] == b[..|a|];
    }
  }

  /** Replacing the phase changes that one word pair and nothing else. */
  lemma PhaseReplaced(tenant: string, schema: string, tail: seq<string>)
    requires TailParts(tail) && '_' !in tenant && (schema == "v2" || schema == "v3")
    ensures var r := Join(tail, '_');
            ReplaceAll(Dash("db", Dash("statistics", Middle(tenant, schema, "p1", r))),
                       "_" + Dash(schema, Dash("p1", "")), "_v2_p2_") ==
            Dash("db", Dash("statistics", Middle(tenant, "v2", "p2", r)))
  {
    hide Join, Dash, Middle, ReplaceAll;
    var r, old_, new_ := Join(tail, '_'), PhaseText(schema), "_v2_p2_";
    var m := Middle(tenant, schema, "p1", r);
    TailUntouched(tail, schema, new_);
    PhaseInMiddle(tenant, schema, r);
    ReplaceHit(tenant, r, old_, new_);
    PhaseNotNext(tenant, schema, r);
    ReplaceDash("statistics", m, old_, new_);
    ReplaceDash("db", Dash("statistics", m), old_, new_);
  }

  function PhaseText(schema: string): string {
    "_" + Dash(schema, Dash("p1", ""))
  }

  lemma PhaseInMiddle(tenant: string, schema: string, r: string)
    requires '_' !in tenant
    ensures Middle(tenant, schema, "p1", r) == tenant + PhaseText(schema) + r
    ensures tenant + "_v2_p2_" + r == Middle(tenant, "v2", "p2", r)
    ensures PhaseText(schema) != "" && PhaseText(schema)[0] == '_'
  {
    assert PhaseText(schema) == "_" + schema + "_p1_";
    assert Middle(tenant, schema, "p1", r) == tenant + ("_" + schema + "_p1_") + r;
  }

  /** Neither the tenant nor the words before it are taken for a schema. */
  lemma PhaseNotNext(tenant: string, schema: string, r: string)
    requires '_' !in tenant && (schema == "v2" || schema == "v3")
    ensures var m := Middle(tenant, schema, "p1", r);
            !(PhaseText(schema) <= "_" + m) && !(PhaseText(schema) <= "_" + Dash("statistics", m))
  {
    hide Dash;
    var m := Middle(tenant, schema, "p1", r);
    UnderscorePrefix(Dash(schema, Dash("p1", "")), m);
    DashStarts(tenant, Dash(schema, Dash("p1", r)), schema, Dash("p1", ""));
    DashStarts(schema, Dash("p1", r), "p1", "");
    UnderscorePrefix(Dash(schema, Dash("p1", "")), Dash("statistics", m));
    DashStarts("statistics", m, schema, Dash("p1", ""));
  }

  /** The prefix is replaced once: no tenant or tail brings a second "db_statistics" with it. */
  lemma PrefixReplaced(tenant: string, tail: seq<string>, window: string)
    requires |tail| >= 1 && TailParts(tail) && '_' !in tenant
    ensures var m := Middle(tenant, "v2", "p2", Join(tail, '_'));
            ReplaceAll(Dash("db", Dash("statistics", m)), "db_statistics",
                       "rolled_over_" + window + "_db_statistics") ==
            "rolled_over_" + window + "_db_statistics" + "_" + m
  {
    hide Join, TailParts, ReplaceAll, Contains;
    var m := Middle(tenant, "v2", "p2", Join(tail, '_'));
    var parts := ["", tenant, "v2", "p2"] + tail;
    assert "_" + m == Join(parts, '_') by {
      JoinMiddle(tenant, "v2", "p2", tail);
      assert parts == [""] + ([tenant, "v2", "p2"] + tail);
      JoinCons("", [tenant, "v2", "p2"] + tail);
    }
    NoSecondPrefix(tenant, tail);
    ReplaceAbsent("_" + m, "db_statistics", "rolled_over_" + window + "_db_statistics");
    assert Dash("db", Dash("statistics", m)) == "" + "db_statistics" + ("_" + m);
    ReplaceHit("", "_" + m, "db_statistics", "rolled_over_" + window + "_db_statistics");
  }

  lemma NoSecondPrefix(tenant: string, tail: seq<string>)
    requires TailParts(tail) && '_' !in tenant
    ensures !Contains(Join(["", tenant, "v2", "p2"] + tail, '_'), "db_statistics")
  {
    var parts := ["", tenant, "v2", "p2"] + tail;
    var n := |parts|;
    assert parts[n - 2] == tail[|tail| - 2] && parts[n - 1] == tail[|tail| - 1];
    assert "db" + ['_'] + "statistics" == "db_statistics";
    JoinContainsPair(parts, '_', "db", "statistics");
  }

  ghost function P2Parts(tenant: string, window: string, tail: seq<string>): seq<string> {
    ["rolled", "over", window, "db", "statistics", tenant, "v2", "p2"] + tail
  }

  lemma P2Text(tenant: string, window: string, tail: seq<string>)
    requires |tail| >= 1
    ensures "rolled_over_" + window + "_db_statistics" + "_" + Middle(tenant, "v2", "p2", Join(tail, '_')) ==
            Join(P2Parts(tenant, window, tail), '_')
  {
    hide Join, Middle, Dash, P2Parts;
    var m := Middle(tenant, "v2", "p2", Join(tail, '_'));
    RolledText(window, m);
    P2PartsText(tenant, window, tail);
  }

  lemma P2PartsText(tenant: string, window: string, tail: seq<string>)
    requires |tail| >= 1
    ensures var m := Middle(tenant, "v2", "p2", Join(tail, '_'));
            Join(P2Parts(tenant, window, tail), '_') ==
              Dash("rolled", Dash("over", Dash(window, Dash("db", Dash("statistics", m)))))
  {
    hide Join, Middle, Dash;
    var three := [tenant, "v2", "p2"] + tail;
    JoinMiddle(tenant, "v2", "p2", tail);
    TenParts("rolled", "over", window, "db", "statistics", three);
    assert P2Parts(tenant, window, tail) == ["rolled", "over", window, "db", "statistics"] + three;
  }

  lemma RolledText(window: string, m: string)
    ensures "rolled_over_" + window + "_db_statistics" + "_" + m ==
            Dash("rolled", Dash("over", Dash(window, Dash("db", Dash("statistics", m)))))
  {
    var x := Dash("db", Dash("statistics", m));
    assert x == "db_statistics_" + m;
    var y := Dash(window, x);
    assert y == window + "_db_statistics" + ("_" + m);
    assert Dash("rolled", Dash("over", y)) == "rolled_over_" + y;
  }

  /**
   * The p2 name of any p1 index, of either schema, parses back to the same tenant, year and day with
   * schema v2 and phase p2, and neither of the other parsers accepts it.
   */
  lemma P2NameParsesBack(name: string, info: IndexInfo)
    requires P1Index(name, info)
    ensures var p2 := NewIndexNameForRollover(info.(index := name), "1h");
            && p2.Some?
            && ParseRolledOverV2P2(p2.value) ==
               Some(IndexInfo(p2.value, info.tenant, info.year, 0, info.day, "v2", "p2"))
            && ParseRolledOverP3OrOlder(p2.value) == None && ParseIndexName(p2.value) == None
            && |Split(name, '_')| >= 5
            && Split(p2.value, '_') ==
               ["rolled", "over", "1h", "db", "statistics", info.tenant, "v2", "p2"] + Split(name, '_')[5..]
  {
    hide Atoi, Join, Split, ReplaceAll, Dash, Middle, TailParts;
    var tail := P1Parts(name, info);
    P1Text(name, info.tenant, info.schema, tail);
    PhaseReplaced(info.tenant, info.schema, tail);
    PatternText(info.schema);
    PrefixReplaced(info.tenant, tail, "1h");
    P2Text(info.tenant, "1h", tail);
    P2PartsParse(info.tenant, tail, info.year, info.day);
    P2PartsSplit(info.tenant, tail);
    assert Split(name, '_')[5..] == tail;
  }

  lemma P2PartsSplit(tenant: string, tail: seq<string>)
    requires TailParts(tail) && '_' !in tenant
    ensures Split(Join(P2Parts(tenant, "1h", tail), '_'), '_') == P2Parts(tenant, "1h", tail)
  {
    hide Join, Split;
    SplitJoin(P2Parts(tenant, "1h", tail), '_');
  }

  lemma PatternText(schema: string)
    ensures "_" + schema + "_" + "p1" + "_" == "_" + Dash(schema, Dash("p1", "")) && "_v2_" + "p2" + "_" == "_v2_p2_"
  {
  }

  lemma P2PartsParse(tenant: string, tail: seq<string>, year: int, day: int)
    requires TailParts(tail) && '_' !in tenant && year != 1970
    requires Tagged(tail[|tail| - 2], 'y') == Some(year) && Tagged(tail[|tail| - 1], 'd') == Some(day)
    ensures var p2 := Join(P2Parts(tenant, "1h", tail), '_');
            && ParseRolledOverV2P2(p2) == Some(IndexInfo(p2, tenant, year, 0, day, "v2", "p2"))
            && ParseRolledOverP3OrOlder(p2) == None && ParseIndexName(p2) == None
  {
    hide Atoi, Join, Split, Tagged;
    var parts := P2Parts(tenant, "1h", tail);
    SplitJoin(parts, '_');
    RolledPrefix(parts);
  }

  lemma RolledPrefix(parts: seq<string>)
    requires |parts| > 2 && parts[0] == "rolled" && parts[1] == "over"
    ensures "rolled_over" <= Join(parts, '_')
  {
    hide Join, Dash;
    var t := Join(parts[2..], '_');
    assert parts == ["rolled"] + (["over"] + parts[2..]);
    JoinCons("over", parts[2..]);
    JoinCons("rolled", ["over"] + parts[2..]);
    RolledOverText(t);
  }

  lemma RolledOverText(t: string)
    ensures "rolled_over" <= Dash("rolled", Dash("over", t))
  {
    assert "rolled" + "_" + "over" == "rolled_over";
    assert Dash("rolled", Dash("over", t)) == "rolled" + "_" + "over" + ("_" + t);
  }

  // ----- p3 and p4

  ghost function P3Parts(tenant: string, year: int, week: int): seq<string> {
    ["rolled", "over", "1d", "db", "statistics", "v2", "p3", tenant, "y" + Itoa(year), "w" + Itoa(week)]
  }

  ghost function P4Parts(tenant: string, year: int): seq<string> {
    ["rolled", "over", "1d", "db", "statistics", "v2", "p4", tenant, "y" + Itoa(year)]
  }

  lemma TailText(phase: string, tenant: string, y: string)
    ensures "rolled_over_1d_db_statistics" + "_" + Dash("v2", Dash(phase, Dash(tenant, y))) ==
            "rolled_over_1d_db_statistics_v2_" + phase + "_" + tenant + "_" + y
  {
    var t := Dash(tenant, y);
    assert Dash("v2", Dash(phase, t)) == "v2_" + (phase + "_" + t);
    assert "rolled_over_1d_db_statistics" + "_" + ("v2_" + (phase + "_" + t)) ==
           "rolled_over_1d_db_statistics_v2_" + (phase + "_" + t);
    assert "rolled_over_1d_db_statistics_v2_" + (phase + "_" + t) ==
           "rolled_over_1d_db_statistics_v2_" + phase + "_" + t;
  }

  lemma OneDayText(m: string)
    ensures Dash("rolled", Dash("over", Dash("1d", Dash("db", Dash("statistics", m))))) ==
            "rolled_over_1d_db_statistics" + "_" + m
  {
    RolledText("1d", m);
    assert "rolled_over_" + "1d" + "_db_statistics" == "rolled_over_1d_db_statistics";
  }

  lemma P3Flat(tenant: string, year: int, week: int)
    ensures P3Name(tenant, year, week) ==
            "rolled_over_1d_db_statistics_v2_" + "p3" + "_" + tenant + "_" + Dash("y" + Itoa(year), "w" + Itoa(week))
  {
    hide Itoa;
    var head, yy, ww := "rolled_over_1d_db_statistics_v2_p3_" + tenant, Itoa(year), Itoa(week);
    assert "rolled_over_1d_db_statistics_v2_" + "p3" + "_" == "rolled_over_1d_db_statistics_v2_p3_";
    assert head + "_y" + yy + "_w" + ww == head + "_" + Dash("y" + yy, "w" + ww);
  }

  lemma P3Text(tenant: string, year: int, week: int)
    ensures P3Name(tenant, year, week) == Join(P3Parts(tenant, year, week), '_')
  {
    var y, w := "y" + Itoa(year), "w" + Itoa(week);
    P3Flat(tenant, year, week);
    hide P3Name;
    hide Join, Itoa, Dash;
    TenParts("rolled", "over", "1d", "db", "statistics", ["v2", "p3", tenant, y, w]);
    FiveParts("v2", "p3", tenant, y, w);
    assert P3Parts(tenant, year, week) == ["rolled", "over", "1d", "db", "statistics"] + ["v2", "p3", tenant, y, w];
    TailText("p3", tenant, Dash(y, w));
    OneDayText(Dash("v2", Dash("p3", Dash(tenant, Dash(y, w)))));
  }

  lemma P4Flat(tenant: string, year: int)
    ensures P4Name(tenant, year) == "rolled_over_1d_db_statistics_v2_" + "p4" + "_" + tenant + "_" + ("y" + Itoa(year))
  {
    hide Itoa;
    assert "rolled_over_1d_db_statistics_v2_" + "p4" + "_" == "rolled_over_1d_db_statistics_v2_p4_";
    assert "_y" + Itoa(year) == "_" + ("y" + Itoa(year));
  }

  lemma P4Text(tenant: string, year: int)
    ensures P4Name(tenant, year) == Join(P4Parts(tenant, year), '_')
  {
    var y := "y" + Itoa(year);
    P4Flat(tenant, year);
    assert Join([y], '_') == y;
    hide Join, Itoa, Dash, P4Name;
    var rest := ["v2", "p4", tenant] + [y];
    TenParts("rolled", "over", "1d", "db", "statistics", rest);
    JoinMiddle("v2", "p4", tenant, [y]);
    assert P4Parts(tenant, year) == ["rolled", "over", "1d", "db", "statistics"] + rest;
    TailText("p4", tenant, y);
    OneDayText(Dash("v2", Dash("p4", Dash(tenant, y))));
  }

  predicate Int64(n: int) {
    -MAX_INT - 1 <= n <= MAX_INT
  }

  lemma TaggedItoa(tag: char, n: int)
    requires Int64(n) && tag != '_'
    ensures Tagged([tag] + Itoa(n), tag) == Some(n) && '_' !in [tag] + Itoa(n)
  {
    AtoiItoa(n);
    assert ([tag] + Itoa(n))[1..] == Itoa(n);
  }

  /**
   * A p3 name parses back to its tenant, year and week exactly when the tenant is not "p4" and the year
   * is not 1970; the other parsers never accept it.
   */
  lemma P3NameParsesBackIff(tenant: string, year: int, week: int)
    requires '_' !in tenant && Int64(year) && Int64(week)
    ensures var p3 := P3Name(tenant, year, week);
            && (ParseRolledOverP3OrOlder(p3) == Some(IndexInfo(p3, tenant, year, week, 0, "v2", "p3")) <==>
                tenant != "p4" && year != 1970)
            && (tenant == "p4" || year == 1970 ==> ParseRolledOverP3OrOlder(p3) == None)
            && ParseRolledOverV2P2(p3) == None && ParseIndexName(p3) == None
  {
    hide Join, Split, Itoa, Atoi, Tagged;
    var parts := P3Parts(tenant, year, week);
    P3Text(tenant, year, week);
    TaggedItoa('y', year);
    TaggedItoa('w', week);
    SplitJoin(parts, '_');
    RolledPrefix(parts);
    JoinContains(parts, '_', "p4");
    assert "_" + "p4" + "_" == "_p4_";
    assert parts[7] == tenant && parts[8][0] == 'y';
    assert (exists i :: 0 < i < |parts| - 1 && parts[i] == "p4") <==> tenant == "p4";
    assert ContainsFrom(P3Name(tenant, year, week), "_p4_", 0) <==> Contains(P3Name(tenant, year, week), "_p4_");
  }

  /** The names of the weekly and yearly indices, for example. */
  lemma NamesAsWritten()
    ensures P3Name("t", 2025, 4) == "rolled_over_1d_db_statistics_v2_p3_t_y2025_w4"
    ensures P4Name("t", 2025) == "rolled_over_1d_db_statistics_v2_p4_t_y2025"
  {
    assert Digits(2) == "2" && Digits(20) == "20" && Digits(202) == "202";
    assert Itoa(2025) == "2025" && Itoa(4) == "4";
    hide Itoa;
    assert "rolled_over_1d_db_statistics_v2_p3_" + "t" + "_y" + "2025" == "rolled_over_1d_db_statistics_v2_p3_t_y2025";
    assert "rolled_over_1d_db_statistics_v2_p3_t_y2025" + "_w" + "4" == "rolled_over_1d_db_statistics_v2_p3_t_y2025_w4";
    assert "rolled_over_1d_db_statistics_v2_p4_" + "t" + "_y" + "2025" == "rolled_over_1d_db_statistics_v2_p4_t_y2025";
  }

  /** Older names: a rolled-over index of the first schema is of the tenant, year and week in its last parts. */
  lemma OldNameParses(tenant: string, more: seq<string>, year: int, week: int)
    requires '_' !in tenant && tenant != "p4" && Int64(year) && Int64(week) && year != 1970
    requires |more| <= 1 && forall p <- more :: '_' !in p && p != "p4"
    ensures var n := Join(["rolled", "over", "1d", "db", "statistics", tenant] + more + [Itoa(year), Itoa(week)], '_');
            ParseRolledOverP3OrOlder(n) == Some(IndexInfo(n, tenant, year, week, 0, "v1", "p0"))
  {
    hide Join, Split, Itoa, Atoi, ParseRolledOverP3OrOlder;
    var parts := ["rolled", "over", "1d", "db", "statistics", tenant] + more + [Itoa(year), Itoa(week)];
    AtoiItoa(year);
    AtoiItoa(week);
    NumberIsNoPhase(year);
    assert forall p <- parts :: '_' !in p;
    SplitJoin(parts, '_');
    RolledPrefix(parts);
    assert "1d"[0] == '1' && "db"[0] == 'd' && "p4"[0] == 'p' && |"over"| == 4 && |"statistics"| == 10;
    forall i | 0 < i < |parts| - 1 ensures parts[i] != "p4" {
      assert i >= 6 ==> parts[i] == Itoa(year) || parts[i] in more;
    }
    NoPhaseFour(parts);
    OldPartsParse(Join(parts, '_'), parts, tenant, year, week);
  }

  lemma NoPhaseFour(parts: seq<string>)
    requires |parts| >= 1 && (forall p <- parts :: '_' !in p) && forall i :: 0 < i < |parts| - 1 ==> parts[i] != "p4"
    ensures !ContainsFrom(Join(parts, '_'), "_p4_", 0)
  {
    hide Join;
    JoinContains(parts, '_', "p4");
    assert "_" + "p4" + "_" == "_p4_";
    assert ContainsFrom(Join(parts, '_'), "_p4_", 0) <==> Contains(Join(parts, '_'), "_p4_");
  }

  lemma OldPartsParse(n: string, parts: seq<string>, tenant: string, year: int, week: int)
    requires Split(n, '_') == parts && 8 <= |parts| <= 9 && parts[5] == tenant && year != 1970
    requires "rolled_over" <= n && !ContainsFrom(n, "_p4_", 0)
    requires Atoi(parts[|parts| - 2]) == Some(year) && Atoi(parts[|parts| - 1]) == Some(week)
    ensures ParseRolledOverP3OrOlder(n) == Some(IndexInfo(n, tenant, year, week, 0, "v1", "p0"))
  {
    hide Split, Atoi, ContainsFrom;
  }

  lemma NumberIsNoPhase(n: int)
    requires Int64(n)
    ensures Itoa(n) != "p4"
  {
    hide Itoa, Atoi;
    AtoiItoa(n);
    LettersAreNoNumber("");
  }

  /** A p4 name is final: no parser accepts it, so nothing is migrated out of p4. */
  lemma P4NameIsFinal(tenant: string, year: int)
    requires '_' !in tenant && Int64(year)
    ensures var p4 := P4Name(tenant, year);
            ParseRolledOverP3OrOlder(p4) == None && ParseRolledOverV2P2(p4) == None && ParseIndexName(p4) == None
  {
    hide Join, Split, Itoa, Atoi, Tagged;
    var parts := P4Parts(tenant, year);
    P4Text(tenant, year);
    TaggedItoa('y', year);
    SplitJoin(parts, '_');
    JoinContains(parts, '_', "p4");
    assert "_" + "p4" + "_" == "_p4_" && parts[6] == "p4";
    assert ContainsFrom(P4Name(tenant, year), "_p4_", 0) <==> Contains(P4Name(tenant, year), "_p4_");
  }

  lemma ItoaHasNoUnderscore(n: int)
    ensures '_' !in Itoa(n)
  {
  }

  /** No migration writes into an index that it also reads as a source. */
  lemma TargetsAreNotSources(name: string, info: IndexInfo, tenant: string, year: int, week: int, p2: string,
                             p3: string)
    requires '_' !in tenant
    ensures P1Index(name, info) ==>
              var t := NewIndexNameForRollover(info.(index := name), "1h"); t.Some? && ParseIndexName(t.value) == None
    ensures ParseRolledOverV2P2(p2).Some? ==> P3Name(tenant, year, week) != p2
    ensures ParseRolledOverP3OrOlder(p3).Some? ==> P4Name(tenant, year) != p3
  {
    hide NewIndexNameForRollover, ParseIndexName, ParseRolledOverV2P2, ParseRolledOverP3OrOlder, P3Name, P4Name;
    if P1Index(name, info) {
      P2NameParsesBack(name, info);
    }
    P3IsNotP2(tenant, year, week);
    P4IsNotP3(tenant, year);
  }

  lemma P3IsNotP2(tenant: string, year: int, week: int)
    requires '_' !in tenant
    ensures ParseRolledOverV2P2(P3Name(tenant, year, week)) == None
  {
    hide Join, Split, Itoa, Atoi, Tagged;
    var parts := P3Parts(tenant, year, week);
    P3Text(tenant, year, week);
    ItoaHasNoUnderscore(year);
    ItoaHasNoUnderscore(week);
    assert '_' !in "y" + Itoa(year) && '_' !in "w" + Itoa(week);
    SplitJoin(parts, '_');
  }

  lemma P3KeepsTenant(tenant: string, year: int, week: int)
    requires '_' !in tenant
    ensures var p := ParseRolledOverP3OrOlder(P3Name(tenant, year, week)); p.Some? ==> p.value.tenant == tenant
  {
    hide Join, Split, Itoa, Atoi, Tagged, ContainsFrom;
    var parts := P3Parts(tenant, year, week);
    P3Text(tenant, year, week);
    ItoaHasNoUnderscore(year);
    ItoaHasNoUnderscore(week);
    assert '_' !in "y" + Itoa(year) && '_' !in "w" + Itoa(week);
    SplitJoin(parts, '_');
    assert parts[7] == tenant;
  }

  lemma P4IsNotP3(tenant: string, year: int)
    requires '_' !in tenant
    ensures ParseRolledOverP3OrOlder(P4Name(tenant, year)) == None
  {
    hide Join, Split, Itoa, Atoi, Tagged;
    var parts := P4Parts(tenant, year);
    P4Text(tenant, year);
    ItoaHasNoUnderscore(year);
    assert '_' !in "y" + Itoa(year);
    JoinContains(parts, '_', "p4");
    assert "_" + "p4" + "_" == "_p4_" && parts[6] == "p4";
    assert ContainsFrom(P4Name(tenant, year), "_p4_", 0) <==> Contains(P4Name(tenant, year), "_p4_");
  }

  lemma P4Split(tenant: string, year: int)
    requires '_' !in tenant
    ensures Split(P4Name(tenant, year), '_') == P4Parts(tenant, year)
  {
    hide Join, Split, Itoa, P4Name;
    P4Text(tenant, year);
    ItoaHasNoUnderscore(year);
    assert '_' !in "y" + Itoa(year);
    SplitJoin(P4Parts(tenant, year), '_');
  }

  lemma LettersAreNoNumber(s: string)
    ensures Atoi("p4") == None && (s == "" || s[0] == 'y' ==> Atoi(s) == None)
  {
    assert "p4"[0] == 'p';
    if s != "" && s[0] == 'y' {
      assert !IsDigit(s[0]) && s[0] in s;
    }
  }

  /** Neither what a p4 name starts nor what starts a p4 name is taken for a p3 or older index. */
  lemma P3AndP4Apart(name: string, tenant: string, year: int)
    requires '_' !in tenant && (name <= P4Name(tenant, year) || P4Name(tenant, year) <= name)
    ensures ParseRolledOverP3OrOlder(name) == None
  {
    hide Split, P4Name, Weekly, Atoi, Tagged;
    P4Holds(tenant, year);
    if P4Name(tenant, year) <= name {
      HoldsWithPrefix(P4Name(tenant, year), name, "_p4_");
    } else {
      StartOfP4(name, tenant, year);
    }
  }

  lemma StartOfP4(name: string, tenant: string, year: int)
    requires '_' !in tenant && name <= P4Name(tenant, year)
    ensures ParseRolledOverP3OrOlder(name) == None
  {
    hide Split, Itoa, Atoi, Tagged, P4Name, ContainsFrom;
    var q, p := P4Parts(tenant, year), Split(name, '_');
    P4Split(tenant, year);
    SplitOfPrefix(name, P4Name(tenant, year), '_');
    LettersAreNoNumber(p[|p| - 1]);
    if |p| == 8 {
      assert p[6] == p[..7][6] && q[6] == q[..7][6];
    } else if |p| == 9 {
      assert p[8] <= q[8] && q[8][0] == 'y';
    }
  }

  lemma P4Holds(tenant: string, year: int)
    requires '_' !in tenant
    ensures ContainsFrom(P4Name(tenant, year), "_p4_", 0)
  {
    hide Join, Split, Itoa, P4Name;
    var parts := P4Parts(tenant, year);
    P4Text(tenant, year);
    ItoaHasNoUnderscore(year);
    assert '_' !in "y" + Itoa(year);
    JoinContains(parts, '_', "p4");
    assert "_" + "p4" + "_" == "_p4_" && parts[6] == "p4";
  }

  lemma HoldsWithPrefix(a: string, b: string, pat: string)
    requires a <= b && ContainsFrom(a, pat, 0)
    ensures ContainsFrom(b, pat, 0)
  {
    var j: nat :| OccursAt(a, pat, j);
    assert b[j..j + |pat|] == a[j..j + |pat|];
    assert OccursAt(b, pat, j);
  }

  /** One p4 name starts another only for the same tenant and years that are equal or no neighbours. */
  lemma P4Prefix(tenant: string, year: int, tenant': string, year': int)
    requires '_' !in tenant && '_' !in tenant' && P4Name(tenant, year) <= P4Name(tenant', year')
    ensures tenant == tenant' && (year' == year || year' >= year + 2 || year' <= year - 2)
  {
    hide Split, Itoa, P4Name;
    var p, q := P4Parts(tenant, year), P4Parts(tenant', year');
    P4Split(tenant, year);
    P4Split(tenant', year');
    SplitOfPrefix(P4Name(tenant, year), P4Name(tenant', year'), '_');
    assert tenant == p[..8][7] == q[..8][7] == tenant';
    assert p[8] <= q[8] && p[8][1..] == Itoa(year) && q[8][1..] == Itoa(year');
    if year != year' {
      ItoaPrefix(year, year');
    }
  }

  lemma P4NameInjective(tenant: string, year: int, tenant': string, year': int)
    requires '_' !in tenant && '_' !in tenant' && Int64(year) && Int64(year')
    requires P4Name(tenant, year) == P4Name(tenant', year')
    ensures tenant == tenant' && year == year'
  {
    hide Split, Itoa, Atoi, P4Name;
    var p, q := P4Parts(tenant, year), P4Parts(tenant', year');
    P4Split(tenant, year);
    P4Split(tenant', year');
    assert p[7] == q[7] && p[8] == q[8] && p[8][1..] == Itoa(year) && q[8][1..] == Itoa(year');
    AtoiItoa(year);
    AtoiItoa(year');
  }

  lemma ParsedYearFits(name: string)
    requires ParseRolledOverP3OrOlder(name).Some?
    ensures Int64(ParseRolledOverP3OrOlder(name).value.year)
  {
    hide Split, ContainsFrom, Value;
  }

  /** A parsed index keeps its name, and its tenant is one word. */
  lemma ParsedKeepsName(name: string)
    ensures ParseRolledOverV2P2(name).Some? ==>
      ParseRolledOverV2P2(name).value.index == name && '_' !in ParseRolledOverV2P2(name).value.tenant
    ensures ParseRolledOverP3OrOlder(name).Some? ==>
      ParseRolledOverP3OrOlder(name).value.index == name && '_' !in ParseRolledOverP3OrOlder(name).value.tenant
    ensures ParseIndexName(name).Some? ==> ParseIndexName(name).value.index == name
  {
    hide Split, Atoi, Tagged, ContainsFrom;
    var p := Split(name, '_');
    assert forall i :: 0 <= i < |p| ==> p[i] in p;
  }

  // ----- document ids

  /** The text that newDocKey hashes. */
  function DocKeyParts(k: Key, src: string): seq<string> {
    [k.name, k.namespace, k.sourceId, k.destinationId, k.ruleId, k.fleetNodeId, k.operatorId, k.targetNodeId,
     k.routeKey, src, Itoa(k.bucket)]
  }

  function DocKeyText(k: Key, src: string): string {
    Join(DocKeyParts(k, src), ':')
  }

  predicate ColonFree(k: Key, src: string) {
    forall p <- DocKeyParts(k, src) :: ':' !in p
  }

  /** Without colons in the tags the hashed text determines the bucket and the source index. */
  lemma DocKeyTextInjective(k: Key, src: string, k': Key, src': string)
    requires ColonFree(k, src) && ColonFree(k', src') && DocKeyText(k, src) == DocKeyText(k', src')
    requires Int64(k.bucket) && Int64(k'.bucket)
    ensures k == k' && src == src'
  {
    hide Join, Split, Itoa;
    var a, b := DocKeyParts(k, src), DocKeyParts(k', src');
    SplitJoin(a, ':');
    SplitJoin(b, ':');
    assert a[0] == b[0] && a[1] == b[1] && a[2] == b[2] && a[3] == b[3] && a[4] == b[4] && a[5] == b[5] && a[6] == b[6];
    assert a[7] == b[7] && a[8] == b[8] && a[9] == b[9] && a[10] == b[10];
    AtoiItoa(k.bucket);
    AtoiItoa(k'.bucket);
  }

  ghost function KeyOfTags(tags: seq<string>, bucket: int): Key
    requires |tags| == 10
  {
    Key(tags[0], tags[1], tags[2], tags[3], tags[4], tags[5], tags[6], tags[7], tags[8], bucket)
  }

  lemma ItoaHasNoColon(n: int)
    ensures ':' !in Itoa(n)
  {
  }

  /** Some colon can be moved: other tags with the same text. */
  lemma ColonMoves(k: Key, src: string) returns (k': Key, src': string)
    requires !ColonFree(k, src)
    ensures DocKeyText(k', src') == DocKeyText(k, src) && !(k' == k && src' == src) && k'.bucket == k.bucket
  {
    hide Join, Itoa;
    ItoaHasNoColon(k.bucket);
    var tags := DocKeyParts(k, src)[..10];
    assert DocKeyParts(k, src) == tags + [Itoa(k.bucket)];
    var tags' := SeparatorMoves(tags, ':', Itoa(k.bucket));
    k', src' := KeyOfTags(tags', k.bucket), tags'[9];
    assert DocKeyParts(k', src') == tags' + [Itoa(k.bucket)];
    assert tags' == DocKeyParts(k', src')[..10];
  }

  /** No other bucket or source has the same text. */
  ghost predicate OwnText(k: Key, src: string) {
    forall k': Key, src': string :: Int64(k'.bucket) && DocKeyText(k', src') == DocKeyText(k, src) ==>
      k' == k && src' == src
  }

  /** A bucket and its source own their text exactly when neither the tags nor the source holds a colon. */
  lemma DocKeyUniqueIff(k: Key, src: string)
    requires Int64(k.bucket)
    ensures OwnText(k, src) <==> ColonFree(k, src)
  {
    hide Join, Split, Itoa;
    if ColonFree(k, src) {
      forall k': Key, src': string | Int64(k'.bucket) && DocKeyText(k', src') == DocKeyText(k, src)
        ensures k' == k && src' == src
      {
        SplitCount(DocKeyParts(k, src), ':');
        SplitCount(DocKeyParts(k', src'), ':');
        DocKeyTextInjective(k, src, k', src');
      }
    } else {
      var k', src' := ColonMoves(k, src);
      assert DocKeyText(k', src') == DocKeyText(k, src);
    }
  }

  /** With a colon in a tag two buckets can share the text, and so the document id. */
  lemma ColonCollides()
    ensures var k, k' := Key("a:b", "c", "", "", "", "", "", "", "", 0), Key("a", "b:c", "", "", "", "", "", "", "", 0);
            k != k' && DocKeyText(k, "i") == DocKeyText(k', "i")
  {
    var k, k' := Key("a:b", "c", "", "", "", "", "", "", "", 0), Key("a", "b:c", "", "", "", "", "", "", "", 0);
    hide Join, Itoa;
    var rest := ["", "", "", "", "", "", "", "i", Itoa(0)];
    assert DocKeyParts(k, "i") == ["a:b", "c"] + rest && DocKeyParts(k', "i") == ["a", "b:c"] + rest;
    JoinTwo("a:b", "c", rest, ':');
    JoinTwo("a", "b:c", rest, ':');
    SameColonText(Join(rest, ':'));
  }

  lemma SameColonText(t: string)
    ensures "a:b" + ":" + ("c" + ":" + t) == "a" + ":" + ("b:c" + ":" + t)
  {
    assert "a:b" + ":" + ("c" + ":" + t) == "a:b:c:" + t == "a" + ":" + ("b:c" + ":" + t);
  }

  lemma JoinTwo(a: string, b: string, rest: seq<string>, c: char)
    requires |rest| >= 1
    ensures Join([a, b] + rest, c) == a + [c] + (b + [c] + Join(rest, c))
  {
    assert ([a, b] + rest)[1..] == [b] + rest && ([b] + rest)[1..] == rest;
  }

  lemma TenParts(a: string, b: string, c: string, d: string, e: string, rest: seq<string>)
    requires |rest| >= 1
    ensures Join([a, b, c, d, e] + rest, '_') == Dash(a, Dash(b, Dash(c, Dash(d, Dash(e, Join(rest, '_'))))))
  {
    hide Join, Dash;
    var last := [e] + rest;
    var middle := [c] + ([d] + last);
    JoinCons(e, rest);
    JoinCons(d, last);
    JoinCons(c, [d] + last);
    JoinCons(b, middle);
    JoinCons(a, [b] + middle);
    assert [a] + ([b] + middle) == [a, b, c, d, e] + rest;
  }

  lemma FiveParts(a: string, b: string, c: string, d: string, e: string)
    ensures Join([a, b, c, d, e], '_') == Dash(a, Dash(b, Dash(c, Dash(d, e))))
  {
    assert [a, b, c, d, e] == [a] + ([b] + ([c] + ([d] + [e])));
    assert Join([e], '_') == e;
    hide Join, Dash;
    JoinCons(d, [e]);
    JoinCons(c, [d] + [e]);
    JoinCons(b, [c] + ([d] + [e]));
    JoinCons(a, [b] + ([c] + ([d] + [e])));
  }
}
