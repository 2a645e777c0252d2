/** The hour a folder path names, and the hour the path pattern reads from it. */
module HourPaths {
  import opened Documents
  import opened Text
  import opened Calendar
  import opened TimeRanges

  // ----- the pattern year=(\d{4})/month=(\d{1,2})/day=(\d{1,2})/hour=(\d{1,2})

  predicate DigitsAt(s: string, i: nat, n: nat) {
    (n == 0 || i + n <= |s|) && forall j :: i <= j < i + n ==> IsDigit(s[j])
  }

  /** The number written there, or 0 where there is none. */
  function NumberAt(s: string, i: nat, n: nat): nat {
    if n == 0 || !DigitsAt(s, i, n) then 0 else NumberAt(s, i, n - 1) * 10 + DigitValue(s[i + n - 1])
  }

  /** How many digits the pattern takes at `i`: two if there are two, otherwise what there is. */
  function Greedy(s: string, i: nat): (n: nat)
    ensures n <= 2 && DigitsAt(s, i, n)
    ensures n < 2 ==> !DigitsAt(s, i, n + 1)
  {
    if DigitsAt(s, i, 2) then 2 else if DigitsAt(s, i, 1) then 1 else 0
  }

  /** The pattern matches at `p` with fields of these lengths. */
  ghost predicate Matches(s: string, p: nat, m: nat, d: nat, h: nat) {
    && 1 <= m <= 2 && 1 <= d <= 2 && 1 <= h <= 2
    && OccursAt(s, "year=", p) && DigitsAt(s, p + 5, 4)
    && OccursAt(s, "/month=", p + 9) && DigitsAt(s, p + 16, m)
    && OccursAt(s, "/day=", p + 16 + m) && DigitsAt(s, p + 21 + m, d)
    && OccursAt(s, "/hour=", p + 21 + m + d) && DigitsAt(s, p + 27 + m + d, h)
  }

  /** The fields of a match, where its hour component starts and where it ends. */
  datatype HourPath = HourPath(year: nat, month: nat, day: nat, hour: nat, hourAt: nat, end: nat)

  function MatchAt(s: string, p: nat): Option<HourPath> {
    if !OccursAt(s, "year=", p) || !DigitsAt(s, p + 5, 4) || !OccursAt(s, "/month=", p + 9) then None
    else
      var m := Greedy(s, p + 16);
      if m == 0 || !OccursAt(s, "/day=", p + 16 + m) then None
      else
        var d := Greedy(s, p + 21 + m);
        if d == 0 || !OccursAt(s, "/hour=", p + 21 + m + d) then None
        else
          var h := Greedy(s, p + 27 + m + d);
          if h == 0 then None
          else Some(Fields(s, p, m, d, h))
  }

  function Fields(s: string, p: nat, m: nat, d: nat, h: nat): HourPath {
    HourPath(NumberAt(s, p + 5, 4), NumberAt(s, p + 16, m), NumberAt(s, p + 21 + m, d), NumberAt(s, p + 27 + m + d, h),
             p + 21 + m + d, p + 27 + m + d + h)
  }

  /** A field that a slash follows is taken whole. */
  lemma GreedyTakesField(s: string, i: nat, n: nat)
    requires 1 <= n <= 2 && DigitsAt(s, i, n) && i + n < |s| && !IsDigit(s[i + n])
    ensures Greedy(s, i) == n
  {
    assert n == 1 ==> !DigitsAt(s, i, 2);
  }

  lemma SlashFollows(s: string, lit: string, i: nat)
    requires OccursAt(s, lit, i) && lit != "" && lit[0] == '/'
    ensures i < |s| && s[i] == '/' && !IsDigit(s[i])
  {
    OccursChar(s, lit, i, 0);
  }

  /** The search for a match at `p` is exact: it finds one iff the pattern matches there. */
  lemma MatchAtIff(s: string, p: nat)
    ensures MatchAt(s, p).Some? <==> exists m: nat, d: nat, h: nat :: Matches(s, p, m, d, h)
  {
    hide MatchAt, Matches;
    if m: nat, d: nat, h: nat :| Matches(s, p, m, d, h) {
      MatchFound(s, p, m, d, h);
    }
    if MatchAt(s, p).Some? {
      MatchSound(s, p);
    }
  }

  lemma MatchSound(s: string, p: nat)
    requires MatchAt(s, p).Some?
    ensures var m := Greedy(s, p + 16);
            var d := Greedy(s, p + 21 + m);
            var h := Greedy(s, p + 27 + m + d);
            Matches(s, p, m, d, h) && MatchAt(s, p) == Some(Fields(s, p, m, d, h))
  {
    hide OccursAt, NumberAt;
  }

  /** It takes as many hour digits as it can. */
  lemma MatchFound(s: string, p: nat, m: nat, d: nat, h: nat)
    requires Matches(s, p, m, d, h)
    ensures var g := Greedy(s, p + 27 + m + d);
            h <= g && Matches(s, p, m, d, g) && MatchAt(s, p) == Some(Fields(s, p, m, d, g))
  {
    hide OccursAt;
    SlashFollows(s, "/day=", p + 16 + m);
    GreedyTakesField(s, p + 16, m);
    SlashFollows(s, "/hour=", p + 21 + m + d);
    GreedyTakesField(s, p + 21 + m, d);
  }

  /** The leftmost match at or after `p`. */
  function FirstMatch(s: string, p: nat): (r: Option<HourPath>)
    requires p <= |s|
    ensures r.None? <==> forall q :: p <= q <= |s| ==> MatchAt(s, q).None?
    decreases |s| - p
  {
    if MatchAt(s, p).Some? then MatchAt(s, p) else if p == |s| then None else FirstMatch(s, p + 1)
  }

  lemma {:induction false} FirstIsLeftmost(s: string, p: nat, q: nat)
    requires p <= q <= |s| && MatchAt(s, q).Some? && forall r :: p <= r < q ==> MatchAt(s, r).None?
    ensures FirstMatch(s, p) == MatchAt(s, q)
    decreases q - p
  {
    hide MatchAt;
    if p < q {
      FirstIsLeftmost(s, p + 1, q);
    }
  }

  // ----- from fields to an instant

  predicate IsMonth(m: int) {
    1 <= m <= 12
  }

  function MonthDays(y: int, m: int): (n: nat)
    ensures 28 <= n <= 31
  {
    if m == 2 then (if IsLeap(y) then 29 else 28) else if m == 4 || m == 6 || m == 9 || m == 11 then 30 else 31
  }

  function DaysBefore(y: int, m: int): nat
    requires IsMonth(m)
    decreases m
  {
    if m == 1 then 0 else DaysBefore(y, m - 1) + MonthDays(y, m - 1)
  }

  /** time.Date in UTC: months, days and hours outside their range carry over. */
  function DateMillis(year: int, month: int, day: int, hour: int): int {
    var y, m := year + (month - 1) / 12, (month - 1) % 12 + 1;
    (YearStart(y) + DaysBefore(y, m) + day - 1 - YearStart(1970)) * DAY + hour * HOUR
  }

  /** The months fill the year. */
  lemma MonthsFillYear(y: int)
    ensures YearStart(y) + DaysBefore(y, 12) + MonthDays(y, 12) == YearStart(y + 1)
  {
    YearLength(y);
    assert DaysBefore(y, 3) == DaysBefore(y, 2) + MonthDays(y, 2) == 31 + MonthDays(y, 2);
    assert DaysBefore(y, 6) == DaysBefore(y, 5) + 31 == DaysBefore(y, 4) + 61 == DaysBefore(y, 3) + 92;
    assert DaysBefore(y, 9) == DaysBefore(y, 8) + 31 == DaysBefore(y, 7) + 62 == DaysBefore(y, 6) + 92;
    assert DaysBefore(y, 12) == DaysBefore(y, 11) + 30 == DaysBefore(y, 10) + 61 == DaysBefore(y, 9) + 91;
  }

  lemma DateInYear(year: int, month: int, day: int, hour: int)
    requires IsMonth(month)
    ensures DateMillis(year, month, day, hour) ==
            (YearStart(year) + DaysBefore(year, month) + day - 1 - YearStart(1970)) * DAY + hour * HOUR
  {
    hide YearStart, DaysBefore;
    assert (month - 1) / 12 == 0 && (month - 1) % 12 + 1 == month;
  }

  /** What overflows carries over: a day past the month is a day of the next month. */
  lemma DayOverflow(year: int, month: int, day: int, hour: int)
    requires IsMonth(month)
    ensures DateMillis(year, month, day + MonthDays(year, month), hour) == DateMillis(year, month + 1, day, hour)
  {
    hide YearStart, DateMillis, MonthDays;
    DateInYear(year, month, day + MonthDays(year, month), hour);
    if month == 12 {
      MonthsFillYear(year);
      HourAndMonthOverflow(year, 1, day, hour);
      DateInYear(year + 1, 1, day, hour);
    } else {
      DateInYear(year, month + 1, day, hour);
    }
  }

  /** Hour 24 is the next day's hour 0, and month 13 the next year's month 1. */
  lemma HourAndMonthOverflow(year: int, month: int, day: int, hour: int)
    ensures DateMillis(year, month, day, hour + 24) == DateMillis(year, month, day + 1, hour)
    ensures DateMillis(year, month + 12, day, hour) == DateMillis(year + 1, month, day, hour)
  {
    hide YearStart, DaysBefore;
    assert (month + 12 - 1) / 12 == (month - 1) / 12 + 1 && (month + 12 - 1) % 12 == (month - 1) % 12;
  }

  /** The days of each month, by name of the month, and the rule for leap years. */
  lemma MonthLengths(year: int, month: int)
    requires 1 <= month <= 12
    ensures DateMillis(year, month + 1, 1, 0) - DateMillis(year, month, 1, 0) ==
            (if month == 2 then (if year % 4 == 0 && (year % 100 != 0 || year % 400 == 0) then 29 else 28)
             else if month in {4, 6, 9, 11} then 30 else 31) * 86_400_000
  {
    hide YearStart, DaysBefore, DateMillis;
    DateInYear(year, month, 1, 0);
    if month == 12 {
      MonthsFillYear(year);
      HourAndMonthOverflow(year, 1, 1, 0);
      DateInYear(year + 1, 1, 1, 0);
      assert DaysBefore(year + 1, 1) == 0 by { FirstMonth(year + 1); }
    } else {
      DateInYear(year, month + 1, 1, 0);
      NextMonth(year, month);
    }
  }

  lemma FirstMonth(year: int)
    ensures DaysBefore(year, 1) == 0
  {
  }

  lemma NextMonth(year: int, month: int)
    requires 1 <= month < 12
    ensures DaysBefore(year, month + 1) == DaysBefore(year, month) + MonthDays(year, month)
  {
  }

  /**
   * Instants count from January 1, 1970; a day is 24 hours, an hour 3600 seconds, and the twelfth month is followed
   * by the next year's first. With the lengths of the months this fixes every instant.
   */
  lemma InstantsCount(year: int, month: int, day: int, hour: int)
    ensures DateMillis(1970, 1, 1, 0) == 0
    ensures DateMillis(year, month, day + 1, hour) == DateMillis(year, month, day, hour) + 86_400_000
    ensures DateMillis(year, month, day, hour + 1) == DateMillis(year, month, day, hour) + 3_600_000
    ensures DateMillis(year, month + 12, day, hour) == DateMillis(year + 1, month, day, hour)
  {
    HourAndMonthOverflow(year, month, day, hour);
    hide YearStart;
    FirstMonth(1970);
  }

  lemma WholeHour(year: int, month: int, day: int, hour: int)
    ensures DateMillis(year, month, day, hour) % HOUR == 0
  {
    hide YearStart, DaysBefore;
    var y, m := year + (month - 1) / 12, (month - 1) % 12 + 1;
    var days := YearStart(y) + DaysBefore(y, m) + day - 1 - YearStart(1970);
    assert DateMillis(year, month, day, hour) == (days * 24 + hour) * HOUR;
  }

  function TimeOf(h: HourPath): int {
    DateMillis(h.year, h.month, h.day, h.hour)
  }

  /** parseHourFolderPath */
  function ParseHourFolder(folder: string): (t: Option<int>)
    ensures t.Some? ==> t.value % HOUR == 0
  {
    var first := FirstMatch(folder, 0);
    if first.None? then None
    else
      WholeHour(first.value.year, first.value.month, first.value.day, first.value.hour);
      Some(TimeOf(first.value))
  }

  // ----- when the hour read is the hour named

  /** The folder ends in a complete date path, whose last component is exactly hour= and one or two digits. */
  ghost predicate Names(folder: string, p: nat, m: nat, d: nat, h: nat) {
    Matches(folder, p, m, d, h) && p + 27 + m + d + h == |folder| - 1 && folder[|folder| - 1] == '/'
  }

  /** The pattern reads the date path that the folder ends in. */
  ghost predicate ReadsLast(folder: string) {
    && FirstMatch(folder, 0).Some?
    && exists p: nat, m: nat, d: nat, h: nat ::
         Names(folder, p, m, d, h) && FirstMatch(folder, 0).value == Fields(folder, p, m, d, h)
  }

  /**
   * The hour read is the one the last component names exactly when the folder ends in a complete date path and
   * nothing before it matches.
   */
  lemma ReadsLastIff(folder: string)
    ensures ReadsLast(folder) <==>
            exists p: nat, m: nat, d: nat, h: nat :: Names(folder, p, m, d, h) && forall q :: 0 <= q < p ==>
              MatchAt(folder, q).None?
  {
    hide MatchAt, NumberAt, OccursAt, DigitsAt;
    if p: nat, m: nat, d: nat, h: nat :|
      && Names(folder, p, m, d, h) && FirstMatch(folder, 0).Some?
      && FirstMatch(folder, 0).value == Fields(folder, p, m, d, h)
    {
      NoneBefore(folder, p, m, d, h);
    }
    if p: nat, m: nat, d: nat, h: nat :|
      Names(folder, p, m, d, h) && forall q :: 0 <= q < p ==> MatchAt(folder, q).None?
    {
      NamedMatch(folder, p, m, d, h);
      FirstIsLeftmost(folder, 0, p);
    }
  }

  /** At its own place a named date path is what the pattern reads. */
  lemma NamedMatch(folder: string, p: nat, m: nat, d: nat, h: nat)
    requires Names(folder, p, m, d, h)
    ensures MatchAt(folder, p) == Some(Fields(folder, p, m, d, h)) && p <= |folder|
  {
    GreedyTakesField(folder, p + 27 + m + d, h);
    MatchFound(folder, p, m, d, h);
  }

  lemma {:induction false} FirstSomewhere(s: string, p: nat) returns (q: nat)
    requires p <= |s| && FirstMatch(s, p).Some?
    ensures p <= q <= |s| && FirstMatch(s, p) == MatchAt(s, q) && forall r :: p <= r < q ==> MatchAt(s, r).None?
    decreases |s| - p
  {
    hide MatchAt;
    if MatchAt(s, p).Some? {
      q := p;
    } else {
      q := FirstSomewhere(s, p + 1);
    }
  }

  /** A match is found where its fields say: the hour component and the end determine the place. */
  lemma NoneBefore(folder: string, p: nat, m: nat, d: nat, h: nat)
    requires Names(folder, p, m, d, h) && FirstMatch(folder, 0).Some?
    requires FirstMatch(folder, 0).value == Fields(folder, p, m, d, h)
    ensures forall q :: 0 <= q < p ==> MatchAt(folder, q).None?
  {
    hide MatchAt, NumberAt;
    var q := FirstSomewhere(folder, 0);
    MatchSound(folder, q);
    var m' := Greedy(folder, q + 16);
    SamePlace(folder, p, m, d, q, m', Greedy(folder, q + 21 + m'));
  }

  /** Two matches with the same hour component start at the same place. */
  lemma SamePlace(s: string, p: nat, m: nat, d: nat, q: nat, m': nat, d': nat)
    requires 1 <= m <= 2 && 1 <= d <= 2 && 1 <= m' <= 2 && 1 <= d' <= 2 && p + 21 + m + d == q + 21 + m' + d'
    requires OccursAt(s, "/day=", p + 16 + m) && DigitsAt(s, p + 21 + m, d) && OccursAt(s, "/day=", q + 16 + m')
    requires DigitsAt(s, q + 21 + m', d')
    requires OccursAt(s, "/month=", p + 9) && DigitsAt(s, p + 16, m) && OccursAt(s, "/month=", q + 9)
    requires DigitsAt(s, q + 16, m')
    ensures p == q
  {
    hide OccursAt;
    EqualsBefore(s, "/day=", p + 16 + m);
    EqualsBefore(s, "/day=", q + 16 + m');
    SameField(s, p + 21 + m, d, q + 21 + m', d');
    EqualsBefore(s, "/month=", p + 9);
    EqualsBefore(s, "/month=", q + 9);
    SameField(s, p + 16, m, q + 16, m');
  }

  /** A literal of the pattern ends in an equals sign. */
  lemma EqualsBefore(s: string, lit: string, i: nat)
    requires (lit == "/day=" || lit == "/month=") && OccursAt(s, lit, i)
    ensures i + |lit| <= |s| && !IsDigit(s[i + |lit| - 1])
  {
    OccursChar(s, lit, i, |lit| - 1);
  }

  /** Two runs of digits that end together and follow a non-digit are the same. */
  lemma SameField(s: string, i: nat, n: nat, j: nat, k: nat)
    requires 1 <= n <= 2 && 1 <= k <= 2 && i + n == j + k && DigitsAt(s, i, n) && DigitsAt(s, j, k)
    requires 0 < i <= |s| && 0 < j <= |s| && !IsDigit(s[i - 1]) && !IsDigit(s[j - 1])
    ensures i == j && n == k
  {
  }

  // ----- paths that are read differently

  function DatePath(y: string, m: string, d: string, h: string): string {
    "year=" + y + "/month=" + m + "/day=" + d + "/hour=" + h
  }

  predicate AllDigits(s: string) {
    forall c <- s :: IsDigit(c)
  }

  ghost predicate GoodFields(y: string, m: string, d: string, h: string) {
    |y| == 4 && 1 <= |m| <= 2 && 1 <= |d| <= 2 && |h| >= 1 && AllDigits(y + m + d + h)
  }

  /** A date path at the start of a folder is what is read, whatever follows it; of the hour at most two digits. */
  lemma LeadingPathIsRead(y: string, m: string, d: string, h: string, rest: string)
    requires GoodFields(y, m, d, h) && (rest == "" || !IsDigit(rest[0]))
    ensures var s, n := DatePath(y, m, d, h) + rest, if |h| == 1 then 1 else 2;
            && Matches(s, 0, |m|, |d|, n) && FirstMatch(s, 0) == Some(Fields(s, 0, |m|, |d|, n))
            && Fields(s, 0, |m|, |d|, n).end == |DatePath(y, m, d, h)| - (|h| - n)
  {
    hide MatchAt, NumberAt, OccursAt, DatePath, Greedy, GoodFields, Matches, FirstMatch;
    var s, n := DatePath(y, m, d, h) + rest, if |h| == 1 then 1 else 2;
    LeadingMatches(y, m, d, h, rest);
    MatchAtStart(s, |m|, |d|, n);
    PathLength(y, m, d, h) by { assert |y| == 4 by { FourDigits(y, m, d, h); } }
  }

  lemma MatchAtStart(s: string, m: nat, d: nat, h: nat)
    requires Matches(s, 0, m, d, h) && Greedy(s, 27 + m + d) == h
    ensures FirstMatch(s, 0) == Some(Fields(s, 0, m, d, h))
  {
    hide MatchAt, Matches, Greedy, Fields;
    MatchFound(s, 0, m, d, h);
    FirstIsLeftmost(s, 0, 0);
  }

  lemma FourDigits(y: string, m: string, d: string, h: string)
    requires GoodFields(y, m, d, h)
    ensures |y| == 4
  {
  }

  lemma LeadingMatches(y: string, m: string, d: string, h: string, rest: string)
    requires GoodFields(y, m, d, h) && (rest == "" || !IsDigit(rest[0]))
    ensures var s, n := DatePath(y, m, d, h) + rest, if |h| == 1 then 1 else 2;
            Matches(s, 0, |m|, |d|, n) && Greedy(s, 27 + |m| + |d|) == n
  {
    hide OccursAt, AllDigits, DatePath, DigitsAt, Greedy;
    var s := DatePath(y, m, d, h) + rest;
    PathPieces(y, m, d, h, rest);
    PathLength(y, m, d, h);
    HourDigits(s, 27 + |m| + |d|, |h|);
  }

  lemma PathLength(y: string, m: string, d: string, h: string)
    requires |y| == 4
    ensures |DatePath(y, m, d, h)| == 27 + |m| + |d| + |h|
  {
  }

  lemma HourDigits(s: string, i: nat, n: nat)
    requires n >= 1 && DigitsAt(s, i, n) && (i + n < |s| ==> !IsDigit(s[i + n]))
    ensures var g := if n == 1 then 1 else 2; DigitsAt(s, i, g) && Greedy(s, i) == g
  {
    assert n == 1 ==> !DigitsAt(s, i, 2);
  }

  lemma Shifted(pre: string, t: string, lit: string, i: nat, n: nat)
    ensures OccursAt(t, lit, i) ==> OccursAt(pre + t, lit, |pre| + i)
    ensures DigitsAt(t, i, n) ==> DigitsAt(pre + t, |pre| + i, n)
  {
    var s := pre + t;
    if OccursAt(t, lit, i) {
      assert s[|pre| + i..|pre| + i + |lit|] == t[i..i + |lit|];
    }
    if DigitsAt(t, i, n) {
      forall j | |pre| + i <= j < |pre| + i + n ensures IsDigit(s[j]) {
        assert s[j] == t[j - |pre|];
      }
    }
  }

  lemma Leading(lit: string, v: string, t: string)
    requires AllDigits(v)
    ensures OccursAt(lit + (v + t), lit, 0) && DigitsAt(lit + (v + t), |lit|, |v|)
  {
    var s := lit + (v + t);
    assert s[0..|lit|] == lit;
    forall j | |lit| <= j < |lit| + |v| ensures IsDigit(s[j]) {
      assert s[j] == v[j - |lit|] && v[j - |lit|] in v;
    }
  }

  /** One more component in front of a path. */
  lemma Prepend(lit: string, v: string, t: string, lit': string, i: nat, n: nat)
    requires OccursAt(t, lit', i) && DigitsAt(t, i + |lit'|, n)
    ensures var s, k := lit + (v + t), |lit| + |v| + i; OccursAt(s, lit', k) && DigitsAt(s, k + |lit'|, n)
  {
    assert lit + (v + t) == (lit + v) + t;
    Shifted(lit + v, t, lit', i, n);
    Shifted(lit + v, t, lit', i + |lit'|, n);
  }

  lemma PathPieces(y: string, m: string, d: string, h: string, rest: string)
    requires GoodFields(y, m, d, h)
    ensures var s := DatePath(y, m, d, h) + rest;
            && OccursAt(s, "year=", 0) && DigitsAt(s, 5, 4) && OccursAt(s, "/month=", 9) && DigitsAt(s, 16, |m|)
            && OccursAt(s, "/day=", 16 + |m|) && DigitsAt(s, 21 + |m|, |d|)
            && OccursAt(s, "/hour=", 21 + |m| + |d|) && DigitsAt(s, 27 + |m| + |d|, |h|)
  {
    hide OccursAt, DigitsAt, AllDigits, DatePath;
    DigitParts(y, m, d, h);
    var t1 := "/hour=" + (h + rest);
    var t2 := "/day=" + (d + t1);
    var t3 := "/month=" + (m + t2);
    PathText(y, m, d, h, rest);
    Leading("/hour=", h, rest);
    Leading("/day=", d, t1);
    Prepend("/day=", d, t1, "/hour=", 0, |h|);
    Leading("/month=", m, t2);
    Prepend("/month=", m, t2, "/day=", 0, |d|);
    Prepend("/month=", m, t2, "/hour=", 5 + |d|, |h|);
    Leading("year=", y, t3);
    Prepend("year=", y, t3, "/month=", 0, |m|);
    Prepend("year=", y, t3, "/day=", 7 + |m|, |d|);
    Prepend("year=", y, t3, "/hour=", 12 + |m| + |d|, |h|);
  }

  lemma DigitParts(y: string, m: string, d: string, h: string)
    requires AllDigits(y + m + d + h)
    ensures AllDigits(y) && AllDigits(m) && AllDigits(d) && AllDigits(h)
  {
    var s := y + m + d + h;
    assert (forall c <- y :: c in s) && (forall c <- m :: c in s) && (forall c <- d :: c in s);
    assert (forall c <- h :: c in s);
  }

  lemma PathText(y: string, m: string, d: string, h: string, rest: string)
    ensures DatePath(y, m, d, h) + rest == "year=" + (y + ("/month=" + (m + ("/day=" + (d + ("/hour=" + (h + rest)))))))
  {
    var a, t1 := "year=" + y + "/month=" + m, "/hour=" + (h + rest);
    assert "/day=" + d + "/hour=" + h + rest == "/day=" + (d + t1);
    assert DatePath(y, m, d, h) + rest == a + ("/day=" + d + "/hour=" + h + rest);
    assert a + ("/day=" + (d + t1)) == "year=" + (y + ("/month=" + (m + ("/day=" + (d + t1)))));
  }

  // ----- the values of a path's fields

  lemma {:induction false} NumberOfPiece(s: string, i: nat, v: string)
    requires OccursAt(s, v, i) && AllDigits(v)
    ensures DigitsAt(s, i, |v|) && NumberAt(s, i, |v|) == Value(v)
    decreases |v|
  {
    forall j | i <= j < i + |v| ensures s[j] == v[j - i] && IsDigit(s[j]) {
      OccursChar(s, v, i, j - i);
      assert v[j - i] in v;
    }
    if v != "" {
      var n := |v| - 1;
      assert s[i..i + n] == s[i..i + |v|][..n] == v[..n];
      assert forall c <- v[..n] :: c in v;
      NumberOfPiece(s, i, v[..n]);
    }
  }

  lemma ValueOccurs(lit: string, v: string, t: string)
    ensures OccursAt(lit + (v + t), v, |lit|)
  {
    assert (lit + (v + t))[|lit|..|lit| + |v|] == v;
  }

  lemma ShiftField(lit: string, v: string, t: string, x: string, i: nat)
    requires OccursAt(t, x, i)
    ensures OccursAt(lit + (v + t), x, |lit| + |v| + i)
  {
    assert lit + (v + t) == (lit + v) + t;
    Shifted(lit + v, t, x, i, 0);
  }

  /** The fields stand where the pattern looks for them. */
  lemma PathValues(y: string, m: string, d: string, h: string, rest: string)
    requires |y| == 4
    ensures var s := DatePath(y, m, d, h) + rest;
            && OccursAt(s, y, 5) && OccursAt(s, m, 16)
            && OccursAt(s, d, 21 + |m|) && OccursAt(s, h, 27 + |m| + |d|)
  {
    hide OccursAt, DatePath;
    var t1 := "/hour=" + (h + rest);
    var t2 := "/day=" + (d + t1);
    var t3 := "/month=" + (m + t2);
    PathText(y, m, d, h, rest);
    ValueOccurs("/hour=", h, rest);
    ValueOccurs("/day=", d, t1);
    ShiftField("/day=", d, t1, h, 6);
    ValueOccurs("/month=", m, t2);
    ShiftField("/month=", m, t2, d, 5);
    ShiftField("/month=", m, t2, h, 11 + |d|);
    ValueOccurs("year=", y, t3);
    ShiftField("year=", y, t3, m, 7);
    ShiftField("year=", y, t3, d, 12 + |m|);
    ShiftField("year=", y, t3, h, 18 + |m| + |d|);
  }

  /** What the pattern reads from a date path that starts at the end of `pre`. */
  function Written(pre: string, y: string, m: string, d: string, h: string): HourPath
    requires AllDigits(y) && AllDigits(m) && AllDigits(d) && AllDigits(h)
  {
    HourPath(Value(y), Value(m), Value(d), Value(h), |pre| + 21 + |m| + |d|, |pre| + 27 + |m| + |d| + |h|)
  }

  lemma FieldsAsWritten(pre: string, y: string, m: string, d: string, h: string, rest: string)
    requires GoodFields(y, m, d, h) && |h| <= 2
    ensures AllDigits(y) && AllDigits(m) && AllDigits(d) && AllDigits(h)
    ensures var s := pre + (DatePath(y, m, d, h) + rest);
            Matches(s, |pre|, |m|, |d|, |h|) && Fields(s, |pre|, |m|, |d|, |h|) == Written(pre, y, m, d, h)
  {
    hide OccursAt, DatePath, NumberAt, DigitsAt, AllDigits, Value;
    var t, p := DatePath(y, m, d, h) + rest, |pre|;
    var s := pre + t;
    DigitParts(y, m, d, h);
    PathPieces(y, m, d, h, rest);
    PathValues(y, m, d, h, rest);
    Shifted(pre, t, "year=", 0, 0);
    Shifted(pre, t, "/month=", 9, 0);
    Shifted(pre, t, "/day=", 16 + |m|, 0);
    Shifted(pre, t, "/hour=", 21 + |m| + |d|, 0);
    Shifted(pre, t, y, 5, 4);
    Shifted(pre, t, m, 16, |m|);
    Shifted(pre, t, d, 21 + |m|, |d|);
    Shifted(pre, t, h, 27 + |m| + |d|, |h|);
    NumberOfPiece(s, p + 5, y);
    NumberOfPiece(s, p + 16, m);
    NumberOfPiece(s, p + 21 + |m|, d);
    NumberOfPiece(s, p + 27 + |m| + |d|, h);
  }

  /**
   * An hour of three or more digits, and a date path that comes first, are read as something else than the last
   * component: two digits of the hour, or the leading path, for every such folder.
   */
  lemma MisreadFolders(y: string, m: string, d: string, h: string, rest: string)
    requires GoodFields(y, m, d, h) && rest != "" && rest[0] == '/' && (|h| >= 3 || |rest| > 1)
    ensures var f := DatePath(y, m, d, h) + rest;
            && !ReadsLast(f) && ParseHourFolder(f) == Some(TimeOf(Fields(f, 0, |m|, |d|, if |h| == 1 then 1 else 2)))
  {
    hide MatchAt, NumberAt, OccursAt, DatePath, Greedy, Matches, FirstMatch, DateMillis;
    LeadingPathIsRead(y, m, d, h, rest);
  }

  lemma SampleFields()
    ensures GoodFields("2025", "1", "1", "115") && GoodFields("2020", "1", "1", "1")
  {
    assert "2025" + "1" + "1" + "115" == "202511115" && "2020" + "1" + "1" + "1" == "2020111";
    assert AllDigits("202511115") && AllDigits("2020111");
  }

  /** For example hour=115 is read as hour 11, and of two date paths the first is read. */
  lemma MisreadExamples()
    ensures !ReadsLast(DatePath("2025", "1", "1", "115") + "/")
    ensures !ReadsLast(DatePath("2020", "1", "1", "1") + ("/" + (DatePath("2025", "1", "1", "1") + "/")))
  {
    hide ReadsLast, DatePath, GoodFields, ParseHourFolder, TimeOf, Fields;
    SampleFields();
    MisreadFolders("2025", "1", "1", "115", "/");
    var tail := "/" + (DatePath("2025", "1", "1", "1") + "/");
    MisreadFolders("2020", "1", "1", "1", tail);
  }
}
