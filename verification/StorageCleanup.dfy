/** Retention cleanup of hour folders in sandbox storage. */
module StorageCleanup {
  import opened Documents
  import opened TimeRanges
  import opened Text
  import opened HourPaths
  import opened Calendar

  // ----- the hour folder of a key

  /** Position of the last occurrence of `pat`, or -1. */
  function LastIndex(s: string, pat: string, i: nat): (r: int)
    requires i <= |s|
    ensures -1 <= r < i && (r >= 0 ==> OccursAt(s, pat, r)) && forall j: nat :: r < j < i ==> !OccursAt(s, pat, j)
  {
    if i == 0 then -1 else if OccursAt(s, pat, i - 1) then i - 1 else LastIndex(s, pat, i - 1)
  }

  /** Position of the first slash at or after `i`, or the end of the text. */
  function NextSlash(s: string, i: nat): (r: nat)
    requires i <= |s|
    ensures i <= r <= |s| && (forall j :: i <= j < r ==> s[j] != '/') && (r < |s| ==> s[r] == '/')
    decreases |s| - i
  {
    if i == |s| || s[i] == '/' then i else NextSlash(s, i + 1)
  }

  /** extractHourFolder: everything up to the slash after the last "/hour=", or the whole key, closed by a slash. */
  function ExtractHourFolder(key: string): string {
    var at := LastIndex(key, "/hour=", |key|);
    if at < 0 then "" else key[..NextSlash(key, at + 1)] + "/"
  }

  /** `at` is where the last hour component of the key starts. */
  ghost predicate LastHourAt(key: string, at: nat) {
    OccursAt(key, "/hour=", at) && forall j: nat :: at < j ==> !OccursAt(key, "/hour=", j)
  }

  /** `f` is `key` cut at the end of the path component that starts at `at`, closed by a slash. */
  ghost predicate EndsComponent(f: string, key: string, at: nat) {
    && at < |f| - 1 <= |key| && f == key[..|f| - 1] + "/"
    && (forall j :: at < j < |f| - 1 ==> key[j] != '/') && (|f| - 1 < |key| ==> key[|f| - 1] == '/')
  }

  /**
   * A key has a folder exactly when it has an hour component, and the folder ends with that whole component, so
   * hour=1 is never taken for hour=10.
   */
  lemma FolderIsExact(key: string)
    ensures ExtractHourFolder(key) == "" <==> !Contains(key, "/hour=")
    ensures forall at: nat :: LastHourAt(key, at) ==> EndsComponent(ExtractHourFolder(key), key, at)
  {
    var last := LastIndex(key, "/hour=", |key|);
    if last >= 0 {
      assert OccursAt(key, "/hour=", last);
      CutAt(key, last, NextSlash(key, last + 1));
      forall at: nat | LastHourAt(key, at) ensures at == last { }
    }
  }

  lemma CutAt(key: string, at: nat, end: nat)
    requires at < end <= |key| && (forall j :: at < j < end ==> key[j] != '/') && (end < |key| ==> key[end] == '/')
    ensures EndsComponent(key[..end] + "/", key, at)
  {
    assert |key[..end] + "/"| - 1 == end;
  }

  /** Only one text can be the hour folder of a key. */
  lemma OneHourFolder(f: string, g: string, key: string, at: nat, at': nat)
    requires LastHourAt(key, at) && LastHourAt(key, at') && EndsComponent(f, key, at) && EndsComponent(g, key, at')
    ensures f == g
  {
    assert at == at';
    assert |f| == |g|;
  }

  // ----- grouping

  /** Cutoff: the hour boundary at or before `now` less the retention. */
  function Cutoff(now: int, retentionHours: int): int {
    FloorTo(now - retentionHours * HOUR, HOUR)
  }

  predicate Expired(folder: string, cutoff: int, deleteAll: bool) {
    ParseHourFolder(folder).Some? && (deleteAll || ParseHourFolder(folder).value < cutoff)
  }

  predicate ShouldDelete(key: string, cutoff: int, deleteAll: bool) {
    ExtractHourFolder(key) != "" && Expired(ExtractHourFolder(key), cutoff, deleteAll)
  }

  /** The listed keys of one folder, in order. */
  function KeysIn(keys: seq<string>, folder: string): seq<string> {
    if keys == [] then []
    else
      var last := keys[|keys| - 1];
      KeysIn(keys[..|keys| - 1], folder) + if ExtractHourFolder(last) == folder then [last] else []
  }

  /** None marks a folder that is skipped. */
  type HourFolders = map<string, Option<seq<string>>>

  ghost predicate Grouped(folders: HourFolders, keys: seq<string>, cutoff: int, deleteAll: bool) {
    forall f :: f != "" ==>
      && (f in folders <==> KeysIn(keys, f) != [])
      && (f in folders ==> folders[f] == if Expired(f, cutoff, deleteAll) then Some(KeysIn(keys, f)) else None)
  }

  /** The folder map after one more key of `folder`, whose fate is decided when the folder is first met. */
  function Place(folders: HourFolders, key: string, folder: string, expired: bool): HourFolders {
    if folder !in folders then folders[folder := if expired then Some([key]) else None]
    else if folders[folder].Some? then folders[folder := Some(folders[folder].value + [key])]
    else folders
  }

  lemma PlaceGroups(folders: HourFolders, keys: seq<string>, i: nat, cutoff: int, deleteAll: bool)
    requires i < |keys| && Grouped(folders, keys[..i], cutoff, deleteAll)
    ensures var folder := ExtractHourFolder(keys[i]);
            var placed := Place(folders, keys[i], folder, Expired(folder, cutoff, deleteAll));
            Grouped(if folder == "" then folders else placed, keys[..i + 1], cutoff, deleteAll)
  {
    hide ExtractHourFolder, Expired;
    var key, folder := keys[i], ExtractHourFolder(keys[i]);
    assert keys[..i + 1][..i] == keys[..i];
    var after := if folder == "" then folders else Place(folders, key, folder, Expired(folder, cutoff, deleteAll));
    forall f | f != ""
      ensures f in after <==> KeysIn(keys[..i + 1], f) != []
      ensures f in after ==> after[f] == if Expired(f, cutoff, deleteAll) then Some(KeysIn(keys[..i + 1], f)) else None
    {
      var mine := KeysIn(keys[..i], f);
      assert f in folders <==> mine != [];
      assert mine + [] == mine && (mine == [] ==> mine + [key] == [key]);
      assert KeysIn(keys[..i + 1], f) == KeysIn(keys[..i], f) + if folder == f then [key] else [];
    }
  }

  /** groupObjectsByHourFolder: each folder's fate is decided once and remembered. */
  method GroupObjectsByHourFolder(keys: seq<string>, cutoff: int, deleteAll: bool) returns (folders: HourFolders)
    ensures Grouped(folders, keys, cutoff, deleteAll) && "" !in folders
  {
    hide ExtractHourFolder, Grouped;
    folders := map[];
    assert Grouped(folders, keys[..0], cutoff, deleteAll) by { NoFolders(cutoff, deleteAll); }
    for i := 0 to |keys|
      invariant Grouped(folders, keys[..i], cutoff, deleteAll) && "" !in folders
    {
      var key := keys[i];
      PlaceGroups(folders, keys, i, cutoff, deleteAll);
      var folder := ExtractHourFolder(key);
      if folder == "" {
        continue;
      }
      if folder in folders {
        if folders[folder].Some? {
          folders := folders[folder := Some(folders[folder].value + [key])];
        }
        continue;
      }
      var t := ParseHourFolder(folder);
      if t.None? {
        folders := folders[folder := None];
        continue;
      }
      if deleteAll || t.value < cutoff {
        folders := folders[folder := Some([key])];
      } else {
        folders := folders[folder := None];
      }
    }
    assert keys[..|keys|] == keys;
  }

  lemma NoFolders(cutoff: int, deleteAll: bool)
    ensures Grouped(map[], [], cutoff, deleteAll)
  {
  }

  // ----- deleting

  lemma {:induction false} KeysInCount(keys: seq<string>, folder: string, k: string)
    ensures multiset(KeysIn(keys, folder))[k] == if ExtractHourFolder(k) == folder then multiset(keys)[k] else 0
  {
    hide ExtractHourFolder;
    if keys != [] {
      var n := |keys| - 1;
      KeysInCount(keys[..n], folder, k);
      assert keys == keys[..n] + [keys[n]];
    }
  }

  /** All keys of the batches, in order. */
  ghost function Flatten(batches: seq<seq<string>>): seq<string> {
    if batches == [] then [] else Flatten(batches[..|batches| - 1]) + batches[|batches| - 1]
  }

  lemma FlattenMore(batches: seq<seq<string>>, batch: seq<string>)
    ensures Flatten(batches + [batch]) == Flatten(batches) + batch
  {
    assert (batches + [batch])[..|batches|] == batches;
  }

  class ObjectStore {
    var objects: set<string>
    /** The batches whose deletion failed so far. */
    ghost var refused: seq<seq<string>>

    constructor (objects: set<string>)
      ensures this.objects == objects && refused == []
    {
      this.objects := objects;
      refused := [];
    }

    /** On an error any part of the batch may have been deleted. */
    method DeleteBatch(keys: seq<string>) returns (ok: bool)
      modifies this
      ensures refused == old(refused) + if ok then [] else [keys]
      ensures objects <= old(objects) && forall k <- old(objects) :: k !in keys ==> k in objects
      ensures ok ==> forall k <- keys :: k !in objects
    {
      ok := *;
      var part: set<string> := *;
      objects := set k | k in objects && (k !in keys || (!ok && k !in part));
      if !ok {
        refused := refused + [keys];
      }
    }
  }

  /**
   * deleteExpiredHourFolders: one batch per folder, any of which may fail. Every key submitted was due, a key
   * is submitted as often as it was listed and no more, and the total counts the keys of the batches that worked.
   */
  method DeleteExpiredHourFolders(store: ObjectStore, folders: HourFolders, ghost keys: seq<string>,
                                  ghost cutoff: int, ghost deleteAll: bool)
    returns (total: nat, ghost deleted: seq<string>, ghost failed: seq<string>)
    requires Grouped(folders, keys, cutoff, deleteAll) && "" !in folders
    modifies store
    ensures total == |deleted| && old(store.refused) <= store.refused
    ensures failed == Flatten(store.refused[|old(store.refused)|..])
    ensures forall k <- deleted :: k !in store.objects
    ensures store.objects <= old(store.objects)
    ensures forall k <- old(store.objects) :: k !in store.objects ==> k in deleted || k in failed
    ensures forall k ::
      multiset(deleted)[k] + multiset(failed)[k] == if ShouldDelete(k, cutoff, deleteAll) then multiset(keys)[k] else 0
  {
    hide Grouped, Submitted, ShouldDelete;
    total, deleted, failed := 0, [], [];
    assert store.refused[|old(store.refused)|..] == [];
    var rest := folders.Keys;
    NothingSubmitted(folders, keys, cutoff, deleteAll);
    assert multiset(deleted) + multiset(failed) == multiset{};
    while rest != {}
      invariant rest <= folders.Keys && total == |deleted|
      invariant Submitted(multiset(deleted) + multiset(failed), keys, rest, cutoff, deleteAll)
      invariant old(store.refused) <= store.refused && failed == Flatten(store.refused[|old(store.refused)|..])
      invariant store.objects <= old(store.objects) && forall k <- deleted :: k !in store.objects
      invariant forall k <- old(store.objects) :: k !in store.objects ==> k in deleted || k in failed
    {
      ghost var log := store.refused;
      var f :| f in rest;
      var batch := folders[f];
      SubmitFolder(multiset(deleted) + multiset(failed), folders, keys, rest, f, cutoff, deleteAll);
      if batch.Some? {
        var ok := store.DeleteBatch(batch.value);
        if ok {
          assert store.refused == log;
          assert multiset(deleted + batch.value) + multiset(failed) ==
                 multiset(deleted) + multiset(failed) + multiset(batch.value);
          total := total + |batch.value|;
          deleted := deleted + batch.value;
        } else {
          assert multiset(deleted) + multiset(failed + batch.value) ==
                 multiset(deleted) + multiset(failed) + multiset(batch.value);
          assert store.refused == log + [batch.value];
          failed := failed + batch.value;
          FlattenMore(log[|old(store.refused)|..], batch.value);
          assert store.refused[|old(store.refused)|..] == log[|old(store.refused)|..] + [batch.value];
        }
      }
      rest := rest - {f};
    }
    AllSubmitted(multiset(deleted) + multiset(failed), keys, cutoff, deleteAll);
  }

  /** What has been submitted once all folders but `rest` are done. */
  ghost predicate Submitted(sent: multiset<string>, keys: seq<string>, rest: set<string>, cutoff: int,
                            deleteAll: bool) {
    forall k ::
      sent[k] == if ShouldDelete(k, cutoff, deleteAll) && ExtractHourFolder(k) !in rest then multiset(keys)[k] else 0
  }

  lemma NothingSubmitted(folders: HourFolders, keys: seq<string>, cutoff: int, deleteAll: bool)
    requires Grouped(folders, keys, cutoff, deleteAll)
    ensures Submitted(multiset{}, keys, folders.Keys, cutoff, deleteAll)
  {
    hide ExtractHourFolder, Expired;
    forall k | ShouldDelete(k, cutoff, deleteAll) ensures multiset(keys)[k] == 0 || ExtractHourFolder(k) in folders {
      KeysInCount(keys, ExtractHourFolder(k), k);
    }
  }

  /** One more folder adds exactly its own due keys. */
  lemma SubmitFolder(sent: multiset<string>, folders: HourFolders, keys: seq<string>, rest: set<string>, f: string,
                     cutoff: int, deleteAll: bool)
    requires Grouped(folders, keys, cutoff, deleteAll) && "" !in folders && f in folders && f in rest
    requires Submitted(sent, keys, rest, cutoff, deleteAll)
    ensures var sent' := if folders[f].Some? then sent + multiset(folders[f].value) else sent;
            Submitted(sent', keys, rest - {f}, cutoff, deleteAll)
  {
    hide ExtractHourFolder, Expired;
    forall k ensures multiset(KeysIn(keys, f))[k] == if ExtractHourFolder(k) == f then multiset(keys)[k] else 0 {
      KeysInCount(keys, f, k);
    }
  }

  lemma AllSubmitted(sent: multiset<string>, keys: seq<string>, cutoff: int, deleteAll: bool)
    requires Submitted(sent, keys, {}, cutoff, deleteAll)
    ensures forall k :: sent[k] == if ShouldDelete(k, cutoff, deleteAll) then multiset(keys)[k] else 0
  {
  }

  /**
   * In retention mode a folder is deleted exactly when an hour is read from it that ended at least the retention
   * period ago; in delete-all mode when any hour is read from it.
   */
  lemma ExpiredIff(now: int, retentionHours: int, folder: string)
    ensures Expired(folder, Cutoff(now, retentionHours), false) <==>
            && ParseHourFolder(folder).Some?
            && ParseHourFolder(folder).value + 3_600_000 <= now - retentionHours * 3_600_000
    ensures Expired(folder, Cutoff(now, retentionHours), true) <==> ParseHourFolder(folder).Some?
  {
    hide ParseHourFolder;
    var limit := now - retentionHours * HOUR;
    FloorIsMultiple(limit, HOUR);
    if ParseHourFolder(folder).Some? {
      var t := ParseHourFolder(folder).value;
      assert t == (t / HOUR) * HOUR && Cutoff(now, retentionHours) == (limit / HOUR) * HOUR;
      if t < Cutoff(now, retentionHours) {
        MultipleGap(t / HOUR, limit / HOUR, HOUR);
      }
    }
  }

  /**
   * For any clock and retention, a key that is deleted names an hour that is over for at least the retention period.
   */
  ghost predicate RetentionKept(key: string, named: int) {
    forall now: int, retentionHours: int :: ShouldDelete(key, Cutoff(now, retentionHours), false) ==>
      named + HOUR <= now - retentionHours * HOUR
  }

  /**
   * For a folder that ends in a complete date path the retention is kept exactly when the hour read is not before
   * the hour the last component of the key names.
   */
  lemma RetentionKeptIff(key: string, at: nat, p: nat, m: nat, d: nat, h: nat)
    requires LastHourAt(key, at) && Names(ExtractHourFolder(key), p, m, d, h)
    ensures var f := ExtractHourFolder(key);
            var named := Fields(f, p, m, d, h);
            && named.hourAt == at && named.end == |f| - 1 && ParseHourFolder(f).Some?
            && (RetentionKept(key, TimeOf(named)) <==> TimeOf(named) <= ParseHourFolder(f).value)
  {
    hide ExtractHourFolder, MatchAt, DateMillis, NumberAt, LastHourAt, Matches, Cutoff;
    var f := ExtractHourFolder(key);
    var named := Fields(f, p, m, d, h);
    FolderIsExact(key);
    LastComponent(key, f, at, p, m, d, h);
    NamedMatch(f, p, m, d, h);
    var read := ParseHourFolder(f).value;
    if TimeOf(named) <= read {
      forall now: int, retentionHours: int | ShouldDelete(key, Cutoff(now, retentionHours), false)
        ensures TimeOf(named) + HOUR <= now - retentionHours * HOUR
      {
        ExpiredIff(now, retentionHours, f);
      }
    } else {
      WholeCutoff(read);
      assert ShouldDelete(key, Cutoff(read + HOUR, 0), false);
    }
  }

  lemma WholeCutoff(t: int)
    requires t % HOUR == 0
    ensures Cutoff(t + HOUR, 0) == t + HOUR
  {
    assert (t + HOUR) % HOUR == 0;
  }

  /** In particular it is kept when nothing before the date path matches the pattern. */
  lemma DeletedHourIsOver(now: int, retentionHours: int, key: string, at: nat, p: nat, m: nat, d: nat, h: nat)
    requires LastHourAt(key, at) && ShouldDelete(key, Cutoff(now, retentionHours), false)
    requires Names(ExtractHourFolder(key), p, m, d, h)
    requires forall q :: 0 <= q < p ==> MatchAt(ExtractHourFolder(key), q).None?
    ensures TimeOf(Fields(ExtractHourFolder(key), p, m, d, h)) + HOUR <= now - retentionHours * HOUR
  {
    hide ExtractHourFolder, MatchAt, DateMillis, NumberAt, LastHourAt, Matches, Cutoff, Expired;
    var f := ExtractHourFolder(key);
    NamedMatch(f, p, m, d, h);
    FirstIsLeftmost(f, 0, p);
    RetentionKeptIff(key, at, p, m, d, h);
  }

  /** The hour component of the date path a folder ends in is the last one of the key. */
  lemma LastComponent(key: string, f: string, at: nat, p: nat, m: nat, d: nat, h: nat)
    requires LastHourAt(key, at) && EndsComponent(f, key, at) && Names(f, p, m, d, h)
    ensures p + 21 + m + d == at
  {
    var n := p + 21 + m + d;
    OccursChar(f, "/hour=", n, 0);
    OccursChar(key, "/hour=", at, 0);
    assert f[n] == key[n] == '/' && f[at] == key[at] == '/';
    forall j | n < j < |f| - 1 ensures f[j] != '/' {
      if j < n + 6 {
        OccursChar(f, "/hour=", n, j - n);
      }
    }
  }

  // ----- a folder written with its date

  lemma FrontOccurrence(pre: string, rest: string, q: nat)
    requires q < |pre| && pre[|pre| - 1] == '/' && OccursAt(pre + rest, "year=", q)
    ensures Contains(pre, "year=")
  {
    var s, last := pre + rest, |pre| - 1;
    assert s[last] == '/' && forall c <- "year=" :: c != '/';
    if q + 5 <= |pre| {
      assert pre[q..q + 5] == s[q..q + 5];
      assert OccursAt(pre, "year=", q);
    } else {
      OccursChar(s, "year=", q, last - q);
    }
  }

  /** A match cannot start in front of the date path when no "year=" does and the front ends at a slash. */
  lemma NoEarlierMatch(pre: string, rest: string, q: nat)
    requires q < |pre| && pre[|pre| - 1] == '/' && !Contains(pre, "year=")
    ensures MatchAt(pre + rest, q).None?
  {
    hide NumberAt, DigitsAt, Greedy, Contains;
    if OccursAt(pre + rest, "year=", q) {
      FrontOccurrence(pre, rest, q);
    }
  }

  /**
   * Retention by the written date: an object directly below year, month, day and hour of a path in front of which
   * nothing else names a year is deleted exactly when that hour ended at least the retention period ago.
   */
  lemma WrittenHourKeptIff(pre: string, y: string, m: string, d: string, h: string, file: string, now: int,
                           retentionHours: int)
    requires (pre == "" || pre[|pre| - 1] == '/') && !Contains(pre, "year=")
    requires GoodFields(y, m, d, h) && |h| <= 2 && '/' !in file && !("hour=" <= file)
    requires AllDigits(y) && AllDigits(m) && AllDigits(d) && AllDigits(h)
    ensures var key := pre + ("year=" + y + "/month=" + m + "/day=" + d + "/hour=" + h) + "/" + file;
            ShouldDelete(key, Cutoff(now, retentionHours), false) <==>
            DateMillis(Value(y), Value(m), Value(d), Value(h)) + 3_600_000 <= now - retentionHours * 3_600_000
  {
    hide MatchAt, NumberAt, DateMillis, Matches, Fields, Value, DatePath, Cutoff, Expired, ExtractHourFolder, AllDigits;
    var f := pre + (DatePath(y, m, d, h) + "/");
    PathIsWritten(y, m, d, h);
    FolderBelow(pre, y, m, d, h, file);
    NamesBelow(pre, y, m, d, h);
    NamedMatch(f, |pre|, |m|, |d|, |h|);
    forall q | 0 <= q < |pre| ensures MatchAt(f, q).None? {
      NoEarlierMatch(pre, DatePath(y, m, d, h) + "/", q);
    }
    FirstIsLeftmost(f, 0, |pre|);
    ExpiredIff(now, retentionHours, f);
    assert ExtractHourFolder(pre + DatePath(y, m, d, h) + "/" + file) == f && |f| > 0;
  }

  lemma PathIsWritten(y: string, m: string, d: string, h: string)
    ensures DatePath(y, m, d, h) == "year=" + y + "/month=" + m + "/day=" + d + "/hour=" + h
  {
  }

  // ----- a recent hour below an old date path

  /** The folder of an object with a plain name. */
  lemma FolderOfObject(pre: string, h: string, file: string)
    requires AllDigits(h) && '/' !in file && !("hour=" <= file)
    ensures var key := pre + "/hour=" + h + "/" + file;
            LastHourAt(key, |pre|) && ExtractHourFolder(key) == pre + "/hour=" + h + "/"
  {
    var key, end := pre + "/hour=" + h + "/" + file, |pre| + 6 + |h|;
    assert key[|pre|..|pre| + 6] == "/hour=";
    assert key[end] == '/' && key[end + 1..] == file;
    forall j: nat | |pre| < j ensures !OccursAt(key, "/hour=", j) {
      NoLaterHour(pre, h, file, j);
    }
    assert EndsComponent(pre + "/hour=" + h + "/", key, |pre|) by {
      assert key[..end] == pre + "/hour=" + h;
      forall j | |pre| < j < end ensures key[j] != '/' {
        InnerIsNoSlash(pre, h, file, j);
      }
    }
    FolderIsExact(key);
    OneHourFolder(ExtractHourFolder(key), pre + "/hour=" + h + "/", key, |pre|, |pre|);
  }

  lemma InnerIsNoSlash(pre: string, h: string, file: string, j: nat)
    requires AllDigits(h) && |pre| < j < |pre| + 6 + |h|
    ensures (pre + "/hour=" + h + "/" + file)[j] != '/'
  {
    var key := pre + "/hour=" + h + "/" + file;
    if j < |pre| + 6 {
      assert key[j] == "/hour="[j - |pre|];
    } else {
      assert key[j] == h[j - |pre| - 6] && h[j - |pre| - 6] in h;
    }
  }

  lemma HourOpensFile(pre: string, h: string, file: string)
    ensures OccursAt(pre + "/hour=" + h + "/" + file, "/hour=", |pre| + 6 + |h|) ==> "hour=" <= file
  {
    var key, end := pre + "/hour=" + h + "/" + file, |pre| + 6 + |h|;
    if OccursAt(key, "/hour=", end) {
      assert file[..5] == key[end..end + 6][1..] == "hour=";
    }
  }

  lemma NoSlashInFile(pre: string, h: string, file: string)
    requires '/' !in file
    ensures var key, end := pre + "/hour=" + h + "/" + file, |pre| + 6 + |h|;
            |key| == end + 1 + |file| && forall i :: end < i < |key| ==> key[i] != '/'
  {
    var key, end := pre + "/hour=" + h + "/" + file, |pre| + 6 + |h|;
    forall i | end < i < |key| ensures key[i] != '/' {
      assert key[i] == file[i - end - 1];
    }
  }

  lemma NoLaterHour(pre: string, h: string, file: string, j: nat)
    requires AllDigits(h) && '/' !in file && !("hour=" <= file) && |pre| < j
    ensures !OccursAt(pre + "/hour=" + h + "/" + file, "/hour=", j)
  {
    hide AllDigits;
    var key, end := pre + "/hour=" + h + "/" + file, |pre| + 6 + |h|;
    NoSlashInFile(pre, h, file);
    HourOpensFile(pre, h, file);
    if OccursAt(key, "/hour=", j) {
      OccursChar(key, "/hour=", j, 0);
      if j < end {
        InnerIsNoSlash(pre, h, file, j);
      }
    }
  }

  /** The key of an object whose hour folder lies below another date path. */
  function BelowOldPath(old_: (string, string, string, string), y: string, m: string, d: string, h: string,
                        file: string): string {
    DatePath(old_.0, old_.1, old_.2, old_.3) + "/" + DatePath(y, m, d, h) + "/" + file
  }

  /** The folder of such a key is the path down to the second hour. */
  lemma FolderBelow(above: string, y: string, m: string, d: string, h: string, file: string)
    requires AllDigits(h) && '/' !in file && !("hour=" <= file)
    ensures ExtractHourFolder(above + DatePath(y, m, d, h) + "/" + file) == above + (DatePath(y, m, d, h) + "/")
  {
    hide LastHourAt, ExtractHourFolder;
    var pre := above + ("year=" + y + "/month=" + m + "/day=" + d);
    FolderOfObject(pre, h, file);
    assert above + DatePath(y, m, d, h) == pre + "/hour=" + h;
    assert above + (DatePath(y, m, d, h) + "/") == pre + "/hour=" + h + "/";
  }

  /** And the hour it names is the second one. */
  lemma NamesBelow(above: string, y: string, m: string, d: string, h: string)
    requires GoodFields(y, m, d, h) && |h| <= 2
    requires AllDigits(y) && AllDigits(m) && AllDigits(d) && AllDigits(h)
    ensures var f := above + (DatePath(y, m, d, h) + "/");
            && Names(f, |above|, |m|, |d|, |h|)
            && Fields(f, |above|, |m|, |d|, |h|) == HourPaths.Written(above, y, m, d, h)
  {
    hide Matches, Fields, Value, DatePath;
    FieldsAsWritten(above, y, m, d, h, "/");
    PathLength(y, m, d, h);
  }

  /** But the hour read is the first one. */
  lemma FirstIsRead(y: string, m: string, d: string, h: string, rest: string)
    requires GoodFields(y, m, d, h) && |h| <= 2
    requires AllDigits(y) && AllDigits(m) && AllDigits(d) && AllDigits(h)
    ensures ParseHourFolder(DatePath(y, m, d, h) + "/" + rest) == Some(TimeOf(HourPaths.Written("", y, m, d, h)))
  {
    hide MatchAt, NumberAt, DateMillis, Matches, FirstMatch, Fields, Value, DatePath;
    var tail := "/" + rest;
    assert DatePath(y, m, d, h) + "/" + rest == DatePath(y, m, d, h) + tail == "" + (DatePath(y, m, d, h) + tail);
    LeadingPathIsRead(y, m, d, h, tail);
    FieldsAsWritten("", y, m, d, h, tail);
  }

  /**
   * For any two dates: an object below both is deleted exactly when the first one is before the cutoff, whatever the
   * second one, which is the hour its folder names.
   */
  lemma OldPathDecides(y: string, m: string, d: string, h: string, y': string, m': string, d': string, h': string,
                       file: string, cutoff: int)
    requires GoodFields(y, m, d, h) && |h| <= 2 && GoodFields(y', m', d', h') && |h'| <= 2
    requires AllDigits(y) && AllDigits(m) && AllDigits(d) && AllDigits(h)
    requires AllDigits(y') && AllDigits(m') && AllDigits(d') && AllDigits(h')
    requires '/' !in file && !("hour=" <= file)
    ensures var key, above := BelowOldPath((y, m, d, h), y', m', d', h', file), DatePath(y, m, d, h) + "/";
            var f, p := ExtractHourFolder(key), |above|;
            && f == above + (DatePath(y', m', d', h') + "/") && Names(f, p, |m'|, |d'|, |h'|)
            && Fields(f, p, |m'|, |d'|, |h'|) == HourPaths.Written(above, y', m', d', h')
            && (ShouldDelete(key, cutoff, false) <==> TimeOf(HourPaths.Written("", y, m, d, h)) < cutoff)
  {
    hide DateMillis, Names, Fields, Value, DatePath, ExtractHourFolder, ParseHourFolder;
    var above := DatePath(y, m, d, h) + "/";
    FolderBelow(above, y', m', d', h', file);
    NamesBelow(above, y', m', d', h');
    FirstIsRead(y, m, d, h, DatePath(y', m', d', h') + "/");
  }

  /**
   * A key whose folder names January 1, 2025, 01:00 and which is deleted two hours later with a retention of four
   * hours, because a date path of 2020 stands above it.
   */
  lemma RecentHourDeleted()
    ensures var key := "year=2020/month=1/day=1/hour=1/year=2025/month=1/day=1/hour=1/x";
            var now, named := DateMillis(2025, 1, 1, 3), DateMillis(2025, 1, 1, 1);
            && Names(ExtractHourFolder(key), 31, 1, 1, 1)
            && TimeOf(Fields(ExtractHourFolder(key), 31, 1, 1, 1)) == named
            && ShouldDelete(key, Cutoff(now, 4), false) && named + HOUR > now - 4 * HOUR
  {
    hide ExtractHourFolder, ShouldDelete, Names, Fields, BelowOldPath, DatePath, Cutoff, DateMillis, Value, AllDigits,
      GoodFields;
    SampleDates();
    SampleKey();
    var now := DateMillis(2025, 1, 1, 3);
    OldPathDecides("2020", "1", "1", "1", "2025", "1", "1", "1", "x", Cutoff(now, 4));
    OldIsBeforeCutoff();
  }

  lemma SampleKey()
    ensures BelowOldPath(("2020", "1", "1", "1"), "2025", "1", "1", "1", "x") ==
            "year=2020/month=1/day=1/hour=1/year=2025/month=1/day=1/hour=1/x"
    ensures |DatePath("2020", "1", "1", "1") + "/"| == 31
  {
    hide DatePath;
    OldSample();
    NewSample();
    SampleTexts();
    var a, b := DatePath("2020", "1", "1", "1"), DatePath("2025", "1", "1", "1");
    assert a + "/" + b + "/" + "x" == (a + "/") + (b + "/x");
  }

  lemma OldSample()
    ensures DatePath("2020", "1", "1", "1") + "/" == "year=2020/month=1/day=1/hour=1/"
  {
    SamplePath("2020", "year=2020");
    hide DatePath;
  }

  lemma NewSample()
    ensures DatePath("2025", "1", "1", "1") + "/x" == "year=2025/month=1/day=1/hour=1/x"
  {
    SamplePath("2025", "year=2025");
    hide DatePath;
  }

  lemma SampleTexts()
    ensures "year=2020/month=1/day=1/hour=1/" + "year=2025/month=1/day=1/hour=1/x" ==
            "year=2020/month=1/day=1/hour=1/year=2025/month=1/day=1/hour=1/x"
  {
  }

  lemma SamplePath(y: string, text: string)
    requires |y| == 4 && text == "year=" + y
    ensures DatePath(y, "1", "1", "1") == text + "/month=1/day=1/hour=1"
  {
  }

  lemma SampleDates()
    ensures GoodFields("2020", "1", "1", "1") && GoodFields("2025", "1", "1", "1")
    ensures AllDigits("2020") && AllDigits("2025") && AllDigits("1")
    ensures Value("2020") == 2020 && Value("2025") == 2025 && Value("1") == 1
  {
    assert "2020" + "1" + "1" + "1" == "2020111" && "2025" + "1" + "1" + "1" == "2025111";
    assert "2020"[..3] == "202" && "2025"[..3] == "202" && "202"[..2] == "20" && "20"[..1] == "2" && "2"[..0] == "";
    assert "1"[..0] == "";
    assert Value("2") == 2 && Value("20") == 20 && Value("202") == 202;
  }

  lemma OldIsBeforeCutoff()
    ensures DateMillis(2020, 1, 1, 1) < Cutoff(DateMillis(2025, 1, 1, 3), 4)
    ensures DateMillis(2025, 1, 1, 1) + HOUR > DateMillis(2025, 1, 1, 3) - 4 * HOUR
  {
    KnownYears();
    FirstMonth(2020);
    FirstMonth(2025);
    DateInYear(2020, 1, 1, 1);
    DateInYear(2025, 1, 1, 3);
    DateInYear(2025, 1, 1, 1);
    hide YearStart, DaysBefore, DateMillis;
    FloorIsMultiple(DateMillis(2025, 1, 1, 3) - 4 * HOUR, HOUR);
  }

  lemma KnownYears()
    ensures YearStart(2025) == YearStart(2020) + 1827
  {
  }
}
