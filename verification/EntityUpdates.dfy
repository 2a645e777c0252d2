/** Batched status updates with a retry and a per-row fallback, against one-by-one guarded updates. */
module EntityUpdates {

  const STATUS_DELETED := "DELETED"
  const DEFAULT_BATCH_SIZE := 100

  datatype Guard = ExcludeDeleted | ExcludeStatusOnly

  /** Pending updates are collected per table, new status and guard. */
  datatype UpdateKey = UpdateKey(table: string, status: string, guard: Guard)

  datatype Pending = Pending(entityId: string, requestId: string)

  /** The status of every entity row, by table and id. */
  type Rows = map<(string, string), string>

  /** What one guarded UPDATE does to a row it addresses. */
  function Guarded(key: UpdateKey, status: string): string {
    if key.guard == ExcludeDeleted && status == STATUS_DELETED then status else key.status
  }

  /** UPDATE table SET status WHERE id IN ids AND the guard holds. */
  function UpdateRows(rows: Rows, key: UpdateKey, ids: set<string>): Rows {
    map r | r in rows :: if r.0 == key.table && r.1 in ids then Guarded(key, rows[r]) else rows[r]
  }

  // ----- specification

  type Item = (UpdateKey, Pending)

  function RowOf(x: Item): (string, string) {
    (x.0.table, x.1.entityId)
  }

  /** The rows after each of `done` was applied once, on its own; all other rows are as before. */
  ghost predicate Applied(rows: Rows, done: set<Item>, rows': Rows) {
    && rows'.Keys == rows.Keys
    && (forall x <- done :: RowOf(x) in rows ==> rows'[RowOf(x)] == Guarded(x.0, rows[RowOf(x)]))
    && (forall r <- rows :: (forall x <- done :: RowOf(x) != r) ==> rows'[r] == rows[r])
  }

  /**
   * What a reader of the tables sees: every row that an update of `done` names has that update's status, unless the
   * update spares deleted rows and the row is one; every other row is as before.
   */
  ghost predicate RowsFollow(rows: Rows, done: set<Item>, rows': Rows) {
    && rows'.Keys == rows.Keys
    && (forall x <- done :: (x.0.table, x.1.entityId) in rows ==>
          var r := (x.0.table, x.1.entityId);
          rows'[r] == if x.0.guard == ExcludeDeleted && rows[r] == "DELETED" then "DELETED" else x.0.status)
    && (forall r <- rows :: (forall x <- done :: x.0.table != r.0 || x.1.entityId != r.1) ==> rows'[r] == rows[r])
  }

  lemma AppliedRowsFollow(rows: Rows, done: set<Item>, rows': Rows)
    requires Applied(rows, done, rows')
    ensures RowsFollow(rows, done, rows')
  {
    forall x | x in done && (x.0.table, x.1.entityId) in rows
      ensures var r := (x.0.table, x.1.entityId);
              rows'[r] == if x.0.guard == ExcludeDeleted && rows[r] == "DELETED" then "DELETED" else x.0.status
    {
      assert rows'[RowOf(x)] == Guarded(x.0, rows[RowOf(x)]);
    }
    forall r | r in rows && forall x <- done :: x.0.table != r.0 || x.1.entityId != r.1 ensures rows'[r] == rows[r] {
      assert forall x <- done :: RowOf(x) != r;
    }
  }

  ghost function ItemsOf(key: UpdateKey, items: seq<Pending>): set<Item> {
    set p | p in items :: (key, p)
  }

  ghost function AllItems(updates: map<UpdateKey, seq<Pending>>): set<Item> {
    set k, p | k in updates && p in updates[k] :: (k, p)
  }

  ghost function RequestsOf(items: set<Item>): set<string> {
    set x | x in items :: x.1.requestId
  }

  /** One pending update per entity and per request. */
  ghost predicate Distinct(items: set<Item>) {
    forall x, y :: x in items && y in items && x != y ==> x.1.entityId != y.1.entityId && x.1.requestId != y.1.requestId
  }

  ghost predicate NoRepeats(items: seq<Pending>) {
    forall i, j :: 0 <= i < j < |items| ==> items[i] != items[j]
  }

  /** Sending a group of rows in one statement is the same as sending them one at a time. */
  lemma UpdateIsApplied(rows: Rows, done: set<Item>, mid: Rows, key: UpdateKey, ps: seq<Pending>, ids: set<string>)
    requires Applied(rows, done, mid) && Distinct(done + ItemsOf(key, ps)) && done !! ItemsOf(key, ps)
    requires ids == set p | p in ps :: p.entityId
    ensures Applied(rows, done + ItemsOf(key, ps), UpdateRows(mid, key, ids))
  {
    var after, all := UpdateRows(mid, key, ids), done + ItemsOf(key, ps);
    forall x | x in all && RowOf(x) in rows ensures after[RowOf(x)] == Guarded(x.0, rows[RowOf(x)]) {
      if x in done {
        assert forall p <- ps :: (key, p) in all && p.entityId != x.1.entityId;
      } else {
        assert forall y <- done :: y in all && RowOf(y) != RowOf(x);
      }
    }
    forall r | r in rows && forall x <- all :: RowOf(x) != r ensures after[r] == rows[r] {
      assert forall p <- ps :: (key, p) in all;
    }
  }

  /** Replaying updates that were all applied changes nothing. */
  lemma ReplayIsNoOp(rows: Rows, done: set<Item>, once: Rows, twice: Rows)
    requires Applied(rows, done, once) && Applied(once, done, twice)
    ensures twice == once
  {
    forall r <- once ensures twice[r] == once[r] {
      if x :| x in done && RowOf(x) == r {
        assert twice[r] == Guarded(x.0, once[r]) && once[r] == Guarded(x.0, rows[r]);
      }
    }
  }

  /** A deleted row of a guarded table stays deleted whatever is applied. */
  lemma DeletedStays(rows: Rows, done: set<Item>, rows': Rows, r: (string, string))
    requires Applied(rows, done, rows') && r in rows && rows[r] == STATUS_DELETED
    requires forall x <- done :: x.0.table == r.0 ==> x.0.guard == ExcludeDeleted
    ensures rows'[r] == STATUS_DELETED
  {
    if x :| x in done && RowOf(x) == r {
      assert rows'[r] == Guarded(x.0, rows[r]);
    }
  }

  // ----- the collector

  type Statement = (UpdateKey, set<string>)

  /** Each of the items had a single-row statement of its own that failed, at or after position `n` of the log. */
  ghost predicate SinglyRefused(log: seq<Statement>, n: int, items: set<Item>) {
    forall x <- items :: exists k :: 0 <= n <= k < |log| && log[k] == (x.0, {x.1.entityId})
  }

  lemma NothingRefused(log: seq<Statement>, items: set<Item>)
    requires items == {}
    ensures SinglyRefused(log, |log|, items)
  {
  }

  lemma RefusalsGrow(log: seq<Statement>, log': seq<Statement>, n: nat, n': nat, m: nat, items: set<Item>,
                     more: set<Item>)
    requires log <= log' && m <= n && m <= n' && SinglyRefused(log, n, items) && SinglyRefused(log', n', more)
    ensures SinglyRefused(log', m, items + more)
  {
    forall x <- items ensures exists k :: m <= k < |log'| && log'[k] == (x.0, {x.1.entityId}) {
      var k :| 0 <= n <= k < |log| && log[k] == (x.0, {x.1.entityId});
      assert log'[k] == log[k];
    }
    forall x <- more ensures exists k :: m <= k < |log'| && log'[k] == (x.0, {x.1.entityId}) {
      var k :| 0 <= n' <= k < |log'| && log'[k] == (x.0, {x.1.entityId});
      assert m <= k;
    }
  }

  /** The entity tables; a statement that fails changes no row. */
  class EntityTables {
    var rows: Rows
    /** The statements that failed so far. */
    ghost var refused: seq<Statement>

    constructor (rows: Rows)
      ensures this.rows == rows && refused == []
    {
      this.rows := rows;
      refused := [];
    }

    method Update(key: UpdateKey, ids: set<string>) returns (ok: bool)
      modifies this
      ensures rows == if ok then UpdateRows(old(rows), key, ids) else old(rows)
      ensures refused == old(refused) + if ok then [] else [(key, ids)]
    {
      ok := *;
      if ok {
        rows := UpdateRows(rows, key, ids);
      } else {
        refused := refused + [(key, ids)];
      }
    }
  }

  class EntityUpdateCollector {
    var updates: map<UpdateKey, seq<Pending>>

    constructor ()
      ensures updates == map[]
    {
      updates := map[];
    }

    method Add(key: UpdateKey, entityId: string, requestId: string)
      modifies this
      ensures updates ==
              var before := if key in old(updates) then old(updates)[key] else [];
              old(updates)[key := before + [Pending(entityId, requestId)]]
      ensures AllItems(updates) == AllItems(old(updates)) + {(key, Pending(entityId, requestId))}
    {
      var items := if key in updates then updates[key] else [];
      updates := updates[key := items + [Pending(entityId, requestId)]];
    }

    /**
     * Sends everything collected, in batches, for any order of the keys. A request fails only when the update
     * of its own single row was refused.
     */
    method Flush(db: EntityTables, batchSize: int)
      returns (successful: set<string>, failed: set<string>, ghost done: set<Item>)
      requires Distinct(AllItems(updates)) && forall k <- updates :: NoRepeats(updates[k])
      modifies db
      ensures done <= AllItems(updates) && Applied(old(db.rows), done, db.rows)
      ensures RowsFollow(old(db.rows), done, db.rows)
      ensures successful == RequestsOf(done) && failed == RequestsOf(AllItems(updates) - done)
      ensures successful !! failed && successful + failed == RequestsOf(AllItems(updates))
      ensures old(db.refused) <= db.refused && SinglyRefused(db.refused, |old(db.refused)|, AllItems(updates) - done)
    {
      hide SinglyRefused;
      var size := if batchSize <= 0 then DEFAULT_BATCH_SIZE else batchSize;
      successful, failed, done := {}, {}, {};
      ghost var seen: set<Item> := {};
      NothingRefused(db.refused, seen - done);
      var keys := updates.Keys;
      while keys != {}
        invariant keys <= updates.Keys
        invariant done <= seen && seen == (set k, p | k in updates && k !in keys && p in updates[k] :: (k, p))
        invariant Applied(old(db.rows), done, db.rows)
        invariant successful == RequestsOf(done) && failed == RequestsOf(seen - done)
        invariant old(db.refused) <= db.refused && SinglyRefused(db.refused, |old(db.refused)|, seen - done)
      {
        var key :| key in keys;
        ghost var log := db.refused;
        var ok, bad;
        ghost var more;
        assert ItemsOf(key, updates[key]) <= AllItems(updates);
        assert seen <= AllItems(updates) && seen !! ItemsOf(key, updates[key]);
        ok, bad, more := FlushKey(db, key, updates[key], size, old(db.rows), done);
        assert RequestsOf(done + more) == RequestsOf(done) + RequestsOf(more);
        assert seen + ItemsOf(key, updates[key]) - (done + more) == (seen - done) + (ItemsOf(key, updates[key]) - more);
        assert RequestsOf(seen + ItemsOf(key, updates[key]) - (done + more)) ==
               RequestsOf(seen - done) + RequestsOf(ItemsOf(key, updates[key]) - more);
        RefusalsGrow(log, db.refused, |old(db.refused)|, |log|, |old(db.refused)|, seen - done,
                     ItemsOf(key, updates[key]) - more);
        successful, failed, done := successful + ok, failed + bad, done + more;
        seen := seen + ItemsOf(key, updates[key]);
        keys := keys - {key};
      }
      assert seen == AllItems(updates);
      AppliedRowsFollow(old(db.rows), done, db.rows);
      assert RequestsOf(seen) == RequestsOf(done) + RequestsOf(seen - done);
    }
  }

  method FlushKey(db: EntityTables, key: UpdateKey, items: seq<Pending>, size: nat, ghost before: Rows,
                  ghost done: set<Item>)
    returns (successful: set<string>, failed: set<string>, ghost more: set<Item>)
    requires size > 0 && NoRepeats(items) && Distinct(done + ItemsOf(key, items)) && done !! ItemsOf(key, items)
    requires Applied(before, done, db.rows)
    modifies db
    ensures more <= ItemsOf(key, items) && Applied(before, done + more, db.rows)
    ensures successful == RequestsOf(more) && failed == RequestsOf(ItemsOf(key, items) - more)
    ensures old(db.refused) <= db.refused && SinglyRefused(db.refused, |old(db.refused)|, ItemsOf(key, items) - more)
  {
    hide SinglyRefused;
    successful, failed, more := {}, {}, {};
    var start := 0;
    assert done + more == done && ItemsOf(key, items[..0]) == {};
    NothingRefused(db.refused, ItemsOf(key, items[..0]) - more);
    while start < |items|
      invariant 0 <= start <= |items|
      invariant more <= ItemsOf(key, items[..start]) && Applied(before, done + more, db.rows)
      invariant successful == RequestsOf(more) && failed == RequestsOf(ItemsOf(key, items[..start]) - more)
      invariant old(db.refused) <= db.refused
      invariant SinglyRefused(db.refused, |old(db.refused)|, ItemsOf(key, items[..start]) - more)
    {
      ghost var log := db.refused;
      var end := if start + size > |items| then |items| else start + size;
      var batch := items[start..end];
      SliceItems(key, items, start, end);
      DistinctSub(done + ItemsOf(key, items), done + more + ItemsOf(key, batch));
      var ok, bad;
      ghost var sent;
      ok, bad, sent := FlushBatch(db, key, batch, before, done + more);
      assert done + more + sent == done + (more + sent);
      assert RequestsOf(more + sent) == RequestsOf(more) + RequestsOf(sent);
      ghost var first, second := ItemsOf(key, items[..start]), ItemsOf(key, batch);
      assert first + second - (more + sent) == (first - more) + (second - sent);
      assert RequestsOf(first + second - (more + sent)) == RequestsOf(first - more) + RequestsOf(second - sent);
      RefusalsGrow(log, db.refused, |old(db.refused)|, |log|, |old(db.refused)|, first - more, second - sent);
      successful, failed, more := successful + ok, failed + bad, more + sent;
      start := end;
    }
    assert items[..|items|] == items;
  }

  lemma SliceItems(key: UpdateKey, items: seq<Pending>, start: nat, end: nat)
    requires start <= end <= |items| && NoRepeats(items)
    ensures ItemsOf(key, items[..end]) == ItemsOf(key, items[..start]) + ItemsOf(key, items[start..end])
    ensures ItemsOf(key, items[..start]) !! ItemsOf(key, items[start..end])
    ensures ItemsOf(key, items[..end]) <= ItemsOf(key, items) && NoRepeats(items[start..end])
  {
    assert items[..end] == items[..start] + items[start..end];
  }

  lemma DistinctSub(items: set<Item>, sub: set<Item>)
    requires Distinct(items) && sub <= items
    ensures Distinct(sub)
  {
  }

  /**
   * One batch: the statement, once more if it failed, and then row by row; only a refused single update fails a
   * request.
   */
  method FlushBatch(db: EntityTables, key: UpdateKey, batch: seq<Pending>, ghost before: Rows, ghost done: set<Item>)
    returns (successful: set<string>, failed: set<string>, ghost sent: set<Item>)
    requires Distinct(done + ItemsOf(key, batch)) && done !! ItemsOf(key, batch) && NoRepeats(batch)
    requires Applied(before, done, db.rows)
    modifies db
    ensures sent <= ItemsOf(key, batch) && Applied(before, done + sent, db.rows)
    ensures successful == RequestsOf(sent) && failed == RequestsOf(ItemsOf(key, batch) - sent)
    ensures old(db.refused) <= db.refused && SinglyRefused(db.refused, |old(db.refused)|, ItemsOf(key, batch) - sent)
  {
    hide SinglyRefused, Applied, Distinct, RequestsOf;
    var ids := set p | p in batch :: p.entityId;
    WholeBatch(key, batch);
    UpdateIsApplied(before, done, db.rows, key, batch, ids);
    var ok := db.Update(key, ids);
    if !ok {
      ok := db.Update(key, ids);
    }
    ghost var log := db.refused;
    NothingRefusedSince(log, |old(db.refused)|);
    if ok {
      successful, failed, sent := (set p | p in batch :: p.requestId), {}, ItemsOf(key, batch);
      return;
    }
    successful, failed, sent := FlushSingly(db, key, batch, before, done);
    RefusalsGrow(log, db.refused, |old(db.refused)|, |log|, |old(db.refused)|, {}, ItemsOf(key, batch) - sent);
    assert {} + (ItemsOf(key, batch) - sent) == ItemsOf(key, batch) - sent;
  }

  lemma WholeBatch(key: UpdateKey, batch: seq<Pending>)
    ensures RequestsOf(ItemsOf(key, batch)) == (set p | p in batch :: p.requestId)
    ensures ItemsOf(key, batch) - ItemsOf(key, batch) == {} && RequestsOf({}) == {}
  {
    assert forall p <- batch :: (key, p) in ItemsOf(key, batch);
  }

  lemma NothingRefusedSince(log: seq<Statement>, n: int)
    ensures SinglyRefused(log, n, {})
  {
  }

  /** One statement per row. */
  method FlushSingly(db: EntityTables, key: UpdateKey, batch: seq<Pending>, ghost before: Rows, ghost done: set<Item>)
    returns (successful: set<string>, failed: set<string>, ghost sent: set<Item>)
    requires Distinct(done + ItemsOf(key, batch)) && done !! ItemsOf(key, batch) && NoRepeats(batch)
    requires Applied(before, done, db.rows)
    modifies db
    ensures sent <= ItemsOf(key, batch) && Applied(before, done + sent, db.rows)
    ensures successful == RequestsOf(sent) && failed == RequestsOf(ItemsOf(key, batch) - sent)
    ensures old(db.refused) <= db.refused && SinglyRefused(db.refused, |old(db.refused)|, ItemsOf(key, batch) - sent)
  {
    hide SinglyRefused, Applied, Distinct, RequestsOf;
    successful, failed, sent := {}, {}, {};
    assert done + sent == done && ItemsOf(key, batch[..0]) == {};
    NothingRefused(db.refused, {});
    NoRequests();
    assert ItemsOf(key, batch[..0]) - sent == {};
    for i := 0 to |batch|
      invariant sent <= ItemsOf(key, batch[..i]) && Applied(before, done + sent, db.rows)
      invariant successful == RequestsOf(sent) && failed == RequestsOf(ItemsOf(key, batch[..i]) - sent)
      invariant old(db.refused) <= db.refused
      invariant SinglyRefused(db.refused, |old(db.refused)|, ItemsOf(key, batch[..i]) - sent)
    {
      ghost var log := db.refused;
      var p := batch[i];
      ghost var first := ItemsOf(key, batch[..i]);
      SliceItems(key, batch, i, i + 1);
      assert batch[i..i + 1] == [p] && ItemsOf(key, [p]) == {(key, p)};
      DistinctSub(done + ItemsOf(key, batch), done + sent + ItemsOf(key, [p]));
      UpdateIsApplied(before, done + sent, db.rows, key, [p], {p.entityId});
      assert done + sent + {(key, p)} == done + (sent + {(key, p)});
      OneMore(first, sent, key, p);
      var ok := db.Update(key, {p.entityId});
      if ok {
        assert db.refused == log;
        successful, sent := successful + {p.requestId}, sent + {(key, p)};
      } else {
        OneRefused(log, key, p);
        RefusalsGrow(log, db.refused, |old(db.refused)|, |log|, |old(db.refused)|, first - sent, {(key, p)});
        failed := failed + {p.requestId};
      }
    }
    assert batch[..|batch|] == batch;
  }

  lemma NoRequests()
    ensures RequestsOf({}) == {}
  {
  }

  lemma OneMore(first: set<Item>, sent: set<Item>, key: UpdateKey, p: Pending)
    requires (key, p) !in first && sent <= first
    ensures RequestsOf(sent + {(key, p)}) == RequestsOf(sent) + {p.requestId}
    ensures first + {(key, p)} - (sent + {(key, p)}) == first - sent
    ensures first + {(key, p)} - sent == (first - sent) + {(key, p)}
    ensures RequestsOf(first + {(key, p)} - sent) == RequestsOf(first - sent) + {p.requestId}
  {
    assert first + {(key, p)} - sent == (first - sent) + {(key, p)};
  }

  lemma OneRefused(log: seq<Statement>, key: UpdateKey, p: Pending)
    ensures SinglyRefused(log + [(key, {p.entityId})], |log|, {(key, p)})
  {
    assert (log + [(key, {p.entityId})])[|log|] == (key, {p.entityId});
  }
}
