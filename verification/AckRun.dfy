/** The acknowledgement job: cursor paging over a table that the pages themselves change. */
module AckRun {
  import opened Documents
  import opened Paging
  import opened EntityUpdates
  import opened AckPage
  import opened AckProcessing
  import opened AckBatches

  const DEFAULT_PAGE := 100
  const MAX_PAGE := 10_000

  function NormalizePageLimit(limit: int): (n: nat)
    ensures 0 < n <= 10_000 && (0 < limit <= 10_000 ==> n == limit)
    ensures (limit <= 0 ==> n == 100) && (limit > 10_000 ==> n == 10_000)
  {
    if limit <= 0 then DEFAULT_PAGE else if limit > MAX_PAGE then MAX_PAGE else limit
  }

  /** Still to be processed, old enough, and within the lookback when there is one. */
  predicate Eligible(row: Row, olderThan: int, lookback: Option<int>) {
    && (row.process == PendingStatus || row.process == Errored)
    && row.ack.timestamp < olderThan && (lookback.None? || row.ack.timestamp >= lookback.value)
  }

  function EligibleEntities(rows: AckRows, olderThan: int, lookback: Option<int>): set<string> {
    set id | id in rows && Eligible(rows[id], olderThan, lookback) :: rows[id].ack.entityId
  }

  /** An empty cursor means no condition on the entity id. */
  function Cursor(last: string): Option<string> {
    if last == "" then None else Some(last)
  }

  ghost predicate WellKeyedTable(rows: AckRows) {
    && (forall id <- rows :: rows[id].ack.id == id && rows[id].ack.requestId != "")
    && (forall a, b :: a in rows && b in rows && rows[a].ack.requestId == rows[b].ack.requestId ==>
          rows[a].ack.entityId == rows[b].ack.entityId)
  }

  /** Rows keep their acknowledgement; rows of entities outside `touched` are exactly as before. */
  ghost predicate OnlyTouched(rows: AckRows, rows': AckRows, touched: set<string>) {
    && rows'.Keys == rows.Keys
    && forall id <- rows ::
         rows'[id].ack == rows[id].ack && (rows[id].ack.entityId !in touched ==> rows'[id] == rows[id])
  }

  lemma PageTouches(rows: AckRows, rows': AckRows, b: Batch, page: set<string>, complete: bool)
    requires Marks(rows, rows', b, complete) && forall a <- b.acks :: a.entityId in page
    ensures OnlyTouched(rows, rows', page)
  {
  }

  /** What lies above the cursor has not been touched, so it is still eligible as it was at the start. */
  lemma AheadUnchanged(rows: AckRows, rows': AckRows, touched: set<string>, olderThan: int, lookback: Option<int>,
                       e: string)
    requires OnlyTouched(rows, rows', touched) && e !in touched
    ensures e in EligibleEntities(rows', olderThan, lookback) <==> e in EligibleEntities(rows, olderThan, lookback)
  {
    if e in EligibleEntities(rows, olderThan, lookback) {
      var id :| id in rows && Eligible(rows[id], olderThan, lookback) && rows[id].ack.entityId == e;
      assert rows'[id] == rows[id];
    }
    if e in EligibleEntities(rows', olderThan, lookback) {
      var id :| id in rows' && Eligible(rows'[id], olderThan, lookback) && rows'[id].ack.entityId == e;
      assert rows'[id] == rows[id];
    }
  }

  /** The eligible acknowledgements of the page's entities, in some order. */
  method GetChangeFlagsByEntityIds(table: AckTable, page: seq<string>, olderThan: int, lookback: Option<int>)
    returns (ok: bool, acks: seq<Ack>)
    requires WellKeyedTable(table.rows)
    modifies table`failures
    ensures table.failures == old(table.failures) + if ok then 0 else 1
    ensures var rows := table.rows; forall a <- acks ::
      a.id in rows && rows[a.id].ack == a && a.entityId in page && Eligible(rows[a.id], olderThan, lookback)
    ensures var rows := table.rows; ok ==> forall id <- rows ::
      Eligible(rows[id], olderThan, lookback) && rows[id].ack.entityId in page ==> rows[id].ack in acks
  {
    acks := [];
    ok := table.Ask();
    if !ok {
      return;
    }
    var rows := table.rows;
    var rest := set id | id in rows && Eligible(rows[id], olderThan, lookback) && rows[id].ack.entityId in page;
    ghost var all := rest;
    while rest != {}
      invariant rest <= all
      invariant forall a <- acks :: a.id in all && rows[a.id].ack == a
      invariant forall id <- all :: id in rest || rows[id].ack in acks
    {
      var id :| id in rest;
      acks := acks + [rows[id].ack];
      rest := rest - {id};
    }
  }

  /** The tables at one moment, with the log of refused statements. */
  datatype Snapshot = Snapshot(acks: AckRows, entities: Rows, refused: seq<Statement>)

  /**
   * The batch holds only acknowledgements of these entities that were eligible in `rows`, and all of them when
   * complete.
   */
  ghost predicate Holds(b: Batch, rows: AckRows, entities: set<string>, olderThan: int, lookback: Option<int>,
                        complete: bool) {
    && (forall a <- b.acks ::
          a.id in rows && rows[a.id].ack == a && a.entityId in entities && Eligible(rows[a.id], olderThan, lookback))
    && (complete ==>
          forall id <- rows :: rows[id].ack.entityId in entities && Eligible(rows[id], olderThan, lookback) ==>
            rows[id].ack in b.acks)
  }

  /**
   * From `s` to `t` exactly this happened: one batch of eligible acknowledgements of the handed entities was
   * settled, its sent updates were applied, an update is missing only if its own statement was refused, and its
   * marks were set. When complete, the batch has all of them and all are marked.
   */
  ghost predicate Handled(s: Snapshot, t: Snapshot, handed: set<string>, b: Batch, requests: seq<Request>,
                          olderThan: int, lookback: Option<int>, complete: bool) {
    && Holds(b, s.acks, handed, olderThan, lookback, complete) && Settled(b, requests)
    && Applied(s.entities, b.done, t.entities) && Marks(s.acks, t.acks, b, complete)
    && OnlyTouched(s.acks, t.acks, handed)
    && s.refused <= t.refused && SinglyRefused(t.refused, |s.refused|, Unsent(b))
  }

  lemma NothingHandled(s: Snapshot, requests: seq<Request>, olderThan: int, lookback: Option<int>)
    ensures Handled(s, s, {}, NO_BATCH, requests, olderThan, lookback, true)
  {
    hide Settled, Marks, Applied, Unsent, SinglyRefused;
    NothingSettled(requests, s.acks, s.entities);
    NothingRefused(s.refused, {});
  }

  lemma PageUnread(s: Snapshot, page: set<string>, requests: seq<Request>, olderThan: int, lookback: Option<int>)
    ensures Handled(s, s, page, NO_BATCH, requests, olderThan, lookback, false)
  {
    hide Settled, Marks, Applied, Unsent, SinglyRefused;
    NothingSettled(requests, s.acks, s.entities);
    NothingRefused(s.refused, {});
    MarksLess(s.acks, NO_BATCH);
  }

  lemma MarksLess(rows: AckRows, b: Batch)
    ensures Marks(rows, rows, b, false)
  {
  }

  /** Reading the acknowledgements of a page and processing them. */
  method HandlePage(table: AckTable, db: EntityTables, page: seq<string>, requests: seq<Request>, olderThan: int,
                    lookback: Option<int>, queryBatch: int, updateBatch: int)
    returns (ok: bool, ghost b: Batch)
    requires table as object != db && WellKeyedTable(table.rows)
    modifies table, db
    ensures Handled(Snapshot(old(table.rows), old(db.rows), old(db.refused)),
                    Snapshot(table.rows, db.rows, db.refused), Elements(page), b, requests, olderThan, lookback, ok)
    ensures old(table.failures) <= table.failures && (ok <==> table.failures == old(table.failures))
  {
    hide Settled, Marks, Candidate, Applied, Unsent, SinglyRefused, Eligible, OnlyTouched, RowsFollow;
    b := NO_BATCH;
    PageUnread(Snapshot(table.rows, db.rows, db.refused), Elements(page), requests, olderThan, lookback);
    var acks;
    ok, acks := GetChangeFlagsByEntityIds(table, page, olderThan, lookback);
    if !ok {
      return;
    }
    ok, b := ProcessAckPage(table, db, acks, requests, queryBatch, updateBatch);
    PageTouches(old(table.rows), table.rows, b, Elements(page), ok);
  }

  lemma ApartInTime(s: Snapshot, mid: Snapshot, handed: set<string>, page: set<string>, b: Batch, next: Batch,
                    olderThan: int, lookback: Option<int>, complete: bool)
    requires WellKeyedTable(s.acks) && OnlyTouched(s.acks, mid.acks, handed) && handed !! page
    requires Holds(b, s.acks, handed, olderThan, lookback, true)
    requires Holds(next, mid.acks, page, olderThan, lookback, complete)
    ensures Apart(b.acks, next.acks) && Holds(Both(b, next), s.acks, handed + page, olderThan, lookback, complete)
  {
    hide Eligible;
  }

  /** What was handled before a page and what the page handles add up. */
  lemma HandledBoth(s: Snapshot, mid: Snapshot, t: Snapshot, handed: set<string>, page: set<string>, b: Batch,
                    next: Batch, requests: seq<Request>, olderThan: int, lookback: Option<int>, complete: bool)
    requires WellKeyedTable(s.acks) && handed !! page
    requires Handled(s, mid, handed, b, requests, olderThan, lookback, true)
    requires Handled(mid, t, page, next, requests, olderThan, lookback, complete)
    ensures Handled(s, t, handed + page, Both(b, next), requests, olderThan, lookback, complete)
  {
    hide Settled, Marks, Applied, Unsent, SinglyRefused, Eligible, OnlyTouched, Holds, Both, Apart;
    ApartInTime(s, mid, handed, page, b, next, olderThan, lookback, complete);
    TwoBatchesAsOne(s.acks, mid.acks, t.acks, s.entities, mid.entities, t.entities, b, next, requests, complete);
    RefusalsGrow(mid.refused, t.refused, |s.refused|, |mid.refused|, |s.refused|, Unsent(b), Unsent(next));
    TouchedBoth(s.acks, mid.acks, t.acks, handed, page);
  }

  lemma TouchedBoth(rows: AckRows, mid: AckRows, rows': AckRows, touched: set<string>, page: set<string>)
    requires OnlyTouched(rows, mid, touched) && OnlyTouched(mid, rows', page)
    ensures OnlyTouched(rows, rows', touched + page)
  {
  }

  lemma StoppedEarly(s: Snapshot, t: Snapshot, handed: set<string>, b: Batch, requests: seq<Request>, olderThan: int,
                     lookback: Option<int>)
    requires Handled(s, t, handed, b, requests, olderThan, lookback, true)
    ensures Handled(s, t, handed, b, requests, olderThan, lookback, false)
  {
    hide Settled, Applied, Unsent, SinglyRefused, Eligible, OnlyTouched;
  }

  /**
   * forEachEntityPage with the page handler: each page changes process_status, and acknowledgements that failed
   * stay eligible; still, every entity handed over is handed to exactly one page, in order, and whatever fails the
   * pages together did what one batch of all those entities' acknowledgements does. When no call fails these are
   * all entities, and so all acknowledgements, eligible at the start, and each one is marked.
   */
  method ForEachEntityPage(table: AckTable, db: EntityTables, requests: seq<Request>, olderThan: int,
                           lookback: Option<int>, pageSize: int, queryBatch: int, updateBatch: int,
                           less: (string, string) -> bool)
    returns (ok: bool, handed: seq<string>, pages: nat, ghost b: Batch)
    requires StrictTotalOrder(less) && table as object != db && WellKeyedTable(table.rows)
    requires "" !in EligibleEntities(table.rows, olderThan, lookback)
    modifies table, db
    ensures Ascending(handed, less) && Elements(handed) <= EligibleEntities(old(table.rows), olderThan, lookback)
    ensures Handled(Snapshot(old(table.rows), old(db.rows), old(db.refused)),
                    Snapshot(table.rows, db.rows, db.refused), Elements(handed), b, requests, olderThan, lookback, ok)
    ensures RowsFollow(old(db.rows), b.done, db.rows)
    ensures old(table.failures) <= table.failures && (ok <==> table.failures == old(table.failures))
    ensures ok ==> Elements(handed) == EligibleEntities(old(table.rows), olderThan, lookback)
    ensures ok ==> forall id <- old(table.rows) :: Eligible(old(table.rows)[id], olderThan, lookback) ==>
      old(table.rows)[id].ack in b.acks
  {
    hide StrictTotalOrder, IsPage, Eligible, EligibleEntities, Handled, RowsFollow;
    ghost var start := EligibleEntities(table.rows, olderThan, lookback);
    ghost var first := Snapshot(table.rows, db.rows, db.refused);
    ghost var now := first;
    var last := "";
    handed, pages, b := [], 0, NO_BATCH;
    NothingHandled(first, requests, olderThan, lookback);
    assert Elements(handed) == {} && Above(start, None, less) == start;
    while true
      invariant now == Snapshot(table.rows, db.rows, db.refused) && table.failures == old(table.failures)
      invariant Ascending(handed, less) && Handled(first, now, Elements(handed), b, requests, olderThan, lookback, true)
      invariant Elements(handed) + Above(start, Cursor(last), less) == start
      invariant Elements(handed) !! Above(start, Cursor(last), less)
      invariant forall p, k :: p in handed && k in Above(start, Cursor(last), less) ==> less(p, k)
      decreases Above(start, Cursor(last), less)
    {
      HandledRowsFollow(first, now, Elements(handed), b, requests, olderThan, lookback, true);
      ok := table.Ask();
      if !ok {
        StoppedEarly(first, now, Elements(handed), b, requests, olderThan, lookback);
        return;
      }
      var keys := EligibleEntities(table.rows, olderThan, lookback);
      var size := NormalizePageLimit(pageSize);
      RestUnchanged(first, now, Elements(handed), b, requests, olderThan, lookback);
      SameAhead(first.acks, now.acks, handed, start, Cursor(last), olderThan, lookback, less);
      var page := FetchPage(keys, Cursor(last), size, less);
      SamePage(page, keys, start, Cursor(last), size, less);
      if page == [] {
        EmptyPageIsEnd(page, start, Cursor(last), size, less);
        AllHanded(first, now, Elements(handed), b, requests, olderThan, lookback);
        break;
      }
      pages := pages + 1;
      PageInView(page, start, Cursor(last), size, less);
      ghost var next;
      ok, next := HandlePage(table, db, page, requests, olderThan, lookback, queryBatch, updateBatch);
      HandledBoth(first, now, Snapshot(table.rows, db.rows, db.refused), Elements(handed), Elements(page), b, next,
                  requests, olderThan, lookback, ok);
      now := Snapshot(table.rows, db.rows, db.refused);
      PageAdvances(page, start, Cursor(last), size, less);
      VisitedGrows(handed, page, start, Cursor(last), size, less);
      b := Both(b, next);
      handed := handed + page;
      HandledRowsFollow(first, now, Elements(handed), b, requests, olderThan, lookback, ok);
      if !ok {
        return;
      }
      last := page[|page| - 1];
      assert last in Elements(handed) && last in start;
    }
  }

  lemma HandledRowsFollow(s: Snapshot, t: Snapshot, handed: set<string>, b: Batch, requests: seq<Request>,
                          olderThan: int, lookback: Option<int>, complete: bool)
    requires Handled(s, t, handed, b, requests, olderThan, lookback, complete)
    ensures RowsFollow(s.entities, b.done, t.entities)
  {
    hide Settled, Marks, Applied, Unsent, SinglyRefused, Eligible, RowsFollow;
    AppliedRowsFollow(s.entities, b.done, t.entities);
  }

  lemma RestUnchanged(s: Snapshot, t: Snapshot, handed: set<string>, b: Batch, requests: seq<Request>, olderThan: int,
                      lookback: Option<int>)
    requires WellKeyedTable(s.acks) && Handled(s, t, handed, b, requests, olderThan, lookback, true)
    ensures OnlyTouched(s.acks, t.acks, handed) && WellKeyedTable(t.acks)
  {
    hide Settled, Marks, Applied, Unsent, SinglyRefused, Eligible;
  }

  lemma AllHanded(s: Snapshot, t: Snapshot, handed: set<string>, b: Batch, requests: seq<Request>, olderThan: int,
                  lookback: Option<int>)
    requires Handled(s, t, handed, b, requests, olderThan, lookback, true)
    requires EligibleEntities(s.acks, olderThan, lookback) <= handed
    ensures forall id <- s.acks :: Eligible(s.acks[id], olderThan, lookback) ==> s.acks[id].ack in b.acks
  {
    hide Settled, Marks, Applied, Unsent, SinglyRefused, Eligible;
  }

  /**
   * ProcessAck: the pages, and if no call failed the clean-up. `paged` is the table in between. Whatever fails, only
   * processed acknowledgements are deleted, so what still is to be done stays.
   */
  method ProcessAck(table: AckTable, db: EntityTables, requests: seq<Request>, olderThan: int, lookback: Option<int>,
                    deleteBefore: int, pageSize: int, queryBatch: int, updateBatch: int, less: (string, string) -> bool)
    returns (ok: bool, allPaged: bool, handed: seq<string>, pages: nat, ghost paged: AckRows, ghost b: Batch)
    requires StrictTotalOrder(less) && table as object != db && WellKeyedTable(table.rows)
    requires "" !in EligibleEntities(table.rows, olderThan, lookback)
    modifies table, db
    ensures Ascending(handed, less) && Elements(handed) <= EligibleEntities(old(table.rows), olderThan, lookback)
    ensures Handled(Snapshot(old(table.rows), old(db.rows), old(db.refused)),
                    Snapshot(paged, db.rows, db.refused), Elements(handed), b, requests, olderThan, lookback, allPaged)
    ensures allPaged ==> Elements(handed) == EligibleEntities(old(table.rows), olderThan, lookback)
    ensures allPaged ==> forall id <- old(table.rows) :: Eligible(old(table.rows)[id], olderThan, lookback) ==>
      old(table.rows)[id].ack in b.acks
    ensures table.rows == if ok then Unexpired(paged, deleteBefore) else paged
    ensures RowsFollow(old(db.rows), b.done, db.rows)
    ensures old(table.failures) <= table.failures && (ok <==> table.failures == old(table.failures))
    ensures ok ==> allPaged && Cleaned(paged, table.rows, deleteBefore)
    ensures TakesOpen(old(table.rows), b.acks, olderThan, lookback, allPaged)
    ensures forall id <- old(table.rows) :: id !in table.rows ==>
      paged[id].process == Processed && paged[id].ack.timestamp < deleteBefore
  {
    hide Handled, EligibleEntities, Eligible, StrictTotalOrder, RowsFollow;
    allPaged, handed, pages, b :=
      ForEachEntityPage(table, db, requests, olderThan, lookback, pageSize, queryBatch, updateBatch, less);
    HandledKeepsRows(Snapshot(old(table.rows), old(db.rows), old(db.refused)),
                     Snapshot(table.rows, db.rows, db.refused), Elements(handed), b,
                     requests, olderThan, lookback, allPaged);
    paged := table.rows;
    ok := false;
    HandledTakesOpen(Snapshot(old(table.rows), old(db.rows), old(db.refused)),
                     Snapshot(table.rows, db.rows, db.refused), Elements(handed), b,
                     requests, olderThan, lookback, allPaged);
    if allPaged {
      ok := table.DeleteRecords(deleteBefore);
    }
  }

  /** Exactly the processed rows from before the moment are gone; the others are as they were. */
  ghost predicate Cleaned(rows: AckRows, rows': AckRows, before: int) {
    && (forall id <- rows :: id !in rows' <==> rows[id].process == Processed && rows[id].ack.timestamp < before)
    && forall id <- rows' :: id in rows && rows'[id] == rows[id]
  }

  /**
   * The acknowledgements taken were pending or errored, old enough and not too old, and of those all are taken when
   * complete.
   */
  ghost predicate TakesOpen(rows: AckRows, acks: seq<Ack>, olderThan: int, lookback: Option<int>, complete: bool) {
    && (forall a <- acks ::
          && a.id in rows && rows[a.id].ack == a && rows[a.id].process in {PendingStatus, Errored}
          && a.timestamp < olderThan && (lookback == None || lookback.value <= a.timestamp))
    && (complete ==> forall id <- rows |
          && rows[id].process in {PendingStatus, Errored} && rows[id].ack.timestamp < olderThan
          && (lookback == None || lookback.value <= rows[id].ack.timestamp) ::
          rows[id].ack in acks)
  }

  lemma HandledTakesOpen(s: Snapshot, t: Snapshot, handed: set<string>, b: Batch, requests: seq<Request>,
                         olderThan: int, lookback: Option<int>, complete: bool)
    requires Handled(s, t, handed, b, requests, olderThan, lookback, complete)
    requires complete ==> handed == EligibleEntities(s.acks, olderThan, lookback)
    ensures TakesOpen(s.acks, b.acks, olderThan, lookback, complete)
  {
    hide Settled, Marks, Applied, Unsent, SinglyRefused;
    forall id | id in s.acks && complete && Eligible(s.acks[id], olderThan, lookback) ensures s.acks[id].ack in b.acks {
      assert s.acks[id].ack.entityId in handed;
    }
  }

  lemma HandledKeepsRows(s: Snapshot, t: Snapshot, handed: set<string>, b: Batch, requests: seq<Request>,
                         olderThan: int, lookback: Option<int>, complete: bool)
    requires Handled(s, t, handed, b, requests, olderThan, lookback, complete)
    ensures t.acks.Keys == s.acks.Keys
  {
    hide Settled, Applied, Unsent, SinglyRefused, Eligible, Marks;
  }

  /** What a completed run leaves on an acknowledgement it handled: the one outcome of its request, or no change. */
  lemma OneMarkEach(rows: AckRows, rows': AckRows, b: Batch, requests: seq<Request>, id: string)
    requires WellKeyedTable(rows) && Settled(b, requests) && Marks(rows, rows', b, true)
    requires forall a <- b.acks :: a.id in rows && rows[a.id].ack == a
    requires id in rows && rows[id].ack in b.acks
    ensures var a := rows[id].ack;
            if Candidate(b.m, b.flags, a.entityId, a.requestId)
            then ExactlyOne(a.requestId in b.successful && rows'[id].process == Processed,
                            a.requestId in b.failed && rows'[id].process == Errored,
                            a.requestId in b.suppressed && rows'[id].process == Suppressed)
            else rows'[id] == rows[id]
  {
    hide Indexes, Outcomes, Candidate;
    var a := rows[id].ack;
    PageWellKeyed(b.m, b.acks);
    AckIsIndexed(b.m, b.acks, a);
    OneOutcomeEach(b.m, b.flags, b.chosen, b.done, b.successful, b.failed, b.suppressed, a.entityId, a.requestId);
  }

  lemma PageInView(page: seq<string>, keys: set<string>, cursor: Option<string>, size: nat,
                   less: (string, string) -> bool)
    requires IsPage(page, keys, cursor, size, less)
    ensures Elements(page) <= Above(keys, cursor, less)
  {
  }

  lemma SameAhead(rows: AckRows, rows': AckRows, handed: seq<string>, start: set<string>, cursor: Option<string>,
                  olderThan: int, lookback: Option<int>, less: (string, string) -> bool)
    requires OnlyTouched(rows, rows', Elements(handed)) && start == EligibleEntities(rows, olderThan, lookback)
    requires Elements(handed) <= start && Elements(handed) !! Above(start, cursor, less)
    ensures Above(EligibleEntities(rows', olderThan, lookback), cursor, less) == Above(start, cursor, less)
  {
    hide Eligible, EligibleEntities, OnlyTouched;
    forall e
      ensures e in Above(EligibleEntities(rows', olderThan, lookback), cursor, less) <==>
              e in Above(start, cursor, less)
    {
      if e !in Elements(handed) {
        AheadUnchanged(rows, rows', Elements(handed), olderThan, lookback, e);
      }
    }
  }

  lemma SamePage(page: seq<string>, keys: set<string>, start: set<string>, cursor: Option<string>, size: nat,
                 less: (string, string) -> bool)
    requires IsPage(page, keys, cursor, size, less) && Above(keys, cursor, less) == Above(start, cursor, less)
    ensures IsPage(page, start, cursor, size, less)
  {
  }
}
