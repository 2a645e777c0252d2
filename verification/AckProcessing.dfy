/** Processing one page of acknowledgements, and the run that pages through all eligible entities. */
module AckProcessing {
  import opened Documents
  import opened Paging
  import opened EntityUpdates
  import opened AckPage

  datatype ProcessStatus = PendingStatus | Processed | Errored | Suppressed

  datatype Row = Row(ack: Ack, process: ProcessStatus)

  type AckRows = map<string, Row>

  /** Requests belong to one entity and have an id. */
  ghost predicate WellKeyed(m: AckMap) {
    && (forall e, e', r :: e in m && e' in m && r in m[e] && r in m[e'] ==> e == e')
    && (forall e, r :: e in m && r in m[e] ==> r != "")
  }

  /** What the entity loop decided: the deciding acknowledgement of each entity that has a latest request. */
  ghost predicate Decided(m: AckMap, flags: FlagMap, chosen: map<string, Ack>) {
    DecidedBut(m, flags, chosen, {})
  }

  /** The same for all entities except those still to be looked at. */
  ghost predicate DecidedBut(m: AckMap, flags: FlagMap, chosen: map<string, Ack>, rest: set<string>) {
    && (forall e :: e in chosen <==> e !in rest && Latest(m, flags, e).Some?)
    && (forall e <- chosen ::
          e in m && Latest(m, flags, e).value in m[e] && IsRelevant(chosen[e], m[e][Latest(m, flags, e).value]))
  }

  ghost function Updates(m: AckMap, flags: FlagMap, chosen: map<string, Ack>): set<Item> {
    set e | e in chosen && SpecForAck(chosen[e]).Update? && Latest(m, flags, e).Some? ::
      (SpecForAck(chosen[e]).key, Pending(e, Latest(m, flags, e).value))
  }

  ghost function LatestWhere(m: AckMap, flags: FlagMap, chosen: map<string, Ack>, suppress: bool): set<string> {
    set e | e in chosen && Latest(m, flags, e).Some? &&
      (if suppress then SpecForAck(chosen[e]).Suppress? else SpecForAck(chosen[e]).Unsupported?) ::
      Latest(m, flags, e).value
  }

  /** startProcessing: decide for every entity, collect the updates, flush them. */
  method StartProcessing(m: AckMap, ghost acks: seq<Ack>, ghost flags: FlagMap, latest: map<string, string>,
                         db: EntityTables, batchSize: int)
    returns (successful: set<string>, failed: set<string>, suppressed: set<string>, ghost chosen: map<string, Ack>,
             ghost done: set<Item>)
    requires Indexes(m, acks) && WellKeyed(m)
    requires forall e ::
      (e in latest <==> Latest(m, flags, e).Some?) && (e in latest ==> Latest(m, flags, e) == Some(latest[e]))
    modifies db
    ensures Decided(m, flags, chosen) && done <= Updates(m, flags, chosen) && Applied(old(db.rows), done, db.rows)
    ensures successful == RequestsOf(done)
    ensures failed == LatestWhere(m, flags, chosen, false) + RequestsOf(Updates(m, flags, chosen) - done)
    ensures suppressed == LatestWhere(m, flags, chosen, true)
    ensures old(db.refused) <= db.refused
    ensures SinglyRefused(db.refused, |old(db.refused)|, Updates(m, flags, chosen) - done)
  {
    hide Latest, SpecForAck, IsRelevant, Indexes, Updates, LatestWhere, Distinct, WellKeyed, Applied, RequestsOf,
      NoRepeats, DecidedBut, SinglyRefused;
    failed, suppressed, chosen := {}, {}, map[];
    NothingChosen(m, flags);
    var collector := new EntityUpdateCollector();
    var entities := m.Keys;
    while entities != {}
      invariant entities <= m.Keys && fresh(collector)
      invariant DecidedBut(m, flags, chosen, entities)
      invariant failed == LatestWhere(m, flags, chosen, false) && suppressed == LatestWhere(m, flags, chosen, true)
      invariant AllItems(collector.updates) == Updates(m, flags, chosen)
      invariant forall k <- collector.updates :: NoRepeats(collector.updates[k])
      invariant db.rows == old(db.rows) && db.refused == old(db.refused)
    {
      var e :| e in entities;
      LatestHasId(m, flags, e);
      if Latest(m, flags, e).None? { SkipEntity(m, flags, chosen, entities, e); }
      ghost var rest := entities;
      entities := entities - {e};
      var latestId := if e in latest then latest[e] else "";
      if latestId == "" {
        continue;
      }
      LatestHasAcks(m, acks, flags, e, latestId);
      var ack := GetRelevantAcknowledgement(m[e][latestId]);
      RelevantIsOwn(m, acks, e, latestId, ack);
      var spec := SpecForAck(ack);
      ghost var was := chosen;
      ChooseEntity(m, flags, chosen, rest, e, latestId, ack);
      chosen := chosen[e := ack];
      ChosenGrows(m, flags, was, e, ack, latestId);
      if spec.Suppress? {
        suppressed := suppressed + {ack.requestId};
      } else if spec.Unsupported? {
        failed := failed + {ack.requestId};
      } else {
        FreshItem(collector.updates, spec.key, m, flags, was, e, latestId);
        collector.Add(spec.key, ack.entityId, ack.requestId);
      }
    }
    UpdatesDistinct(m, flags, chosen);
    var bad;
    successful, bad, done := collector.Flush(db, batchSize);
    failed := failed + bad;
  }

  lemma NothingChosen(m: AckMap, flags: FlagMap)
    ensures LatestWhere(m, flags, map[], true) == {} && LatestWhere(m, flags, map[], false) == {}
    ensures Updates(m, flags, map[]) == {}
    ensures DecidedBut(m, flags, map[], m.Keys)
  {
    hide Latest;
    forall e ensures Latest(m, flags, e).Some? ==> e in m { LatestInPage(m, flags, e); }
  }

  lemma SkipEntity(m: AckMap, flags: FlagMap, chosen: map<string, Ack>, rest: set<string>, e: string)
    requires DecidedBut(m, flags, chosen, rest) && e in rest && Latest(m, flags, e).None?
    ensures DecidedBut(m, flags, chosen, rest - {e})
  {
    hide Latest, IsRelevant;
  }

  lemma ChooseEntity(m: AckMap, flags: FlagMap, chosen: map<string, Ack>, rest: set<string>, e: string, r: string,
                     ack: Ack)
    requires DecidedBut(m, flags, chosen, rest) && e in rest && Latest(m, flags, e) == Some(r)
    requires e in m && r in m[e] && IsRelevant(ack, m[e][r])
    ensures e !in chosen && DecidedBut(m, flags, chosen[e := ack], rest - {e})
  {
    hide Latest, IsRelevant;
  }

  lemma LatestInPage(m: AckMap, flags: FlagMap, e: string)
    ensures Latest(m, flags, e).Some? ==> e in m && Latest(m, flags, e).value in m[e] && e in flags
  {
    LatestIsCandidate(m, flags, e);
  }

  lemma LatestHasId(m: AckMap, flags: FlagMap, e: string)
    requires WellKeyed(m)
    ensures Latest(m, flags, e) != Some("")
  {
    LatestInPage(m, flags, e);
  }

  lemma LatestHasAcks(m: AckMap, acks: seq<Ack>, flags: FlagMap, e: string, r: string)
    requires Indexes(m, acks) && Latest(m, flags, e) == Some(r)
    ensures e in m && r in m[e] && m[e][r] != []
  {
    LatestInPage(m, flags, e);
  }

  lemma RelevantIsOwn(m: AckMap, acks: seq<Ack>, e: string, r: string, ack: Ack)
    requires Indexes(m, acks) && e in m && r in m[e] && IsRelevant(ack, m[e][r])
    ensures ack.entityId == e && ack.requestId == r
  {
    assert Get(m, e, r) == AcksFor(acks, e, r);
    AcksForMembers(acks, e, r, ack);
  }

  lemma ChosenGrows(m: AckMap, flags: FlagMap, was: map<string, Ack>, e: string, ack: Ack, r: string)
    requires e !in was && Latest(m, flags, e) == Some(r)
    ensures var now := was[e := ack];
            && LatestWhere(m, flags, now, true) ==
               LatestWhere(m, flags, was, true) + (if SpecForAck(ack).Suppress? then {r} else {})
            && LatestWhere(m, flags, now, false) ==
               LatestWhere(m, flags, was, false) + (if SpecForAck(ack).Unsupported? then {r} else {})
            && Updates(m, flags, now) ==
               Updates(m, flags, was) + (if SpecForAck(ack).Update? then {(SpecForAck(ack).key, Pending(e, r))} else {})
  {
    hide SpecForAck, Latest;
  }

  lemma FreshItem(updates: map<UpdateKey, seq<Pending>>, key: UpdateKey, m: AckMap, flags: FlagMap,
                  was: map<string, Ack>, e: string, r: string)
    requires AllItems(updates) == Updates(m, flags, was) && e !in was
    requires forall k <- updates :: NoRepeats(updates[k])
    ensures NoRepeats((if key in updates then updates[key] else []) + [Pending(e, r)])
  {
    hide SpecForAck, Latest;
    if key in updates {
      forall p <- updates[key] ensures p.entityId != e {
        assert (key, p) in AllItems(updates);
      }
    }
  }

  lemma UpdatesDistinct(m: AckMap, flags: FlagMap, chosen: map<string, Ack>)
    requires WellKeyed(m) && Decided(m, flags, chosen)
    ensures Distinct(Updates(m, flags, chosen))
  {
    hide SpecForAck, Latest, IsRelevant;
  }

  // ----- exactly one outcome

  /** Exactly one of the three. */
  predicate ExactlyOne(a: bool, b: bool, c: bool) {
    (a && !b && !c) || (!a && b && !c) || (!a && !b && c)
  }

  ghost predicate Outcomes(m: AckMap, flags: FlagMap, chosen: map<string, Ack>, done: set<Item>,
                           successful: set<string>, failed: set<string>, suppressed: set<string>) {
    && Decided(m, flags, chosen) && done <= Updates(m, flags, chosen)
    && successful == RequestsOf(done)
    && failed == LatestWhere(m, flags, chosen, false) + RequestsOf(Updates(m, flags, chosen) - done)
    && (forall r :: r in suppressed <==> Superseded(m, flags, r) || r in LatestWhere(m, flags, chosen, true))
  }

  /** The latest request of an entity is decided by that entity alone. */
  lemma LatestOutcome(m: AckMap, flags: FlagMap, chosen: map<string, Ack>, done: set<Item>,
                      successful: set<string>, failed: set<string>, suppressed: set<string>, e: string, r: string)
    requires Outcomes(m, flags, chosen, done, successful, failed, suppressed) && WellKeyed(m)
    requires Latest(m, flags, e) == Some(r)
    ensures match SpecForAck(chosen[e])
            case Suppress => r in suppressed && r !in successful && r !in failed
            case Unsupported => r in failed && r !in successful && r !in suppressed
            case Update(key) =>
              && r !in suppressed
              && (r in successful <==> (key, Pending(e, r)) in done) && (r in failed <==> (key, Pending(e, r)) !in done)
  {
    hide SpecForAck, Latest, IsRelevant;
    LatestInPage(m, flags, e);
    assert e in chosen;
    forall e' | Latest(m, flags, e') == Some(r) ensures e' == e { LatestInPage(m, flags, e'); }
    assert !Superseded(m, flags, r) by {
      forall e' | Candidate(m, flags, e', r) ensures Latest(m, flags, e') == Some(r) { assert e' == e; }
    }
    if SpecForAck(chosen[e]).Update? {
      assert (SpecForAck(chosen[e]).key, Pending(e, r)) in Updates(m, flags, chosen);
      UpdatesDistinct(m, flags, chosen);
      forall x | x in Updates(m, flags, chosen) && x.1.requestId == r
        ensures x == (SpecForAck(chosen[e]).key, Pending(e, r))
      {
      }
    }
  }

  /**
   * Every request with acknowledgements in the page and a change-flag row has exactly one outcome, and a
   * request without such a row has none.
   */
  lemma OneOutcomeEach(m: AckMap, flags: FlagMap, chosen: map<string, Ack>, done: set<Item>,
                       successful: set<string>, failed: set<string>, suppressed: set<string>, e: string, r: string)
    requires Outcomes(m, flags, chosen, done, successful, failed, suppressed) && WellKeyed(m)
    requires e in m && r in m[e]
    ensures Candidate(m, flags, e, r) ==> ExactlyOne(r in successful, r in failed, r in suppressed)
    ensures !Candidate(m, flags, e, r) ==> r !in successful && r !in failed && r !in suppressed
    ensures Latest(m, flags, e).Some? && Latest(m, flags, e) != Some(r) ==> r !in successful && r !in failed
  {
    hide SpecForAck, Latest, IsRelevant;
    forall e' | Latest(m, flags, e') == Some(r) ensures e' == e && Candidate(m, flags, e, r) {
      LatestInPage(m, flags, e');
      LatestIsCandidate(m, flags, e');
    }
    if Latest(m, flags, e) == Some(r) {
      LatestOutcome(m, flags, chosen, done, successful, failed, suppressed, e, r);
    } else {
      assert forall x <- Updates(m, flags, chosen) :: x.1.requestId != r;
      assert Candidate(m, flags, e, r) ==> Superseded(m, flags, r);
      assert Superseded(m, flags, r) ==> Candidate(m, flags, e, r);
    }
  }

  // ----- marking

  const DEFAULT_QUERY_BATCH_SIZE := 50

  /** UPDATE process_status WHERE id IN ids. */
  function MarkRows(rows: AckRows, ids: set<string>, mark: ProcessStatus): AckRows {
    map id | id in rows :: if id in ids then rows[id].(process := mark) else rows[id]
  }

  /** Only rows in `ids` changed, and only to `mark`. */
  ghost predicate MarkedWithin(rows: AckRows, rows': AckRows, ids: set<string>, mark: ProcessStatus) {
    && rows'.Keys == rows.Keys
    && forall id <- rows :: rows'[id] == rows[id] || (id in ids && rows'[id] == rows[id].(process := mark))
  }

  lemma MarkNothing(rows: AckRows, ids: set<string>, mark: ProcessStatus)
    ensures MarkedWithin(rows, rows, ids, mark) && rows == MarkRows(rows, {}, mark)
  {
  }

  lemma MarkSteps(rows: AckRows, mid: AckRows, ids: set<string>, done: set<string>, batch: set<string>,
                  mark: ProcessStatus)
    requires MarkedWithin(rows, mid, ids, mark) && batch <= ids
    ensures MarkedWithin(rows, MarkRows(mid, batch, mark), ids, mark)
    ensures MarkRows(MarkRows(rows, done, mark), batch, mark) == MarkRows(rows, done + batch, mark)
  {
  }

  function IdsOf(acks: seq<Ack>, requests: set<string>): set<string> {
    set a | a in acks && a.requestId in requests :: a.id
  }

  /** The mark the page gives an acknowledgement's row. */
  function MarkFor(row: Row, successful: set<string>, failed: set<string>, suppressed: set<string>): Row {
    var r := row.ack.requestId;
    if r in successful then row.(process := Processed)
    else if r in failed then row.(process := Errored)
    else if r in suppressed then row.(process := Suppressed)
    else row
  }

  /** The rows that the final clean-up leaves. */
  function Unexpired(rows: AckRows, before: int): AckRows {
    map id | id in rows && !(rows[id].process == Processed && rows[id].ack.timestamp < before) :: rows[id]
  }

  class AckTable {
    var rows: AckRows
    /** How many statements of the job on its own tables failed so far. */
    ghost var failures: nat

    constructor (rows: AckRows)
      ensures this.rows == rows && failures == 0
    {
      this.rows := rows;
      failures := 0;
    }

    /** A query; it may fail. */
    method Ask() returns (ok: bool)
      modifies this`failures
      ensures failures == old(failures) + if ok then 0 else 1
    {
      ok := *;
      if !ok {
        failures := failures + 1;
      }
    }

    method Mark(ids: set<string>, mark: ProcessStatus) returns (ok: bool)
      modifies this
      ensures rows == if ok then MarkRows(old(rows), ids, mark) else old(rows)
      ensures failures == old(failures) + if ok then 0 else 1
    {
      ok := Ask();
      if ok {
        rows := MarkRows(rows, ids, mark);
      }
    }

    /** DeleteRecords: processed acknowledgements from before a moment; an error deletes nothing. */
    method DeleteRecords(before: int) returns (ok: bool)
      modifies this
      ensures rows == if ok then Unexpired(old(rows), before) else old(rows)
      ensures failures == old(failures) + if ok then 0 else 1
    {
      ok := Ask();
      if ok {
        rows := Unexpired(rows, before);
      }
    }

    /** markAcksByIDs: every batch is tried, and any error is reported at the end. */
    method MarkAcksByIds(ids: seq<string>, batchSize: int, mark: ProcessStatus) returns (ok: bool)
      modifies this
      ensures MarkedWithin(old(rows), rows, Elements(ids), mark)
      ensures ok ==> rows == MarkRows(old(rows), Elements(ids), mark)
      ensures old(failures) <= failures && (ok <==> failures == old(failures))
    {
      hide MarkRows, MarkedWithin;
      var size := if batchSize <= 0 then DEFAULT_QUERY_BATCH_SIZE else batchSize;
      ok := true;
      var start := 0;
      MarkNothing(rows, Elements(ids), mark);
      assert Elements(ids[..0]) == {};
      while start < |ids|
        invariant 0 <= start <= |ids|
        invariant MarkedWithin(old(rows), rows, Elements(ids), mark)
        invariant ok ==> rows == MarkRows(old(rows), Elements(ids[..start]), mark)
        invariant old(failures) <= failures && (ok <==> failures == old(failures))
      {
        var end := if start + size > |ids| then |ids| else start + size;
        var batch := set id | id in ids[start..end];
        assert ids[..end] == ids[..start] + ids[start..end];
        assert Elements(ids[..end]) == Elements(ids[..start]) + batch;
        MarkSteps(old(rows), rows, Elements(ids), Elements(ids[..start]), batch, mark);
        var done := Mark(batch, mark);
        if !done {
          ok := false;
        }
        start := end;
      }
      assert ids[..|ids|] == ids;
    }

    /** markAllAcks: processed, then errored, then suppressed; the first error stops the rest. */
    method MarkAllAcks(acks: seq<Ack>, successful: set<string>, failed: set<string>, suppressed: set<string>,
                       batchSize: int)
      returns (ok: bool)
      requires forall a <- acks ::
        ExactlyOne(a.requestId in successful, a.requestId in failed, a.requestId in suppressed) ||
                                   (a.requestId !in successful && a.requestId !in failed && a.requestId !in suppressed)
      requires forall a <- acks :: a.id in rows && rows[a.id].ack == a
      modifies this
      ensures rows.Keys == old(rows).Keys
      ensures forall id <- rows :: rows[id] != old(rows)[id] ==>
                old(rows)[id].ack in acks && rows[id] == MarkFor(old(rows)[id], successful, failed, suppressed)
      ensures ok ==> forall a <- acks :: rows[a.id] == MarkFor(old(rows)[a.id], successful, failed, suppressed)
      ensures old(failures) <= failures && (ok <==> failures == old(failures))
    {
      var ids := CollectIds(acks, successful);
      assert forall id :: id in ids ==> id in IdsOf(acks, successful);
      ok := MarkAcksByIds(ids, batchSize, Processed);
      if !ok {
        return;
      }
      label First:
      ids := CollectIds(acks, failed);
      assert forall id :: id in ids ==> id in IdsOf(acks, failed);
      ok := MarkAcksByIds(ids, batchSize, Errored);
      if !ok {
        return;
      }
      label Second:
      ids := CollectIds(acks, suppressed);
      assert forall id :: id in ids ==> id in IdsOf(acks, suppressed);
      ok := MarkAcksByIds(ids, batchSize, Suppressed);
    }
  }

  method CollectIds(acks: seq<Ack>, requests: set<string>) returns (ids: seq<string>)
    ensures Elements(ids) == IdsOf(acks, requests)
  {
    ids := [];
    for i := 0 to |acks|
      invariant Elements(ids) == IdsOf(acks[..i], requests)
    {
      assert acks[..i + 1] == acks[..i] + [acks[i]];
      assert IdsOf(acks[..i + 1], requests) ==
             IdsOf(acks[..i], requests) + if acks[i].requestId in requests then {acks[i].id} else {};
      if acks[i].requestId in requests {
        assert Elements(ids + [acks[i].id]) == Elements(ids) + {acks[i].id};
        ids := ids + [acks[i].id];
      }
    }
    assert acks[..|acks|] == acks;
  }

  // ----- one page

  function RequestsFor(requests: seq<Request>, e: string): seq<Request> {
    if requests == [] then []
    else
      var last := requests[|requests| - 1];
      RequestsFor(requests[..|requests| - 1], e) + if last.entityId == e then [last] else []
  }

  /** One query: the change-flag rows of some entities, in table order. */
  function RowsWithin(requests: seq<Request>, entities: set<string>): seq<Request> {
    if requests == [] then []
    else
      var last := requests[|requests| - 1];
      RowsWithin(requests[..|requests| - 1], entities) + if last.entityId in entities then [last] else []
  }

  lemma {:induction false} RowsWithinFor(requests: seq<Request>, entities: set<string>, e: string)
    ensures RequestsFor(RowsWithin(requests, entities), e) == if e in entities then RequestsFor(requests, e) else []
  {
    if requests != [] {
      var n := |requests| - 1;
      RowsWithinFor(requests[..n], entities, e);
      var rows := RowsWithin(requests[..n], entities);
      assert (rows + [requests[n]])[..|rows|] == rows;
      assert rows + [] == rows;
    }
  }

  lemma {:induction false} RequestsForJoin(a: seq<Request>, b: seq<Request>, e: string)
    ensures RequestsFor(a + b, e) == RequestsFor(a, e) + RequestsFor(b, e)
    decreases |b|
  {
    if b == [] {
      assert a + b == a;
    } else {
      assert (a + b)[..|a + b| - 1] == a + b[..|b| - 1];
      RequestsForJoin(a, b[..|b| - 1], e);
    }
  }

  /** The rows of the entities queried so far. */
  ghost predicate Fetched(rows: seq<Request>, requests: seq<Request>, entities: seq<string>) {
    forall e :: RequestsFor(rows, e) == if e in entities then RequestsFor(requests, e) else []
  }

  lemma FetchedMore(rows: seq<Request>, requests: seq<Request>, entities: seq<string>, batch: seq<string>)
    requires Fetched(rows, requests, entities) && forall e <- batch :: e !in entities
    ensures Fetched(rows + RowsWithin(requests, Elements(batch)), requests, entities + batch)
  {
    hide RequestsFor, RowsWithin;
    forall e
      ensures RequestsFor(rows + RowsWithin(requests, Elements(batch)), e) ==
              if e in entities + batch then RequestsFor(requests, e) else []
    {
      RequestsForJoin(rows, RowsWithin(requests, Elements(batch)), e);
      RowsWithinFor(requests, Elements(batch), e);
    }
  }

  /** getChangeFlagsForEntities: queries in batches, any of which may fail, and groups the rows by entity. */
  method ChangeFlagsFor(table: AckTable, m: AckMap, requests: seq<Request>, queryBatch: int)
    returns (ok: bool, flags: FlagMap)
    modifies table`failures
    ensures ok ==> FlagsOf(m, flags, requests)
    ensures old(table.failures) <= table.failures && (ok <==> table.failures == old(table.failures))
  {
    hide RequestsFor, RowsWithin, Fetched;
    var entities := EntitiesOf(m.Keys);
    var size := if queryBatch <= 0 then DEFAULT_QUERY_BATCH_SIZE else queryBatch;
    var rows: seq<Request> := [];
    var start := 0;
    NothingFetched(requests);
    assert entities[..0] == [];
    while start < |entities|
      invariant 0 <= start <= |entities| && Fetched(rows, requests, entities[..start])
      invariant table.failures == old(table.failures)
    {
      ok := table.Ask();
      if !ok {
        return false, map[];
      }
      var end := if start + size > |entities| then |entities| else start + size;
      var batch := entities[start..end];
      assert entities[..end] == entities[..start] + batch;
      FetchedMore(rows, requests, entities[..start], batch);
      rows := rows + RowsWithin(requests, set e | e in batch);
      assert (set e | e in batch) == Elements(batch);
      start := end;
    }
    assert entities[..|entities|] == entities;
    flags := GroupByEntity(rows);
    ok := true;
    FlagsAreThose(m, flags, rows, requests, entities);
  }

  lemma FlagsAreThose(m: AckMap, flags: FlagMap, rows: seq<Request>, requests: seq<Request>, entities: seq<string>)
    requires Fetched(rows, requests, entities) && Elements(entities) == m.Keys
    requires forall e ::
      (e in flags <==> RequestsFor(rows, e) != []) && (e in flags ==> flags[e] == RequestsFor(rows, e))
    ensures FlagsOf(m, flags, requests)
  {
    hide RequestsFor;
    assert forall e <- m :: e in entities;
  }

  lemma NothingFetched(requests: seq<Request>)
    ensures Fetched([], requests, [])
  {
  }

  /** The entities of the page, in any order. */
  method EntitiesOf(keys: set<string>) returns (entities: seq<string>)
    ensures Elements(entities) == keys && forall i, j :: 0 <= i < j < |entities| ==> entities[i] != entities[j]
  {
    entities := [];
    var rest := keys;
    while rest != {}
      invariant rest <= keys && Elements(entities) == keys - rest
      invariant forall i, j :: 0 <= i < j < |entities| ==> entities[i] != entities[j]
    {
      var e :| e in rest;
      assert e !in Elements(entities);
      assert Elements(entities + [e]) == Elements(entities) + {e};
      entities, rest := entities + [e], rest - {e};
    }
  }

  method GroupByEntity(rows: seq<Request>) returns (flags: FlagMap)
    ensures forall e ::
      (e in flags <==> RequestsFor(rows, e) != []) && (e in flags ==> flags[e] == RequestsFor(rows, e))
  {
    flags := map[];
    for i := 0 to |rows|
      invariant forall e ::
        (e in flags <==> RequestsFor(rows[..i], e) != []) && (e in flags ==> flags[e] == RequestsFor(rows[..i], e))
    {
      assert rows[..i + 1][..i] == rows[..i];
      var e := rows[i].entityId;
      flags := flags[e := (if e in flags then flags[e] else []) + [rows[i]]];
    }
    assert rows[..|rows|] == rows;
  }

  /** The flags are exactly the stored change-flag rows of the page's entities. */
  ghost predicate FlagsOf(m: AckMap, flags: FlagMap, requests: seq<Request>) {
    flags == map e | e in m && RequestsFor(requests, e) != [] :: RequestsFor(requests, e)
  }

  /** Acknowledgements handled together, with everything that was decided about them. */
  datatype Batch = Batch(acks: seq<Ack>, m: AckMap, flags: FlagMap, chosen: map<string, Ack>, done: set<Item>,
                         successful: set<string>, failed: set<string>, suppressed: set<string>)

  ghost predicate Settled(b: Batch, requests: seq<Request>) {
    && Indexes(b.m, b.acks) && FlagsOf(b.m, b.flags, requests)
    && Outcomes(b.m, b.flags, b.chosen, b.done, b.successful, b.failed, b.suppressed)
  }

  function Marked(row: Row, b: Batch): Row {
    MarkFor(row, b.successful, b.failed, b.suppressed)
  }

  /** Rows changed only to the mark their batch gives them, and when complete all of the batch's rows carry it. */
  ghost predicate Marks(rows: AckRows, rows': AckRows, b: Batch, complete: bool) {
    && rows'.Keys == rows.Keys
    && (forall id <- rows :: rows'[id] == rows[id] || (rows[id].ack in b.acks && rows'[id] == Marked(rows[id], b)))
    && (complete ==> forall id <- rows :: rows[id].ack in b.acks ==> rows'[id] == Marked(rows[id], b))
  }

  /** The updates the batch asked for and did not get. */
  ghost function Unsent(b: Batch): set<Item> {
    Updates(b.m, b.flags, b.chosen) - b.done
  }

  const NO_BATCH := Batch([], map[], map[], map[], {}, {}, {}, {})

  lemma NothingSettled(requests: seq<Request>, rows: AckRows, db: Rows)
    ensures Settled(NO_BATCH, requests) && Marks(rows, rows, NO_BATCH, true) && Applied(db, {}, db)
    ensures Unsent(NO_BATCH) == {}
  {
  }

  /**
   * processAckPage. Whatever fails, the decisions of the batch are the specified ones, exactly the sent updates
   * are applied, an update is missing only if its single-row statement was refused, and marks are right; without
   * an error every acknowledgement of the page is marked. An error before the first update changes nothing.
   */
  method ProcessAckPage(table: AckTable, db: EntityTables, acks: seq<Ack>, requests: seq<Request>, queryBatch: int,
                        updateBatch: int)
    returns (ok: bool, ghost b: Batch)
    requires table as object != db
    requires forall a <- acks :: a.id in table.rows && table.rows[a.id].ack == a && a.requestId != ""
    requires forall id <- table.rows :: table.rows[id].ack.id == id
    requires forall a, b :: a in acks && b in acks && a.requestId == b.requestId ==> a.entityId == b.entityId
    modifies table, db
    ensures b.acks == acks || (!ok && b == NO_BATCH)
    ensures Settled(b, requests) && Applied(old(db.rows), b.done, db.rows) && Marks(old(table.rows), table.rows, b, ok)
    ensures old(db.refused) <= db.refused && SinglyRefused(db.refused, |old(db.refused)|, Unsent(b))
    ensures RowsFollow(old(db.rows), b.done, db.rows)
    ensures old(table.failures) <= table.failures && (ok <==> table.failures == old(table.failures))
    ensures forall a <- b.acks ::
      if Candidate(b.m, b.flags, a.entityId, a.requestId)
      then ExactlyOne(a.requestId in b.successful, a.requestId in b.failed, a.requestId in b.suppressed)
      else table.rows[a.id] == old(table.rows)[a.id]
  {
    hide Indexes, Outcomes, Candidate, WellKeyed, Applied, Latest, Decided, Updates, LatestWhere, Superseded,
      SinglyRefused;
    NothingSettled(requests, table.rows, db.rows);
    NothingRefused(db.refused, {});
    AppliedRowsFollow(db.rows, {}, db.rows);
    b := NO_BATCH;
    var m := PrepareMap(acks);
    PageWellKeyed(m, acks);
    var flags;
    ok, flags := ChangeFlagsFor(table, m, requests, queryBatch);
    if !ok {
      return;
    }
    var latest := FindLatest(m, flags);
    var superseded := FindSuperseded(m, flags, latest);
    var good, bad, exempt;
    ghost var chosen, done;
    good, bad, exempt, chosen, done := StartProcessing(m, acks, flags, latest, db, updateBatch);
    var dropped := superseded + exempt;
    b := Batch(acks, m, flags, chosen, done, good, bad, dropped);
    assert Outcomes(m, flags, chosen, done, good, bad, dropped) by {
      OutcomesIntro(m, flags, chosen, done, good, bad, superseded, exempt);
    }
    forall a <- acks
      ensures Candidate(m, flags, a.entityId, a.requestId) ==>
        ExactlyOne(a.requestId in good, a.requestId in bad, a.requestId in dropped)
      ensures !Candidate(m, flags, a.entityId, a.requestId) ==>
        a.requestId !in good && a.requestId !in bad && a.requestId !in dropped
    {
      AckIsIndexed(m, acks, a);
      OneOutcomeEach(m, flags, chosen, done, good, bad, dropped, a.entityId, a.requestId);
    }
    ok := table.MarkAllAcks(acks, good, bad, dropped, queryBatch);
    AppliedRowsFollow(old(db.rows), done, db.rows);
  }

  lemma OutcomesIntro(m: AckMap, flags: FlagMap, chosen: map<string, Ack>, done: set<Item>,
                      successful: set<string>, failed: set<string>, superseded: set<string>, exempt: set<string>)
    requires Decided(m, flags, chosen) && done <= Updates(m, flags, chosen) && successful == RequestsOf(done)
    requires failed == LatestWhere(m, flags, chosen, false) + RequestsOf(Updates(m, flags, chosen) - done)
    requires exempt == LatestWhere(m, flags, chosen, true)
    requires forall r :: r in superseded <==> Superseded(m, flags, r)
    ensures Outcomes(m, flags, chosen, done, successful, failed, superseded + exempt)
  {
    hide Decided, Updates, LatestWhere, Superseded;
  }

  lemma AckIsIndexed(m: AckMap, acks: seq<Ack>, a: Ack)
    requires Indexes(m, acks) && a in acks
    ensures a.entityId in m && a.requestId in m[a.entityId]
  {
    AcksForMembers(acks, a.entityId, a.requestId, a);
    assert Get(m, a.entityId, a.requestId) == AcksFor(acks, a.entityId, a.requestId);
  }

  lemma PageWellKeyed(m: AckMap, acks: seq<Ack>)
    requires Indexes(m, acks)
    requires forall a <- acks :: a.requestId != ""
    requires forall a, b :: a in acks && b in acks && a.requestId == b.requestId ==> a.entityId == b.entityId
    ensures WellKeyed(m)
  {
    forall e, r | e in m && r in m[e] ensures exists a :: a in acks && a.entityId == e && a.requestId == r {
      assert Get(m, e, r) == AcksFor(acks, e, r);
      AcksForMembers(acks, e, r, m[e][r][0]);
    }
  }

  /** The status an entity gets comes from its latest request, decided by a failure if that request has one. */
  lemma StatusComesFromLatest(m: AckMap, flags: FlagMap, chosen: map<string, Ack>, done: set<Item>,
                              successful: set<string>, failed: set<string>, suppressed: set<string>,
                              rows: Rows, rows': Rows, x: Item)
    requires Outcomes(m, flags, chosen, done, successful, failed, suppressed) && Applied(rows, done, rows')
    requires x in done && RowOf(x) in rows
    ensures var e, r := x.1.entityId, x.1.requestId;
            && Latest(m, flags, e) == Some(r) && e in m && r in m[e] && e in chosen && IsRelevant(chosen[e], m[e][r])
            && SpecForAck(chosen[e]) == Update(x.0)
            && rows'[RowOf(x)] == Guarded(x.0, rows[RowOf(x)])
  {
    hide Latest, IsRelevant, SpecForAck;
  }
}
