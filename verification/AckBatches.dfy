/**
 * Batches of acknowledgements of different entities do not interfere: handling one and then another has the
 * effect of handling both as a single batch.
 */
module AckBatches {
  import opened Documents
  import opened EntityUpdates
  import opened AckPage
  import opened AckProcessing

  function Both(a: Batch, b: Batch): Batch {
    Batch(a.acks + b.acks, a.m + b.m, a.flags + b.flags, a.chosen + b.chosen, a.done + b.done,
          a.successful + b.successful, a.failed + b.failed, a.suppressed + b.suppressed)
  }

  /** Different entities, and requests that belong to one entity each. */
  ghost predicate Apart(a: seq<Ack>, b: seq<Ack>) {
    && (forall x, y :: x in a && y in b ==> x.entityId != y.entityId)
    && (forall x, y :: x in a && y in b ==> x.requestId != y.requestId)
  }

  // ----- the index

  lemma {:induction false} AcksForJoin(a: seq<Ack>, b: seq<Ack>, e: string, r: string)
    ensures AcksFor(a + b, e, r) == AcksFor(a, e, r) + AcksFor(b, e, r)
    decreases |b|
  {
    if b == [] {
      assert a + b == a;
    } else {
      assert (a + b)[..|a + b| - 1] == a + b[..|b| - 1];
      AcksForJoin(a, b[..|b| - 1], e, r);
    }
  }

  lemma IndexedRequest(m: AckMap, acks: seq<Ack>, e: string, r: string)
    requires Indexes(m, acks)
    ensures e in m && r in m[e] <==> exists a <- acks :: a.entityId == e && a.requestId == r
  {
    assert Get(m, e, r) == AcksFor(acks, e, r);
    if e in m && r in m[e] {
      AcksForMembers(acks, e, r, m[e][r][0]);
    }
    if a :| a in acks && a.entityId == e && a.requestId == r {
      AcksForMembers(acks, e, r, a);
    }
  }

  lemma IndexedEntity(m: AckMap, acks: seq<Ack>, e: string)
    requires Indexes(m, acks)
    ensures e in m <==> exists a <- acks :: a.entityId == e
  {
    if e in m {
      var r :| r in m[e];
      IndexedRequest(m, acks, e, r);
    }
    if a :| a in acks && a.entityId == e {
      IndexedRequest(m, acks, e, a.requestId);
    }
  }

  lemma DisjointEntities(m: AckMap, n: AckMap, a: seq<Ack>, b: seq<Ack>)
    requires Indexes(m, a) && Indexes(n, b) && Apart(a, b)
    ensures m.Keys !! n.Keys
  {
    hide Indexes;
    forall e | e in m && e in n ensures false {
      IndexedEntity(m, a, e);
      IndexedEntity(n, b, e);
    }
  }

  lemma AbsentAcks(m: AckMap, acks: seq<Ack>, e: string, r: string)
    requires Indexes(m, acks) && e !in m
    ensures AcksFor(acks, e, r) == []
  {
    assert Get(m, e, r) == AcksFor(acks, e, r);
  }

  lemma GetBoth(m: AckMap, n: AckMap, a: seq<Ack>, b: seq<Ack>, e: string, r: string)
    requires Indexes(m, a) && Indexes(n, b) && m.Keys !! n.Keys
    ensures Get(m + n, e, r) == AcksFor(a + b, e, r)
  {
    hide AcksFor;
    AcksForJoin(a, b, e, r);
    assert Get(m, e, r) == AcksFor(a, e, r) && Get(n, e, r) == AcksFor(b, e, r);
    if e !in m { AbsentAcks(m, a, e, r); }
    if e !in n { AbsentAcks(n, b, e, r); }
  }

  lemma IndexBoth(m: AckMap, n: AckMap, a: seq<Ack>, b: seq<Ack>)
    requires Indexes(m, a) && Indexes(n, b) && Apart(a, b)
    ensures Indexes(m + n, a + b)
  {
    DisjointEntities(m, n, a, b);
    forall e, r ensures Get(m + n, e, r) == AcksFor(a + b, e, r) {
      GetBoth(m, n, a, b, e, r);
    }
  }

  // ----- the decisions

  /** Two pages' maps side by side. */
  ghost predicate Beside(m: AckMap, flags: FlagMap, n: AckMap, more: FlagMap) {
    m.Keys !! n.Keys && flags.Keys <= m.Keys && more.Keys <= n.Keys
  }

  lemma LatestBoth(m: AckMap, flags: FlagMap, n: AckMap, more: FlagMap, e: string)
    requires Beside(m, flags, n, more)
    ensures Latest(m + n, flags + more, e) == if e in n then Latest(n, more, e) else Latest(m, flags, e)
    ensures forall r :: Candidate(m + n, flags + more, e, r) <==> Candidate(m, flags, e, r) || Candidate(n, more, e, r)
    ensures e !in m ==> Latest(m, flags, e).None? && forall r :: !Candidate(m, flags, e, r)
    ensures e !in n ==> Latest(n, more, e).None? && forall r :: !Candidate(n, more, e, r)
  {
  }

  lemma SupersededBoth(m: AckMap, flags: FlagMap, n: AckMap, more: FlagMap, r: string)
    requires Beside(m, flags, n, more)
    ensures Superseded(m + n, flags + more, r) <==> Superseded(m, flags, r) || Superseded(n, more, r)
  {
    hide Latest, Candidate;
    forall e
      ensures Candidate(m + n, flags + more, e, r) && Latest(m + n, flags + more, e) != Some(r) <==>
              || (Candidate(m, flags, e, r) && Latest(m, flags, e) != Some(r))
              || (Candidate(n, more, e, r) && Latest(n, more, e) != Some(r))
    {
      LatestBoth(m, flags, n, more, e);
    }
  }

  lemma DecidedBoth(m: AckMap, flags: FlagMap, c: map<string, Ack>, n: AckMap, more: FlagMap, d: map<string, Ack>)
    requires Beside(m, flags, n, more) && Decided(m, flags, c) && Decided(n, more, d)
    ensures Decided(m + n, flags + more, c + d) && c.Keys <= m.Keys && d.Keys <= n.Keys
  {
    hide Latest, Candidate, IsRelevant;
    forall e ensures Latest(m + n, flags + more, e) == if e in n then Latest(n, more, e) else Latest(m, flags, e) {
      LatestBoth(m, flags, n, more, e);
    }
    forall e
      ensures e !in m ==> Latest(m, flags, e).None?
      ensures e !in n ==> Latest(n, more, e).None?
    {
      LatestBoth(m, flags, n, more, e);
    }
  }

  lemma UpdatesBoth(m: AckMap, flags: FlagMap, c: map<string, Ack>, n: AckMap, more: FlagMap, d: map<string, Ack>)
    requires Beside(m, flags, n, more) && c.Keys <= m.Keys && d.Keys <= n.Keys
    ensures Updates(m + n, flags + more, c + d) == Updates(m, flags, c) + Updates(n, more, d)
    ensures forall x, y :: x in Updates(m, flags, c) && y in Updates(n, more, d) ==> x.1.entityId != y.1.entityId
  {
    hide Latest, Candidate, SpecForAck;
    forall e ensures Latest(m + n, flags + more, e) == if e in n then Latest(n, more, e) else Latest(m, flags, e) {
      LatestBoth(m, flags, n, more, e);
    }
  }

  lemma LatestWhereBoth(m: AckMap, flags: FlagMap, c: map<string, Ack>, n: AckMap, more: FlagMap, d: map<string, Ack>,
                        s: bool)
    requires Beside(m, flags, n, more) && c.Keys <= m.Keys && d.Keys <= n.Keys
    ensures LatestWhere(m + n, flags + more, c + d, s) == LatestWhere(m, flags, c, s) + LatestWhere(n, more, d, s)
  {
    hide Latest, Candidate, SpecForAck;
    forall e ensures Latest(m + n, flags + more, e) == if e in n then Latest(n, more, e) else Latest(m, flags, e) {
      LatestBoth(m, flags, n, more, e);
    }
  }

  lemma RestOfBoth(u: set<Item>, v: set<Item>, done: set<Item>, more: set<Item>)
    requires done <= u && more <= v && forall x, y :: x in u && y in v ==> x.1.entityId != y.1.entityId
    ensures RequestsOf(done + more) == RequestsOf(done) + RequestsOf(more)
    ensures RequestsOf(u + v - (done + more)) == RequestsOf(u - done) + RequestsOf(v - more)
  {
    assert u !! v;
    assert u + v - (done + more) == (u - done) + (v - more);
  }

  lemma OutcomesBoth(a: Batch, b: Batch)
    requires Beside(a.m, a.flags, b.m, b.flags)
    requires Outcomes(a.m, a.flags, a.chosen, a.done, a.successful, a.failed, a.suppressed)
    requires Outcomes(b.m, b.flags, b.chosen, b.done, b.successful, b.failed, b.suppressed)
    ensures var w := Both(a, b); Outcomes(w.m, w.flags, w.chosen, w.done, w.successful, w.failed, w.suppressed)
  {
    hide Latest, Candidate, SpecForAck, Superseded, Updates, LatestWhere, Beside, RequestsOf, DecidedBut;
    DecidedBoth(a.m, a.flags, a.chosen, b.m, b.flags, b.chosen);
    UpdatesBoth(a.m, a.flags, a.chosen, b.m, b.flags, b.chosen);
    LatestWhereBoth(a.m, a.flags, a.chosen, b.m, b.flags, b.chosen, true);
    LatestWhereBoth(a.m, a.flags, a.chosen, b.m, b.flags, b.chosen, false);
    RestOfBoth(Updates(a.m, a.flags, a.chosen), Updates(b.m, b.flags, b.chosen), a.done, b.done);
    forall r
      ensures Superseded(a.m + b.m, a.flags + b.flags, r) <==>
              Superseded(a.m, a.flags, r) || Superseded(b.m, b.flags, r)
    {
      SupersededBoth(a.m, a.flags, b.m, b.flags, r);
    }
  }

  lemma FlagsBoth(m: AckMap, flags: FlagMap, n: AckMap, more: FlagMap, requests: seq<Request>)
    requires FlagsOf(m, flags, requests) && FlagsOf(n, more, requests) && m.Keys !! n.Keys
    ensures FlagsOf(m + n, flags + more, requests) && Beside(m, flags, n, more)
  {
  }

  lemma SettledBoth(a: Batch, b: Batch, requests: seq<Request>)
    requires Settled(a, requests) && Settled(b, requests) && Apart(a.acks, b.acks)
    ensures Settled(Both(a, b), requests)
  {
    hide Indexes, Outcomes, FlagsOf, Beside, Apart;
    IndexBoth(a.m, b.m, a.acks, b.acks);
    DisjointEntities(a.m, b.m, a.acks, b.acks);
    FlagsBoth(a.m, a.flags, b.m, b.flags, requests);
    OutcomesBoth(a, b);
  }

  // ----- the effects

  lemma AppliedBoth(rows: Rows, mid: Rows, rows': Rows, done: set<Item>, more: set<Item>)
    requires Applied(rows, done, mid) && Applied(mid, more, rows')
    requires forall x, y :: x in done && y in more ==> x.1.entityId != y.1.entityId
    ensures Applied(rows, done + more, rows')
  {
    forall x <- done + more ensures RowOf(x) in rows ==> rows'[RowOf(x)] == Guarded(x.0, rows[RowOf(x)]) {
      if x in more {
        assert forall y <- done :: RowOf(y) != RowOf(x);
      } else {
        assert forall y <- more :: RowOf(y) != RowOf(x);
      }
    }
    forall r | r in rows && forall x <- done + more :: RowOf(x) != r ensures rows'[r] == rows[r] {
      assert forall x <- done :: x in done + more;
      assert forall x <- more :: x in done + more;
    }
  }

  /** A request with an outcome has an acknowledgement in the batch. */
  lemma OutcomeHasAck(b: Batch, requests: seq<Request>, r: string)
    requires Settled(b, requests) && (r in b.successful || r in b.failed || r in b.suppressed)
    ensures exists a <- b.acks :: a.requestId == r
  {
    hide Latest, Indexes, SpecForAck, IsRelevant;
    var e :| e in b.m && r in b.m[e];
    IndexedRequest(b.m, b.acks, e, r);
  }

  lemma ItemHasAck(b: Batch, requests: seq<Request>, x: Item)
    requires Settled(b, requests) && x in b.done
    ensures exists a <- b.acks :: a.entityId == x.1.entityId
  {
    hide Latest, Indexes, SpecForAck, IsRelevant;
    IndexedEntity(b.m, b.acks, x.1.entityId);
  }

  lemma MarksBoth(rows: AckRows, mid: AckRows, rows': AckRows, a: Batch, b: Batch, requests: seq<Request>,
                  complete: bool)
    requires Settled(a, requests) && Settled(b, requests) && Apart(a.acks, b.acks)
    requires Marks(rows, mid, a, true) && Marks(mid, rows', b, complete)
    ensures Marks(rows, rows', Both(a, b), complete)
  {
    hide Settled;
    forall id <- rows
      ensures rows[id].ack in a.acks ==> Marked(rows[id], Both(a, b)) == Marked(rows[id], a)
      ensures rows[id].ack in b.acks ==> Marked(rows[id], Both(a, b)) == Marked(rows[id], b)
    {
      var r := rows[id].ack.requestId;
      if rows[id].ack in a.acks && (r in b.successful || r in b.failed || r in b.suppressed) {
        OutcomeHasAck(b, requests, r);
      }
      if rows[id].ack in b.acks && (r in a.successful || r in a.failed || r in a.suppressed) {
        OutcomeHasAck(a, requests, r);
      }
    }
  }

  lemma UnsentBoth(a: Batch, b: Batch, requests: seq<Request>)
    requires Settled(a, requests) && Settled(b, requests) && Apart(a.acks, b.acks)
    ensures Unsent(Both(a, b)) == Unsent(a) + Unsent(b)
  {
    hide Indexes, Latest, Updates, Superseded, LatestWhere, RequestsOf;
    DisjointEntities(a.m, b.m, a.acks, b.acks);
    DecidedBoth(a.m, a.flags, a.chosen, b.m, b.flags, b.chosen);
    UpdatesBoth(a.m, a.flags, a.chosen, b.m, b.flags, b.chosen);
  }

  /** Handling two batches one after the other is handling them as one. */
  lemma TwoBatchesAsOne(rows: AckRows, mid: AckRows, rows': AckRows, db: Rows, dbMid: Rows, db': Rows, a: Batch,
                        b: Batch, requests: seq<Request>, complete: bool)
    requires Settled(a, requests) && Settled(b, requests) && Apart(a.acks, b.acks)
    requires Marks(rows, mid, a, true) && Marks(mid, rows', b, complete)
    requires Applied(db, a.done, dbMid) && Applied(dbMid, b.done, db')
    ensures Settled(Both(a, b), requests) && Marks(rows, rows', Both(a, b), complete)
    ensures Applied(db, Both(a, b).done, db')
    ensures Unsent(Both(a, b)) == Unsent(a) + Unsent(b)
  {
    hide Settled, Marks, Applied, Unsent;
    UnsentBoth(a, b, requests);
    SettledBoth(a, b, requests);
    MarksBoth(rows, mid, rows', a, b, requests, complete);
    forall x, y | x in a.done && y in b.done ensures x.1.entityId != y.1.entityId {
      ItemHasAck(a, requests, x);
      ItemHasAck(b, requests, y);
    }
    AppliedBoth(db, dbMid, db', a.done, b.done);
  }
}
