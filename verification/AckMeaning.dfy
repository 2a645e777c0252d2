/** What an acknowledgement run writes into the entity tables, said from the acknowledgements and change-flag rows. */
module AckMeaning {
  import opened Documents
  import opened EntityUpdates
  import opened AckPage
  import opened AckProcessing
  import opened AckBatches

  /** The status text that an acknowledgement stands for. */
  predicate StatusText(ack: Ack, status: string) {
    && (ack.status == Success && ack.action == OtherAction ==> status == "ACTIVE")
    && (ack.status == Success && ack.action == Delete ==> status == "DISABLED")
    && (ack.status == Failure && ack.action == OtherAction ==> status == "ERRORED")
    && (ack.status == Failure && ack.action == Delete ==> status == "DISABLE_ERROR")
    && (ack.status == Unknown ==> status == "")
  }

  /** The table in which entities of this type live. */
  predicate LivesIn(t: EntityType, table: string) {
    || (t == Destination && table == "destination") || (t == Lookup && table == "lookup")
    || (t == InsightsRule && table == "insights_rule") || (t == Rule && table == "vc_rule")
    || (t == Source && table == "log_source") || (t == Enrichment && table == "enrichment")
    || (t == Transformer && table == "data_transformation") || (t == RouteProcessor && table == "route_processor")
    || (t == SensitiveData && table == "sensitive_data_config")
    || (t == GlobalDestination && table == "global_destination_config")
    || (t == CustomNormalization && table == "custom_normalization")
  }

  /** Lookups and insights rules are the types whose deleted rows are not spared. */
  predicate AsksFor(ack: Ack, key: UpdateKey) {
    && StatusText(ack, key.status) && LivesIn(ack.entityType, key.table)
    && (key.guard == ExcludeStatusOnly <==> ack.entityType == Lookup || ack.entityType == InsightsRule)
  }

  /** What an acknowledgement asks for, type by type. */
  lemma SpecIsWritten(ack: Ack)
    ensures SpecForAck(ack).Suppress? <==> ack.entityType in {Pipeline, DataReplay, AifWorkflow, AlertConfig}
    ensures SpecForAck(ack).Unsupported? <==> ack.entityType == OtherType
    ensures SpecForAck(ack).Update? ==> AsksFor(ack, SpecForAck(ack).key)
    ensures forall key :: AsksFor(ack, key) ==> SpecForAck(ack) == Update(key)
  {
  }

  lemma {:induction false} RequestsForMembers(requests: seq<Request>, e: string, q: Request)
    ensures q in RequestsFor(requests, e) <==> q in requests && q.entityId == e
  {
    if requests != [] {
      RequestsForMembers(requests[..|requests| - 1], e, q);
      assert requests == requests[..|requests| - 1] + [requests[|requests| - 1]];
    }
  }

  ghost predicate Acknowledges(a: Ack, e: string, r: string) {
    a.entityId == e && a.requestId == r
  }

  /**
   * `a` decides request `r` of entity `e`: it is a failure if the request has one, and otherwise there is no later
   * acknowledgement of the request.
   */
  ghost predicate Decides(a: Ack, acks: seq<Ack>, e: string, r: string) {
    && a in acks && Acknowledges(a, e, r)
    && ((exists c <- acks :: Acknowledges(c, e, r) && c.status == Failure) ==> a.status == Failure)
    && ((forall c <- acks :: Acknowledges(c, e, r) ==> c.status != Failure) ==>
          forall c <- acks :: Acknowledges(c, e, r) ==> c.timestamp <= a.timestamp)
  }

  /** Of the entity's change-flag rows with acknowledgements none is later than one of request `r`. */
  ghost predicate IsLatest(acks: seq<Ack>, requests: seq<Request>, e: string, r: string) {
    exists p <- requests ::
      && p.entityId == e && p.requestId == r
      && forall q <- requests :: q.entityId == e && (exists c <- acks :: Acknowledges(c, e, q.requestId)) ==>
           q.timestamp <= p.timestamp
  }

  /**
   * Every update that a run applied is the one that the deciding acknowledgement of the entity's latest request asks
   * for; with `RowsFollow` this gives the text of every row from the acknowledgements alone.
   */
  lemma DoneFollowsAcks(b: Batch, requests: seq<Request>, x: Item)
    requires Settled(b, requests) && x in b.done
    ensures IsLatest(b.acks, requests, x.1.entityId, x.1.requestId)
    ensures exists a :: Decides(a, b.acks, x.1.entityId, x.1.requestId) && AsksFor(a, x.0)
  {
    hide Indexes, Latest, IsRelevant, SpecForAck, Superseded, LatestWhere, RequestsFor, AcksFor;
    var e, r := x.1.entityId, x.1.requestId;
    assert Latest(b.m, b.flags, e) == Some(r) && e in b.chosen && SpecForAck(b.chosen[e]) == Update(x.0);
    LatestInPage(b.m, b.flags, e);
    LatestFromRows(b, requests, e, r);
    DecidingAck(b.m, b.acks, b.chosen[e], e, r);
    SpecIsWritten(b.chosen[e]);
  }

  lemma DecidingAck(m: AckMap, acks: seq<Ack>, a: Ack, e: string, r: string)
    requires Indexes(m, acks) && e in m && r in m[e] && IsRelevant(a, m[e][r])
    ensures Decides(a, acks, e, r)
  {
    assert m[e][r] == Get(m, e, r) == AcksFor(acks, e, r);
    forall c ensures c in m[e][r] <==> c in acks && Acknowledges(c, e, r) {
      AcksForMembers(acks, e, r, c);
    }
  }

  lemma LatestFromRows(b: Batch, requests: seq<Request>, e: string, r: string)
    requires Indexes(b.m, b.acks) && FlagsOf(b.m, b.flags, requests)
    requires e in b.m && e in b.flags && Latest(b.m, b.flags, e) == Some(r)
    ensures IsLatest(b.acks, requests, e, r)
  {
    hide Indexes, RequestsFor, AcksFor;
    var best := Newest(b.flags[e], b.m[e].Keys);
    NewestIsMaximum(b.flags[e], b.m[e].Keys);
    var p := best.value;
    RequestsForMembers(requests, e, p);
    forall q | q in requests && q.entityId == e && exists c <- b.acks :: Acknowledges(c, e, q.requestId)
      ensures q.timestamp <= p.timestamp
    {
      RequestsForMembers(requests, e, q);
      IndexedRequest(b.m, b.acks, e, q.requestId);
    }
  }

  /**
   * And for every entity with an acknowledged change-flag row some deciding acknowledgement of a latest request is
   * followed: the update it asks for was applied, unless its own single-row statement was refused.
   */
  lemma AskedIsDone(b: Batch, requests: seq<Request>, log: seq<Statement>, n: nat, a: Ack)
    requires Settled(b, requests) && SinglyRefused(log, n, Unsent(b)) && a in b.acks
    requires exists q <- requests :: q.entityId == a.entityId && q.requestId == a.requestId
    ensures exists d: Ack, r ::
      && IsLatest(b.acks, requests, a.entityId, r) && Decides(d, b.acks, a.entityId, r)
      && forall key :: AsksFor(d, key) ==>
           || (key, Pending(a.entityId, r)) in b.done
           || exists k :: n <= k < |log| && log[k] == (key, {a.entityId})
  {
    hide Indexes, Latest, IsRelevant, SpecForAck, Superseded, LatestWhere, AsksFor, Decides, IsLatest;
    var e := a.entityId;
    ChosenHasAll(b, requests, a);
    var d, r := b.chosen[e], Latest(b.m, b.flags, e).value;
    LatestInPage(b.m, b.flags, e);
    LatestFromRows(b, requests, e, r);
    DecidingAck(b.m, b.acks, d, e, r);
    SpecIsWritten(d);
    forall key | AsksFor(d, key)
      ensures (key, Pending(e, r)) in b.done || exists k :: n <= k < |log| && log[k] == (key, {e})
    {
      var x := (key, Pending(e, r));
      assert x in Updates(b.m, b.flags, b.chosen);
      if x !in b.done {
        assert x in Unsent(b);
      }
    }
  }

  /**
   * Every entity with acknowledgements of a change-flag row has a latest request, and so a deciding acknowledgement.
   */
  lemma ChosenHasAll(b: Batch, requests: seq<Request>, a: Ack)
    requires Settled(b, requests) && a in b.acks
    requires exists q <- requests :: q.entityId == a.entityId && q.requestId == a.requestId
    ensures a.entityId in b.chosen
  {
    hide Indexes, IsRelevant, SpecForAck, Superseded, LatestWhere, Latest, RequestsFor;
    var e := a.entityId;
    var q :| q in requests && q.entityId == e && q.requestId == a.requestId;
    AckIsIndexed(b.m, b.acks, a);
    RequestsForMembers(requests, e, q);
    assert Candidate(b.m, b.flags, e, a.requestId);
    LatestIsCandidate(b.m, b.flags, e);
  }
}
