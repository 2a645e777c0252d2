/** One page of acknowledgements: grouping, the latest request of each entity, and what becomes of every request. */
module AckPage {
  import opened Documents
  import opened EntityUpdates

  datatype AckStatus = Success | Failure | Unknown
  datatype Action = Delete | OtherAction

  /** The entity types an acknowledgement can name. */
  datatype EntityType =
    | Destination | Lookup | InsightsRule | Rule | Source | Enrichment | Transformer | RouteProcessor | SensitiveData
    | GlobalDestination | CustomNormalization
    | Pipeline | DataReplay | AifWorkflow | AlertConfig
    | OtherType

  /** Timestamps are compared as text in the source; only their order matters here. */
  datatype Ack = Ack(id: string, requestId: string, entityId: string, status: AckStatus, entityType: EntityType,
    action: Action, timestamp: int)

  datatype Request = Request(requestId: string, entityId: string, timestamp: int)

  // ----- grouping acknowledgements by entity and request

  type AckMap = map<string, map<string, seq<Ack>>>

  function AcksFor(acks: seq<Ack>, entity: string, request: string): seq<Ack> {
    if acks == [] then []
    else
      var last := acks[|acks| - 1];
      AcksFor(acks[..|acks| - 1], entity, request) +
        if last.entityId == entity && last.requestId == request then [last] else []
  }

  function Get(m: AckMap, entity: string, request: string): seq<Ack> {
    if entity in m && request in m[entity] then m[entity][request] else []
  }

  function Put(m: AckMap, ack: Ack): AckMap {
    var inner := if ack.entityId in m then m[ack.entityId] else map[];
    m[ack.entityId := inner[ack.requestId := (if ack.requestId in inner then inner[ack.requestId] else []) + [ack]]]
  }

  /** The map holds exactly the acknowledgements, under their own entity and request. */
  ghost predicate Indexes(m: AckMap, acks: seq<Ack>) {
    && (forall e, r :: Get(m, e, r) == AcksFor(acks, e, r))
    && (forall e, r :: e in m && r in m[e] ==> m[e][r] != [])
    && (forall e :: e in m ==> m[e] != map[])
  }

  lemma PutGet(m: AckMap, ack: Ack, e: string, r: string)
    ensures Get(Put(m, ack), e, r) == Get(m, e, r) + if ack.entityId == e && ack.requestId == r then [ack] else []
  {
  }

  lemma IndexesGrow(m: AckMap, acks: seq<Ack>, i: nat)
    requires i < |acks| && Indexes(m, acks[..i])
    ensures Indexes(Put(m, acks[i]), acks[..i + 1])
  {
    hide Get;
    assert acks[..i + 1][..i] == acks[..i];
    forall e, r ensures Get(Put(m, acks[i]), e, r) == AcksFor(acks[..i + 1], e, r) {
      PutGet(m, acks[i], e, r);
      assert Get(m, e, r) == AcksFor(acks[..i], e, r);
    }
  }

  method PrepareMap(acks: seq<Ack>) returns (m: AckMap)
    ensures Indexes(m, acks)
  {
    hide Put;
    m := map[];
    for i := 0 to |acks|
      invariant Indexes(m, acks[..i])
    {
      IndexesGrow(m, acks, i);
      m := Put(m, acks[i]);
    }
    assert acks[..|acks|] == acks;
  }

  lemma {:induction false} AcksForMembers(acks: seq<Ack>, e: string, r: string, a: Ack)
    ensures a in AcksFor(acks, e, r) <==> a in acks && a.entityId == e && a.requestId == r
  {
    if acks != [] {
      AcksForMembers(acks[..|acks| - 1], e, r, a);
      assert acks == acks[..|acks| - 1] + [acks[|acks| - 1]];
    }
  }

  // ----- the latest request of an entity

  type FlagMap = map<string, seq<Request>>

  /** A change-flag row of the entity that has acknowledgements in this page. */
  predicate Candidate(m: AckMap, flags: FlagMap, e: string, r: string) {
    e in m && r in m[e] && e in flags && exists f <- flags[e] :: f.requestId == r
  }

  /** The most recent candidate; the first one listed wins a tie. */
  function Newest(flags: seq<Request>, requests: set<string>): Option<Request> {
    if flags == [] then None
    else
      var best, last := Newest(flags[..|flags| - 1], requests), flags[|flags| - 1];
      if last.requestId !in requests then best
      else if best.None? || last.timestamp > best.value.timestamp then Some(last)
      else best
  }

  function Latest(m: AckMap, flags: FlagMap, e: string): Option<string> {
    if e !in m || e !in flags then None
    else
      var best := Newest(flags[e], m[e].Keys);
      if best.None? then None else Some(best.value.requestId)
  }

  /** Newest is a true maximum over the candidates, and exists when there is one. */
  lemma {:induction false} NewestIsMaximum(flags: seq<Request>, requests: set<string>)
    ensures var best := Newest(flags, requests);
            && (best.None? <==> forall f <- flags :: f.requestId !in requests)
            && (best.Some? ==> best.value in flags && best.value.requestId in requests)
            && (best.Some? ==> forall f <- flags :: f.requestId in requests ==> f.timestamp <= best.value.timestamp)
  {
    if flags != [] {
      NewestIsMaximum(flags[..|flags| - 1], requests);
      assert flags == flags[..|flags| - 1] + [flags[|flags| - 1]];
    }
  }

  lemma LatestIsCandidate(m: AckMap, flags: FlagMap, e: string)
    ensures Latest(m, flags, e).Some? ==> Candidate(m, flags, e, Latest(m, flags, e).value)
    ensures Latest(m, flags, e).None? ==> forall r :: !Candidate(m, flags, e, r)
  {
    if e in m && e in flags {
      NewestIsMaximum(flags[e], m[e].Keys);
    }
  }

  ghost predicate Superseded(m: AckMap, flags: FlagMap, r: string) {
    exists e :: Candidate(m, flags, e, r) && Latest(m, flags, e) != Some(r)
  }

  /** getLatestEntityToRequestId: the first loop. */
  method FindLatest(m: AckMap, flags: FlagMap) returns (latest: map<string, string>)
    ensures forall e ::
      (e in latest <==> Latest(m, flags, e).Some?) && (e in latest ==> Latest(m, flags, e) == Some(latest[e]))
  {
    latest := map[];
    var entities := flags.Keys;
    while entities != {}
      invariant entities <= flags.Keys
      invariant forall e :: e in latest <==> e !in entities && Latest(m, flags, e).Some?
      invariant forall e <- latest :: Latest(m, flags, e) == Some(latest[e])
    {
      var e :| e in entities;
      entities := entities - {e};
      if e !in m {
        continue;
      }
      var list := flags[e];
      var best: Option<Request> := None;
      for i := 0 to |list|
        invariant best == Newest(list[..i], m[e].Keys)
      {
        assert list[..i + 1][..i] == list[..i];
        if list[i].requestId in m[e] && (best.None? || list[i].timestamp > best.value.timestamp) {
          best := Some(list[i]);
        }
      }
      assert list[..|list|] == list;
      if best.Some? {
        latest := latest[e := best.value.requestId];
      }
    }
  }

  /** getLatestEntityToRequestId: the second loop. */
  method FindSuperseded(m: AckMap, flags: FlagMap, latest: map<string, string>) returns (suppressed: set<string>)
    requires forall e ::
      (e in latest <==> Latest(m, flags, e).Some?) && (e in latest ==> Latest(m, flags, e) == Some(latest[e]))
    ensures forall r :: r in suppressed <==> Superseded(m, flags, r)
  {
    hide Latest;
    suppressed := {};
    var entities := flags.Keys;
    while entities != {}
      invariant entities <= flags.Keys
      invariant forall r :: r in suppressed <==>
                exists e :: e !in entities && Candidate(m, flags, e, r) && Latest(m, flags, e) != Some(r)
    {
      var e :| e in entities;
      var mine :=
        if e in m then set i | 0 <= i < |flags[e]| && flags[e][i].requestId in m[e] :: flags[e][i].requestId else {};
      var latestId := if e in latest then latest[e] else "";
      LatestIsCandidate(m, flags, e);
      assert forall r :: r in mine <==> Candidate(m, flags, e, r);
      assert e !in latest ==> mine == {};
      suppressed := suppressed + (mine - {latestId});
      forall r
        ensures r in suppressed <==>
                exists x :: x !in entities - {e} && Candidate(m, flags, x, r) && Latest(m, flags, x) != Some(r)
      {
        if x :| x !in entities - {e} && Candidate(m, flags, x, r) && Latest(m, flags, x) != Some(r) {
          assert x == e || x !in entities;
        }
      }
      entities := entities - {e};
    }
  }

  // ----- the acknowledgement that decides

  /** A failure when the request has one, the newest acknowledgement otherwise. */
  ghost predicate IsRelevant(ack: Ack, acks: seq<Ack>) {
    && ack in acks
    && ((exists a <- acks :: a.status == Failure) ==> ack.status == Failure)
    && ((forall a <- acks :: a.status != Failure) ==> forall a <- acks :: a.timestamp <= ack.timestamp)
  }

  method GetRelevantAcknowledgement(acks: seq<Ack>) returns (ack: Ack)
    requires acks != []
    ensures IsRelevant(ack, acks)
  {
    var errorCount := 0;
    ack := acks[0];
    for i := 0 to |acks|
      invariant errorCount >= 0 && (errorCount == 0 <==> forall j :: 0 <= j < i ==> acks[j].status != Failure)
      invariant ack in acks && (errorCount > 0 ==> ack.status == Failure)
      invariant errorCount == 0 ==> forall j :: 0 <= j < i ==> acks[j].timestamp <= ack.timestamp
    {
      if acks[i].status == Failure {
        errorCount := errorCount + 1;
        ack := acks[i];
      } else if errorCount == 0 {
        if acks[i].timestamp > ack.timestamp {
          ack := acks[i];
        }
      }
    }
  }

  // ----- the update an acknowledgement asks for

  datatype Spec = Update(key: UpdateKey) | Suppress | Unsupported

  function StatusString(ack: Ack): string {
    match ack.status
    case Success => if ack.action == Delete then "DISABLED" else "ACTIVE"
    case Failure => if ack.action == Delete then "DISABLE_ERROR" else "ERRORED"
    case Unknown => ""
  }

  function SpecForAck(ack: Ack): Spec {
    var s := StatusString(ack);
    match ack.entityType
    case Destination => Update(UpdateKey("destination", s, ExcludeDeleted))
    case Lookup => Update(UpdateKey("lookup", s, ExcludeStatusOnly))
    case InsightsRule => Update(UpdateKey("insights_rule", s, ExcludeStatusOnly))
    case Rule => Update(UpdateKey("vc_rule", s, ExcludeDeleted))
    case Source => Update(UpdateKey("log_source", s, ExcludeDeleted))
    case Enrichment => Update(UpdateKey("enrichment", s, ExcludeDeleted))
    case Transformer => Update(UpdateKey("data_transformation", s, ExcludeDeleted))
    case RouteProcessor => Update(UpdateKey("route_processor", s, ExcludeDeleted))
    case SensitiveData => Update(UpdateKey("sensitive_data_config", s, ExcludeDeleted))
    case GlobalDestination => Update(UpdateKey("global_destination_config", s, ExcludeDeleted))
    case CustomNormalization => Update(UpdateKey("custom_normalization", s, ExcludeDeleted))
    case Pipeline | DataReplay | AifWorkflow | AlertConfig => Suppress
    case OtherType => Unsupported
  }
}
