/** The documents of a statistics index and the keys a roll-up groups them by. */
module Documents {
  import opened SetSums

  datatype Option<+T> = None | Some(value: T)

  const MISSING := "N/A"

  /** The nine grouping tags of a counter; a tag may be absent from a document. */
  datatype Dims = Dims(
    name: Option<string>, namespace: Option<string>, sourceId: Option<string>,
    destinationId: Option<string>, ruleId: Option<string>, fleetNodeId: Option<string>,
    operatorId: Option<string>, targetNodeId: Option<string>, routeKey: Option<string>)

  /** `ts` is tags.db_ts_win in epoch milliseconds. */
  datatype Doc = Doc(tenant: Option<string>, dims: Dims, ts: int, counter: int)

  /** The key of one composite bucket. */
  datatype Key = Key(
    name: string, namespace: string, sourceId: string, destinationId: string, ruleId: string,
    fleetNodeId: string, operatorId: string, targetNodeId: string, routeKey: string, bucket: int)

  /** A document id: the hash of (key, source index) is taken to be injective, so it is that pair. */
  datatype DocId = Raw(n: int) | Rolled(key: Key, src: string)

  type Index = map<DocId, Doc>

  /** What the terms script returns for a possibly absent field. */
  function OrNA(tag: Option<string>): string {
    if tag.Some? then tag.value else MISSING
  }

  /** normalizeRolloverTagValue */
  function Norm(value: string): string {
    if value == "" then MISSING else value
  }

  /** Start of the fixed-interval histogram bucket of width `w` that holds `t`. */
  function FloorTo(t: int, w: int): int {
    if w <= 0 then t else t - t % w
  }

  function KeyOf(d: Doc, w: int): Key {
    Key(OrNA(d.dims.name), OrNA(d.dims.namespace), OrNA(d.dims.sourceId), OrNA(d.dims.destinationId),
        OrNA(d.dims.ruleId), OrNA(d.dims.fleetNodeId), OrNA(d.dims.operatorId), OrNA(d.dims.targetNodeId),
        OrNA(d.dims.routeKey), FloorTo(d.ts, w))
  }

  lemma KeyBucket(d: Doc, w: int)
    ensures KeyOf(d, w).bucket == FloorTo(d.ts, w)
  {
  }

  /** The document written for bucket `k`: a sample of the bucket with the key's tags stamped on it. */
  function Stamp(sample: Doc, k: Key, total: int): Doc {
    sample.(ts := k.bucket, counter := total,
            dims := sample.dims.(operatorId := Some(Norm(k.operatorId)), targetNodeId := Some(Norm(k.targetNodeId)),
                                 routeKey := Some(Norm(k.routeKey)), ruleId := Some(Norm(k.ruleId))))
  }

  /** The key seen at a coarser window once missing and blank tags are identified. */
  function Coarsen(k: Key, w: int): Key {
    k.(operatorId := Norm(k.operatorId), targetNodeId := Norm(k.targetNodeId), routeKey := Norm(k.routeKey),
       ruleId := Norm(k.ruleId), bucket := FloorTo(k.bucket, w))
  }

  function NormKey(d: Doc, w: int): Key {
    Coarsen(KeyOf(d, w), w)
  }

  // ----- totals

  ghost function Weight<I(!new)>(docs: map<I, Doc>, p: Doc -> bool): I -> int {
    id => if id in docs && p(docs[id]) then docs[id].counter else 0
  }

  /** The sum of the counters of the documents that satisfy `p`. */
  ghost function Total<I(!new)>(docs: map<I, Doc>, p: Doc -> bool): int {
    Sum(docs.Keys, Weight(docs, p))
  }

  function HasKey(k: Key, w: int): Doc -> bool {
    d => KeyOf(d, w) == k
  }

  function HasKeyIn(k: Key, w: int, lo: int, hi: int): Doc -> bool {
    (d: Doc) => lo <= d.ts < hi && KeyOf(d, w) == k
  }

  function AtKey(k: Key, w: int): Doc -> bool {
    d => NormKey(d, w) == k
  }

  lemma TotalCongruent<I(!new)>(docs: map<I, Doc>, p: Doc -> bool, q: Doc -> bool)
    requires forall id <- docs :: p(docs[id]) == q(docs[id])
    ensures Total(docs, p) == Total(docs, q)
  {
    SumCongruent(docs.Keys, Weight(docs, p), Weight(docs, q));
  }

  /** Documents that fail `p` can be dropped. */
  lemma TotalRestrict<I(!new)>(docs: map<I, Doc>, sub: map<I, Doc>, p: Doc -> bool)
    requires forall id <- sub :: id in docs && sub[id] == docs[id]
    requires forall id <- docs :: p(docs[id]) ==> id in sub
    ensures Total(docs, p) == Total(sub, p)
  {
    SumSupport(docs.Keys, sub.Keys, Weight(docs, p), Weight(sub, p));
  }

  lemma TotalOfDisjoint<I(!new)>(docs: map<I, Doc>, p: Doc -> bool, q: Doc -> bool, either: Doc -> bool)
    requires forall id <- docs :: either(docs[id]) == (p(docs[id]) || q(docs[id]))
    requires forall id <- docs :: !(p(docs[id]) && q(docs[id]))
    ensures Total(docs, either) == Total(docs, p) + Total(docs, q)
  {
    SumAdd(docs.Keys, Weight(docs, p), Weight(docs, q), Weight(docs, either));
  }

  lemma TotalOfNone<I(!new)>(docs: map<I, Doc>, p: Doc -> bool)
    requires forall id <- docs :: !p(docs[id])
    ensures Total(docs, p) == 0
  {
    SumSupport(docs.Keys, {}, Weight(docs, p), Weight(docs, p));
  }

  lemma TotalOfOne<I(!new)>(docs: map<I, Doc>, p: Doc -> bool, id: I)
    requires id in docs && p(docs[id]) && forall other :: other in docs && other != id ==> !p(docs[other])
    ensures Total(docs, p) == docs[id].counter
  {
    SumSupport(docs.Keys, {id}, Weight(docs, p), Weight(docs, p));
    SumRemove({id}, Weight(docs, p), id);
    assert {id} - {id} == {};
  }

  /** Computes a total by one pass over the documents, as the search server does. */
  method ComputeTotal<I(==, !new)>(docs: map<I, Doc>, p: Doc -> bool) returns (total: int)
    ensures total == Total(docs, p)
  {
    var rest := docs.Keys;
    total := 0;
    while rest != {}
      invariant rest <= docs.Keys
      invariant total + Sum(rest, Weight(docs, p)) == Total(docs, p)
    {
      var id :| id in rest;
      SumRemove(rest, Weight(docs, p), id);
      if p(docs[id]) {
        total := total + docs[id].counter;
      }
      rest := rest - {id};
    }
  }

  // ----- windows compose

  /** Different multiples of `w` lie at least `w` apart. */
  lemma MultipleGap(a: int, b: int, w: int)
    requires w > 0
    ensures a > b ==> a * w >= b * w + w
    ensures a < b ==> a * w <= b * w - w
  {
    var d := a - b;
    assert d * w == a * w - b * w;
    assert (d > 0 ==> d * w >= w) && (d < 0 ==> d * w <= -w);
  }

  lemma FloorUnique(t: int, w: int, q: int)
    requires w > 0 && q * w <= t < q * w + w
    ensures FloorTo(t, w) == q * w
  {
    assert t == (t / w) * w + t % w;
    MultipleGap(t / w, q, w);
  }

  lemma FloorIsMultiple(t: int, w: int)
    requires w > 0
    ensures FloorTo(t, w) == (t / w) * w
    ensures FloorTo(t, w) <= t < FloorTo(t, w) + w
    ensures FloorTo(t, w) % w == 0
  {
    assert t == (t / w) * w + t % w;
    MultipleMod(t / w, w);
  }

  lemma MultipleMod(q: int, w: int)
    requires w > 0
    ensures (q * w) % w == 0
  {
    FloorUnique(q * w, w, q);
  }

  /** A multiple of `w` at or below `t` is at or below the bucket of `t`. */
  lemma FloorAbove(t: int, w: int, b: int)
    requires w > 0 && b % w == 0
    ensures b <= t ==> b <= FloorTo(t, w)
    ensures t < b ==> FloorTo(t, w) < b
  {
    FloorIsMultiple(t, w);
    assert b == (b / w) * w;
    MultipleGap(b / w, t / w, w);
  }

  /** Rolling first to `w` and then to a multiple of `w` lands in the same coarse bucket. */
  lemma FloorCompose(t: int, w: int, coarse: int)
    requires w > 0 && coarse > 0 && coarse % w == 0
    ensures FloorTo(FloorTo(t, w), coarse) == FloorTo(t, coarse)
  {
    FloorIsMultiple(t, w);
    FloorIsMultiple(t, coarse);
    var big := FloorTo(t, coarse);
    var m := coarse / w;
    assert coarse == m * w;
    assert big == ((t / coarse) * m) * w;
    MultipleMod((t / coarse) * m, w);
    FloorAbove(t, w, big);
    FloorUnique(FloorTo(t, w), coarse, t / coarse);
  }

  /** A document and the bucket it is rolled into have the same coarse normalised key. */
  lemma NormKeyThroughBucket(d: Doc, w: int, coarse: int)
    requires w > 0 && coarse > 0 && coarse % w == 0
    ensures NormKey(d, coarse) == Coarsen(KeyOf(d, w), coarse)
  {
    FloorCompose(d.ts, w, coarse);
    FloorCompose(d.ts, coarse, coarse);
    assert coarse % coarse == 0 by { MultipleMod(1, coarse); }
  }

  lemma NormKeyOfStamp(sample: Doc, k: Key, w: int, coarse: int, total: int)
    requires w > 0 && coarse > 0 && coarse % w == 0
    requires KeyOf(sample, w) == k
    ensures NormKey(Stamp(sample, k, total), coarse) == Coarsen(k, coarse) == NormKey(sample, coarse)
  {
    NormKeyThroughBucket(sample, w, coarse);
    FloorCompose(k.bucket, coarse, coarse);
    assert coarse % coarse == 0 by { MultipleMod(1, coarse); }
  }

  /** A tag that is absent or blank in the sample is written as "N/A", any other as it is. */
  predicate StampedTag(sample: Option<string>, written: Option<string>) {
    written == if sample == None || sample == Some("") then Some("N/A") else sample
  }

  /** The written document: four tags filled in, the bucket's start and total, and everything else as in the sample. */
  lemma StampIsWritten(sample: Doc, w: int, total: int)
    requires w > 0
    ensures var d := Stamp(sample, KeyOf(sample, w), total);
            && d.ts <= sample.ts < d.ts + w && d.ts % w == 0 && d.counter == total && d.tenant == sample.tenant
            && StampedTag(sample.dims.operatorId, d.dims.operatorId) && StampedTag(sample.dims.ruleId, d.dims.ruleId)
            && StampedTag(sample.dims.routeKey, d.dims.routeKey)
            && StampedTag(sample.dims.targetNodeId, d.dims.targetNodeId)
            && d.dims.name == sample.dims.name && d.dims.namespace == sample.dims.namespace
            && d.dims.sourceId == sample.dims.sourceId && d.dims.destinationId == sample.dims.destinationId
            && d.dims.fleetNodeId == sample.dims.fleetNodeId
  {
    FloorIsMultiple(sample.ts, w);
    MultipleMod(sample.ts / w, w);
  }

  /** The same tag text, where an absent tag is the same as "N/A". */
  predicate SameTag(a: Option<string>, b: Option<string>) {
    a == b || (a == None && b == Some("N/A")) || (a == Some("N/A") && b == None)
  }

  /** Two documents fall into one bucket exactly when their nine tags and their windows are the same. */
  lemma SameBucketIff(d: Doc, e: Doc, w: int)
    requires w > 0
    ensures KeyOf(d, w) == KeyOf(e, w) <==>
            && SameTag(d.dims.name, e.dims.name) && SameTag(d.dims.namespace, e.dims.namespace)
            && SameTag(d.dims.sourceId, e.dims.sourceId) && SameTag(d.dims.destinationId, e.dims.destinationId)
            && SameTag(d.dims.ruleId, e.dims.ruleId) && SameTag(d.dims.fleetNodeId, e.dims.fleetNodeId)
            && SameTag(d.dims.operatorId, e.dims.operatorId) && SameTag(d.dims.targetNodeId, e.dims.targetNodeId)
            && SameTag(d.dims.routeKey, e.dims.routeKey) && d.ts / w == e.ts / w
  {
    hide FloorTo;
    SameWindowIff(d.ts, e.ts, w);
  }

  lemma SameWindowIff(t: int, u: int, w: int)
    requires w > 0
    ensures FloorTo(t, w) == FloorTo(u, w) <==> t / w == u / w
  {
    FloorIsMultiple(t, w);
    FloorIsMultiple(u, w);
    MultipleGap(t / w, u / w, w);
  }

  /** The same tag text, where an absent, a blank and an "N/A" tag are the same. */
  predicate SameOrMissing(a: Option<string>, b: Option<string>) {
    a == b || (a in {None, Some(""), Some("N/A")} && b in {None, Some(""), Some("N/A")})
  }

  /** Totals are kept by the same key, but that the four tags that are filled in may also be blank. */
  lemma SameNormIff(d: Doc, e: Doc, w: int)
    requires w > 0
    ensures NormKey(d, w) == NormKey(e, w) <==>
            && SameTag(d.dims.name, e.dims.name) && SameTag(d.dims.namespace, e.dims.namespace)
            && SameTag(d.dims.sourceId, e.dims.sourceId) && SameTag(d.dims.destinationId, e.dims.destinationId)
            && SameTag(d.dims.fleetNodeId, e.dims.fleetNodeId) && SameOrMissing(d.dims.ruleId, e.dims.ruleId)
            && SameOrMissing(d.dims.operatorId, e.dims.operatorId)
            && SameOrMissing(d.dims.targetNodeId, e.dims.targetNodeId)
            && SameOrMissing(d.dims.routeKey, e.dims.routeKey) && d.ts / w == e.ts / w
  {
    SameWindowIff(d.ts, e.ts, w);
    FloorOnce(d.ts, w);
    FloorOnce(e.ts, w);
    forall a, b
      ensures OrNA(a) == OrNA(b) <==> SameTag(a, b)
      ensures Norm(OrNA(a)) == Norm(OrNA(b)) <==> SameOrMissing(a, b)
    {
      TagIff(a, b);
    }
    hide FloorTo, OrNA, Norm, SameTag, SameOrMissing;
  }

  lemma TagIff(a: Option<string>, b: Option<string>)
    ensures OrNA(a) == OrNA(b) <==> SameTag(a, b)
    ensures Norm(OrNA(a)) == Norm(OrNA(b)) <==> SameOrMissing(a, b)
  {
  }

  lemma FloorOnce(t: int, w: int)
    requires w > 0
    ensures FloorTo(FloorTo(t, w), w) == FloorTo(t, w)
  {
    FloorIsMultiple(t, w);
    MultipleMod(t / w, w);
  }
}
