/** What one roll-up, a merge of roll-ups and the chain of lifecycle phases do to the counters. */
module RollUp {
  import opened SetSums
  import opened Documents
  import opened TimeRanges

  ghost function Keys(ix: Index, w: int): set<Key> {
    set id | id in ix :: KeyOf(ix[id], w)
  }

  ghost function BucketTotal(ix: Index, k: Key, w: int): int {
    Total(ix, HasKey(k, w))
  }

  /** `d` is the document a roll-up writes for bucket `k`, whichever sample the server returned. */
  ghost predicate IsRoll(d: Doc, k: Key, ix: Index, w: int) {
    exists id :: id in ix && KeyOf(ix[id], w) == k && d == Stamp(ix[id], k, BucketTotal(ix, k, w))
  }

  /** Every document `src` left in `target` is right; some may not be written yet. */
  ghost predicate PartlyRolled(ix: Index, src: string, w: int, target: Index) {
    forall k :: Rolled(k, src) in target ==> k in Keys(ix, w) && IsRoll(target[Rolled(k, src)], k, ix, w)
  }

  /** `target` holds exactly one document per bucket of `src`, with that bucket's total. */
  ghost predicate RollsInto(ix: Index, src: string, w: int, target: Index) {
    && PartlyRolled(ix, src, w, target)
    && forall k <- Keys(ix, w) :: Rolled(k, src) in target
  }

  /** The part of `target` that was written for `src`. */
  ghost function FromSource(target: Index, src: string): Index {
    map id | id in target && id.Rolled? && id.src == src :: target[id]
  }

  ghost const NO_KEY := Key("", "", "", "", "", "", "", "", "", 0)

  ghost function KeyAt(ix: Index, w: int): DocId -> Key {
    id => if id in ix then KeyOf(ix[id], w) else NO_KEY
  }

  /** A property that a document shares with the document its bucket was rolled into. */
  ghost predicate Respects(p: Doc -> bool, ix: Index, src: string, w: int, target: Index) {
    forall id <- ix :: Rolled(KeyOf(ix[id], w), src) in target ==> p(target[Rolled(KeyOf(ix[id], w), src)]) == p(ix[id])
  }

  /** Inside one bucket a property holds of all documents or of none. */
  lemma BucketShare(ix: Index, w: int, p: Doc -> bool, k: Key, hit: bool)
    requires forall id <- ix :: KeyOf(ix[id], w) == k ==> p(ix[id]) == hit
    ensures Sum(Fibre(ix.Keys, KeyAt(ix, w), k), Weight(ix, p)) == if hit then BucketTotal(ix, k, w) else 0
  {
    var fibre := Fibre(ix.Keys, KeyAt(ix, w), k);
    if hit {
      SumSupport(ix.Keys, fibre, Weight(ix, HasKey(k, w)), Weight(ix, p));
    } else {
      SumSupport(fibre, {}, Weight(ix, p), Weight(ix, p));
    }
  }

  lemma RolledWeight(ix: Index, src: string, w: int, target: Index, p: Doc -> bool, k: Key)
    requires RollsInto(ix, src, w, target) && k in Keys(ix, w)
    ensures Rolled(k, src) in FromSource(target, src)
    ensures Weight(FromSource(target, src), p)(Rolled(k, src)) ==
            if p(target[Rolled(k, src)]) then BucketTotal(ix, k, w) else 0
  {
  }

  lemma RolledTimestamp(ix: Index, src: string, w: int, target: Index, k: Key)
    requires PartlyRolled(ix, src, w, target) && Rolled(k, src) in target
    ensures target[Rolled(k, src)].ts == k.bucket
  {
  }

  lemma FromSourceIds(ix: Index, src: string, w: int, target: Index, id: DocId)
    requires RollsInto(ix, src, w, target) && id in FromSource(target, src)
    ensures id.Rolled? && id.key in Keys(ix, w) && id == Rolled(id.key, src)
  {
  }

  /** Conservation: grouping loses and duplicates nothing, for every property that buckets respect. */
  lemma Conservation(ix: Index, src: string, w: int, target: Index, p: Doc -> bool)
    requires RollsInto(ix, src, w, target) && Respects(p, ix, src, w, target)
    ensures Total(FromSource(target, src), p) == Total(ix, p)
  {
    var keys, rolled, name := Keys(ix, w), FromSource(target, src), (k: Key) => Rolled(k, src);
    forall k <- keys
      ensures name(k) in rolled.Keys
      ensures Weight(rolled, p)(name(k)) == Sum(Fibre(ix.Keys, KeyAt(ix, w), k), Weight(ix, p))
    {
      RolledWeight(ix, src, w, target, p, k);
      BucketShare(ix, w, p, k, p(target[Rolled(k, src)]));
    }
    forall id <- rolled.Keys ensures exists k :: k in keys && name(k) == id {
      FromSourceIds(ix, src, w, target, id);
    }
    SumGrouped(ix.Keys, Weight(ix, p), KeyAt(ix, w), keys, name, rolled.Keys, Weight(rolled, p));
  }

  /** Rolling to `w` keeps the total of every normalised key in every coarser window. */
  lemma RollUpConserves(ix: Index, src: string, w: int, target: Index, nk: Key, coarse: int)
    requires w > 0 && coarse > 0 && coarse % w == 0
    requires RollsInto(ix, src, w, target)
    ensures Total(FromSource(target, src), AtKey(nk, coarse)) == Total(ix, AtKey(nk, coarse))
  {
    forall id | id in ix && Rolled(KeyOf(ix[id], w), src) in target
      ensures NormKey(target[Rolled(KeyOf(ix[id], w), src)], coarse) == NormKey(ix[id], coarse)
    {
      var k := KeyOf(ix[id], w);
      var sid :|
        sid in ix && KeyOf(ix[sid], w) == k && target[Rolled(k, src)] == Stamp(ix[sid], k, BucketTotal(ix, k, w));
      NormKeyOfStamp(ix[sid], k, w, coarse, BucketTotal(ix, k, w));
      NormKeyThroughBucket(ix[id], w, coarse);
    }
    Conservation(ix, src, w, target, AtKey(nk, coarse));
  }

  // ----- merging many indices into shared targets

  type Store = map<string, Index>

  ghost function StoreTotals(store: Store, p: Doc -> bool): string -> int {
    n => if n in store then Total(store[n], p) else 0
  }

  ghost function StoreTotal(store: Store, p: Doc -> bool): int {
    Sum(store.Keys, StoreTotals(store, p))
  }

  /** Each source is rolled into the target its route names, and targets hold nothing else. */
  ghost predicate Merged(sources: Store, route: map<string, string>, w: int, targets: Store) {
    && route.Keys == sources.Keys
    && (forall s <- sources :: route[s] in targets && RollsInto(sources[s], s, w, targets[route[s]]))
    && (forall t, id :: t in targets && id in targets[t] ==> id.Rolled? && id.src in sources && route[id.src] == t)
  }

  ghost function RouteTo(route: map<string, string>): string -> string {
    s => if s in route then route[s] else s
  }

  ghost function SrcOf(): DocId -> string {
    (id: DocId) => if id.Rolled? then id.src else ""
  }

  ghost function PartTotals(target: Index, p: Doc -> bool): string -> int {
    s => Total(FromSource(target, s), p)
  }

  /** Sources never overwrite each other: a target's total is the sum of its sources' parts. */
  lemma TargetParts(target: Index, sources: set<string>, p: Doc -> bool)
    requires forall id <- target :: id.Rolled? && id.src in sources
    ensures Total(target, p) == Sum(sources, PartTotals(target, p))
  {
    SumByFibre(target.Keys, Weight(target, p), SrcOf(), sources);
    forall s <- sources ensures FibreSums(target.Keys, Weight(target, p), SrcOf())(s) == PartTotals(target, p)(s) {
      assert Fibre(target.Keys, SrcOf(), s) == FromSource(target, s).Keys;
      SumCongruent(FromSource(target, s).Keys, Weight(target, p), Weight(FromSource(target, s), p));
    }
    SumCongruent(sources, FibreSums(target.Keys, Weight(target, p), SrcOf()), PartTotals(target, p));
  }

  lemma MergeConserves(sources: Store, route: map<string, string>, w: int, targets: Store, nk: Key, coarse: int)
    requires w > 0 && coarse > 0 && coarse % w == 0
    requires Merged(sources, route, w, targets)
    ensures StoreTotal(targets, AtKey(nk, coarse)) == StoreTotal(sources, AtKey(nk, coarse))
  {
    var p := AtKey(nk, coarse);
    forall s <- sources ensures Total(FromSource(targets[route[s]], s), p) == Total(sources[s], p) {
      RollUpConserves(sources[s], s, w, targets[route[s]], nk, coarse);
    }
    forall t <- targets
      ensures StoreTotals(targets, p)(t) == FibreSums(sources.Keys, StoreTotals(sources, p), RouteTo(route))(t)
    {
      var mine := Fibre(sources.Keys, RouteTo(route), t);
      TargetParts(targets[t], mine, p);
      SumCongruent(mine, PartTotals(targets[t], p), StoreTotals(sources, p));
    }
    SumCongruent(targets.Keys, StoreTotals(targets, p),
                 FibreSums(sources.Keys, StoreTotals(sources, p), RouteTo(route)));
    SumByFibre(sources.Keys, StoreTotals(sources, p), RouteTo(route), targets.Keys);
  }

  /**
   * The lifecycle p1 -> p2 -> p3 -> p4, for any sets of indices and any routing into weekly and yearly
   * targets: every normalised key has, on every UTC day, the total of the raw documents, which is also
   * what one direct daily roll-up of the raw documents would give.
   */
  lemma PhasesCompose(p1: Store, p2: Store, p3: Store, p4: Store, direct: Store,
                      toP2: map<string, string>, toP3: map<string, string>, toP4: map<string, string>,
                      toDirect: map<string, string>, nk: Key)
    requires Merged(p1, toP2, HOUR, p2) && Merged(p2, toP3, DAY, p3) && Merged(p3, toP4, DAY, p4)
    requires Merged(p1, toDirect, DAY, direct)
    ensures StoreTotal(p4, AtKey(nk, DAY)) == StoreTotal(p1, AtKey(nk, DAY)) == StoreTotal(direct, AtKey(nk, DAY))
  {
    MergeConserves(p1, toP2, HOUR, p2, nk, DAY);
    MergeConserves(p2, toP3, DAY, p3, nk, DAY);
    MergeConserves(p3, toP4, DAY, p4, nk, DAY);
    MergeConserves(p1, toDirect, DAY, direct, nk, DAY);
  }

  // ----- retrying

  /** The same documents of `src`, by id, timestamp and counter. */
  ghost predicate Agree(one: Index, two: Index, src: string) {
    && FromSource(one, src).Keys == FromSource(two, src).Keys
    && forall id <- FromSource(one, src) :: one[id].counter == two[id].counter && one[id].ts == two[id].ts
  }

  /** Two complete roll-ups of a frozen source agree. */
  lemma RollUpIsDeterminate(ix: Index, src: string, w: int, one: Index, two: Index)
    requires RollsInto(ix, src, w, one) && RollsInto(ix, src, w, two)
    ensures Agree(one, two, src)
  {
    forall id: DocId | id.Rolled? && id.src == src ensures id in one <==> id in two {
      assert id == Rolled(id.key, src);
    }
    forall id <- FromSource(one, src) ensures one[id].counter == two[id].counter && one[id].ts == two[id].ts {
      assert id == Rolled(id.key, src);
    }
  }

  /** Documents of one source never touch the documents of another in a shared target, so neither is its roll-up. */
  lemma OthersUntouched(ix: Index, src: string, other: string, w: int, target: Index, batch: Index)
    requires forall id <- batch :: id.Rolled? && id.src == src
    requires other != src
    ensures FromSource(target + batch, other) == FromSource(target, other)
    ensures PartlyRolled(ix, other, w, target) <==> PartlyRolled(ix, other, w, target + batch)
    ensures RollsInto(ix, other, w, target) <==> RollsInto(ix, other, w, target + batch)
  {
    hide IsRoll, Keys;
    forall k ensures Rolled(k, other) in target + batch <==> Rolled(k, other) in target
      ensures Rolled(k, other) in target ==> (target + batch)[Rolled(k, other)] == target[Rolled(k, other)]
    {
      assert Rolled(k, other) !in batch;
    }
  }
}
