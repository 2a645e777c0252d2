/** The search cluster's state, what its fallible calls do to it, and what every call of a migration must keep. */
module Cluster {
  import opened SetSums
  import opened Documents
  import opened TimeRanges
  import opened RollUp
  import opened Validation

  /** `validated` records which (source, target) pairs passed validation. */
  datatype State = State(indices: Store, aliases: map<string, set<string>>, validated: set<(string, string)>)

  predicate InAlias(s: State, alias: string, name: string) {
    alias in s.aliases && name in s.aliases[alias]
  }

  // ----- effects of the calls that change something

  /** A bulk request creates the index when it is new and overwrites documents by id. */
  function BulkEffect(s: State, target: string, docs: Index): State {
    s.(indices := s.indices[target := (if target in s.indices then s.indices[target] else map[]) + docs])
  }

  function SwapEffect(s: State, alias: string, from: set<string>, to: string): State {
    s.(aliases := s.aliases[alias := (if alias in s.aliases then s.aliases[alias] else {}) - from + {to}])
  }

  /** Deleting an index also takes it out of every alias. */
  function DeleteEffect(s: State, name: string): State {
    s.(indices := s.indices - {name}, aliases := map a | a in s.aliases :: s.aliases[a] - {name})
  }

  function ValidateEffect(s: State, src: string, target: string): State {
    s.(validated := s.validated + {(src, target)})
  }

  /** One alias request: in that alias the target stands for the sources, and nothing else changes. */
  lemma SwapReplaces(s: State, alias: string, from: set<string>, to: string, a: string, n: string)
    ensures var s' := SwapEffect(s, alias, from, to);
            && s'.indices == s.indices && s'.validated == s.validated
            && (InAlias(s', a, n) <==>
                (a == alias && n == to) || (InAlias(s, a, n) && !(a == alias && n in from)))
  {
  }

  /** A deleted index is in no alias any more; every other index keeps its documents and its aliases. */
  lemma DeleteRemoves(s: State, name: string, a: string, n: string)
    ensures var s' := DeleteEffect(s, name);
            && (n in s'.indices <==> n in s.indices && n != name) && s'.validated == s.validated
            && (n in s.indices && n != name ==> s'.indices[n] == s.indices[n])
            && (InAlias(s', a, n) <==> InAlias(s, a, n) && n != name)
  {
  }

  /** After a bulk request the target has its documents, and otherwise what it had; other indices are as they were. */
  lemma BulkWrites(s: State, target: string, docs: Index, n: string, id: DocId)
    ensures var s' := BulkEffect(s, target, docs);
            && s'.aliases == s.aliases && s'.validated == s.validated
            && (n in s'.indices <==> n in s.indices || n == target)
            && (n in s.indices && n != target ==> s'.indices[n] == s.indices[n])
            && (id in docs ==> id in s'.indices[target] && s'.indices[target][id] == docs[id])
            && (id !in docs ==> (id in s'.indices[target] <==> target in s.indices && id in s.indices[target]))
            && (id !in docs && id in s'.indices[target] ==> s'.indices[target][id] == s.indices[target][id])
  {
  }

  // ----- the plan of one migration

  /** The frozen sources of a run, and the target and alias of each. */
  datatype Plan = Plan(frozen: Store, target: map<string, string>, alias: map<string, string>, window: int,
    validates: bool)

  ghost predicate WellPlanned(plan: Plan) {
    && plan.target.Keys == plan.frozen.Keys == plan.alias.Keys
    && forall src <- plan.target :: plan.target[src] !in plan.frozen
  }

  /** A source that still exists has not changed. */
  ghost predicate FrozenSources(s: State, plan: Plan) {
    forall src <- plan.frozen :: src in s.indices ==> s.indices[src] == plan.frozen[src]
  }

  /** The target holds the complete roll-up of `src`. */
  ghost predicate Copied(s: State, plan: Plan, src: string)
    requires WellPlanned(plan) && src in plan.frozen
  {
    plan.target[src] in s.indices && RollsInto(plan.frozen[src], src, plan.window, s.indices[plan.target[src]])
  }

  ghost predicate Checked(s: State, plan: Plan, src: string)
    requires WellPlanned(plan) && src in plan.frozen
  {
    plan.validates ==> (src, plan.target[src]) in s.validated
  }

  /** Readers of the alias see the counts of `src`: in the source itself, or in its checked copy. */
  ghost predicate Served(s: State, plan: Plan, src: string)
    requires WellPlanned(plan) && src in plan.frozen
  {
    || (src in s.indices && InAlias(s, plan.alias[src], src))
    || (Copied(s, plan, src) && Checked(s, plan, src) && InAlias(s, plan.alias[src], plan.target[src]))
  }

  /** What earlier attempts left behind for `src` is a part of its roll-up. */
  ghost predicate Tidy(s: State, plan: Plan, src: string)
    requires WellPlanned(plan) && src in plan.frozen
  {
    plan.target[src] in s.indices ==> PartlyRolled(plan.frozen[src], src, plan.window, s.indices[plan.target[src]])
  }

  /** No source is lost. */
  ghost predicate NoLoss(s: State, plan: Plan) {
    && WellPlanned(plan) && FrozenSources(s, plan)
    && forall src <- plan.frozen :: Served(s, plan, src) && Tidy(s, plan, src)
  }

  /** Every bucket of `src` has its document in the target. */
  ghost predicate Written(s: State, plan: Plan, src: string)
    requires WellPlanned(plan) && src in plan.frozen
  {
    forall k <- Keys(plan.frozen[src], plan.window) ::
      plan.target[src] in s.indices && Rolled(k, src) in s.indices[plan.target[src]]
  }

  lemma WrittenIsCopied(s: State, plan: Plan, src: string)
    requires NoLoss(s, plan) && src in plan.frozen && Written(s, plan, src) && plan.target[src] in s.indices
    ensures Copied(s, plan, src)
  {
    hide PartlyRolled, Keys;
    assert Tidy(s, plan, src);
  }

  /**
   * Retrying: from whatever a cut-short attempt left behind, once every bucket is written the target's part for
   * `src` is that of any single complete roll-up.
   */
  lemma RetryIsIdempotent(s: State, plan: Plan, src: string, one: Index)
    requires NoLoss(s, plan) && src in plan.frozen && Written(s, plan, src) && plan.target[src] in s.indices
    requires RollsInto(plan.frozen[src], src, plan.window, one)
    ensures Agree(one, s.indices[plan.target[src]], src)
  {
    hide RollsInto, Agree;
    WrittenIsCopied(s, plan, src);
    RollUpIsDeterminate(plan.frozen[src], src, plan.window, one, s.indices[plan.target[src]]);
  }

  /** Documents and checks made so far survive, and a deleted source does not come back. */
  ghost predicate Progress(s: State, s': State, plan: Plan)
    requires WellPlanned(plan)
  {
    && s.validated <= s'.validated
    && forall src <- plan.frozen ::
         && (Written(s, plan, src) ==> Written(s', plan, src))
         && (plan.target[src] in s.indices ==> plan.target[src] in s'.indices)
         && (src !in s.indices ==> src !in s'.indices)
  }

  lemma ProgressReflexive(s: State, plan: Plan)
    requires WellPlanned(plan)
    ensures Progress(s, s, plan)
  {
  }

  lemma ProgressTransitive(s: State, s': State, s'': State, plan: Plan)
    requires WellPlanned(plan) && Progress(s, s', plan) && Progress(s', s'', plan)
    ensures Progress(s, s'', plan)
  {
  }

  /** What NoLoss gives a reader: a source that is gone is counted, key by key, in the aliased target. */
  lemma GoneIsCounted(s: State, plan: Plan, src: string, nk: Key, coarse: int)
    requires NoLoss(s, plan) && src in plan.frozen && src !in s.indices
    requires plan.window > 0 && coarse > 0 && coarse % plan.window == 0
    ensures InAlias(s, plan.alias[src], plan.target[src]) && Checked(s, plan, src) && plan.target[src] in s.indices
    ensures Total(FromSource(s.indices[plan.target[src]], src), AtKey(nk, coarse)) ==
            Total(plan.frozen[src], AtKey(nk, coarse))
  {
    hide RollsInto, Total, PartlyRolled;
    assert Served(s, plan, src);
    RollUpConserves(plan.frozen[src], src, plan.window, s.indices[plan.target[src]], nk, coarse);
  }

  ghost function CopyTotals(s: State, plan: Plan, p: Doc -> bool): string -> int {
    src =>
      if src in plan.target && plan.target[src] in s.indices
      then Total(FromSource(s.indices[plan.target[src]], src), p) else 0
  }

  /** When all sources are gone the targets carry, key by key, exactly what the sources held together. */
  lemma CompletedRunConserves(s: State, plan: Plan, nk: Key, coarse: int)
    requires NoLoss(s, plan) && plan.window > 0 && coarse > 0 && coarse % plan.window == 0
    requires forall src <- plan.frozen :: src !in s.indices
    ensures Sum(plan.frozen.Keys, CopyTotals(s, plan, AtKey(nk, coarse))) == StoreTotal(plan.frozen, AtKey(nk, coarse))
  {
    hide NoLoss, Total, AtKey;
    assert WellPlanned(plan) by { PlanIsWell(s, plan); }
    forall src <- plan.frozen.Keys
      ensures CopyTotals(s, plan, AtKey(nk, coarse))(src) == StoreTotals(plan.frozen, AtKey(nk, coarse))(src)
    {
      GoneIsCounted(s, plan, src, nk, coarse);
    }
    SumCongruent(plan.frozen.Keys, CopyTotals(s, plan, AtKey(nk, coarse)), StoreTotals(plan.frozen, AtKey(nk, coarse)));
  }

  lemma PlanIsWell(s: State, plan: Plan)
    requires NoLoss(s, plan)
    ensures WellPlanned(plan)
  {
  }

  // ----- each call keeps NoLoss

  ghost predicate BatchOf(batch: Index, src: string) {
    forall id <- batch :: id.Rolled? && id.src == src
  }

  lemma RollsIntoGrows(ix: Index, src: string, w: int, target: Index, batch: Index)
    requires PartlyRolled(ix, src, w, batch)
    ensures PartlyRolled(ix, src, w, target) ==> PartlyRolled(ix, src, w, target + batch)
    ensures RollsInto(ix, src, w, target) ==> RollsInto(ix, src, w, target + batch)
  {
    hide IsRoll, Keys;
  }

  /** Writing any part of a source's roll-up, complete or cut short, loses nothing. */
  lemma BulkKeeps(s: State, plan: Plan, src: string, batch: Index)
    requires NoLoss(s, plan) && src in plan.frozen
    requires BatchOf(batch, src) && PartlyRolled(plan.frozen[src], src, plan.window, batch)
    ensures NoLoss(BulkEffect(s, plan.target[src], batch), plan)
    ensures Progress(s, BulkEffect(s, plan.target[src], batch), plan)
  {
    hide PartlyRolled, RollsInto, Keys;
    var t := plan.target[src];
    var s' := BulkEffect(s, t, batch);
    forall other <- plan.frozen
      ensures Served(s', plan, other) && Tidy(s', plan, other)
    {
      assert Served(s, plan, other) && Tidy(s, plan, other);
      if plan.target[other] == t {
        var was := if t in s.indices then s.indices[t] else map[];
        if t !in s.indices {
          EmptyIsPart(plan.frozen[other], other, plan.window);
        }
        if other == src {
          RollsIntoGrows(plan.frozen[src], src, plan.window, was, batch);
        } else {
          OthersUntouched(plan.frozen[other], src, other, plan.window, was, batch);
        }
      }
    }
  }

  lemma EmptyIsPart(ix: Index, src: string, w: int)
    ensures PartlyRolled(ix, src, w, map[])
  {
  }

  /** Swapping the alias from copied and checked sources to their target loses nothing. */
  lemma SwapKeeps(s: State, plan: Plan, alias: string, from: set<string>, to: string)
    requires NoLoss(s, plan)
    requires forall src <- from ::
      && src in plan.frozen && plan.target[src] == to && plan.alias[src] == alias
      && Copied(s, plan, src) && Checked(s, plan, src)
    requires to !in plan.frozen
    ensures NoLoss(SwapEffect(s, alias, from, to), plan) && Progress(s, SwapEffect(s, alias, from, to), plan)
    ensures forall src <- from :: InAlias(SwapEffect(s, alias, from, to), alias, to)
  {
    hide PartlyRolled, RollsInto;
    var s' := SwapEffect(s, alias, from, to);
    forall src <- plan.frozen ensures Served(s', plan, src) && Tidy(s', plan, src) {
      assert Served(s, plan, src) && Tidy(s, plan, src);
      assert plan.target[src] !in from;
    }
  }

  /** Deleting a source whose checked copy is in the alias loses nothing. */
  lemma DeleteKeeps(s: State, plan: Plan, src: string)
    requires NoLoss(s, plan) && src in plan.frozen
    requires Copied(s, plan, src) && Checked(s, plan, src) && InAlias(s, plan.alias[src], plan.target[src])
    ensures NoLoss(DeleteEffect(s, src), plan) && Progress(s, DeleteEffect(s, src), plan)
    ensures forall a, n :: n != src && InAlias(s, a, n) ==> InAlias(DeleteEffect(s, src), a, n)
  {
    hide PartlyRolled, RollsInto, Written, Served, Tidy;
    var s' := DeleteEffect(s, src);
    forall other <- plan.frozen
      ensures Served(s', plan, other) && Tidy(s', plan, other) && (Written(s, plan, other) ==> Written(s', plan, other))
    {
      DeleteSpares(s, plan, src, other);
    }
  }

  lemma DeleteSpares(s: State, plan: Plan, src: string, other: string)
    requires WellPlanned(plan) && src in plan.frozen && other in plan.frozen
    requires Served(s, plan, other) && Tidy(s, plan, other)
    requires other == src ==>
      Copied(s, plan, src) && Checked(s, plan, src) && InAlias(s, plan.alias[src], plan.target[src])
    ensures var s' := DeleteEffect(s, src);
            Served(s', plan, other) && Tidy(s', plan, other) && (Written(s, plan, other) ==> Written(s', plan, other))
  {
    hide PartlyRolled, RollsInto, Keys;
    assert plan.target[other] != src;
  }

  lemma ValidateKeeps(s: State, plan: Plan, src: string, target: string)
    requires NoLoss(s, plan)
    ensures NoLoss(ValidateEffect(s, src, target), plan) && Progress(s, ValidateEffect(s, src, target), plan)
  {
    hide PartlyRolled, RollsInto;
    var s' := ValidateEffect(s, src, target);
    forall other <- plan.frozen ensures Served(s', plan, other) && Tidy(s', plan, other) {
      assert Served(s, plan, other) && Tidy(s, plan, other);
    }
  }

  /**
   * Why a shared target must not be deleted first: rolling `a` and then `b` with that setting ends, after
   * the alias swap and the first delete, in a state where the counts of `a` are nowhere.
   */
  lemma DeletingTheTargetLoses(s: State, plan: Plan, a: string, b: string, batch: Index)
    requires WellPlanned(plan) && a in plan.frozen && b in plan.frozen && a != b
    requires plan.target[a] == plan.target[b] && plan.frozen[a] != map[] && BatchOf(batch, b)
    ensures var t := plan.target[a];
            var rolled := BulkEffect(DeleteEffect(s, t), t, batch);
            !Served(DeleteEffect(SwapEffect(rolled, plan.alias[a], {a, b}, t), a), plan, a)
  {
    hide KeyOf, IsRoll;
    var id :| id in plan.frozen[a];
    var k := KeyOf(plan.frozen[a][id], plan.window);
    assert k in Keys(plan.frozen[a], plan.window);
    assert Rolled(k, a) !in batch;
  }

  // ----- the wildcard that validation reads through

  /** The documents a query on `prefix*` sees. */
  function View(store: Store, prefix: string): map<(string, DocId), Doc> {
    map n, id | n in store && prefix <= n && id in store[n] :: (n, id) := store[n][id]
  }

  /** When no index with a longer name has documents in the range, the wildcard shows the index itself. */
  lemma ViewShowsIndex(store: Store, name: string, r: TimeRange, skipTenant: bool)
    requires name in store
    requires forall n, id :: n in store && name <= n && n != name && id in store[n] ==> !Holds(r, store[n][id].ts)
    ensures CountsOf(View(store, name), r, skipTenant) == CountsOf(store[name], r, skipTenant)
  {
    hide RawGroup, View, Groups, RawSum;
    var view, ix := View(store, name), store[name];
    ViewGroups(store, name, r, skipTenant);
    forall g ensures RawSums(view, r, skipTenant)(g) == RawSums(ix, r, skipTenant)(g) {
      ViewTotal(store, name, r, skipTenant, g);
    }
  }

  lemma ViewGroups(store: Store, name: string, r: TimeRange, skipTenant: bool)
    requires name in store
    requires forall n, id :: n in store && name <= n && n != name && id in store[n] ==> !Holds(r, store[n][id].ts)
    ensures Groups(View(store, name), r, skipTenant) == Groups(store[name], r, skipTenant)
  {
    hide RawGroup;
    var view, ix := View(store, name), store[name];
    forall id | id in ix ensures (name, id) in view && view[(name, id)] == ix[id] {}
  }

  lemma ViewTotal(store: Store, name: string, r: TimeRange, skipTenant: bool, g: Group)
    requires name in store
    requires forall n, id :: n in store && name <= n && n != name && id in store[n] ==> !Holds(r, store[n][id].ts)
    ensures RawSum(View(store, name), r, skipTenant, g) == RawSum(store[name], r, skipTenant, g)
  {
    hide RawGroup;
    var view, ix, p := View(store, name), store[name], RawIn(r, skipTenant, g);
    var own := set id | id in ix :: (name, id);
    SumSupport(view.Keys, own, Weight(view, p), Weight(view, p));
    SumReindex(ix.Keys, Weight(ix, p), (id: DocId) => (name, id), own, Weight(view, p));
  }
}
