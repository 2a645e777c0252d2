/** What a query on `name*` counts when other indices have longer names. */
module Wildcard {
  import opened SetSums
  import opened Documents
  import opened TimeRanges
  import opened RollUp
  import opened Validation
  import opened ValidationMeaning
  import opened SharedTarget
  import opened Cluster

  /** The documents of the indices whose names are longer. */
  function Longer(store: Store, name: string): map<(string, DocId), Doc> {
    map n, id | n in store && name <= n && n != name && id in store[n] :: (n, id) := store[n][id]
  }

  function OwnView(store: Store, name: string): map<(string, DocId), Doc>
    requires name in store
  {
    map id | id in store[name] :: (name, id) := store[name][id]
  }

  lemma ViewSplits(store: Store, name: string)
    requires name in store
    ensures View(store, name) == OwnView(store, name) + Longer(store, name)
    ensures OwnView(store, name).Keys !! Longer(store, name).Keys
  {
    var whole, parts := View(store, name), OwnView(store, name) + Longer(store, name);
    forall x: (string, DocId)
      ensures x in whole <==> x in parts
      ensures x in whole ==> whole[x] == parts[x]
    {
      var (n, id) := x;
      if n == name {
        assert x in whole <==> id in store[name];
        assert x in OwnView(store, name) <==> id in store[name];
      }
    }
  }

  /** The index counts the same under its own name and as a part of the view. */
  lemma OwnTotal(store: Store, name: string, p: Doc -> bool)
    requires name in store
    ensures Total(OwnView(store, name), p) == Total(store[name], p)
  {
    var own, ix := OwnView(store, name), store[name];
    var h: DocId -> (string, DocId) := id => (name, id);
    assert forall id <- ix.Keys :: h(id) in own.Keys && Weight(own, p)(h(id)) == Weight(ix, p)(id);
    forall u <- own.Keys ensures exists id :: id in ix.Keys && h(id) == u {
      assert u.1 in ix.Keys && h(u.1) == u;
    }
    SumReindex(ix.Keys, Weight(ix, p), h, own.Keys, Weight(own, p));
  }

  lemma OwnGroups(store: Store, name: string, r: TimeRange, skipTenant: bool)
    requires name in store
    ensures Groups(OwnView(store, name), r, skipTenant) == Groups(store[name], r, skipTenant)
  {
    hide RawGroup;
    var own, ix := OwnView(store, name), store[name];
    assert forall id <- ix :: (name, id) in own && own[(name, id)] == ix[id];
    assert forall x <- own :: x.1 in ix && own[x] == ix[x.1];
  }

  lemma ViewSum(store: Store, name: string, r: TimeRange, skipTenant: bool, g: Group)
    requires name in store
    ensures TrueSum(View(store, name), r, skipTenant, g) ==
            TrueSum(store[name], r, skipTenant, g) + TrueSum(Longer(store, name), r, skipTenant, g)
  {
    hide Total;
    ViewSplits(store, name);
    OwnTotal(store, name, GroupIn(r, skipTenant, g));
    TotalOfParts(View(store, name), OwnView(store, name), Longer(store, name), GroupIn(r, skipTenant, g));
  }

  lemma GroupsOfParts<I(!new)>(docs: map<I, Doc>, a: map<I, Doc>, b: map<I, Doc>, r: TimeRange, skipTenant: bool)
    requires a.Keys !! b.Keys && docs == a + b
    ensures Groups(docs, r, skipTenant) == Groups(a, r, skipTenant) + Groups(b, r, skipTenant)
  {
    hide RawGroup;
    assert forall id <- docs :: (id in a && a[id] == docs[id]) || (id in b && b[id] == docs[id]);
    assert forall id <- a :: id in docs && docs[id] == a[id];
    assert forall id <- b :: id in docs && docs[id] == b[id];
  }

  lemma ViewKeys(store: Store, name: string, r: TimeRange, skipTenant: bool)
    requires name in store
    ensures CountsOf(View(store, name), r, skipTenant).Keys ==
            CountsOf(store[name], r, skipTenant).Keys + CountsOf(Longer(store, name), r, skipTenant).Keys
  {
    hide Groups, CollapseAll, View, OwnView, Longer, RawSum;
    ViewSplits(store, name);
    OwnGroups(store, name, r, skipTenant);
    GroupsOfParts(View(store, name), OwnView(store, name), Longer(store, name), r, skipTenant);
    CollapseUnion(Groups(store[name], r, skipTenant), Groups(Longer(store, name), r, skipTenant));
  }

  // ----- when a longer name does not matter

  /** The longer names add as much as they make overwritten, and no group of their own. */
  ghost predicate Unnoticed(store: Store, name: string, r: TimeRange, skipTenant: bool, g: Group)
    requires name in store
  {
    && TrueSum(Longer(store, name), r, skipTenant, g) ==
       MaskedSum(View(store, name), r, skipTenant, g) - MaskedSum(store[name], r, skipTenant, g)
    && (g in CountsOf(Longer(store, name), r, skipTenant) ==> g in CountsOf(store[name], r, skipTenant))
  }

  lemma GroupUnnoticedIff(store: Store, name: string, r: TimeRange, skipTenant: bool, g: Group)
    requires name in store
    ensures var view, own := CountsOf(View(store, name), r, skipTenant), CountsOf(store[name], r, skipTenant);
            && (g in own ==> g in view && (view[g] == own[g] <==> Unnoticed(store, name, r, skipTenant, g)))
            && (g !in own && g.operator != "" ==> (g !in view <==> Unnoticed(store, name, r, skipTenant, g)))
  {
    hide CountsOf, TrueSum, MaskedSum, View, Longer;
    ViewKeys(store, name, r, skipTenant);
    if g in CountsOf(store[name], r, skipTenant) {
      CountIsSumLessMasked(View(store, name), r, skipTenant, g);
      CountIsSumLessMasked(store[name], r, skipTenant, g);
      ViewSum(store, name, r, skipTenant, g);
    } else if g.operator != "" && g !in CountsOf(View(store, name), r, skipTenant) {
      UncountedIsZero(Longer(store, name), r, skipTenant, g);
      UncountedMasksNothing(View(store, name), r, skipTenant, g);
      UncountedMasksNothing(store[name], r, skipTenant, g);
    }
  }

  /** The wildcard shows the counts of the index itself exactly when no group notices the longer names. */
  lemma ViewCountsIff(store: Store, name: string, r: TimeRange, skipTenant: bool)
    requires name in store
    ensures CountsOf(View(store, name), r, skipTenant) == CountsOf(store[name], r, skipTenant) <==>
            forall g: Group :: g.operator != "" ==> Unnoticed(store, name, r, skipTenant, g)
  {
    hide CountsOf, View, Unnoticed;
    var view, own := CountsOf(View(store, name), r, skipTenant), CountsOf(store[name], r, skipTenant);
    CountedOperator(View(store, name), r, skipTenant);
    CountedOperator(store[name], r, skipTenant);
    forall g: Group
      ensures g in own ==> g in view && (view[g] == own[g] <==> Unnoticed(store, name, r, skipTenant, g))
      ensures g !in own && g.operator != "" ==> (g !in view <==> Unnoticed(store, name, r, skipTenant, g))
    {
      GroupUnnoticedIff(store, name, r, skipTenant, g);
    }
    if forall g: Group :: g.operator != "" ==> Unnoticed(store, name, r, skipTenant, g) {
      assert forall g <- own :: view[g] == own[g];
      assert view.Keys == own.Keys;
    }
  }

  /** Two indices in which the longer name does matter: the wildcard on d1 also counts what d10 holds of that day. */
  lemma LongerNameCounts(a: int, b: int)
    requires b != 0
    ensures var store: Store :=
              map["d1" := map[Raw(0) := DayDoc(DAY + 5, a)], "d10" := map[Raw(0) := DayDoc(DAY + 7, b)]];
            var r := TimeRange(DAY, 2 * DAY + 1);
            CountsOf(View(store, "d1"), r, false) != CountsOf(store["d1"], r, false)
  {
    hide CountsOf, TrueSum, MaskedSum;
    var store: Store := map["d1" := map[Raw(0) := DayDoc(DAY + 5, a)], "d10" := map[Raw(0) := DayDoc(DAY + 7, b)]];
    var r, g := TimeRange(DAY, 2 * DAY + 1), Group("t", "s", "n", "ns", "o");
    LongerSample(a, b);
    NoMaskOutsideMissing(View(store, "d1"), r, g);
    NoMaskOutsideMissing(store["d1"], r, g);
    ViewCountsIff(store, "d1", r, false);
    assert !Unnoticed(store, "d1", r, false, g);
  }

  lemma NoMaskOutsideMissing<I(!new)>(docs: map<I, Doc>, r: TimeRange, g: Group)
    requires g.operator != MISSING
    ensures MaskedSum(docs, r, false, g) == 0
  {
  }

  lemma LongerSample(a: int, b: int)
    ensures var store: Store :=
              map["d1" := map[Raw(0) := DayDoc(DAY + 5, a)], "d10" := map[Raw(0) := DayDoc(DAY + 7, b)]];
            TrueSum(Longer(store, "d1"), TimeRange(DAY, 2 * DAY + 1), false, Group("t", "s", "n", "ns", "o")) == b
  {
    hide Total;
    var store: Store := map["d1" := map[Raw(0) := DayDoc(DAY + 5, a)], "d10" := map[Raw(0) := DayDoc(DAY + 7, b)]];
    var docs, r, g := Longer(store, "d1"), TimeRange(DAY, 2 * DAY + 1), Group("t", "s", "n", "ns", "o");
    assert "d1" <= "d10" && "d10" in store && Raw(0) in store["d10"];
    assert ("d10", Raw(0)) in docs && docs[("d10", Raw(0))] == DayDoc(DAY + 7, b);
    assert forall x <- docs :: x == ("d10", Raw(0));
    assert GroupIn(r, false, g)(DayDoc(DAY + 7, b));
    TotalOfOne(docs, GroupIn(r, false, g), ("d10", Raw(0)));
  }

  // ----- a copy seen through two wildcards

  /**
   * What the wildcards add to the comparison of a source with its finished copy cancels out: longer names on either
   * side, documents of other sources in the target, and what each view masks.
   */
  ghost predicate WildBalanced(store: Store, src: string, target: string, r: TimeRange, skipTenant: bool, g: Group)
    requires src in store && target in store
  {
    var foreign := Foreign(store[target], src);
    && TrueSum(Longer(store, src), r, skipTenant, g) - MaskedSum(View(store, src), r, skipTenant, g) ==
       TrueSum(foreign, r, skipTenant, g) + TrueSum(Longer(store, target), r, skipTenant, g)
       - MaskedSum(View(store, target), r, skipTenant, g)
    && (g in CountsOf(store[src], r, skipTenant) || g in CountsOf(Longer(store, src), r, skipTenant) <==>
        || g in CountsOf(store[src], r, skipTenant) || g in CountsOf(foreign, r, skipTenant)
        || g in CountsOf(Longer(store, target), r, skipTenant))
  }

  lemma GroupWildBalancedIff(store: Store, src: string, target: string, w: int, ranges: seq<TimeRange>, minVal: int,
                             maxVal: int, duration: int, skipTenant: bool, i: int, g: Group)
    requires src in store && target in store && g.operator != ""
    requires Splits(ranges, minVal, maxVal, duration) && WindowFits(w, duration) && 0 <= i < |ranges|
    requires RollsInto(store[src], src, w, store[target]) && Tagged(store[src], skipTenant)
    requires Within(store[src], minVal, maxVal)
    ensures var older := CountsOf(View(store, src), ranges[i], skipTenant);
            var newer := CountsOf(View(store, target), ranges[i], skipTenant);
            WildBalanced(store, src, target, ranges[i], skipTenant, g) <==>
            (g in older <==> g in newer) && (g in older && g in newer ==> older[g] == newer[g])
  {
    hide Splits, WindowFits, Tagged, Within, RollsInto, TrueSum, MaskedSum, CountsOf, Foreign, FromSource, View, Longer;
    var r, ix, copy := ranges[i], store[src], store[target];
    ViewKeys(store, src, r, skipTenant);
    ViewKeys(store, target, r, skipTenant);
    SharedDomain(ix, src, w, copy, ranges, minVal, maxVal, duration, skipTenant, i);
    ViewSum(store, src, r, skipTenant, g);
    ViewSum(store, target, r, skipTenant, g);
    ForeignSum(copy, src, r, skipTenant, g);
    RollUpGroupSums(ix, src, w, copy, ranges, minVal, maxVal, duration, skipTenant, i, g);
    ValueOf(View(store, src), r, skipTenant, g);
    ValueOf(View(store, target), r, skipTenant, g);
  }

  /** The compared count, or nothing at all. */
  lemma ValueOf<I(!new)>(docs: map<I, Doc>, r: TimeRange, skipTenant: bool, g: Group)
    requires g.operator != ""
    ensures var counts := CountsOf(docs, r, skipTenant);
            var sum := TrueSum(docs, r, skipTenant, g) - MaskedSum(docs, r, skipTenant, g);
            if g in counts then counts[g] == sum else sum == 0
  {
    hide TrueSum, MaskedSum, CountsOf;
    if g in CountsOf(docs, r, skipTenant) {
      CountIsSumLessMasked(docs, r, skipTenant, g);
    } else {
      UncountedIsZero(docs, r, skipTenant, g);
      UncountedMasksNothing(docs, r, skipTenant, g);
    }
  }

  lemma WildRangeIff(store: Store, src: string, target: string, w: int, ranges: seq<TimeRange>, minVal: int,
                     maxVal: int, duration: int, skipTenant: bool, i: int)
    requires src in store && target in store
    requires Splits(ranges, minVal, maxVal, duration) && WindowFits(w, duration) && 0 <= i < |ranges|
    requires RollsInto(store[src], src, w, store[target]) && Tagged(store[src], skipTenant)
    requires Within(store[src], minVal, maxVal)
    ensures SameCounts(View(store, src), View(store, target), ranges[i], skipTenant) <==>
            forall g: Group :: g.operator != "" ==> WildBalanced(store, src, target, ranges[i], skipTenant, g)
  {
    hide Splits, WindowFits, Tagged, Within, RollsInto, CountsOf, WildBalanced, View;
    var older, newer := CountsOf(View(store, src), ranges[i], skipTenant),
      CountsOf(View(store, target), ranges[i], skipTenant);
    CountedOperator(View(store, src), ranges[i], skipTenant);
    CountedOperator(View(store, target), ranges[i], skipTenant);
    forall g: Group | g.operator != ""
      ensures WildBalanced(store, src, target, ranges[i], skipTenant, g) <==>
              (g in older <==> g in newer) && (g in older && g in newer ==> older[g] == newer[g])
    {
      GroupWildBalancedIff(store, src, target, w, ranges, minVal, maxVal, duration, skipTenant, i, g);
    }
    if forall g: Group :: g.operator != "" ==> WildBalanced(store, src, target, ranges[i], skipTenant, g) {
      assert older.Keys == newer.Keys;
    }
  }

  /** A finished copy seen through the wildcards is accepted exactly when every group is balanced in every range. */
  lemma WildAcceptedIff(store: Store, src: string, target: string, w: int, ranges: seq<TimeRange>, minVal: int,
                        maxVal: int, duration: int, skipTenant: bool)
    requires src in store && target in store && Splits(ranges, minVal, maxVal, duration) && WindowFits(w, duration)
    requires RollsInto(store[src], src, w, store[target]) && Tagged(store[src], skipTenant)
    requires Within(store[src], minVal, maxVal)
    requires minVal > 0 ==> store[src] != map[]
    ensures Accepted(View(store, src), View(store, target), ranges, minVal, skipTenant) <==>
            forall i, g: Group :: 0 <= i < |ranges| && g.operator != "" ==>
              WildBalanced(store, src, target, ranges[i], skipTenant, g)
  {
    hide SameCounts, CountsOf, WildBalanced, RollsInto, Tagged, View, Within;
    forall i | 0 <= i < |ranges|
      ensures SameCounts(View(store, src), View(store, target), ranges[i], skipTenant) <==>
              forall g: Group :: g.operator != "" ==> WildBalanced(store, src, target, ranges[i], skipTenant, g)
    {
      WildRangeIff(store, src, target, w, ranges, minVal, maxVal, duration, skipTenant, i);
    }
    if store[src] != map[] {
      SomeRangeCounts(store[src], ranges, minVal, maxVal, duration, skipTenant);
      var i :| 0 <= i < |ranges| && HasCounts(store[src], ranges[i], skipTenant);
      ViewHasCounts(store, src, ranges[i], skipTenant);
    }
  }

  lemma ViewHasCounts(store: Store, name: string, r: TimeRange, skipTenant: bool)
    requires name in store && HasCounts(store[name], r, skipTenant)
    ensures HasCounts(View(store, name), r, skipTenant)
  {
    hide CountsOf, View, Longer;
    ViewKeys(store, name, r, skipTenant);
    var g :| g in CountsOf(store[name], r, skipTenant);
    assert g in CountsOf(View(store, name), r, skipTenant).Keys;
  }
}
