/** The migrations as they run against the cluster, where every call may fail. */
module Lifecycle {
  import opened Documents
  import opened TimeRanges
  import opened Paging
  import opened RollUp
  import opened Validation
  import opened Cluster
  import opened PageRolls
  import opened Checks
  import opened Traces

  // ----- requests that fail

  /** A request to the cluster, or to the backup store, by the indices it is about. */
  datatype Request =
    | Search(index: string) | Bulk(index: string) | Compare(index: string, copy: string) | Backup(index: string)
    | Alias(alias: string, index: string) | Remove(index: string)

  /** A request made to roll `src` into `target`. */
  predicate Rolling(r: Request, src: string, target: string) {
    r == Search(src) || r == Bulk(target) || r == Compare(src, target) || r == Backup(src) || r == Remove(target)
  }

  /** A request made to put `target` in the place of `sources`. */
  predicate Swapping(r: Request, sources: seq<string>, target: string, alias: string) {
    r == Alias(alias, target) || (r.Remove? && r.index in sources)
  }

  /** From position `n` of the log on, a request to roll `src` failed. */
  ghost predicate Hindered(log: seq<Request>, n: nat, src: string, target: string) {
    exists k :: n <= k < |log| && Rolling(log[k], src, target)
  }

  /** From position `n` of the log on, an alias or delete request for `sources` failed. */
  ghost predicate Blocked(log: seq<Request>, n: nat, sources: seq<string>, target: string, alias: string) {
    exists k :: n <= k < |log| && Swapping(log[k], sources, target, alias)
  }

  lemma HinderedLater(log: seq<Request>, log': seq<Request>, n: nat, n': nat, src: string, target: string)
    requires log <= log' && n' <= n && Hindered(log, n, src, target)
    ensures Hindered(log', n', src, target)
  {
    var k :| n <= k < |log| && Rolling(log[k], src, target);
    assert log'[k] == log[k];
  }

  lemma BlockedNow(log: seq<Request>, n: nat, r: Request, sources: seq<string>, target: string, alias: string)
    requires n <= |log| && Swapping(r, sources, target, alias)
    ensures Blocked(log + [r], n, sources, target, alias)
  {
    assert (log + [r])[|log|] == r;
  }

  lemma BlockedLater(log: seq<Request>, log': seq<Request>, n: nat, n': nat, sources: seq<string>, target: string,
                     alias: string)
    requires log <= log' && n' <= n && Blocked(log, n, sources, target, alias)
    ensures Blocked(log', n', sources, target, alias)
  {
    var k :| n <= k < |log| && Swapping(log[k], sources, target, alias);
    assert log'[k] == log[k];
  }

  // ----- the cluster

  class SearchCluster {
    var st: State
    /** The requests that failed so far. */
    ghost var refused: seq<Request>
    /** Every state passed through, the present one last. */
    ghost var trace: seq<State>
    /** A calm cluster answers every request it can; otherwise any call may fail. */
    const calm: bool

    ghost predicate Logged()
      reads this
    {
      trace != [] && Last(trace) == st
    }

    constructor (start: State, calm: bool)
      ensures st == start && trace == [start] && this.calm == calm && refused == []
    {
      this.calm := calm;
      st := start;
      trace := [start];
      refused := [];
    }

    /** Requests only ever join the log, and none does in a calm cluster. */
    ghost predicate Grew(before: seq<Request>)
      reads this
    {
      before <= refused && (calm ==> refused == before)
    }

    /** A read, or a request to the backup store, that changes no index. */
    method Ask(r: Request) returns (ok: bool)
      modifies this`refused
      ensures refused == old(refused) + if ok then [] else [r]
      ensures calm ==> ok
    {
      ok := *;
      ok := ok || calm;
      if !ok {
        refused := refused + [r];
      }
    }

    /** A bulk request; on an error any part of it may have been indexed. */
    method BulkIndex(target: string, batch: Index) returns (ok: bool, ghost part: Index)
      modifies this
      ensures trace == old(trace) + [st]
      ensures Submap(part, batch) && (ok ==> part == batch)
      ensures st == BulkEffect(old(st), target, part) || (!ok && st == old(st))
      ensures refused == old(refused) + if ok then [] else [Bulk(target)]
      ensures calm ==> ok
    {
      ok := Ask(Bulk(target));
      var keep: set<DocId> := *;
      var reached: bool := *;
      var written := if ok then batch else map id | id in batch && id in keep :: batch[id];
      part := written;
      if ok || reached {
        st := BulkEffect(st, target, written);
      }
      trace := trace + [st];
    }

    /** One atomic alias request; on an error it may or may not have been applied. */
    method UpdateAliases(alias: string, from: set<string>, to: string) returns (ok: bool)
      modifies this
      ensures trace == old(trace) + [st]
      ensures (st == SwapEffect(old(st), alias, from, to) && to in old(st).indices) || (!ok && st == old(st))
      ensures refused == old(refused) + if ok || to !in old(st).indices then [] else [Alias(alias, to)]
      ensures calm && to in old(st).indices ==> ok
    {
      ok := false;
      var applied: bool := *;
      if to in st.indices {
        ok := Ask(Alias(alias, to));
      } else {
        applied := false;
      }
      if ok || applied {
        st := SwapEffect(st, alias, from, to);
      }
      trace := trace + [st];
    }

    method DeleteIndex(name: string) returns (ok: bool)
      modifies this
      ensures trace == old(trace) + [st]
      ensures st == DeleteEffect(old(st), name) || (!ok && st == old(st))
      ensures refused == old(refused) + if ok then [] else [Remove(name)]
      ensures calm ==> ok
    {
      ok := Ask(Remove(name));
      var applied: bool := *;
      if ok || applied {
        st := DeleteEffect(st, name);
      }
      trace := trace + [st];
    }

    method FindMinMaxTimestamp(src: string) returns (ok: bool, minVal: int, maxVal: int)
      modifies this`refused
      ensures ok ==> src in st.indices && Extremes(st.indices[src], minVal, maxVal)
      ensures refused == old(refused) + if ok || src !in st.indices then [] else [Search(src)]
      ensures calm && src in st.indices ==> ok
    {
      ok, minVal, maxVal := false, 0, 0;
      if src in st.indices {
        ok := Ask(Search(src));
      }
      if ok {
        var ix := st.indices[src];
        var rest, first := ix.Keys, true;
        while rest != {}
          invariant !first ==> ix.Keys != {}
          invariant !first ==> (exists id <- ix :: ix[id].ts == minVal) && (exists id <- ix :: ix[id].ts == maxVal)
          invariant rest <= ix.Keys && (first ==> rest == ix.Keys && minVal == maxVal == 0)
          invariant !first ==> forall id <- ix.Keys - rest :: minVal <= ix[id].ts <= maxVal
        {
          var id :| id in rest;
          var t := ix[id].ts;
          minVal := if first || t < minVal then t else minVal;
          maxVal := if first || t > maxVal then t else maxVal;
          rest, first := rest - {id}, false;
        }
      }
    }

    /** Fetches and writes one page of the buckets of a range; an empty page ends the range. */
    method RollPage(src: string, target: string, ranges: seq<TimeRange>, i: int, minVal: int, maxVal: int,
                    after: Option<Key>, cfg: RolloverConfig, orders: Orders, ghost plan: Plan)
      returns (ok: bool, page: seq<Key>)
      requires ValidOrders(orders) && Runs(plan, cfg) && Logged() && Good(st, plan, cfg)
      requires src in plan.frozen && plan.target[src] == target
      requires Splits(ranges, minVal, maxVal, cfg.aggQueryRange) && 0 <= i < |ranges|
      requires forall id <- plan.frozen[src] :: minVal <= plan.frozen[src][id].ts <= maxVal
      modifies this
      ensures Logged() && Ran(old(trace), trace, plan, cfg, {src}, {}) && KeepsDocs(old(st), st, target)
      ensures ok ==> cfg.aggBatchSize > 0
      ensures ok ==>
        IsPage(page, RangeKeys(plan.frozen[src], cfg.aggWindow, ranges[i]), after, cfg.aggBatchSize, orders.keys)
      ensures ok && page != [] ==> Wrote(st, target, src, Elements(page))
      ensures Grew(old(refused))
      ensures !ok ==>
        Hindered(refused, |old(refused)|, src, target) || src !in old(st).indices || cfg.aggBatchSize <= 0
    {
      hide Splits, WindowFits, Stamp, KeyOf, PartlyRolled, RollsInto, NoLoss, Progress, Total, RangeRoll,
        StrictTotalOrder, BlankFirst, Ran;
      RanNothing(trace, plan, cfg, {src}, {});
      page := [];
      if src !in st.indices || cfg.aggBatchSize <= 0 {
        return false, [];
      }
      ok := Ask(Search(src));
      if !ok {
        assert refused[|old(refused)|] == Search(src);
        return false, [];
      }
      var current := st.indices[src];
      page := FetchPage(RangeKeys(current, cfg.aggWindow, ranges[i]), after, cfg.aggBatchSize, orders.keys);
      if page == [] {
        return true, [];
      }
      assert forall k <- page :: k in Elements(page);
      var batch := BuildBatch(current, page, cfg.aggWindow, ranges[i], src);
      ghost var part;
      ok, part := BulkIndex(target, batch);
      assert !ok ==> refused[|old(refused)|] == Bulk(target);
      WriteRan(old(trace), st, src, batch, part, ranges, i, minVal, maxVal, cfg, plan);
    }

    /** Pages through the buckets of one range. */
    method RollRange(src: string, target: string, ranges: seq<TimeRange>, i: int, minVal: int, maxVal: int,
                     cfg: RolloverConfig, orders: Orders, ghost plan: Plan) returns (ok: bool, ghost visited: seq<Key>)
      requires ValidOrders(orders) && Runs(plan, cfg) && Logged() && Good(st, plan, cfg)
      requires src in plan.frozen && plan.target[src] == target
      requires Splits(ranges, minVal, maxVal, cfg.aggQueryRange) && 0 <= i < |ranges|
      requires forall id <- plan.frozen[src] :: minVal <= plan.frozen[src][id].ts <= maxVal
      modifies this
      ensures Logged() && Ran(old(trace), trace, plan, cfg, {src}, {}) && KeepsDocs(old(st), st, target)
      ensures ok ==> Wrote(st, target, src, RangeKeys(plan.frozen[src], cfg.aggWindow, ranges[i]))
      ensures Ascending(visited, orders.keys)
      ensures ok ==> Elements(visited) == RangeKeys(plan.frozen[src], cfg.aggWindow, ranges[i])
      ensures Grew(old(refused))
      ensures !ok ==>
        Hindered(refused, |old(refused)|, src, target) || src !in old(st).indices || cfg.aggBatchSize <= 0
    {
      hide Splits, Good, Progress, SafeConfig, IsPage, StrictTotalOrder, BlankFirst, RangeKeys, Ran;
      RanNothing(trace, plan, cfg, {src}, {});
      ghost var keys := RangeKeys(plan.frozen[src], cfg.aggWindow, ranges[i]);
      var after: Option<Key> := None;
      visited := [];
      assert Above(keys, None, orders.keys) == keys && Elements(visited) == {};
      while true
        invariant Logged() && Good(st, plan, cfg) && Ran(old(trace), trace, plan, cfg, {src}, {})
        invariant KeepsDocs(old(st), st, target)
        invariant Wrote(st, target, src, keys - Above(keys, after, orders.keys))
        invariant Ascending(visited, orders.keys) && Elements(visited) + Above(keys, after, orders.keys) == keys
        invariant forall p, k :: p in visited && k in Above(keys, after, orders.keys) ==> orders.keys(p, k)
        invariant (src in old(st).indices ==> src in st.indices) && Grew(old(refused))
        decreases Above(keys, after, orders.keys)
      {
        label Before:
        var page;
        ok, page := RollPage(src, target, ranges, i, minVal, maxVal, after, cfg, orders, plan);
        if Hindered(refused, |old@Before(refused)|, src, target) {
          HinderedLater(refused, refused, |old@Before(refused)|, |old(refused)|, src, target);
        }
        RanOn(old(trace), old@Before(trace), trace, plan, cfg, {src}, {});
        RanGives(old(trace), trace, plan, cfg, {src}, {});
        if !ok {
          return;
        }
        if page == [] {
          EmptyPageIsEnd(page, keys, after, cfg.aggBatchSize, orders.keys);
          assert keys - Above(keys, after, orders.keys) == keys;
          return;
        }
        PageAdvances(page, keys, after, cfg.aggBatchSize, orders.keys);
        VisitedGrows(visited, page, keys, after, cfg.aggBatchSize, orders.keys);
        visited := visited + page;
        after := Some(page[|page| - 1]);
      }
    }

    /** The range loop of doRolloverAndValidate. */
    method RollRanges(src: string, target: string, ranges: seq<TimeRange>, minVal: int, maxVal: int,
                      cfg: RolloverConfig, orders: Orders, ghost plan: Plan) returns (ok: bool)
      requires ValidOrders(orders) && Runs(plan, cfg) && Logged() && Good(st, plan, cfg)
      requires src in plan.frozen && plan.target[src] == target && Splits(ranges, minVal, maxVal, cfg.aggQueryRange)
      requires forall id <- plan.frozen[src] :: minVal <= plan.frozen[src][id].ts <= maxVal
      modifies this
      ensures Logged() && Ran(old(trace), trace, plan, cfg, {src}, {})
      ensures ok ==> Written(st, plan, src)
      ensures Grew(old(refused))
      ensures !ok ==>
        Hindered(refused, |old(refused)|, src, target) || src !in old(st).indices || cfg.aggBatchSize <= 0
    {
      hide Good, Progress, SafeConfig, Splits, ValidOrders, Written, Ran, RangeKeys;
      RanNothing(trace, plan, cfg, {src}, {});
      ok := true;
      for i := 0 to |ranges|
        invariant Logged() && Good(st, plan, cfg) && Ran(old(trace), trace, plan, cfg, {src}, {})
        invariant (src in old(st).indices ==> src in st.indices) && Grew(old(refused))
        invariant forall j :: 0 <= j < i ==>
          Wrote(st, target, src, RangeKeys(plan.frozen[src], cfg.aggWindow, ranges[j]))
      {
        label Before:
        ghost var visited;
        ok, visited := RollRange(src, target, ranges, i, minVal, maxVal, cfg, orders, plan);
        if Hindered(refused, |old@Before(refused)|, src, target) {
          HinderedLater(refused, refused, |old@Before(refused)|, |old(refused)|, src, target);
        }
        RanOn(old(trace), old@Before(trace), trace, plan, cfg, {src}, {});
        RanGives(old(trace), trace, plan, cfg, {src}, {});
        if !ok {
          return;
        }
      }
      AllRangesWritten(st, src, ranges, minVal, maxVal, cfg, plan);
      ok := true;
    }

    /** doRolloverAndValidate */
    method DoRolloverAndValidate(src: string, target: string, cfg: RolloverConfig, orders: Orders, ghost plan: Plan)
      returns (ok: bool)
      requires ValidOrders(orders) && Runs(plan, cfg) && Logged() && Good(st, plan, cfg)
      requires src in plan.frozen && plan.target[src] == target
      modifies this
      ensures Logged() && Ran(old(trace), trace, plan, cfg, {src}, {})
      ensures ok ==>
        && src in st.indices && Written(st, plan, src) && Checked(st, plan, src)
        && CheckedSince(old(trace), trace, src, target, cfg)
      ensures ok && SafeConfig(cfg) ==> AsOneRun(st, plan, src)
      ensures ok && !cfg.skipValidation ==> target in st.indices
      ensures Grew(old(refused))
      ensures !ok ==> Excused(!Hindered(refused, |old(refused)|, src, target), st, src, plan, cfg)
    {
      hide Good, Progress, SafeConfig, NoLoss, Splits, ValidOrders, Written, Refuses, Ran, AcceptedNow, AsOneRun;
      RanNothing(trace, plan, cfg, {src}, {});
      if cfg.aggQueryRange <= 0 || cfg.validationRange <= 0 || cfg.aggWindow <= 0 {
        return false;
      }
      var minVal, maxVal;
      ok, minVal, maxVal := FindMinMaxTimestamp(src);
      if !ok {
        assert src in st.indices ==> refused[|old(refused)|] == Search(src);
        return;
      }
      SourceIsFrozen(st, src, cfg, plan);
      var ranges := SplitByTimeRanges(minVal, maxVal, cfg.aggQueryRange);
      if cfg.deleteExistingRolledOverIndex {
        ok := DeleteIndex(target);
        DeleteTargetRan(old(trace), st, src, cfg, plan);
        RanGives(old(trace), trace, plan, cfg, {src}, {});
        if !ok {
          assert refused[|old(refused)|] == Remove(target);
          return;
        }
      }
      label Prepared:
      ok := RollRanges(src, target, ranges, minVal, maxVal, cfg, orders, plan);
      if Hindered(refused, |old@Prepared(refused)|, src, target) {
        HinderedLater(refused, refused, |old@Prepared(refused)|, |old(refused)|, src, target);
      }
      RanOn(old(trace), old@Prepared(trace), trace, plan, cfg, {src}, {});
      RanGives(old(trace), trace, plan, cfg, {src}, {});
      if !ok {
        return;
      }
      if !cfg.skipValidation {
        SourceIsFrozen(st, src, cfg, plan);
        label BeforeCheck:
        ok := Validate(src, target, minVal, maxVal, cfg, orders, plan);
        if Hindered(refused, |old@BeforeCheck(refused)|, src, target) {
          HinderedLater(refused, refused, |old@BeforeCheck(refused)|, |old(refused)|, src, target);
        }
        RanOn(old(trace), old@BeforeCheck(trace), trace, plan, cfg, {src}, {});
        RanGives(old(trace), trace, plan, cfg, {src}, {});
        if ok {
          CheckedLater(old(trace), old@BeforeCheck(trace), trace, trace, src, target, cfg);
        }
      }
      WrittenAsOneRun(st, plan, cfg, src);
    }

    /** validateNewData: refreshes the target and compares what the two wildcards show. */
    method Validate(src: string, target: string, minVal: int, maxVal: int, cfg: RolloverConfig, orders: Orders,
                    ghost plan: Plan)
      returns (ok: bool)
      requires ValidOrders(orders) && Runs(plan, cfg) && Logged() && Good(st, plan, cfg) && cfg.validationRange > 0
      requires src in plan.frozen && plan.target[src] == target && Written(st, plan, src)
      requires src in st.indices && Extremes(st.indices[src], minVal, maxVal)
      modifies this
      ensures Logged() && Ran(old(trace), trace, plan, cfg, {src}, {}) && Written(st, plan, src)
      ensures st.indices == old(st).indices
      ensures ok ==> (src, target) in st.validated && target in st.indices
      ensures ok ==> AcceptedNow(old(st), src, target, cfg) && CheckedSince(old(trace), trace, src, target, cfg)
      ensures Grew(old(refused))
      ensures !ok ==>
        || Hindered(refused, |old(refused)|, src, target) || target !in st.indices || Refuses(st, src, target, cfg)
    {
      hide Good, Progress, SafeConfig, Accepted, StrictTotalOrder, BlankFirst, Splits, View, Keys, Ran, Extremes;
      RanNothing(trace, plan, cfg, {src}, {});
      if target !in st.indices {
        return false;
      }
      ok := Ask(Compare(src, target));
      if !ok {
        assert refused[|old(refused)|] == Compare(src, target);
        return false;
      }
      var older, newer := View(st.indices, src), View(st.indices, target);
      var failed, accepted, ranges :=
        ValidateNewData(older, newer, minVal, maxVal, cfg.validationRange, cfg.skipTenantIdValidation, orders.groups,
                        calm);
      if failed {
        refused := refused + [Compare(src, target)];
        assert refused[|old(refused)|] == Compare(src, target);
      }
      if failed || !accepted {
        return false;
      }
      assert AcceptedNow(st, src, target, cfg);
      CheckRan(trace, src, target, cfg, plan);
      st := ValidateEffect(st, src, target);
      trace := trace + [st];
      assert trace[|old(trace)| - 1] == old(st);
    }

    /** rollover: one index into its own target, then alias, then delete. */
    method Rollover(src: string, target: string, alias: string, cfg: RolloverConfig, orders: Orders, ghost plan: Plan)
      returns (ok: bool)
      requires ValidOrders(orders) && Runs(plan, cfg) && Logged() && Good(st, plan, cfg)
      requires src in plan.frozen && plan.target[src] == target && plan.alias[src] == alias
      modifies this
      ensures Logged() && Ran(old(trace), trace, plan, cfg, {src}, {src})
      ensures ok ==> src !in st.indices
      ensures src in old(st).indices && src !in st.indices ==> CheckedSince(old(trace), trace, src, target, cfg)
      ensures Grew(old(refused))
      ensures !ok ==>
        || Hindered(refused, |old(refused)|, src, target) || Blocked(refused, |old(refused)|, [src], target, alias)
        || Failing(old(st), st, [src], 0, true, cfg, plan)
    {
      hide Good, Progress, SafeConfig, NoLoss, ValidOrders, Written, Refuses, Ran, CheckedSince, AsOneRun, Adds,
        Blocked;
      assert [src][..1] == [src] && Listed([src]) == {src};
      ok := DoRolloverAndValidate(src, target, cfg, orders, plan);
      RanGives(old(trace), trace, plan, cfg, {src}, {});
      RanAdds(old(trace), trace, plan, cfg, {src}, {});
      RanWithin(old(trace), trace, plan, cfg, {src}, {src}, {}, {src});
      if !ok {
        return;
      }
      if cfg.s3BackupEnabled {
        ghost var n := |refused|;
        ok := Ask(Backup(src));
        if !ok {
          assert refused[n] == Backup(src);
          return;
        }
      }
      label BeforeSwap:
      ok := SwapAndDelete([src], target, alias, cfg, plan);
      RanWithin(old@BeforeSwap(trace), trace, plan, cfg, {}, {src}, {src}, {src});
      RanOn(old(trace), old@BeforeSwap(trace), trace, plan, cfg, {src}, {src});
      RanGives(old@BeforeSwap(trace), trace, plan, cfg, {src}, {src});
      if Blocked(refused, |old@BeforeSwap(refused)|, [src], target, alias) {
        BlockedLater(refused, refused, |old@BeforeSwap(refused)|, |old(refused)|, [src], target, alias);
      }
      CheckedLater(old(trace), old(trace), old@BeforeSwap(trace), trace, src, target, cfg);
    }

    /**
     * mergeP2IndicesIntoP3, and the body of the year loop of mergeP3AndOlderRolledOverIndices: the
     * sources rolled before the first failure are swapped out of the alias together and then deleted.
     */
    method MergeIndices(sources: seq<string>, target: string, alias: string, cfg: RolloverConfig, orders: Orders,
                        ghost plan: Plan)
      returns (aborted: bool, errored: bool, ghost done: nat)
      requires ValidOrders(orders) && Runs(plan, cfg) && Logged() && Good(st, plan, cfg)
      requires forall src <- sources :: src in plan.frozen && plan.target[src] == target && plan.alias[src] == alias
      modifies this
      ensures Logged() && Ran(old(trace), trace, plan, cfg, Listed(sources), Listed(sources))
      ensures done <= |sources| && (!errored ==> done == |sources|)
      ensures !aborted ==> forall src <- sources[..done] :: src !in st.indices
      ensures forall src <- sources :: src in old(st).indices && src !in st.indices ==>
        CheckedSince(old(trace), trace, src, target, cfg)
      ensures Grew(old(refused))
      ensures errored ==>
        && done < |sources|
        && (Hindered(refused, |old(refused)|, sources[done], target) ||
            FailedOnce(old(st), trace, |old(trace)| - 1, sources, done, cfg, plan))
      ensures aborted ==>
        && done > 0
        && (Blocked(refused, |old(refused)|, sources[..done], target, alias) ||
            (target !in st.indices && (SafeConfig(cfg) ==> Written(st, plan, sources[0]))))
    {
      hide Good, Progress, SafeConfig, NoLoss, ValidOrders, Written, Ran, Failing, CheckedSince;
      done, errored := 0, false;
      var rolled;
      rolled, errored := RollAll(sources, target, cfg, orders, plan);
      done := rolled;
      RanGives(old(trace), trace, plan, cfg, Listed(sources), {});
      RanWithin(old(trace), trace, plan, cfg, Listed(sources), Listed(sources), {}, Listed(sources));
      aborted := false;
      assert errored && !Hindered(refused, |old(refused)|, sources[done], target) ==>
        Failing(old(st), trace[|trace| - 1], sources, done, true, cfg, plan);
      if rolled > 0 {
        assert sources[0] in sources && sources[..done][0] == sources[0] && sources[0] in sources[..done];
        label Rolled:
        var ok := SwapAndDelete(sources[..rolled], target, alias, cfg, plan);
        assert Listed(sources[..done]) <= Listed(sources);
        RanGives(old@Rolled(trace), trace, plan, cfg, {}, Listed(sources[..done]));
        RanWithin(old@Rolled(trace), trace, plan, cfg, {}, Listed(sources), Listed(sources[..done]), Listed(sources));
        RanOn(old(trace), old@Rolled(trace), trace, plan, cfg, Listed(sources), Listed(sources));
        forall src <- sources | src in old@Rolled(st).indices && src !in st.indices
          ensures CheckedSince(old(trace), trace, src, target, cfg)
        {
          CheckedLater(old(trace), old(trace), old@Rolled(trace), trace, src, target, cfg);
        }
        if SafeConfig(cfg) {
          StillDone(old@Rolled(st), st, plan, sources[0]);
        }
        if errored && Hindered(old@Rolled(refused), |old(refused)|, sources[done], target) {
          HinderedLater(old@Rolled(refused), refused, |old(refused)|, |old(refused)|, sources[done], target);
        }
        if Blocked(refused, |old@Rolled(refused)|, sources[..done], target, alias) {
          BlockedLater(refused, refused, |old@Rolled(refused)|, |old(refused)|, sources[..done], target, alias);
        }
        assert trace[|old@Rolled(trace)| - 1] == old@Rolled(st);
        aborted := !ok;
      }
    }

    /** Rolls the sources in order up to the first failure. */
    method RollAll(sources: seq<string>, target: string, cfg: RolloverConfig, orders: Orders, ghost plan: Plan)
      returns (done: nat, errored: bool)
      requires ValidOrders(orders) && Runs(plan, cfg) && Logged() && Good(st, plan, cfg)
      requires forall src <- sources :: src in plan.frozen && plan.target[src] == target
      modifies this
      ensures Logged() && Ran(old(trace), trace, plan, cfg, Listed(sources), {})
      ensures done <= |sources| && (!errored ==> done == |sources|)
      ensures SafeConfig(cfg) ==> AllDone(st, plan, sources[..done])
      ensures forall src <- sources[..done] :: CheckedSince(old(trace), trace, src, target, cfg)
      ensures Grew(old(refused))
      ensures errored ==>
        && done < |sources|
        && Failing(old(st), st, sources, done, !Hindered(refused, |old(refused)|, sources[done], target), cfg, plan)
    {
      hide Good, Progress, SafeConfig, NoLoss, ValidOrders, Written, Excused, Ran, CheckedSince, AsOneRun;
      done, errored := 0, false;
      ghost var none: set<string> := {};
      assert none + none == none;
      RanNothing(trace, plan, cfg, {}, {});
      assert Listed(sources[..0]) == {};
      while done < |sources| && !errored
        invariant done <= |sources| && Logged() && Good(st, plan, cfg)
        invariant !errored ==> Ran(old(trace), trace, plan, cfg, Listed(sources[..done]), {})
        invariant errored ==> done < |sources| && Ran(old(trace), trace, plan, cfg, Listed(sources[..done + 1]), {})
        invariant SafeConfig(cfg) ==> AllDone(st, plan, sources[..done])
        invariant forall src <- sources[..done] :: CheckedSince(old(trace), trace, src, target, cfg)
        invariant Grew(old(refused))
        invariant errored ==>
          Excused(!Hindered(refused, |old(refused)|, sources[done], target), st, sources[done], plan, cfg)
        decreases |sources| - done, !errored
      {
        label Before:
        assert sources[..done + 1] == sources[..done] + [sources[done]];
        assert Listed(sources[..done]) + {sources[done]} == Listed(sources[..done + 1]);
        var ok := DoRolloverAndValidate(sources[done], target, cfg, orders, plan);
        if Hindered(refused, |old@Before(refused)|, sources[done], target) {
          HinderedLater(refused, refused, |old@Before(refused)|, |old(refused)|, sources[done], target);
        }
        ExcusedWeakens(!Hindered(refused, |old@Before(refused)|, sources[done], target),
                       !Hindered(refused, |old(refused)|, sources[done], target), st, sources[done], plan, cfg);
        RanGives(old@Before(trace), trace, plan, cfg, {sources[done]}, {});
        RanGives(old(trace), old@Before(trace), plan, cfg, Listed(sources[..done]), {});
        RanJoin(old(trace), old@Before(trace), trace, plan, cfg, Listed(sources[..done]), {sources[done]}, none, none);
        forall src <- sources[..done] ensures CheckedSince(old(trace), trace, src, target, cfg) {
          CheckedLater(old(trace), old(trace), old@Before(trace), trace, src, target, cfg);
        }
        if SafeConfig(cfg) {
          AllStillDone(old@Before(st), st, plan, sources[..done]);
        }
        if ok {
          CheckedLater(old(trace), old@Before(trace), trace, trace, sources[done], target, cfg);
          done := done + 1;
        } else {
          errored := true;
        }
      }
      ghost var seen := if errored then sources[..done + 1] else sources[..done];
      assert Listed(seen) <= Listed(sources);
      RanGives(old(trace), trace, plan, cfg, Listed(seen), {});
      RanAdds(old(trace), trace, plan, cfg, Listed(seen), {});
      RanWithin(old(trace), trace, plan, cfg, Listed(seen), Listed(sources), {}, {});
    }

    /** Takes the rolled sources out of the alias together, then deletes them one by one. */
    method SwapAndDelete(sources: seq<string>, target: string, alias: string, cfg: RolloverConfig, ghost plan: Plan)
      returns (ok: bool)
      requires Runs(plan, cfg) && Logged() && Good(st, plan, cfg) && target !in plan.frozen
      requires forall src <- sources :: src in plan.frozen && plan.target[src] == target && plan.alias[src] == alias
      requires SafeConfig(cfg) ==> AllDone(st, plan, sources)
      modifies this
      ensures Logged() && Ran(old(trace), trace, plan, cfg, {}, Listed(sources))
      ensures ok ==> forall src <- sources :: src !in st.indices
      ensures Grew(old(refused))
      ensures !ok ==>
        Blocked(refused, |old(refused)|, sources, target, alias) || (target !in st.indices && st == old(st))
    {
      hide Good, Progress, SafeConfig, NoLoss, Ran, Written, Blocked, Checked;
      ok := UpdateAliases(alias, (set src | src in sources), target);
      SwapRan(old(trace), st, alias, (set src | src in sources), target, cfg, plan);
      RanGives(old(trace), trace, plan, cfg, {}, {});
      RanWithin(old(trace), trace, plan, cfg, {}, {}, {}, Listed(sources));
      if !ok {
        BlockedNow(old(refused), |old(refused)|, Alias(alias, target), sources, target, alias);
        return;
      }
      if SafeConfig(cfg) {
        AllStillDone(old(st), st, plan, sources);
      }
      for i := 0 to |sources|
        invariant Logged() && Good(st, plan, cfg) && Ran(old(trace), trace, plan, cfg, {}, Listed(sources))
        invariant SafeConfig(cfg) ==> target in st.indices && InAlias(st, alias, target)
        invariant SafeConfig(cfg) ==> AllDone(st, plan, sources)
        invariant forall j :: 0 <= j < i ==> sources[j] !in st.indices
        invariant Grew(old(refused))
      {
        label BeforeDelete:
        assert sources[i] in sources;
        ok := DeleteIndex(sources[i]);
        BlockedNow(old@BeforeDelete(refused), |old(refused)|, Remove(sources[i]), sources, target, alias);
        DeletedNext(old(trace), old@BeforeDelete(trace), st, sources[i], sources, target, alias, cfg, plan);
        if !ok {
          return;
        }
      }
      ok := true;
    }
  }

  lemma RanAdds(a: seq<State>, b: seq<State>, plan: Plan, cfg: RolloverConfig, srcs: set<string>, gone: set<string>)
    requires WellPlanned(plan) && Ran(a, b, plan, cfg, srcs, gone)
    ensures Adds(Last(a), Last(b), plan, srcs)
  {
    hide Good, SafeProgress, Adds;
  }

  /** A state in which the i-th source of a merge had a reason to fail, after the earlier ones were rolled. */
  ghost predicate Failing(start: State, s: State, sources: seq<string>, i: int, quiet: bool, cfg: RolloverConfig,
                          plan: Plan)
    requires WellPlanned(plan) && forall src <- sources :: src in plan.frozen
  {
    && 0 <= i < |sources| && Good(s, plan, cfg) && Adds(start, s, plan, Listed(sources[..i + 1]))
    && (forall n <- start.indices :: n in plan.frozen ==> n in s.indices)
    && Excused(quiet, s, sources[i], plan, cfg)
  }

  /** In some state from position `n` of the trace on, the source had such a reason without any failing call. */
  ghost predicate FailedOnce(start: State, trace: seq<State>, n: int, sources: seq<string>, i: int,
                             cfg: RolloverConfig, plan: Plan)
    requires WellPlanned(plan) && forall src <- sources :: src in plan.frozen
  {
    exists k :: 0 <= n <= k < |trace| && Failing(start, trace[k], sources, i, true, cfg, plan)
  }

  lemma ExcusedWeakens(quiet: bool, calmer: bool, s: State, src: string, plan: Plan, cfg: RolloverConfig)
    requires WellPlanned(plan) && src in plan.frozen && (calmer ==> quiet)
    ensures Excused(quiet, s, src, plan, cfg) ==> Excused(calmer, s, src, plan, cfg)
  {
    hide Refuses, Written;
  }
}
