/** Streaming forms over sorted rows: the noise evaluation of devices and the unique-device counter. */
module DeviceStreams {
  import opened Documents
  import opened Paging

  // ----- equal values lie together

  ghost predicate Contiguous<T>(s: seq<T>) {
    forall i, j, k :: 0 <= i < j < k < |s| && s[i] == s[k] ==> s[j] == s[i]
  }

  lemma ContiguousExtends<T>(t: seq<T>, x: T)
    ensures Contiguous(t + [x]) <==> Contiguous(t) && (x in t ==> t[|t| - 1] == x)
  {
    var s := t + [x];
    assert forall i :: 0 <= i < |t| ==> s[i] == t[i];
    if Contiguous(s) {
      forall i, j, k | 0 <= i < j < k < |t| && t[i] == t[k] ensures t[j] == t[i] {
        assert s[i] == s[k];
      }
      if x in t {
        var i :| 0 <= i < |t| && t[i] == x;
        assert s[i] == s[|t|];
        assert i == |t| - 1 || s[|t| - 1] == s[i];
      }
    }
    if Contiguous(t) && (x in t ==> t[|t| - 1] == x) {
      forall i, j, k | 0 <= i < j < k < |s| && s[i] == s[k] ensures s[j] == s[i] {
        if k == |t| {
          assert t[i] in t;
          assert j == |t| - 1 || t[j] == t[i];
        }
      }
    }
  }

  // ----- the unique-device counter

  /** How often a value differs from the one before it; the first one counts. */
  ghost function Changes(ids: seq<string>): nat {
    if ids == [] then 0
    else
      var t := ids[..|ids| - 1];
      Changes(t) + if t != [] && t[|t| - 1] == ids[|ids| - 1] then 0 else 1
  }

  /** Counting changes never undercounts, and is the distinct count exactly when equal ids are adjacent. */
  lemma {:induction false} ChangesCountDistinctIff(ids: seq<string>)
    ensures |Elements(ids)| <= Changes(ids)
    ensures Changes(ids) == |Elements(ids)| <==> Contiguous(ids)
  {
    hide Contiguous;
    if ids == [] {
      assert Elements(ids) == {};
      assert Contiguous(ids) by { NothingScattered(); }
    } else {
      var t, x := ids[..|ids| - 1], ids[|ids| - 1];
      assert ids == t + [x];
      ChangesCountDistinctIff(t);
      ContiguousExtends(t, x);
      assert Elements(ids) == Elements(t) + {x};
      if x in t {
        assert Elements(ids) == Elements(t);
      }
      if t != [] {
        assert t[|t| - 1] in t;
      }
    }
  }

  lemma NothingScattered()
    ensures Contiguous<string>([])
  {
  }

  /** Empty ids at the very start are not counted: the counter starts out as if it had just seen one. */
  ghost function Uncounted(ids: seq<string>): nat {
    if ids != [] && ids[0] == "" then 1 else 0
  }

  class StreamingUniqueDeviceCounter {
    var lastDeviceId: string
    var total: nat
    ghost var seen: seq<string>

    ghost predicate Valid()
      reads this
    {
      total + Uncounted(seen) == Changes(seen) && lastDeviceId == if seen == [] then "" else seen[|seen| - 1]
    }

    constructor ()
      ensures Valid() && seen == [] && total == 0
    {
      lastDeviceId, total, seen := "", 0, [];
    }

    method Observe(id: string) returns (isNew: bool)
      requires Valid()
      modifies this
      ensures Valid() && seen == old(seen) + [id] && total == old(total) + if isNew then 1 else 0
    {
      assert (seen + [id])[..|seen|] == seen;
      seen := seen + [id];
      if id == lastDeviceId {
        return false;
      }
      lastDeviceId := id;
      total := total + 1;
      return true;
    }

    /** One page of ids; how the ids are cut into pages does not matter. */
    method ObserveBatch(ids: seq<string>) returns (newInBatch: nat)
      requires Valid()
      modifies this
      ensures Valid() && seen == old(seen) + ids && total == old(total) + newInBatch
      ensures total + Uncounted(seen) == |Elements(seen)| <==> Contiguous(seen)
    {
      newInBatch := 0;
      for i := 0 to |ids|
        invariant Valid() && seen == old(seen) + ids[..i] && total == old(total) + newInBatch
      {
        var isNew := Observe(ids[i]);
        if isNew {
          newInBatch := newInBatch + 1;
        }
        assert ids[..i + 1] == ids[..i] + [ids[i]];
      }
      assert ids[..|ids|] == ids;
      ChangesCountDistinctIff(seen);
    }
  }

  // ----- the in-place sort of days with their counts

  ghost function Pairs(days: seq<real>, counts: seq<real>): seq<(real, real)>
    requires |days| == |counts|
  {
    seq(|days|, i requires 0 <= i < |days| => (days[i], counts[i]))
  }

  lemma SwapKeepsPairs(days: seq<real>, counts: seq<real>, days': seq<real>, counts': seq<real>, i: nat, j: nat)
    requires |days| == |counts| && i < j < |days|
    requires days' == days[i := days[j]][j := days[i]] && counts' == counts[i := counts[j]][j := counts[i]]
    ensures multiset(Pairs(days', counts')) == multiset(Pairs(days, counts))
  {
    var p := Pairs(days, counts);
    assert Pairs(days', counts') == p[i := p[j]][j := p[i]];
  }

  /** sortTwoSlices: days ascending, and every count still beside its own day. */
  method SortTwoSlices(days: array<real>, counts: array<real>)
    requires days.Length == counts.Length && days != counts
    modifies days, counts
    ensures forall a, b :: 0 <= a < b < days.Length ==> days[a] <= days[b]
    ensures multiset(Pairs(days[..], counts[..])) == multiset(Pairs(old(days[..]), old(counts[..])))
  {
    hide Pairs;
    for i := 0 to days.Length
      invariant forall a, b :: 0 <= a < i && a < b < days.Length ==> days[a] <= days[b]
      invariant multiset(Pairs(days[..], counts[..])) == multiset(Pairs(old(days[..]), old(counts[..])))
    {
      for j := i + 1 to days.Length
        invariant forall a, b :: 0 <= a < i && a < b < days.Length ==> days[a] <= days[b]
        invariant forall b :: i < b < j ==> days[i] <= days[b]
        invariant multiset(Pairs(days[..], counts[..])) == multiset(Pairs(old(days[..]), old(counts[..])))
      {
        if days[i] > days[j] {
          ghost var d, c := days[..], counts[..];
          days[i], days[j] := days[j], days[i];
          counts[i], counts[j] := counts[j], counts[i];
          SwapKeepsPairs(d, c, days[..], counts[..], i, j);
        }
      }
    }
  }

  // ----- the noise loop

  datatype Device = Device(key1: string, key2: string, sourceId: string)

  datatype Aggregate = Aggregate(device: Device, day: int, count: real)

  /** What the noise level is decided from: the latest day with its count, and the days before it. */
  datatype Noise = Noise(day: real, count: real, sampleDays: seq<real>, sampleCounts: seq<real>)

  /** One evaluation: a device, the rows accumulated for it, and what was made of them. */
  datatype Evaluation = Evaluation(device: Device, rows: seq<Aggregate>, noise: Option<Noise>)

  function DaysIn(rows: seq<Aggregate>): seq<real> {
    seq(|rows|, i requires 0 <= i < |rows| => rows[i].day as real)
  }

  function CountsIn(rows: seq<Aggregate>): seq<real> {
    seq(|rows|, i requires 0 <= i < |rows| => rows[i].count)
  }

  /** The day is the latest of the rows, the count is its own, and the sample is made of the other rows. */
  ghost predicate IsLatest(n: Noise, rows: seq<Aggregate>) {
    && |n.sampleDays| == |n.sampleCounts| && (forall r <- rows :: r.day as real <= n.day)
    && multiset(Pairs(DaysIn(rows), CountsIn(rows))) ==
       multiset(Pairs(n.sampleDays, n.sampleCounts)) + multiset{(n.day, n.count)}
  }

  /** Fewer than three rows are not judged; otherwise the latest day is compared with the others. */
  ghost predicate Judged(e: Evaluation) {
    if |e.rows| < 3 then e.noise == None else e.noise.Some? && IsLatest(e.noise.value, e.rows)
  }

  lemma LastIsLatest(days: seq<real>, counts: seq<real>, sorted: seq<real>, moved: seq<real>, d: real)
    requires |days| == |counts| == |sorted| == |moved|
    requires multiset(Pairs(sorted, moved)) == multiset(Pairs(days, counts)) && d in days
    requires forall a, b :: 0 <= a < b < |sorted| ==> sorted[a] <= sorted[b]
    ensures d <= sorted[|sorted| - 1]
  {
    var i :| 0 <= i < |days| && days[i] == d;
    assert Pairs(days, counts)[i] == (d, counts[i]);
    assert (d, counts[i]) in multiset(Pairs(sorted, moved));
    var j :| 0 <= j < |sorted| && Pairs(sorted, moved)[j] == (d, counts[i]);
  }

  lemma LastPair(days: seq<real>, counts: seq<real>)
    requires |days| == |counts| > 0
    ensures var n := |days| - 1;
            multiset(Pairs(days, counts)) == multiset(Pairs(days[..n], counts[..n])) + multiset{(days[n], counts[n])}
  {
    var n := |days| - 1;
    assert Pairs(days, counts) == Pairs(days[..n], counts[..n]) + [(days[n], counts[n])];
  }

  /** decideNoiseLevel up to the statistics: sorts the slices and splits off the latest day. */
  method DecideNoiseLevel(days: array<real>, counts: array<real>) returns (noise: Option<Noise>)
    requires days.Length == counts.Length && days != counts
    modifies days, counts
    ensures multiset(Pairs(days[..], counts[..])) == multiset(Pairs(old(days[..]), old(counts[..])))
    ensures days.Length < 3 ==> noise == None && days[..] == old(days[..]) && counts[..] == old(counts[..])
    ensures days.Length >= 3 ==> (forall a, b :: 0 <= a < b < days.Length ==> days[a] <= days[b])
    ensures var n := days.Length - 1;
            days.Length >= 3 ==> noise == Some(Noise(days[n], counts[n], days[..n], counts[..n]))
  {
    if counts.Length < 3 {
      return None;
    }
    SortTwoSlices(days, counts);
    var n := days.Length - 1;
    return Some(Noise(days[n], counts[n], days[..n], counts[..n]));
  }

  /** Evaluates the rows accumulated for one device; `lastDay` is the last element of the slice afterwards. */
  method EvaluateDevice(device: Device, acc: seq<Aggregate>) returns (e: Evaluation, lastDay: real)
    requires acc != []
    ensures e.device == device && e.rows == acc && Judged(e)
    ensures e.noise.Some? ==> lastDay == e.noise.value.day
  {
    var days, counts := new real[|acc|](i requires 0 <= i < |acc| => acc[i].day as real),
      new real[|acc|](i requires 0 <= i < |acc| => acc[i].count);
    assert days[..] == DaysIn(acc) && counts[..] == CountsIn(acc);
    var noise := DecideNoiseLevel(days, counts);
    lastDay := days[days.Length - 1];
    if noise.Some? {
      var n := days.Length - 1;
      assert days[..][..n] == days[..n] && counts[..][..n] == counts[..n];
      LastPair(days[..], counts[..]);
      forall r <- acc ensures r.day as real <= days[n] {
        var i :| 0 <= i < |acc| && acc[i] == r;
        assert DaysIn(acc)[i] == r.day as real;
        LastIsLatest(DaysIn(acc), CountsIn(acc), days[..], counts[..], r.day as real);
      }
    }
    e := Evaluation(device, acc, noise);
  }

  function RowsOf(rows: seq<Aggregate>, d: Device): seq<Aggregate> {
    if rows == [] then []
    else RowsOf(rows[..|rows| - 1], d) + if rows[|rows| - 1].device == d then [rows[|rows| - 1]] else []
  }

  ghost function Devices(rows: seq<Aggregate>): seq<Device> {
    seq(|rows|, i requires 0 <= i < |rows| => rows[i].device)
  }

  /** Exactly the devices of `rows` other than the one still open, each once, with all of its rows. */
  ghost predicate Evaluated(evals: seq<Evaluation>, rows: seq<Aggregate>, open: set<Device>) {
    && (forall e <- evals ::
          e.device in Devices(rows) && e.device !in open && e.rows == RowsOf(rows, e.device) && Judged(e))
    && (forall d <- Devices(rows) :: d !in open ==> exists e <- evals :: e.device == d)
    && (forall i, j :: 0 <= i < j < |evals| ==> evals[i].device != evals[j].device)
  }

  lemma {:induction false} RowsOfAbsent(rows: seq<Aggregate>, d: Device)
    requires d !in Devices(rows)
    ensures RowsOf(rows, d) == []
  {
    if rows != [] {
      var n := |rows| - 1;
      assert Devices(rows)[n] == rows[n].device && Devices(rows)[..n] == Devices(rows[..n]);
      RowsOfAbsent(rows[..n], d);
    }
  }

  lemma DevicesGrow(rows: seq<Aggregate>, i: nat)
    requires i < |rows|
    ensures Devices(rows[..i + 1]) == Devices(rows[..i]) + [rows[i].device]
    ensures forall d :: RowsOf(rows[..i + 1], d) == RowsOf(rows[..i], d) + if rows[i].device == d then [rows[i]] else []
  {
    assert rows[..i + 1][..i] == rows[..i];
  }

  lemma {:induction false} ContiguousPrefix(rows: seq<Aggregate>, i: nat)
    requires i <= |rows| && Contiguous(Devices(rows))
    ensures Contiguous(Devices(rows[..i]))
  {
    assert Devices(rows[..i]) == Devices(rows)[..i];
  }

  /** Closing the open device evaluates it, provided it does not come back later. */
  lemma CloseDevice(evals: seq<Evaluation>, rows: seq<Aggregate>, e: Evaluation)
    requires Evaluated(evals, rows, {e.device}) && e.device in Devices(rows) && e.rows == RowsOf(rows, e.device)
    requires Judged(e)
    ensures Evaluated(evals + [e], rows, {})
  {
    hide RowsOf, Devices;
    var all := evals + [e];
    assert all[|evals|] in all;
    forall x | x in Devices(rows) ensures exists o <- all :: o.device == x {
      if x != e.device {
        var o :| o in evals && o.device == x;
        assert o in all;
      }
    }
  }

  /** A row of a device not seen before, or of the open one, leaves the evaluated devices as they are. */
  lemma NextRow(evals: seq<Evaluation>, rows: seq<Aggregate>, i: nat, open: set<Device>)
    requires i < |rows| && Evaluated(evals, rows[..i], open) && open <= {rows[i].device}
    requires rows[i].device in Devices(rows[..i]) ==> open == {rows[i].device}
    ensures Evaluated(evals, rows[..i + 1], {rows[i].device})
  {
    hide RowsOf, Devices;
    DevicesGrow(rows, i);
  }

  /** A history record: the device and the day on which its reputation changed. */
  datatype Record = Record(device: Device, day: real)

  /** The records of the evaluations whose verdict is a change. */
  function Records(evals: seq<Evaluation>, changed: Noise -> bool): seq<Record> {
    if evals == [] then []
    else
      var e := evals[|evals| - 1];
      Records(evals[..|evals| - 1], changed) +
        if e.noise.Some? && changed(e.noise.value) then [Record(e.device, e.noise.value.day)] else []
  }

  lemma RecordsGrow(evals: seq<Evaluation>, e: Evaluation, changed: Noise -> bool)
    ensures Records(evals + [e], changed) ==
            Records(evals, changed) +
              if e.noise.Some? && changed(e.noise.value) then [Record(e.device, e.noise.value.day)] else []
  {
    assert (evals + [e])[..|evals|] == evals;
  }

  /**
   * What a record says: it belongs to a device with at least three rows, and its day is the latest of that device's own
   * days.
   */
  lemma {:induction false} RecordedDayIsLatest(evals: seq<Evaluation>, rows: seq<Aggregate>, changed: Noise -> bool,
                                               h: Record)
    requires (forall e <- evals :: e.rows == RowsOf(rows, e.device) && Judged(e)) && h in Records(evals, changed)
    ensures |RowsOf(rows, h.device)| >= 3 && (forall r <- RowsOf(rows, h.device) :: r.day as real <= h.day)
    ensures exists r <- RowsOf(rows, h.device) :: r.day as real == h.day
  {
    hide RowsOf;
    var e := evals[|evals| - 1];
    assert e in evals;
    if e.noise.Some? && h == Record(e.device, e.noise.value.day) {
      LatestIsARow(e.noise.value, e.rows);
    } else {
      RecordedDayIsLatest(evals[..|evals| - 1], rows, changed, h);
    }
  }

  lemma LatestIsARow(n: Noise, rows: seq<Aggregate>)
    requires IsLatest(n, rows)
    ensures exists r <- rows :: r.day as real == n.day && r.count == n.count
  {
    var pairs := Pairs(DaysIn(rows), CountsIn(rows));
    assert (n.day, n.count) in multiset(pairs);
    var i :| 0 <= i < |rows| && pairs[i] == (n.day, n.count);
    assert rows[i] in rows;
  }

  /** calculateNoiseOfDevices: the accumulation loop, on rows that list each device in one stretch. */
  method EvaluateDevices(rows: seq<Aggregate>, changed: Noise -> bool)
    returns (evals: seq<Evaluation>, history: seq<Record>)
    requires Contiguous(Devices(rows))
    requires forall r <- rows :: r.device.key1 != "" && r.device.sourceId != ""
    ensures Evaluated(evals, rows, {}) && history == Records(evals, changed)
  {
    hide RowsOf, Contiguous, Evaluated, Records, Judged;
    var current := Device("", "", "");
    var acc: seq<Aggregate> := [];
    evals, history := [], [];
    NothingEvaluated(changed);
    for i := 0 to |rows|
      invariant i == 0 ==> current.sourceId == "" && acc == [] && Evaluated(evals, rows[..i], {})
      invariant i > 0 ==>
        && acc != [] && current == rows[i - 1].device && acc == RowsOf(rows[..i], current)
        && Evaluated(evals, rows[..i], {current})
      invariant history == Records(evals, changed)
    {
      var row := rows[i];
      assert row in rows && (i > 0 ==> rows[i - 1] in rows);
      DevicesGrow(rows, i);
      ContiguousPrefix(rows, i + 1);
      ContiguousExtends(Devices(rows[..i]), row.device);
      assert i > 0 ==> Devices(rows[..i])[i - 1] == rows[i - 1].device && rows[i - 1].device in Devices(rows[..i]);
      if current.sourceId != "" && row.device != current {
        var e, lastDay := EvaluateDevice(current, acc);
        CloseDevice(evals, rows[..i], e);
        RecordsGrow(evals, e, changed);
        if e.noise.Some? && changed(e.noise.value) {
          history := history + [Record(current, lastDay)];
        }
        evals := evals + [e];
        acc := [];
        RowsOfAbsent(rows[..i], row.device);
        NextRow(evals, rows, i, {});
      } else if i == 0 {
        RowsOfAbsent(rows[..i], row.device);
        NextRow(evals, rows, i, {});
      } else {
        NextRow(evals, rows, i, {current});
      }
      current := row.device;
      acc := acc + [row];
    }
    assert rows[..|rows|] == rows && (|rows| > 0 ==> rows[|rows| - 1] in rows);
    if current.sourceId != "" && current.key1 != "" {
      assert Devices(rows)[|rows| - 1] == current;
      var e, lastDay := EvaluateDevice(current, acc);
      CloseDevice(evals, rows, e);
      RecordsGrow(evals, e, changed);
      if e.noise.Some? && changed(e.noise.value) {
        history := history + [Record(current, lastDay)];
      }
      evals := evals + [e];
    }
  }

  lemma NothingEvaluated(changed: Noise -> bool)
    ensures Evaluated([], [], {}) && Records([], changed) == []
  {
  }
}
