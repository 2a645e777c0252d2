/** The device document that agent observations are merged into, and who owns its timezone. */
module DeviceDocument {
  import opened Documents

  const MANUAL := "manual"
  const AGENT_SETTING := "agent_setting"

  /** The user id under which agent reports are recorded. */
  const AGENT_ID := "dbdbdb00-0000-0000-0000-000000000000"

  datatype SourceEntry = SourceEntry(sourceId: string, minTime: Option<int>, maxTime: Option<int>)

  /** What describes a device; each observation brings its own. */
  datatype Label = Label(key1: string, key2: string, key3: string, tenantId: string, dataPlaneId: string,
    timestamp: int, updatedAt: int)

  /** An observation; `timezone` is empty unless the agent reported a valid one. */
  datatype Observation = Observation(sourceId: string, minTime: int, maxTime: int, timezone: string, about: Label)

  datatype Zone = Zone(timezone: Option<string>, updatedAt: Option<int>, updatedBy: Option<string>,
    reason: Option<string>)

  datatype Device = Device(sources: Option<seq<SourceEntry>>, globalMin: Option<int>, globalMax: Option<int>,
    about: Label, zone: Zone)

  /** The new description; blank second and third keys do not overwrite. */
  function Relabel(old_: Label, new_: Label): Label {
    new_.(key2 := if new_.key2 != "" then new_.key2 else old_.key2,
          key3 := if new_.key3 != "" then new_.key3 else old_.key3)
  }

  function AgentReport(o: Observation): Zone {
    Zone(Some(o.timezone), Some(o.about.updatedAt), Some(AGENT_ID), Some(AGENT_SETTING))
  }

  function Lower(old_: Option<int>, t: int): Option<int> {
    if old_.None? || t < old_.value then Some(t) else old_
  }

  function Raise(old_: Option<int>, t: int): Option<int> {
    if old_.None? || t > old_.value then Some(t) else old_
  }

  function Widen(e: SourceEntry, o: Observation): SourceEntry {
    e.(minTime := Lower(e.minTime, o.minTime), maxTime := Raise(e.maxTime, o.maxTime))
  }

  function NewEntry(o: Observation): SourceEntry {
    SourceEntry(o.sourceId, Some(o.minTime), Some(o.maxTime))
  }

  function MergeSources(sources: seq<SourceEntry>, o: Observation): seq<SourceEntry> {
    if sources == [] then [NewEntry(o)]
    else if sources[0].sourceId == o.sourceId then [Widen(sources[0], o)] + sources[1..]
    else [sources[0]] + MergeSources(sources[1..], o)
  }

  /** An agent's timezone is taken unless a manual one is in place. */
  function AgentZone(z: Zone, o: Observation): Zone {
    if o.timezone == "" || z.reason == Some(MANUAL) || z.timezone == Some(o.timezone) then z
    else AgentReport(o)
  }

  function Upsert(doc: Option<Device>, o: Observation): Device {
    if doc.None? then
      Device(Some([NewEntry(o)]), Some(o.minTime), Some(o.maxTime), o.about,
             if o.timezone == "" then Zone(None, None, None, None) else AgentReport(o))
    else
      var d := doc.value;
      Device(Some(MergeSources(if d.sources.None? then [] else d.sources.value, o)), Lower(d.globalMin, o.minTime),
             Raise(d.globalMax, o.maxTime), Relabel(d.about, o.about), AgentZone(d.zone, o))
  }

  /** The stored document and the script that updates it in place. */
  class StoredDevice {
    var doc: Option<Device>

    constructor ()
      ensures doc == None
    {
      doc := None;
    }

    method RunUpsert(o: Observation)
      modifies this
      ensures doc == Some(Upsert(old(doc), o))
    {
      if doc.None? {
        doc := Some(Upsert(doc, o));
        return;
      }
      var d := doc.value;
      var sources := if d.sources.None? then [] else d.sources.value;
      var i := 0;
      while i < |sources| && sources[i].sourceId != o.sourceId
        invariant 0 <= i <= |sources|
        invariant forall j :: 0 <= j < i ==> sources[j].sourceId != o.sourceId
      {
        i := i + 1;
      }
      MergeAt(sources, o, i);
      if i < |sources| {
        sources := sources[i := Widen(sources[i], o)];
      } else {
        sources := sources + [NewEntry(o)];
      }
      var about := o.about;
      if o.about.key2 == "" {
        about := about.(key2 := d.about.key2);
      }
      if o.about.key3 == "" {
        about := about.(key3 := d.about.key3);
      }
      var min, max := Lower(d.globalMin, o.minTime), Raise(d.globalMax, o.maxTime);
      doc := Some(Device(Some(sources), min, max, about, AgentZone(d.zone, o)));
    }
  }

  lemma {:induction false} MergeAt(sources: seq<SourceEntry>, o: Observation, i: nat)
    requires i <= |sources| && forall j :: 0 <= j < i ==> sources[j].sourceId != o.sourceId
    requires i < |sources| ==> sources[i].sourceId == o.sourceId
    ensures MergeSources(sources, o) ==
            if i < |sources| then sources[i := Widen(sources[i], o)] else sources + [NewEntry(o)]
  {
    if i > 0 {
      MergeAt(sources[1..], o, i - 1);
      assert sources == [sources[0]] + sources[1..];
    }
  }

  // ----- the merge is a join

  function Fold(obs: seq<Observation>): Device
    requires obs != []
  {
    if |obs| == 1 then Upsert(None, obs[0]) else Upsert(Some(Fold(obs[..|obs| - 1])), obs[|obs| - 1])
  }

  ghost predicate IsMin(m: Option<int>, obs: set<Observation>) {
    m.Some? && (exists o <- obs :: o.minTime == m.value) && forall o <- obs :: m.value <= o.minTime
  }

  ghost predicate IsMax(m: Option<int>, obs: set<Observation>) {
    m.Some? && (exists o <- obs :: o.maxTime == m.value) && forall o <- obs :: o.maxTime <= m.value
  }

  ghost function From(obs: set<Observation>, sourceId: string): set<Observation> {
    set o | o in obs && o.sourceId == sourceId
  }

  ghost predicate DistinctIds(sources: seq<SourceEntry>) {
    forall i, j :: 0 <= i < j < |sources| ==> sources[i].sourceId != sources[j].sourceId
  }

  ghost predicate TrueEntry(e: SourceEntry, obs: set<Observation>) {
    IsMin(e.minTime, From(obs, e.sourceId)) && IsMax(e.maxTime, From(obs, e.sourceId))
  }

  ghost predicate HasEntry(sources: seq<SourceEntry>, sourceId: string) {
    exists e <- sources :: e.sourceId == sourceId
  }

  /** One entry per source seen, with that source's true extremes. */
  ghost predicate Lists(sources: seq<SourceEntry>, obs: set<Observation>) {
    && DistinctIds(sources)
    && (forall e <- sources :: TrueEntry(e, obs))
    && (forall o <- obs :: HasEntry(sources, o.sourceId))
  }

  ghost predicate Summarises(d: Device, obs: set<Observation>) {
    d.sources.Some? && Lists(d.sources.value, obs) && IsMin(d.globalMin, obs) && IsMax(d.globalMax, obs)
  }

  lemma MinMaxGrow(obs: set<Observation>, o: Observation, lo: Option<int>, hi: Option<int>)
    requires (obs == {} && lo == None && hi == None) || (IsMin(lo, obs) && IsMax(hi, obs))
    ensures IsMin(Lower(lo, o.minTime), obs + {o}) && IsMax(Raise(hi, o.maxTime), obs + {o})
  {
    assert o in obs + {o};
  }

  lemma MergeIds(sources: seq<SourceEntry>, o: Observation)
    requires DistinctIds(sources)
    ensures DistinctIds(MergeSources(sources, o))
    ensures forall e <- MergeSources(sources, o) :: e.sourceId != o.sourceId ==> e in sources
    ensures forall e <- MergeSources(sources, o) :: e.sourceId == o.sourceId ==>
      || (e == NewEntry(o) && forall x <- sources :: x.sourceId != o.sourceId)
      || (exists x <- sources :: x.sourceId == o.sourceId && e == Widen(x, o))
    ensures forall x <- sources :: HasEntry(MergeSources(sources, o), x.sourceId)
    ensures HasEntry(MergeSources(sources, o), o.sourceId)
  {
    hide MergeSources;
    var merged := MergeSources(sources, o);
    var i := FirstOf(sources, o.sourceId);
    MergeAt(sources, o, i);
    assert merged[i] in merged && merged[i].sourceId == o.sourceId;
    forall x <- sources ensures HasEntry(merged, x.sourceId) {
      var k :| 0 <= k < |sources| && sources[k] == x;
      assert merged[k] in merged && merged[k].sourceId == x.sourceId;
    }
  }

  lemma FirstOf(sources: seq<SourceEntry>, id: string) returns (i: nat)
    ensures i <= |sources| && (i < |sources| ==> sources[i].sourceId == id)
    ensures forall j :: 0 <= j < i ==> sources[j].sourceId != id
  {
    i := 0;
    while i < |sources| && sources[i].sourceId != id
      invariant i <= |sources| && forall j :: 0 <= j < i ==> sources[j].sourceId != id
    {
      i := i + 1;
    }
  }

  lemma MergeLists(sources: seq<SourceEntry>, obs: set<Observation>, o: Observation)
    requires Lists(sources, obs)
    ensures Lists(MergeSources(sources, o), obs + {o})
  {
    hide MergeSources, TrueEntry, HasEntry;
    var merged, all := MergeSources(sources, o), obs + {o};
    MergeIds(sources, o);
    forall e <- merged ensures TrueEntry(e, all) {
      if e.sourceId != o.sourceId {
        OtherEntry(e, obs, o);
      } else if x :| x in sources && x.sourceId == o.sourceId && e == Widen(x, o) {
        WidenedEntry(x, obs, o);
      } else {
        FirstEntry(sources, obs, o);
      }
    }
    forall p <- all ensures HasEntry(merged, p.sourceId) {
      if p != o {
        EntryPersists(sources, merged, p.sourceId);
      }
    }
  }

  lemma EntryPersists(sources: seq<SourceEntry>, merged: seq<SourceEntry>, id: string)
    requires HasEntry(sources, id) && forall x <- sources :: HasEntry(merged, x.sourceId)
    ensures HasEntry(merged, id)
  {
  }

  lemma OtherEntry(e: SourceEntry, obs: set<Observation>, o: Observation)
    requires TrueEntry(e, obs) && e.sourceId != o.sourceId
    ensures TrueEntry(e, obs + {o})
  {
    assert From(obs + {o}, e.sourceId) == From(obs, e.sourceId);
  }

  lemma WidenedEntry(x: SourceEntry, obs: set<Observation>, o: Observation)
    requires TrueEntry(x, obs) && x.sourceId == o.sourceId
    ensures TrueEntry(Widen(x, o), obs + {o})
  {
    hide IsMin, IsMax;
    assert From(obs + {o}, o.sourceId) == From(obs, o.sourceId) + {o};
    MinMaxGrow(From(obs, o.sourceId), o, x.minTime, x.maxTime);
  }

  lemma FirstEntry(sources: seq<SourceEntry>, obs: set<Observation>, o: Observation)
    requires (forall p <- obs :: HasEntry(sources, p.sourceId)) && forall x <- sources :: x.sourceId != o.sourceId
    ensures TrueEntry(NewEntry(o), obs + {o})
  {
    hide IsMin, IsMax;
    assert From(obs + {o}, o.sourceId) == {} + {o};
    MinMaxGrow({}, o, None, None);
  }

  ghost function Seen(obs: seq<Observation>): set<Observation> {
    set o | o in obs
  }

  /** After any upserts the document summarises exactly what was observed. */
  lemma {:induction false} FoldSummarises(obs: seq<Observation>)
    requires obs != []
    ensures Summarises(Fold(obs), Seen(obs))
  {
    hide IsMin, IsMax, MergeSources, TrueEntry;
    var o := obs[|obs| - 1];
    if |obs| == 1 {
      assert Seen(obs) == {} + {o};
      MinMaxGrow({}, o, None, None);
      FirstEntry([], {}, o);
      assert NewEntry(o) in [NewEntry(o)];
      assert HasEntry([NewEntry(o)], o.sourceId);
    } else {
      var before := obs[..|obs| - 1];
      FoldSummarises(before);
      assert obs == before + [o];
      assert Seen(obs) == Seen(before) + {o};
      MergeLists(Fold(before).sources.value, Seen(before), o);
      assert before[0] in Seen(before);
      MinMaxGrow(Seen(before), o, Fold(before).globalMin, Fold(before).globalMax);
    }
  }

  // ----- what describes the device

  /** The last text that is not blank, or blank if all are. */
  ghost predicate LastText(texts: seq<string>, t: string) {
    if t == "" then forall x <- texts :: x == ""
    else exists i :: 0 <= i < |texts| && texts[i] == t && forall j :: i < j < |texts| ==> texts[j] == ""
  }

  lemma LastTextGrows(texts: seq<string>, t: string, more: string)
    requires LastText(texts, t)
    ensures LastText(texts + [more], if more == "" then t else more)
  {
    var all := texts + [more];
    if more != "" {
      assert all[|texts|] == more;
    } else if t != "" {
      var i :| 0 <= i < |texts| && texts[i] == t && forall j :: i < j < |texts| ==> texts[j] == "";
      assert all[i] == t;
    }
  }

  ghost function Keys2(obs: seq<Observation>): seq<string> {
    seq(|obs|, i requires 0 <= i < |obs| => obs[i].about.key2)
  }

  ghost function Keys3(obs: seq<Observation>): seq<string> {
    seq(|obs|, i requires 0 <= i < |obs| => obs[i].about.key3)
  }

  /** The label is that of the last observation, but with the last second and third key that were not blank. */
  lemma {:induction false} LabelIsLast(obs: seq<Observation>)
    requires obs != []
    ensures var now, last := Fold(obs).about, obs[|obs| - 1].about;
            && now.key1 == last.key1 && now.tenantId == last.tenantId && now.dataPlaneId == last.dataPlaneId
            && now.timestamp == last.timestamp && now.updatedAt == last.updatedAt
            && LastText(Keys2(obs), now.key2) && LastText(Keys3(obs), now.key3)
  {
    hide LastText;
    var n := |obs| - 1;
    if n == 0 {
      OneText(obs[0].about.key2);
      OneText(obs[0].about.key3);
      assert Keys2(obs) == [obs[0].about.key2] && Keys3(obs) == [obs[0].about.key3];
    } else {
      LabelIsLast(obs[..n]);
      var before := Fold(obs[..n]).about;
      LastTextGrows(Keys2(obs[..n]), before.key2, obs[n].about.key2);
      LastTextGrows(Keys3(obs[..n]), before.key3, obs[n].about.key3);
      assert Keys2(obs) == Keys2(obs[..n]) + [obs[n].about.key2];
      assert Keys3(obs) == Keys3(obs[..n]) + [obs[n].about.key3];
    }
  }

  lemma OneText(t: string)
    ensures LastText([t], t)
  {
    assert [t][0] == t;
  }

  ghost function Timezones(obs: seq<Observation>): seq<string> {
    seq(|obs|, i requires 0 <= i < |obs| => obs[i].timezone)
  }

  /** Observation `i` is where the timezone became `t`, and since then no other was reported. */
  ghost predicate ChangedAt(obs: seq<Observation>, i: int, t: string) {
    && 0 <= i < |obs| && obs[i].timezone == t && t != "" && !LastText(Timezones(obs[..i]), t)
    && forall j :: i < j < |obs| ==> obs[j].timezone == "" || obs[j].timezone == t
  }

  ghost predicate ZoneRecorded(obs: seq<Observation>, z: Zone) {
    if z.timezone.None? then z == Zone(None, None, None, None) && LastText(Timezones(obs), "")
    else
      && z.timezone.value != "" && LastText(Timezones(obs), z.timezone.value)
      && z.updatedBy == Some("dbdbdb00-0000-0000-0000-000000000000") && z.reason == Some("agent_setting")
      && exists i :: ChangedAt(obs, i, z.timezone.value) && z.updatedAt == Some(obs[i].about.updatedAt)
  }

  lemma ZoneStep(before: seq<Observation>, z: Zone, o: Observation)
    requires ZoneRecorded(before, z)
    ensures ZoneRecorded(before + [o], AgentZone(z, o))
  {
    hide LastText;
    var obs, t := before + [o], o.timezone;
    var was := if z.timezone.None? then "" else z.timezone.value;
    assert Timezones(obs) == Timezones(before) + [t] && obs[..|before|] == before;
    assert "agent_setting"[0] == 'a' && MANUAL[0] == 'm';
    LastTextGrows(Timezones(before), was, t);
    if t == "" || t == was {
      if z.timezone.Some? {
        var i :| ChangedAt(before, i, was) && z.updatedAt == Some(before[i].about.updatedAt);
        assert obs[..i] == before[..i];
        assert ChangedAt(obs, i, was);
      }
    } else {
      OneLastText(Timezones(before), was, t);
      assert ChangedAt(obs, |before|, t);
    }
  }

  lemma FirstZone(o: Observation)
    ensures ZoneRecorded([o], Upsert(None, o).zone)
  {
    hide LastText;
    NoText();
    OneText(o.timezone);
    assert Timezones([o]) == [o.timezone] && [o][..0] == [] && Timezones([]) == [];
    if o.timezone != "" {
      assert ChangedAt([o], 0, o.timezone);
    }
  }

  /**
   * Without imports the timezone is the last one reported, recorded as set by the agents at the observation that
   * changed it.
   */
  lemma {:induction false} ZoneIsLastReport(obs: seq<Observation>)
    requires obs != []
    ensures ZoneRecorded(obs, Fold(obs).zone)
  {
    hide ZoneRecorded;
    var n := |obs| - 1;
    assert obs == obs[..n] + [obs[n]];
    if n == 0 {
      FirstZone(obs[0]);
    } else {
      ZoneIsLastReport(obs[..n]);
      ZoneStep(obs[..n], Fold(obs[..n]).zone, obs[n]);
    }
  }

  lemma NoText()
    ensures LastText([], "") && forall t :: t != "" ==> !LastText([], t)
  {
  }

  lemma OneLastText(texts: seq<string>, t: string, u: string)
    requires LastText(texts, t) && t != u
    ensures !LastText(texts, u)
  {
    if t != "" {
      var i :| 0 <= i < |texts| && texts[i] == t && forall j :: i < j < |texts| ==> texts[j] == "";
      assert texts[i] in texts;
    } else {
      forall i | 0 <= i < |texts| ensures texts[i] == "" {
        assert texts[i] in texts;
      }
    }
  }

  /** Order and repetition of the observations leave the source entries and the global extremes unchanged. */
  lemma JoinIsOrderFree(one: seq<Observation>, two: seq<Observation>)
    requires one != [] && two != [] && Seen(one) == Seen(two)
    ensures Fold(one).globalMin == Fold(two).globalMin && Fold(one).globalMax == Fold(two).globalMax
    ensures Fold(one).sources.Some? && Fold(two).sources.Some?
    ensures forall e :: e in Fold(one).sources.value <==> e in Fold(two).sources.value
  {
    hide Lists, Fold;
    FoldSummarises(one);
    FoldSummarises(two);
    var a, b := Fold(one).sources.value, Fold(two).sources.value;
    forall e <- a ensures e in b { SameEntry(a, b, Seen(one), e); }
    forall e <- b ensures e in a { SameEntry(b, a, Seen(one), e); }
  }

  lemma EntriesAgree(e: SourceEntry, f: SourceEntry, obs: set<Observation>)
    requires TrueEntry(e, obs) && TrueEntry(f, obs) && e.sourceId == f.sourceId
    ensures e == f
  {
  }

  lemma EntryWasSeen(e: SourceEntry, obs: set<Observation>) returns (o: Observation)
    requires TrueEntry(e, obs)
    ensures o in obs && o.sourceId == e.sourceId
  {
    o :| o in From(obs, e.sourceId);
  }

  lemma SameEntry(a: seq<SourceEntry>, b: seq<SourceEntry>, obs: set<Observation>, e: SourceEntry)
    requires Lists(a, obs) && Lists(b, obs) && e in a
    ensures e in b
  {
    hide TrueEntry;
    var o := EntryWasSeen(e, obs);
    assert HasEntry(b, o.sourceId);
    var f :| f in b && f.sourceId == o.sourceId;
    EntriesAgree(e, f, obs);
  }

  /** The global extremes are the extremes of the source entries. */
  lemma GlobalIsExtremeOfSources(obs: seq<Observation>, e: SourceEntry)
    requires obs != [] && Fold(obs).sources.Some? && e in Fold(obs).sources.value
    ensures var d := Fold(obs);
            && d.globalMin.Some? && d.globalMax.Some? && e.minTime.Some? && e.maxTime.Some?
            && d.globalMin.value <= e.minTime.value && e.maxTime.value <= d.globalMax.value
            && (exists f <- d.sources.value :: f.minTime == d.globalMin)
            && (exists f <- d.sources.value :: f.maxTime == d.globalMax)
  {
    hide Fold, TrueEntry, DistinctIds;
    FoldSummarises(obs);
    var d, all := Fold(obs), Seen(obs);
    EntryWithin(e, all, d.globalMin, d.globalMax);
    var lo :| lo in all && lo.minTime == d.globalMin.value;
    var hi :| hi in all && hi.maxTime == d.globalMax.value;
    assert HasEntry(d.sources.value, lo.sourceId) && HasEntry(d.sources.value, hi.sourceId);
    var f :| f in d.sources.value && f.sourceId == lo.sourceId;
    var g :| g in d.sources.value && g.sourceId == hi.sourceId;
    EntryWithin(f, all, d.globalMin, d.globalMax);
    EntryWithin(g, all, d.globalMin, d.globalMax);
    EntryReaches(f, all, lo);
    EntryReaches(g, all, hi);
  }

  lemma EntryReaches(e: SourceEntry, obs: set<Observation>, o: Observation)
    requires TrueEntry(e, obs) && o in obs && o.sourceId == e.sourceId
    ensures e.minTime.Some? && e.maxTime.Some? && e.minTime.value <= o.minTime && o.maxTime <= e.maxTime.value
  {
    assert o in From(obs, e.sourceId);
  }

  lemma EntryWithin(e: SourceEntry, obs: set<Observation>, lo: Option<int>, hi: Option<int>)
    requires TrueEntry(e, obs) && IsMin(lo, obs) && IsMax(hi, obs)
    ensures e.minTime.Some? && e.maxTime.Some? && lo.value <= e.minTime.value && e.maxTime.value <= hi.value
  {
  }

  // ----- timezone ownership

  /** Something that happens to an existing device: an observation, or a row of an import. */
  datatype Event = Observed(o: Observation) | Imported(timezone: string, at: int, user: string)

  /** timezoneUpdateReasonForImport */
  function ImportReason(timezone: string): string {
    if timezone == "" then "" else MANUAL
  }

  function Apply(d: Device, e: Event): Device {
    match e
    case Observed(o) => Upsert(Some(d), o)
    case Imported(tz, at, user) =>
      d.(zone := Zone(Some(tz), Some(at), Some(user), Some(ImportReason(tz))), about := d.about.(updatedAt := at))
  }

  function ApplyAll(d: Device, events: seq<Event>): Device {
    if events == [] then d else Apply(ApplyAll(d, events[..|events| - 1]), events[|events| - 1])
  }

  /** The last valid timezone an agent reported, if any. */
  function LastReported(events: seq<Event>): string {
    if events == [] then ""
    else
      var e := events[|events| - 1];
      if e.Observed? && e.o.timezone != "" then e.o.timezone else LastReported(events[..|events| - 1])
  }

  lemma {:induction false} AfterImport(d: Device, events: seq<Event>, tz: string)
    requires forall e <- events :: e.Observed?
    requires d.zone.timezone == Some(tz) && d.zone.reason == Some(ImportReason(tz))
    ensures var z := ApplyAll(d, events).zone;
            && (tz != "" ==> z == d.zone)
            && (tz == "" ==> z.timezone == Some(LastReported(events)))
            && (tz == "" ==> z.reason == Some(if LastReported(events) == "" then "" else AGENT_SETTING))
  {
    if events != [] {
      var before := events[..|events| - 1];
      assert forall e <- before :: e in events;
      assert events[|events| - 1] in events;
      AfterImport(d, before, tz);
    }
  }

  lemma {:induction false} ApplyAllSplits(d: Device, one: seq<Event>, two: seq<Event>)
    ensures ApplyAll(d, one + two) == ApplyAll(ApplyAll(d, one), two)
  {
    if two == [] {
      assert one + two == one;
    } else {
      assert (one + two)[..|one + two| - 1] == one + two[..|two| - 1];
      ApplyAllSplits(d, one, two[..|two| - 1]);
    }
  }

  /**
   * For every interleaving, the last import decides: a timezone it set stays whatever agents report, and
   * after it cleared the timezone the last valid report since then is in force.
   */
  lemma LastImportDecides(d: Device, before: seq<Event>, tz: string, at: int, user: string, after: seq<Event>)
    requires forall e <- after :: e.Observed?
    ensures ApplyAll(d, before + [Imported(tz, at, user)] + after).zone.timezone ==
            Some(if tz != "" then tz else LastReported(after))
    ensures tz != "" ==> ApplyAll(d, before + [Imported(tz, at, user)] + after).zone ==
                         Zone(Some(tz), Some(at), Some(user), Some("manual"))
  {
    var imported := before + [Imported(tz, at, user)];
    ApplyAllSplits(d, imported, after);
    assert imported[..|imported| - 1] == before;
    AfterImport(ApplyAll(d, imported), after, tz);
  }
}
