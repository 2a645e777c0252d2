/** The credential-expiry job of one tenant: dispatch per threshold, then persist each trigger's outcome. */
module CredentialJob {
  import SetSums
  import opened Documents
  import opened Text
  import opened CredentialTriggers

  /** What became of one channel's send. */
  datatype ChannelResult = Delivered | Errored(error: string) | NotAttempted

  /** A stored series: thresholds are distinct, statuses known, and the cached date is right. */
  ghost predicate WellStored(s: SeriesValue) {
    && (forall i, j :: 0 <= i < j < |s.triggers| ==> s.triggers[i].days != s.triggers[j].days)
    && (forall t <- s.triggers :: Sound(t))
    && IsNextDue(s.nextDueAt, s.triggers)
  }

  /** The same series with some triggers moved. */
  ghost predicate Stepped(s: SeriesValue, s': SeriesValue) {
    |s'.triggers| == |s.triggers| && forall i :: 0 <= i < |s.triggers| ==> Advance(s.triggers[i], s'.triggers[i])
  }

  // ----- from channel results to the new trigger

  type Results = map<string, ChannelResult>

  /** A channel without an entry was not skipped and has no error, which reads as a delivery. */
  function ResultOf(results: Results, channel: string): ChannelResult {
    if channel in results then results[channel] else Delivered
  }

  function EntryOf(result: ChannelResult, stamp: string): ChannelState {
    match result
    case Delivered => ChannelState(SENT, stamp, "")
    case Errored(error) => ChannelState(FAILED, stamp, error)
    case NotAttempted => ChannelState(SKIPPED, stamp, "")
  }

  function Recorded(old_: map<string, ChannelState>, channels: seq<string>, results: Results,
                    stamp: string): map<string, ChannelState> {
    if channels == [] then old_
    else
      var c := channels[|channels| - 1];
      Recorded(old_, channels[..|channels| - 1], results, stamp)[c := EntryOf(ResultOf(results, c), stamp)]
  }

  predicate AnyDelivered(channels: seq<string>, results: Results) {
    exists c <- channels :: ResultOf(results, c).Delivered?
  }

  predicate AnyAttempted(channels: seq<string>, results: Results) {
    exists c <- channels :: !ResultOf(results, c).NotAttempted?
  }

  /** One delivery is enough; a failure needs an attempt; without an attempt nothing happened. */
  function OutcomeOf(t: Trigger, channels: seq<string>, results: Results, stamp: string): Trigger {
    var t' := t.(channels := Recorded(t.channels, channels, results, stamp));
    if AnyDelivered(channels, results) then SentOf(t', stamp)
    else if AnyAttempted(channels, results) then FailedOf(t')
    else t
  }

  lemma OutcomeAdvances(t: Trigger, channels: seq<string>, results: Results, stamp: string)
    requires Sound(t) && !Terminal(t)
    ensures var t' := OutcomeOf(t, channels, results, stamp);
            && Advance(t, t') && Sound(t') && t'.days == t.days
            && (t'.status == SENT <==> AnyDelivered(channels, results))
            && (t'.status == SKIPPED <==>
                !AnyDelivered(channels, results) && AnyAttempted(channels, results) && t.attempts == 4)
  {
    if AnyDelivered(channels, results) {
      var c :| c in channels && ResultOf(results, c).Delivered?;
      assert AnyAttempted(channels, results);
    }
  }

  /** `i` is where the trigger of this threshold is found, or past the end. */
  predicate FoundAt(triggers: seq<Trigger>, days: int, i: int) {
    && 0 <= i <= |triggers| && (i < |triggers| ==> triggers[i].days == days)
    && forall j :: 0 <= j < i ==> triggers[j].days != days
  }

  ghost predicate PersistedAt(s: SeriesValue, s': SeriesValue, i: int, channels: seq<string>, results: Results,
                              stamp: string) {
    if !(0 <= i < |s.triggers|) || !AnyAttempted(channels, results) then s' == s
    else
      && s'.triggers == s.triggers[i := OutcomeOf(s.triggers[i], channels, results, stamp)]
      && IsNextDue(s'.nextDueAt, s'.triggers)
  }

  /** Exactly the trigger of this threshold has its outcome, and the cached date is recomputed. */
  ghost predicate Persisted(s: SeriesValue, s': SeriesValue, days: int, channels: seq<string>, results: Results,
                            stamp: string) {
    exists i :: FoundAt(s.triggers, days, i) && PersistedAt(s, s', i, channels, results, stamp)
  }

  /** The channel loop of persistTriggerOutcome: what each channel came to, and whether any delivered or was tried. */
  method RecordChannels(series: Series, target: int, channels: seq<string>, results: Results, stamp: string)
    returns (anySuccess: bool, anyAttempted: bool)
    requires 0 <= target < |series.triggers|
    modifies series`triggers
    ensures series.triggers ==
            var t0 := old(series.triggers)[target];
            old(series.triggers)[target := t0.(channels := Recorded(t0.channels, channels, results, stamp))]
    ensures anySuccess <==> AnyDelivered(channels, results)
    ensures anyAttempted <==> AnyAttempted(channels, results)
  {
    ghost var start := series.triggers;
    ghost var t0 := start[target];
    anySuccess, anyAttempted := false, false;
    for c := 0 to |channels|
      invariant |series.triggers| == |start| && series.triggers == start[target := series.triggers[target]]
      invariant series.triggers[target] == t0.(channels := Recorded(t0.channels, channels[..c], results, stamp))
      invariant anySuccess <==> AnyDelivered(channels[..c], results)
      invariant anyAttempted <==> AnyAttempted(channels[..c], results)
    {
      assert channels[..c + 1] == channels[..c] + [channels[c]];
      var result := ResultOf(results, channels[c]);
      if result.NotAttempted? {
        series.RecordChannel(target, channels[c], SKIPPED, stamp, "");
        continue;
      }
      anyAttempted := true;
      if result.Delivered? {
        anySuccess := true;
      }
      series.RecordChannel(target, channels[c], if result.Delivered? then SENT else FAILED, stamp,
                           if result.Errored? then result.error else "");
    }
    assert channels[..|channels|] == channels;
  }

  class Secrets {
    var rows: map<string, SeriesValue>
    /** Rows that were locked by another writer or could not be written, with the threshold to be stored. */
    ghost var held: seq<(string, int)>
    /** In a calm run no row is held. */
    const calm: bool

    constructor (rows: map<string, SeriesValue>, calm: bool)
      ensures this.rows == rows && held == [] && this.calm == calm
    {
      this.rows, this.calm := rows, calm;
      held := [];
    }

    /** Another writer may hold the row. */
    method Free(id: string, days: int) returns (free: bool)
      modifies this`held
      ensures held == old(held) + if free then [] else [(id, days)]
      ensures calm ==> free
    {
      free := *;
      free := free || calm;
      if !free {
        held := held + [(id, days)];
      }
    }

    /**
     * persistTriggerOutcome: reload, find the trigger by its threshold, record the channels, mark, store.
     * A row that is missing or held is left as it is.
     */
    method PersistTriggerOutcome(id: string, days: int, channels: seq<string>, results: Results, stamp: string)
      modifies this
      ensures held == old(held) || (!calm && held == old(held) + [(id, days)])
      ensures id !in old(rows) || held != old(held) ==> rows == old(rows)
      ensures id in old(rows) && held == old(held) ==>
        && id in rows && rows == old(rows)[id := rows[id]]
        && Persisted(old(rows)[id], rows[id], days, channels, results, stamp)
    {
      hide IsNextDue, Recorded;
      if id !in rows {
        return;
      }
      var free := Free(id, days);
      if !free {
        return;
      }
      var series := new Series(rows[id]);
      ghost var start := series.triggers;
      var target := 0;
      while target < |series.triggers| && series.triggers[target].days != days
        invariant 0 <= target <= |series.triggers|
        invariant forall i :: 0 <= i < target ==> series.triggers[i].days != days
      {
        target := target + 1;
      }
      assert FoundAt(start, days, target);
      if target == |series.triggers| {
        assert rows == old(rows)[id := rows[id]];
        return;
      }
      var anySuccess, anyAttempted := RecordChannels(series, target, channels, results, stamp);
      if anySuccess {
        series.MarkTriggerSent(target, stamp);
      } else if anyAttempted {
        series.MarkTriggerFailed(target);
      } else {
        assert rows == old(rows)[id := rows[id]];
        return;
      }
      var written := Free(id, days);
      if written {
        rows := rows[id := SeriesValue(series.triggers, series.nextDueAt)];
      }
    }
  }

  /** Every channel reported, and only an email channel without targets was not tried. */
  predicate Tried(channels: seq<string>, hasEmailTargets: bool, results: Results) {
    forall c <- channels :: c in results && (results[c] == NotAttempted <==> c == "email" && !hasEmailTargets)
  }

  /** The notifications handed to the channels so far: for which threshold, through which channel, with what result. */
  class Notifier {
    ghost var sent: seq<(int, string, ChannelResult)>

    constructor ()
      ensures sent == []
    {
      sent := [];
    }

    method Send(days: int, channel: string) returns (result: ChannelResult)
      modifies this
      ensures result != NotAttempted && sent == old(sent) + [(days, channel, result)]
    {
      var delivered: bool, error: string := *, *;
      result := if delivered then Delivered else Errored(error);
      sent := sent + [(days, channel, result)];
    }
  }

  /** From position `n` of the log on, every channel that was tried was handed the notification, with this result. */
  ghost predicate Handed(log: seq<(int, string, ChannelResult)>, n: nat, days: int, channels: seq<string>,
                         results: Results) {
    forall c <- channels :: c in results && results[c] != NotAttempted ==>
      exists k :: n <= k < |log| && log[k] == (days, c, results[c])
  }

  lemma HandedLater(log: seq<(int, string, ChannelResult)>, log': seq<(int, string, ChannelResult)>, n: nat, n': nat,
                    days: int, channels: seq<string>, results: Results)
    requires log <= log' && n' <= n && Handed(log, n, days, channels, results)
    ensures Handed(log', n', days, channels, results)
  {
    forall c | c in channels && c in results && results[c] != NotAttempted
      ensures exists k :: n' <= k < |log'| && log'[k] == (days, c, results[c])
    {
      var k :| n <= k < |log| && log[k] == (days, c, results[c]);
      assert log'[k] == log[k];
    }
  }

  /** Sends one bucket through every channel; the email channel needs targets. */
  method Dispatch(notifier: Notifier, days: int, channels: seq<string>, hasEmailTargets: bool)
    returns (results: Results)
    modifies notifier
    ensures Tried(channels, hasEmailTargets, results)
    ensures old(notifier.sent) <= notifier.sent
    ensures Handed(notifier.sent, |old(notifier.sent)|, days, channels, results)
  {
    results := map[];
    for i := 0 to |channels|
      invariant Tried(channels[..i], hasEmailTargets, results)
      invariant old(notifier.sent) <= notifier.sent
      invariant Handed(notifier.sent, |old(notifier.sent)|, days, channels[..i], results)
    {
      assert channels[..i + 1] == channels[..i] + [channels[i]];
      if channels[i] == "email" && !hasEmailTargets {
        results := results[channels[i] := NotAttempted];
        continue;
      }
      ghost var log := notifier.sent;
      var result := notifier.Send(days, channels[i]);
      HandedLater(log, notifier.sent, |old(notifier.sent)|, |old(notifier.sent)|, days, channels[..i], results);
      assert notifier.sent[|log|] == (days, channels[i], result);
      results := results[channels[i] := result];
    }
    assert channels[..|channels|] == channels;
  }

  type Buckets = map<int, seq<string>>

  ghost predicate DueAt(s: SeriesValue, days: int, today: string) {
    exists t <- s.triggers :: t.days == days && IsDue(t, today)
  }

  /** Bucket `d` lists each secret with a due trigger of threshold `d`, once. */
  ghost predicate BucketsOf(buckets: Buckets, rows: map<string, SeriesValue>, ids: seq<string>, today: string) {
    && (forall d <- buckets :: forall id <- buckets[d] :: id in ids && id in rows && DueAt(rows[id], d, today))
    && (forall d <- buckets :: forall i, j :: 0 <= i < j < |buckets[d]| ==> buckets[d][i] != buckets[d][j])
  }

  /** Every due trigger has its place in the bucket of its threshold. */
  ghost predicate AllListed(buckets: Buckets, rows: map<string, SeriesValue>, ids: seq<string>, today: string) {
    forall id <- ids :: id in rows ==> forall t <- rows[id].triggers :: IsDue(t, today) ==>
      id in Listed(buckets, t.days)
  }

  /** The sends of a run, by threshold, with what every channel reported. */
  datatype Sends = Sends(channels: seq<string>, stamp: string, results: map<int, Results>)

  function SentOutcome(t: Trigger, sends: Sends): Trigger {
    if t.days in sends.results then OutcomeOf(t, sends.channels, sends.results[t.days], sends.stamp) else t
  }

  /**
   * Each due trigger has the outcome of its threshold's send, or is unchanged because the row was held for that
   * threshold; no other trigger moves.
   */
  ghost predicate RunEffect(s: SeriesValue, s': SeriesValue, sends: Sends, today: string, held: set<int>) {
    && WellStored(s') && |s'.triggers| == |s.triggers|
    && forall i :: 0 <= i < |s.triggers| ==>
         if IsDue(s.triggers[i], today)
         then
           || s'.triggers[i] == SentOutcome(s.triggers[i], sends)
           || (s.triggers[i].days in held && s'.triggers[i] == s.triggers[i])
         else s'.triggers[i] == s.triggers[i]
  }

  /** A run moves every trigger at most one step of its life. */
  lemma RunIsOneStep(s: SeriesValue, s': SeriesValue, sends: Sends, today: string, held: set<int>)
    requires WellStored(s) && RunEffect(s, s', sends, today, held)
    ensures Stepped(s, s')
  {
    hide IsNextDue, OutcomeOf, Advance;
    forall i | 0 <= i < |s.triggers| ensures Advance(s.triggers[i], s'.triggers[i]) {
      var t := s.triggers[i];
      assert t in s.triggers;
      StaysPut(t);
      if IsDue(t, today) && t.days in sends.results {
        OutcomeAdvances(t, sends.channels, sends.results[t.days], sends.stamp);
      }
    }
  }

  lemma StaysPut(t: Trigger)
    ensures Advance(t, t)
  {
  }

  lemma PersistKeepsStored(s: SeriesValue, s': SeriesValue, days: int, channels: seq<string>, results: Results,
                           stamp: string)
    requires WellStored(s) && Persisted(s, s', days, channels, results, stamp)
    requires exists t <- s.triggers :: t.days == days && !Terminal(t)
    ensures WellStored(s')
  {
    hide IsNextDue, OutcomeOf, Advance;
    var i :| FoundAt(s.triggers, days, i) && PersistedAt(s, s', i, channels, results, stamp);
    if i < |s.triggers| {
      assert s.triggers[i] in s.triggers;
      OutcomeAdvances(s.triggers[i], channels, results, stamp);
    }
  }

  function Also(sends: Sends, d: int, results: Results): Sends {
    sends.(results := sends.results[d := results])
  }

  /** Persisting a due trigger extends the run's effect by the send of its threshold. */
  lemma PersistEffect(s: SeriesValue, mid: SeriesValue, s': SeriesValue, sends: Sends, d: int, results: Results,
                      today: string, held: set<int>, stored: bool)
    requires WellStored(s) && RunEffect(s, mid, sends, today, held) && DueAt(s, d, today) && d !in sends.results
    requires if stored then Persisted(mid, s', d, sends.channels, results, sends.stamp) else s' == mid
    requires !stored ==> d in held
    ensures RunEffect(s, s', Also(sends, d, results), today, held)
  {
    hide IsNextDue, OutcomeOf, IsDue, WellStored;
    if stored {
      var i :| FoundAt(mid.triggers, d, i) && PersistedAt(mid, s', i, sends.channels, results, sends.stamp);
      PersistEffectAt(s, mid, s', sends, d, results, today, held, i);
    } else {
      KeepsDays(s, mid, sends, today, held);
    }
  }

  lemma PersistEffectAt(s: SeriesValue, mid: SeriesValue, s': SeriesValue, sends: Sends, d: int, results: Results,
                        today: string, held: set<int>, i: int)
    requires WellStored(s) && RunEffect(s, mid, sends, today, held) && DueAt(s, d, today) && d !in sends.results
    requires FoundAt(mid.triggers, d, i) && PersistedAt(mid, s', i, sends.channels, results, sends.stamp)
    ensures RunEffect(s, s', Also(sends, d, results), today, held)
  {
    hide IsNextDue, OutcomeOf, IsDue, WellStored;
    StillOpen(s, mid, sends, d, today, held);
    assert WellStored(mid);
    PersistKeepsStored(mid, s', d, sends.channels, results, sends.stamp);
    KeepsDays(s, mid, sends, today, held);
    NothingAttempted(sends.channels, results, sends.stamp);
    DistinctDays(s);
    var n :| 0 <= n < |s.triggers| && s.triggers[n].days == d && IsDue(s.triggers[n], today);
    assert i == n;
    assert forall k :: 0 <= k < |s.triggers| && k != i ==> s.triggers[k].days != d;
  }

  lemma NothingAttempted(channels: seq<string>, results: Results, stamp: string)
    ensures !AnyAttempted(channels, results) ==> forall t :: OutcomeOf(t, channels, results, stamp) == t
  {
  }

  lemma KeepsDays(s: SeriesValue, mid: SeriesValue, sends: Sends, today: string, held: set<int>)
    requires RunEffect(s, mid, sends, today, held)
    ensures forall i :: 0 <= i < |s.triggers| ==> mid.triggers[i].days == s.triggers[i].days
    ensures forall i :: 0 <= i < |s.triggers| && s.triggers[i].days !in sends.results ==>
      mid.triggers[i] == s.triggers[i]
  {
  }

  lemma StillOpen(s: SeriesValue, mid: SeriesValue, sends: Sends, d: int, today: string, held: set<int>)
    requires RunEffect(s, mid, sends, today, held) && DueAt(s, d, today) && d !in sends.results
    ensures exists t <- mid.triggers :: t.days == d && !Terminal(t)
  {
    hide IsNextDue, OutcomeOf;
    KeepsDays(s, mid, sends, today, held);
    var i :| 0 <= i < |s.triggers| && s.triggers[i].days == d && IsDue(s.triggers[i], today);
    assert mid.triggers[i] in mid.triggers;
  }

  method Earliest(days: set<int>) returns (d: int)
    requires days != {}
    ensures d in days && forall x <- days :: d <= x
  {
    var rest := days;
    d := SetSums.AnyOf(rest);
    rest := rest - {d};
    while rest != {}
      invariant d in days && rest <= days && forall x :: x in days && x !in rest ==> d <= x
      decreases rest
    {
      var x := SetSums.AnyOf(rest);
      rest := rest - {x};
      d := if x < d then x else d;
    }
  }

  /**
   * The bucket loop of processTenant, thresholds in ascending order. Any send may fail, and a row may be held.
   */
  method DispatchBuckets(secrets: Secrets, notifier: Notifier, buckets: Buckets, ids: seq<string>,
                         channels: seq<string>, hasEmailTargets: bool, today: string, stamp: string)
    returns (ghost sends: Sends)
    requires forall id <- ids :: id in secrets.rows && WellStored(secrets.rows[id])
    requires BucketsOf(buckets, secrets.rows, ids, today) && AllListed(buckets, secrets.rows, ids, today)
    modifies secrets, notifier
    ensures secrets.rows.Keys == old(secrets.rows).Keys && sends.results.Keys == buckets.Keys
    ensures sends.channels == channels && sends.stamp == stamp
    ensures forall d <- sends.results ::
      && Tried(channels, hasEmailTargets, sends.results[d])
      && Handed(notifier.sent, |old(notifier.sent)|, d, channels, sends.results[d])
    ensures forall id <- secrets.rows :: id !in ids ==> secrets.rows[id] == old(secrets.rows)[id]
    ensures old(secrets.held) <= secrets.held && (secrets.calm ==> secrets.held == old(secrets.held))
    ensures forall id <- ids ::
      RunEffect(old(secrets.rows)[id], secrets.rows[id], sends, today, Held(secrets.held, |old(secrets.held)|, id))
  {
    hide RunEffect, WellStored, DueAt, Persisted, IsDue, Also, Tried, Handed;
    var days := buckets.Keys;
    sends := Sends(channels, stamp, map[]);
    ghost var n := |secrets.held|;
    forall id <- ids
      ensures RunEffect(secrets.rows[id], secrets.rows[id], sends, today, Held(secrets.held, n, id))
    {
      NoEffect(secrets.rows[id], sends, today, Held(secrets.held, n, id));
    }
    while days != {}
      invariant days <= buckets.Keys && sends.results.Keys == buckets.Keys - days && sends.channels == channels
      invariant sends.stamp == stamp && old(notifier.sent) <= notifier.sent
      invariant forall d <- sends.results ::
        && Tried(channels, hasEmailTargets, sends.results[d])
        && Handed(notifier.sent, |old(notifier.sent)|, d, channels, sends.results[d])
      invariant secrets.rows.Keys == old(secrets.rows).Keys
      invariant old(secrets.held) <= secrets.held && (secrets.calm ==> secrets.held == old(secrets.held))
      invariant forall id <- secrets.rows :: id !in ids ==> secrets.rows[id] == old(secrets.rows)[id]
      invariant forall id <- ids ::
        RunEffect(old(secrets.rows)[id], secrets.rows[id], sends, today, Held(secrets.held, n, id))
      decreases days
    {
      var d := Earliest(days);
      ghost var log := notifier.sent;
      var results := Dispatch(notifier, d, channels, hasEmailTargets);
      HandedLater(notifier.sent, notifier.sent, |log|, |old(notifier.sent)|, d, channels, results);
      forall e <- sends.results
        ensures Handed(notifier.sent, |old(notifier.sent)|, e, channels, sends.results[e])
      {
        HandedLater(log, notifier.sent, |old(notifier.sent)|, |old(notifier.sent)|, e, channels, sends.results[e]);
      }
      ghost var more := Also(sends, d, results);
      AlsoKeys(sends, d, results);
      StoreBucket(secrets, old(secrets.rows), buckets[d], ids, sends, d, channels, results, stamp, today, n);
      forall id <- ids
        ensures RunEffect(old(secrets.rows)[id], secrets.rows[id], more, today, Held(secrets.held, n, id))
      {
        if id !in buckets[d] {
          NotListed(buckets, old(secrets.rows), ids, today, id, d);
          EffectWidens(old(secrets.rows)[id], secrets.rows[id], sends, d, results, today, Held(secrets.held, n, id));
        }
      }
      sends := more;
      days := days - {d};
    }
  }

  /** The thresholds for which the row was held, from position `n` of the log on. */
  ghost function Held(log: seq<(string, int)>, n: nat, id: string): set<int> {
    set k | n <= k < |log| && log[k].0 == id :: log[k].1
  }

  lemma HeldGrows(log: seq<(string, int)>, n: nat, id: string, d: int, other: string)
    requires n <= |log|
    ensures Held(log + [(id, d)], n, other) == Held(log, n, other) + if other == id then {d} else {}
  {
    var more := log + [(id, d)];
    assert more[|log|] == (id, d);
    forall k | n <= k < |log| ensures more[k] == log[k] {
    }
    forall x ensures x in Held(more, n, other) <==> x in Held(log, n, other) || (other == id && x == d) {
      if x in Held(log, n, other) {
        var k :| n <= k < |log| && log[k].0 == other && log[k].1 == x;
        assert more[k].0 == other && more[k].1 == x;
      }
      if other == id && x == d {
        assert more[|log|].0 == other && more[|log|].1 == x;
      }
    }
  }

  lemma HeldMore(s: SeriesValue, s': SeriesValue, sends: Sends, today: string, held: set<int>, more: set<int>)
    requires RunEffect(s, s', sends, today, held) && held <= more
    ensures RunEffect(s, s', sends, today, more)
  {
    hide WellStored, IsDue, OutcomeOf;
  }

  /** Stores the outcome of one bucket, secret by secret. */
  method StoreBucket(secrets: Secrets, ghost start: map<string, SeriesValue>, bucket: seq<string>,
                     ghost ids: seq<string>, ghost sends: Sends, d: int, channels: seq<string>, results: Results,
                     stamp: string, ghost today: string, ghost n: nat)
    requires n <= |secrets.held| && secrets.rows.Keys == start.Keys && forall id <- bucket :: id in ids
    requires forall i, j :: 0 <= i < j < |bucket| ==> bucket[i] != bucket[j]
    requires forall id <- ids :: id in start && WellStored(start[id])
    requires forall id <- ids :: RunEffect(start[id], secrets.rows[id], sends, today, Held(secrets.held, n, id))
    requires forall id <- bucket :: DueAt(start[id], d, today)
    requires d !in sends.results && sends.stamp == stamp && sends.channels == channels
    modifies secrets
    ensures secrets.rows.Keys == start.Keys
    ensures forall id <- secrets.rows :: id !in ids ==> secrets.rows[id] == old(secrets.rows)[id]
    ensures old(secrets.held) <= secrets.held && (secrets.calm ==> secrets.held == old(secrets.held))
    ensures forall id <- ids ::
      RunEffect(start[id], secrets.rows[id], if id in bucket then Also(sends, d, results) else sends, today,
                Held(secrets.held, n, id))
  {
    hide RunEffect, WellStored, DueAt, Persisted, IsDue, Also, Held;
    ghost var more := Also(sends, d, results);
    for i := 0 to |bucket|
      invariant secrets.rows.Keys == start.Keys
      invariant forall id <- secrets.rows :: id !in ids ==> secrets.rows[id] == old(secrets.rows)[id]
      invariant old(secrets.held) <= secrets.held && (secrets.calm ==> secrets.held == old(secrets.held))
      invariant forall id <- ids ::
        RunEffect(start[id], secrets.rows[id], if id in bucket[..i] then more else sends, today,
                  Held(secrets.held, n, id))
    {
      var id := bucket[i];
      ghost var before, log := secrets.rows, secrets.held;
      assert id in bucket && id !in bucket[..i] && bucket[..i + 1] == bucket[..i] + [id];
      secrets.PersistTriggerOutcome(id, d, channels, results, stamp);
      forall other ensures Held(log, n, other) <= Held(secrets.held, n, other) {
        if secrets.held != log {
          HeldGrows(log, n, id, d, other);
        }
      }
      if secrets.held != log {
        HeldGrows(log, n, id, d, id);
      }
      forall other <- ids
        ensures RunEffect(start[other], before[other], if other in bucket[..i] then more else sends, today,
                          Held(secrets.held, n, other))
      {
        HeldMore(start[other], before[other], if other in bucket[..i] then more else sends, today,
                 Held(log, n, other), Held(secrets.held, n, other));
      }
      PersistEffect(start[id], before[id], secrets.rows[id], sends, d, results, today, Held(secrets.held, n, id),
                    secrets.held == log);
    }
    assert bucket[..|bucket|] == bucket;
  }

  lemma AlsoKeys(sends: Sends, d: int, results: Results)
    ensures var more := Also(sends, d, results);
            more.results == sends.results[d := results] && more.channels == sends.channels && more.stamp == sends.stamp
  {
  }

  lemma NoEffect(s: SeriesValue, sends: Sends, today: string, held: set<int>)
    requires WellStored(s) && sends.results == map[]
    ensures RunEffect(s, s, sends, today, held)
  {
  }

  lemma NotListed(buckets: Buckets, rows: map<string, SeriesValue>, ids: seq<string>, today: string, id: string, d: int)
    requires AllListed(buckets, rows, ids, today) && id in ids && id in rows && id !in Listed(buckets, d)
    ensures !DueAt(rows[id], d, today)
  {
    hide IsDue;
  }

  lemma EffectWidens(s: SeriesValue, s': SeriesValue, sends: Sends, d: int, results: Results, today: string,
                     held: set<int>)
    requires RunEffect(s, s', sends, today, held) && !DueAt(s, d, today)
    ensures RunEffect(s, s', Also(sends, d, results), today, held)
  {
    hide WellStored, OutcomeOf, IsDue;
    forall i | 0 <= i < |s.triggers| && IsDue(s.triggers[i], today) ensures s.triggers[i].days != d {
      assert s.triggers[i] in s.triggers;
    }
  }

  function Listed(buckets: Buckets, d: int): seq<string> {
    if d in buckets then buckets[d] else []
  }

  function Push(buckets: Buckets, d: int, id: string): Buckets {
    buckets[d := Listed(buckets, d) + [id]]
  }

  lemma PushListed(buckets: Buckets, d: int, id: string, other: int)
    ensures Listed(Push(buckets, d, id), other) == Listed(buckets, other) + if other == d then [id] else []
  {
  }

  lemma BucketGrows(buckets: Buckets, rows: map<string, SeriesValue>, ids: seq<string>, today: string, d: int,
                    id: string)
    requires BucketsOf(buckets, rows, ids, today) && id in ids && id in rows && DueAt(rows[id], d, today)
    requires id !in Listed(buckets, d)
    ensures BucketsOf(Push(buckets, d, id), rows, ids, today)
  {
    hide DueAt;
  }

  lemma BucketsWiden(buckets: Buckets, rows: map<string, SeriesValue>, ids: seq<string>, more: seq<string>,
                     today: string)
    requires BucketsOf(buckets, rows, ids, today) && ids <= more
    ensures BucketsOf(buckets, rows, more, today)
  {
    hide DueAt;
    assert forall id <- ids :: id in more;
  }

  /** Adds one secret to the bucket of each of its due triggers. */
  method AddSecret(start: Buckets, rows: map<string, SeriesValue>, ids: seq<string>, id: string, today: string)
    returns (buckets: Buckets)
    requires BucketsOf(start, rows, ids, today) && id in ids && id in rows && WellStored(rows[id])
    requires forall d :: id !in Listed(start, d)
    ensures BucketsOf(buckets, rows, ids, today)
    ensures forall d :: Listed(buckets, d) == Listed(start, d) || Listed(buckets, d) == Listed(start, d) + [id]
    ensures forall t <- rows[id].triggers :: IsDue(t, today) ==> id in Listed(buckets, t.days)
  {
    hide WellStored, IsDue, BucketsOf, DueAt, Listed, Push;
    var triggers := rows[id].triggers;
    var series := new Series(rows[id]);
    var due := series.DueTriggers(today);
    assert forall j :: 0 <= j < |due| ==> due[j] in due;
    buckets := start;
    DistinctDays(rows[id]);
    for k := 0 to |due|
      invariant forall j :: 0 <= j < |due| ==> due[j] < |triggers|
      invariant BucketsOf(buckets, rows, ids, today)
      invariant forall d :: Listed(buckets, d) == Listed(start, d) || Listed(buckets, d) == Listed(start, d) + [id]
      invariant forall j :: 0 <= j < k ==> id in Listed(buckets, triggers[due[j]].days)
      invariant forall j :: k <= j < |due| ==>
        Listed(buckets, triggers[due[j]].days) == Listed(start, triggers[due[j]].days)
    {
      var d := triggers[due[k]].days;
      DueTriggerAt(rows[id], due[k], today);
      BucketGrows(buckets, rows, ids, today, d, id);
      forall other
        ensures Listed(Push(buckets, d, id), other) == Listed(buckets, other) + if other == d then [id] else []
      {
        PushListed(buckets, d, id, other);
      }
      buckets := Push(buckets, d, id);
    }
    forall t | t in triggers && IsDue(t, today) ensures id in Listed(buckets, t.days) {
      var n: nat :| n < |triggers| && triggers[n] == t;
      assert n in due;
    }
  }

  lemma DueTriggerAt(s: SeriesValue, n: nat, today: string)
    requires n < |s.triggers| && IsDue(s.triggers[n], today)
    ensures DueAt(s, s.triggers[n].days, today)
  {
    assert s.triggers[n] in s.triggers;
  }

  /** Collects the due triggers of the tenant's secrets by threshold. */
  method CollectBuckets(rows: map<string, SeriesValue>, ids: seq<string>, today: string) returns (buckets: Buckets)
    requires forall id <- ids :: id in rows && WellStored(rows[id])
    requires forall i, j :: 0 <= i < j < |ids| ==> ids[i] != ids[j]
    ensures BucketsOf(buckets, rows, ids, today)
    ensures AllListed(buckets, rows, ids, today)
  {
    hide WellStored, IsDue, DueAt;
    buckets := map[];
    for i := 0 to |ids|
      invariant BucketsOf(buckets, rows, ids[..i], today)
      invariant forall id <- ids[..i] :: forall t <- rows[id].triggers :: IsDue(t, today) ==>
        id in Listed(buckets, t.days)
    {
      var id := ids[i];
      assert id in ids && id !in ids[..i] && ids[..i + 1] == ids[..i] + [id];
      BucketsWiden(buckets, rows, ids[..i], ids[..i + 1], today);
      buckets := AddSecret(buckets, rows, ids[..i + 1], id, today);
    }
    assert ids[..|ids|] == ids;
  }

  lemma DistinctDays(s: SeriesValue)
    requires WellStored(s)
    ensures forall i, j :: 0 <= i < j < |s.triggers| ==> s.triggers[i].days != s.triggers[j].days
  {
  }

  /**
   * processTenant: every due trigger gets exactly the outcome of its threshold's send, unless its row was held; no
   * other trigger moves, and the stored series stay sound with the right cached date. In a calm run no row is held.
   */
  method ProcessTenant(secrets: Secrets, notifier: Notifier, ids: seq<string>, channels: seq<string>,
                       hasEmailTargets: bool, today: string, stamp: string)
    returns (ghost sends: Sends)
    requires forall id <- ids :: id in secrets.rows && WellStored(secrets.rows[id])
    requires forall i, j :: 0 <= i < j < |ids| ==> ids[i] != ids[j]
    modifies secrets, notifier
    ensures secrets.rows.Keys == old(secrets.rows).Keys && sends.channels == channels && sends.stamp == stamp
    ensures forall d <- sends.results ::
      && Tried(channels, hasEmailTargets, sends.results[d])
      && Handed(notifier.sent, |old(notifier.sent)|, d, channels, sends.results[d])
    ensures forall id <- secrets.rows :: id !in ids ==> secrets.rows[id] == old(secrets.rows)[id]
    ensures old(secrets.held) <= secrets.held && (secrets.calm ==> secrets.held == old(secrets.held))
    ensures forall id <- ids ::
      RunEffect(old(secrets.rows)[id], secrets.rows[id], sends, today, Held(secrets.held, |old(secrets.held)|, id))
    ensures forall id <- ids :: forall t <- old(secrets.rows)[id].triggers :: IsDue(t, today) ==>
      t.days in sends.results
  {
    hide WellStored, RunEffect, IsDue, Tried, Handed;
    var buckets := CollectBuckets(secrets.rows, ids, today);
    sends := DispatchBuckets(secrets, notifier, buckets, ids, channels, hasEmailTargets, today, stamp);
  }

  // ----- what a run writes, trigger by trigger

  /** The last recorded states of the channels: what each reported, when, and its error. */
  lemma {:induction false} RecordedIsWritten(old_: map<string, ChannelState>, channels: seq<string>, results: Results,
                                             stamp: string, c: string)
    ensures var now := Recorded(old_, channels, results, stamp);
            && (c in now <==> c in old_ || c in channels) && (c in old_ && c !in channels ==> now[c] == old_[c])
            && (c in channels && c in results && results[c] == NotAttempted ==>
                  now[c] == ChannelState(SKIPPED, stamp, ""))
            && (c in channels && c in results && results[c] == Delivered ==> now[c] == ChannelState(SENT, stamp, ""))
            && (c in channels && c in results && results[c].Errored? ==>
                  now[c] == ChannelState(FAILED, stamp, results[c].error))
  {
    if channels != [] {
      RecordedIsWritten(old_, channels[..|channels| - 1], results, stamp, c);
      assert channels == channels[..|channels| - 1] + [channels[|channels| - 1]];
    }
  }

  /**
   * What becomes of a trigger that is sent: one delivery makes it SENT at that time; only failures make it FAILED,
   * or at the fifth attempt SKIPPED; without an attempt it stays as it is. Every channel is recorded.
   */
  ghost predicate Fate(t: Trigger, t': Trigger, channels: seq<string>, results: Results, stamp: string) {
    var delivered := exists c <- channels :: c in results && results[c] == Delivered;
    var attempted := exists c <- channels :: c in results && results[c] != NotAttempted;
    if !attempted then t' == t
    else
      && t'.days == t.days && t'.scheduledFor == t.scheduledFor && t'.attempts == t.attempts + 1
      && (delivered ==> t'.status == SENT && t'.sentAt == Some(stamp) && t'.skippedReason == t.skippedReason)
      && (!delivered ==> t'.sentAt == t.sentAt)
      && (!delivered && t.attempts < 4 ==> t'.status == FAILED && t'.skippedReason == t.skippedReason)
      && (!delivered && t.attempts >= 4 ==> t'.status == SKIPPED && t'.skippedReason == "MAX_ATTEMPTS")
      && forall c <- channels :: c in results ==>
           && c in t'.channels && t'.channels[c].at == stamp
           && (results[c] == Delivered ==> t'.channels[c] == ChannelState(SENT, stamp, ""))
           && (results[c] == NotAttempted ==> t'.channels[c] == ChannelState(SKIPPED, stamp, ""))
           && (results[c].Errored? ==> t'.channels[c] == ChannelState(FAILED, stamp, results[c].error))
  }

  lemma OutcomeIsFate(t: Trigger, channels: seq<string>, results: Results, stamp: string)
    requires forall c <- channels :: c in results
    ensures Fate(t, OutcomeOf(t, channels, results, stamp), channels, results, stamp)
  {
    hide Recorded;
    if c :| c in channels && results[c] == Delivered {
      assert ResultOf(results, c).Delivered?;
    }
    if c :| c in channels && results[c] != NotAttempted {
      assert !ResultOf(results, c).NotAttempted?;
    }
    forall c <- channels ensures var now := Recorded(t.channels, channels, results, stamp);
      && c in now && now[c].at == stamp
      && (results[c] == Delivered ==> now[c] == ChannelState(SENT, stamp, ""))
      && (results[c] == NotAttempted ==> now[c] == ChannelState(SKIPPED, stamp, ""))
      && (results[c].Errored? ==> now[c] == ChannelState(FAILED, stamp, results[c].error))
    {
      RecordedIsWritten(t.channels, channels, results, stamp, c);
    }
  }

  /** After a run a due trigger whose row was not held for its threshold has the fate its channels gave it. */
  lemma RunIsFate(s: SeriesValue, s': SeriesValue, sends: Sends, today: string, held: set<int>, hasEmailTargets: bool,
                  i: nat)
    requires RunEffect(s, s', sends, today, held) && i < |s.triggers| && IsDue(s.triggers[i], today)
    requires s.triggers[i].days in sends.results && s.triggers[i].days !in held
    requires Tried(sends.channels, hasEmailTargets, sends.results[s.triggers[i].days])
    ensures |s'.triggers| == |s.triggers|
    ensures Fate(s.triggers[i], s'.triggers[i], sends.channels, sends.results[s.triggers[i].days], sends.stamp)
  {
    hide OutcomeOf, Fate, WellStored, IsDue;
    OutcomeIsFate(s.triggers[i], sends.channels, sends.results[s.triggers[i].days], sends.stamp);
  }

  // ----- many runs

  datatype JobRun = JobRun(sends: Sends, today: string, held: set<int>)

  /** The stored values of one series before and after each of a sequence of job runs. */
  ghost predicate Runs(values: seq<SeriesValue>, runs: seq<JobRun>) {
    && |values| == |runs| + 1 && WellStored(values[0])
    && forall n :: 0 <= n < |runs| ==> RunEffect(values[n], values[n + 1], runs[n].sends, runs[n].today, runs[n].held)
  }

  ghost function History(values: seq<SeriesValue>, i: nat): seq<Trigger>
    requires forall v <- values :: i < |v.triggers|
  {
    seq(|values|, n requires 0 <= n < |values| => assert values[n] in values; values[n].triggers[i])
  }

  lemma {:induction false} RunsKeepShape(values: seq<SeriesValue>, runs: seq<JobRun>, n: nat)
    requires Runs(values, runs) && n < |values|
    ensures WellStored(values[n]) && |values[n].triggers| == |values[0].triggers|
  {
    hide WellStored;
    if n > 0 {
      RunsKeepShape(values, runs, n - 1);
    }
  }

  /** Over any sequence of job runs each trigger lives the life whose attempts are bounded by five. */
  lemma RunsAreALife(values: seq<SeriesValue>, runs: seq<JobRun>, i: nat)
    requires Runs(values, runs) && i < |values[0].triggers|
    ensures forall v <- values :: i < |v.triggers|
    ensures Life(History(values, i)) && Moves(History(values, i)) <= 5
  {
    hide RunEffect, Advance;
    forall n | 0 <= n < |values| ensures WellStored(values[n]) && |values[n].triggers| == |values[0].triggers| {
      RunsKeepShape(values, runs, n);
    }
    var history := History(values, i);
    forall n | 0 < n < |history| ensures Advance(history[n - 1], history[n]) {
      RunIsOneStep(values[n - 1], values[n], runs[n - 1].sends, runs[n - 1].today, runs[n - 1].held);
    }
    assert values[0].triggers[i] in values[0].triggers;
    FiveAttemptsAtMost(history);
  }

  /** The run sends for this trigger's threshold, tries some channel, and stores what comes out. */
  ghost predicate Handles(run: JobRun, t: Trigger) {
    && t.days !in run.held && t.days in run.sends.results && AnyAttempted(run.sends.channels, run.sends.results[t.days])
    && t.scheduledFor != "" && StrLe(t.scheduledFor, run.today)
  }

  lemma {:induction false} AttemptsAddUp(values: seq<SeriesValue>, runs: seq<JobRun>, i: nat, n: nat)
    requires Runs(values, runs) && i < |values[0].triggers| && n < |values|
    requires forall k :: 0 <= k < n ==> Handles(runs[k], values[0].triggers[i])
    ensures WellStored(values[n]) && |values[n].triggers| == |values[0].triggers|
    ensures var first, t := values[0].triggers[i], values[n].triggers[i];
            && t.days == first.days && t.scheduledFor == first.scheduledFor && Sound(t)
            && (Terminal(t) || t.attempts >= first.attempts + n)
  {
    hide IsNextDue, StrLe, Recorded;
    if n == 0 {
      assert values[0].triggers[i] in values[0].triggers;
    } else {
      AttemptsAddUp(values, runs, i, n - 1);
      assert Handles(runs[n - 1], values[0].triggers[i]);
      assert RunEffect(values[n - 1], values[n], runs[n - 1].sends, runs[n - 1].today, runs[n - 1].held);
      assert values[n].triggers[i] in values[n].triggers;
    }
  }

  /** Five runs that handle a due trigger always end it, whatever the channels report. */
  lemma FiveRunsEndIt(values: seq<SeriesValue>, runs: seq<JobRun>, i: nat)
    requires Runs(values, runs) && i < |values[0].triggers| && |runs| == 5
    requires forall k :: 0 <= k < |runs| ==> Handles(runs[k], values[0].triggers[i])
    ensures i < |values[5].triggers| && Terminal(values[5].triggers[i])
  {
    hide RunEffect, WellStored, Handles;
    assert Sound(values[0].triggers[i]) by { AttemptsAddUp(values, runs, i, 0); }
    AttemptsAddUp(values, runs, i, 5);
  }
}
