/** Credential-expiry triggers: a retry state machine and the cached date that must agree with it. */
module CredentialTriggers {
  import opened Documents
  import opened Text

  const MAX_ATTEMPTS := 5

  datatype Status = PENDING | SENT | SKIPPED | FAILED | Unknown(text: string)

  /** What the last send through one channel came to. */
  datatype ChannelState = ChannelState(status: Status, at: string, error: string)

  datatype Trigger = Trigger(days: int, status: Status, scheduledFor: string, sentAt: Option<string>, attempts: int,
                             skippedReason: string, channels: map<string, ChannelState>)

  // ----- which triggers are due, and the cached next date

  /** The condition of DueTriggers, without the date. */
  predicate Open(t: Trigger) {
    && t.status != SENT && t.status != SKIPPED && !(t.status == FAILED && t.attempts >= MAX_ATTEMPTS)
    && t.scheduledFor != ""
  }

  predicate IsDue(t: Trigger, today: string) {
    Open(t) && StrLe(t.scheduledFor, today)
  }

  /** The condition of RecomputeNextDueAt: only known statuses. */
  predicate Counted(t: Trigger) {
    && (t.status == PENDING || t.status == FAILED) && !(t.status == FAILED && t.attempts >= MAX_ATTEMPTS)
    && t.scheduledFor != ""
  }

  /** `next` is the earliest date of a counted trigger, or nothing. */
  ghost predicate IsNextDue(next: Option<string>, triggers: seq<Trigger>) {
    && (next.None? <==> forall t <- triggers :: !Counted(t))
    && (next.Some? ==> exists t <- triggers :: Counted(t) && t.scheduledFor == next.value)
    && (next.Some? ==> forall t <- triggers :: Counted(t) ==> StrLe(next.value, t.scheduledFor))
  }

  ghost predicate AnyDue(triggers: seq<Trigger>, today: string) {
    exists t <- triggers :: IsDue(t, today)
  }

  predicate NextDueBy(next: Option<string>, today: string) {
    next.Some? && StrLe(next.value, today)
  }

  /** Triggers with a status this job does not know never come first. */
  ghost predicate UnknownNeverFirst(triggers: seq<Trigger>) {
    forall u <- triggers :: u.status.Unknown? && u.scheduledFor != "" ==>
      exists t <- triggers :: Counted(t) && StrLe(t.scheduledFor, u.scheduledFor)
  }

  /**
   * The cached date answers "is anything due by this day?" for every day exactly when no unknown status comes first.
   */
  lemma NextDueAgreesIff(next: Option<string>, triggers: seq<Trigger>)
    requires IsNextDue(next, triggers)
    ensures (forall today :: AnyDue(triggers, today) <==> NextDueBy(next, today)) <==> UnknownNeverFirst(triggers)
  {
    hide StrLe;
    if UnknownNeverFirst(triggers) {
      forall today ensures AnyDue(triggers, today) <==> NextDueBy(next, today) {
        if NextDueBy(next, today) {
          var t :| t in triggers && Counted(t) && t.scheduledFor == next.value;
          assert IsDue(t, today);
        }
        if AnyDue(triggers, today) {
          var d :| d in triggers && IsDue(d, today);
          var t :| t in triggers && Counted(t) && StrLe(t.scheduledFor, d.scheduledFor) by {
            if Counted(d) { StrLeReflexive(d.scheduledFor); }
          }
          StrLeTransitive(next.value, t.scheduledFor, d.scheduledFor);
          StrLeTransitive(next.value, d.scheduledFor, today);
        }
      }
    } else {
      var u :| u in triggers && u.status.Unknown? && u.scheduledFor != "" &&
        forall t <- triggers :: !(Counted(t) && StrLe(t.scheduledFor, u.scheduledFor));
      StrLeReflexive(u.scheduledFor);
      assert IsDue(u, u.scheduledFor) && AnyDue(triggers, u.scheduledFor);
    }
  }

  lemma StrLeReflexive(s: string)
    ensures StrLe(s, s)
  {
    StrLessTotal(s, s);
  }

  // ----- one trigger's life

  predicate Terminal(t: Trigger) {
    t.status == SENT || t.status == SKIPPED
  }

  /** Kept by every operation on a trigger that starts out this way. */
  predicate Sound(t: Trigger) {
    && !t.status.Unknown? && 0 <= t.attempts <= MAX_ATTEMPTS
    && (t.status == PENDING ==> t.attempts < MAX_ATTEMPTS)
    && (t.status == FAILED ==> 1 <= t.attempts < MAX_ATTEMPTS)
  }

  function SentOf(t: Trigger, stamp: string): Trigger {
    t.(status := SENT, sentAt := Some(stamp), attempts := t.attempts + 1)
  }

  function FailedOf(t: Trigger): Trigger {
    if t.attempts + 1 >= MAX_ATTEMPTS
    then t.(status := SKIPPED, skippedReason := "MAX_ATTEMPTS", attempts := t.attempts + 1)
    else t.(status := FAILED, attempts := t.attempts + 1)
  }

  /** A persisted outcome moved the trigger; what the channels reported is recorded beside it. */
  ghost predicate Moved(t: Trigger, t': Trigger) {
    && !Terminal(t) && t'.days == t.days && t'.scheduledFor == t.scheduledFor && t'.attempts == t.attempts + 1
    && (t'.status == SENT || t'.status == if t.attempts + 1 >= MAX_ATTEMPTS then SKIPPED else FAILED)
  }

  ghost predicate Advance(t: Trigger, t': Trigger) {
    t' == t || Moved(t, t')
  }

  lemma AdvanceKeepsSound(t: Trigger, t': Trigger)
    requires Sound(t) && Advance(t, t')
    ensures Sound(t') && t.attempts <= t'.attempts && (Terminal(t) ==> t' == t)
  {
  }

  /** A trigger that the job itself left is due when it is pending or failed and its date has come. */
  lemma DueWhenOpen(t: Trigger, today: string)
    requires Sound(t)
    ensures IsDue(t, today) <==>
            (t.status == PENDING || t.status == FAILED) && t.scheduledFor != "" && StrLe(t.scheduledFor, today)
  {
  }

  /** Attempts still allowed; the measure of the retry loop. */
  function Remaining(t: Trigger): int {
    if Terminal(t) then 0 else MAX_ATTEMPTS - t.attempts
  }

  ghost function Moves(history: seq<Trigger>): nat {
    if |history| <= 1 then 0
    else Moves(history[..|history| - 1]) + if history[|history| - 1] != history[|history| - 2] then 1 else 0
  }

  ghost predicate Life(history: seq<Trigger>) {
    && history != [] && Sound(history[0])
    && forall i :: 0 < i < |history| ==> Advance(history[i - 1], history[i])
  }

  /** Over any number of runs: never more moves than attempts left, and the last allowed one ends it. */
  lemma {:induction false} FiveAttemptsAtMost(history: seq<Trigger>)
    requires Life(history)
    ensures var last := history[|history| - 1];
            && Sound(last) && history[0].attempts <= last.attempts
            && Moves(history) + Remaining(last) <= Remaining(history[0]) && Moves(history) <= 5
            && (Moves(history) >= Remaining(history[0]) ==> Terminal(last))
  {
    if |history| > 1 {
      var before := history[..|history| - 1];
      FiveAttemptsAtMost(before);
      AdvanceKeepsSound(history[|history| - 2], history[|history| - 1]);
    }
  }

  // ----- the series as the job mutates it

  datatype SeriesValue = SeriesValue(triggers: seq<Trigger>, nextDueAt: Option<string>)

  class Series {
    var triggers: seq<Trigger>
    var nextDueAt: Option<string>

    constructor (value: SeriesValue)
      ensures triggers == value.triggers && nextDueAt == value.nextDueAt
    {
      triggers, nextDueAt := value.triggers, value.nextDueAt;
    }

    /** DueTriggers: the indices of the due triggers, in order. */
    method DueTriggers(today: string) returns (due: seq<nat>)
      ensures forall i <- due :: i < |triggers| && IsDue(triggers[i], today)
      ensures forall i: nat :: i < |triggers| && IsDue(triggers[i], today) ==> i in due
      ensures forall i, j :: 0 <= i < j < |due| ==> due[i] < due[j]
    {
      due := [];
      for i := 0 to |triggers|
        invariant forall k <- due :: k < i && IsDue(triggers[k], today)
        invariant forall k: nat :: k < i && IsDue(triggers[k], today) ==> k in due
        invariant forall a, b :: 0 <= a < b < |due| ==> due[a] < due[b]
      {
        var t := triggers[i];
        if t.status == SENT || t.status == SKIPPED {
          continue;
        }
        if t.status == FAILED && t.attempts >= MAX_ATTEMPTS {
          continue;
        }
        if t.scheduledFor == "" {
          continue;
        }
        assert forall a :: 0 <= a < |due| ==> due[a] in due;
        if StrLe(t.scheduledFor, today) {
          due := due + [i];
        }
      }
    }

    method RecomputeNextDueAt()
      modifies this`nextDueAt
      ensures IsNextDue(nextDueAt, triggers)
    {
      hide StrLe;
      var next: Option<string> := None;
      for i := 0 to |triggers|
        invariant IsNextDue(next, triggers[..i])
      {
        var t := triggers[i];
        NextDueGrows(next, triggers, i);
        if Counted(t) && (next.None? || StrLess(t.scheduledFor, next.value)) {
          next := Some(t.scheduledFor);
        }
      }
      assert triggers[..|triggers|] == triggers;
      nextDueAt := next;
    }

    /** MarkTriggerSent; an index outside the list changes nothing. */
    method MarkTriggerSent(index: int, stamp: string)
      modifies this
      ensures 0 <= index < |old(triggers)| ==> triggers == old(triggers)[index := SentOf(old(triggers)[index], stamp)]
      ensures 0 <= index < |old(triggers)| ==> IsNextDue(nextDueAt, triggers)
      ensures !(0 <= index < |old(triggers)|) ==> triggers == old(triggers) && nextDueAt == old(nextDueAt)
    {
      if index < 0 || index >= |triggers| {
        return;
      }
      triggers := triggers[index := SentOf(triggers[index], stamp)];
      RecomputeNextDueAt();
    }

    method MarkTriggerFailed(index: int)
      modifies this
      ensures 0 <= index < |old(triggers)| ==> triggers == old(triggers)[index := FailedOf(old(triggers)[index])]
      ensures 0 <= index < |old(triggers)| ==> IsNextDue(nextDueAt, triggers)
      ensures !(0 <= index < |old(triggers)|) ==> triggers == old(triggers) && nextDueAt == old(nextDueAt)
    {
      if index < 0 || index >= |triggers| {
        return;
      }
      triggers := triggers[index := FailedOf(triggers[index])];
      RecomputeNextDueAt();
    }

    method RecordChannel(index: int, channel: string, status: Status, at: string, error: string)
      modifies this`triggers
      ensures 0 <= index < |old(triggers)| ==>
        var was := old(triggers)[index];
        triggers == old(triggers)[index := was.(channels := was.channels[channel := ChannelState(status, at, error)])]
      ensures !(0 <= index < |old(triggers)|) ==> triggers == old(triggers)
    {
      if index < 0 || index >= |triggers| {
        return;
      }
      var was := triggers[index];
      triggers := triggers[index := was.(channels := was.channels[channel := ChannelState(status, at, error)])];
    }
  }

  lemma NextDueGrows(next: Option<string>, triggers: seq<Trigger>, i: nat)
    requires i < |triggers| && IsNextDue(next, triggers[..i])
    ensures var t := triggers[i];
            var sooner := Counted(t) && (next.None? || StrLess(t.scheduledFor, next.value));
            IsNextDue(if sooner then Some(t.scheduledFor) else next, triggers[..i + 1])
  {
    hide StrLess, Counted;
    var t := triggers[i];
    assert triggers[..i + 1] == triggers[..i] + [t];
    StrLeReflexive(t.scheduledFor);
    if Counted(t) && next.Some? {
      StrLessTotal(t.scheduledFor, next.value);
      if StrLess(t.scheduledFor, next.value) {
        forall x | x in triggers[..i] && Counted(x) ensures StrLe(t.scheduledFor, x.scheduledFor) {
          StrLeTransitive(t.scheduledFor, next.value, x.scheduledFor);
        }
      }
    }
  }
}
