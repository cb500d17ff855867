/** When the journal must say yes: exactly which acquisitions are granted, which
    transitions are recorded and what a prune leaves, on any state its steps reach. */
module JournalGrants {
  import opened ActionTypes
  import opened JournalModel
  import opened JournalInvariant

  // ---------- acquiring ----------

  // The records that hold one of the two places: undispatched and open, or uncertain.
  ghost function InUse(s: Journal): set<string> {
    set id | id in s.rows && (Unresolved(s.rows[id]) || (id in s.active && Undispatched(s.rows[id])))
  }

  // A related record that is uncertain, open or changed its container less than 30 seconds ago.
  ghost predicate HoldsOff(s: Journal, id: string, now: Time)
    requires id in s.rows
  {
    var r := s.rows[id];
    || (r.intent.Some? && r.terminal.None?) || id in s.active
    || (r.terminal.Some? && r.terminal.value.code in {Started, Stopped, Restarted} &&
       now < r.terminal.value.at + 30 * SECOND)
  }

  ghost predicate Grantable(s: Journal, k: Key, now: Time) {
    var own := k.ActionID();
    && k.request.created <= now < k.request.expires
    && ParsesAsStamp(s.floor) && own !in s.active
    && (forall id :: id in s.rows && (id == own || Related(s.rows[id].key, k)) ==> StampsParse(s.rows[id]))
    && (if own in s.rows then s.rows[own].key == k && s.rows[own].intent.None? && s.rows[own].terminal.None?
        else s.floor < k.request.expires && |s.rows| < 1000)
    && (forall id :: id in s.rows && Related(s.rows[id].key, k) ==> !HoldsOff(s, id, now))
    && |InUse(s)| < 2
  }

  lemma InUseCounts(s: Journal)
    requires AttemptsHeld(s) && !s.failed
    ensures |InUse(s)| == |Permits(s.active)| + |UnresolvedIDs(s.rows)|
  {
    var p, u := Permits(s.active), UnresolvedIDs(s.rows);
    assert InUse(s) == p + u;
    assert p * u == {};
  }

  lemma RelatedClear(s: Journal, k: Key, now: Time)
    requires AttemptsHeld(s) && !s.failed
    ensures (forall id :: id in s.rows && Related(s.rows[id].key, k) ==> !HoldsOff(s, id, now)) <==>
      !UnresolvedRelated(s.rows, k) && !CoolingRelated(s.rows, k, now) && !ActiveRelated(s.active, k)
  {
    hide Related;
    forall id | id in s.rows && Related(s.rows[id].key, k)
      ensures HoldsOff(s, id, now) <==> Unresolved(s.rows[id]) || Cooling(s.rows[id], now) || id in s.active
    {
    }
    forall id | id in s.active ensures id in s.rows && s.rows[id].key == s.active[id].record.key {
    }
  }

  // The place a transaction's body leaves to the counts.
  lemma Admits(s: Journal, k: Key, token: nat, now: Time, record: Record, known: bool)
    requires Inv(s) && !s.failed
    ensures AdmitBody(s, k, token, now, record, known).Write? <==> |InUse(s)| < 2 && (known || |s.rows| < 1000)
    ensures var b := AdmitBody(s, k, token, now, record, known); b.Write? ==> b.reply == Granted(Attempt(token, record))
    ensures var b := AdmitBody(s, k, token, now, record, known); b.Deny? ==> !b.refusal.Granted?
  {
    hide RowsValid, Apart, InUse, Permits, UnresolvedIDs;
    InUseCounts(s);
    OccupiedIsPermitsAndUnresolved(s);
  }

  lemma ReadableAll(s: Journal, k: Key)
    ensures (forall id ::
      id in s.rows && (id == k.ActionID() || Related(s.rows[id].key, k)) ==> StampsParse(s.rows[id])) <==>
      (k.ActionID() in s.rows ==> StampsParse(s.rows[k.ActionID()])) && !UnreadableRelated(s.rows, k)
  {
    hide Related, StampsParse;
  }

  /** An acquisition whose transaction commits is granted exactly when everything it
      reads is readable, the identifier is free or the key's own undispatched record,
      the time is right, nothing related is uncertain, open or recent, fewer than two
      places are taken, and a new record finds room above the floor. */
  lemma GrantedExactly(s: Journal, t: Timed)
    requires Inv(s) && !s.failed && t.step.Acquire? && t.fate == Committed
    requires Canonical(t.step.key) && BoundTo(t.step.key, s.binding)
    ensures Apply(s, t).1.Granted? <==> Grantable(s, t.step.key, t.now)
  {
    hide Canonical, BoundTo, RowsValid, AttemptsHeld, Apart, Occupied, Related, StampsParse, AdmitBody, InUse,
         UnresolvedRelated, CoolingRelated, ActiveRelated, UnreadableRelated, Storable, HoldsOff;
    var k := t.step.key;
    var own := k.ActionID();
    var record := if own in s.rows then s.rows[own] else Record(k, t.now, None, None);
    ReadableAll(s, k);
    RelatedClear(s, k, t.now);
    Admits(s, k, t.step.token, t.now, record, own in s.rows);
  }

  // ---------- what each other answer means ----------

  ghost predicate Answers(s: Journal, t: Timed, k: Key, o: Outcome)
    requires t.step.Acquire?
  {
    var own := k.ActionID();
    match o
    case Granted(attempt) => attempt.token == t.step.token && attempt.record.key == k && Undispatched(attempt.record)
    case Retained(r) =>
      && own in s.rows && s.rows[own].key == k
      && (if Undispatched(s.rows[own]) then k.request.expires <= t.now && r == DeniedAt(s.rows[own], t.now)
         else r == s.rows[own])
    case Conflict(why) =>
      (match why
       case WrongIdentity => !Canonical(k) || !BoundTo(k, s.binding)
       case OtherMetadata => own in s.rows && s.rows[own].key != k
       case NotYetCreated => t.now < k.request.created
       case AlreadyExpired => own !in s.rows && k.request.expires <= t.now
       case BelowFloor => own !in s.rows && k.request.expires <= s.floor)
    case UnresolvedTarget => exists id :: id in s.rows && Related(s.rows[id].key, k) && Unresolved(s.rows[id])
    case Busy(reason) =>
      (match reason
       case LockHeld => t.fate == Locked
       case SameAction => own in s.active
       case CoolingDown => exists id :: id in s.rows && Related(s.rows[id].key, k) && Cooling(s.rows[id], t.now)
       case RelatedActive => exists id :: id in s.active && Related(s.active[id].record.key, k)
       case Capacity => |InUse(s)| >= 2)
    case Full => own !in s.rows && |s.rows| == 1000
    case Done => false
    case Recovery =>
      || s.failed || t.fate != Committed || !t.rollbackOk || !ParsesAsStamp(s.floor)
      || (exists id :: id in s.rows && (id == own || Related(s.rows[id].key, k)) && !StampsParse(s.rows[id]))
      || (own in s.rows && k.request.expires <= t.now && !Storable(t.now))
  }

  ghost function Answer(b: Body): Outcome {
    if b.Write? then b.reply else b.refusal
  }

  lemma AdmitHasCause(s: Journal, t: Timed, record: Record, known: bool)
    requires Inv(s) && !s.failed && t.step.Acquire? && (known <==> t.step.key.ActionID() in s.rows)
    requires record.key == t.step.key && Undispatched(record)
    ensures Answers(s, t, t.step.key, Answer(AdmitBody(s, t.step.key, t.step.token, t.now, record, known)))
  {
    hide RowsValid, AttemptsHeld, Apart, Related, StampsParse, InUse, Permits, UnresolvedIDs, Occupied;
    InUseCounts(s);
    OccupiedIsPermitsAndUnresolved(s);
  }

  lemma RelatedHasCause(s: Journal, t: Timed, record: Record, known: bool)
    requires Inv(s) && !s.failed && t.step.Acquire? && (known <==> t.step.key.ActionID() in s.rows)
    requires record.key == t.step.key && Undispatched(record)
    ensures Answers(s, t, t.step.key,
                    Answer(RelatedBody(s, t.step.key, t.step.token, t.now, t.step.coolFirst, record, known)))
  {
    hide Inv, Related, StampsParse, InUse, AdmitBody;
    AdmitHasCause(s, t, record, known);
  }

  lemma BodyHasCause(s: Journal, t: Timed)
    requires Inv(s) && !s.failed && t.step.Acquire?
    ensures Answers(s, t, t.step.key, Answer(AcquireBody(s, t.step.key, t.step.token, t.now, t.step.coolFirst)))
  {
    hide Inv, Related, StampsParse, InUse, RelatedBody, Storable;
    var k := t.step.key;
    var own := k.ActionID();
    if own !in s.rows {
      RelatedHasCause(s, t, Record(k, t.now, None, None), false);
    } else if s.rows[own].key == k && Undispatched(s.rows[own]) {
      RelatedHasCause(s, t, s.rows[own], true);
    }
  }

  lemma RefusesPlainly(s: Journal, t: Timed)
    requires t.step.Acquire?
    ensures var b := AcquireBody(s, t.step.key, t.step.token, t.now, t.step.coolFirst);
      b.Deny? ==> Tolerated(b.refusal) || b.refusal == Recovery
  {
    hide Related, StampsParse, Storable, Permits, UnresolvedIDs;
  }

  /** Every answer to an acquisition has its own cause; in particular a usable
      journal whose transaction commits asks for recovery only over a stamp. */
  lemma AnswerHasCause(s: Journal, t: Timed)
    requires Inv(s) && t.step.Acquire?
    ensures Answers(s, t, t.step.key, Apply(s, t).1)
  {
    hide Inv, Canonical, BoundTo, Related, StampsParse, InUse, Storable, AcquireBody;
    RefusesPlainly(s, t);
    if !s.failed { BodyHasCause(s, t); }
  }

  // ---------- recording ----------

  // The results an attempt may record, before and after its intent.
  predicate Recordable(op: Operation, dispatched: bool, code: Code) {
    if dispatched then
      match op case Start => code == Started case Stop => code == Stopped case Restart => code == Restarted
    else
      match op
      case Start => code == StateConflict || code == AlreadyRunning
      case Stop => code == StateConflict || code == AlreadyStopped
      case Restart => code == StateConflict
  }

  ghost predicate Movable(s: Journal, id: string, token: nat, code: Option<Code>, now: Time) {
    && id in s.active && s.active[id].token == token
    && var r := s.active[id].record;
       && r.terminal.None? && StampsParse(r) && Storable(now)
       && r.admitted <= now && (r.intent.Some? ==> r.intent.value <= now)
       && (if code.None? then r.intent.None? && now < r.key.request.expires
           else Recordable(r.key.request.operation, r.intent.Some?, code.value))
  }

  lemma RecordableIs(op: Operation, dispatched: bool, code: Code)
    ensures TerminalAllowed(op, dispatched, code, false) <==> Recordable(op, dispatched, code)
  {
  }

  /** An intent or a result whose transaction commits is recorded exactly for the
      attempt's own handle, once, in time and fitting the operation. */
  lemma DoneExactly(s: Journal, t: Timed)
    requires Inv(s) && !s.failed && t.fate == Committed && (t.step.Intent? || t.step.Finish?)
    ensures var code := if t.step.Intent? then None else Some(t.step.code);
      Apply(s, t).1.Done? <==> Movable(s, t.step.id, t.step.token, code, t.now)
  {
    hide RowsValid, Apart, Occupied, StampsParse, Storable, TerminalAllowed, Recordable;
    if t.step.Finish? && t.step.id in s.active {
      var r := s.active[t.step.id].record;
      RecordableIs(r.key.request.operation, r.intent.Some?, t.step.code);
    }
  }

  // ---------- pruning ----------

  ghost predicate Readable(s: Journal) {
    ParsesAsStamp(s.floor) && forall id :: id in s.rows ==> StampsParse(s.rows[id])
  }

  // What a prune makes of one record it looks at.
  ghost predicate Kept(r: Record, now: Time, kept: bool, r': Record) {
    if r.terminal.Some? then
      (kept <==> !(r.terminal.value.at <= now - 30 * DAY && r.key.request.expires <= now - 30 * DAY)) &&
        (kept ==> r' == r)
    else if r.intent.Some? then kept && r' == r
    else kept && r' == if r.key.request.expires <= now then r.(terminal := Some(Terminal(now, Denied, true))) else r
  }

  /** A committed prune of a readable store is carried out while its stamps fit;
      records in use or not picked stay, uncertain ones stay, old finished ones go,
      expired undispatched ones are denied, and the floor rises to 30 days ago. */
  lemma PrunedExactly(s: Journal, t: Timed)
    requires Inv(s) && !s.failed && t.step.Prune? && t.fate == Committed && Readable(s)
    requires Storable(t.now) && Storable(t.now - 30 * DAY)
    ensures var s' := Next(s, t);
      && Apply(s, t).1.Done? && s'.active == s.active && !s'.failed
      && s'.floor == (if s.floor < t.now - 30 * DAY then t.now - 30 * DAY else s.floor)
      && s'.rows.Keys <= s.rows.Keys
      && (forall id :: id in s.rows && (id !in t.step.picked || id in s.active) ==>
            id in s'.rows && s'.rows[id] == s.rows[id])
      && (forall id :: id in s.rows && id in t.step.picked && id !in s.active ==>
            Kept(s.rows[id], t.now, id in s'.rows, if id in s'.rows then s'.rows[id] else s.rows[id]))
  {
    hide RowsValid, AttemptsHeld, Apart, Occupied, StampsParse, Storable;
    FloorFits(s.floor, t.now - 30 * DAY);
  }

  lemma FloorFits(floor: Time, now: Time)
    requires ParsesAsStamp(floor) && Storable(now)
    ensures Storable(Later(now, floor))
  {
  }
}
