/** What every step of the journal keeps, and the reload theorem that follows. */
module JournalInvariant {
  import opened ActionTypes
  import opened JournalModel

  ghost predicate RowsValid(s: Journal) {
    forall id :: id in s.rows ==> RowValid(s.binding, id, s.rows[id])
  }

  // A usable handle's attempts agree with the rows; a failed one still names them.
  ghost predicate AttemptsHeld(s: Journal) {
    forall id :: id in s.active ==>
      && id in s.rows && s.rows[id].key == s.active[id].record.key
      && (!s.failed ==> s.rows[id] == s.active[id].record)
  }

  ghost predicate InPlay(s: Journal, id: string) {
    id in s.rows && (id in s.active || Unresolved(s.rows[id]))
  }

  // Open attempts and unresolved intents never touch the same target or container.
  ghost predicate Apart(s: Journal) {
    forall x, y :: x != y && InPlay(s, x) && InPlay(s, y) ==> !Related(s.rows[x].key, s.rows[y].key)
  }

  ghost function Occupied(s: Journal): set<string> {
    set id | id in s.rows && s.rows[id].terminal.None? && (s.rows[id].intent.Some? || id in s.active)
  }

  ghost predicate Inv(s: Journal) {
    RowsValid(s) && AttemptsHeld(s) && Apart(s) && |s.rows| <= MAX_RECORDS && |Occupied(s)| <= MAX_BUSY
  }

  lemma SubsetSize<T>(a: set<T>, b: set<T>)
    requires a <= b
    ensures |a| <= |b|
  {
    assert |b| == |a| + |b - a| by { assert b == a + (b - a); }
  }

  lemma OccupiedIsPermitsAndUnresolved(s: Journal)
    requires AttemptsHeld(s) && !s.failed
    ensures Occupied(s) == Permits(s.active) + UnresolvedIDs(s.rows)
    ensures |Occupied(s)| == |Permits(s.active)| + |UnresolvedIDs(s.rows)|
  {
    assert Permits(s.active) !! UnresolvedIDs(s.rows);
  }

  ghost predicate MayGrant(s: Journal, k: Key, record: Record) {
    && k.ActionID() !in s.active && record.key == k && Undispatched(record)
    && k.request.created <= record.admitted < k.Expires()
    && (k.ActionID() in s.rows ==> s.rows[k.ActionID()] == record)
    && !UnresolvedRelated(s.rows, k) && !ActiveRelated(s.active, k)
    && |Permits(s.active)| + |UnresolvedIDs(s.rows)| < MAX_BUSY
    && (k.ActionID() !in s.rows ==> |s.rows| < MAX_RECORDS)
  }

  // The three ways an acquisition writes: it grants, it expires an undispatched
  // row, or it only reads a row back.
  lemma AcquireBodyMeans(s: Journal, k: Key, token: nat, now: Time, coolFirst: bool)
    requires k.ActionID() in s.rows ==> RowValid(s.binding, k.ActionID(), s.rows[k.ActionID()])
    ensures var b := AcquireBody(s, k, token, now, coolFirst);
      && (b.Deny? ==> !b.refusal.Granted?)
      && (b.Write? ==> b.floor == s.floor && (b.reply.Granted? || b.reply.Retained?))
      && (b.Write? && b.reply.Granted? ==>
            && MayGrant(s, k, b.reply.attempt.record) && b.reply.attempt.token == token
            && b.rows == s.rows[k.ActionID() := b.reply.attempt.record]
            && !CoolingRelated(s.rows, k, now)
            && (k.ActionID() !in s.rows ==> s.floor < k.Expires())
            && k.request.created <= now < k.Expires())
      && (b.Write? && b.reply.Retained? ==>
            || b.rows == s.rows
            || (&& k.ActionID() in s.rows && k.ActionID() !in s.active && Expirable(s.rows[k.ActionID()], now)
                && b.rows == s.rows[k.ActionID() := DeniedAt(s.rows[k.ActionID()], now)]))
  {
  }

  // ---------- granting an attempt ----------

  lemma GrantKeepsApart(s: Journal, k: Key, record: Record, s': Journal)
    requires AttemptsHeld(s) && Apart(s) && MayGrant(s, k, record)
    requires s'.rows == s.rows[k.ActionID() := record] && s'.active.Keys <= s.active.Keys + {k.ActionID()}
    ensures Apart(s')
  {
    forall x, y | x != y && InPlay(s', x) && InPlay(s', y)
      ensures !Related(s'.rows[x].key, s'.rows[y].key)
    {
      assert x != k.ActionID() ==> InPlay(s, x);
      assert y != k.ActionID() ==> InPlay(s, y);
    }
  }

  lemma GrantKeepsSizes(s: Journal, k: Key, record: Record, s': Journal)
    requires AttemptsHeld(s) && !s.failed && MayGrant(s, k, record) && |s.rows| <= MAX_RECORDS
    requires s'.rows == s.rows[k.ActionID() := record] && s'.active.Keys <= s.active.Keys + {k.ActionID()}
    ensures |s'.rows| <= MAX_RECORDS && |Occupied(s')| <= MAX_BUSY
  {
    OccupiedIsPermitsAndUnresolved(s);
    SubsetSize(Occupied(s'), Occupied(s) + {k.ActionID()});
    assert k.ActionID() in s.rows ==> s'.rows == s.rows;
  }

  lemma GrantKeepsRows(s: Journal, k: Key, token: nat, record: Record, s': Journal)
    requires RowsValid(s) && AttemptsHeld(s) && !s.failed && MayGrant(s, k, record) && Canonical(k) &&
      BoundTo(k, s.binding)
    requires s'.binding == s.binding && s'.rows == s.rows[k.ActionID() := record]
    requires (s'.active == s.active && s'.failed) || s'.active == s.active[k.ActionID() := Attempt(token, record)]
    ensures RowsValid(s') && AttemptsHeld(s')
  {
    hide Canonical;
  }

  // ---------- steps that put nothing new in play ----------

  ghost predicate Calmer(s: Journal, s': Journal) {
    && s'.rows.Keys <= s.rows.Keys && s'.active.Keys <= s.active.Keys
    && (forall id :: id in s'.rows ==>
          && s'.rows[id].key == s.rows[id].key
          && (Unresolved(s'.rows[id]) ==> InPlay(s, id))
          && (s'.rows[id].terminal.None? ==> s.rows[id].terminal.None?))
  }

  lemma CalmerKeeps(s: Journal, s': Journal)
    requires Calmer(s, s') && Apart(s) && |s.rows| <= MAX_RECORDS && |Occupied(s)| <= MAX_BUSY
    ensures Apart(s') && |s'.rows| <= MAX_RECORDS && |Occupied(s')| <= MAX_BUSY
  {
    SubsetSize(s'.rows.Keys, s.rows.Keys);
    assert Occupied(s') <= Occupied(s);
    SubsetSize(Occupied(s'), Occupied(s));
    forall x, y | x != y && InPlay(s', x) && InPlay(s', y)
      ensures !Related(s'.rows[x].key, s'.rows[y].key)
    {
      assert InPlay(s, x) && InPlay(s, y);
    }
  }

  // The one way a transition writes: the attempt's own row moves one step forward.
  ghost predicate Advances(s: Journal, id: string, token: nat, code: Option<Code>, now: Time, s': Journal) {
    && MayTransition(s, id, token, code) && id in s.rows
    && var r := s.rows[id];
       && r.terminal.None? && r.admitted <= now && (r.intent.Some? ==> r.intent.value <= now)
       && (code.None? ==> now < r.key.Expires())
       && s'.binding == s.binding && s'.floor == s.floor && s'.rows == s.rows[id := Advanced(r, code, now)]
       && if s'.failed then s'.active == s.active
          else s'.active == s.active[id := Attempt(token, Advanced(r, code, now))]
  }

  lemma TransitionMeans(s: Journal, id: string, token: nat, code: Option<Code>, t: Timed)
    requires AttemptsHeld(s)
    ensures var (s', o) := TransitionStep(s, id, token, code, t);
      && (o.Done? ==> Advances(s, id, token, code, t.now, s') && !s'.failed)
      && (s' == s || s' == s.(failed := true) || Advances(s, id, token, code, t.now, s'))
  {
  }

  lemma AdvanceKeepsRows(s: Journal, id: string, token: nat, code: Option<Code>, now: Time, s': Journal)
    requires RowsValid(s) && AttemptsHeld(s) && Advances(s, id, token, code, now, s')
    ensures RowsValid(s')
  {
    hide Canonical;
  }

  lemma AdvanceKeepsAttempts(s: Journal, id: string, token: nat, code: Option<Code>, now: Time, s': Journal)
    requires AttemptsHeld(s) && Advances(s, id, token, code, now, s')
    ensures AttemptsHeld(s') && Calmer(s, s')
  {
  }

  lemma DenialValid(b: Binding, id: string, r: Record, now: Time)
    requires RowValid(b, id, r) && Expirable(r, now)
    ensures RowValid(b, id, DeniedAt(r, now)) && !Unresolved(DeniedAt(r, now))
  {
    hide Canonical, BoundTo;
  }

  lemma ExpiryKeeps(s: Journal, id: string, now: Time, s': Journal)
    requires RowsValid(s) && AttemptsHeld(s) && id in s.rows && id !in s.active && Expirable(s.rows[id], now)
    requires s'.binding == s.binding && s'.rows == s.rows[id := DeniedAt(s.rows[id], now)]
    requires s'.active == s.active && (s.failed ==> s'.failed)
    ensures RowsValid(s') && AttemptsHeld(s') && Calmer(s, s')
  {
    hide RowValid;
    DenialValid(s.binding, id, s.rows[id], now);
  }

  lemma PruneKeeps(s: Journal, picked: set<string>, now: Time, s': Journal)
    requires RowsValid(s) && AttemptsHeld(s) && s'.rows == PrunedRows(s, picked, now)
    requires s'.binding == s.binding && s'.active == s.active && (s.failed ==> s'.failed)
    ensures RowsValid(s') && AttemptsHeld(s') && Calmer(s, s')
  {
    hide RowValid, Expirable, Deletable, Unresolved;
    forall id | id in s'.rows ensures s'.rows[id] == s.rows[id] ||
      (Expirable(s.rows[id], now) && s'.rows[id] == DeniedAt(s.rows[id], now)) {
    }
    forall id | id in s'.rows && Expirable(s.rows[id], now) {
      DenialValid(s.binding, id, s.rows[id], now);
    }
    ActiveKept(s, picked, now);
  }

  lemma ActiveKept(s: Journal, picked: set<string>, now: Time)
    requires AttemptsHeld(s)
    ensures forall id ::
      id in s.active ==> id in PrunedRows(s, picked, now) && PrunedRows(s, picked, now)[id] == s.rows[id]
  {
    hide Expirable, Deletable;
  }

  // ---------- what one step can do ----------

  datatype Effect =
    | Quiet
    | Grants(key: Key, token: nat, record: Record)
    | Moves(id: string, token: nat, code: Option<Code>)
    | Expires(id: string)
    | Prunes(picked: set<string>)

  ghost predicate ShowsQuiet(s: Journal, s': Journal) {
    && s'.rows == s.rows && s'.floor == s.floor
    && s'.active.Keys <= s.active.Keys && (forall id :: id in s'.active ==> s'.active[id] == s.active[id])
    && (s.failed ==> s'.failed || s'.active == map[])
  }

  ghost predicate ShowsGrant(s: Journal, k: Key, token: nat, record: Record, now: Time, s': Journal) {
    && !s.failed && Canonical(k) && BoundTo(k, s.binding) && MayGrant(s, k, record)
    && !CoolingRelated(s.rows, k, now) && k.request.created <= now < k.Expires()
    && (k.ActionID() !in s.rows ==> s.floor < k.Expires())
    && s'.floor == s.floor && s'.rows == s.rows[k.ActionID() := record]
    && if s'.failed then s'.active == s.active else s'.active == s.active[k.ActionID() := Attempt(token, record)]
  }

  ghost predicate ShowsExpiry(s: Journal, id: string, now: Time, s': Journal) {
    && !s.failed && id in s.rows && id !in s.active && Expirable(s.rows[id], now)
    && s'.floor == s.floor && s'.rows == s.rows[id := DeniedAt(s.rows[id], now)] && s'.active == s.active
  }

  ghost predicate ShowsPrune(s: Journal, picked: set<string>, now: Time, s': Journal) {
    && !s.failed && s'.rows == PrunedRows(s, picked, now) && s'.floor == Later(now - RETENTION, s.floor)
    && s'.active == s.active
  }

  ghost predicate Shows(s: Journal, e: Effect, now: Time, s': Journal) {
    && s'.binding == s.binding
    && match e
       case Quiet => ShowsQuiet(s, s')
       case Grants(k, token, record) => ShowsGrant(s, k, token, record, now, s')
       case Moves(id, token, code) => Advances(s, id, token, code, now, s')
       case Expires(id) => ShowsExpiry(s, id, now, s')
       case Prunes(picked) => ShowsPrune(s, picked, now, s')
  }

  lemma AcquireShows(s: Journal, k: Key, token: nat, coolFirst: bool, t: Timed) returns (e: Effect)
    requires RowsValid(s)
    ensures Shows(s, e, t.now, AcquireStep(s, k, token, coolFirst, t).0)
    ensures AcquireStep(s, k, token, coolFirst, t).1.Granted? ==>
      e == Grants(k, token, AcquireStep(s, k, token, coolFirst, t).1.attempt.record)
    ensures e.Quiet? || e.Expires? || (e.Grants? && e.key == k && e.token == token)
  {
    hide Canonical, BoundTo, RowValid, MayGrant, CoolingRelated, AcquireBody, Tolerated;
    AcquireBodyMeans(s, k, token, t.now, coolFirst);
    var b := AcquireBody(s, k, token, t.now, coolFirst);
    if t.fate == GuardRefused || !Canonical(k) || !BoundTo(k, s.binding) || t.fate == Locked || s.failed {
      e := Quiet;
    } else if b.Deny? || (t.fate != Committed && t.fate != CommitKept) {
      e := Quiet;
    } else if b.reply.Granted? {
      e := Grants(k, token, b.reply.attempt.record);
    } else {
      e := if b.rows == s.rows then Quiet else Expires(k.ActionID());
    }
  }

  lemma PruneShows(s: Journal, picked: set<string>, t: Timed) returns (e: Effect)
    ensures Shows(s, e, t.now, PruneStep(s, picked, t).0) && (e.Quiet? || e == Prunes(picked))
  {
    hide PrunedRows, StampsParse, Later, Tolerated;
    var fate := if t.fate == GuardRefused then Committed else t.fate;
    if t.fate == Locked || s.failed || PruneBody(s, picked, t.now).Deny? || (fate != Committed && fate != CommitKept) {
      e := Quiet;
    } else {
      e := Prunes(picked);
    }
  }

  ghost predicate Caused(t: Timed, e: Effect) {
    match t.step
    case Acquire(k, token, _) => e.Quiet? || e.Expires? || (e.Grants? && e.key == k && e.token == token)
    case Intent(id, token) => e.Quiet? || e == Moves(id, token, None)
    case Finish(id, token, code) => e.Quiet? || e == Moves(id, token, Some(code))
    case Prune(picked) => e.Quiet? || e == Prunes(picked)
    case _ => e.Quiet?
  }

  lemma StepShows(s: Journal, t: Timed) returns (e: Effect)
    requires RowsValid(s) && AttemptsHeld(s)
    ensures Shows(s, e, t.now, Next(s, t)) && Caused(t, e)
  {
    hide RowValid, Reloads, TransitionStep, AcquireStep, PruneStep, Advances, ShowsGrant, ShowsExpiry,
         ShowsPrune;
    match t.step
    case Acquire(k, token, coolFirst) => e := AcquireShows(s, k, token, coolFirst, t);
    case Intent(id, token) =>
      TransitionMeans(s, id, token, None, t);
      e := if Advances(s, id, token, None, t.now, Next(s, t)) then Moves(id, token, None) else Quiet;
      AdvancesBinding(s, id, token, None, t.now, Next(s, t));
    case Finish(id, token, code) =>
      TransitionMeans(s, id, token, Some(code), t);
      e := if Advances(s, id, token, Some(code), t.now, Next(s, t)) then Moves(id, token, Some(code)) else Quiet;
      AdvancesBinding(s, id, token, Some(code), t.now, Next(s, t));
    case Release(id, token) => e := Quiet;
    case Prune(picked) => e := PruneShows(s, picked, t);
    case Shut => e := Quiet;
    case Reopen => e := Quiet;
  }

  lemma AdvancesBinding(s: Journal, id: string, token: nat, code: Option<Code>, now: Time, s': Journal)
    ensures Advances(s, id, token, code, now, s') ==> s'.binding == s.binding
  {
  }

  lemma EffectKeepsRows(s: Journal, e: Effect, now: Time, s': Journal)
    requires RowsValid(s) && AttemptsHeld(s) && Shows(s, e, now, s')
    ensures RowsValid(s') && AttemptsHeld(s')
    ensures !e.Grants? ==> Calmer(s, s')
  {
    hide RowValid, MayGrant, CoolingRelated, Canonical, PrunedRows, Advances, Expirable;
    match e
    case Quiet =>
    case Grants(k, token, record) => GrantKeepsRows(s, k, token, record, s');
    case Moves(id, token, code) => AdvanceKeepsRows(s, id, token, code, now, s');
      AdvanceKeepsAttempts(s, id, token, code, now, s');
    case Expires(id) => ExpiryKeeps(s, id, now, s');
    case Prunes(picked) => PruneKeeps(s, picked, now, s');
  }

  lemma EffectKeeps(s: Journal, e: Effect, now: Time, s': Journal)
    requires Inv(s) && Shows(s, e, now, s')
    ensures Inv(s')
  {
    hide RowsValid, AttemptsHeld, Apart, Calmer, MayGrant, CoolingRelated, Canonical, PrunedRows, Advances,
         Expirable, Occupied, ShowsQuiet;
    EffectKeepsRows(s, e, now, s');
    if e.Grants? {
      GrantKeepsApart(s, e.key, e.record, s');
      GrantKeepsSizes(s, e.key, e.record, s');
    } else {
      CalmerKeeps(s, s');
    }
  }

  /** Every step of the journal, whatever the clock reads and however its commit
      turns out, keeps the invariant. */
  lemma StepKeeps(s: Journal, t: Timed)
    requires Inv(s)
    ensures Inv(Next(s, t)) && Next(s, t).binding == s.binding
  {
    hide Next, RowsValid, AttemptsHeld, Apart, Occupied, ShowsQuiet, ShowsGrant, Advances, ShowsExpiry,
         ShowsPrune, Caused;
    var e := StepShows(s, t);
    EffectKeeps(s, e, t.now, Next(s, t));
  }

  lemma {:induction false} RunKeeps(s: Journal, steps: seq<Timed>)
    requires Inv(s)
    ensures Inv(Run(s, steps)) && Run(s, steps).binding == s.binding
    decreases |steps|
  {
    hide Next, Inv;
    if steps != [] {
      StepKeeps(s, steps[0]);
      RunKeeps(Next(s, steps[0]), steps[1..]);
    }
  }

  lemma ProvisionedHolds(b: Binding)
    ensures Inv(Provisioned(b))
  {
    assert Occupied(Provisioned(b)) == {};
  }
}
