/** Safety of whole journal runs: reloading, single dispatch, the permanent
    fence of an uncertain outcome, and the cooldown between related effects. */
module JournalSafety {
  import opened ActionTypes
  import opened JournalModel
  import opened JournalInvariant

  // ---------- reloading ----------

  ghost predicate StampsStored(s: Journal) {
    ParsesAsStamp(s.floor) && forall id :: id in s.rows ==> StampsParse(s.rows[id])
  }

  lemma UnresolvedFit(s: Journal)
    requires Apart(s) && |Occupied(s)| <= MAX_BUSY
    ensures UnresolvedApart(s.rows) && |UnresolvedIDs(s.rows)| <= MAX_BUSY
  {
    SubsetSize(UnresolvedIDs(s.rows), Occupied(s));
    forall x, y | x in s.rows && y in s.rows && x != y && Unresolved(s.rows[x]) && Unresolved(s.rows[y])
      ensures !Related(s.rows[x].key, s.rows[y].key)
    {
      assert InPlay(s, x) && InPlay(s, y);
    }
  }

  /** A state the journal's own steps reach is refused by `verify` only for a
      stamp whose year does not have four digits. */
  lemma ReloadsExactly(s: Journal)
    requires Inv(s)
    ensures Reloads(s.binding, s.rows, s.floor) <==> StampsStored(s)
  {
    hide RowValid, Apart, Occupied, AttemptsHeld, UnresolvedApart, StampsParse;
    UnresolvedFit(s);
  }

  // The clock readings that leave every stored stamp readable.
  ghost predicate StampsReadably(s: Journal, e: Effect, now: Time) {
    match e
    case Moves(_, _, Some(_)) => now < YEAR_10000
    case Expires(_) => now < YEAR_10000
    case Prunes(picked) => now - RETENTION < YEAR_10000 && (DeniesAny(s, picked, now) ==> now < YEAR_10000)
    case _ => true
  }

  lemma PruneStampsExactly(s: Journal, picked: set<string>, now: Time, s': Journal)
    requires RowsValid(s) && StampsStored(s) && ShowsPrune(s, picked, now, s')
    ensures StampsStored(s') <==> StampsReadably(s, Prunes(picked), now)
  {
    hide Canonical, TerminalAllowed;
    forall id | id in picked && Prunable(s, id, now) && Expirable(s.rows[id], now)
      ensures id in s'.rows && s'.rows[id] == DeniedAt(s.rows[id], now)
      ensures StampsParse(s'.rows[id]) <==> now < YEAR_10000
    {
      KeyStamps(s, id);
    }
  }

  lemma KeyStamps(s: Journal, id: string)
    requires RowsValid(s) && id in s.rows
    ensures YEAR_0 <= s.rows[id].key.request.created <= s.rows[id].admitted < s.rows[id].key.Expires() < YEAR_10000
  {
  }

  lemma EffectStampsExactly(s: Journal, e: Effect, now: Time, s': Journal)
    requires RowsValid(s) && AttemptsHeld(s) && StampsStored(s) && Shows(s, e, now, s')
    ensures StampsStored(s') <==> StampsReadably(s, e, now)
  {
    hide RowValid, MayGrant, CoolingRelated, TerminalAllowed, PrunedRows;
    match e
    case Quiet =>
    case Grants(k, token, record) => GrantStamps(s, k, token, record, now, s');
    case Moves(id, token, code) => KeyStamps(s, id); assert s'.rows[id] == Advanced(s.rows[id], code, now);
    case Expires(id) => KeyStamps(s, id); assert s'.rows[id] == DeniedAt(s.rows[id], now);
    case Prunes(picked) => PruneStampsExactly(s, picked, now, s');
  }

  lemma GrantStamps(s: Journal, k: Key, token: nat, record: Record, now: Time, s': Journal)
    requires StampsStored(s) && ShowsGrant(s, k, token, record, now, s')
    ensures StampsStored(s')
  {
    hide CoolingRelated;
  }

  ghost predicate ClockBefore(steps: seq<Timed>, limit: Time) {
    forall i :: 0 <= i < |steps| ==> steps[i].now < limit
  }

  /** Every durable state reached from provisioning - after any steps, any
      ambiguous commit, any crash - reloads, as long as the clock never leaves
      the years RFC 3339 can write. */
  lemma {:induction false} EveryRunReloads(s: Journal, steps: seq<Timed>)
    requires Inv(s) && StampsStored(s) && ClockBefore(steps, YEAR_10000)
    ensures var s' := Run(s, steps); Inv(s') && StampsStored(s') && Reloads(s'.binding, s'.rows, s'.floor)
    decreases |steps|
  {
    hide Next, RowsValid, AttemptsHeld, Apart, Occupied, Shows, Caused, StampsStored, Reloads;
    if steps == [] {
      ReloadsExactly(s);
    } else {
      var e := StepShows(s, steps[0]);
      StepKeeps(s, steps[0]);
      EffectStampsExactly(s, e, steps[0].now, Next(s, steps[0]));
      EveryRunReloads(Next(s, steps[0]), steps[1..]);
    }
  }

  // The transaction of a step is carried out, perhaps without a reply.
  predicate Lands(s: Journal, t: Timed) {
    !s.failed && (t.fate == Committed || t.fate == CommitKept || (t.step.Prune? && t.fate == GuardRefused))
  }

  // A stamp the tables take and no later open can read.
  predicate FarFuture(now: Time) {
    YEAR_10000 <= now && Storable(now)
  }

  /** The steps, by state and reading alone, that write such a stamp: a denial of an
      expired undispatched action, a terminal, or a prune's denials or floor. */
  predicate Strands(s: Journal, t: Timed) {
    && Lands(s, t)
    && match t.step
       case Acquire(k, _, _) =>
         && Canonical(k) && BoundTo(k, s.binding) && k.ActionID() in s.rows && k.ActionID() !in s.active
         && s.rows[k.ActionID()].key == k && Undispatched(s.rows[k.ActionID()]) && FarFuture(t.now)
       case Finish(id, token, code) => MayTransition(s, id, token, Some(code)) && FarFuture(t.now)
       case Prune(picked) =>
         if DeniesAny(s, picked, t.now)
         then FarFuture(t.now) && (t.now - RETENTION < YEAR_10000 || FarFuture(t.now - RETENTION))
         else FarFuture(t.now - RETENTION)
       case _ => false
  }

  lemma AcquireStrands(s: Journal, t: Timed)
    requires RowsValid(s) && AttemptsHeld(s) && StampsStored(s) && t.step.Acquire?
    ensures StampsStored(Next(s, t)) <==> !Strands(s, t)
  {
    hide Canonical, BoundTo, RowValid, MayGrant, CoolingRelated, RelatedBody, Storable, Tolerated;
    var k, id := t.step.key, t.step.key.ActionID();
    var e := StepShows(s, t);
    EffectStampsExactly(s, e, t.now, Next(s, t));
    if Strands(s, t) {
      KeyStamps(s, id);
      assert Next(s, t).rows[id] == DeniedAt(s.rows[id], t.now);
    } else if e.Expires? {
      AcquireBodyMeans(s, k, t.step.token, t.now, t.step.coolFirst);
    }
  }

  lemma FinishStrands(s: Journal, t: Timed)
    requires RowsValid(s) && AttemptsHeld(s) && StampsStored(s) && t.step.Finish?
    ensures StampsStored(Next(s, t)) <==> !Strands(s, t)
  {
    hide Canonical, BoundTo, TerminalAllowed, Storable;
    var id := t.step.id;
    var e := StepShows(s, t);
    EffectStampsExactly(s, e, t.now, Next(s, t));
    if Strands(s, t) {
      KeyStamps(s, id);
      assert Next(s, t).rows[id] == Advanced(s.rows[id], Some(t.step.code), t.now);
    }
  }

  lemma NearFits(now: Time)
    ensures now < YEAR_10000 ==> Storable(now)
  {
  }

  lemma PruneStrands(s: Journal, t: Timed)
    requires RowsValid(s) && AttemptsHeld(s) && StampsStored(s) && t.step.Prune?
    ensures StampsStored(Next(s, t)) <==> !Strands(s, t)
  {
    hide PrunedRows, Prunable, StampsParse, Storable, RowValid;
    var s', picked := Next(s, t), t.step.picked;
    NearFits(Later(t.now - RETENTION, s.floor));
    NearFits(t.now);
    if Lands(s, t) && PruneBody(s, picked, t.now).Write? {
      PruneStampsExactly(s, picked, t.now, s');
    }
  }

  /** A step leaves every stored stamp readable exactly unless it is one of these. */
  lemma StepStampsExactly(s: Journal, t: Timed)
    requires RowsValid(s) && AttemptsHeld(s) && StampsStored(s)
    ensures StampsStored(Next(s, t)) <==> !Strands(s, t)
  {
    hide RowsValid, AttemptsHeld, StampsStored, Shows, Next;
    match t.step
    case Acquire(_, _, _) => AcquireStrands(s, t);
    case Finish(_, _, _) => FinishStrands(s, t);
    case Prune(_) => PruneStrands(s, t);
    case _ =>
      var e := StepShows(s, t);
      EffectStampsExactly(s, e, t.now, Next(s, t));
  }

  // No step of the run writes a stamp that cannot be read back.
  predicate WritesReadably(s: Journal, steps: seq<Timed>)
    decreases |steps|
  {
    steps == [] || (!Strands(s, steps[0]) && WritesReadably(Next(s, steps[0]), steps[1..]))
  }

  ghost predicate ReloadsThroughout(s: Journal, steps: seq<Timed>)
    decreases |steps|
  {
    && Reloads(s.binding, s.rows, s.floor)
    && (steps == [] || ReloadsThroughout(Next(s, steps[0]), steps[1..]))
  }

  /** Exactly the runs that never write a later year reload after every step. */
  lemma {:induction false} RunReloadsExactly(s: Journal, steps: seq<Timed>)
    requires Inv(s) && StampsStored(s)
    ensures ReloadsThroughout(s, steps) <==> WritesReadably(s, steps)
    decreases |steps|
  {
    hide Next, RowsValid, AttemptsHeld, Apart, Occupied, StampsStored, Reloads, Strands;
    ReloadsExactly(s);
    if steps != [] {
      var s' := Next(s, steps[0]);
      StepKeeps(s, steps[0]);
      ReloadsExactly(s');
      StepStampsExactly(s, steps[0]);
      if StampsStored(s') {
        RunReloadsExactly(s', steps[1..]);
      }
    }
  }

  /** Beyond year 9999 the journal can strand itself: one prune of an empty store
      writes a floor that no later open accepts. */
  lemma FarFutureStrands(b: Binding)
    ensures var t := Timed(Prune({}), YEAR_10000 + RETENTION, Committed, true);
      var s := Next(Provisioned(b), t);
      s.floor == YEAR_10000 && ReopenStep(s) == (Closed(s), Recovery)
  {
    var t := Timed(Prune({}), YEAR_10000 + RETENTION, Committed, true);
    assert PrunedRows(Provisioned(b), {}, t.now) == map[];
    assert StampFits(YEAR_10000, 5) by { assert Power10(5) == 100_000 && Power10(1) == 10; }
  }

  // ---------- single dispatch ----------

  ghost predicate Holds(s: Journal, k: Key) {
    k.ActionID() in s.rows && s.rows[k.ActionID()].key == k
  }

  ghost predicate HasIntent(s: Journal, k: Key) {
    Holds(s, k) && s.rows[k.ActionID()].intent.Some?
  }

  ghost predicate CommitsIntent(s: Journal, t: Timed, k: Key) {
    !HasIntent(s, k) && HasIntent(Next(s, t), k)
  }

  // How many INTENT events for exactly this key a run makes durable.
  ghost function IntentCount(s: Journal, steps: seq<Timed>, k: Key): nat
    decreases |steps|
  {
    if steps == [] then 0
    else (if CommitsIntent(s, steps[0], k) then 1 else 0) + IntentCount(Next(s, steps[0]), steps[1..], k)
  }

  // The key was dispatched, or can no longer be admitted.
  ghost predicate Spent(s: Journal, k: Key) {
    HasIntent(s, k) || (!Holds(s, k) && k.Expires() <= s.floor)
  }

  lemma SpentStays(s: Journal, e: Effect, now: Time, s': Journal, k: Key)
    requires RowsValid(s) && AttemptsHeld(s) && Shows(s, e, now, s') && Spent(s, k)
    ensures Spent(s', k) && (HasIntent(s', k) ==> HasIntent(s, k))
  {
    hide Canonical, CoolingRelated, TerminalAllowed, UnresolvedRelated, ActiveRelated, Permits,
         UnresolvedIDs;
  }

  lemma {:induction false} SpentNeverDispatches(s: Journal, steps: seq<Timed>, k: Key)
    requires Inv(s) && Spent(s, k)
    ensures IntentCount(s, steps, k) == 0
    decreases |steps|
  {
    hide Next, RowsValid, AttemptsHeld, Apart, Occupied, Shows, Caused, Spent, HasIntent;
    if steps != [] {
      var e := StepShows(s, steps[0]);
      StepKeeps(s, steps[0]);
      SpentStays(s, e, steps[0].now, Next(s, steps[0]), k);
      SpentNeverDispatches(Next(s, steps[0]), steps[1..], k);
    }
  }

  /** At most one INTENT is ever made durable for a canonical key, over every run
      with ambiguous commits, crashes, pruning and a clock that may run backwards. */
  lemma {:induction false} AtMostOneIntent(s: Journal, steps: seq<Timed>, k: Key)
    requires Inv(s)
    ensures IntentCount(s, steps, k) <= 1
    decreases |steps|
  {
    hide Next, Inv, HasIntent;
    if steps != [] {
      StepKeeps(s, steps[0]);
      if CommitsIntent(s, steps[0], k) {
        SpentNeverDispatches(Next(s, steps[0]), steps[1..], k);
      } else {
        AtMostOneIntent(Next(s, steps[0]), steps[1..], k);
      }
    }
  }

  // ---------- the permanent fence ----------

  // Dispatched, undecided, and no usable handle can still decide it.
  ghost predicate Fenced(s: Journal, id: string) {
    id in s.rows && Unresolved(s.rows[id]) && (s.failed || id !in s.active)
  }

  lemma FenceStays(s: Journal, e: Effect, now: Time, s': Journal, id: string)
    requires RowsValid(s) && AttemptsHeld(s) && Shows(s, e, now, s') && Fenced(s, id)
    ensures Fenced(s', id) && s'.rows[id] == s.rows[id]
  {
    hide Canonical, CoolingRelated, TerminalAllowed, UnresolvedRelated, ActiveRelated, Permits,
         UnresolvedIDs, RowValid;
  }

  lemma FenceRefuses(s: Journal, id: string, t: Timed)
    requires RowsValid(s) && Fenced(s, id) && t.step.Acquire? && Related(s.rows[id].key, t.step.key)
    ensures !Apply(s, t).1.Granted?
  {
    hide Canonical, CoolingRelated, ActiveRelated, Permits, UnresolvedIDs, RowValid, AcquireStep, Related;
    var e := AcquireShows(s, t.step.key, t.step.token, t.step.coolFirst, t);
  }

  /** Once an intent has no attempt left to resolve it, no later step of any run
      resolves or deletes it, and no attempt on its target or container is ever
      granted again. */
  lemma {:induction false} PermanentFence(s: Journal, steps: seq<Timed>, id: string, t: Timed)
    requires Inv(s) && Fenced(s, id)
    ensures var s' := Run(s, steps); Fenced(s', id) && s'.rows[id] == s.rows[id]
    ensures t.step.Acquire? && Related(s.rows[id].key, t.step.key) ==> !Apply(Run(s, steps), t).1.Granted?
    decreases |steps|
  {
    hide Apply, RowsValid, AttemptsHeld, Apart, Occupied, Shows, Caused, Related;
    if steps == [] {
      if t.step.Acquire? && Related(s.rows[id].key, t.step.key) { FenceRefuses(s, id, t); }
    } else {
      var e := StepShows(s, steps[0]);
      StepKeeps(s, steps[0]);
      FenceStays(s, e, steps[0].now, Next(s, steps[0]), id);
      PermanentFence(Next(s, steps[0]), steps[1..], id, t);
    }
  }

  /** Closing an attempt, closing the handle or losing it to an uncertain commit
      raises the fence for every intent it left undecided. */
  lemma LosingRaisesFence(s: Journal, id: string, token: nat, t: Timed)
    requires Inv(s) && id in s.rows && Unresolved(s.rows[id])
    ensures id in s.active && s.active[id].token == token && t.step == Release(id, token) ==> Fenced(Next(s, t), id)
    ensures t.step.Shut? || t.step.Reopen? ==> Fenced(Next(s, t), id)
    ensures Next(s, t).failed && id in Next(s, t).rows && Unresolved(Next(s, t).rows[id]) ==> Fenced(Next(s, t), id)
  {
    hide RowsValid, AttemptsHeld, Apart, Occupied, Reloads, AcquireStep, TransitionStep, PruneStep;
  }
}
