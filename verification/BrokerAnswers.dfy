/** When the broker must say yes, and what ending a reservation leaves behind. */
module BrokerAnswers {
  import opened ActionTypes
  import J = JournalModel
  import JI = JournalInvariant
  import JG = JournalGrants
  import opened Policy
  import opened PolicyBinding
  import opened BrokerModel
  import opened BrokerInvariant
  import opened BrokerSafety

  // ---------- what a broker sees ----------

  // The journal can be read and is the policy's own.
  ghost predicate Legible(b: Broker) {
    && !b.journal.failed && (forall id :: id in b.journal.rows ==> J.StampsParse(b.journal.rows[id]))
    && b.journal.binding == ActionTypes.Binding(b.policy.serverID, b.policy.connectorID, b.policy.ownerID)
  }

  // Some live reservation is bound to the identifier.
  ghost predicate Claimed(b: Broker, id: string) {
    exists n :: n in b.live && b.live[n].bound.Some? && b.live[n].bound.value.ActionID() == id
  }

  predicate Uncertain(r: J.Record) {
    r.intent.Some? && r.terminal.None?
  }

  // Every uncertain or open record belongs to somebody here.
  ghost predicate Accounted(b: Broker) {
    forall id :: id in b.journal.rows && (Uncertain(b.journal.rows[id]) || id in b.journal.active) ==> Claimed(b, id)
  }

  ghost predicate Clear(b: Broker) {
    b.up && Legible(b) && !b.recoveryRequired && Accounted(b)
  }

  ghost predicate Touching(k: Key, m: Mapping) {
    k.request.targetID == m.targetID || (k.engine == m.engine && k.container == m.container)
  }

  // The mapping is current, and no other bound key nor uncertain or recent record touches it.
  ghost predicate Offered(b: Broker, except: Option<nat>, m: Mapping, now: Time) {
    && m in b.policy.mappings && m.revision in b.policy.current
    && (forall n :: n in b.live && except != Some(n) && b.live[n].bound.Some? ==> !Touching(b.live[n].bound.value, m))
    && (forall id :: id in b.journal.rows && Touching(b.journal.rows[id].key, m) ==> Quiet(b.journal.rows[id], now))
  }

  // Neither uncertain nor an effect of the last 30 seconds.
  predicate Quiet(r: J.Record, now: Time) {
    && !Uncertain(r)
    && (r.terminal.Some? && r.terminal.value.code in {Started, Stopped, Restarted} ==>
          r.terminal.value.at + 30 * SECOND <= now)
  }

  lemma OwnedIsClaimed(b: Broker, id: string)
    ensures id in Owned(b) <==> Claimed(b, id)
  {
  }

  lemma ClearIs(b: Broker)
    ensures Clear(b) <==> b.up && SnapshotOk(b)
  {
    hide Owned, Claimed;
    forall id ensures id in Owned(b) <==> Claimed(b, id) { OwnedIsClaimed(b, id); }
  }

  lemma OfferedIs(b: Broker, except: Option<nat>, m: Mapping, now: Time)
    requires m in b.policy.mappings && m.revision in b.policy.current
    ensures Offered(b, except, m, now) <==> !Blocked(b, except, m, now)
  {
    forall id | id in b.journal.rows
      ensures Quiet(b.journal.rows[id], now) <==>
        !(J.Unresolved(b.journal.rows[id]) || J.Cooling(b.journal.rows[id], now))
    {
    }
  }

  lemma EligibleIs(b: Broker, except: Option<nat>, now: Time, target: string)
    ensures target in Eligible(b, except, now) <==> exists m :: Offered(b, except, m, now) && m.targetID == target
  {
    hide Blocked;
    forall m | m in b.policy.mappings && m.revision in b.policy.current
      ensures Offered(b, except, m, now) <==> !Blocked(b, except, m, now)
    {
      OfferedIs(b, except, m, now);
    }
    if target in Eligible(b, except, now) {
      var m :| m in b.policy.mappings && m.revision in b.policy.current && !Blocked(b, except, m, now) &&
        m.targetID == target;
      assert Offered(b, except, m, now);
    }
  }

  // ---------- reserving ----------

  // The records there would be once every live reservation had stored its own.
  ghost function Logical(b: Broker): nat {
    |b.journal.rows| + |set n | n in b.live &&
      !(b.live[n].bound.Some? && b.live[n].bound.value.ActionID() in b.journal.rows)|
  }

  /** A reservation is made exactly when the broker is clear and open, fewer than two
      are live, there is room for its record and some target is on offer; it then
      holds exactly the targets on offer. */
  lemma ReservedExactly(b: Broker, nonce: nat, open: bool, now: Time)
    ensures var (b', v) := ReserveStep(b, nonce, open, now);
      && (v == Accepted <==>
            && Clear(b) && open && |b.live| < 2 && Logical(b) < 1000 && nonce !in b.live
            && exists m :: Offered(b, None, m, now))
      && (v == Accepted ==>
            && nonce in b'.live && b' == b.(live := b.live[nonce := b'.live[nonce]]) && !b'.live[nonce].claimTried
            && b'.live[nonce].bound.None?
            && forall target :: target in b'.live[nonce].targets <==>
                 exists m :: Offered(b, None, m, now) && m.targetID == target)
      && (v != Accepted ==> b'.live == b.live && b'.journal == b.journal)
  {
    hide SnapshotOk, Eligible, Offered, Clear, Latched;
    ClearIs(b);
    LatchedKeeps(b);
    assert Unstored(b) == set n | n in b.live &&
      !(b.live[n].bound.Some? && b.live[n].bound.value.ActionID() in b.journal.rows);
    forall target
      ensures target in Eligible(b, None, now) <==> exists m :: Offered(b, None, m, now) && m.targetID == target
    {
      EligibleIs(b, None, now, target);
    }
    if m :| Offered(b, None, m, now) { assert m.targetID in Eligible(b, None, now); }
  }

  lemma LatchedKeeps(b: Broker)
    ensures Latched(b) == b.(recoveryRequired := Latched(b).recoveryRequired) &&
      (b.recoveryRequired ==> Latched(b).recoveryRequired)
  {
  }

  // ---------- binding ----------

  // The claim is new, names one current mapping, and that one was and still is on offer.
  ghost predicate Bindable(b: Broker, alias: string -> string, nonce: nat, receipt: Receipt, m: Mapping, now: Time)
    requires nonce in b.live
  {
    && receipt.actionID !in b.journal.rows && ResolvesTo(b.policy, alias, receipt, true, m)
    && m.targetID in b.live[nonce].targets
    && exists o :: Offered(b, Some(nonce), o, now) && o.targetID == m.targetID
  }

  /** A claim is bound exactly when the reservation is live and untried, the broker
      clear and open, the exchange timely, and the claim bindable; the key is then the
      one mapping's, and whatever the answer the reservation's try is used up. */
  lemma BoundExactly(b: Broker, alias: string -> string, nonce: nat, receipt: Receipt, open: bool, timely: bool,
                     now: Time)
    ensures var (b', v) := BindStep(b, alias, nonce, receipt, open, timely, now);
      var may := b.up && nonce in b.live && !b.live[nonce].claimTried && open;
      && (v == Accepted <==> may && Clear(b) && timely && exists m :: Bindable(b, alias, nonce, receipt, m, now))
      && (!may ==> b' == b)
      && (may ==>
            && nonce in b'.live && b'.live[nonce].claimTried && b'.journal == b.journal
            && b'.live == b.live[nonce := b'.live[nonce]]
            && b'.live[nonce].targets == b.live[nonce].targets)
      && (v == Accepted ==>
            exists m :: Bindable(b, alias, nonce, receipt, m, now) && b'.live[nonce].bound == Some(KeyOf(receipt, m)))
      && (may && v != Accepted ==> b'.live[nonce].bound == b.live[nonce].bound)
  {
    hide SnapshotOk, Eligible, Offered, Clear, Latched, ResolvesTo, KeyOf;
    if b.up && nonce in b.live && !b.live[nonce].claimTried && open {
      var tried := Tried(b, nonce);
      TriedSees(b, nonce, now);
      LatchedKeeps(tried);
      forall m ensures Binds(tried, alias, nonce, receipt, m, now) <==> Bindable(b, alias, nonce, receipt, m, now) {
        EligibleIs(tried, Some(nonce), now, m.targetID);
      }
    }
  }

  // Marking the try changes nothing else that is looked at.
  lemma TriedSees(b: Broker, nonce: nat, now: Time)
    requires nonce in b.live && b.up
    ensures var tried := Tried(b, nonce);
      && (SnapshotOk(tried) <==> Clear(b))
      && forall m :: Offered(tried, Some(nonce), m, now) <==> Offered(b, Some(nonce), m, now)
  {
    hide SnapshotOk, Quiet, Touching;
    var tried := Tried(b, nonce);
    ClearIs(tried);
    forall id ensures Claimed(tried, id) <==> Claimed(b, id) {
      if n :| n in b.live && b.live[n].bound.Some? && b.live[n].bound.value.ActionID() == id {
        assert n in tried.live && tried.live[n].bound == b.live[n].bound;
      }
      if n :| n in tried.live && tried.live[n].bound.Some? && tried.live[n].bound.value.ActionID() == id {
        assert n in b.live && tried.live[n].bound == b.live[n].bound;
      }
    }
    forall n ensures n in tried.live <==> n in b.live { }
    forall n | n in b.live ensures tried.live[n].bound == b.live[n].bound { }
  }

  // ---------- ending ----------

  // The journal holds a result under the identifier the reservation is bound to.
  ghost predicate Confirmed(b: Broker, nonce: nat)
    requires nonce in b.live
  {
    b.live[nonce].bound.Some? &&
    var id := b.live[nonce].bound.value.ActionID();
    id in b.journal.rows && b.journal.rows[id].terminal.Some?
  }

  ghost predicate StillUsed(b: Broker, nonce: nat)
    requires nonce in b.live
  {
    b.live[nonce].bound.Some? &&
    var id := b.live[nonce].bound.value.ActionID();
    id in b.journal.rows && id in b.journal.active
  }

  /** An end is accepted exactly for a tried reservation whose record nobody uses, in
      a journal that can be read; it removes that reservation alone and calls for
      recovery exactly when no result is retained. */
  lemma EndedExactly(b: Broker, nonce: nat)
    ensures var (b', v) := EndStep(b, nonce);
      && (v == Accepted <==> b.up && nonce in b.live && b.live[nonce].claimTried && Legible(b) && !StillUsed(b, nonce))
      && (v == Accepted ==>
            && b'.live == b.live - {nonce} && b'.journal == b.journal && b'.up && b'.policy == b.policy
            && (b'.recoveryRequired <==> b.recoveryRequired || !Confirmed(b, nonce)))
      && (v != Accepted ==>
         b'.live == b.live && b'.journal == b.journal && (b.recoveryRequired ==> b'.recoveryRequired))
  {
  }

  ghost predicate NoRestart(steps: seq<Timed>) {
    forall i :: 0 <= i < |steps| ==> !steps[i].step.Restart?
  }

  lemma StepKeepsLatch(b: Broker, alias: string -> string, s: Step, now: Time)
    requires b.recoveryRequired && !s.Restart?
    ensures Next(b, alias, s, now).recoveryRequired
  {
    hide SnapshotOk, Eligible, Loaded, Stray, Stored, Unstored, OwnUse, J.Next, Binds;
  }

  lemma {:induction false} LatchStays(b: Broker, alias: string -> string, steps: seq<Timed>)
    requires b.recoveryRequired && NoRestart(steps)
    ensures Run(b, alias, steps).recoveryRequired
    decreases |steps|
  {
    hide Next;
    if steps != [] {
      StepKeepsLatch(b, alias, steps[0].step, steps[0].now);
      LatchStays(Next(b, alias, steps[0].step, steps[0].now), alias, steps[1..]);
    }
  }

  /** After an accepted end without a retained result, no reservation is ever made
      again, in any continuation, until the broker is started anew. */
  lemma UnconfirmedStops(b: Broker, alias: string -> string, nonce: nat, now: Time, steps: seq<Timed>, other: nat,
                         open: bool, later: Time)
    requires nonce in b.live && !Confirmed(b, nonce) && NoRestart(steps)
    requires Apply(b, alias, End(nonce), now).1 == Accepted
    ensures var b' := Run(Next(b, alias, End(nonce), now), alias, steps);
      ReserveStep(b', other, open, later).1 == RecoveryRequired && ReserveStep(b', other, open, later).0.live == b'.live
  {
    hide Run, ReserveStep, EndStep, Confirmed, Clear;
    EndedExactly(b, nonce);
    LatchStays(Next(b, alias, End(nonce), now), alias, steps);
    LatchedRefuses(Run(Next(b, alias, End(nonce), now), alias, steps), other, open, later);
  }

  lemma LatchedRefuses(b: Broker, nonce: nat, open: bool, now: Time)
    requires b.recoveryRequired
    ensures ReserveStep(b, nonce, open, now).1 == RecoveryRequired && ReserveStep(b, nonce, open, now).0.live == b.live
  {
    hide Loaded, Stray, Eligible, Unstored;
  }

  /** After an accepted end with a retained result the next reservation is refused for
      recovery only if the broker is closed, its journal cannot be read, recovery was
      already called for, another record is nobody's, or the nonce is taken. */
  lemma ConfirmedGoesOn(b: Broker, alias: string -> string, nonce: nat, now: Time, other: nat, open: bool, later: Time)
    requires nonce in b.live && Confirmed(b, nonce) && Apply(b, alias, End(nonce), now).1 == Accepted
    ensures var b' := Next(b, alias, End(nonce), now);
      && b'.recoveryRequired == b.recoveryRequired
      && (ReserveStep(b', other, open, later).1 == RecoveryRequired ==>
            !open || b.recoveryRequired || !Accounted(b') || other in b'.live)
  {
    hide Confirmed, Accounted, EndStep, Eligible, Unstored, Stray, Loaded, Claimed;
    EndedExactly(b, nonce);
    var b' := Next(b, alias, End(nonce), now);
    ClearIs(b');
    EndStaysLegible(b, b');
  }

  lemma EndStaysLegible(b: Broker, b': Broker)
    requires Legible(b) && b'.journal == b.journal && b'.policy == b.policy
    ensures Legible(b')
  {
  }

  // ---------- a bound claim is granted ----------

  ghost predicate BoundSound(b: Broker) {
    forall n :: n in b.live && b.live[n].bound.Some? ==>
      Canonical(b.live[n].bound.value) && BoundTo(b.live[n].bound.value, b.journal.binding)
  }

  lemma BindingStays(s: J.Journal, t: J.Timed)
    ensures J.Next(s, t).binding == s.binding
  {
    hide J.AcquireBody, J.TransitionBody, J.PruneBody, J.Reloads, Canonical, BoundTo, J.MayTransition;
  }

  lemma BindsSound(b: Broker, alias: string -> string, nonce: nat, receipt: Receipt, m: Mapping, now: Time)
    requires nonce in b.live && Binds(b, alias, nonce, receipt, m, now) && Loaded(b)
    ensures Canonical(KeyOf(receipt, m)) && BoundTo(KeyOf(receipt, m), b.journal.binding)
  {
    hide Canonical, Identifier, Hex, Eligible;
    var i :| 0 <= i < |b.policy.mappings| && b.policy.mappings[i] == m;
    assert MappingAllowed(b.policy, b.policy.mappings[i]);
    MatchYieldsKey(b.policy, receipt, true, m);
  }

  lemma BindKeepsSound(b: Broker, alias: string -> string, nonce: nat, receipt: Receipt, open: bool, timely: bool,
                       now: Time)
    requires BoundSound(b)
    ensures BoundSound(BindStep(b, alias, nonce, receipt, open, timely, now).0)
  {
    hide Canonical, BoundTo, Binds, Stray, Loaded, KeyOf;
    if nonce in b.live {
      var tried := Tried(b, nonce);
      forall m | Binds(tried, alias, nonce, receipt, m, now) && Loaded(tried)
        ensures Canonical(KeyOf(receipt, m)) && BoundTo(KeyOf(receipt, m), b.journal.binding)
      {
        BindsSound(tried, alias, nonce, receipt, m, now);
      }
    }
  }

  lemma StepKeepsSound(b: Broker, alias: string -> string, s: Step, now: Time)
    requires BoundSound(b)
    ensures BoundSound(Next(b, alias, s, now))
  {
    hide Canonical, BoundTo, Eligible, Stray, Loaded, Stored, Unstored, OwnUse, J.Next, BindStep;
    if s.Bind? {
      BindKeepsSound(b, alias, s.nonce, s.receipt, s.open, s.timely, now);
    } else if s.Use? || s.Prune? {
      BindingStays(b.journal, s.step);
    }
  }

  lemma {:induction false} RunKeepsSound(b: Broker, alias: string -> string, steps: seq<Timed>)
    requires BoundSound(b)
    ensures BoundSound(Run(b, alias, steps))
    decreases |steps|
  {
    hide BoundSound, Next;
    if steps != [] {
      StepKeepsSound(b, alias, steps[0].step, steps[0].now);
      RunKeepsSound(Next(b, alias, steps[0].step, steps[0].now), alias, steps[1..]);
    }
  }

  // The moment and the claim's own record allow it, and what it reads can be read.
  ghost predicate OwnConditions(s: J.Journal, k: Key, now: Time) {
    var own := k.ActionID();
    && !s.failed && ParsesAsStamp(s.floor)
    && (forall id :: id in s.rows && (id == own || Related(s.rows[id].key, k)) ==> J.StampsParse(s.rows[id]))
    && k.request.created <= now < k.request.expires && own !in s.active
    && if own in s.rows then s.rows[own].key == k && s.rows[own].intent.None? && s.rows[own].terminal.None?
       else s.floor < k.request.expires
  }

  /** Whatever else the broker serves, under an accepted policy and a clock that never
      runs backwards, acquiring a bound claim is granted exactly when the claim's own
      record and the moment allow it: no other work stands in its way. */
  lemma BoundGranted(p: Document, alias: string -> string, history: seq<J.Timed>, steps: seq<Timed>, clock: Time,
                     nonce: nat, t: J.Timed)
    requires PolicyAllowed(p, alias) && NonDecreasing(steps, clock) && Clock(steps, clock) <= t.now
    requires t.step.Acquire? && t.fate == J.Committed
    requires var b := Run(First(p, history), alias, steps); nonce in b.live && b.live[nonce].bound == Some(t.step.key)
    ensures var s := Run(First(p, history), alias, steps).journal;
      J.Apply(s, t).1.Granted? <==> OwnConditions(s, t.step.key, t.now)
  {
    hide Run, Core, BoundApart, RowsApart, Rested, J.Apply, First, PolicyAllowed, OwnConditions, JG.Grantable;
    var b := Run(First(p, history), alias, steps);
    FirstHolds(p, history);
    RunKeeps(First(p, history), alias, steps, clock);
    ClockAdvances(b, Clock(steps, clock), t.now);
    FirstSound(p, history);
    RunKeepsSound(First(p, history), alias, steps);
    CoreJournal(b);
    if OwnConditions(b.journal, t.step.key, t.now) {
      BoundGrantable(b, alias, nonce, t);
    }
    GrantsOwn(b.journal, t);
  }

  lemma CoreJournal(b: Broker)
    requires Core(b)
    ensures JI.Inv(b.journal)
  {
  }

  lemma GrantsOwn(s: J.Journal, t: J.Timed)
    requires JI.Inv(s) && t.step.Acquire? && t.fate == J.Committed
    requires Canonical(t.step.key) && BoundTo(t.step.key, s.binding)
    requires OwnConditions(s, t.step.key, t.now) ==> JG.Grantable(s, t.step.key, t.now)
    ensures J.Apply(s, t).1.Granted? <==> OwnConditions(s, t.step.key, t.now)
  {
    hide JI.Inv, Canonical, BoundTo, J.StampsParse, Related, JG.HoldsOff, JG.InUse;
    if !s.failed {
      hide J.Apply;
      JG.GrantedExactly(s, t);
    }
  }

  lemma FirstSound(p: Document, history: seq<J.Timed>)
    ensures BoundSound(First(p, history))
  {
    hide Canonical, BoundTo, J.Run, J.ReopenStep;
  }

  lemma BoundGrantable(b: Broker, alias: string -> string, nonce: nat, t: J.Timed)
    requires Core(b) && Spaced(b, alias) && Rested(b, t.now) && t.step.Acquire?
    requires nonce in b.live && b.live[nonce].bound == Some(t.step.key) && OwnConditions(b.journal, t.step.key, t.now)
    ensures JG.Grantable(b.journal, t.step.key, t.now)
  {
    hide PolicyAllowed, AttemptsOwned, BoundApart, RowsApart, Rested, Conserved, Roomy, JI.Apart,
         JI.AttemptsHeld, JI.RowsValid, BoundTried, J.UnresolvedRelated, J.CoolingRelated, J.ActiveRelated,
         J.Permits, J.UnresolvedIDs, JI.Occupied, Related, J.StampsParse, JG.HoldsOff, JG.InUse;
    var k, s := t.step.key, b.journal;
    var id := k.ActionID();
    NotOccupied(s, id);
    OthersFit(b, nonce, id);
    JI.OccupiedIsPermitsAndUnresolved(s);
    JG.InUseCounts(s);
    if id !in s.rows { RoomFor(b, nonce, id); }
    ClearOfOthers(b, nonce, k, t.now);
    JG.RelatedClear(s, k, t.now);
  }
}
