/** What every broker step keeps: reservations are conserved, bound keys stay
    apart from each other and from everything undecided or still cooling. */
module BrokerInvariant {
  import opened ActionTypes
  import J = JournalModel
  import JI = JournalInvariant
  import opened Policy
  import opened PolicyBinding
  import opened BrokerModel

  // Every open attempt belongs to the live reservation whose nonce it carries.
  ghost predicate AttemptsOwned(b: Broker) {
    forall id :: id in b.journal.active ==>
      && b.journal.active[id].token in b.live
      && b.live[b.journal.active[id].token].bound == Some(b.journal.active[id].record.key)
      && b.journal.active[id].record.key.ActionID() == id
  }

  ghost predicate BoundTried(b: Broker) {
    forall n :: n in b.live && b.live[n].bound.Some? ==> b.live[n].claimTried
  }

  ghost predicate BoundApart(b: Broker) {
    forall n, m :: n in b.live && m in b.live && n != m && b.live[n].bound.Some? && b.live[m].bound.Some? ==>
      !Related(b.live[n].bound.value, b.live[m].bound.value)
  }

  ghost predicate Undecided(b: Broker, id: string) {
    id in b.journal.rows && (J.Unresolved(b.journal.rows[id]) || id in b.journal.active)
  }

  // Another key's undecided record never touches a bound key.
  ghost predicate RowsApart(b: Broker) {
    forall n, id ::
      n in b.live && b.live[n].bound.Some? && Undecided(b, id) && b.journal.rows[id].key != b.live[n].bound.value ==>
      !Related(b.journal.rows[id].key, b.live[n].bound.value)
  }

  // Nor does another key's recent effect.
  ghost predicate Rested(b: Broker, clock: Time) {
    forall n, id ::
      n in b.live && b.live[n].bound.Some? && id in b.journal.rows &&
      b.journal.rows[id].key != b.live[n].bound.value ==>
      !(Related(b.journal.rows[id].key, b.live[n].bound.value) && J.Cooling(b.journal.rows[id], clock))
  }

  ghost predicate Conserved(b: Broker) {
    |b.live| + |UnownedUnresolved(b)| <= MAX_LIVE
  }

  ghost predicate Roomy(b: Broker) {
    |b.journal.rows.Keys - Owned(b)| + |b.live| <= J.MAX_RECORDS
  }

  /** What holds under any clock and any policy document. */
  ghost predicate Core(b: Broker) {
    JI.Inv(b.journal) && AttemptsOwned(b) && BoundTried(b) && Conserved(b) && Roomy(b)
  }

  /** What an accepted policy adds, still under any clock. */
  ghost predicate Spaced(b: Broker, alias: string -> string) {
    PolicyAllowed(b.policy, alias) && BoundApart(b) && RowsApart(b)
  }

  // ---------- steps of the journal ----------

  // An effect on the journal that some live reservation, or a prune, causes.
  ghost predicate OwnEffect(b: Broker, e: JI.Effect) {
    match e
    case Grants(k, token, _) => token in b.live && b.live[token].bound == Some(k)
    case _ => true
  }

  ghost predicate After(b: Broker, e: JI.Effect, now: Time, b': Broker) {
    b' == b.(journal := b'.journal) && JI.Shows(b.journal, e, now, b'.journal) && OwnEffect(b, e)
  }

  lemma EffectOwnsAttempts(b: Broker, e: JI.Effect, now: Time, b': Broker)
    requires JI.AttemptsHeld(b.journal) && AttemptsOwned(b) && After(b, e, now, b')
    ensures AttemptsOwned(b')
  {
    hide Canonical, J.CoolingRelated, J.UnresolvedRelated, J.ActiveRelated, J.Permits, J.UnresolvedIDs,
         J.TerminalAllowed, J.PrunedRows;
  }

  lemma EffectKeepsApart(b: Broker, e: JI.Effect, now: Time, b': Broker)
    requires JI.AttemptsHeld(b.journal) && RowsApart(b) && BoundApart(b) && After(b, e, now, b')
    ensures RowsApart(b')
  {
    hide Canonical, J.CoolingRelated, J.UnresolvedRelated, J.ActiveRelated, J.Permits, J.UnresolvedIDs,
         J.TerminalAllowed, Related;
    forall n, id | n in b'.live && b'.live[n].bound.Some? && Undecided(b', id) &&
      b'.journal.rows[id].key != b'.live[n].bound.value
      ensures !Related(b'.journal.rows[id].key, b'.live[n].bound.value)
    {
      if e.Grants? && id == e.key.ActionID() {
        assert n != e.token;
      } else {
        assert Undecided(b, id) && b'.journal.rows[id].key == b.journal.rows[id].key;
      }
    }
  }

  lemma EffectKeepsRested(b: Broker, e: JI.Effect, now: Time, b': Broker, clock: Time)
    requires JI.AttemptsHeld(b.journal) && RowsApart(b) && Rested(b, clock) && After(b, e, now, b') && clock <= now
    ensures Rested(b', now)
  {
    hide Canonical, J.CoolingRelated, J.UnresolvedRelated, J.ActiveRelated, J.Permits, J.UnresolvedIDs,
         J.TerminalAllowed, Related;
    forall n, id | n in b'.live && b'.live[n].bound.Some? && id in b'.journal.rows &&
      b'.journal.rows[id].key != b'.live[n].bound.value
      ensures !(Related(b'.journal.rows[id].key, b'.live[n].bound.value) && J.Cooling(b'.journal.rows[id], now))
    {
      if e.Moves? && id == e.id {
        assert Undecided(b, id);
      }
    }
  }

  lemma EffectReach(s: J.Journal, e: JI.Effect, now: Time, s': J.Journal)
    requires JI.Shows(s, e, now, s')
    ensures J.UnresolvedIDs(s'.rows) <= J.UnresolvedIDs(s.rows) + s.active.Keys
    ensures s'.rows.Keys <= s.rows.Keys + (if e.Grants? then {e.key.ActionID()} else {})
  {
    hide Canonical, J.CoolingRelated, J.UnresolvedRelated, J.ActiveRelated, J.Permits, J.TerminalAllowed;
  }

  lemma EffectConserves(b: Broker, e: JI.Effect, now: Time, b': Broker)
    requires AttemptsOwned(b) && Conserved(b) && Roomy(b) && After(b, e, now, b')
    ensures Conserved(b') && Roomy(b')
  {
    hide JI.Shows, J.UnresolvedIDs;
    assert Owned(b') == Owned(b);
    EffectReach(b.journal, e, now, b'.journal);
    if e.Grants? { OwnsBound(b, e.token); }
    forall id | id in b.journal.active ensures id in Owned(b) { OwnsBound(b, b.journal.active[id].token); }
    JI.SubsetSize(UnownedUnresolved(b'), UnownedUnresolved(b));
    JI.SubsetSize(b'.journal.rows.Keys - Owned(b'), b.journal.rows.Keys - Owned(b));
  }

  lemma OwnsBound(b: Broker, n: nat)
    requires n in b.live && b.live[n].bound.Some?
    ensures b.live[n].bound.value.ActionID() in Owned(b)
  {
  }

  lemma EffectCore(b: Broker, e: JI.Effect, now: Time, b': Broker)
    requires Core(b) && After(b, e, now, b')
    ensures Core(b')
  {
    hide JI.Shows, JI.RowsValid, JI.Apart, JI.Occupied, JI.AttemptsHeld, AttemptsOwned, Conserved, Roomy,
         OwnEffect;
    JI.EffectKeeps(b.journal, e, now, b'.journal);
    EffectOwnsAttempts(b, e, now, b');
    EffectConserves(b, e, now, b');
  }

  // The step of the journal, if any, that a broker step takes.
  ghost predicate Touches(b: Broker, s: Step, now: Time) {
    || (s.Use? && OwnUse(b, s.nonce, s.step) && s.step.now == now)
    || (s.Prune? && s.step.step.Prune? && s.step.now == now)
  }

  lemma TouchShows(b: Broker, alias: string -> string, s: Step, now: Time) returns (e: JI.Effect)
    requires Core(b) && Touches(b, s, now)
    ensures After(b, e, now, Next(b, alias, s, now))
  {
    hide J.Next, JI.Shows, JI.RowsValid, JI.Apart, JI.Occupied, JI.AttemptsHeld, AttemptsOwned, Conserved,
         Roomy;
    e := JI.StepShows(b.journal, s.step);
  }

  // ---------- steps that bind nothing new ----------

  // Only unbound reservations come, any reservation whose attempt is closed may go.
  ghost predicate Rebooked(b: Broker, b': Broker) {
    && b'.journal == b.journal && b'.policy == b.policy
    && (forall n :: n in b'.live && b'.live[n].bound.Some? ==>
          n in b.live && b.live[n].bound == b'.live[n].bound && (b.live[n].claimTried ==> b'.live[n].claimTried))
    && (forall id :: id in b.journal.active && b.journal.active[id].token in b.live ==>
          b.journal.active[id].token in b'.live &&
            b'.live[b.journal.active[id].token].bound == b.live[b.journal.active[id].token].bound)
  }

  lemma RebookedMarks(b: Broker, b': Broker)
    requires Rebooked(b, b') && AttemptsOwned(b) && BoundTried(b)
    ensures AttemptsOwned(b') && BoundTried(b')
  {
  }

  lemma RebookedApart(b: Broker, b': Broker)
    requires Rebooked(b, b') && BoundApart(b) && RowsApart(b)
    ensures BoundApart(b') && RowsApart(b')
  {
    hide Related, J.Unresolved;
    assert forall id :: Undecided(b', id) == Undecided(b, id);
  }

  lemma RebookedRests(b: Broker, b': Broker, clock: Time)
    requires Rebooked(b, b') && Rested(b, clock)
    ensures Rested(b', clock)
  {
    hide Related, J.Cooling;
  }

  lemma Singleton(s: set<nat>, n: nat)
    requires |s| == 1 && n in s
    ensures s == {n}
  {
    assert |s - {n}| == 0;
  }

  // With at most one live reservation, at most one record is both stored and owned.
  lemma RoomFromCount(b: Broker)
    requires |b.live| <= 1 && |b.journal.rows| + |Unstored(b)| < J.MAX_RECORDS
    ensures |b.journal.rows.Keys - Owned(b)| + |b.live| < J.MAX_RECORDS
  {
    if |b.live| == 0 {
      assert b.live == map[];
      assert Owned(b) == {};
    } else {
      var n :| n in b.live;
      Singleton(b.live.Keys, n);
      if Stored(b, b.live[n]) {
        var id := b.live[n].bound.value.ActionID();
        OwnsBound(b, n);
        JI.SubsetSize(b.journal.rows.Keys - Owned(b), b.journal.rows.Keys - {id});
      } else {
        assert Unstored(b) == {n};
        JI.SubsetSize(b.journal.rows.Keys - Owned(b), b.journal.rows.Keys);
      }
    }
  }

  lemma NoStrayNoUnowned(b: Broker)
    requires !Stray(b)
    ensures UnownedUnresolved(b) == {}
  {
  }

  lemma BookCounts(b: Broker, nonce: nat, targets: set<string>, b': Broker)
    requires nonce !in b.live && |b.live| < MAX_LIVE && !Stray(b) && |b.journal.rows| + |Unstored(b)| < J.MAX_RECORDS
    requires b' == b.(live := b.live[nonce := Reservation(targets, None, false)])
    ensures Conserved(b') && Roomy(b')
  {
    hide Stray, UnownedUnresolved, Unstored, Owned, Rebooked;
    BookRebooks(b, nonce, targets, b');
    SameOwned(b, b');
    assert b'.live.Keys == b.live.Keys + {nonce};
    assert |b'.live| == |b'.live.Keys| && |b.live| == |b.live.Keys|;
    RoomFromCount(b);
    NoStrayNoUnowned(b);
  }

  lemma BookRebooks(b: Broker, nonce: nat, targets: set<string>, b': Broker)
    requires nonce !in b.live && b' == b.(live := b.live[nonce := Reservation(targets, None, false)])
    ensures Rebooked(b, b')
  {
  }

  lemma SameOwned(b: Broker, b': Broker)
    requires b'.journal == b.journal
    requires forall n :: n in b.live && b.live[n].bound.Some? ==> n in b'.live && b'.live[n].bound == b.live[n].bound
    requires forall n :: n in b'.live && b'.live[n].bound.Some? ==> n in b.live && b'.live[n].bound == b.live[n].bound
    ensures Owned(b') == Owned(b) && UnownedUnresolved(b') == UnownedUnresolved(b)
  {
  }

  ghost function LeftBehind(r: Reservation): set<string> {
    if r.bound.Some? then {r.bound.value.ActionID()} else {}
  }

  lemma OwnedAfterDrop(b: Broker, nonce: nat, b': Broker)
    requires nonce in b.live && b'.live == b.live - {nonce}
    ensures Owned(b) <= Owned(b') + LeftBehind(b.live[nonce]) && |b'.live| == |b.live| - 1
  {
    assert b'.live.Keys == b.live.Keys - {nonce};
    forall id | id in Owned(b) && id !in LeftBehind(b.live[nonce]) ensures id in Owned(b') {
      var n :| n in b.live && b.live[n].bound.Some? && b.live[n].bound.value.ActionID() == id;
      assert n in b'.live;
    }
  }

  // Dropping one reservation frees a place for the one record it may leave behind.
  lemma DropCounts(b: Broker, nonce: nat, b': Broker)
    requires nonce in b.live && b'.journal == b.journal && b'.live == b.live - {nonce} && Conserved(b) && Roomy(b)
    ensures Conserved(b') && Roomy(b')
  {
    hide Owned, J.UnresolvedIDs;
    OwnedAfterDrop(b, nonce, b');
    JI.SubsetSize(UnownedUnresolved(b'), UnownedUnresolved(b) + LeftBehind(b.live[nonce]));
    JI.SubsetSize(b'.journal.rows.Keys - Owned(b'), (b.journal.rows.Keys - Owned(b)) + LeftBehind(b.live[nonce]));
  }

  lemma DropRebooks(b: Broker, nonce: nat, b': Broker)
    requires AttemptsOwned(b) && BoundTried(b) && nonce in b.live
    requires b' == b.(live := b.live - {nonce}, recoveryRequired := b'.recoveryRequired)
    requires b.live[nonce].bound.Some? ==> b.live[nonce].bound.value.ActionID() !in b.journal.active
    ensures Rebooked(b, b')
  {
    forall id | id in b.journal.active ensures b.journal.active[id].token != nonce {
      assert b.live[b.journal.active[id].token].bound == Some(b.journal.active[id].record.key);
    }
  }

  // The reservations keep their bound keys; only marks and the latch change.
  lemma SameCore(b: Broker, b': Broker)
    requires Core(b) && b'.live.Keys == b.live.Keys && Rebooked(b, b') && b'.journal == b.journal
    requires forall n :: n in b.live ==> b'.live[n].bound == b.live[n].bound
    ensures Core(b')
  {
    hide JI.Inv, AttemptsOwned, BoundTried, Owned, UnownedUnresolved, Rebooked;
    RebookedMarks(b, b');
    SameOwned(b, b');
    assert |b'.live| == |b'.live.Keys| && |b.live| == |b.live.Keys|;
  }

  lemma LatchRebooks(b: Broker, b': Broker)
    requires b' == b.(recoveryRequired := b'.recoveryRequired)
    ensures Rebooked(b, b')
  {
  }

  lemma DropCore(b: Broker, nonce: nat, b': Broker)
    requires Core(b) && nonce in b.live
    requires b' == b.(live := b.live - {nonce}, recoveryRequired := b'.recoveryRequired)
    requires b.live[nonce].bound.Some? ==> b.live[nonce].bound.value.ActionID() !in b.journal.active
    ensures Core(b') && Rebooked(b, b')
  {
    hide JI.Inv, AttemptsOwned, BoundTried, Conserved, Roomy, Rebooked;
    DropCounts(b, nonce, b');
    DropRebooks(b, nonce, b');
    RebookedMarks(b, b');
  }

  lemma ReserveCore(b: Broker, nonce: nat, open: bool, now: Time)
    requires Core(b)
    ensures var b' := ReserveStep(b, nonce, open, now).0; Core(b') && Rebooked(b, b')
  {
    hide JI.Inv, AttemptsOwned, BoundTried, Conserved, Roomy, Rebooked, Eligible, Stray, Loaded, Unstored;
    var b' := ReserveStep(b, nonce, open, now).0;
    if b'.live != b.live {
      var targets := Eligible(b, None, now);
      BookRebooks(b, nonce, targets, b');
      RebookedMarks(b, b');
      BookCounts(b, nonce, targets, b');
    } else {
      LatchRebooks(b, b');
      SameCore(b, b');
    }
  }

  lemma ReleaseCore(b: Broker, nonce: nat, timely: bool)
    requires Core(b)
    ensures var b' := BrokerModel.ReleaseStep(b, nonce, timely).0; Core(b') && Rebooked(b, b')
    ensures var b' := AbandonStep(b, nonce).0; Core(b') && Rebooked(b, b')
  {
    hide JI.Inv, AttemptsOwned, Conserved, Roomy, Rebooked;
    LatchRebooks(b, b);
    if nonce in b.live && b.live[nonce].bound.None? {
      DropCore(b, nonce, b.(live := b.live - {nonce}));
      DropCore(b, nonce, b.(live := b.live - {nonce}, recoveryRequired := true));
    }
  }

  lemma EndCore(b: Broker, nonce: nat)
    requires Core(b)
    ensures var b' := EndStep(b, nonce).0; Core(b') && Rebooked(b, b')
  {
    hide AttemptsOwned, BoundTried, Conserved, Roomy, Rebooked, Loaded, JI.RowsValid, JI.Apart, JI.Occupied;
    var b' := EndStep(b, nonce).0;
    if b'.live != b.live {
      DropCore(b, nonce, b');
    } else {
      LatchRebooks(b, b');
      SameCore(b, b');
    }
  }

  // ---------- binding ----------

  /** Under an accepted policy, an eligible target is blocked through none of its
      mappings: nothing live, undecided or cooling touches the key to be bound. */
  lemma EligibleKeyIsClear(b: Broker, alias: string -> string, nonce: nat, receipt: Receipt, m: Mapping, now: Time)
    requires PolicyAllowed(b.policy, alias) && nonce in b.live && Binds(b, alias, nonce, receipt, m, now)
    ensures forall k: Key :: PhysicalMatch(k, m) <==> Related(k, KeyOf(receipt, m))
    ensures !Blocked(b, Some(nonce), m, now)
  {
    hide PolicyAllowed, ReceiptAllowed;
    var other :| other in b.policy.mappings && other.revision in b.policy.current &&
      !Blocked(b, Some(nonce), other, now)
      && other.targetID == m.targetID;
    CurrentTargetsApart(b.policy, alias, m, other);
    assert forall k: Key :: PhysicalMatch(k, m) <==> PhysicalMatch(k, other);
  }

  lemma BindApart(b: Broker, nonce: nat, k: Key, b': Broker)
    requires nonce in b.live && b.live[nonce].bound.None? && BoundApart(b)
    requires b' == b.(live := b.live[nonce := b.live[nonce].(bound := Some(k))])
    requires forall n :: n in b.live && n != nonce && b.live[n].bound.Some? ==> !Related(b.live[n].bound.value, k)
    ensures BoundApart(b')
  {
  }

  lemma BindRowsApart(b: Broker, nonce: nat, k: Key, b': Broker)
    requires nonce in b.live && b.live[nonce].bound.None? && RowsApart(b) && AttemptsOwned(b) &&
      JI.AttemptsHeld(b.journal)
    requires b' == b.(live := b.live[nonce := b.live[nonce].(bound := Some(k))])
    requires forall n :: n in b.live && n != nonce && b.live[n].bound.Some? ==> !Related(b.live[n].bound.value, k)
    requires forall id ::
      id in b.journal.rows && J.Unresolved(b.journal.rows[id]) ==> !Related(b.journal.rows[id].key, k)
    ensures RowsApart(b')
  {
    hide Related, J.Unresolved;
    assert forall id :: Undecided(b', id) == Undecided(b, id);
    forall id | Undecided(b', id) && id in b.journal.active ensures !Related(b'.journal.rows[id].key, k) {
      assert b.live[b.journal.active[id].token].bound == Some(b.journal.active[id].record.key);
    }
  }

  lemma BindRested(b: Broker, nonce: nat, k: Key, b': Broker, now: Time)
    requires nonce in b.live && b.live[nonce].bound.None? && Rested(b, now)
    requires b' == b.(live := b.live[nonce := b.live[nonce].(bound := Some(k))])
    requires forall id ::
      id in b.journal.rows && J.Cooling(b.journal.rows[id], now) ==> !Related(b.journal.rows[id].key, k)
    ensures Rested(b', now)
  {
    hide Related, J.Cooling;
  }

  lemma BindOwns(b: Broker, nonce: nat, k: Key, b': Broker)
    requires nonce in b.live && b.live[nonce].bound.None?
    requires b' == b.(live := b.live[nonce := b.live[nonce].(bound := Some(k))])
    ensures Owned(b) <= Owned(b')
  {
    forall id | id in Owned(b) ensures id in Owned(b') {
      var n :| n in b.live && b.live[n].bound.Some? && b.live[n].bound.value.ActionID() == id;
      assert b'.live[n] == b.live[n];
    }
  }

  lemma BindCounts(b: Broker, nonce: nat, k: Key, b': Broker)
    requires nonce in b.live && b.live[nonce].bound.None? && Conserved(b) && Roomy(b)
    requires b' == b.(live := b.live[nonce := b.live[nonce].(bound := Some(k))])
    ensures Conserved(b') && Roomy(b')
  {
    hide J.UnresolvedIDs, Owned;
    assert b'.live.Keys == b.live.Keys;
    BindOwns(b, nonce, k, b');
    JI.SubsetSize(UnownedUnresolved(b'), UnownedUnresolved(b));
    JI.SubsetSize(b'.journal.rows.Keys - Owned(b'), b.journal.rows.Keys - Owned(b));
  }

  lemma BindMarks(b: Broker, nonce: nat, k: Key, b': Broker)
    requires nonce in b.live && b.live[nonce].bound.None? && AttemptsOwned(b) && BoundTried(b) &&
      b.live[nonce].claimTried
    requires b' == b.(live := b.live[nonce := b.live[nonce].(bound := Some(k))])
    ensures AttemptsOwned(b') && BoundTried(b')
  {
  }

  ghost function Tried(b: Broker, nonce: nat): Broker
    requires nonce in b.live
  {
    b.(live := b.live[nonce := b.live[nonce].(claimTried := true)])
  }

  ghost function Bound(b: Broker, nonce: nat, k: Key): Broker
    requires nonce in b.live
  {
    b.(live := b.live[nonce := b.live[nonce].(bound := Some(k))])
  }

  // A tried claim either leaves only its mark, or binds the key of one mapping.
  ghost predicate TriesOrBinds(b: Broker, alias: string -> string, nonce: nat, receipt: Receipt, now: Time,
                               b': Broker) {
    || b' == b
    || (&& nonce in b.live && b.live[nonce].bound.None?
        && (|| b' == Tried(b, nonce).(recoveryRequired := b'.recoveryRequired)
            || exists m :: Binds(Tried(b, nonce), alias, nonce, receipt, m, now)
                 && b' == Bound(Tried(b, nonce), nonce, KeyOf(receipt, m))))
  }

  lemma BindShape(b: Broker, alias: string -> string, nonce: nat, receipt: Receipt, open: bool, timely: bool, now: Time)
    requires BoundTried(b)
    ensures TriesOrBinds(b, alias, nonce, receipt, now, BindStep(b, alias, nonce, receipt, open, timely, now).0)
  {
    hide Binds, Stray, Loaded, KeyOf;
  }

  lemma TriedRebooks(b: Broker, nonce: nat, b': Broker)
    requires nonce in b.live && b' == Tried(b, nonce).(recoveryRequired := b'.recoveryRequired)
    ensures Rebooked(b, b') && b'.live.Keys == b.live.Keys && forall n ::
      n in b.live ==> b'.live[n].bound == b.live[n].bound
  {
    assert b'.live.Keys == b.live.Keys;
  }

  lemma BoundCore(b: Broker, nonce: nat, k: Key)
    requires Core(b) && nonce in b.live && b.live[nonce].bound.None? && b.live[nonce].claimTried
    ensures Core(Bound(b, nonce, k))
  {
    hide JI.Inv, AttemptsOwned, BoundTried, Conserved, Roomy;
    BindCounts(b, nonce, k, Bound(b, nonce, k));
    BindMarks(b, nonce, k, Bound(b, nonce, k));
  }

  lemma BindCore(b: Broker, alias: string -> string, nonce: nat, receipt: Receipt, now: Time, b': Broker)
    requires Core(b) && TriesOrBinds(b, alias, nonce, receipt, now, b')
    ensures Core(b')
  {
    hide Core, Binds, KeyOf, Rebooked;
    if b' != b {
      TriedRebooks(b, nonce, Tried(b, nonce));
      SameCore(b, Tried(b, nonce));
      if b' == Tried(b, nonce).(recoveryRequired := b'.recoveryRequired) {
        TriedRebooks(b, nonce, b');
        SameCore(b, b');
      } else {
        var m :| Binds(Tried(b, nonce), alias, nonce, receipt, m, now) &&
          b' == Bound(Tried(b, nonce), nonce, KeyOf(receipt, m));
        BoundCore(Tried(b, nonce), nonce, KeyOf(receipt, m));
      }
    }
  }

  lemma BoundSpaced(b: Broker, alias: string -> string, nonce: nat, receipt: Receipt, m: Mapping, now: Time)
    requires Core(b) && Spaced(b, alias) && nonce in b.live && b.live[nonce].bound.None?
    requires Binds(b, alias, nonce, receipt, m, now)
    ensures Spaced(Bound(b, nonce, KeyOf(receipt, m)), alias)
  {
    hide PolicyAllowed, RowsApart, BoundApart, BoundTried, Conserved, Roomy, AttemptsOwned, Binds, KeyOf,
         PhysicalMatch, Related, JI.RowsValid, JI.Apart, JI.Occupied, JI.AttemptsHeld, J.Unresolved,
         J.Cooling;
    var k, b' := KeyOf(receipt, m), Bound(b, nonce, KeyOf(receipt, m));
    EligibleKeyIsClear(b, alias, nonce, receipt, m, now);
    BindApart(b, nonce, k, b');
    BindRowsApart(b, nonce, k, b');
  }

  lemma BoundRests(b: Broker, alias: string -> string, nonce: nat, receipt: Receipt, m: Mapping, now: Time)
    requires PolicyAllowed(b.policy, alias) && Rested(b, now) && nonce in b.live && b.live[nonce].bound.None?
    requires Binds(b, alias, nonce, receipt, m, now)
    ensures Rested(Bound(b, nonce, KeyOf(receipt, m)), now)
  {
    hide PolicyAllowed, Rested, Binds, KeyOf, PhysicalMatch, Related, J.Unresolved, J.Cooling;
    EligibleKeyIsClear(b, alias, nonce, receipt, m, now);
    BindRested(b, nonce, KeyOf(receipt, m), Bound(b, nonce, KeyOf(receipt, m)), now);
  }

  lemma BindSpaced(b: Broker, alias: string -> string, nonce: nat, receipt: Receipt, now: Time, b': Broker)
    requires Core(b) && Spaced(b, alias) && TriesOrBinds(b, alias, nonce, receipt, now, b')
    ensures Spaced(b', alias)
  {
    hide Core, Binds, KeyOf, Rebooked, PolicyAllowed, BoundApart, RowsApart;
    if b' != b {
      var tried := Tried(b, nonce);
      TriedRebooks(b, nonce, tried);
      SameCore(b, tried);
      RebookedApart(b, tried);
      if b' == tried.(recoveryRequired := b'.recoveryRequired) {
        TriedRebooks(b, nonce, b');
        RebookedApart(b, b');
      } else {
        var m :| Binds(tried, alias, nonce, receipt, m, now) && b' == Bound(tried, nonce, KeyOf(receipt, m));
        BoundSpaced(tried, alias, nonce, receipt, m, now);
      }
    }
  }

  lemma BindRests(b: Broker, alias: string -> string, nonce: nat, receipt: Receipt, now: Time, b': Broker)
    requires PolicyAllowed(b.policy, alias) && Rested(b, now) && TriesOrBinds(b, alias, nonce, receipt, now, b')
    ensures Rested(b', now)
  {
    hide Binds, KeyOf, Rebooked, PolicyAllowed, Rested;
    if b' != b {
      var tried := Tried(b, nonce);
      TriedRebooks(b, nonce, tried);
      RebookedRests(b, tried, now);
      if b' == tried.(recoveryRequired := b'.recoveryRequired) {
        TriedRebooks(b, nonce, b');
        RebookedRests(b, b', now);
      } else {
        var m :| Binds(tried, alias, nonce, receipt, m, now) && b' == Bound(tried, nonce, KeyOf(receipt, m));
        BoundRests(tried, alias, nonce, receipt, m, now);
      }
    }
  }

  // ---------- restarting ----------

  // A broker nobody talks to yet.
  lemma IdleCounts(b: Broker)
    requires |JI.Occupied(b.journal)| <= MAX_LIVE && |b.journal.rows| <= J.MAX_RECORDS && b.live == map[]
    ensures Conserved(b) && Roomy(b)
  {
    assert Owned(b) == {};
    JI.SubsetSize(UnownedUnresolved(b), JI.Occupied(b.journal));
    assert b.journal.rows.Keys - Owned(b) == b.journal.rows.Keys;
  }

  lemma IdleHolds(b: Broker)
    requires JI.Inv(b.journal) && b.live == map[] && b.journal.active == map[]
    ensures Core(b) && BoundApart(b) && RowsApart(b) && forall clock :: Rested(b, clock)
  {
    hide JI.RowsValid, JI.Apart, JI.AttemptsHeld, JI.Occupied, Conserved, Roomy;
    IdleCounts(b);
  }

  lemma RestartHolds(b: Broker)
    requires JI.Inv(b.journal)
    ensures var b' := StartedAgain(b);
      b'.policy == b.policy && Core(b') && BoundApart(b') && RowsApart(b') && forall clock :: Rested(b', clock)
  {
    hide J.Reloads, SnapshotOk, JI.Inv, Core, RowsApart, Rested, BoundApart;
    ReopenKeeps(b.journal);
    IdleHolds(StartedAgain(b));
  }

  lemma ReopenKeeps(s: J.Journal)
    requires JI.Inv(s)
    ensures JI.Inv(J.ReopenStep(J.Closed(s)).0)
  {
    hide JI.Inv;
    var shut := J.Timed(J.Shut, 0, J.Committed, true);
    JI.StepKeeps(s, shut);
    JI.StepKeeps(J.Next(s, shut), shut.(step := J.Reopen));
  }

  // ---------- every step ----------

  // The steps that only book, drop or latch.
  ghost predicate Books(s: Step) {
    s.Reserve? || s.ReleaseUnclaimed? || s.Abandon? || s.Latch? || s.End?
  }

  lemma BooksCore(b: Broker, alias: string -> string, s: Step, now: Time)
    requires Core(b) && Books(s)
    ensures Core(Next(b, alias, s, now)) && Rebooked(b, Next(b, alias, s, now))
  {
    hide Core, ReserveStep, BrokerModel.ReleaseStep, AbandonStep, EndStep, Rebooked;
    match s
    case Reserve(nonce, open) => ReserveCore(b, nonce, open, now);
    case ReleaseUnclaimed(nonce, timely) => ReleaseCore(b, nonce, timely);
    case Abandon(nonce) => ReleaseCore(b, nonce, true);
    case End(nonce) => EndCore(b, nonce);
    case Latch =>
      var b' := b.(recoveryRequired := true);
      LatchRebooks(b, b');
      SameCore(b, b');
  }

  lemma CoreTried(b: Broker)
    requires Core(b)
    ensures BoundTried(b) && JI.Inv(b.journal)
  {
  }

  lemma Untouched(b: Broker, alias: string -> string, s: Step, now: Time)
    requires (s.Use? || s.Prune?) && !Touches(b, s, now)
    ensures Next(b, alias, s, now) == b
  {
    hide OwnUse, J.Next;
  }

  /** Every broker step keeps the core, whatever the clock reads and the policy says. */
  lemma StepKeepsCore(b: Broker, alias: string -> string, s: Step, now: Time)
    requires Core(b)
    ensures Core(Next(b, alias, s, now))
  {
    hide Core, ReserveStep, BindStep, BrokerModel.ReleaseStep, AbandonStep, EndStep, StartedAgain, OwnUse,
         J.Next, Touches, TriesOrBinds, After;
    CoreTried(b);
    if Books(s) {
      BooksCore(b, alias, s, now);
    } else if s.Bind? {
      BindShape(b, alias, s.nonce, s.receipt, s.open, s.timely, now);
      BindCore(b, alias, s.nonce, s.receipt, now, Next(b, alias, s, now));
    } else if s.Restart? {
      RestartHolds(b);
    } else if Touches(b, s, now) {
      var e := TouchShows(b, alias, s, now);
      EffectCore(b, e, now, Next(b, alias, s, now));
    } else {
      Untouched(b, alias, s, now);
    }
  }

  /** Under an accepted policy every step also keeps bound keys apart, whatever the clock reads. */
  lemma StepKeepsSpaced(b: Broker, alias: string -> string, s: Step, now: Time)
    requires Core(b) && Spaced(b, alias)
    ensures Spaced(Next(b, alias, s, now), alias)
  {
    hide ReserveStep, BindStep, BrokerModel.ReleaseStep, AbandonStep, EndStep, StartedAgain, OwnUse, J.Next,
         Touches, TriesOrBinds, PolicyAllowed, BoundApart, RowsApart, Rebooked, AttemptsOwned, BoundTried,
         Conserved, Roomy, JI.RowsValid, JI.Apart, JI.Occupied, JI.AttemptsHeld, JI.Shows;
    var b' := Next(b, alias, s, now);
    if Books(s) {
      BooksCore(b, alias, s, now);
      RebookedApart(b, b');
      RebookedPolicy(b, b');
    } else if s.Bind? {
      BindShape(b, alias, s.nonce, s.receipt, s.open, s.timely, now);
      BindSpaced(b, alias, s.nonce, s.receipt, now, b');
    } else if s.Restart? {
      RestartHolds(b);
    } else if Touches(b, s, now) {
      var e := TouchShows(b, alias, s, now);
      EffectKeepsApart(b, e, now, b');
      SameBound(b, b');
    } else {
      Untouched(b, alias, s, now);
    }
  }

  lemma RebookedPolicy(b: Broker, b': Broker)
    requires Rebooked(b, b')
    ensures b'.policy == b.policy
  {
  }

  lemma SameBound(b: Broker, b': Broker)
    requires BoundApart(b) && b'.live == b.live
    ensures BoundApart(b')
  {
  }

  /** With a clock that does not run backwards at this step, what is bound also
      stays clear of every recent effect. */
  lemma StepKeepsRested(b: Broker, alias: string -> string, s: Step, clock: Time, now: Time)
    requires Core(b) && Spaced(b, alias) && Rested(b, clock) && clock <= now
    ensures Rested(Next(b, alias, s, now), now)
  {
    hide ReserveStep, BindStep, BrokerModel.ReleaseStep, AbandonStep, EndStep, StartedAgain, OwnUse, J.Next,
         Touches, TriesOrBinds, PolicyAllowed, BoundApart, RowsApart, Rested, Rebooked, AttemptsOwned,
         BoundTried, Conserved, Roomy, JI.RowsValid, JI.Apart, JI.Occupied, JI.AttemptsHeld, JI.Shows;
    var b' := Next(b, alias, s, now);
    ClockAdvances(b, clock, now);
    if Books(s) {
      BooksCore(b, alias, s, now);
      RebookedRests(b, b', now);
    } else if s.Bind? {
      BindShape(b, alias, s.nonce, s.receipt, s.open, s.timely, now);
      BindRests(b, alias, s.nonce, s.receipt, now, b');
    } else if s.Restart? {
      RestartHolds(b);
    } else if Touches(b, s, now) {
      var e := TouchShows(b, alias, s, now);
      EffectKeepsRested(b, e, now, b', clock);
    } else {
      Untouched(b, alias, s, now);
    }
  }

  lemma ClockAdvances(b: Broker, clock: Time, now: Time)
    requires Rested(b, clock) && clock <= now
    ensures Rested(b, now)
  {
    hide Related;
  }
}
