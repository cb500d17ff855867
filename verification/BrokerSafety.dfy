/** Whole broker runs: reservations are conserved, a bound reservation is never
    refused by the store, and an unowned uncertain record stops the broker. */
module BrokerSafety {
  import opened ActionTypes
  import J = JournalModel
  import JI = JournalInvariant
  import JS = JournalSafety
  import opened Policy
  import opened PolicyBinding
  import opened BrokerModel
  import opened BrokerInvariant

  datatype Timed = Timed(step: Step, now: Time)

  ghost function Run(b: Broker, alias: string -> string, steps: seq<Timed>): Broker
    decreases |steps|
  {
    if steps == [] then b else Run(Next(b, alias, steps[0].step, steps[0].now), alias, steps[1..])
  }

  ghost predicate NonDecreasing(steps: seq<Timed>, from: Time) {
    && (forall i :: 0 <= i < |steps| ==> from <= steps[i].now)
    && (forall i, j :: 0 <= i < j < |steps| ==> steps[i].now <= steps[j].now)
  }

  function Clock(steps: seq<Timed>, from: Time): Time {
    if steps == [] then from else steps[|steps| - 1].now
  }

  /** Over every run the core holds under any clock; an accepted policy keeps
      bound keys apart under any clock too; and with a clock that never runs
      backwards they also stay clear of every recent effect. */
  lemma {:induction false} RunKeeps(b: Broker, alias: string -> string, steps: seq<Timed>, clock: Time)
    requires Core(b)
    ensures Core(Run(b, alias, steps))
    ensures Spaced(b, alias) ==> Spaced(Run(b, alias, steps), alias)
    ensures Spaced(b, alias) && Rested(b, clock) && NonDecreasing(steps, clock) ==>
      Rested(Run(b, alias, steps), Clock(steps, clock))
    decreases |steps|
  {
    hide Core, Spaced, Rested, Next;
    if steps != [] {
      var b', now := Next(b, alias, steps[0].step, steps[0].now), steps[0].now;
      StepKeepsCore(b, alias, steps[0].step, now);
      if Spaced(b, alias) {
        StepKeepsSpaced(b, alias, steps[0].step, now);
        if Rested(b, clock) && clock <= now {
          StepKeepsRested(b, alias, steps[0].step, clock, now);
        }
      }
      RunKeeps(b', alias, steps[1..], now);
      assert Clock(steps, clock) == Clock(steps[1..], now);
    }
  }

  // ---------- starting ----------

  /** A broker started with this policy on a store that any earlier use has left. */
  ghost function First(p: Document, history: seq<J.Timed>): Broker {
    var binding := ActionTypes.Binding(p.serverID, p.connectorID, p.ownerID);
    StartedAgain(Broker(p, J.Run(J.Provisioned(binding), history), map[], false, false))
  }

  lemma FirstHolds(p: Document, history: seq<J.Timed>)
    ensures var b := First(p, history);
      b.policy == p && Core(b) && BoundApart(b) && RowsApart(b) && forall clock :: Rested(b, clock)
  {
    hide JI.Inv, StartedAgain, Core, BoundApart, RowsApart, Rested;
    var binding := ActionTypes.Binding(p.serverID, p.connectorID, p.ownerID);
    JI.ProvisionedHolds(binding);
    JI.RunKeeps(J.Provisioned(binding), history);
    RestartHolds(Broker(p, J.Run(J.Provisioned(binding), history), map[], false, false));
  }

  // ---------- counting ----------

  ghost function BoundID(b: Broker, n: nat): string
    requires n in b.live && b.live[n].bound.Some?
  {
    b.live[n].bound.value.ActionID()
  }

  // A set of records that are each the bound record of some listed reservation is no larger.
  lemma {:induction false} FewerRecordsThanOwners(b: Broker, ids: set<string>, owners: set<nat>)
    requires owners <= b.live.Keys
    requires forall id :: id in ids ==> exists n :: n in owners && b.live[n].bound.Some? && BoundID(b, n) == id
    ensures |ids| <= |owners|
    decreases owners
  {
    if owners == {} {
      assert ids == {};
    } else {
      var n :| n in owners;
      var gone := if b.live[n].bound.Some? then {BoundID(b, n)} else {};
      forall id | id in ids - gone
        ensures exists x :: x in owners - {n} && b.live[x].bound.Some? && BoundID(b, x) == id
      {
        var x :| x in owners && b.live[x].bound.Some? && BoundID(b, x) == id;
        assert x != n;
      }
      FewerRecordsThanOwners(b, ids - gone, owners - {n});
      JI.SubsetSize(ids, (ids - gone) + gone);
      assert |(ids - gone) + gone| <= |ids - gone| + |gone|;
    }
  }

  lemma OwnedHasOwner(b: Broker, id: string)
    requires id in Owned(b)
    ensures exists n :: n in b.live && b.live[n].bound.Some? && BoundID(b, n) == id
  {
    var n :| n in b.live && b.live[n].bound.Some? && b.live[n].bound.value.ActionID() == id;
    assert BoundID(b, n) == id;
  }

  lemma OwnedRowsFit(b: Broker)
    ensures |b.journal.rows.Keys * Owned(b)| <= |b.live.Keys - Unstored(b)|
  {
    hide Owned;
    var stored := b.live.Keys - Unstored(b);
    forall id | id in b.journal.rows.Keys * Owned(b)
      ensures exists n :: n in stored && b.live[n].bound.Some? && BoundID(b, n) == id
    {
      OwnedHasOwner(b, id);
      var n :| n in b.live && b.live[n].bound.Some? && BoundID(b, n) == id;
      assert Stored(b, b.live[n]);
    }
    FewerRecordsThanOwners(b, b.journal.rows.Keys * Owned(b), stored);
  }

  lemma Parts<T>(a: set<T>, b: set<T>)
    ensures |a| == |a - b| + |a * b|
  {
    assert a == (a - b) + (a * b);
  }

  lemma StoredCount(b: Broker)
    requires Roomy(b)
    ensures |b.journal.rows| + |Unstored(b)| <= J.MAX_RECORDS
  {
    OwnedRowsFit(b);
    Parts(b.journal.rows.Keys, Owned(b));
    Parts(b.live.Keys, Unstored(b));
    assert b.live.Keys * Unstored(b) == Unstored(b);
  }

  /** In every state a broker reaches, live reservations together with uncertain
      records nobody owns number at most two, and stored records together with
      reservations not yet stored number at most a thousand. */
  lemma ReservationsConserved(p: Document, alias: string -> string, history: seq<J.Timed>, steps: seq<Timed>)
    ensures var b := Run(First(p, history), alias, steps);
      && |b.live| + |UnownedUnresolved(b)| <= MAX_LIVE
      && |b.journal.rows| + |Unstored(b)| <= J.MAX_RECORDS
  {
    hide Run, JI.Inv, AttemptsOwned, BoundTried, Unstored, UnownedUnresolved, Owned, First, Spaced, Rested;
    FirstHolds(p, history);
    RunKeeps(First(p, history), alias, steps, 0);
    StoredCount(Run(First(p, history), alias, steps));
  }

  // ---------- a bound reservation is served ----------

  ghost predicate StoreRefusal(o: J.Outcome) {
    o == J.UnresolvedTarget || o == J.Busy(J.CoolingDown) || o == J.Busy(J.RelatedActive) ||
      o == J.Busy(J.Capacity) || o == J.Full
  }

  // The other reservations and strays that could use up the store.
  lemma OthersFit(b: Broker, nonce: nat, id: string)
    requires Conserved(b) && AttemptsOwned(b) && nonce in b.live && b.live[nonce].bound.Some? && BoundID(b, nonce) == id
    requires id !in JI.Occupied(b.journal)
    ensures |JI.Occupied(b.journal)| < J.MAX_BUSY
  {
    var occupied := JI.Occupied(b.journal);
    var strays := UnownedUnresolved(b);
    forall x | x in occupied - strays
      ensures exists n :: n in b.live.Keys - {nonce} && b.live[n].bound.Some? && BoundID(b, n) == x
    {
      if x in b.journal.active {
        var n := b.journal.active[x].token;
        assert n != nonce;
        assert BoundID(b, n) == x;
      } else {
        OwnedHasOwner(b, x);
      }
    }
    FewerRecordsThanOwners(b, occupied - strays, b.live.Keys - {nonce});
    JI.SubsetSize(occupied, (occupied - strays) + strays);
  }

  lemma RoomFor(b: Broker, nonce: nat, id: string)
    requires Roomy(b) && nonce in b.live && b.live[nonce].bound.Some? && BoundID(b, nonce) == id &&
      id !in b.journal.rows
    ensures |b.journal.rows| < J.MAX_RECORDS
  {
    StoredCount(b);
    assert nonce in Unstored(b);
    assert |Unstored(b)| >= 1;
  }

  lemma ClearOfOthers(b: Broker, nonce: nat, k: Key, now: Time)
    requires nonce in b.live && b.live[nonce].bound == Some(k) && AttemptsOwned(b) && BoundApart(b) &&
      RowsApart(b) && Rested(b, now)
    requires k.ActionID() !in b.journal.active
    requires k.ActionID() in b.journal.rows && b.journal.rows[k.ActionID()].key == k ==>
      J.Undispatched(b.journal.rows[k.ActionID()])
    requires JI.RowsValid(b.journal)
    ensures !J.UnresolvedRelated(b.journal.rows, k) && !J.CoolingRelated(b.journal.rows, k, now) &&
      !J.ActiveRelated(b.journal.active, k)
  {
    hide Canonical, Related, J.TerminalAllowed;
    forall id | id in b.journal.rows && Related(b.journal.rows[id].key, k)
      ensures !J.Unresolved(b.journal.rows[id]) && !J.Cooling(b.journal.rows[id], now)
    {
      assert Undecided(b, id) <==> J.Unresolved(b.journal.rows[id]) || id in b.journal.active;
    }
  }

  /** Whatever else the broker serves, the acquisition of a bound claim is never
      turned away for an unresolved target, a cooldown, a related open attempt,
      the permit limit or a full journal. */
  lemma BoundNeverRefused(p: Document, alias: string -> string, history: seq<J.Timed>, steps: seq<Timed>, clock: Time,
                          nonce: nat, t: J.Timed)
    requires PolicyAllowed(p, alias) && NonDecreasing(steps, clock) && Clock(steps, clock) <= t.now && t.step.Acquire?
    requires var b := Run(First(p, history), alias, steps); nonce in b.live && b.live[nonce].bound == Some(t.step.key)
    ensures !StoreRefusal(J.Apply(Run(First(p, history), alias, steps).journal, t).1)
  {
    hide Run, Core, BoundApart, RowsApart, Rested, StoreRefusal, J.Apply, First, PolicyAllowed;
    var b := Run(First(p, history), alias, steps);
    FirstHolds(p, history);
    RunKeeps(First(p, history), alias, steps, clock);
    ClockAdvances(b, Clock(steps, clock), t.now);
    BoundServed(b, alias, nonce, t);
  }

  // The refusals of the store, each with the fact behind it.
  lemma RefusalMeans(s: J.Journal, t: J.Timed)
    requires t.step.Acquire? && StoreRefusal(J.Apply(s, t).1)
    ensures var k := t.step.key; var id := k.ActionID();
      && !s.failed && id !in s.active && (id in s.rows ==> s.rows[id].key == k && J.Undispatched(s.rows[id]))
      && (|| J.UnresolvedRelated(s.rows, k) || J.CoolingRelated(s.rows, k, t.now) || J.ActiveRelated(s.active, k)
          || |J.Permits(s.active)| + |J.UnresolvedIDs(s.rows)| >= J.MAX_BUSY
          || (id !in s.rows && |s.rows| == J.MAX_RECORDS))
  {
    hide Canonical, BoundTo, J.StampsParse, J.UnresolvedRelated, J.CoolingRelated, J.ActiveRelated,
         J.UnreadableRelated, J.Permits, J.UnresolvedIDs;
  }

  lemma BoundServed(b: Broker, alias: string -> string, nonce: nat, t: J.Timed)
    requires Core(b) && Spaced(b, alias) && Rested(b, t.now)
    requires nonce in b.live && t.step.Acquire? && b.live[nonce].bound == Some(t.step.key)
    ensures !StoreRefusal(J.Apply(b.journal, t).1)
  {
    hide PolicyAllowed, AttemptsOwned, BoundApart, RowsApart, Rested, Conserved, Roomy, JI.Apart,
         JI.AttemptsHeld, JI.RowsValid, BoundTried, J.UnresolvedRelated, J.CoolingRelated, J.ActiveRelated,
         J.Permits, J.UnresolvedIDs, JI.Occupied, J.Apply, StoreRefusal;
    var k := t.step.key;
    var s := b.journal;
    var id := k.ActionID();
    if StoreRefusal(J.Apply(s, t).1) {
      RefusalMeans(s, t);
      NotOccupied(s, id);
      OthersFit(b, nonce, id);
      JI.OccupiedIsPermitsAndUnresolved(s);
      if id !in s.rows { RoomFor(b, nonce, id); }
      ClearOfOthers(b, nonce, k, t.now);
    }
  }

  lemma NotOccupied(s: J.Journal, id: string)
    requires id !in s.active && (id in s.rows ==> J.Undispatched(s.rows[id]))
    ensures id !in JI.Occupied(s)
  {
  }

  // ---------- the fence, seen by the broker ----------

  lemma ForeignStaysForeign(b: Broker, b': Broker, id: string)
    requires id !in Owned(b)
    requires forall n :: n in b'.live && b'.live[n].bound.Some? ==>
      BoundID(b', n) != id || (n in b.live && b.live[n].bound == b'.live[n].bound)
    ensures id !in Owned(b')
  {
    if id in Owned(b') {
      OwnedHasOwner(b', id);
    }
  }

  lemma BindLeavesForeign(b: Broker, alias: string -> string, nonce: nat, receipt: Receipt, open: bool,
                          timely: bool, now: Time, id: string)
    requires id in b.journal.rows && id !in Owned(b)
    ensures var b' := BindStep(b, alias, nonce, receipt, open, timely, now).0;
      b'.journal == b.journal && id !in Owned(b')
  {
    hide Stray, Loaded, ResolvesTo, Eligible, Owned;
    var b' := BindStep(b, alias, nonce, receipt, open, timely, now).0;
    ForeignStaysForeign(b, b', id);
  }

  lemma BookingLeavesForeign(b: Broker, alias: string -> string, s: Step, now: Time, id: string)
    requires id in b.journal.rows && id !in Owned(b) && !s.Use? && !s.Prune? && !s.Restart?
    ensures var b' := Next(b, alias, s, now); b'.journal == b.journal && id !in Owned(b')
  {
    hide Stray, Loaded, Eligible, Owned, BindStep, Unstored;
    if s.Bind? {
      BindLeavesForeign(b, alias, s.nonce, s.receipt, s.open, s.timely, now, id);
    } else {
      ForeignStaysForeign(b, Next(b, alias, s, now), id);
    }
  }

  lemma UnownedIsFenced(b: Broker, id: string)
    requires AttemptsOwned(b) && id in UnownedUnresolved(b)
    ensures JS.Fenced(b.journal, id)
  {
    if id in b.journal.active { OwnsBound(b, b.journal.active[id].token); }
  }

  lemma JournalLeavesForeign(b: Broker, t: J.Timed, id: string)
    requires JI.Inv(b.journal) && AttemptsOwned(b) && id in UnownedUnresolved(b)
    ensures var b' := b.(journal := J.Next(b.journal, t));
      id in UnownedUnresolved(b') && b'.journal.rows[id] == b.journal.rows[id]
  {
    hide J.Next, JI.Shows, JI.RowsValid, JI.AttemptsHeld, JI.Apart, JI.Occupied, AttemptsOwned, JI.Caused;
    var e := JI.StepShows(b.journal, t);
    UnownedIsFenced(b, id);
    JS.FenceStays(b.journal, e, t.now, J.Next(b.journal, t), id);
    assert Owned(b.(journal := J.Next(b.journal, t))) == Owned(b);
  }

  lemma FenceStaysUnowned(b: Broker, alias: string -> string, s: Step, now: Time, id: string)
    requires JI.Inv(b.journal) && AttemptsOwned(b) && id in UnownedUnresolved(b)
    ensures var b' := Next(b, alias, s, now); id in UnownedUnresolved(b') && b'.journal.rows[id] == b.journal.rows[id]
  {
    hide JI.Inv, AttemptsOwned, ReserveStep, BindStep, BrokerModel.ReleaseStep, AbandonStep, EndStep, J.Next,
         SnapshotOk, OwnUse, J.Reloads;
    match s
    case Use(nonce, t) => JournalLeavesForeign(b, t, id);
    case Prune(t) => JournalLeavesForeign(b, t, id);
    case Restart => assert Owned(StartedAgain(b)) == {};
    case _ => BookingLeavesForeign(b, alias, s, now, id);
  }

  lemma {:induction false} UnownedStays(b: Broker, alias: string -> string, steps: seq<Timed>, id: string)
    requires Core(b) && id in UnownedUnresolved(b)
    ensures var b' := Run(b, alias, steps); id in UnownedUnresolved(b') && b'.journal.rows[id] == b.journal.rows[id]
    decreases |steps|
  {
    hide Next, UnownedUnresolved, JI.Inv, AttemptsOwned, Conserved, Roomy, BoundTried;
    UnownedHasRow(b, id);
    if steps != [] {
      var b1 := Next(b, alias, steps[0].step, steps[0].now);
      FenceStaysUnowned(b, alias, steps[0].step, steps[0].now, id);
      StepKeepsCore(b, alias, steps[0].step, steps[0].now);
      UnownedStays(b1, alias, steps[1..], id);
    }
  }

  /** Once an uncertain record has no live owner, it keeps none: in any
      continuation, whatever the clock reads and the policy says, it is never
      resolved or removed, every later reservation is refused, and a restarted
      broker does not come up. */
  lemma BrokerFence(p: Document, alias: string -> string, history: seq<J.Timed>, before: seq<Timed>, after: seq<Timed>,
                    id: string, nonce: nat, open: bool, now: Time)
    requires id in UnownedUnresolved(Run(First(p, history), alias, before))
    ensures var b := Run(First(p, history), alias, before);
      var b' := Run(b, alias, after);
      && id in UnownedUnresolved(b') && b'.journal.rows[id] == b.journal.rows[id]
      && ReserveStep(b', nonce, open, now).1 == RecoveryRequired && ReserveStep(b', nonce, open, now).0.live == b'.live
      && !StartedAgain(b').up
  {
    hide Run, Core, Spaced, Rested, First, UnownedUnresolved, ReserveStep, StartedAgain;
    FirstHolds(p, history);
    RunKeeps(First(p, history), alias, before, 0);
    var b := Run(First(p, history), alias, before);
    var b' := Run(b, alias, after);
    UnownedHasRow(b, id);
    UnownedStays(b, alias, after, id);
    UnownedHasRow(b', id);
    FenceStops(b', id, nonce, open, now);
  }

  lemma UnownedHasRow(b: Broker, id: string)
    requires id in UnownedUnresolved(b)
    ensures id in b.journal.rows
  {
  }

  lemma FenceStops(b: Broker, id: string, nonce: nat, open: bool, now: Time)
    requires id in UnownedUnresolved(b)
    ensures ReserveStep(b, nonce, open, now).1 == RecoveryRequired && ReserveStep(b, nonce, open, now).0.live == b.live
    ensures !StartedAgain(b).up
  {
    hide Loaded, Eligible, Unstored, J.Reloads;
    assert Stray(b);
    var again := StartedAgain(b);
    assert Owned(again) == {};
    assert id in again.journal.rows && J.Unresolved(again.journal.rows[id]);
    assert Stray(again.(up := true));
  }
}
