/** The broker's own state and the loops that read the journal's snapshot, each
    operation proved to be a step of the reservation state machine. */
module BrokerState {
  import opened ActionTypes
  import J = JournalModel
  import JI = JournalInvariant
  import opened JournalStore
  import opened Policy
  import opened PolicyBinding
  import opened BrokerModel

  type Records = seq<AdmissionRecord>

  // The records of a snapshot are exactly the journal's rows.
  ghost predicate Shows(j: J.Journal, records: Records, ids: seq<string>) {
    && |records| == |ids| == |j.rows| && (forall id :: id in ids <==> id in j.rows)
    && (forall i ::
       0 <= i < |ids| ==>
       records[i] == Snapped(j.rows[ids[i]], ids[i] in j.active) && j.rows[ids[i]].key.ActionID() == ids[i])
  }

  predicate Open(r: AdmissionRecord) {
    r.intent && r.at.None?
  }

  predicate CoolingDown(r: AdmissionRecord, now: Time) {
    r.code.Some? && Success(r.code.value) && r.at.Some? && now < r.at.value + J.COOLDOWN
  }

  lemma SnappedMeans(r: J.Record, active: bool, now: Time)
    ensures var s := Snapped(r, active);
      && s.key == r.key && s.active == active && (Open(s) <==> J.Unresolved(r)) &&
         (CoolingDown(s, now) <==> J.Cooling(r, now))
  {
  }

  method OwnedKeys(live: map<nat, Reservation>) returns (owned: set<string>)
    ensures owned == set n | n in live && live[n].bound.Some? :: live[n].bound.value.ActionID()
  {
    owned := set n | n in live && live[n].bound.Some? :: live[n].bound.value.ActionID();
  }

  /** Whether some record in use is nobody's. */
  method FindStray(ghost j: J.Journal, records: Records, ghost ids: seq<string>, owned: set<string>)
    returns (stray: bool)
    requires Shows(j, records, ids)
    ensures stray <==> exists id :: id in j.rows && (J.Unresolved(j.rows[id]) || id in j.active) && id !in owned
  {
    hide J.Unresolved, Snapped;
    stray := false;
    for i := 0 to |records|
      invariant stray <==> exists k ::
        0 <= k < i && (J.Unresolved(j.rows[ids[k]]) || ids[k] in j.active) && ids[k] !in owned
    {
      SnappedMeans(j.rows[ids[i]], ids[i] in j.active, 0);
      if (Open(records[i]) || records[i].active) && records[i].key.ActionID() !in owned {
        stray := true;
      }
    }
  }

  method BlockedByRecord(ghost j: J.Journal, records: Records, ghost ids: seq<string>, m: Mapping, now: Time)
    returns (blocked: bool)
    requires Shows(j, records, ids)
    ensures blocked <==>
      exists id ::
        id in j.rows && PhysicalMatch(j.rows[id].key, m) && (J.Unresolved(j.rows[id]) || J.Cooling(j.rows[id], now))
  {
    hide J.Unresolved, J.Cooling, Snapped, PhysicalMatch;
    blocked := false;
    for i := 0 to |records|
      invariant blocked <==>
        exists k ::
          0 <= k < i && PhysicalMatch(j.rows[ids[k]].key, m) &&
          (J.Unresolved(j.rows[ids[k]]) || J.Cooling(j.rows[ids[k]], now))
    {
      SnappedMeans(j.rows[ids[i]], ids[i] in j.active, now);
      if PhysicalMatch(records[i].key, m) && (Open(records[i]) || CoolingDown(records[i], now)) {
        blocked := true;
      }
    }
  }

  method BlockedByReservation(live: map<nat, Reservation>, except: Option<nat>, m: Mapping) returns (blocked: bool)
    ensures blocked <==> exists n ::
      n in live && except != Some(n) && live[n].bound.Some? && PhysicalMatch(live[n].bound.value, m)
  {
    hide PhysicalMatch;
    blocked := false;
    var rest := live.Keys;
    while rest != {}
      invariant rest <= live.Keys
      invariant blocked <==> exists n ::
        n in live && n !in rest && except != Some(n) && live[n].bound.Some? && PhysicalMatch(live[n].bound.value, m)
      decreases rest
    {
      var n :| n in rest;
      rest := rest - {n};
      if except != Some(n) && live[n].bound.Some? && PhysicalMatch(live[n].bound.value, m) {
        blocked := true;
      }
    }
  }

  /** The targets a new or existing reservation may still claim. */
  method EligibleTargets(ghost b: Broker, policy: Document, live: map<nat, Reservation>, records: Records,
                         ghost ids: seq<string>,
                         except: Option<nat>, now: Time) returns (targets: set<string>)
    requires b.policy == policy && b.live == live && Shows(b.journal, records, ids)
    ensures targets == Eligible(b, except, now)
  {
    hide Blocked, Shows;
    targets := {};
    for i := 0 to |policy.mappings|
      invariant targets == set m | m in policy.mappings[..i] && m.revision in policy.current &&
        !Blocked(b, except, m, now) :: m.targetID
    {
      var m := policy.mappings[i];
      assert policy.mappings[..i + 1] == policy.mappings[..i] + [m];
      ghost var before := targets;
      if m.revision in policy.current {
        var byLive := BlockedByReservation(live, except, m);
        var byRecord := BlockedByRecord(b.journal, records, ids, m, now);
        BlockedIs(b, except, m, now);
        if !byLive && !byRecord {
          targets := targets + {m.targetID};
        }
      }
      OfferedMore(b, except, now, policy.mappings[..i], m, before, targets);
    }
    assert policy.mappings[..|policy.mappings|] == policy.mappings;
  }

  lemma BlockedIs(b: Broker, except: Option<nat>, m: Mapping, now: Time)
    ensures Blocked(b, except, m, now) <==>
      || (exists n ::
         n in b.live && except != Some(n) && b.live[n].bound.Some? && PhysicalMatch(b.live[n].bound.value, m))
      || (exists id :: id in b.journal.rows && PhysicalMatch(b.journal.rows[id].key, m)
            && (J.Unresolved(b.journal.rows[id]) || J.Cooling(b.journal.rows[id], now)))
  {
  }

  lemma OfferedMore(b: Broker, except: Option<nat>, now: Time, done: seq<Mapping>, m: Mapping, before: set<string>,
                    after: set<string>)
    requires before == set x | x in done && x.revision in b.policy.current && !Blocked(b, except, x, now) :: x.targetID
    requires after == if m.revision in b.policy.current && !Blocked(b, except, m, now) then before + {m.targetID}
      else before
    ensures after == set x | x in done + [m] && x.revision in b.policy.current && !Blocked(b, except, x, now) ::
      x.targetID
  {
    hide Blocked;
    var all := done + [m];
    assert m in all && forall x :: x in done ==> x in all;
    assert forall x :: x in all ==> x in done || x == m;
  }

  // Room counted as if every reservation without a stored record already had one.
  method CountLogical(ghost b: Broker, live: map<nat, Reservation>, records: Records, ghost ids: seq<string>)
    returns (logical: nat)
    requires b.live == live && Shows(b.journal, records, ids)
    ensures logical == |b.journal.rows| + |Unstored(b)|
  {
    hide Stored, Unstored, Shows;
    var stored := StoredKeys(b.journal, records, ids);
    assert |records| == |b.journal.rows| by { ShownCount(b.journal, records, ids); }
    logical := |records|;
    var rest := live.Keys;
    ghost var all := Unstored(b);
    UnstoredWithin(b);
    while rest != {}
      invariant rest <= live.Keys && logical == |records| + |all - rest|
      decreases rest
    {
      var n :| n in rest;
      StoredIs(b, live[n]);
      UnstoredIs(b, n);
      Uncovers(all, rest, n);
      if live[n].bound.None? || live[n].bound.value.ActionID() !in stored {
        logical := logical + 1;
      }
      rest := rest - {n};
    }
    assert all - rest == all;
  }

  lemma Uncovers(all: set<nat>, rest: set<nat>, n: nat)
    requires n in rest
    ensures |all - (rest - {n})| == |all - rest| + if n in all then 1 else 0
  {
    if n in all {
      assert all - (rest - {n}) == (all - rest) + {n};
    } else {
      assert all - (rest - {n}) == all - rest;
    }
  }

  lemma ShownCount(j: J.Journal, records: Records, ids: seq<string>)
    requires Shows(j, records, ids)
    ensures |records| == |j.rows|
  {
  }

  lemma UnstoredWithin(b: Broker)
    ensures Unstored(b) - b.live.Keys == {}
  {
  }

  lemma UnstoredIs(b: Broker, n: nat)
    requires n in b.live
    ensures n in Unstored(b) <==> !Stored(b, b.live[n])
  {
  }

  lemma StoredIs(b: Broker, r: Reservation)
    ensures Stored(b, r) <==> r.bound.Some? && r.bound.value.ActionID() in b.journal.rows
  {
  }

  method StoredKeys(ghost j: J.Journal, records: Records, ghost ids: seq<string>) returns (stored: set<string>)
    requires Shows(j, records, ids)
    ensures stored == j.rows.Keys
  {
    hide Snapped;
    stored := {};
    for i := 0 to |records|
      invariant stored == set k | 0 <= k < i :: ids[k]
    {
      SnappedMeans(j.rows[ids[i]], ids[i] in j.active, 0);
      stored := stored + {records[i].key.ActionID()};
    }
    forall id ensures id in stored <==> id in j.rows {
      if id in j.rows { assert id in ids; }
    }
  }

  function Tried(live: map<nat, Reservation>, nonce: nat, open: bool): map<nat, Reservation> {
    if nonce in live && !live[nonce].claimTried && open then live[nonce := live[nonce].(claimTried := true)] else live
  }

  class State {
    const store: Store
    const policy: Document
    var live: map<nat, Reservation>
    var recoveryRequired: bool

    ghost function View(): Broker
      reads this, store
    {
      Broker(policy, store.View(), live, recoveryRequired, true)
    }

    ghost predicate Valid()
      reads this, store
    {
      store.Valid()
    }

    // Established by the snapshot taken at start; neither side ever changes.
    predicate Matched() {
      store.binding == ActionTypes.Binding(policy.serverID, policy.connectorID, policy.ownerID)
    }

    constructor (store: Store, policy: Document)
      ensures this.store == store && this.policy == policy && live == map[] && !recoveryRequired
    {
      this.store, this.policy, live, recoveryRequired := store, policy, map[], false;
    }

    // The journal's snapshot, if it can be taken and is this policy's.
    method Admission(locked: bool) returns (out: Option<Records>, ghost ids: seq<string>)
      requires Valid()
      ensures out.Some? <==> !locked && Loaded(View())
      ensures out.Some? ==> Shows(store.View(), out.value, ids)
    {
      hide JI.Inv, Snapped, J.StampsParse;
      Keyed(store.View());
      SameActive(store.active, store.handles, store.next);
      out, ids := store.AdmissionSnapshot(locked);
      if !Matched() {
        out := None;
      }
    }

    /** Reads the journal and latches recovery for records nobody owns. */
    method Snapshot(locked: bool) returns (out: Option<Records>, ghost ids: seq<string>)
      requires Valid()
      modifies `recoveryRequired
      ensures View() == if locked then old(View()) else Latched(old(View()))
      ensures out.Some? <==> !locked && SnapshotOk(old(View()))
      ensures out.Some? ==> Shows(store.View(), out.value, ids) && !recoveryRequired
    {
      hide Loaded, Shows, Store.Valid;
      var records;
      records, ids := Admission(locked);
      if records.None? {
        return None, ids;
      }
      var owned := OwnedKeys(live);
      var stray := FindStray(store.View(), records.value, ids, owned);
      if stray {
        recoveryRequired := true;
      }
      out := if recoveryRequired then None else records;
    }

    /** Reserves what is eligible now, within the limits on live work and records. */
    method Reserve(nonce: nat, open: bool, locked: bool, begins: bool, now: Time) returns (v: Verdict)
      requires Valid()
      modifies `live, `recoveryRequired
      ensures (View(), v) == ReserveStep(old(View()), nonce, open && !locked, now) ||
        (!begins && v == RecoveryRequired && View() == old(View()))
    {
      hide SnapshotOk, Latched, Eligible, Unstored, Shows, Store.Valid;
      if !open {
        return RecoveryRequired;
      }
      ghost var b := View();
      var records, ids := Snapshot(locked);
      if records.None? {
        return RecoveryRequired;
      }
      assert View() == b by { StillClear(b); }
      if |live| >= MAX_LIVE {
        return BusyNow;
      }
      var logical := CountLogical(b, live, records.value, ids);
      if logical >= J.MAX_RECORDS {
        return BusyNow;
      }
      var targets := EligibleTargets(b, policy, live, records.value, ids, None, now);
      if targets == {} {
        return NoTarget;
      }
      if !begins || nonce in live {
        return RecoveryRequired;
      }
      live := live[nonce := Reservation(targets, None, false)];
      v := Accepted;
    }

    /** Binds a claim to its reservation: once tried, never tried again. */
    method Bind(alias: string -> string, nonce: nat, receipt: Receipt, open: bool, locked: bool, timely: bool,
                now: Time) returns (v: Verdict)
      requires Valid()
      modifies `live, `recoveryRequired
      ensures !locked ==> (View(), v) == BindStep(old(View()), alias, nonce, receipt, open, timely, now)
      ensures locked ==> v == RecoveryRequired && recoveryRequired == old(recoveryRequired)
      ensures locked ==> live == Tried(old(live), nonce, open)
    {
      hide SnapshotOk, Latched, Eligible, Shows, Store.Valid, ResolvesTo;
      if nonce !in live || live[nonce].claimTried || !open {
        return RecoveryRequired;
      }
      live := live[nonce := live[nonce].(claimTried := true)];
      ghost var tried := View();
      var records, ids := Snapshot(locked);
      if records.None? {
        return RecoveryRequired;
      }
      assert View() == tried by { StillClear(tried); }
      var stored := StoredKeys(store.View(), records.value, ids);
      var found := ResolveReceipt(policy, alias, receipt, true);
      var eligible := EligibleTargets(tried, policy, live, records.value, ids, Some(nonce), now);
      if receipt.actionID in stored || !found.Found? || found.resolved.key.TargetID() !in live[nonce].targets
         || found.resolved.key.TargetID() !in eligible
      {
        NotBound(tried, alias, nonce, receipt, now, found);
        return RecoveryRequired;
      }
      if !timely {
        return RecoveryRequired;
      }
      BoundOnce(tried, alias, nonce, receipt, now, found);
      live := live[nonce := live[nonce].(bound := Some(found.resolved.key))];
      v := Accepted;
    }

    method ReleaseUnclaimed(nonce: nat, timely: bool) returns (v: Verdict)
      modifies `live
      ensures (View(), v) == ReleaseStep(old(View()), nonce, timely)
    {
      if nonce !in live || live[nonce].claimTried || !timely {
        return RecoveryRequired;
      }
      live := live - {nonce};
      v := Accepted;
    }

    /** Gives an unbound reservation up: a remote claim may be hidden behind it. */
    method Abandon(nonce: nat) returns (v: Verdict)
      requires nonce in live ==> live[nonce].bound.None?
      modifies `live, `recoveryRequired
      ensures (View(), v) == AbandonStep(old(View()), nonce)
    {
      if nonce !in live {
        return RecoveryRequired;
      }
      live, recoveryRequired, v := live - {nonce}, true, Accepted;
    }

    /** Ends a conversation; an outcome nobody recorded calls for recovery. */
    method Finish(nonce: nat, locked: bool) returns (v: Verdict)
      requires Valid() && Matched()
      modifies `live, `recoveryRequired
      ensures !locked ==> (View(), v) == EndStep(old(View()), nonce)
      ensures locked ==> v == RecoveryRequired && live == old(live)
      ensures locked ==> recoveryRequired == (old(recoveryRequired) || (nonce in live && live[nonce].claimTried))
    {
      hide Loaded, Shows, Store.Valid, Stored;
      if nonce !in live || !live[nonce].claimTried {
        return RecoveryRequired;
      }
      var records, ids := Admission(locked);
      if records.None? {
        recoveryRequired := true;
        return RecoveryRequired;
      }
      var r := live[nonce];
      StoredIs(View(), r);
      var confirmed := false;
      if r.bound.Some? {
        var busy;
        busy, confirmed := FindOwn(store.View(), records.value, ids, r.bound.value.ActionID());
        if busy {
          return BusyNow;
        }
      }
      if !confirmed {
        recoveryRequired := true;
      }
      live := live - {nonce};
      v := Accepted;
    }
  }

  /** A broker starts only on an allowed policy and a journal with nothing in use. */
  method NewState(store: Store, policy: Document, alias: string -> string, locked: bool) returns (b: State?)
    requires store.Valid()
    ensures b != null <==>
      PolicyAllowed(policy, alias) && !locked && SnapshotOk(Broker(policy, store.View(), map[], false, true))
    ensures b != null ==>
      fresh(b) && b.Matched() && b.store == store && b.View() == Broker(policy, store.View(), map[], false, true)
  {
    hide PolicyAllowed, Store.Valid;
    var allowed := ValidatePolicy(policy, alias);
    if !allowed {
      return null;
    }
    var state := new State(store, policy);
    var records, ids := state.Snapshot(locked);
    b := if records.Some? then state else null;
  }

  // The reservation's own record: still in use, or with a retained terminal.
  method FindOwn(ghost j: J.Journal, records: Records, ghost ids: seq<string>, id: string)
    returns (busy: bool, confirmed: bool)
    requires Shows(j, records, ids)
    ensures busy <==> id in j.rows && id in j.active
    ensures !busy ==> (confirmed <==> id in j.rows && j.rows[id].terminal.Some?)
  {
    busy, confirmed := false, false;
    for i := 0 to |records|
      invariant forall k :: 0 <= k < i && ids[k] == id ==> id !in j.active
      invariant confirmed <==> exists k :: 0 <= k < i && ids[k] == id && j.rows[id].terminal.Some?
    {
      if records[i].key.ActionID() == id {
        assert ids[i] == id;
        if records[i].active {
          return true, confirmed;
        }
        confirmed := records[i].at.Some?;
      }
    }
    if id in j.rows {
      assert id in ids;
    }
  }

  datatype Evidence = RetainedTerminal | QuiescedIntent
  datatype Report = Report(code: Code, evidence: Evidence)

  // The codes a report of this operation may carry, each with its own evidence.
  predicate Reportable(op: Operation, report: Report) {
    && (report.code == OutcomeUnknown <==> report.evidence == QuiescedIntent)
    && match report.code
       case StateConflict => true
       case OutcomeUnknown => true
       case Started => op == Operation.Start
       case AlreadyRunning => op == Operation.Start
       case Stopped => op == Operation.Stop
       case AlreadyStopped => op == Operation.Stop
       case Restarted => op == Operation.Restart
       case _ => false
  }

  // What a record of the key says once nobody uses it.
  ghost function Retained(j: J.Journal, key: Key): Option<Report> {
    if key.ActionID() !in j.rows || key.ActionID() in j.active || j.rows[key.ActionID()].key != key then None
    else
      var r := j.rows[key.ActionID()];
      if r.terminal.Some? then Some(Report(r.terminal.value.code, RetainedTerminal))
      else if r.intent.Some? then Some(Report(OutcomeUnknown, QuiescedIntent))
      else None
  }

  /** What may be reported of an action is what the journal durably holds for
      exactly that key, once nobody uses it, if its code fits the operation. */
  method RetainedReport(ghost j: J.Journal, records: Records, ghost ids: seq<string>, key: Key)
    returns (out: Option<Report>)
    requires Shows(j, records, ids)
    ensures var r := Retained(j, key);
      out == if r.Some? && Reportable(key.request.operation, r.value) then r else None
  {
    for i := 0 to |records|
      invariant forall k :: 0 <= k < i ==> ids[k] != key.ActionID()
    {
      var record := records[i];
      if record.key.ActionID() == key.ActionID() {
        assert ids[i] == key.ActionID();
        if record.key != key || record.active {
          return None;
        }
        if record.at.None? && (!record.intent || record.code != Some(OutcomeUnknown)) {
          return None;
        }
        var report := if record.at.None? then Report(OutcomeUnknown, QuiescedIntent)
          else Report(record.code.value, RetainedTerminal);
        return if Reportable(key.request.operation, report) then Some(report) else None;
      }
    }
    assert key.ActionID() in j.rows ==> key.ActionID() in ids;
    out := None;
  }

  /** In a journal that keeps its invariant every unused record of the key is
      reportable but one that never dispatched and was denied or is undecided, and
      a report names an effect exactly when the action was dispatched and finished. */
  lemma ReportsAllButDenied(j: J.Journal, key: Key)
    requires JI.Inv(j) && key.ActionID() in j.rows && key.ActionID() !in j.active && j.rows[key.ActionID()].key == key
    ensures var r, out := j.rows[key.ActionID()], Retained(j, key);
      && (out.Some? && Reportable(key.request.operation, out.value) <==>
            r.intent.Some? || (r.terminal.Some? && r.terminal.value.code != Denied))
      && (out.Some? ==> (Success(out.value.code) <==> r.intent.Some? && r.terminal.Some?))
  {
    hide Canonical, JI.AttemptsHeld, JI.Apart, JI.Occupied;
    assert J.RowValid(j.binding, key.ActionID(), j.rows[key.ActionID()]);
  }

  lemma Keyed(j: J.Journal)
    requires JI.Inv(j)
    ensures forall id :: id in j.rows ==> j.rows[id].key.ActionID() == id
  {
  }

  lemma StillClear(b: Broker)
    requires SnapshotOk(b)
    ensures Latched(b) == b
  {
  }

  lemma NotBound(b: Broker, alias: string -> string, nonce: nat, receipt: Receipt, now: Time, found: Lookup)
    requires nonce in b.live && (found.Found? <==> exists m :: ResolvesTo(b.policy, alias, receipt, true, m))
    requires forall m ::
      ResolvesTo(b.policy, alias, receipt, true, m) ==> found == Found(Resolved(KeyOf(receipt, m), m.revision))
    requires receipt.actionID in b.journal.rows || !found.Found? ||
      found.resolved.key.TargetID() !in b.live[nonce].targets
             || found.resolved.key.TargetID() !in Eligible(b, Some(nonce), now)
    ensures forall m :: !Binds(b, alias, nonce, receipt, m, now)
  {
    hide Eligible;
    forall m ensures !Binds(b, alias, nonce, receipt, m, now) {
      if ResolvesTo(b.policy, alias, receipt, true, m) { KeyTarget(b.policy, alias, receipt, m); }
    }
  }

  lemma KeyTarget(p: Document, alias: string -> string, r: Receipt, m: Mapping)
    requires ResolvesTo(p, alias, r, true, m)
    ensures KeyOf(r, m).TargetID() == m.targetID
  {
    hide PolicyAllowed, ReceiptAllowed;
  }

  lemma BoundOnce(b: Broker, alias: string -> string, nonce: nat, receipt: Receipt, now: Time, found: Lookup)
    requires nonce in b.live && found.Found? && exists m :: ResolvesTo(b.policy, alias, receipt, true, m)
    requires forall m ::
      ResolvesTo(b.policy, alias, receipt, true, m) ==> found == Found(Resolved(KeyOf(receipt, m), m.revision))
    requires receipt.actionID !in b.journal.rows && found.resolved.key.TargetID() in b.live[nonce].targets
    requires found.resolved.key.TargetID() in Eligible(b, Some(nonce), now)
    ensures exists m :: Binds(b, alias, nonce, receipt, m, now)
    ensures forall m :: Binds(b, alias, nonce, receipt, m, now) ==> KeyOf(receipt, m) == found.resolved.key
  {
    hide Eligible, ResolvesTo;
    var m :| ResolvesTo(b.policy, alias, receipt, true, m);
    KeyTarget(b.policy, alias, receipt, m);
    assert Binds(b, alias, nonce, receipt, m, now);
  }
}
