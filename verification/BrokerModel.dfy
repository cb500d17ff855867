/** The broker's reservations on top of the journal, as a state machine. A
    reservation's nonce also names the attempt its execution acquires. */
module BrokerModel {
  import opened ActionTypes
  import J = JournalModel
  import opened Policy
  import opened PolicyBinding

  const MAX_LIVE := 2

  datatype Reservation = Reservation(targets: set<string>, bound: Option<Key>, claimTried: bool)

  datatype Broker = Broker(policy: Document, journal: J.Journal, live: map<nat, Reservation>,
    recoveryRequired: bool, up: bool)

  datatype Verdict = Accepted | BusyNow | NoTarget | RecoveryRequired

  datatype Step =
    | Reserve(nonce: nat, open: bool)
    | Bind(nonce: nat, receipt: Receipt, open: bool, timely: bool)
    | ReleaseUnclaimed(nonce: nat, timely: bool)
    | Abandon(nonce: nat)
    | Latch
    | End(nonce: nat)
    | Use(nonce: nat, step: J.Timed)
    | Prune(step: J.Timed)
    | Restart

  // Identifiers of the records live reservations are bound to.
  ghost function Owned(b: Broker): set<string> {
    set n | n in b.live && b.live[n].bound.Some? :: b.live[n].bound.value.ActionID()
  }

  ghost predicate Loaded(b: Broker) {
    && !b.journal.failed && (forall id :: id in b.journal.rows ==> J.StampsParse(b.journal.rows[id]))
    && b.journal.binding == ActionTypes.Binding(b.policy.serverID, b.policy.connectorID, b.policy.ownerID)
  }

  ghost function UnownedUnresolved(b: Broker): set<string> {
    J.UnresolvedIDs(b.journal.rows) - Owned(b)
  }

  ghost predicate Stray(b: Broker) {
    exists id :: id in b.journal.rows && (J.Unresolved(b.journal.rows[id]) || id in b.journal.active) && id !in Owned(b)
  }

  // Looking at the journal latches recovery for every record nobody owns.
  ghost function Latched(b: Broker): Broker {
    if Loaded(b) then b.(recoveryRequired := b.recoveryRequired || Stray(b)) else b
  }

  ghost predicate SnapshotOk(b: Broker) {
    Loaded(b) && !b.recoveryRequired && !Stray(b)
  }

  predicate PhysicalMatch(k: Key, m: Mapping) {
    k.TargetID() == m.targetID || (k.engine == m.engine && k.container == m.container)
  }

  ghost predicate Blocked(b: Broker, except: Option<nat>, m: Mapping, now: Time) {
    || (exists n ::
       n in b.live && except != Some(n) && b.live[n].bound.Some? && PhysicalMatch(b.live[n].bound.value, m))
    || (exists id :: id in b.journal.rows && PhysicalMatch(b.journal.rows[id].key, m)
          && (J.Unresolved(b.journal.rows[id]) || J.Cooling(b.journal.rows[id], now)))
  }

  ghost function Eligible(b: Broker, except: Option<nat>, now: Time): set<string> {
    set m | m in b.policy.mappings && m.revision in b.policy.current && !Blocked(b, except, m, now) :: m.targetID
  }

  ghost predicate Stored(b: Broker, r: Reservation) {
    r.bound.Some? && r.bound.value.ActionID() in b.journal.rows
  }

  ghost function Unstored(b: Broker): set<nat> {
    set n | n in b.live && !Stored(b, b.live[n])
  }

  ghost function ReserveStep(b: Broker, nonce: nat, open: bool, now: Time): (Broker, Verdict) {
    if !b.up || !open then (b, RecoveryRequired)
    else if !SnapshotOk(b) then (Latched(b), RecoveryRequired)
    else if |b.live| >= MAX_LIVE then (b, BusyNow)
    else if |b.journal.rows| + |Unstored(b)| >= J.MAX_RECORDS then (b, BusyNow)
    else if Eligible(b, None, now) == {} then (b, NoTarget)
    else if nonce in b.live then (b, RecoveryRequired)
    else (b.(live := b.live[nonce := Reservation(Eligible(b, None, now), None, false)]), Accepted)
  }

  // What binding demands beyond the reservation's own state.
  ghost predicate Binds(b: Broker, alias: string -> string, nonce: nat, receipt: Receipt, m: Mapping, now: Time)
    requires nonce in b.live
  {
    && receipt.actionID !in b.journal.rows && ResolvesTo(b.policy, alias, receipt, true, m)
    && m.targetID in b.live[nonce].targets && m.targetID in Eligible(b, Some(nonce), now)
  }

  ghost function BindStep(b: Broker, alias: string -> string, nonce: nat, receipt: Receipt, open: bool,
                          timely: bool, now: Time): (Broker, Verdict) {
    if !b.up || nonce !in b.live || b.live[nonce].claimTried || !open then (b, RecoveryRequired)
    else
      var tried := b.(live := b.live[nonce := b.live[nonce].(claimTried := true)]);
      if !SnapshotOk(tried) then (Latched(tried), RecoveryRequired)
      else if timely && exists m :: Binds(tried, alias, nonce, receipt, m, now) then
        var m :| Binds(tried, alias, nonce, receipt, m, now);
        (tried.(live := tried.live[nonce := tried.live[nonce].(bound := Some(KeyOf(receipt, m)))]), Accepted)
      else (tried, RecoveryRequired)
  }

  ghost function ReleaseStep(b: Broker, nonce: nat, timely: bool): (Broker, Verdict) {
    if !b.up || nonce !in b.live || b.live[nonce].claimTried || !timely then (b, RecoveryRequired)
    else (b.(live := b.live - {nonce}), Accepted)
  }

  // A conversation is abandoned only before its claim is bound.
  ghost function AbandonStep(b: Broker, nonce: nat): (Broker, Verdict) {
    if !b.up || nonce !in b.live || b.live[nonce].bound.Some? then (b, RecoveryRequired)
    else (b.(live := b.live - {nonce}, recoveryRequired := true), Accepted)
  }

  ghost function EndStep(b: Broker, nonce: nat): (Broker, Verdict) {
    if !b.up || nonce !in b.live || !b.live[nonce].claimTried then (b, RecoveryRequired)
    else if !Loaded(b) then (b.(recoveryRequired := true), RecoveryRequired)
    else
      var r := b.live[nonce];
      if Stored(b, r) && r.bound.value.ActionID() in b.journal.active then (b, BusyNow)
      else
        var confirmed := Stored(b, r) && b.journal.rows[r.bound.value.ActionID()].terminal.Some?;
        (b.(live := b.live - {nonce}, recoveryRequired := b.recoveryRequired || !confirmed), Accepted)
  }

  // The journal is used only by the execution a bound reservation owns.
  ghost predicate OwnUse(b: Broker, nonce: nat, t: J.Timed) {
    && b.up && nonce in b.live && b.live[nonce].bound.Some?
    && var k := b.live[nonce].bound.value;
       match t.step
       case Acquire(key, token, _) => key == k && token == nonce
       case Intent(id, token) => id == k.ActionID() && token == nonce
       case Finish(id, token, _) => id == k.ActionID() && token == nonce
       case Release(id, token) => id == k.ActionID() && token == nonce
       case _ => false
  }

  ghost function StartedAgain(b: Broker): Broker {
    var journal := J.ReopenStep(J.Closed(b.journal)).0;
    var reopened := b.(journal := journal, live := map[], recoveryRequired := false);
    reopened.(up := SnapshotOk(reopened))
  }

  ghost function Apply(b: Broker, alias: string -> string, s: Step, now: Time): (Broker, Verdict) {
    match s
    case Reserve(nonce, open) => ReserveStep(b, nonce, open, now)
    case Bind(nonce, receipt, open, timely) => BindStep(b, alias, nonce, receipt, open, timely, now)
    case ReleaseUnclaimed(nonce, timely) => ReleaseStep(b, nonce, timely)
    case Abandon(nonce) => AbandonStep(b, nonce)
    case Latch => (b.(recoveryRequired := true), Accepted)
    case End(nonce) => EndStep(b, nonce)
    case Use(nonce, t) =>
      (if OwnUse(b, nonce, t) && t.now == now then b.(journal := J.Next(b.journal, t)) else b, Accepted)
    case Prune(t) => (if t.step.Prune? && t.now == now then b.(journal := J.Next(b.journal, t)) else b, Accepted)
    case Restart => (StartedAgain(b), Accepted)
  }

  ghost function Next(b: Broker, alias: string -> string, s: Step, now: Time): Broker {
    Apply(b, alias, s, now).0
  }
}
