/** The durable action journal as a state machine. A state is what survives a
    crash (the rows and the prune floor) together with the open handle (its
    `failed` mark and its mutable attempts). A transaction either takes effect,
    does not, or - when COMMIT itself is uncertain - may have taken effect
    while the handle becomes unusable. Every step reads an arbitrary clock. */
module JournalModel {
  import opened ActionTypes

  const MAX_RECORDS := 1000
  const MAX_BUSY := 2
  const COOLDOWN: int := 30 * SECOND
  const RETENTION: int := 30 * DAY

  datatype Terminal = Terminal(at: Time, code: Code, expired: bool)

  datatype Record = Record(key: Key, admitted: Time, intent: Option<Time>, terminal: Option<Terminal>)

  // An open, mutable attempt; `token` stands for the identity of its handle.
  datatype Attempt = Attempt(token: nat, record: Record)

  datatype Journal = Journal(
    binding: Binding, rows: map<string, Record>, floor: Time, failed: bool, active: map<string, Attempt>)

  // What the environment does to one transaction.
  datatype Fate = Locked | GuardRefused | BeginFailed | Aborted | CommitLost | CommitKept | Committed

  datatype BusyReason = LockHeld | SameAction | CoolingDown | RelatedActive | Capacity
  datatype ConflictReason = WrongIdentity | OtherMetadata | NotYetCreated | AlreadyExpired | BelowFloor

  datatype Outcome =
    | Granted(attempt: Attempt)
    | Retained(record: Record)
    | Done
    | Conflict(why: ConflictReason)
    | UnresolvedTarget
    | Busy(reason: BusyReason)
    | Full
    | Recovery

  datatype Body = Write(rows: map<string, Record>, floor: Time, reply: Outcome) | Deny(refusal: Outcome)

  datatype Step =
    | Acquire(key: Key, token: nat, coolFirst: bool)
    | Intent(id: string, token: nat)
    | Finish(id: string, token: nat, code: Code)
    | Release(id: string, token: nat)
    | Prune(picked: set<string>)
    | Shut
    | Reopen

  datatype Timed = Timed(step: Step, now: Time, fate: Fate, rollbackOk: bool)

  predicate Unresolved(r: Record) {
    r.intent.Some? && r.terminal.None?
  }

  predicate Undispatched(r: Record) {
    r.intent.None? && r.terminal.None?
  }

  predicate Cooling(r: Record, now: Time) {
    r.terminal.Some? && Success(r.terminal.value.code) && now < r.terminal.value.at + COOLDOWN
  }

  predicate TerminalAllowed(op: Operation, intent: bool, code: Code, expired: bool) {
    if !intent && code == Denied then expired
    else if expired then false
    else if intent then
      (op == Start && code == Started) || (op == Stop && code == Stopped) || (op == Restart && code == Restarted)
    else code == StateConflict || (op == Start && code == AlreadyRunning) || (op == Stop && code == AlreadyStopped)
  }

  predicate StampsParse(r: Record) {
    && ParsesAsStamp(r.admitted)
    && (r.intent.Some? ==> ParsesAsStamp(r.intent.value))
    && (r.terminal.Some? ==> ParsesAsStamp(r.terminal.value.at))
  }

  function DeniedAt(r: Record, now: Time): Record {
    r.(terminal := Some(Terminal(now, Denied, true)))
  }

  function UnresolvedIDs(rows: map<string, Record>): set<string> {
    set id | id in rows && Unresolved(rows[id])
  }

  function Permits(active: map<string, Attempt>): set<string> {
    set id | id in active && Undispatched(active[id].record)
  }

  predicate UnresolvedRelated(rows: map<string, Record>, k: Key) {
    exists id :: id in rows && Related(rows[id].key, k) && Unresolved(rows[id])
  }

  predicate CoolingRelated(rows: map<string, Record>, k: Key, now: Time) {
    exists id :: id in rows && Related(rows[id].key, k) && Cooling(rows[id], now)
  }

  predicate UnreadableRelated(rows: map<string, Record>, k: Key) {
    exists id :: id in rows && Related(rows[id].key, k) && !StampsParse(rows[id])
  }

  predicate ActiveRelated(active: map<string, Attempt>, k: Key) {
    exists id :: id in active && Related(active[id].record.key, k)
  }

  // ---------- admission ----------

  function AdmitBody(s: Journal, k: Key, token: nat, now: Time, record: Record, known: bool): Body {
    if |UnresolvedIDs(s.rows)| > MAX_BUSY then Deny(Recovery)
    else if |Permits(s.active)| + |UnresolvedIDs(s.rows)| >= MAX_BUSY then Deny(Busy(Capacity))
    else if known then Write(s.rows, s.floor, Granted(Attempt(token, record)))
    else if |s.rows| > MAX_RECORDS then Deny(Recovery)
    else if |s.rows| == MAX_RECORDS then Deny(Full)
    else Write(s.rows[k.ActionID() := record], s.floor, Granted(Attempt(token, record)))
  }

  function RelatedBody(s: Journal, k: Key, token: nat, now: Time, coolFirst: bool, record: Record, known: bool): Body {
    var unresolved := UnresolvedRelated(s.rows, k);
    var cooling := CoolingRelated(s.rows, k, now);
    if UnreadableRelated(s.rows, k) then Deny(Recovery)
    else if unresolved && !(cooling && coolFirst) then Deny(UnresolvedTarget)
    else if cooling then Deny(Busy(CoolingDown))
    else if ActiveRelated(s.active, k) then Deny(Busy(RelatedActive))
    else AdmitBody(s, k, token, now, record, known)
  }

  function AcquireBody(s: Journal, k: Key, token: nat, now: Time, coolFirst: bool): Body {
    var id := k.ActionID();
    var found := if id in s.rows then Some(s.rows[id]) else None;
    if found.Some? && !StampsParse(found.value) then Deny(Recovery)
    else if found.Some? && found.value.key != k then Deny(Conflict(OtherMetadata))
    else if found.Some? && !Undispatched(found.value) then Write(s.rows, s.floor, Retained(found.value))
    else if id in s.active then Deny(Busy(SameAction))
    else if now < k.request.created then Deny(Conflict(NotYetCreated))
    else if now >= k.Expires() then
      if found.None? then Deny(Conflict(AlreadyExpired))
      else if !Storable(now) then Deny(Recovery)
      else Write(s.rows[id := DeniedAt(found.value, now)], s.floor, Retained(DeniedAt(found.value, now)))
    else if !ParsesAsStamp(s.floor) then Deny(Recovery)
    else if found.None? && k.Expires() <= s.floor then Deny(Conflict(BelowFloor))
    else
      var record := if found.Some? then found.value else Record(k, now, None, None);
      RelatedBody(s, k, token, now, coolFirst, record, found.Some?)
  }

  // ---------- transactions ----------

  predicate Tolerated(o: Outcome) {
    o.Busy? || o.Full? || o.Conflict? || o.UnresolvedTarget?
  }

  function Transact(s: Journal, fate: Fate, rollbackOk: bool, body: Body): (Journal, Outcome) {
    if fate == GuardRefused then (s, Recovery)
    else if fate == BeginFailed then (s.(failed := true), Recovery)
    else match body
      case Deny(o) => if Tolerated(o) && rollbackOk then (s, o) else (s.(failed := true), Recovery)
      case Write(rows, floor, reply) =>
        if fate == Committed then (s.(rows := rows, floor := floor), reply)
        else if fate == CommitKept then (s.(rows := rows, floor := floor, failed := true), Recovery)
        else (s.(failed := true), Recovery)
  }

  function AcquireStep(s: Journal, k: Key, token: nat, coolFirst: bool, t: Timed): (Journal, Outcome) {
    if t.fate == GuardRefused then (s, Recovery)
    else if !Canonical(k) || !BoundTo(k, s.binding) then (s, Conflict(WrongIdentity))
    else if t.fate == Locked then (s, Busy(LockHeld))
    else if s.failed then (s, Recovery)
    else
      var (s', o) := Transact(s, t.fate, t.rollbackOk, AcquireBody(s, k, token, t.now, coolFirst));
      (if o.Granted? then s'.(active := s'.active[k.ActionID() := o.attempt]) else s', o)
  }

  // ---------- transitions of one attempt ----------

  function Advanced(r: Record, code: Option<Code>, now: Time): Record {
    if code.None? then r.(intent := Some(now)) else r.(terminal := Some(Terminal(now, code.value, false)))
  }

  predicate MayTransition(s: Journal, id: string, token: nat, code: Option<Code>) {
    && !s.failed && id in s.active && s.active[id].token == token
    && var r := s.active[id].record;
       r.terminal.None? &&
       if code.None? then r.intent.None?
       else TerminalAllowed(r.key.request.operation, r.intent.Some?, code.value, false)
  }

  function TransitionBody(s: Journal, id: string, code: Option<Code>, now: Time): Body
    requires id in s.active
  {
    var mine := s.active[id].record;
    if id !in s.rows || !StampsParse(s.rows[id]) then Deny(Recovery)
    else
      var actual := s.rows[id];
      if actual.key != mine.key || actual.admitted != mine.admitted || actual.intent != mine.intent ||
        actual.terminal.Some?
         || now < actual.admitted || (actual.intent.Some? && now < actual.intent.value)
         || (code.None? && now >= mine.key.Expires()) || !Storable(now)
      then Deny(Recovery)
      else Write(s.rows[id := Advanced(actual, code, now)], s.floor, Done)
  }

  function TransitionStep(s: Journal, id: string, token: nat, code: Option<Code>, t: Timed): (Journal, Outcome) {
    if t.fate == GuardRefused then (s, Recovery)
    else if t.fate == Locked then (s, Busy(LockHeld))
    else if !MayTransition(s, id, token, code) then (s, Recovery)
    else
      var (s', o) := Transact(s, t.fate, t.rollbackOk, TransitionBody(s, id, code, t.now));
      (if o.Done? then
         s'.(active := s'.active[id := Attempt(token, Advanced(s.active[id].record, code, t.now))])
       else s', o)
  }

  function ReleaseStep(s: Journal, id: string, token: nat): Journal {
    if id in s.active && s.active[id].token == token then s.(active := s.active - {id}) else s
  }

  // ---------- pruning ----------

  predicate Expirable(r: Record, now: Time) {
    Undispatched(r) && now >= r.key.Expires()
  }

  predicate Deletable(r: Record, now: Time) {
    r.terminal.Some? && r.terminal.value.at <= now - RETENTION && r.key.Expires() <= now - RETENTION
  }

  predicate Prunable(s: Journal, id: string, now: Time) {
    id in s.rows && id !in s.active && (Expirable(s.rows[id], now) || Deletable(s.rows[id], now))
  }

  function PrunedRows(s: Journal, picked: set<string>, now: Time): map<string, Record> {
    map id | id in s.rows && !(id in picked && Prunable(s, id, now) && Deletable(s.rows[id], now)) ::
      if id in picked && Prunable(s, id, now) then DeniedAt(s.rows[id], now) else s.rows[id]
  }

  function Later(a: Time, b: Time): Time {
    if a < b then b else a
  }

  predicate DeniesAny(s: Journal, picked: set<string>, now: Time) {
    exists id :: id in picked && Prunable(s, id, now) && Expirable(s.rows[id], now)
  }

  function PruneBody(s: Journal, picked: set<string>, now: Time): Body {
    if !ParsesAsStamp(s.floor) || (exists id :: id in s.rows && !StampsParse(s.rows[id])) then Deny(Recovery)
    else if (DeniesAny(s, picked, now) && !Storable(now)) || !Storable(Later(now - RETENTION, s.floor))
      then Deny(Recovery)
    else Write(PrunedRows(s, picked, now), Later(now - RETENTION, s.floor), Done)
  }

  function PruneStep(s: Journal, picked: set<string>, t: Timed): (Journal, Outcome) {
    if t.fate == Locked then (s, Busy(LockHeld))
    else if s.failed then (s, Recovery)
    // Prune carries no execution guard.
    else Transact(s, if t.fate == GuardRefused then Committed else t.fate, t.rollbackOk, PruneBody(s, picked, t.now))
  }

  // ---------- reopening ----------

  predicate RowValid(b: Binding, id: string, r: Record) {
    && r.key.ActionID() == id && Canonical(r.key) && BoundTo(r.key, b)
    && r.key.request.created <= r.admitted < r.key.Expires()
    && (r.intent.Some? ==> r.admitted <= r.intent.value < r.key.Expires())
    && (r.terminal.Some? ==>
          && r.admitted <= r.terminal.value.at
          && (r.intent.Some? ==> r.intent.value <= r.terminal.value.at)
          && TerminalAllowed(r.key.request.operation, r.intent.Some?, r.terminal.value.code, r.terminal.value.expired)
          && (r.terminal.value.code == Denied ==> r.key.Expires() <= r.terminal.value.at))
  }

  predicate UnresolvedApart(rows: map<string, Record>) {
    forall x, y :: x in rows && y in rows && x != y && Unresolved(rows[x]) && Unresolved(rows[y]) ==>
      !Related(rows[x].key, rows[y].key)
  }

  /** What `verify` demands of a store before a handle is given out. */
  predicate Reloads(b: Binding, rows: map<string, Record>, floor: Time) {
    && ParsesAsStamp(floor)
    && |rows| <= MAX_RECORDS
    && (forall id :: id in rows ==> RowValid(b, id, rows[id]) && StampsParse(rows[id]))
    && UnresolvedApart(rows)
    && |UnresolvedIDs(rows)| <= MAX_BUSY
  }

  function Closed(s: Journal): Journal {
    s.(failed := true, active := map[])
  }

  function ReopenStep(s: Journal): (Journal, Outcome) {
    if Reloads(s.binding, s.rows, s.floor) then (s.(failed := false, active := map[]), Done) else (Closed(s), Recovery)
  }

  // ---------- runs ----------

  function Apply(s: Journal, t: Timed): (Journal, Outcome) {
    match t.step
    case Acquire(k, token, coolFirst) => AcquireStep(s, k, token, coolFirst, t)
    case Intent(id, token) => TransitionStep(s, id, token, None, t)
    case Finish(id, token, code) => TransitionStep(s, id, token, Some(code), t)
    case Release(id, token) => (ReleaseStep(s, id, token), Done)
    case Prune(picked) => PruneStep(s, picked, t)
    case Shut => (Closed(s), Done)
    case Reopen => ReopenStep(s)
  }

  function Next(s: Journal, t: Timed): Journal {
    Apply(s, t).0
  }

  function Provisioned(b: Binding): Journal {
    Journal(b, map[], 0, false, map[])
  }

  function Run(s: Journal, steps: seq<Timed>): Journal
    decreases |steps|
  {
    if steps == [] then s else Run(Next(s, steps[0]), steps[1..])
  }
}
