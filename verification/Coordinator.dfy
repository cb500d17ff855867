/** The execution coordinator: one request driven through authority, journal and
    engine. The three collaborators and the clocks are adversarial - every call
    may return anything - so what is proved holds of the sequence itself. */
module Coordinator {
  import opened ActionTypes

  datatype Reply = Granted | ConflictError | UnresolvedError | OtherError

  // How the engine call went: its error, the context, and the times around it.
  datatype Call = Call(ok: bool, cancelled: bool, budget: int, elapsed: int, left: int)

  datatype Event =
    | Looked(left: int)
    | Checked(ok: bool)
    | Acquired(reply: Reply)
    | Existing(found: Option<Code>)
    | Inspected(state: Option<State>)
    | IntentTried(ok: bool)
    | Mutated(operation: Operation, container: string, grace: nat, call: Call)
    | FinishTried(code: Code, ok: bool)
    | Closed

  datatype Delivery = Delivery(started: Option<Time>, received: Time, lease: Time)

  // One look at the clocks: the context, the worker's clock, the time to the context's deadline.
  datatype Tick = Tick(cancelled: bool, now: Time, until: Option<int>)

  function Min(a: int, b: int): int {
    if a < b then a else b
  }

  function Earliest(values: seq<Time>): (end: Time)
    requires values != []
    ensures end in values && forall i :: 0 <= i < |values| ==> end <= values[i]
  {
    if |values| == 1 then values[0] else Min(values[0], Earliest(values[1..]))
  }

  function End(r: Request, d: Delivery): Time
    requires d.started.Some?
  {
    Earliest([r.expires, d.started.value + 90 * SECOND, d.received + 60 * SECOND, d.lease - 30 * SECOND])
  }

  function Remaining(t: Tick, end: Time): int {
    if t.cancelled then 0
    else if t.until.Some? then Min(end - t.now, t.until.value) else end - t.now
  }

  /** Time is left exactly while the context lives and both deadlines lie ahead, and
      it is never more than to either. */
  lemma RemainingIs(t: Tick, end: Time)
    ensures Remaining(t, end) > 0 <==> !t.cancelled && t.now < end && (t.until.Some? ==> t.until.value > 0)
    ensures Remaining(t, end) > 0 ==> t.now + Remaining(t, end) <= end
    ensures Remaining(t, end) > 0 && t.until.Some? ==> Remaining(t, end) <= t.until.value
  {
  }

  function CallBudget(left: int, grace: nat): int {
    var budget := Min(45 * SECOND, left - 5 * SECOND);
    if budget < grace * SECOND + 5 * SECOND then 0 else budget
  }

  function Classify(op: Operation, s: State): (Code, bool) {
    if op == Start && s == Running then (AlreadyRunning, false)
    else if op == Start && (s == Created || s == Exited) then (Started, true)
    else if op == Stop && (s == Created || s == Exited) then (AlreadyStopped, false)
    else if op == Stop && s == Running then (Stopped, true)
    else if op == Restart && s == Running then (Restarted, true)
    else (StateConflict, false)
  }

  predicate Retained(c: Code, op: Operation) {
    match c
    case Denied => true case StateConflict => true case OutcomeUnknown => true
    case Started => op == Start case AlreadyRunning => op == Start
    case Stopped => op == Stop case AlreadyStopped => op == Stop
    case Restarted => op == Restart
    case _ => false
  }

  predicate Timely(c: Call) {
    c.ok && !c.cancelled && c.elapsed < c.budget && 5 * SECOND < c.left
  }

  // ---------- the protocol, as an automaton over its events ----------

  // A phase ending in "On" is the one before it, found to have time left.
  datatype Phase =
    | Idle
    | Refused
    | Permitted
    | PermittedOn
    | NotGranted(reply: Reply)
    | Holding
    | HoldingOn
    | Known(code: Code)
    | KnownOn(code: Code)
    | Undispatched
    | UndispatchedOn
    | Blind
    | Seen(state: State)
    | SeenOn(state: State)
    | RefusedAgain
    | Reauthorised(state: State)
    | ReauthorisedOn(state: State)
    | Settled(code: Code, ok: bool)
    | SettledOn(code: Code)
    | Budgeted(state: State)
    | IntentLost
    | Intended(state: State)
    | Funded(state: State, budget: int)
    | Returned(state: State, call: Call)
    | Finished(code: Code, ok: bool)
    | FinishedOn(code: Code)
    | OutOfTime(before: Phase)
    | Ended(before: Phase)

  predicate Holds(p: Phase) {
    match p
    case Idle => false
    case Refused => false
    case Permitted => false
    case PermittedOn => false
    case NotGranted(_) => false
    case Ended(_) => false
    case OutOfTime(q) => q != Permitted
    case _ => true
  }

  // Where a look at the clock leads.
  function Look(p: Phase, left: int, r: Request): Option<Phase> {
    var go := left > 0;
    match p
    case Permitted => Some(if go then PermittedOn else OutOfTime(p))
    case Holding => Some(if go then HoldingOn else OutOfTime(p))
    case Known(code) => Some(if go then KnownOn(code) else OutOfTime(p))
    case Undispatched => Some(if go then UndispatchedOn else OutOfTime(p))
    case Seen(s) => Some(if go then SeenOn(s) else OutOfTime(p))
    case Reauthorised(s) => Some(if go then ReauthorisedOn(s) else OutOfTime(p))
    case ReauthorisedOn(s) =>
      if !Classify(r.operation, s).1 then None
      else Some(if CallBudget(left, r.grace) > 0 then Budgeted(s) else OutOfTime(p))
    case Settled(code, ok) => if ok then Some(if go then SettledOn(code) else OutOfTime(p)) else None
    case Intended(s) =>
      var budget := CallBudget(left, r.grace);
      Some(if budget > 0 then Funded(s, budget) else OutOfTime(p))
    case Finished(code, ok) => if ok then Some(if go then FinishedOn(code) else OutOfTime(p)) else None
    case _ => None
  }

  function Advance(p: Phase, e: Event, r: Request, container: string): Option<Phase> {
    match (p, e)
    case (_, Looked(left)) => Look(p, left, r)
    case (Idle, Checked(ok)) => Some(if ok then Permitted else Refused)
    case (PermittedOn, Acquired(reply)) => Some(if reply == Granted then Holding else NotGranted(reply))
    case (HoldingOn, Existing(code)) => Some(if code.Some? then Known(code.value) else Undispatched)
    case (UndispatchedOn, Inspected(s)) => Some(if s.Some? then Seen(s.value) else Blind)
    case (SeenOn(s), Checked(ok)) => Some(if ok then Reauthorised(s) else RefusedAgain)
    case (ReauthorisedOn(s), FinishTried(code, ok)) =>
      if Classify(r.operation, s) == (code, false) then Some(Settled(code, ok)) else None
    case (Budgeted(s), IntentTried(ok)) => Some(if ok then Intended(s) else IntentLost)
    case (Funded(s, budget), Mutated(op, id, grace, call)) =>
      if op == r.operation && id == container && grace == r.grace && call.budget == budget
      then Some(Returned(s, call)) else None
    case (Returned(s, call), FinishTried(code, ok)) =>
      if Timely(call) && code == Classify(r.operation, s).0 then Some(Finished(code, ok)) else None
    case (_, Closed) => if Holds(p) && Verdict(p, r).Some? then Some(Ended(p)) else None
    case _ => None
  }

  // The answer the sequence stops with in a phase, or none where it must go on.
  function Verdict(p: Phase, r: Request): Option<Code> {
    match p
    case Refused => Some(Denied)
    case NotGranted(reply) =>
      (match reply
       case ConflictError => Some(IdentityConflict)
       case UnresolvedError => Some(OutcomeUnknown)
       case OtherError => Some(Unavailable)
       case Granted => None)
    case KnownOn(code) => Some(if Retained(code, r.operation) then code else Unavailable)
    case Blind => Some(Unavailable)
    case RefusedAgain => Some(Denied)
    case Settled(_, ok) => if ok then None else Some(Unavailable)
    case SettledOn(code) => Some(code)
    case IntentLost => Some(OutcomeUnknown)
    case Returned(_, call) => if Timely(call) then None else Some(OutcomeUnknown)
    case Finished(_, ok) => if ok then None else Some(OutcomeUnknown)
    case FinishedOn(code) => Some(code)
    case OutOfTime(q) => Some(if q.Intended? || q.Finished? then OutcomeUnknown else BudgetExceeded)
    case _ => None
  }

  // A run is over when it may answer and has closed what it was granted.
  function Final(p: Phase, r: Request): Option<Code> {
    if p.Ended? then Verdict(p.before, r) else if Holds(p) then None else Verdict(p, r)
  }

  function Walk(p: Phase, log: seq<Event>, r: Request, container: string): Option<Phase>
    decreases |log|
  {
    if log == [] then Some(p)
    else
      match Advance(p, log[0], r, container)
      case None => None
      case Some(p') => Walk(p', log[1..], r, container)
  }

  lemma {:induction false} WalkAppend(p: Phase, log: seq<Event>, e: Event, r: Request, container: string)
    requires Walk(p, log, r, container).Some?
    ensures Walk(p, log + [e], r, container) == Advance(Walk(p, log, r, container).value, e, r, container)
    decreases |log|
  {
    hide Advance;
    if log == [] {
      assert (log + [e])[1..] == [];
    } else {
      assert (log + [e])[1..] == log[1..] + [e];
      WalkAppend(Advance(p, log[0], r, container).value, log[1..], e, r, container);
    }
  }

  // ---------- the adversarial collaborators ----------

  class World {
    var log: seq<Event>

    constructor ()
      ensures log == []
    {
      log := [];
    }

    method Now() returns (t: Tick)
    {
      t := *;
    }

    // One look at the clocks, and the time it leaves.
    method Look(end: Time) returns (left: int)
      modifies this
      ensures log == old(log) + [Looked(left)]
    {
      var t := Now();
      left := Remaining(t, end);
      log := log + [Looked(left)];
    }

    method Check() returns (ok: bool)
      modifies this
      ensures log == old(log) + [Checked(ok)]
    {
      ok := *;
      log := log + [Checked(ok)];
    }

    method Acquire() returns (reply: Reply)
      modifies this
      ensures log == old(log) + [Acquired(reply)]
    {
      reply := *;
      log := log + [Acquired(reply)];
    }

    method AskExisting() returns (code: Option<Code>)
      modifies this
      ensures log == old(log) + [Existing(code)]
    {
      code := *;
      log := log + [Existing(code)];
    }

    method Inspect() returns (state: Option<State>)
      modifies this
      ensures log == old(log) + [Inspected(state)]
    {
      state := *;
      log := log + [Inspected(state)];
    }

    method Intent() returns (ok: bool)
      modifies this
      ensures log == old(log) + [IntentTried(ok)]
    {
      ok := *;
      log := log + [IntentTried(ok)];
    }

    // Start, stop or restart the container, bounded by the budget.
    method Mutate(op: Operation, container: string, grace: nat, budget: int, end: Time) returns (call: Call)
      modifies this
      ensures call.budget == budget && log == old(log) + [Mutated(op, container, grace, call)]
    {
      var ok, cancelled, elapsed, after := *, *, *, *;
      call := Call(ok, cancelled, budget, elapsed, Remaining(after, end));
      log := log + [Mutated(op, container, grace, call)];
    }

    method Finish(code: Code) returns (ok: bool)
      modifies this
      ensures log == old(log) + [FinishTried(code, ok)]
    {
      ok := *;
      log := log + [FinishTried(code, ok)];
    }

    method Close()
      modifies this
      ensures log == old(log) + [Closed]
    {
      log := log + [Closed];
    }
  }

  // ---------- the coordinator ----------

  ghost predicate At(log: seq<Event>, p: Phase, r: Request, container: string) {
    Walk(Idle, log, r, container) == Some(p)
  }

  lemma Move(log: seq<Event>, p: Phase, e: Event, r: Request, container: string) returns (q: Phase)
    requires At(log, p, r, container) && Advance(p, e, r, container).Some?
    ensures q == Advance(p, e, r, container).value && At(log + [e], q, r, container)
  {
    q := Advance(p, e, r, container).value;
    WalkAppend(Idle, log, e, r, container);
  }

  method Valid(r: Request, b: LocalBinding, now: Time) returns (ok: bool)
    ensures ok <==> ValidRequest(r, b, now)
  {
    hide Identifier, Hex;
    if !(&& Identifier(r.actionID, "hla_") && Identifier(r.serverID, "srv_") && Identifier(r.installationID, "agent_")
         && Identifier(r.ownerID, "usr_") && Identifier(r.actorID, "usr_") && Identifier(r.targetID, "hlt_")
         && Hex(b.container, 64) && Hex(b.engine, 32) && r.policyRevision != 0 && r.capabilityRevision != 0
         && r.serverID == b.serverID && r.installationID == b.installationID && r.ownerID == b.ownerID &&
            r.targetID == b.targetID
         && r.policyRevision == b.policyRevision && r.capabilityRevision == b.capabilityRevision
         && r.created != 0 && r.created < r.expires && r.expires - r.created <= 300 * SECOND
         && r.created <= now < r.expires && 1 <= |b.operations| <= 3) {
      return false;
    }
    var seen: set<Operation> := {};
    for i := 0 to |b.operations|
      invariant forall op :: op in seen <==> op in b.operations[..i]
      invariant Distinct(b.operations[..i])
    {
      if b.operations[i] in seen {
        var k :| 0 <= k < i && b.operations[k] == b.operations[i];
        return false;
      }
      assert b.operations[..i + 1] == b.operations[..i] + [b.operations[i]];
      seen := seen + {b.operations[i]};
    }
    assert b.operations[..|b.operations|] == b.operations;
    if r.operation !in seen { return false; }
    if (Stop in seen || Restart in seen) && (b.grace < 1 || b.grace > 30) { return false; }
    if r.operation == Start { return r.grace == 0; }
    ok := 1 <= r.grace <= 30 && r.grace == b.grace;
  }

  // From a granted attempt to the answer; the caller closes the attempt.
  method Drive(w: World, r: Request, b: LocalBinding, end: Time) returns (code: Code, ghost p: Phase)
    requires At(w.log, Holding, r, b.container)
    modifies w
    ensures At(w.log, p, r, b.container) && Holds(p) && Verdict(p, r) == Some(code)
  {
    hide At, Classify, CallBudget;
    p := Holding;
    var left := w.Look(end);
    p := Move(old(w.log), p, Looked(left), r, b.container);
    if left <= 0 { return BudgetExceeded, p; }
    ghost var before := w.log;
    var known := w.AskExisting();
    p := Move(before, p, Existing(known), r, b.container);
    before := w.log;
    left := w.Look(end);
    p := Move(before, p, Looked(left), r, b.container);
    if left <= 0 { return BudgetExceeded, p; }
    if known.Some? {
      return if Retained(known.value, r.operation) then known.value else Unavailable, p;
    }
    code, p := Observe(w, r, b, end);
  }

  // From an attempt with nothing retained: look at the container.
  method Observe(w: World, r: Request, b: LocalBinding, end: Time) returns (code: Code, ghost p: Phase)
    requires At(w.log, UndispatchedOn, r, b.container)
    modifies w
    ensures At(w.log, p, r, b.container) && Holds(p) && Verdict(p, r) == Some(code)
  {
    hide At, Classify, CallBudget, Retained;
    p := UndispatchedOn;
    var state := w.Inspect();
    p := Move(old(w.log), p, Inspected(state), r, b.container);
    if state.None? { return Unavailable, p; }
    ghost var before := w.log;
    var left := w.Look(end);
    p := Move(before, p, Looked(left), r, b.container);
    if left <= 0 { return BudgetExceeded, p; }
    code, p := Decide(w, r, b, end, state.value);
  }

  // From a known state: authorise again, then either settle or dispatch.
  method Decide(w: World, r: Request, b: LocalBinding, end: Time, state: State) returns (code: Code, ghost p: Phase)
    requires At(w.log, SeenOn(state), r, b.container)
    modifies w
    ensures At(w.log, p, r, b.container) && Holds(p) && Verdict(p, r) == Some(code)
  {
    hide At, Retained, CallBudget, Classify;
    p := SeenOn(state);
    var allowed := w.Check();
    p := Move(old(w.log), p, Checked(allowed), r, b.container);
    if !allowed { return Denied, p; }
    ghost var before := w.log;
    var left := w.Look(end);
    p := Move(before, p, Looked(left), r, b.container);
    if left <= 0 { return BudgetExceeded, p; }
    if !Classify(r.operation, state).1 {
      code, p := Settle(w, r, b, end, state);
      return;
    }
    before := w.log;
    left := w.Look(end);
    p := Move(before, p, Looked(left), r, b.container);
    if CallBudget(left, r.grace) <= 0 { return BudgetExceeded, p; }
    before := w.log;
    var intended := w.Intent();
    p := Move(before, p, IntentTried(intended), r, b.container);
    if !intended { return OutcomeUnknown, p; }
    code, p := Dispatch(w, r, b, end, state);
  }

  // Nothing to change: record why.
  method Settle(w: World, r: Request, b: LocalBinding, end: Time, state: State) returns (code: Code, ghost p: Phase)
    requires At(w.log, ReauthorisedOn(state), r, b.container) && !Classify(r.operation, state).1
    modifies w
    ensures At(w.log, p, r, b.container) && Holds(p) && Verdict(p, r) == Some(code)
  {
    hide At, Retained, CallBudget, Classify;
    var answer := Classify(r.operation, state).0;
    var settled := w.Finish(answer);
    p := Move(old(w.log), ReauthorisedOn(state), FinishTried(answer, settled), r, b.container);
    if !settled { return Unavailable, p; }
    ghost var before := w.log;
    var left := w.Look(end);
    p := Move(before, p, Looked(left), r, b.container);
    code := if left <= 0 then BudgetExceeded else answer;
  }

  // After a committed intent: at most one engine call, and its outcome.
  method Dispatch(w: World, r: Request, b: LocalBinding, end: Time, state: State) returns (code: Code, ghost p: Phase)
    requires At(w.log, Intended(state), r, b.container)
    modifies w
    ensures At(w.log, p, r, b.container) && Holds(p) && Verdict(p, r) == Some(code)
  {
    hide At, Retained, Classify, CallBudget;
    p := Intended(state);
    var left := w.Look(end);
    p := Move(old(w.log), p, Looked(left), r, b.container);
    var budget := CallBudget(left, r.grace);
    if budget <= 0 { return OutcomeUnknown, p; }
    ghost var before := w.log;
    var call := w.Mutate(r.operation, b.container, r.grace, budget, end);
    p := Move(before, p, Mutated(r.operation, b.container, r.grace, call), r, b.container);
    if !Timely(call) { return OutcomeUnknown, p; }
    before := w.log;
    var answer := Classify(r.operation, state).0;
    var recorded := w.Finish(answer);
    p := Move(before, p, FinishTried(answer, recorded), r, b.container);
    if !recorded { return OutcomeUnknown, p; }
    before := w.log;
    left := w.Look(end);
    p := Move(before, p, Looked(left), r, b.container);
    code := if left <= 0 then OutcomeUnknown else answer;
  }

  // Why a request is turned away before anybody is asked.
  function Entry(wired: bool, r: Request, b: LocalBinding, d: Delivery, t: Tick): Option<Code> {
    if !ValidRequest(r, b, t.now) then Some(Denied)
    else if !wired then Some(Unavailable)
    else if d.started.None? || d.received < d.started.value || d.received - d.started.value > 30 * SECOND ||
            t.now < d.received || Remaining(t, End(r, d)) <= 0 then Some(BudgetExceeded)
    else None
  }

  /** One execution. Against every behaviour of its collaborators and clocks its
      calls follow the automaton, it stops only where the automaton stops, and it
      answers what the automaton answers there. */
  method Execute(w: World, wired: bool, r: Request, b: LocalBinding, d: Delivery)
    returns (code: Code, ghost p: Phase, ghost t: Tick)
    requires w.log == []
    modifies w
    ensures At(w.log, p, r, b.container)
    ensures var entry := Entry(wired, r, b, d, t);
      if entry.Some? then w.log == [] && code == entry.value
      else if p == PermittedOn then NewJournalKey(r, b).None? && code == Unavailable
      else Final(p, r) == Some(code)
  {
    hide ValidRequest, NewJournalKey, Retained;
    p := Idle;
    var now := w.Now();
    t := now;
    var valid := Valid(r, b, now.now);
    if !valid { return Denied, p, t; }
    if !wired { return Unavailable, p, t; }
    if d.started.None? || d.received < d.started.value || d.received - d.started.value > 30 * SECOND ||
       now.now < d.received {
      return BudgetExceeded, p, t;
    }
    var end := End(r, d);
    if Remaining(now, end) <= 0 { return BudgetExceeded, p, t; }
    hide At, Classify, Entry, Remaining;
    StartsIdle(r, b.container);
    code, p := Authorise(w, r, b, end);
  }

  // From a request that may start: authorise, acquire, and close what was granted.
  method Authorise(w: World, r: Request, b: LocalBinding, end: Time) returns (code: Code, ghost p: Phase)
    requires At(w.log, Idle, r, b.container)
    modifies w
    ensures At(w.log, p, r, b.container)
    ensures if p == PermittedOn then NewJournalKey(r, b).None? && code == Unavailable else Final(p, r) == Some(code)
  {
    hide At, Classify, CallBudget, NewJournalKey, Retained;
    var allowed := w.Check();
    p := Move(old(w.log), Idle, Checked(allowed), r, b.container);
    if !allowed { return Denied, p; }
    ghost var before := w.log;
    var left := w.Look(end);
    p := Move(before, p, Looked(left), r, b.container);
    if left <= 0 { return BudgetExceeded, p; }
    if NewJournalKey(r, b).None? { return Unavailable, p; }
    before := w.log;
    var reply := w.Acquire();
    p := Move(before, p, Acquired(reply), r, b.container);
    match reply
    case ConflictError => return IdentityConflict, p;
    case UnresolvedError => return OutcomeUnknown, p;
    case OtherError => return Unavailable, p;
    case Granted =>
    code, p := Drive(w, r, b, end);
    before := w.log;
    w.Close();
    p := Move(before, p, Closed, r, b.container);
  }

  // ---------- what the automaton guarantees ----------

  lemma {:induction false} PrefixAt(p: Phase, log: seq<Event>, n: nat, r: Request, container: string)
    requires Walk(p, log, r, container).Some? && n <= |log|
    ensures Walk(p, log[..n], r, container).Some?
    ensures Walk(p, log, r, container) == Walk(Walk(p, log[..n], r, container).value, log[n..], r, container)
    decreases |log|
  {
    hide Advance;
    if n > 0 {
      assert log[..n][1..] == log[1..][..n - 1] && log[1..][n - 1..] == log[n..];
      PrefixAt(Advance(p, log[0], r, container).value, log[1..], n - 1, r, container);
    } else {
      assert log[n..] == log;
    }
  }

  // The event that led into the last phase, and the phase before it.
  lemma Back(log: seq<Event>, p: Phase, r: Request, container: string) returns (q: Phase, first: seq<Event>, e: Event)
    requires At(log, p, r, container) && p != Idle
    ensures log == first + [e] && At(first, q, r, container) && Advance(q, e, r, container) == Some(p)
  {
    hide Advance;
    var n := |log| - 1;
    PrefixAt(Idle, log, n, r, container);
    first, e := log[..n], log[n];
    q := Walk(Idle, first, r, container).value;
    assert log == first + [e];
    WalkAppend(Idle, first, e, r, container);
  }

  lemma StartsIdle(r: Request, container: string)
    ensures At([], Idle, r, container) && forall p :: At([], p, r, container) ==> p == Idle
  {
  }

  lemma OnlyEmptyIsIdle(log: seq<Event>, r: Request, container: string)
    requires At(log, Idle, r, container)
    ensures log == []
  {
    hide Advance;
    if log != [] {
      var n := |log| - 1;
      PrefixAt(Idle, log, n, r, container);
      assert log == log[..n] + [log[n]];
      WalkAppend(Idle, log[..n], log[n], r, container);
      NeverIdle(Walk(Idle, log[..n], r, container).value, log[n], r, container);
    }
  }

  lemma NeverIdle(p: Phase, e: Event, r: Request, container: string)
    ensures Advance(p, e, r, container) != Some(Idle)
  {
    hide Classify, CallBudget, Timely, Retained;
  }

  // The states in which the operation changes the container.
  predicate Changes(op: Operation, s: State) {
    match op
    case Start => s == Created || s == Exited
    case Stop => s == Running
    case Restart => s == Running
  }

  // The code of a change carried out, and of a request that finds nothing to do.
  function Effect(op: Operation): Code {
    match op case Start => Started case Stop => Stopped case Restart => Restarted
  }

  function NothingToDo(op: Operation, s: State): Code {
    if op == Start && s == Running then AlreadyRunning
    else if op == Stop && (s == Created || s == Exited) then AlreadyStopped
    else StateConflict
  }

  lemma ClassifyIs(op: Operation, s: State)
    ensures Classify(op, s) == if Changes(op, s) then (Effect(op), true) else (NothingToDo(op, s), false)
  {
  }

  function Asked(a: int, b: int): seq<Event> {
    [Checked(true), Looked(a), Acquired(Granted), Looked(b), Existing(None)]
  }

  lemma HistoryOfHolding(log: seq<Event>, r: Request, container: string) returns (a: int)
    requires At(log, Holding, r, container)
    ensures a > 0 && log == [Checked(true), Looked(a), Acquired(Granted)]
  {
    hide At, Classify, CallBudget, Timely, Retained;
    var q, l1, e := Back(log, Holding, r, container);
    var q1, l2, e1 := Back(l1, PermittedOn, r, container);
    a := e1.left;
    var q2, l3, e2 := Back(l2, Permitted, r, container);
    OnlyEmptyIsIdle(l3, r, container);
  }

  lemma HistoryOfUndispatched(log: seq<Event>, r: Request, container: string) returns (a: int, b: int)
    requires At(log, Undispatched, r, container)
    ensures a > 0 && b > 0 && log == Asked(a, b)
  {
    hide At, Classify, CallBudget, Timely, Retained;
    var q, l1, e := Back(log, Undispatched, r, container);
    var q1, l2, e1 := Back(l1, HoldingOn, r, container);
    b := e1.left;
    a := HistoryOfHolding(l2, r, container);
  }

  function Decided(s: State, l: seq<int>): seq<Event>
    requires |l| >= 5
  {
    Asked(l[0], l[1]) + [Looked(l[2]), Inspected(Some(s)), Looked(l[3]), Checked(true), Looked(l[4])]
  }

  lemma HistoryOfSeenOn(log: seq<Event>, s: State, r: Request, container: string) returns (l: seq<int>)
    requires At(log, SeenOn(s), r, container)
    ensures |l| == 4 && (forall i :: 0 <= i < 4 ==> l[i] > 0)
    ensures log == Asked(l[0], l[1]) + [Looked(l[2]), Inspected(Some(s)), Looked(l[3])]
  {
    hide At, Classify, CallBudget, Timely, Retained;
    var q, l1, e := Back(log, SeenOn(s), r, container);
    var q1, l2, e1 := Back(l1, Seen(s), r, container);
    var q2, l3, e2 := Back(l2, UndispatchedOn, r, container);
    var a, b := HistoryOfUndispatched(l3, r, container);
    l := [a, b, e2.left, e.left];
  }

  lemma HistoryOfReauthorisedOn(log: seq<Event>, s: State, r: Request, container: string) returns (l: seq<int>)
    requires At(log, ReauthorisedOn(s), r, container)
    ensures |l| == 5 && (forall i :: 0 <= i < 5 ==> l[i] > 0) && log == Decided(s, l)
  {
    hide At, Classify, CallBudget, Timely, Retained;
    var q, l1, e := Back(log, ReauthorisedOn(s), r, container);
    var q1, l2, e1 := Back(l1, Reauthorised(s), r, container);
    var h := HistoryOfSeenOn(l2, s, r, container);
    l := h + [e.left];
  }

  // Everything up to the engine call, with the time left at each look.
  function Cleared(s: State, l: seq<int>): seq<Event>
    requires |l| == 7
  {
    Decided(s, l) + [Looked(l[5]), IntentTried(true), Looked(l[6])]
  }

  lemma HistoryOfFunded(log: seq<Event>, s: State, budget: int, r: Request, container: string) returns (l: seq<int>)
    requires At(log, Funded(s, budget), r, container)
    ensures |l| == 7 && (forall i :: 0 <= i < 5 ==> l[i] > 0) && log == Cleared(s, l) && Classify(r.operation, s).1
    ensures CallBudget(l[5], r.grace) > 0 && budget == CallBudget(l[6], r.grace) > 0
  {
    hide At, Classify, CallBudget, Timely, Retained;
    var q, l1, e := Back(log, Funded(s, budget), r, container);
    var q1, l2, e1 := Back(l1, Intended(s), r, container);
    var q2, l3, e2 := Back(l2, Budgeted(s), r, container);
    var h := HistoryOfReauthorisedOn(l3, s, r, container);
    l := h + [e2.left, e.left];
    assert Decided(s, l) == Decided(s, h);
  }

  /** Every engine call of a run follows two permissions, a granted acquisition with
      nothing retained, an inspection that finds the state the operation changes, and
      a committed intent, each with time left; it is for exactly the requested
      operation, container and grace; and its budget leaves the grace plus five
      seconds, within 45 seconds and five seconds of the end. */
  lemma MutationNeedsEverything(log: seq<Event>, p: Phase, r: Request, container: string, i: nat)
    returns (s: State, l: seq<int>)
    requires At(log, p, r, container) && i < |log| && log[i].Mutated?
    ensures |l| == 7 && (forall k :: 0 <= k < 7 ==> l[k] > 0) && i == 13 && log[..i] == Cleared(s, l)
    ensures (r.operation == Start && s in {Created, Exited}) || (r.operation != Start && s == Running)
    ensures log[i].operation == r.operation && log[i].container == container && log[i].grace == r.grace
    ensures r.grace * SECOND + 5 * SECOND <= log[i].call.budget <= 45 * SECOND
    ensures log[i].call.budget <= l[6] - 5 * SECOND
  {
    hide Classify, Timely, Retained;
    PrefixAt(Idle, log, i, r, container);
    var q := Walk(Idle, log[..i], r, container).value;
    assert log[i..][0] == log[i];
    s := q.state;
    l := HistoryOfFunded(log[..i], s, q.budget, r, container);
    ClassifyIs(r.operation, s);
  }

  /** So no run calls the engine twice. */
  lemma AtMostOneMutation(log: seq<Event>, p: Phase, r: Request, container: string, i: nat, j: nat)
    requires At(log, p, r, container) && i < |log| && j < |log| && log[i].Mutated? && log[j].Mutated?
    ensures i == j
  {
    hide At;
    var s, l := MutationNeedsEverything(log, p, r, container, i);
    var s', l' := MutationNeedsEverything(log, p, r, container, j);
  }

  lemma HistoryOfReturned(log: seq<Event>, s: State, call: Call, r: Request, container: string) returns (l: seq<int>)
    requires At(log, Returned(s, call), r, container)
    ensures |l| == 7 && log == Cleared(s, l) + [Mutated(r.operation, container, r.grace, call)]
    ensures Classify(r.operation, s).1
  {
    hide At, Classify, CallBudget, Timely, Retained;
    var q, l1, e := Back(log, Returned(s, call), r, container);
    l := HistoryOfFunded(l1, s, q.budget, r, container);
  }

  lemma ReturnedHasIntent(log: seq<Event>, s: State, call: Call, r: Request, container: string)
    requires At(log, Returned(s, call), r, container)
    ensures exists k :: 0 <= k < |log| && log[k].IntentTried?
  {
    hide At;
    var l := HistoryOfReturned(log, s, call, r, container);
    assert log[11] == IntentTried(true);
  }

  /** A result recorded without an intent is for a state the operation leaves alone,
      and says which: already running, already stopped, or a conflict. */
  lemma SettledExactly(log: seq<Event>, p: Phase, r: Request, container: string, i: nat) returns (s: State)
    requires At(log, p, r, container) && i < |log| && log[i].FinishTried?
    requires forall k :: 0 <= k < i ==> !log[k].IntentTried?
    ensures i == 10 && log[6] == Inspected(Some(s))
    ensures !(r.operation == Start && s in {Created, Exited}) && !(r.operation != Start && s == Running)
    ensures log[i].code == AlreadyRunning <==> r.operation == Start && s == Running
    ensures log[i].code == AlreadyStopped <==> r.operation == Stop && s in {Created, Exited}
    ensures log[i].code in {AlreadyRunning, AlreadyStopped, StateConflict}
  {
    hide Classify, Timely, Retained, CallBudget;
    PrefixAt(Idle, log, i, r, container);
    var q := Walk(Idle, log[..i], r, container).value;
    assert log[i..][0] == log[i];
    if q.ReauthorisedOn? {
      s := q.state;
      var l := HistoryOfReauthorisedOn(log[..i], s, r, container);
      assert log[..i][6] == log[6];
      ClassifyIs(r.operation, s);
    } else {
      ReturnedHasIntent(log[..i], q.state, q.call, r, container);
      assert false;
    }
  }

  // Phases reached once an intent has been attempted.
  predicate PastIntent(p: Phase) {
    match p
    case IntentLost => true
    case Intended(_) => true
    case Funded(_, _) => true
    case Returned(_, _) => true
    case Finished(_, _) => true
    case FinishedOn(_) => true
    case OutOfTime(q) => q.Intended? || q.Finished?
    case Ended(q) => PastIntent(q)
    case _ => false
  }

  lemma StepPastIntent(p: Phase, e: Event, r: Request, container: string)
    requires PastIntent(p) && Advance(p, e, r, container).Some?
    ensures PastIntent(Advance(p, e, r, container).value)
  {
    hide Classify, CallBudget, Timely, Retained;
  }

  lemma {:induction false} StaysPastIntent(p: Phase, log: seq<Event>, r: Request, container: string)
    requires PastIntent(p) && Walk(p, log, r, container).Some?
    ensures PastIntent(Walk(p, log, r, container).value)
    decreases |log|
  {
    hide Advance, PastIntent;
    if log != [] {
      StepPastIntent(p, log[0], r, container);
      StaysPastIntent(Advance(p, log[0], r, container).value, log[1..], r, container);
    }
  }

  lemma IntentTriedIsPast(log: seq<Event>, p: Phase, r: Request, container: string, i: nat)
    requires At(log, p, r, container) && i < |log| && log[i].IntentTried?
    ensures PastIntent(p)
  {
    hide Classify, Timely, CallBudget, Retained;
    PrefixAt(Idle, log, i, r, container);
    var q := Walk(Idle, log[..i], r, container).value;
    assert log[i..][0] == log[i];
    StaysPastIntent(Advance(q, log[i], r, container).value, log[i..][1..], r, container);
  }

  lemma HistoryOfFinished(log: seq<Event>, code: Code, ok: bool, r: Request, container: string)
    returns (s: State, call: Call, l: seq<int>)
    requires At(log, Finished(code, ok), r, container)
    ensures |l| == 7
    ensures log == Cleared(s, l) + [Mutated(r.operation, container, r.grace, call), FinishTried(code, ok)]
    ensures Timely(call) && code == Effect(r.operation) && Changes(r.operation, s)
  {
    hide At, Classify, Timely, CallBudget, Retained;
    var q, l1, e := Back(log, Finished(code, ok), r, container);
    s, call := q.state, q.call;
    l := HistoryOfReturned(l1, s, call, r, container);
    ClassifyIs(r.operation, s);
  }

  // The complete sequence of a freshly dispatched success.
  ghost predicate FreshSuccess(log: seq<Event>, code: Code, r: Request, container: string) {
    exists s, call, l: seq<int>, left ::
      && |l| == 7 && left > 0
      && log == Cleared(s, l) +
         [Mutated(r.operation, container, r.grace, call), FinishTried(code, true), Looked(left), Closed]
      && call.ok && !call.cancelled && call.elapsed < call.budget && 5 * SECOND < call.left
      && code == Effect(r.operation) && Changes(r.operation, s)
  }

  lemma HistoryOfSuccess(log: seq<Event>, code: Code, r: Request, container: string)
    requires At(log, Ended(FinishedOn(code)), r, container)
    ensures FreshSuccess(log, code, r, container)
  {
    hide At, Classify, CallBudget, Retained, Cleared, Verdict;
    var q, l1, e := Back(log, Ended(FinishedOn(code)), r, container);
    var q1, l2, e1 := Back(l1, FinishedOn(code), r, container);
    var s, call, l := HistoryOfFinished(l2, code, true, r, container);
    assert log == Cleared(s, l) +
      [Mutated(r.operation, container, r.grace, call), FinishTried(code, true), Looked(e1.left), Closed];
  }

  /** Once an intent was attempted, only OUTCOME_UNKNOWN or the operation's own
      success is answered - the latter only for a timely engine return (with more than
      five seconds left), a committed finish and time left after it. */
  lemma AnswerAfterIntent(log: seq<Event>, p: Phase, code: Code, r: Request, container: string, i: nat)
    requires At(log, p, r, container) && Final(p, r) == Some(code) && i < |log| && log[i].IntentTried?
    ensures code == OutcomeUnknown || FreshSuccess(log, code, r, container)
  {
    hide At, Classify, Timely, CallBudget, Retained, FreshSuccess;
    IntentTriedIsPast(log, p, r, container, i);
    if code != OutcomeUnknown {
      HistoryOfSuccess(log, code, r, container);
    }
  }

  /** A success code is either one the journal retained for this operation, or a
      fresh dispatch that returned in time and was recorded. */
  lemma SuccessIsEarned(log: seq<Event>, p: Phase, code: Code, r: Request, container: string)
    requires At(log, p, r, container) && Final(p, r) == Some(code) && Success(code)
    ensures (Existing(Some(code)) in log && code == Effect(r.operation)) || FreshSuccess(log, code, r, container)
  {
    hide At, Classify, Timely, CallBudget, FreshSuccess;
    var q, l1, e := Back(log, p, r, container);
    if p.before.FinishedOn? {
      HistoryOfSuccess(log, code, r, container);
    } else {
      var q1, l2, e1 := Back(l1, p.before, r, container);
      var q2, l3, e2 := Back(l2, q1, r, container);
      if p.before.SettledOn? {
        ClassifyIs(r.operation, q2.state);
        assert false;
      }
      assert log[|l3|] == Existing(Some(code));
    }
  }

  /** Every attempt the run was granted is closed before it answers. */
  lemma GrantedIsClosed(log: seq<Event>, p: Phase, code: Code, r: Request, container: string)
    requires At(log, p, r, container) && Final(p, r) == Some(code) && Acquired(Granted) in log
    ensures log[|log| - 1] == Closed
  {
    hide Verdict, Advance;
    var i :| 0 <= i < |log| && log[i] == Acquired(Granted);
    PrefixAt(Idle, log, i, r, container);
    assert log[i..][0] == log[i];
    OnlyGrantsHold(Walk(Idle, log[..i], r, container).value, r, container);
    StaysHeld(Holding, log[i..][1..], r, container);
    var q, first, e := Back(log, p, r, container);
    OnlyClosingEnds(q, e, r, container);
  }

  lemma OnlyGrantsHold(p: Phase, r: Request, container: string)
    requires Advance(p, Acquired(Granted), r, container).Some?
    ensures Advance(p, Acquired(Granted), r, container) == Some(Holding) && Holds(Holding)
  {
    hide Verdict, Look;
  }

  lemma OnlyClosingEnds(p: Phase, e: Event, r: Request, container: string)
    requires Advance(p, e, r, container).Some?
    ensures Advance(p, e, r, container).value.Ended? ==> e == Closed
  {
    hide Verdict, Classify, Timely, CallBudget;
  }

  lemma StepHeld(p: Phase, e: Event, r: Request, container: string)
    requires (Holds(p) || p.Ended?) && Advance(p, e, r, container).Some?
    ensures var q := Advance(p, e, r, container).value; Holds(q) || q.Ended?
  {
    hide Classify, Timely, CallBudget, Retained;
  }

  lemma {:induction false} StaysHeld(p: Phase, log: seq<Event>, r: Request, container: string)
    requires (Holds(p) || p.Ended?) && Walk(p, log, r, container).Some?
    ensures var q := Walk(p, log, r, container).value; Holds(q) || q.Ended?
    decreases |log|
  {
    hide Advance, Holds;
    if log != [] {
      StepHeld(p, log[0], r, container);
      StaysHeld(Advance(p, log[0], r, container).value, log[1..], r, container);
    }
  }

  // ---------- every answer has its cause, and a fair world gets its change ----------

  // What in the calls stands behind an answer.
  ghost predicate Caused(log: seq<Event>, code: Code, r: Request) {
    match code
    case Denied => Checked(false) in log || Existing(Some(Denied)) in log
    case IdentityConflict => Acquired(ConflictError) in log
    case BudgetExceeded => exists left :: Looked(left) in log && left < r.grace * SECOND + 10 * SECOND
    case Unavailable =>
      || Acquired(OtherError) in log || Inspected(None) in log || (exists c :: FinishTried(c, false) in log)
      || (exists c :: Existing(Some(c)) in log && !Retained(c, r.operation))
    case OutcomeUnknown =>
      Acquired(UnresolvedError) in log || Existing(Some(OutcomeUnknown)) in log || (exists ok :: IntentTried(ok) in log)
    case _ => Existing(Some(code)) in log || FinishTried(code, true) in log
  }

  ghost predicate CausedAt(p: Phase, log: seq<Event>, r: Request) {
    match p
    case Refused => Checked(false) in log
    case RefusedAgain => Checked(false) in log
    case NotGranted(reply) => Acquired(reply) in log
    case Known(code) => Existing(Some(code)) in log
    case KnownOn(code) => Existing(Some(code)) in log
    case Blind => Inspected(None) in log
    case Settled(code, ok) => FinishTried(code, ok) in log && code in {AlreadyRunning, AlreadyStopped, StateConflict}
    case SettledOn(code) => FinishTried(code, true) in log && code in {AlreadyRunning, AlreadyStopped, StateConflict}
    case Budgeted(s) => Changes(r.operation, s)
    case IntentLost => exists ok :: IntentTried(ok) in log
    case Intended(s) => Changes(r.operation, s) && exists ok :: IntentTried(ok) in log
    case Funded(s, _) => Changes(r.operation, s) && exists ok :: IntentTried(ok) in log
    case Returned(s, _) => Changes(r.operation, s) && exists ok :: IntentTried(ok) in log
    case Finished(code, ok) => FinishTried(code, ok) in log && Success(code) && exists ok :: IntentTried(ok) in log
    case FinishedOn(code) => FinishTried(code, true) in log && Success(code)
    case OutOfTime(q) =>
      && ((exists left :: Looked(left) in log && left < r.grace * SECOND + 10 * SECOND))
      && (q.Intended? || q.Finished? ==> exists ok :: IntentTried(ok) in log)
    case Ended(q) => CausedAt(q, log, r)
    case _ => true
  }

  lemma StepCaused(p: Phase, log: seq<Event>, e: Event, r: Request, container: string)
    requires CausedAt(p, log, r) && Advance(p, e, r, container).Some? && r.grace <= 30
    ensures CausedAt(Advance(p, e, r, container).value, log + [e], r)
  {
    hide Classify, Timely, Retained;
    forall s: State
      ensures Classify(r.operation, s) ==
        if Changes(r.operation, s) then (Effect(r.operation), true) else (NothingToDo(r.operation, s), false)
    {
      ClassifyIs(r.operation, s);
    }
    assert e in log + [e] && forall x :: x in log ==> x in log + [e];
  }

  lemma {:induction false} RunCaused(log: seq<Event>, p: Phase, r: Request, container: string)
    requires At(log, p, r, container) && r.grace <= 30
    ensures CausedAt(p, log, r)
    decreases |log|
  {
    hide At, Advance, CausedAt;
    if p == Idle {
      IdleCaused(log, r);
    } else {
      var q, first, e := Back(log, p, r, container);
      RunCaused(first, q, r, container);
      StepCaused(q, first, e, r, container);
    }
  }

  lemma IdleCaused(log: seq<Event>, r: Request)
    ensures CausedAt(Idle, log, r)
  {
  }

  /** No run stops without a cause among its calls, for any grace a request may have. */
  lemma AnswerHasCause(log: seq<Event>, p: Phase, code: Code, r: Request, container: string)
    requires At(log, p, r, container) && Final(p, r) == Some(code) && r.grace <= 30
    ensures Caused(log, code, r)
  {
    hide At, Classify, Timely, CallBudget;
    RunCaused(log, p, r, container);
    if p.Ended? { var q, first, e := Back(log, p, r, container); }
  }

  // A call that goes as the request hopes, with time enough.
  ghost predicate Favourable(e: Event, r: Request) {
    match e
    case Looked(left) => r.grace * SECOND + 10 * SECOND <= left
    case Checked(ok) => ok
    case Acquired(reply) => reply == Granted
    case Existing(found) => found.None?
    case Inspected(state) => state.Some?
    case IntentTried(ok) => ok
    case Mutated(_, _, _, call) => Timely(call)
    case FinishTried(_, ok) => ok
    case Closed => true
  }

  predicate OnCourse(p: Phase) {
    match p
    case Refused => false
    case NotGranted(_) => false
    case Known(_) => false
    case KnownOn(_) => false
    case Blind => false
    case RefusedAgain => false
    case IntentLost => false
    case OutOfTime(_) => false
    case Settled(_, ok) => ok
    case Finished(_, ok) => ok
    case Returned(_, call) => Timely(call)
    case Ended(q) => OnCourse(q)
    case _ => true
  }

  lemma StepOnCourse(p: Phase, e: Event, r: Request, container: string)
    requires OnCourse(p) && Favourable(e, r) && Advance(p, e, r, container).Some? && r.grace <= 30
    ensures OnCourse(Advance(p, e, r, container).value)
  {
    hide Classify, Timely, Retained;
  }

  lemma {:induction false} RunOnCourse(log: seq<Event>, p: Phase, r: Request, container: string)
    requires At(log, p, r, container) && r.grace <= 30 && forall e :: e in log ==> Favourable(e, r)
    ensures OnCourse(p)
    decreases |log|
  {
    hide At, Advance, OnCourse, Favourable;
    if p == Idle {
      IdleOnCourse();
    } else {
      var q, first, last := Back(log, p, r, container);
      assert last in log && forall e :: e in first ==> e in log;
      RunOnCourse(first, q, r, container);
      StepOnCourse(q, last, r, container);
    }
  }

  lemma IdleOnCourse()
    ensures OnCourse(Idle)
  {
  }

  /** When every call goes well and time suffices, the run carries the change out, or
      finds that there is nothing to do. */
  lemma FairWorldServes(log: seq<Event>, p: Phase, code: Code, r: Request, container: string)
    requires At(log, p, r, container) && Final(p, r) == Some(code) && r.grace <= 30
    requires forall e :: e in log ==> Favourable(e, r)
    ensures || FreshSuccess(log, code, r, container)
            || (exists s ::
               Inspected(Some(s)) in log && !Changes(r.operation, s) && code == NothingToDo(r.operation, s))
  {
    hide At, Classify, Timely, CallBudget, Retained, FreshSuccess, Favourable;
    RunOnCourse(log, p, r, container);
    if p.before.FinishedOn? {
      HistoryOfSuccess(log, code, r, container);
    } else {
      var q, l1, e := Back(log, p, r, container);
      var q1, l2, e1 := Back(l1, p.before, r, container);
      var q2, l3, e2 := Back(l2, q1, r, container);
      ClassifyIs(r.operation, q2.state);
      var l := HistoryOfReauthorisedOn(l3, q2.state, r, container);
      assert log[6] == Inspected(Some(q2.state));
    }
  }
}
