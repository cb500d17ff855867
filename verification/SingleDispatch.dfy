/** Many executions over one journal, interleaved with pruning, closes, crashes
    and reopenings: the container mutation for a canonical key happens at most
    once, ever. Each execution moves through the coordinator's automaton, and its
    journal calls are steps of the journal's state machine. */
module SingleDispatch {
  import opened ActionTypes
  import C = Coordinator
  import J = JournalModel
  import JI = JournalInvariant
  import JS = JournalSafety

  // One execution: the key it works for and how far its sequence has come.
  datatype Execution = Execution(key: Key, phase: C.Phase)

  datatype System = System(journal: J.Journal, running: map<nat, Execution>)

  datatype Step =
    | Begin(token: nat, key: Key)
    | Local(token: nat, event: C.Event)
    | Journaled(token: nat, event: C.Event, use: J.Timed)
    | Other(use: J.Timed)

  // The journal call behind an event, made with the execution's own handle.
  ghost predicate Backs(token: nat, k: Key, e: C.Event, s: J.Journal, t: J.Timed) {
    match e
    case Acquired(reply) =>
      && t.step.Acquire? && t.step.key == k && t.step.token == token
      && (reply == C.Granted ==> J.Apply(s, t).1.Granted? || J.Apply(s, t).1.Retained?)
    case IntentTried(ok) =>
      t.step == J.Intent(k.ActionID(), token) && (ok ==> J.Apply(s, t).1.Done?)
    case FinishTried(code, ok) =>
      t.step == J.Finish(k.ActionID(), token, code) && (ok ==> J.Apply(s, t).1.Done?)
    case Closed => t.step == J.Release(k.ActionID(), token)
    case _ => false
  }

  ghost predicate Moves(x: System, token: nat, e: C.Event) {
    token in x.running &&
      C.Advance(x.running[token].phase, e, x.running[token].key.request, x.running[token].key.container).Some?
  }

  ghost function Moved(x: System, token: nat, e: C.Event): map<nat, Execution>
    requires Moves(x, token, e)
  {
    var run := x.running[token];
    x.running[token := run.(phase := C.Advance(run.phase, e, run.key.request, run.key.container).value)]
  }

  ghost predicate JournalEvent(e: C.Event) {
    e.Acquired? || e.IntentTried? || e.FinishTried? || e.Closed?
  }

  ghost predicate Enabled(x: System, s: Step) {
    match s
    case Begin(token, _) => token !in x.running
    case Local(token, e) => Moves(x, token, e) && !JournalEvent(e)
    case Journaled(token, e, use) => Moves(x, token, e) && Backs(token, x.running[token].key, e, x.journal, use)
    case Other(use) => use.step.Prune? || use.step.Shut? || use.step.Reopen?
  }

  ghost function Next(x: System, s: Step): System
    requires Enabled(x, s)
  {
    match s
    case Begin(token, key) => x.(running := x.running[token := Execution(key, C.Idle)])
    case Local(token, e) => x.(running := Moved(x, token, e))
    case Journaled(token, e, use) => System(J.Next(x.journal, use), Moved(x, token, e))
    case Other(use) => x.(journal := J.Next(x.journal, use))
  }

  ghost predicate Possible(x: System, steps: seq<Step>)
    decreases |steps|
  {
    steps == [] || (Enabled(x, steps[0]) && Possible(Next(x, steps[0]), steps[1..]))
  }

  // The journal's own view of a run.
  ghost function JournalSteps(steps: seq<Step>): seq<J.Timed>
    decreases |steps|
  {
    if steps == [] then []
    else
      (match steps[0] case Journaled(_, _, use) => [use] case Other(use) => [use] case _ => []) +
      JournalSteps(steps[1..])
  }

  ghost predicate MutatesFor(x: System, s: Step, k: Key) {
    s.Local? && s.event.Mutated? && s.token in x.running && x.running[s.token].key == k
  }

  // How often a run changes the container on behalf of exactly this key.
  ghost function MutationCount(x: System, steps: seq<Step>, k: Key): nat
    requires Possible(x, steps)
    decreases |steps|
  {
    if steps == [] then 0
    else (if MutatesFor(x, steps[0], k) then 1 else 0) + MutationCount(Next(x, steps[0]), steps[1..], k)
  }

  // Executions holding a committed intent that they have not yet acted on.
  ghost function Armed(x: System, k: Key): set<nat> {
    set t | t in x.running && (x.running[t].phase.Intended? || x.running[t].phase.Funded?) && x.running[t].key == k
  }

  // A handle that could still commit an intent belongs to the execution it names.
  ghost predicate HandlesOwned(x: System) {
    forall id :: id in x.journal.active ==>
      && x.journal.active[id].token in x.running
      && x.running[x.journal.active[id].token].key == x.journal.active[id].record.key
      && x.journal.active[id].record.key.ActionID() == id
  }

  ghost predicate SInv(x: System) {
    JI.Inv(x.journal) && HandlesOwned(x)
  }

  lemma JournalStepOwns(s: J.Journal, t: J.Timed, running: map<nat, Execution>)
    requires JI.Inv(s) && HandlesOwned(System(s, running))
    requires t.step.Acquire? ==> t.step.token in running && running[t.step.token].key == t.step.key
    ensures SInv(System(J.Next(s, t), running))
  {
    hide J.Next, JI.RowsValid, JI.Apart, JI.Occupied, Canonical, J.CoolingRelated, J.UnresolvedRelated,
         J.ActiveRelated, J.Permits, J.UnresolvedIDs, J.PrunedRows, J.TerminalAllowed;
    var e := JI.StepShows(s, t);
    JI.StepKeeps(s, t);
  }

  lemma SameOwners(x: System, x': System)
    requires HandlesOwned(x) && x'.journal == x.journal
    requires forall t :: t in x.running ==> t in x'.running && x'.running[t].key == x.running[t].key
    ensures HandlesOwned(x')
  {
  }

  lemma StepKeeps(x: System, s: Step)
    requires SInv(x) && Enabled(x, s)
    ensures SInv(Next(x, s))
  {
    hide J.Next, J.Apply, JI.Inv, HandlesOwned, C.Advance;
    match s
    case Begin(token, key) => SameOwners(x, Next(x, s));
    case Local(token, e) => SameOwners(x, Next(x, s));
    case Journaled(token, e, use) =>
      SameOwners(x, System(x.journal, Moved(x, token, e)));
      JournalStepOwns(x.journal, use, Moved(x, token, e));
    case Other(use) => JournalStepOwns(x.journal, use, x.running);
  }

  // An intent the journal confirmed to an execution is a newly durable intent for its key.
  lemma ConfirmedIntentCommits(x: System, token: nat, use: J.Timed)
    requires SInv(x) && token in x.running && Backs(token, x.running[token].key, C.IntentTried(true), x.journal, use)
    ensures JS.CommitsIntent(x.journal, use, x.running[token].key)
  {
    hide Canonical, JI.RowsValid, JI.Apart, JI.Occupied, J.TerminalAllowed;
    var k := x.running[token].key;
    JI.TransitionMeans(x.journal, k.ActionID(), token, None, use);
  }

  lemma ArmedShrinks(x: System, s: Step, k: Key)
    requires Enabled(x, s)
    ensures MutatesFor(x, s, k) ==> s.token in Armed(x, k) && Armed(Next(x, s), k) <= Armed(x, k) - {s.token}
    ensures !MutatesFor(x, s, k) && !(s.Journaled? && s.event == C.IntentTried(true) && x.running[s.token].key == k) ==>
      Armed(Next(x, s), k) <= Armed(x, k)
    ensures s.Journaled? && s.event == C.IntentTried(true) && x.running[s.token].key == k ==>
      Armed(Next(x, s), k) <= Armed(x, k) + {s.token}
  {
    hide J.Next, J.Apply, C.Classify, C.Timely, Backs;
  }

  lemma {:induction false} MutationsNeedIntents(x: System, steps: seq<Step>, k: Key)
    requires SInv(x) && Possible(x, steps)
    ensures MutationCount(x, steps, k) <= |Armed(x, k)| + JS.IntentCount(x.journal, JournalSteps(steps), k)
    decreases |steps|
  {
    hide J.Next, J.Apply, SInv, Armed, JS.CommitsIntent, Enabled, Moved;
    if steps != [] {
      var x' := Next(x, steps[0]);
      StepKeeps(x, steps[0]);
      MutationsNeedIntents(x', steps[1..], k);
      CountStep(x, steps[0], steps[1..], k);
      assert [steps[0]] + steps[1..] == steps;
    }
  }

  lemma CountStep(x: System, s: Step, rest: seq<Step>, k: Key)
    requires SInv(x) && Enabled(x, s)
    ensures (if MutatesFor(x, s, k) then 1 else 0) + |Armed(Next(x, s), k)| +
      JS.IntentCount(Next(x, s).journal, JournalSteps(rest), k)
      <= |Armed(x, k)| + JS.IntentCount(x.journal, JournalSteps([s] + rest), k)
  {
    hide J.Next, J.Apply, SInv, Armed, JS.CommitsIntent, Moved, C.Advance, JS.IntentCount;
    ArmedShrinks(x, s, k);
    var a, a' := Armed(x, k), Armed(Next(x, s), k);
    StepsSplit(x, s, rest, k);
    if MutatesFor(x, s, k) {
      JI.SubsetSize(a', a - {s.token});
    } else if s.Journaled? && s.event == C.IntentTried(true) && x.running[s.token].key == k {
      JI.SubsetSize(a', a + {s.token});
      ConfirmedIntentCommits(x, s.token, s.use);
    } else {
      JI.SubsetSize(a', a);
    }
  }

  // What one step contributes to the journal's count of intents.
  lemma StepsSplit(x: System, s: Step, rest: seq<Step>, k: Key)
    ensures JS.IntentCount(x.journal, JournalSteps([s] + rest), k) ==
      if s.Journaled? || s.Other?
      then (if JS.CommitsIntent(x.journal, s.use, k) then 1 else 0) +
        JS.IntentCount(J.Next(x.journal, s.use), JournalSteps(rest), k)
      else JS.IntentCount(x.journal, JournalSteps(rest), k)
  {
    hide J.Next, JS.CommitsIntent;
    assert ([s] + rest)[1..] == rest;
    var all := JournalSteps([s] + rest);
    if s.Journaled? || s.Other? {
      assert all == [s.use] + JournalSteps(rest);
      assert all[0] == s.use && all[1..] == JournalSteps(rest);
    } else {
      assert all == JournalSteps(rest);
    }
  }

  /** However many executions, crashes, reopenings and prunes a system sees, and
      however its clock behaves, it changes the container at most once for any key. */
  lemma AtMostOneMutationPerKey(b: Binding, steps: seq<Step>, k: Key)
    requires Possible(System(J.Provisioned(b), map[]), steps)
    ensures MutationCount(System(J.Provisioned(b), map[]), steps, k) <= 1
  {
    hide Possible, MutationCount, JS.IntentCount, JournalSteps, JI.Inv;
    var x := System(J.Provisioned(b), map[]);
    JI.ProvisionedHolds(b);
    assert HandlesOwned(x);
    MutationsNeedIntents(x, steps, k);
    assert Armed(x, k) == {};
    JS.AtMostOneIntent(x.journal, JournalSteps(steps), k);
  }

  // ---------- a run that dispatches ----------

  // Where a run of steps leads.
  ghost function Reached(x: System, steps: seq<Step>): System
    requires Possible(x, steps)
    decreases |steps|
  {
    if steps == [] then x else Reached(Next(x, steps[0]), steps[1..])
  }

  const AMPLE := 89 * SECOND

  // The events of an execution in which everything goes well.
  function EventAt(k: Key, i: nat): C.Event {
    var op := k.request.operation;
    match i
    case 0 => C.Checked(true)
    case 2 => C.Acquired(C.Granted)
    case 4 => C.Existing(None)
    case 6 => C.Inspected(Some(if op == Start then Exited else Running))
    case 8 => C.Checked(true)
    case 11 => C.IntentTried(true)
    case 13 => C.Mutated(op, k.container, k.request.grace, C.Call(true, false, 45 * SECOND, 0, AMPLE))
    case 14 => C.FinishTried(C.Effect(op), true)
    case 16 => C.Closed
    case _ => C.Looked(AMPLE)
  }

  function PhaseAt(k: Key, i: nat): C.Phase {
    var op := k.request.operation;
    var found := if op == Start then Exited else Running;
    match i
    case 0 => C.Idle
    case 1 => C.Permitted
    case 2 => C.PermittedOn
    case 3 => C.Holding
    case 4 => C.HoldingOn
    case 5 => C.Undispatched
    case 6 => C.UndispatchedOn
    case 7 => C.Seen(found)
    case 8 => C.SeenOn(found)
    case 9 => C.Reauthorised(found)
    case 10 => C.ReauthorisedOn(found)
    case 11 => C.Budgeted(found)
    case 12 => C.Intended(found)
    case 13 => C.Funded(found, 45 * SECOND)
    case 14 => C.Returned(found, C.Call(true, false, 45 * SECOND, 0, AMPLE))
    case 15 => C.Finished(C.Effect(op), true)
    case 16 => C.FinishedOn(C.Effect(op))
    case _ => C.Ended(C.FinishedOn(C.Effect(op)))
  }

  lemma PhaseMoves(k: Key, i: nat)
    requires GraceAllowed(k.request.operation, k.request.grace) && i < 17
    ensures C.Advance(PhaseAt(k, i), EventAt(k, i), k.request, k.container) == Some(PhaseAt(k, i + 1))
  {
  }

  // Its journal calls, all at the moment the request was made.
  function UseAt(k: Key, i: nat): J.Timed {
    var id := k.ActionID();
    var step := match i
      case 2 => J.Acquire(k, 0, false)
      case 11 => J.Intent(id, 0)
      case 14 => J.Finish(id, 0, C.Effect(k.request.operation))
      case _ => J.Release(id, 0);
    J.Timed(step, k.request.created, J.Committed, true)
  }

  function JournalAt(b: Binding, k: Key, i: nat): J.Journal {
    var id, now := k.ActionID(), k.request.created;
    var admitted := J.Record(k, now, None, None);
    var intended := admitted.(intent := Some(now));
    var finished := intended.(terminal := Some(J.Terminal(now, C.Effect(k.request.operation), false)));
    if i <= 2 then J.Provisioned(b)
    else if i <= 11 then J.Journal(b, map[id := admitted], 0, false, map[id := J.Attempt(0, admitted)])
    else if i <= 14 then J.Journal(b, map[id := intended], 0, false, map[id := J.Attempt(0, intended)])
    else if i <= 16 then J.Journal(b, map[id := finished], 0, false, map[id := J.Attempt(0, finished)])
    else J.Journal(b, map[id := finished], 0, false, map[])
  }

  lemma GrantsFirst(b: Binding, k: Key)
    requires Canonical(k) && BoundTo(k, b) && 0 < k.Expires()
    ensures J.Apply(JournalAt(b, k, 2), UseAt(k, 2)).1.Granted?
    ensures J.Next(JournalAt(b, k, 2), UseAt(k, 2)) == JournalAt(b, k, 3)
  {
    hide Identifier, Hex;
    var s := J.Provisioned(b);
    assert J.UnresolvedIDs(s.rows) == {} && J.Permits(s.active) == {};
  }

  lemma Records(b: Binding, k: Key, i: nat)
    requires Canonical(k) && (i == 11 || i == 14)
    ensures J.Apply(JournalAt(b, k, i), UseAt(k, i)).1.Done?
    ensures J.Next(JournalAt(b, k, i), UseAt(k, i)) == JournalAt(b, k, i + 1)
  {
    hide Identifier, Hex;
  }

  lemma Releases(b: Binding, k: Key)
    ensures J.Next(JournalAt(b, k, 16), UseAt(k, 16)) == JournalAt(b, k, 17)
  {
  }

  function StepAt(k: Key, i: nat): Step {
    if i in {2, 11, 14, 16} then Journaled(0, EventAt(k, i), UseAt(k, i)) else Local(0, EventAt(k, i))
  }

  function StepsFrom(k: Key, i: nat): seq<Step>
    decreases 17 - i
  {
    if i >= 17 then [] else [StepAt(k, i)] + StepsFrom(k, i + 1)
  }

  function SystemAt(b: Binding, k: Key, i: nat): System {
    System(JournalAt(b, k, i), map[0 := Execution(k, PhaseAt(k, i))])
  }

  lemma StepMoves(b: Binding, k: Key, i: nat)
    requires Canonical(k) && BoundTo(k, b) && 0 < k.Expires() && i < 17
    ensures Enabled(SystemAt(b, k, i), StepAt(k, i)) && Next(SystemAt(b, k, i), StepAt(k, i)) == SystemAt(b, k, i + 1)
    ensures MutatesFor(SystemAt(b, k, i), StepAt(k, i), k) <==> i == 13
  {
    hide J.Next, J.Apply, C.Advance, Identifier, Hex;
    PhaseMoves(k, i);
    if i == 2 {
      GrantsFirst(b, k);
    } else if i == 11 || i == 14 {
      Records(b, k, i);
    } else if i == 16 {
      Releases(b, k);
    }
  }

  lemma {:induction false} RunsFrom(b: Binding, k: Key, i: nat)
    requires Canonical(k) && BoundTo(k, b) && 0 < k.Expires() && i <= 17
    ensures Possible(SystemAt(b, k, i), StepsFrom(k, i))
    ensures MutationCount(SystemAt(b, k, i), StepsFrom(k, i), k) == if i <= 13 then 1 else 0
    ensures Reached(SystemAt(b, k, i), StepsFrom(k, i)) == SystemAt(b, k, 17)
    decreases 17 - i
  {
    hide Enabled, Next, Canonical, MutatesFor, StepAt, SystemAt;
    if i < 17 {
      StepMoves(b, k, i);
      RunsFrom(b, k, i + 1);
      var steps := StepsFrom(k, i);
      assert steps[0] == StepAt(k, i) && steps[1..] == StepsFrom(k, i + 1);
    }
  }

  /** And for every canonical key of the store's own scope that expires after the
      floor of a new store there is a run that changes the container once, records
      the operation's own effect and gives the attempt back. */
  lemma OneMutationPossible(b: Binding, k: Key) returns (steps: seq<Step>)
    requires Canonical(k) && BoundTo(k, b) && 0 < k.Expires()
    ensures var x := System(J.Provisioned(b), map[]);
      && Possible(x, steps) && MutationCount(x, steps, k) == 1
      && var s := Reached(x, steps).journal;
         && s.active == map[] && !s.failed && k.ActionID() in s.rows && s.rows[k.ActionID()].key == k
         && s.rows[k.ActionID()].terminal.Some?
         && s.rows[k.ActionID()].terminal.value.code ==
              match k.request.operation case Start => Started case Stop => Stopped case Restart => Restarted
  {
    hide Canonical;
    steps := [Begin(0, k)] + StepsFrom(k, 0);
    RunsFrom(b, k, 0);
    var x := System(J.Provisioned(b), map[]);
    assert Next(x, steps[0]) == SystemAt(b, k, 0) && steps[1..] == StepsFrom(k, 0);
  }
}
