/** The journal object: its tables, its in-memory attempts and the operations
    that change them. Every operation is one step of the state machine. */
module JournalStore {
  import opened ActionTypes
  import opened JournalModel
  import opened JournalTables
  import opened JournalTransactions
  import Invariant = JournalInvariant

  // An attempt given to a caller; `mutable` when it was admitted, not read back.
  // Attempts are kept by token, and a token stands for a pointer to its attempt.
  datatype Handle = Handle(record: Record, mutable: bool, closed: bool)

  type Handles = map<nat, Handle>

  function Attempts(active: map<string, nat>, handles: Handles): map<string, Attempt> {
    map id | id in active && active[id] in handles :: Attempt(active[id], handles[active[id]].record)
  }

  ghost predicate HandlesValid(active: map<string, nat>, handles: Handles, next: nat) {
    && (forall h :: h in handles ==> h < next)
    && (forall id :: id in active ==>
          active[id] in handles && handles[active[id]].mutable && !handles[active[id]].closed
          && handles[active[id]].record.key.ActionID() == id)
  }

  ghost predicate KeepsHandles(before: Handles, after: Handles) {
    forall g :: g in before ==> g in after && after[g] == before[g]
  }

  // A grant hands out a mutable attempt, a retained record one that is not.
  predicate HandsOut(o: Outcome, h: Option<nat>, handles: Handles) {
    if o.Granted?
      then h == Some(o.attempt.token) && h.value in handles && handles[h.value] == Handle(o.attempt.record, true, false)
    else if o.Retained? then h.Some? && h.value in handles && handles[h.value] == Handle(o.record, false, false)
    else h.None?
  }

  datatype AdmissionRecord = AdmissionRecord(key: Key, intent: bool, code: Option<Code>, at: Option<Time>, active: bool)

  function Snapped(r: Record, active: bool): AdmissionRecord {
    AdmissionRecord(r.key, r.intent.Some?,
      if Unresolved(r) then Some(OutcomeUnknown) else if r.terminal.Some? then Some(r.terminal.value.code) else None,
      if r.terminal.Some? then Some(r.terminal.value.at) else None, active)
  }

  lemma Holding(s: Journal)
    requires Invariant.Inv(s)
    ensures Invariant.RowsValid(s) && Invariant.AttemptsHeld(s) && |s.rows| <= MAX_RECORDS
  {
  }

  lemma Registers(active: map<string, nat>, handles: Handles, next: nat, id: string, r: Record)
    requires HandlesValid(active, handles, next) && r.key.ActionID() == id
    ensures HandlesValid(active[id := next], handles[next := Handle(r, true, false)], next + 1)
    ensures Attempts(active[id := next], handles[next := Handle(r, true, false)]) ==
      Attempts(active, handles)[id := Attempt(next, r)]
  {
    var handles', active' := handles[next := Handle(r, true, false)], active[id := next];
    var after, want := Attempts(active', handles'), Attempts(active, handles)[id := Attempt(next, r)];
    forall x ensures (x in after <==> x in want) && (x in after ==> after[x] == want[x]) {
      if x != id && x in active { assert active[x] in handles && active[x] != next; }
    }
  }

  lemma ReadsBack(active: map<string, nat>, handles: Handles, next: nat, r: Record)
    requires HandlesValid(active, handles, next)
    ensures var handles' := handles[next := Handle(r, false, false)];
      HandlesValid(active, handles', next + 1) && Attempts(active, handles') == Attempts(active, handles)
  {
  }

  lemma GrantsOwnKey(s: Journal, k: Key, token: nat, coolFirst: bool, t: Timed)
    requires Invariant.RowsValid(s)
    ensures var o := AcquireStep(s, k, token, coolFirst, t).1;
      o.Granted? ==> o.attempt.token == token && o.attempt.record.key == k
  {
    hide AcquireBody, Canonical, RowValid;
    Invariant.AcquireBodyMeans(s, k, token, t.now, coolFirst);
  }

  lemma Advances(active: map<string, nat>, handles: Handles, next: nat, token: nat, r: Record)
    requires HandlesValid(active, handles, next) && token in handles && r.key == handles[token].record.key
    requires r.key.ActionID() in active && active[r.key.ActionID()] == token
    ensures var handles' := handles[token := Handle(r, true, false)];
      && HandlesValid(active, handles', next)
      && Attempts(active, handles') == Attempts(active, handles)[r.key.ActionID() := Attempt(token, r)]
  {
    assert forall x, y :: x in active && y in active && active[x] == active[y] ==> x == y;
  }

  lemma Drops(active: map<string, nat>, handles: Handles, next: nat, token: nat)
    requires HandlesValid(active, handles, next) && token in handles
    ensures var id, handles' := handles[token].record.key.ActionID(), handles[token := handles[token].(closed := true)];
      var active' := if id in active && active[id] == token then active - {id} else active;
      && HandlesValid(active', handles', next)
      && Attempts(active', handles') ==
           if id in active && active[id] == token then Attempts(active, handles) - {id} else Attempts(active, handles)
  {
    assert forall x, y :: x in active && y in active && active[x] == active[y] ==> x == y;
  }

  lemma Looks(active: map<string, nat>, handles: Handles, next: nat, token: nat)
    requires HandlesValid(active, handles, next) && token in handles
    ensures var id, attempts := handles[token].record.key.ActionID(), Attempts(active, handles);
      id in attempts && attempts[id].token == token <==> id in active && active[id] == token
    ensures var id := handles[token].record.key.ActionID();
      id in active && active[id] == token ==>
        && Attempts(active, handles)[id].record == handles[token].record && handles[token].mutable &&
           !handles[token].closed
    ensures Attempts(active, handles).Keys == active.Keys
  {
  }

  lemma SameActive(active: map<string, nat>, handles: Handles, next: nat)
    requires HandlesValid(active, handles, next)
    ensures Attempts(active, handles).Keys == active.Keys
  {
  }

  function Moved(handles: Handles, h: nat, o: Outcome, code: Option<Code>, now: Time): Handles {
    if h in handles && o.Done? then handles[h := handles[h].(record := Advanced(handles[h].record, code, now))]
      else handles
  }

  function StepOf(id: string, token: nat, code: Option<Code>): Step {
    if code.None? then Intent(id, token) else Finish(id, token, code.value)
  }

  lemma MayMeans(s: Journal, id: string, token: nat, code: Option<Code>)
    requires MayTransition(s, id, token, code)
    ensures id in s.active && if code.None? then s.active[id].record.intent.None?
      else s.active[id].record.terminal.None?
  {
  }

  lemma NeverBegun(s: Journal, rollbackOk: bool, body: Body)
    ensures Transact(s, BeginFailed, rollbackOk, body) == (s.(failed := true), Recovery)
  {
  }

  lemma SameActiveAfter(s: Journal, fate: Fate, rollbackOk: bool, body: Body)
    ensures Transact(s, fate, rollbackOk, body).0.active == s.active
  {
  }

  lemma AdvancedKey(r: Record, code: Option<Code>, now: Time)
    ensures Advanced(r, code, now).key == r.key
  {
  }

  lemma TransitionIs(s: Journal, id: string, token: nat, code: Option<Code>, t: Timed)
    requires t.fate != GuardRefused && t.fate != Locked && MayTransition(s, id, token, code)
    ensures var (s', o) := Transact(s, t.fate, t.rollbackOk, TransitionBody(s, id, code, t.now));
      TransitionStep(s, id, token, code, t) ==
        (if o.Done? then s'.(active := s'.active[id := Attempt(token, Advanced(s.active[id].record, code, t.now))])
          else s', o)
  {
    hide Transact, TransitionBody, MayTransition;
  }

  lemma Fresh(active: map<string, nat>, handles: Handles, next: nat)
    requires HandlesValid(active, handles, next)
    ensures next !in handles
  {
  }

  lemma AcquireKeeps(s: Journal, k: Key, token: nat, coolFirst: bool, t: Timed)
    requires Invariant.Inv(s)
    ensures Invariant.Inv(AcquireStep(s, k, token, coolFirst, t).0)
  {
    hide Invariant.Inv, AcquireStep;
    Invariant.StepKeeps(s, t.(step := JournalModel.Acquire(k, token, coolFirst)));
    AcquireIgnoresStep(s, k, token, coolFirst, t, t.(step := JournalModel.Acquire(k, token, coolFirst)));
  }

  lemma AcquireIgnoresStep(s: Journal, k: Key, token: nat, coolFirst: bool, t: Timed, u: Timed)
    requires u == t.(step := u.step)
    ensures AcquireStep(s, k, token, coolFirst, t) == AcquireStep(s, k, token, coolFirst, u)
  {
    hide AcquireBody, Transact, Canonical;
  }

  lemma TransitionKeeps(s: Journal, id: string, token: nat, code: Option<Code>, t: Timed)
    requires Invariant.Inv(s)
    ensures Invariant.Inv(TransitionStep(s, id, token, code, t).0)
  {
    hide Invariant.Inv, TransitionStep;
    Invariant.StepKeeps(s, t.(step := StepOf(id, token, code)));
    TransitionIgnoresStep(s, id, token, code, t, t.(step := StepOf(id, token, code)));
  }

  lemma TransitionIgnoresStep(s: Journal, id: string, token: nat, code: Option<Code>, t: Timed, u: Timed)
    requires u == t.(step := u.step)
    ensures TransitionStep(s, id, token, code, t) == TransitionStep(s, id, token, code, u)
  {
    hide TransitionBody, Transact, MayTransition;
  }

  lemma AcquireIs(s: Journal, k: Key, token: nat, coolFirst: bool, t: Timed)
    requires t.fate != GuardRefused && t.fate != Locked && Canonical(k) && BoundTo(k, s.binding) && !s.failed
    ensures var (s', o) := Transact(s, t.fate, t.rollbackOk, AcquireBody(s, k, token, t.now, coolFirst));
      AcquireStep(s, k, token, coolFirst, t) ==
        (if o.Granted? then s'.(active := s'.active[k.ActionID() := o.attempt]) else s', o)
  {
    hide Transact, AcquireBody, Canonical;
  }

  class Store {
    const binding: Binding
    var actions: Actions
    var events: Events
    var floor: Time
    var failed: bool
    var active: map<string, nat>
    var handles: Handles
    var next: nat
    ghost var rows: map<string, Record>

    ghost function View(): Journal
      reads this
    {
      Journal(binding, rows, floor, failed, Attempts(active, handles))
    }

    ghost predicate Valid()
      reads this
    {
      HandlesValid(active, handles, next) && Encodes(rows, actions, events) && Invariant.Inv(View())
    }

    /** An empty provisioned store. */
    constructor (binding: Binding)
      ensures Valid() && View() == Provisioned(binding)
    {
      this.binding := binding;
      actions, events, floor, failed, active, handles, next := map[], map[], 0, false, map[], map[], 0;
      rows := map[];
      new;
      Invariant.ProvisionedHolds(binding);
      assert View() == Provisioned(binding);
    }

    // The part of a transaction after its body.
    method Conclude(tx: Tx, fate: Fate, rollbackOk: bool, ghost body: Body) returns (o: Outcome)
      requires Carries(tx, body) && fate != GuardRefused && fate != BeginFailed && Encodes(rows, actions, events)
      modifies `actions, `events, `floor, `failed, `rows
      ensures Encodes(rows, actions, events)
      ensures (View(), o) == Transact(old(View()), fate, rollbackOk, body)
    {
      hide Encodes;
      match tx
      case Refuse(refusal) =>
        o := refusal;
        if !Tolerated(o) {
          failed, o := true, Recovery;
        }
        if !rollbackOk {
          failed, o := true, Recovery;
        }
      case Store(a, e, at, reply) =>
        if fate == Committed || fate == CommitKept {
          actions, events, floor := a, e, at;
          rows := body.rows;
        }
        if fate == Committed {
          o := reply;
        } else {
          failed, o := true, Recovery;
        }
    }

    /** Admits a key, or reads back what an earlier attempt left. */
    method Acquire(k: Key, now: Time, fate: Fate, rollbackOk: bool)
      returns (o: Outcome, h: Option<nat>, ghost coolFirst: bool)
      requires Valid()
      modifies this
      ensures Valid() && KeepsHandles(old(handles), handles)
      ensures (View(), o) == AcquireStep(old(View()), k, old(next), coolFirst, Timed(Shut, now, fate, rollbackOk))
      ensures HandsOut(o, h, handles)
    {
      hide AcquireBody, Encodes, Invariant.Inv, Canonical, Carries;
      h, coolFirst := None, false;
      if fate == GuardRefused {
        return Recovery, None, false;
      }
      if !Canonical(k) || !BoundTo(k, binding) {
        return Conflict(WrongIdentity), None, false;
      }
      if fate == Locked {
        return Busy(LockHeld), None, false;
      }
      if failed {
        return Recovery, None, false;
      }
      if fate == BeginFailed {
        Invariant.StepKeeps(View(), Timed(JournalModel.Acquire(k, next, false), now, fate, rollbackOk));
        failed := true;
        return Recovery, None, false;
      }
      o, h, coolFirst := AcquireOpen(k, now, fate, rollbackOk);
    }

    method AcquireOpen(k: Key, now: Time, fate: Fate, rollbackOk: bool)
      returns (o: Outcome, h: Option<nat>, ghost coolFirst: bool)
      requires Valid() && !failed && fate != GuardRefused && fate != Locked && fate != BeginFailed &&
        Canonical(k) && BoundTo(k, binding)
      modifies this
      ensures Valid() && KeepsHandles(old(handles), handles)
      ensures (View(), o) == AcquireStep(old(View()), k, old(next), coolFirst, Timed(Shut, now, fate, rollbackOk))
      ensures HandsOut(o, h, handles)
    {
      hide AcquireBody, Encodes, Invariant.Inv, Canonical, Carries, Attempts, Transact, AcquireStep,
           HandlesValid;
      h, coolFirst := None, false;
      ghost var s := View();
      Holding(s);
      var tx;
      tx, coolFirst := AcquireTransaction(s, actions, events, floor, binding, Attempts(active, handles), k, next, now);
      o := Conclude(tx, fate, rollbackOk, AcquireBody(s, k, next, now, coolFirst));
      ghost var t := Timed(Shut, now, fate, rollbackOk);
      AcquireIs(s, k, next, coolFirst, t);
      AcquireKeeps(s, k, next, coolFirst, t);
      GrantsOwnKey(s, k, next, coolFirst, t);
      if o.Granted? {
        Registers(active, handles, next, k.ActionID(), o.attempt.record);
        Fresh(active, handles, next);
        h, handles, active := Some(next), handles[next := Handle(o.attempt.record, true, false)],
          active[k.ActionID() := next];
        next := next + 1;
      } else if o.Retained? {
        ReadsBack(active, handles, next, o.record);
        Fresh(active, handles, next);
        h, handles := Some(next), handles[next := Handle(o.record, false, false)];
        next := next + 1;
      }
    }

    /** Records an INTENT (no code) or a terminal code for an attempt. */
    method Transition(h: nat, code: Option<Code>, now: Time, fate: Fate, rollbackOk: bool) returns (o: Outcome)
      requires Valid() && h in handles
      modifies this
      ensures Valid()
      ensures (View(), o) ==
        TransitionStep(old(View()), old(handles[h].record.key.ActionID()), h, code, Timed(Shut, now, fate, rollbackOk))
      ensures handles == Moved(old(handles), h, o, code, now)
    {
      hide Encodes, Invariant.Inv, Attempts, Transact, TransitionBody, TerminalAllowed, HandlesValid;
      if fate == GuardRefused {
        return Recovery;
      }
      if fate == Locked {
        return Busy(LockHeld);
      }
      var a := handles[h];
      var id := a.record.key.ActionID();
      Looks(active, handles, next, h);
      if failed || !a.mutable || a.closed || id !in active || active[id] != h || a.record.terminal.Some? ||
        (code.None? && a.record.intent.Some?)
         || (code.Some? && !TerminalAllowed(a.record.key.request.operation, a.record.intent.Some?, code.value, false))
      {
        return Recovery;
      }
      if fate == BeginFailed {
        TransitionKeeps(View(), id, h, code, Timed(Shut, now, fate, rollbackOk));
        TransitionIs(View(), id, h, code, Timed(Shut, now, fate, rollbackOk));
        NeverBegun(View(), rollbackOk, TransitionBody(View(), id, code, now));
        failed := true;
        return Recovery;
      }
      o := TransitionOpen(h, code, now, fate, rollbackOk);
    }

    method TransitionOpen(h: nat, code: Option<Code>, now: Time, fate: Fate, rollbackOk: bool) returns (o: Outcome)
      requires Valid() && h in handles && fate != GuardRefused && fate != Locked && fate != BeginFailed
      requires var id := handles[h].record.key.ActionID();
        id in active && active[id] == h && MayTransition(View(), id, h, code)
      modifies this
      ensures Valid()
      ensures (View(), o) ==
        TransitionStep(old(View()), old(handles[h].record.key.ActionID()), h, code, Timed(Shut, now, fate, rollbackOk))
      ensures handles == Moved(old(handles), h, o, code, now)
    {
      hide Encodes, Invariant.Inv, Carries, Attempts, Transact, TransitionBody, TransitionStep,
           MayTransition, HandlesValid, Advanced;
      ghost var s := View();
      var a := handles[h];
      ghost var id := a.record.key.ActionID();
      ghost var t := Timed(Shut, now, fate, rollbackOk);
      Looks(active, handles, next, h);
      TransitionKeeps(s, id, h, code, t);
      TransitionIs(s, id, h, code, t);
      MayMeans(s, id, h, code);
      Holding(s);
      var tx := TransitionTransaction(s, actions, events, floor, binding, a.record, code, now);
      o := Conclude(tx, fate, rollbackOk, TransitionBody(s, id, code, now));
      SameActiveAfter(s, fate, rollbackOk, TransitionBody(s, id, code, now));
      if o.Done? {
        AdvancedKey(a.record, code, now);
        Advances(active, handles, next, h, Advanced(a.record, code, now));
        handles := handles[h := a.(record := Advanced(a.record, code, now))];
      }
    }

    /** What an attempt says happened: a code, an unknown outcome, or nothing yet. */
    method Existing(h: nat) returns (code: Option<Code>)
      requires Valid() && h in handles
      ensures handles[h].closed || failed ==> code == Some(Unavailable)
      ensures !handles[h].closed && !failed ==>
        var r := handles[h].record;
        && (code.None? <==> Undispatched(r))
        && (code.Some? ==> if Unresolved(r) then code.value == OutcomeUnknown
           else r.terminal.Some? && code.value == r.terminal.value.code)
    {
      var r := handles[h].record;
      if handles[h].closed || failed {
        return Some(Unavailable);
      }
      if r.terminal.Some? {
        return Some(r.terminal.value.code);
      }
      code := if r.intent.Some? then Some(OutcomeUnknown) else None;
    }

    /** Gives an attempt up; only its own registration goes with it. */
    method CloseAttempt(h: nat)
      requires Valid() && h in handles
      modifies this
      ensures Valid() && handles == old(handles)[h := old(handles[h]).(closed := true)]
      ensures View() == ReleaseStep(old(View()), old(handles[h].record.key.ActionID()), h)
    {
      hide Encodes, Invariant.Inv, Attempts, HandlesValid;
      var id := handles[h].record.key.ActionID();
      Drops(active, handles, next, h);
      Looks(active, handles, next, h);
      Invariant.StepKeeps(View(), Timed(Release(id, h), 0, Committed, true));
      if id in active && active[id] == h {
        active := active - {id};
      }
      handles := handles[h := handles[h].(closed := true)];
    }

    method Prune(now: Time, fate: Fate, rollbackOk: bool) returns (o: Outcome, ghost picked: set<string>)
      requires Valid()
      modifies this
      ensures Valid() && handles == old(handles) && |picked| <= PRUNE_LIMIT
      ensures (View(), o) == PruneStep(old(View()), picked, Timed(Shut, now, fate, rollbackOk))
    {
      hide Encodes, Invariant.Inv, Carries, Attempts, HandlesValid, PruneBody;
      picked := {};
      ghost var s := View();
      if fate == Locked {
        return Busy(LockHeld), picked;
      }
      if failed {
        return Recovery, picked;
      }
      if fate == BeginFailed {
        Invariant.StepKeeps(s, Timed(JournalModel.Prune(picked), now, fate, rollbackOk));
        failed := true;
        return Recovery, picked;
      }
      Holding(s);
      SameActive(active, handles, next);
      var tx;
      tx, picked := PruneTransaction(s, actions, events, floor, binding, active.Keys, now);
      o := Conclude(tx, if fate == GuardRefused then Committed else fate, rollbackOk, PruneBody(s, picked, now));
      Invariant.StepKeeps(s, Timed(JournalModel.Prune(picked), now, fate, rollbackOk));
    }

    /** Ends the handle: it is unusable and every attempt is closed. */
    method Close()
      requires Valid()
      modifies this
      ensures Valid() && View() == Closed(old(View())) && handles.Keys == old(handles).Keys
      ensures forall id :: id in old(active) ==> handles[old(active)[id]].closed
    {
      hide Encodes, Invariant.Inv;
      Invariant.StepKeeps(View(), Timed(Shut, 0, Committed, true));
      handles := map h | h in handles :: if h in active.Values then handles[h].(closed := true) else handles[h];
      failed, active := true, map[];
    }

    /** Opens the stored tables again, when they still verify. */
    method Reopen() returns (o: Outcome)
      requires Valid()
      modifies this
      ensures Valid() && (View(), o) == ReopenStep(old(View()))
    {
      hide Encodes, Invariant.Inv, Reloads;
      Invariant.StepKeeps(View(), Timed(JournalModel.Reopen, 0, Committed, true));
      var ok := Verify(binding, actions, events, floor);
      active, handles, failed := map[], map[], !ok;
      o := if ok then Done else Recovery;
    }

    /** What admission sees of every stored action. */
    method AdmissionSnapshot(locked: bool) returns (out: Option<seq<AdmissionRecord>>, ghost ids: seq<string>)
      requires Valid()
      ensures out.Some? <==> !locked && !failed && forall id :: id in rows ==> StampsParse(rows[id])
      ensures out.Some? ==> |out.value| == |ids| == |rows| && (forall id :: id in ids <==> id in rows)
      ensures out.Some? ==> forall i :: 0 <= i < |ids| ==> out.value[i] == Snapped(rows[ids[i]], ids[i] in active)
    {
      hide Encodes, Invariant.Inv, StampsParse, Sound, Snapped;
      ids := [];
      if locked || failed {
        return None, ids;
      }
      Holding(View());
      var loaded := Load(binding, actions, events);
      if loaded.None? {
        LoadFailed(View(), actions, events);
        return None, ids;
      }
      LoadedRows(View(), actions, events, loaded.value);
      var order := Enumerate(loaded.value.Keys);
      var records := [];
      for i := 0 to |order|
        invariant |records| == i
        invariant forall j :: 0 <= j < i ==> records[j] == Snapped(rows[order[j]], order[j] in active)
      {
        records := records + [Snapped(loaded.value[order[i]], order[i] in active)];
      }
      out, ids := Some(records), order;
    }
  }
}
