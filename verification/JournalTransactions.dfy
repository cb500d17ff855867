/** The bodies of the journal's transactions as they run against the two tables,
    each proved to carry out the corresponding body of the state machine. */
module JournalTransactions {
  import opened ActionTypes
  import opened JournalModel
  import opened JournalTables
  import Invariant = JournalInvariant

  const PRUNE_LIMIT := 50

  datatype Tx = Store(actions: Actions, events: Events, floor: Time, reply: Outcome) | Refuse(refusal: Outcome)

  // A transaction over tables does what a body of the state machine says.
  ghost predicate Carries(tx: Tx, body: Body) {
    match tx
    case Refuse(o) => body == Deny(o)
    case Store(a, e, floor, reply) =>
      body.Write? && Encodes(body.rows, a, e) && body.floor == floor && body.reply == reply
  }

  // ---------- what each SQL write does to the records ----------

  // A write that leaves the rows of every other record alone.
  lemma Rewrites(rows: map<string, Record>, a: Actions, e: Events, id: string, r: Record, a': Actions, e': Events)
    requires Encodes(rows, a, e) && a'.Keys == a.Keys + {id} && Holds(a', e', id, r)
    requires forall x :: x in a && x != id ==> a'[x] == a[x]
    requires forall x :: x in e' || x in e ==> x.0 == id || (x in e && x in e' && e'[x] == e[x])
    ensures Encodes(rows[id := r], a', e')
  {
    hide RowOf, TerminalRow;
    forall x | x in rows && x != id
      ensures Holds(a', e', x, rows[x])
    {
      assert Holds(a, e, x, rows[x]);
      assert (x, First) in e' <==> (x, First) in e;
      assert (x, Second) in e' <==> (x, Second) in e;
    }
  }

  lemma InsertAction(rows: map<string, Record>, a: Actions, e: Events, id: string, r: Record)
    requires Encodes(rows, a, e) && id !in rows && Undispatched(r)
    ensures Encodes(rows[id := r], a[id := RowOf(r)], e)
  {
    Rewrites(rows, a, e, id, r, a[id := RowOf(r)], e);
  }

  lemma InsertIntent(rows: map<string, Record>, a: Actions, e: Events, id: string, now: Time)
    requires Encodes(rows, a, e) && id in rows && rows[id].intent.None?
    ensures Encodes(rows[id := rows[id].(intent := Some(now))], a, e[(id, First) := EventRow(now, IntentEvent, false)])
  {
    hide Encodes;
    Own(rows, a, e, id);
    Rewrites(rows, a, e, id, rows[id].(intent := Some(now)), a, e[(id, First) := EventRow(now, IntentEvent, false)]);
  }

  lemma InsertTerminal(rows: map<string, Record>, a: Actions, e: Events, id: string, t: Terminal)
    requires Encodes(rows, a, e) && id in rows && rows[id].terminal.None?
    ensures Encodes(rows[id := rows[id].(terminal := Some(t))], a, e[(id, Second) := TerminalRow(t)])
  {
    hide Encodes;
    Own(rows, a, e, id);
    Rewrites(rows, a, e, id, rows[id].(terminal := Some(t)), a, e[(id, Second) := TerminalRow(t)]);
  }

  lemma Own(rows: map<string, Record>, a: Actions, e: Events, id: string)
    requires Encodes(rows, a, e) && id in rows
    ensures Holds(a, e, id, rows[id]) && a.Keys == a.Keys + {id}
  {
  }

  function Both(id: string): set<(string, Ordinal)> {
    {(id, First), (id, Second)}
  }

  lemma DeleteRows(rows: map<string, Record>, a: Actions, e: Events, id: string)
    requires Encodes(rows, a, e)
    ensures Encodes(rows - {id}, a - {id}, e - Both(id))
  {
    hide RowOf, TerminalRow;
    forall x | x in e - Both(id) ensures x.0 in rows - {id} {
      assert x == (x.0, x.1) && (x.1 == First || x.1 == Second);
    }
    forall x | x in rows && x != id ensures Holds(a - {id}, e - Both(id), x, rows[x]) {
      assert Holds(a, e, x, rows[x]);
    }
  }

  lemma ReadBack(s: Journal, a: Actions, e: Events, id: string)
    requires Invariant.RowsValid(s) && Encodes(s.rows, a, e) && id in s.rows
    ensures id in a && Rebuilt(s.binding, id, a, e) == (if StampsParse(s.rows[id]) then Some(s.rows[id]) else None)
  {
    hide RowValid, StampsParse, Rebuilt;
    SoundIsRebuilt(s.binding, s.rows, a, e, id);
  }

  // ---------- admission ----------

  datatype Scan = Unreadable | FoundUnresolved | FoundCooling | Clear

  predicate RowRelated(row: ActionRow, k: Key) {
    row.targetID == k.TargetID() || (row.engine == k.engine && row.container == k.container)
  }

  /** Loads the records on the same target or container, then looks at them in
      order: the first that blocks decides. */
  method ScanRelated(ghost s: Journal, a: Actions, e: Events, b: Binding, k: Key, now: Time) returns (v: Scan)
    requires Invariant.RowsValid(s) && Encodes(s.rows, a, e) && s.binding == b
    ensures v == Unreadable <==> UnreadableRelated(s.rows, k)
    ensures v == FoundUnresolved ==> UnresolvedRelated(s.rows, k)
    ensures v == FoundCooling ==> CoolingRelated(s.rows, k, now)
    ensures v == Clear ==> !UnresolvedRelated(s.rows, k) && !CoolingRelated(s.rows, k, now)
  {
    hide Rebuilt, RowValid, StampsParse, Unresolved, Cooling;
    var rest, found := a.Keys, {};
    while rest != {}
      invariant rest <= a.Keys && found <= a.Keys - rest
      invariant forall id :: id in found ==> Related(s.rows[id].key, k) && StampsParse(s.rows[id])
      invariant forall id :: id in a.Keys - rest && Related(s.rows[id].key, k) ==> id in found
      decreases rest
    {
      var id :| id in rest;
      rest := rest - {id};
      Own(s.rows, a, e, id);
      if RowRelated(a[id], k) {
        ReadBack(s, a, e, id);
        if Rebuilt(b, id, a, e).None? {
          return Unreadable;
        }
        found := found + {id};
      }
    }
    var left := found;
    while left != {}
      invariant left <= found
      invariant forall id :: id in found - left ==> !Unresolved(s.rows[id]) && !Cooling(s.rows[id], now)
      decreases left
    {
      var id :| id in left;
      left := left - {id};
      ReadBack(s, a, e, id);
      var r := Rebuilt(b, id, a, e).value;
      if Unresolved(r) {
        return FoundUnresolved;
      }
      if Cooling(r, now) {
        return FoundCooling;
      }
    }
    v := Clear;
  }

  function PermitsAmong(active: map<string, Attempt>, ids: set<string>): set<string> {
    set id | id in ids && id in active && Undispatched(active[id].record)
  }

  method ScanActive(active: map<string, Attempt>, k: Key) returns (related: bool, permits: nat)
    ensures related <==> ActiveRelated(active, k)
    ensures !related ==> permits == |Permits(active)|
  {
    hide Undispatched, Related, PermitsAmong;
    related, permits := false, 0;
    var rest, done := active.Keys, {};
    NoPermits(active);
    while rest != {}
      invariant done == active.Keys - rest && rest <= active.Keys && permits == |PermitsAmong(active, done)|
      invariant forall id :: id in done ==> !Related(active[id].record.key, k)
      decreases rest
    {
      var id :| id in rest;
      MorePermits(active, done, id);
      if Undispatched(active[id].record) {
        permits := permits + 1;
      }
      if Related(active[id].record.key, k) {
        return true, permits;
      }
      rest, done := rest - {id}, done + {id};
    }
    assert done == active.Keys;
  }

  lemma NoPermits(active: map<string, Attempt>)
    ensures PermitsAmong(active, {}) == {} && PermitsAmong(active, active.Keys) == Permits(active)
  {
  }

  lemma MorePermits(active: map<string, Attempt>, done: set<string>, id: string)
    requires id in active && id !in done
    ensures |PermitsAmong(active, done + {id})| == |PermitsAmong(active, done)| +
      (if Undispatched(active[id].record) then 1 else 0)
  {
    hide Undispatched;
    if Undispatched(active[id].record) {
      assert PermitsAmong(active, done + {id}) == PermitsAmong(active, done) + {id};
    } else {
      assert PermitsAmong(active, done + {id}) == PermitsAmong(active, done);
    }
  }

  // The count of INTENT events without a terminal.
  function UnknownCount(e: Events): nat {
    |set x | x in e && x.1 == First && (x.0, Second) !in e :: x.0|
  }

  lemma CountsUnresolved(rows: map<string, Record>, a: Actions, e: Events)
    requires Encodes(rows, a, e)
    ensures UnknownCount(e) == |UnresolvedIDs(rows)| && |a| == |rows|
  {
    assert |a.Keys| == |rows.Keys|;
    var counted := set x | x in e && x.1 == First && (x.0, Second) !in e :: x.0;
    forall id ensures id in counted <==> id in UnresolvedIDs(rows) {
      if id in rows { assert Holds(a, e, id, rows[id]); }
      if (id, First) in e { assert (id, First).0 == id; }
    }
    assert counted == UnresolvedIDs(rows);
  }

  method AdmitTransaction(ghost s: Journal, a: Actions, e: Events, floor: Time, b: Binding, active: map<string,
                          Attempt>,
                          k: Key, token: nat, now: Time, record: Record, known: bool) returns (tx: Tx,
                            ghost coolFirst: bool)
    requires Invariant.RowsValid(s) && Encodes(s.rows, a, e) && s.binding == b && s.floor == floor && s.active == active
    requires known <==> k.ActionID() in s.rows
    requires !known ==> record == Record(k, now, None, None)
    ensures Carries(tx, RelatedBody(s, k, token, now, coolFirst, record, known))
  {
    hide Encodes, Invariant.RowsValid, UnresolvedRelated, CoolingRelated, UnreadableRelated, ActiveRelated,
         Permits, UnresolvedIDs, UnknownCount;
    var scan := ScanRelated(s, a, e, b, k, now);
    coolFirst := scan == FoundCooling;
    match scan {
      case Unreadable => return Refuse(Recovery), coolFirst;
      case FoundUnresolved => return Refuse(UnresolvedTarget), coolFirst;
      case FoundCooling => return Refuse(Busy(CoolingDown)), coolFirst;
      case Clear =>
    }
    var related, permits := ScanActive(active, k);
    if related {
      return Refuse(Busy(RelatedActive)), coolFirst;
    }
    CountsUnresolved(s.rows, a, e);
    var unknown := UnknownCount(e);
    if unknown > MAX_BUSY {
      return Refuse(Recovery), coolFirst;
    }
    if permits + unknown >= MAX_BUSY {
      return Refuse(Busy(Capacity)), coolFirst;
    }
    if known {
      return Store(a, e, floor, Granted(Attempt(token, record))), coolFirst;
    }
    if |a| > MAX_RECORDS {
      return Refuse(Recovery), coolFirst;
    }
    if |a| == MAX_RECORDS {
      return Refuse(Full), coolFirst;
    }
    InsertAction(s.rows, a, e, k.ActionID(), record);
    tx := Store(a[k.ActionID() := RowOf(record)], e, floor, Granted(Attempt(token, record)));
  }

  method AcquireTransaction(ghost s: Journal, a: Actions, e: Events, floor: Time, b: Binding, active: map<string,
                            Attempt>,
                            k: Key, token: nat, now: Time) returns (tx: Tx, ghost coolFirst: bool)
    requires Invariant.RowsValid(s) && Encodes(s.rows, a, e) && s.binding == b && s.floor == floor && s.active == active
    ensures Carries(tx, AcquireBody(s, k, token, now, coolFirst))
  {
    hide Encodes, Invariant.RowsValid, RelatedBody, StampsParse, Rebuilt;
    var id := k.ActionID();
    var found: Option<Record> := None;
    coolFirst := false;
    SameKeys(s.rows, a, e);
    if id in a {
      ReadBack(s, a, e, id);
      found := Rebuilt(b, id, a, e);
      if found.None? {
        return Refuse(Recovery), coolFirst;
      }
      if found.value.key != k {
        return Refuse(Conflict(OtherMetadata)), coolFirst;
      }
      if found.value.terminal.Some? || found.value.intent.Some? {
        return Store(a, e, floor, Retained(found.value)), coolFirst;
      }
    }
    if id in active {
      return Refuse(Busy(SameAction)), coolFirst;
    }
    if now < k.request.created {
      return Refuse(Conflict(NotYetCreated)), coolFirst;
    }
    if now >= k.Expires() {
      if found.None? {
        return Refuse(Conflict(AlreadyExpired)), coolFirst;
      }
      if !Storable(now) {
        return Refuse(Recovery), coolFirst;
      }
      var denied := Terminal(now, Denied, true);
      InsertTerminal(s.rows, a, e, id, denied);
      return Store(a, e[(id, Second) := TerminalRow(denied)], floor, Retained(DeniedAt(found.value, now))), coolFirst;
    }
    if !ParsesAsStamp(floor) {
      return Refuse(Recovery), coolFirst;
    }
    if found.None? && k.Expires() <= floor {
      return Refuse(Conflict(BelowFloor)), coolFirst;
    }
    var record := if found.Some? then found.value else Record(k, now, None, None);
    tx, coolFirst := AdmitTransaction(s, a, e, floor, b, active, k, token, now, record, found.Some?);
  }

  lemma SameKeys(rows: map<string, Record>, a: Actions, e: Events)
    requires Encodes(rows, a, e)
    ensures a.Keys == rows.Keys
  {
  }

  // ---------- transitions ----------

  method TransitionTransaction(ghost s: Journal, a: Actions, e: Events, floor: Time, b: Binding, mine: Record,
                               code: Option<Code>, now: Time)
    returns (tx: Tx)
    requires Invariant.RowsValid(s) && Encodes(s.rows, a, e) && s.binding == b && s.floor == floor
    requires mine.key.ActionID() in s.active && s.active[mine.key.ActionID()].record == mine
    requires if code.None? then mine.intent.None? else mine.terminal.None?
    ensures Carries(tx, TransitionBody(s, mine.key.ActionID(), code, now))
  {
    hide Encodes, Invariant.RowsValid, StampsParse, Rebuilt;
    var id := mine.key.ActionID();
    SameKeys(s.rows, a, e);
    if id !in a {
      return Refuse(Recovery);
    }
    ReadBack(s, a, e, id);
    var read := Rebuilt(b, id, a, e);
    if read.None? {
      return Refuse(Recovery);
    }
    var actual := read.value;
    if actual.key != mine.key || actual.admitted != mine.admitted || actual.intent != mine.intent ||
      actual.terminal.Some?
       || now < actual.admitted || (actual.intent.Some? && now < actual.intent.value)
    {
      return Refuse(Recovery);
    }
    if code.None? {
      if now >= mine.key.Expires() {
        return Refuse(Recovery);
      }
      if !Storable(now) {
        return Refuse(Recovery);
      }
      InsertIntent(s.rows, a, e, id, now);
      tx := Store(a, e[(id, First) := EventRow(now, IntentEvent, false)], floor, Done);
    } else {
      if !Storable(now) {
        return Refuse(Recovery);
      }
      var terminal := Terminal(now, code.value, false);
      InsertTerminal(s.rows, a, e, id, terminal);
      tx := Store(a, e[(id, Second) := TerminalRow(terminal)], floor, Done);
    }
  }

  // ---------- pruning ----------

  lemma PickMore(s: Journal, picked: set<string>, id: string, now: Time)
    requires Prunable(s, id, now) && id !in picked
    ensures var rows, rows' := PrunedRows(s, picked, now), PrunedRows(s, picked + {id}, now);
      && id in rows && rows[id] == s.rows[id]
      && (Deletable(s.rows[id], now) ==> rows' == rows - {id})
      && (!Deletable(s.rows[id], now) ==> Undispatched(rows[id]) && rows' == rows[id := DeniedAt(rows[id], now)])
  {
    hide Deletable, Undispatched;
  }

  lemma PickNone(s: Journal, now: Time)
    ensures PrunedRows(s, {}, now) == s.rows
  {
  }

  lemma LoadFailed(s: Journal, a: Actions, e: Events)
    requires Invariant.RowsValid(s) && Encodes(s.rows, a, e) && |s.rows| <= MAX_RECORDS
    requires forall rows :: Encodes(rows, a, e) && |rows| <= MAX_RECORDS ==> exists id ::
      id in rows && !Sound(s.binding, id, rows[id])
    ensures exists id :: id in s.rows && !StampsParse(s.rows[id])
  {
    hide RowValid, StampsParse, Encodes;
  }

  lemma LoadedRows(s: Journal, a: Actions, e: Events, rows: map<string, Record>)
    requires Encodes(s.rows, a, e) && Encodes(rows, a, e) && forall id :: id in rows ==> Sound(s.binding, id, rows[id])
    ensures rows == s.rows && forall id :: id in s.rows ==> StampsParse(s.rows[id])
  {
    hide RowValid, StampsParse, Encodes;
    EncodesOne(rows, s.rows, a, e);
  }

  /** Deletes old finished actions, finishes expired undispatched ones and raises
      the floor, at most fifty rows at a time and never a row in use. */
  method PruneTransaction(ghost s: Journal, a: Actions, e: Events, floor: Time, b: Binding, active: set<string>,
                          now: Time)
    returns (tx: Tx, ghost picked: set<string>)
    requires Invariant.RowsValid(s) && Encodes(s.rows, a, e) && |s.rows| <= MAX_RECORDS
    requires s.binding == b && s.floor == floor && s.active.Keys == active
    ensures Carries(tx, PruneBody(s, picked, now)) && |picked| <= PRUNE_LIMIT
    ensures forall id :: id in picked ==> Prunable(s, id, now)
    ensures tx.Store? && |picked| < PRUNE_LIMIT ==> forall id :: Prunable(s, id, now) ==> id in picked
  {
    hide Encodes, Invariant.RowsValid, StampsParse, Sound, PrunedRows, Deletable, Undispatched;
    picked := {};
    if !ParsesAsStamp(floor) {
      return Refuse(Recovery), picked;
    }
    var loaded := Load(b, a, e);
    if loaded.None? {
      LoadFailed(s, a, e);
      return Refuse(Recovery), picked;
    }
    LoadedRows(s, a, e, loaded.value);
    PickNone(s, now);
    var records, changed := loaded.value, 0;
    var rest, actions, events := records.Keys, a, e;
    while rest != {} && changed < PRUNE_LIMIT
      invariant rest <= records.Keys && picked !! rest && changed == |picked| <= PRUNE_LIMIT
      invariant forall id :: id in picked ==> Prunable(s, id, now)
      invariant forall id :: id in records.Keys - rest && Prunable(s, id, now) ==> id in picked
      invariant Encodes(PrunedRows(s, picked, now), actions, events) && (DeniesAny(s, picked, now) ==> Storable(now))
      decreases rest
    {
      var id :| id in rest;
      rest := rest - {id};
      var r := records[id];
      if id !in active && (Expirable(r, now) || Deletable(r, now)) {
        PickMore(s, picked, id, now);
        if Expirable(r, now) {
          FinishedStays(r, now);
          if !Storable(now) {
            picked := picked + {id};
            return Refuse(Recovery), picked;
          }
          InsertTerminal(PrunedRows(s, picked, now), actions, events, id, Terminal(now, Denied, true));
          events := events[(id, Second) := TerminalRow(Terminal(now, Denied, true))];
        } else {
          DeleteRows(PrunedRows(s, picked, now), actions, events, id);
          actions, events := actions - {id}, events - Both(id);
        }
        picked, changed := picked + {id}, changed + 1;
      }
    }
    tx := if Storable(Later(now - RETENTION, floor)) then Store(actions, events, Later(now - RETENTION, floor), Done)
          else Refuse(Recovery);
  }

  lemma FinishedStays(r: Record, now: Time)
    requires Expirable(r, now)
    ensures !Deletable(r, now) && r.terminal.None?
  {
  }
}
