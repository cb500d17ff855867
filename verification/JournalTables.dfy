/** The journal's two SQL tables and their loader. An action row repeats a key's
    identifying columns beside its metadata; an event row is an INTENT (first) or
    a terminal (second). Loading checks every row and reassembles the records. */
module JournalTables {
  import opened ActionTypes
  import opened JournalModel

  datatype ActionRow = ActionRow(targetID: string, engine: string, container: string, metadata: Key, admitted: Time)

  datatype Ordinal = First | Second
  datatype EventCode = IntentEvent | TerminalEvent(code: Code)
  datatype EventRow = EventRow(at: Time, code: EventCode, expired: bool)

  type Actions = map<string, ActionRow>
  type Events = map<(string, Ordinal), EventRow>

  function RowOf(r: Record): ActionRow {
    ActionRow(r.key.TargetID(), r.key.engine, r.key.container, r.key, r.admitted)
  }

  function TerminalRow(t: Terminal): EventRow {
    EventRow(t.at, TerminalEvent(t.code), t.expired)
  }

  // The rows of one record.
  ghost predicate Holds(a: Actions, e: Events, id: string, r: Record) {
    && id in a && a[id] == RowOf(r)
    && ((id, First) in e <==> r.intent.Some?) && ((id, Second) in e <==> r.terminal.Some?)
    && (r.intent.Some? ==> e[(id, First)] == EventRow(r.intent.value, IntentEvent, false))
    && (r.terminal.Some? ==> e[(id, Second)] == TerminalRow(r.terminal.value))
  }

  // The tables hold exactly these records.
  ghost predicate Encodes(rows: map<string, Record>, a: Actions, e: Events) {
    && a.Keys == rows.Keys
    && (forall id :: id in rows ==> Holds(a, e, id, rows[id]))
    && (forall x :: x in e ==> x.0 in rows)
  }

  // ---------- validating one record ----------

  function ValidateAction(b: Binding, id: string, row: ActionRow): Option<Record> {
    var k := row.metadata;
    if Canonical(k) && k.ActionID() == id && k.TargetID() == row.targetID && k.engine == row.engine &&
      k.container == row.container
       && BoundTo(k, b) && ParsesAsStamp(row.admitted) && k.request.created <= row.admitted < k.Expires()
    then Some(Record(k, row.admitted, None, None)) else None
  }

  function ValidateEvent(r: Record, ordinal: Ordinal, ev: EventRow): Option<Record> {
    if !ParsesAsStamp(ev.at) || ev.at < r.admitted then None
    else match ordinal
      case First =>
        if ev.code != IntentEvent || ev.expired || r.intent.Some? || r.terminal.Some? || ev.at >= r.key.Expires()
          then None
        else Some(r.(intent := Some(ev.at)))
      case Second =>
        if ev.code.IntentEvent? || r.terminal.Some? || (r.intent.Some? && ev.at < r.intent.value)
           || !TerminalAllowed(r.key.request.operation, r.intent.Some?, ev.code.code, ev.expired)
           || (ev.code.code == Denied && ev.at < r.key.Expires())
        then None
        else Some(r.(terminal := Some(Terminal(ev.at, ev.code.code, ev.expired))))
  }

  function WithEvent(r: Option<Record>, id: string, ordinal: Ordinal, e: Events): Option<Record> {
    if r.None? || (id, ordinal) !in e then r else ValidateEvent(r.value, ordinal, e[(id, ordinal)])
  }

  // One record as the loader rebuilds it, events in ordinal order.
  function Rebuilt(b: Binding, id: string, a: Actions, e: Events): Option<Record>
    requires id in a
  {
    WithEvent(WithEvent(ValidateAction(b, id, a[id]), id, First, e), id, Second, e)
  }

  predicate Sound(b: Binding, id: string, r: Record) {
    RowValid(b, id, r) && StampsParse(r)
  }

  // ---------- the loader accepts exactly the encodings of sound records ----------

  lemma RebuiltIsSound(b: Binding, id: string, a: Actions, e: Events)
    requires id in a && Rebuilt(b, id, a, e).Some?
    ensures var r := Rebuilt(b, id, a, e).value;
      Sound(b, id, r) && Holds(a, e, id, r)
  {
    hide Canonical, BoundTo, TerminalAllowed;
  }

  lemma SoundIsRebuilt(b: Binding, rows: map<string, Record>, a: Actions, e: Events, id: string)
    requires Encodes(rows, a, e) && id in rows
    ensures Rebuilt(b, id, a, e) == (if Sound(b, id, rows[id]) then Some(rows[id]) else None)
  {
    hide Canonical, BoundTo, TerminalAllowed;
    assert Holds(a, e, id, rows[id]);
  }

  method Enumerate(s: set<string>) returns (ids: seq<string>)
    ensures (forall id :: id in ids <==> id in s) && |ids| == |s|
    ensures forall i, j :: 0 <= i < j < |ids| ==> ids[i] != ids[j]
  {
    ids := [];
    var rest := s;
    while rest != {}
      invariant rest <= s && (forall id :: id in ids <==> id in s - rest) && |ids| + |rest| == |s|
      invariant forall i, j :: 0 <= i < j < |ids| ==> ids[i] != ids[j]
      decreases rest
    {
      var id :| id in rest;
      ids, rest := ids + [id], rest - {id};
    }
  }

  // The records after the action rows and the events of the first n identifiers.
  ghost predicate LoadedSoFar(b: Binding, ids: seq<string>, n: nat, a: Actions, e: Events, records: map<string, Record>)
    requires n <= |ids|
  {
    && records.Keys == a.Keys
    && (forall id :: id in records && id in ids[..n] ==> Rebuilt(b, id, a, e) == Some(records[id]))
    && (forall id :: id in records && id !in ids[..n] ==> ValidateAction(b, id, a[id]) == Some(records[id]))
    && (forall id :: id in ids[..n] ==> id in records)
  }

  function EventIDs(e: Events): set<string> {
    set x | x in e :: x.0
  }

  method LoadActions(b: Binding, a: Actions) returns (out: Option<map<string, Record>>)
    ensures out.Some? ==> out.value.Keys == a.Keys && forall id ::
      id in a ==> ValidateAction(b, id, a[id]) == Some(out.value[id])
    ensures out.None? ==> exists id :: id in a && ValidateAction(b, id, a[id]).None?
  {
    hide ValidateAction;
    var ids := Enumerate(a.Keys);
    var records: map<string, Record> := map[];
    for n := 0 to |ids|
      invariant records.Keys == set id | id in ids[..n]
      invariant forall id :: id in records ==> id in a && ValidateAction(b, id, a[id]) == Some(records[id])
    {
      var r := ValidateAction(b, ids[n], a[ids[n]]);
      if r.None? {
        return None;
      }
      assert ids[..n + 1] == ids[..n] + [ids[n]];
      records := records[ids[n] := r.value];
    }
    assert ids[..|ids|] == ids;
    out := Some(records);
  }

  /** Loading succeeds exactly on tables that encode at most a thousand sound
      records, and then returns those records. */
  method Load(b: Binding, a: Actions, e: Events) returns (out: Option<map<string, Record>>)
    ensures out.Some? ==> Encodes(out.value, a, e) && |out.value| <= MAX_RECORDS && forall id ::
      id in out.value ==> Sound(b, id, out.value[id])
    ensures out.None? ==> forall rows :: Encodes(rows, a, e) && |rows| <= MAX_RECORDS ==> exists id ::
      id in rows && !Sound(b, id, rows[id])
  {
    hide ValidateAction, ValidateEvent, Sound, Encodes;
    if |a| > MAX_RECORDS {
      TooMany(a, e);
      return None;
    }
    var actions := LoadActions(b, a);
    if actions.None? {
      ghost var bad :| bad in a && ValidateAction(b, bad, a[bad]).None?;
      NotRebuilt(b, a, e, bad);
      return None;
    }
    var records := actions.value;
    var ids := Enumerate(EventIDs(e));
    for n := 0 to |ids|
      invariant LoadedSoFar(b, ids, n, a, e, records)
    {
      var id := ids[n];
      if id !in records {
        Orphan(a, e, id);
        return None;
      }
      assert ids[..n + 1] == ids[..n] + [id];
      assert id !in ids[..n];
      var r := WithEvent(Some(records[id]), id, First, e);
      if r.None? {
        NotRebuilt(b, a, e, id);
        return None;
      }
      r := WithEvent(r, id, Second, e);
      if r.None? {
        NotRebuilt(b, a, e, id);
        return None;
      }
      records := records[id := r.value];
    }
    assert ids[..|ids|] == ids;
    RebuildsAll(b, a, e, ids, records);
    out := Some(records);
  }

  lemma TooMany(a: Actions, e: Events)
    requires |a| > MAX_RECORDS
    ensures forall rows :: Encodes(rows, a, e) ==> |rows| > MAX_RECORDS
  {
    forall rows | Encodes(rows, a, e) ensures |rows| > MAX_RECORDS {
      assert |rows.Keys| == |a.Keys|;
    }
  }

  lemma NotRebuilt(b: Binding, a: Actions, e: Events, id: string)
    requires id in a && Rebuilt(b, id, a, e).None?
    ensures forall rows :: Encodes(rows, a, e) ==> exists x :: x in rows && !Sound(b, x, rows[x])
  {
    hide Rebuilt, Sound;
    forall rows | Encodes(rows, a, e) ensures exists x :: x in rows && !Sound(b, x, rows[x]) {
      SoundIsRebuilt(b, rows, a, e, id);
      assert id in rows && !Sound(b, id, rows[id]);
    }
  }

  lemma Orphan(a: Actions, e: Events, id: string)
    requires id in EventIDs(e) && id !in a
    ensures forall rows :: !Encodes(rows, a, e)
  {
    var x :| x in e && x.0 == id;
    forall rows ensures !Encodes(rows, a, e) {
      assert Encodes(rows, a, e) ==> x.0 in rows;
    }
  }

  lemma RebuildsAll(b: Binding, a: Actions, e: Events, ids: seq<string>, records: map<string, Record>)
    requires LoadedSoFar(b, ids, |ids|, a, e, records) && |a| <= MAX_RECORDS
    requires forall id :: id in ids <==> id in EventIDs(e)
    ensures Encodes(records, a, e) && |records| <= MAX_RECORDS && forall id ::
      id in records ==> Sound(b, id, records[id])
  {
    hide ValidateAction, ValidateEvent, Sound, Holds;
    assert ids[..|ids|] == ids;
    assert |records.Keys| == |a.Keys|;
    forall x | x in e ensures x.0 in records { assert x.0 in EventIDs(e); }
    forall id | id in records
      ensures Rebuilt(b, id, a, e) == Some(records[id])
    {
      if id !in ids { assert (id, First) !in e && (id, Second) !in e; }
    }
    forall id | id in records { RebuiltIsSound(b, id, a, e); }
  }

  // ---------- verifying a store ----------

  /** Reopening: the loaded records must further be at most two unresolved, no two
      of them on one target or container. */
  method Verify(b: Binding, a: Actions, e: Events, floor: Time) returns (ok: bool)
    ensures forall rows :: Encodes(rows, a, e) ==> (ok <==> Reloads(b, rows, floor))
    ensures ok ==> exists rows :: Encodes(rows, a, e) && Reloads(b, rows, floor)
  {
    hide Sound, Encodes, Reloads;
    if !ParsesAsStamp(floor) {
      BadFloor(b, floor);
      return false;
    }
    var loaded := Load(b, a, e);
    if loaded.None? {
      NotLoaded(b, a, e, floor);
      return false;
    }
    var apart := VerifyUnresolved(loaded.value);
    OnlyRows(b, a, e, floor, loaded.value);
    ok := apart;
  }

  lemma BadFloor(b: Binding, floor: Time)
    requires !ParsesAsStamp(floor)
    ensures forall rows :: !Reloads(b, rows, floor)
  {
  }

  lemma NotLoaded(b: Binding, a: Actions, e: Events, floor: Time)
    requires forall rows :: Encodes(rows, a, e) && |rows| <= MAX_RECORDS ==> exists id ::
      id in rows && !Sound(b, id, rows[id])
    ensures forall rows :: Encodes(rows, a, e) ==> !Reloads(b, rows, floor)
  {
    hide Encodes, RowValid, UnresolvedApart;
  }

  lemma OnlyRows(b: Binding, a: Actions, e: Events, floor: Time, rows: map<string, Record>)
    requires Encodes(rows, a, e) && |rows| <= MAX_RECORDS && ParsesAsStamp(floor) && forall id ::
      id in rows ==> Sound(b, id, rows[id])
    ensures Reloads(b, rows, floor) <==> UnresolvedApart(rows) && |UnresolvedIDs(rows)| <= MAX_BUSY
    ensures forall other :: Encodes(other, a, e) ==> other == rows
  {
    hide RowValid, StampsParse, UnresolvedApart;
    forall other | Encodes(other, a, e) ensures other == rows {
      EncodesOne(rows, other, a, e);
    }
  }

  /** The tables determine the records they hold. */
  lemma EncodesOne(rows: map<string, Record>, other: map<string, Record>, a: Actions, e: Events)
    requires Encodes(rows, a, e) && Encodes(other, a, e)
    ensures rows == other
  {
    forall id | id in rows ensures rows[id] == other[id] {
      assert Holds(a, e, id, rows[id]) && Holds(a, e, id, other[id]);
    }
  }

  ghost function TargetOf(rows: map<string, Record>): string -> string {
    id => if id in rows then rows[id].key.TargetID() else ""
  }

  ghost function ContainerOf(rows: map<string, Record>): string -> (string, string) {
    id => if id in rows then (rows[id].key.engine, rows[id].key.container) else ("", "")
  }

  ghost predicate Image<T(!new)>(f: string -> T, seen: set<string>, image: set<T>) {
    (forall id :: id in seen ==> f(id) in image) && (forall t :: t in image ==> exists id :: id in seen && f(id) == t)
  }

  ghost predicate Injective<T>(f: string -> T, seen: set<string>) {
    forall x, y :: x in seen && y in seen && x != y ==> f(x) != f(y)
  }

  lemma ImageAdds<T(!new)>(f: string -> T, seen: set<string>, id: string, image: set<T>)
    requires Image(f, seen, image)
    ensures Image(f, seen + {id}, image + {f(id)})
  {
    forall t | t in image + {f(id)} ensures exists x :: x in seen + {id} && f(x) == t {
      if t in image {
        var x :| x in seen && f(x) == t;
        assert x in seen + {id};
      } else {
        assert id in seen + {id};
      }
    }
  }

  lemma InjectiveAdds<T(!new)>(f: string -> T, seen: set<string>, id: string, image: set<T>)
    requires Image(f, seen, image) && Injective(f, seen) && id !in seen
    ensures Injective(f, seen + {id}) <==> f(id) !in image
  {
    if f(id) in image {
      var x :| x in seen && f(x) == f(id);
      assert x in seen + {id} && id in seen + {id};
    }
  }

  lemma ApartIsInjective(rows: map<string, Record>)
    ensures var u := UnresolvedIDs(rows);
      UnresolvedApart(rows) <==> Injective(TargetOf(rows), u) && Injective(ContainerOf(rows), u)
  {
    hide Unresolved;
    forall x, y | x in rows && y in rows
      ensures Related(rows[x].key, rows[y].key) <==>
        TargetOf(rows)(x) == TargetOf(rows)(y) || ContainerOf(rows)(x) == ContainerOf(rows)(y)
    {
    }
  }

  // What the pass has seen so far: the targets and containers of `seen`, all different.
  ghost predicate Seen(rows: map<string, Record>, seen: set<string>, targets: set<string>,
                       physical: set<(string, string)>) {
    && Image(TargetOf(rows), seen, targets) && Injective(TargetOf(rows), seen)
    && Image(ContainerOf(rows), seen, physical) && Injective(ContainerOf(rows), seen)
  }

  lemma SeenMore(rows: map<string, Record>, seen: set<string>, id: string, targets: set<string>,
                 physical: set<(string, string)>)
    requires id in UnresolvedIDs(rows) && id !in seen && seen <= UnresolvedIDs(rows) &&
      Seen(rows, seen, targets, physical)
    ensures var k := rows[id].key;
      if k.TargetID() in targets || (k.engine, k.container) in physical then !UnresolvedApart(rows)
      else Seen(rows, seen + {id}, targets + {k.TargetID()}, physical + {(k.engine, k.container)})
  {
    hide Unresolved, UnresolvedApart, Image, Injective, TargetOf, ContainerOf;
    Listed(rows, id);
    ApartIsInjective(rows);
    InjectiveAdds(TargetOf(rows), seen, id, targets);
    InjectiveAdds(ContainerOf(rows), seen, id, physical);
    ImageAdds(TargetOf(rows), seen, id, targets);
    ImageAdds(ContainerOf(rows), seen, id, physical);
    InjectiveWithin(TargetOf(rows), seen + {id}, UnresolvedIDs(rows));
    InjectiveWithin(ContainerOf(rows), seen + {id}, UnresolvedIDs(rows));
  }

  /** The pass over the records that looks for unresolved actions in each other's way. */
  method VerifyUnresolved(rows: map<string, Record>) returns (ok: bool)
    ensures ok <==> UnresolvedApart(rows) && |UnresolvedIDs(rows)| <= MAX_BUSY
  {
    hide Unresolved, UnresolvedApart, Seen, UnresolvedIDs;
    var unknown, targets: set<string>, physical: set<(string, string)>, rest := 0, {}, {}, rows.Keys;
    ghost var all := UnresolvedIDs(rows);
    SeenNone(rows);
    while rest != {}
      invariant rest <= rows.Keys && unknown == |all - rest| && Seen(rows, all - rest, targets, physical)
      decreases rest
    {
      var id :| id in rest;
      var k := rows[id].key;
      Listed(rows, id);
      Uncovers(all, rest, id);
      if Unresolved(rows[id]) {
        SeenMore(rows, all - rest, id, targets, physical);
        if k.TargetID() in targets || (k.engine, k.container) in physical {
          return false;
        }
        targets, physical, unknown := targets + {k.TargetID()}, physical + {(k.engine, k.container)}, unknown + 1;
      }
      rest := rest - {id};
    }
    assert all - rest == all;
    SeenAll(rows, targets, physical);
    ok := unknown <= MAX_BUSY;
  }

  lemma Uncovers(all: set<string>, rest: set<string>, id: string)
    requires id in rest
    ensures all - (rest - {id}) == if id in all then (all - rest) + {id} else all - rest
    ensures |all - (rest - {id})| == |all - rest| + if id in all then 1 else 0
  {
    if id in all {
      assert all - (rest - {id}) == (all - rest) + {id};
    } else {
      assert all - (rest - {id}) == all - rest;
    }
  }

  lemma SeenNone(rows: map<string, Record>)
    ensures Seen(rows, {}, {}, {}) && UnresolvedIDs(rows) - rows.Keys == {}
  {
  }

  lemma SeenAll(rows: map<string, Record>, targets: set<string>, physical: set<(string, string)>)
    requires Seen(rows, UnresolvedIDs(rows), targets, physical)
    ensures UnresolvedApart(rows)
  {
    hide Unresolved, UnresolvedApart, Image, Injective, TargetOf, ContainerOf;
    ApartIsInjective(rows);
  }

  lemma Listed(rows: map<string, Record>, id: string)
    requires id in rows
    ensures id in UnresolvedIDs(rows) <==> Unresolved(rows[id])
    ensures TargetOf(rows)(id) == rows[id].key.TargetID() &&
      ContainerOf(rows)(id) == (rows[id].key.engine, rows[id].key.container)
  {
  }

  lemma InjectiveWithin<T(!new)>(f: string -> T, part: set<string>, all: set<string>)
    requires part <= all
    ensures Injective(f, all) ==> Injective(f, part)
  {
  }
}
