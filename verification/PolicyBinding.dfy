/** Resolving a receipt against the policy, and holding stored keys to it. */
module PolicyBinding {
  import opened ActionTypes
  import opened Policy

  datatype Lookup = Refused | Missing | Found(resolved: Resolved)

  predicate ReceiptAllowed(r: Receipt) {
    && Identifier(r.actionID, "hla_") && Identifier(r.serverID, "srv_") && Identifier(r.ownerID, "usr_") &&
       r.actorID == r.ownerID
    && Identifier(r.connectorID, "agent_") && Identifier(r.targetID, "hlt_")
    && LocalRevision(r.policyRevision) && LocalRevision(r.capabilityRevision) &&
       ParametersAllowed(r.operation, r.parameters)
    && r.requested != 0 && r.expires != 0 && ParsesAsStamp(r.requested) && ParsesAsStamp(r.expires)
    && r.expires == r.requested + 300 * SECOND
  }

  predicate SameScope(p: Document, r: Receipt) {
    r.serverID == p.serverID && r.ownerID == p.ownerID && r.connectorID == p.connectorID
  }

  predicate Matches(p: Document, r: Receipt, current: bool, m: Mapping) {
    && m.targetID == r.targetID && m.operation == r.operation && m.policyRevision == r.policyRevision
    && m.capabilityRevision == r.capabilityRevision && m.parameters == r.parameters
    && (current ==> m.revision in p.current)
  }

  function RequestOf(r: Receipt): Request {
    Request(r.actionID, r.serverID, r.connectorID, r.ownerID, r.actorID, r.targetID, r.operation,
      r.parameters.graceSeconds,
            r.policyRevision, r.capabilityRevision, r.requested, r.expires)
  }

  function BindingOf(r: Receipt, m: Mapping): LocalBinding {
    LocalBinding(r.serverID, r.connectorID, r.ownerID, r.targetID, m.engine, m.container,
                 r.policyRevision, r.capabilityRevision, r.parameters.graceSeconds, [r.operation])
  }

  function KeyOf(r: Receipt, m: Mapping): Key {
    KeyFor(RequestOf(r), BindingOf(r, m))
  }

  lemma MatchSameMeaning(p: Document, r: Receipt, current: bool, a: Mapping, b: Mapping)
    requires EachAllowed(p, |p.mappings|) && TargetsFixed(p, |p.mappings|) && a in p.mappings && b in p.mappings
    requires Matches(p, r, current, a) && Matches(p, r, current, b)
    ensures Semantic(a) == Semantic(b)
  {
    hide ValidMapping;
    var i :| 0 <= i < |p.mappings| && p.mappings[i] == a;
    var j :| 0 <= j < |p.mappings| && p.mappings[j] == b;
    assert MappingAllowed(p, p.mappings[i]) && MappingAllowed(p, p.mappings[j]);
    assert Physical(p.mappings[i]) == Physical(p.mappings[j]);
  }

  lemma SameMeaning(p: Document, a: Mapping, b: Mapping)
    requires MeaningsDiffer(p, |p.mappings|) && a in p.mappings && b in p.mappings && Semantic(a) == Semantic(b)
    ensures a == b
  {
    var i :| 0 <= i < |p.mappings| && p.mappings[i] == a;
    var j :| 0 <= j < |p.mappings| && p.mappings[j] == b;
  }

  /** In an accepted policy a receipt selects at most one mapping, whether only
      current mappings are eligible or retained ones too. */
  lemma AtMostOneMatch(p: Document, alias: string -> string, r: Receipt, current: bool, a: Mapping, b: Mapping)
    requires PolicyAllowed(p, alias) && a in p.mappings && b in p.mappings
    requires Matches(p, r, current, a) && Matches(p, r, current, b)
    ensures a == b
  {
    MatchSameMeaning(p, r, current, a, b);
    SameMeaning(p, a, b);
  }

  // A matched receipt always yields a journal key: no later refusal is possible.
  lemma MatchYieldsKey(p: Document, r: Receipt, current: bool, m: Mapping)
    requires ReceiptAllowed(r) && MappingAllowed(p, m) && Matches(p, r, current, m)
    ensures NewJournalKey(RequestOf(r), BindingOf(r, m)) == Some(KeyOf(r, m)) && Canonical(KeyOf(r, m))
  {
    hide Identifier, Hex;
  }

  ghost predicate ResolvesTo(p: Document, alias: string -> string, r: Receipt, current: bool, m: Mapping) {
    && PolicyAllowed(p, alias) && ReceiptAllowed(r) && SameScope(p, r)
    && m in p.mappings && Matches(p, r, current, m) && r.targetKey == alias(m.container)
  }

  // A second matching entry of the list would repeat a meaning.
  lemma NoSecondMatch(p: Document, alias: string -> string, r: Receipt, current: bool, i: nat, j: nat)
    requires PolicyAllowed(p, alias) && i < j < |p.mappings|
    ensures !(Matches(p, r, current, p.mappings[i]) && Matches(p, r, current, p.mappings[j]))
  {
    hide HeaderAllowed, CurrentAllowed, EachAllowed, TargetsFixed;
    if Matches(p, r, current, p.mappings[i]) && Matches(p, r, current, p.mappings[j]) {
      MatchSameMeaning(p, r, current, p.mappings[i], p.mappings[j]);
    }
  }

  lemma AllowedMember(p: Document, alias: string -> string, m: Mapping)
    requires PolicyAllowed(p, alias) && m in p.mappings
    ensures MappingAllowed(p, m)
  {
    hide HeaderAllowed, CurrentAllowed, MappingAllowed;
  }

  ghost predicate Picked(p: Document, r: Receipt, current: bool, n: nat, selected: Option<nat>)
    requires n <= |p.mappings|
  {
    && (selected.Some? ==> selected.value < n && Matches(p, r, current, p.mappings[selected.value]))
    && (forall k :: 0 <= k < n && Matches(p, r, current, p.mappings[k]) ==> selected == Some(k))
  }

  /** The lookup finds the one mapping a receipt names, or nothing; the branch for
      a second candidate is dead. */
  method ResolveReceipt(p: Document, alias: string -> string, r: Receipt, current: bool) returns (out: Lookup)
    ensures out.Found? <==> exists m :: ResolvesTo(p, alias, r, current, m)
    ensures forall m :: ResolvesTo(p, alias, r, current, m) ==> out == Found(Resolved(KeyOf(r, m), m.revision))
  {
    hide PolicyAllowed, ReceiptAllowed, Matches, NewJournalKey, RequestOf, BindingOf;
    var valid := ValidatePolicy(p, alias);
    if !valid || !ReceiptAllowed(r) || !SameScope(p, r) { return Refused; }
    var selected: Option<nat> := None;
    for i := 0 to |p.mappings|
      invariant Picked(p, r, current, i, selected)
    {
      if Matches(p, r, current, p.mappings[i]) {
        if selected.Some? {
          NoSecondMatch(p, alias, r, current, selected.value, i);
          assert false;
        }
        selected := Some(i);
      }
    }
    if selected.None? || r.targetKey != alias(p.mappings[selected.value].container) { return Missing; }
    var m := p.mappings[selected.value];
    AllowedMember(p, alias, m);
    MatchYieldsKey(p, r, current, m);
    assert ResolvesTo(p, alias, r, current, m);
    match NewJournalKey(RequestOf(r), BindingOf(r, m))
    case None => out := Missing;
    case Some(key) => out := Found(Resolved(key, m.revision));
  }

  // ---------- stored keys refer back to mappings ----------

  // The mapping, without its number, that a stored key was bound from.
  function MappingForKey(k: Key): Option<Mapping> {
    var r := k.request;
    var m := Mapping(r.serverID, r.ownerID, r.installationID, r.targetID, k.engine, k.container, r.policyRevision,
                     r.capabilityRevision, r.operation,
                     if r.operation == Start then Parameters(1, true, 0) else Parameters(1, false, r.grace), 0);
    if Canonical(k) && r.ownerID == r.actorID && ValidMapping(m, false) then Some(m) else None
  }

  /** A key bound from a mapping of the policy maps back to exactly that mapping. */
  lemma MapsBack(p: Document, alias: string -> string, r: Receipt, current: bool, m: Mapping)
    requires ResolvesTo(p, alias, r, current, m)
    ensures MappingForKey(KeyOf(r, m)) == Some(Semantic(m))
    ensures forall x :: x in p.mappings && Semantic(x) == Semantic(m) ==> x == m
  {
    hide Identifier, Hex, HeaderAllowed, CurrentAllowed;
    AllowedMember(p, alias, m);
    MatchYieldsKey(p, r, current, m);
    assert forall x :: x in p.mappings && Semantic(x) == Semantic(m) ==> x == m by {
      forall x | x in p.mappings && Semantic(x) == Semantic(m) ensures x == m {
        SameMeaning(p, x, m);
      }
    }
  }

  ghost predicate Referenced(p: Document, k: Key) {
    exists m :: m in p.mappings && MappingForKey(k) == Some(Semantic(m))
  }

  method ValidateMappingReferences(p: Document, alias: string -> string, keys: seq<Key>) returns (ok: bool)
    ensures ok <==> PolicyAllowed(p, alias) && |keys| <= 1000 && forall i :: 0 <= i < |keys| ==> Referenced(p, keys[i])
  {
    hide PolicyAllowed, MappingForKey, Semantic;
    var valid := ValidatePolicy(p, alias);
    if !valid || |keys| > 1000 { return false; }
    var mappings: set<Mapping> := {};
    for i := 0 to |p.mappings|
      invariant mappings == set m | m in p.mappings[..i] :: Semantic(m)
    {
      assert p.mappings[..i+1] == p.mappings[..i] + [p.mappings[i]];
      mappings := mappings + {Semantic(p.mappings[i])};
    }
    assert p.mappings[..|p.mappings|] == p.mappings;
    for i := 0 to |keys|
      invariant forall k :: 0 <= k < i ==> Referenced(p, keys[k])
    {
      var m := MappingForKey(keys[i]);
      if m.None? || m.value !in mappings { return false; }
    }
    ok := true;
  }

  predicate OfGeneration(k: Key, generation: string) {
    Canonical(k) && Hex(generation, 32) && k.engine == generation
  }

  ghost predicate EngineAllowed(p: Document, alias: string -> string, generation: string) {
    && PolicyAllowed(p, alias) && Hex(generation, 32)
    && forall m :: m in p.mappings && m.revision in p.current ==> m.engine == generation
  }

  method ValidateEnginePolicy(p: Document, alias: string -> string, generation: string) returns (ok: bool)
    ensures ok <==> EngineAllowed(p, alias, generation)
  {
    hide PolicyAllowed, Hex;
    var valid := ValidatePolicy(p, alias);
    if !valid || !Hex(generation, 32) { return false; }
    for i := 0 to |p.mappings|
      invariant forall k :: 0 <= k < i && p.mappings[k].revision in p.current ==> p.mappings[k].engine == generation
    {
      if p.mappings[i].revision in p.current && p.mappings[i].engine != generation {
        assert p.mappings[i] in p.mappings;
        return false;
      }
    }
    ok := true;
  }

  /** Every key the broker binds under an accepted policy passes both checks that
      are later made of the stored records. */
  lemma BoundKeysPass(p: Document, alias: string -> string, generation: string, r: Receipt, m: Mapping)
    requires EngineAllowed(p, alias, generation) && ResolvesTo(p, alias, r, true, m)
    ensures Referenced(p, KeyOf(r, m)) && OfGeneration(KeyOf(r, m), generation)
  {
    hide PolicyAllowed, ReceiptAllowed, Canonical, Hex, MappingForKey;
    MapsBack(p, alias, r, true, m);
    AllowedMember(p, alias, m);
    MatchYieldsKey(p, r, true, m);
  }

  /** Under an accepted policy the current mappings of one target all name the same
      container, and no other target's current mapping names it. */
  lemma CurrentTargetsApart(p: Document, alias: string -> string, a: Mapping, b: Mapping)
    requires PolicyAllowed(p, alias) && a in p.mappings && b in p.mappings && a.revision in p.current &&
      b.revision in p.current
    ensures a.targetID == b.targetID <==> Physical(a) == Physical(b)
  {
    hide HeaderAllowed, EachAllowed, MeaningsDiffer;
    var i :| 0 <= i < |p.current| && p.current[i] == a.revision;
    var j :| 0 <= j < |p.current| && p.current[j] == b.revision;
    assert Names(p, p.current[i], a) && Names(p, p.current[j], b);
    if i == j {
      NamedOnce(p, p.current[i], a, b);
    } else if i < j {
      assert Compatible(alias, a, b);
    } else {
      assert Compatible(alias, b, a);
    }
  }
}
