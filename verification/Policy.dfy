/** The protected owner policy: what makes a document acceptable, how a remote
    receipt selects a mapping, and how stored keys refer back to mappings. A
    revision is its canonical decimal value; any other text counts as 0. */
module Policy {
  import opened ActionTypes

  const MAX_INT64: int := 0x7FFF_FFFF_FFFF_FFFF

  datatype Parameters = Parameters(format: int, graceNull: bool, graceSeconds: nat)

  datatype Mapping = Mapping(
    serverID: string, ownerID: string, connectorID: string, targetID: string, engine: string, container: string,
    policyRevision: nat, capabilityRevision: nat, operation: Operation, parameters: Parameters, revision: nat)

  datatype Document = Document(
    version: string, serverID: string, ownerID: string, connectorID: string, revision: nat,
    current: seq<nat>, mappings: seq<Mapping>)

  datatype Receipt = Receipt(
    actionID: string, serverID: string, ownerID: string, actorID: string, connectorID: string, operation: Operation,
    targetID: string, targetKey: string, policyRevision: nat, capabilityRevision: nat, parameters: Parameters,
    requested: Time, expires: Time)

  datatype Resolved = Resolved(key: Key, mappingRevision: nat)

  predicate LocalRevision(n: nat) {
    1 <= n <= MAX_INT64
  }

  predicate ParametersAllowed(op: Operation, p: Parameters) {
    && p.format == 1
    && if op == Start then p.graceNull && p.graceSeconds == 0 else !p.graceNull && 1 <= p.graceSeconds <= 30
  }

  predicate ValidMapping(m: Mapping, revisionRequired: bool) {
    && Identifier(m.serverID, "srv_") && Identifier(m.ownerID, "usr_") && Identifier(m.connectorID, "agent_")
    && Identifier(m.targetID, "hlt_") && Hex(m.engine, 32) && Hex(m.container, 64)
    && LocalRevision(m.policyRevision) && LocalRevision(m.capabilityRevision)
    && (revisionRequired ==> LocalRevision(m.revision)) && ParametersAllowed(m.operation, m.parameters)
  }

  // The mapping without its allocation number.
  function Semantic(m: Mapping): Mapping {
    m.(revision := 0)
  }

  function Physical(m: Mapping): (string, string) {
    (m.engine, m.container)
  }

  predicate InScope(p: Document, m: Mapping) {
    m.serverID == p.serverID && m.ownerID == p.ownerID && m.connectorID == p.connectorID
  }

  predicate HeaderAllowed(p: Document) {
    && LocalRevision(p.revision) && p.version == "observer-action-policy/v1"
    && Identifier(p.serverID, "srv_") && Identifier(p.ownerID, "usr_") && Identifier(p.connectorID, "agent_")
    && |p.current| <= 32 && |p.mappings| <= 1032
  }

  predicate MappingAllowed(p: Document, m: Mapping) {
    m.revision <= p.revision && ValidMapping(m, true) && InScope(p, m)
  }

  ghost predicate EachAllowed(p: Document, n: nat)
    requires n <= |p.mappings|
  {
    forall i :: 0 <= i < n ==> MappingAllowed(p, p.mappings[i])
  }

  ghost predicate RevisionsRise(p: Document, n: nat)
    requires n <= |p.mappings|
  {
    forall i, j :: 0 <= i < j < n ==> p.mappings[i].revision < p.mappings[j].revision
  }

  ghost predicate MeaningsDiffer(p: Document, n: nat)
    requires n <= |p.mappings|
  {
    forall i, j :: 0 <= i < j < n ==> Semantic(p.mappings[i]) != Semantic(p.mappings[j])
  }

  ghost predicate TargetsFixed(p: Document, n: nat)
    requires n <= |p.mappings|
  {
    forall i, j :: 0 <= i < j < n && p.mappings[i].targetID == p.mappings[j].targetID ==>
      Physical(p.mappings[i]) == Physical(p.mappings[j])
  }

  // The first n mappings: rising revisions, no repeated meaning, one container a target.
  ghost predicate MappingsAllowed(p: Document, n: nat)
    requires n <= |p.mappings|
  {
    EachAllowed(p, n) && RevisionsRise(p, n) && MeaningsDiffer(p, n) && TargetsFixed(p, n)
  }

  ghost predicate Names(p: Document, revision: nat, m: Mapping) {
    m in p.mappings && m.revision == revision
  }

  ghost predicate Selects(p: Document, revision: nat) {
    LocalRevision(revision) && exists m :: Names(p, revision, m)
  }

  // Two current mappings may share neither target and operation, nor - across
  // targets - a display alias or a container.
  ghost predicate Compatible(alias: string -> string, a: Mapping, b: Mapping) {
    && !(a.targetID == b.targetID && a.operation == b.operation)
    && (alias(a.container) == alias(b.container) ==> a.targetID == b.targetID)
    && (Physical(a) == Physical(b) ==> a.targetID == b.targetID)
  }

  ghost predicate CurrentAllowed(p: Document, alias: string -> string, n: nat)
    requires n <= |p.current|
  {
    && (forall i :: 0 <= i < n ==> Selects(p, p.current[i]))
    && (forall i, j :: 0 <= i < j < n ==> p.current[i] < p.current[j])
    && (forall i, j, a, b ::
       0 <= i < j < n && Names(p, p.current[i], a) && Names(p, p.current[j], b) ==> Compatible(alias, a, b))
  }

  ghost predicate PolicyAllowed(p: Document, alias: string -> string) {
    && HeaderAllowed(p) && MappingsAllowed(p, |p.mappings|) && CurrentAllowed(p, alias, |p.current|)
    && |p.mappings| - |p.current| <= 1000
  }

  // ---------- validation ----------

  // What the validation loop has gathered about the first n mappings.
  datatype Index = Index(previous: nat, bySemantic: set<Mapping>, targetBinding: map<string, (string, string)>,
    byRevision: map<nat, Mapping>)

  ghost predicate LastRevision(p: Document, n: nat, previous: nat)
    requires n <= |p.mappings|
  {
    if n == 0 then previous == 0 else previous == p.mappings[n - 1].revision
  }

  ghost predicate MeaningsSeen(p: Document, n: nat, seen: set<Mapping>)
    requires n <= |p.mappings|
  {
    && (forall k :: 0 <= k < n ==> Semantic(p.mappings[k]) in seen)
    && (forall x :: x in seen ==> exists k :: 0 <= k < n && Semantic(p.mappings[k]) == x)
  }

  ghost predicate TargetsSeen(p: Document, n: nat, seen: map<string, (string, string)>)
    requires n <= |p.mappings|
  {
    && (forall k ::
       0 <= k < n ==> p.mappings[k].targetID in seen && seen[p.mappings[k].targetID] == Physical(p.mappings[k]))
    && (forall t :: t in seen ==> exists k :: 0 <= k < n && p.mappings[k].targetID == t)
  }

  ghost predicate RevisionsSeen(p: Document, n: nat, seen: map<nat, Mapping>)
    requires n <= |p.mappings|
  {
    && (forall k :: 0 <= k < n ==> p.mappings[k].revision in seen && seen[p.mappings[k].revision] == p.mappings[k])
    && (forall r :: r in seen ==> Names(p, r, seen[r]))
  }

  ghost predicate Indexes(p: Document, n: nat, x: Index)
    requires n <= |p.mappings|
  {
    && LastRevision(p, n, x.previous) && MeaningsSeen(p, n, x.bySemantic)
    && TargetsSeen(p, n, x.targetBinding) && RevisionsSeen(p, n, x.byRevision)
  }

  predicate Admits(p: Document, x: Index, m: Mapping) {
    && x.previous < m.revision && MappingAllowed(p, m) && Semantic(m) !in x.bySemantic
    && (m.targetID in x.targetBinding ==> x.targetBinding[m.targetID] == Physical(m))
  }

  function Extended(x: Index, m: Mapping): Index {
    Index(m.revision, x.bySemantic +
      {Semantic(m)}, x.targetBinding[m.targetID := Physical(m)], x.byRevision[m.revision := m])
  }

  lemma RiseExactly(p: Document, n: nat, previous: nat)
    requires n < |p.mappings| && RevisionsRise(p, n) && LastRevision(p, n, previous) && 0 < p.mappings[n].revision
    ensures previous < p.mappings[n].revision <==> RevisionsRise(p, n + 1)
  {
  }

  lemma MeaningExactly(p: Document, n: nat, seen: set<Mapping>)
    requires n < |p.mappings| && MeaningsDiffer(p, n) && MeaningsSeen(p, n, seen)
    ensures Semantic(p.mappings[n]) !in seen <==> MeaningsDiffer(p, n + 1)
    ensures MeaningsSeen(p, n + 1, seen + {Semantic(p.mappings[n])})
  {
    hide Semantic;
    if Semantic(p.mappings[n]) in seen {
      var k :| 0 <= k < n && Semantic(p.mappings[k]) == Semantic(p.mappings[n]);
    }
  }

  lemma TargetExactly(p: Document, n: nat, seen: map<string, (string, string)>)
    requires n < |p.mappings| && TargetsFixed(p, n) && TargetsSeen(p, n, seen)
    ensures var m := p.mappings[n]; (m.targetID in seen ==> seen[m.targetID] == Physical(m)) <==> TargetsFixed(p, n + 1)
  {
    hide Physical;
    var m := p.mappings[n];
    if m.targetID in seen && seen[m.targetID] != Physical(m) {
      var k :| 0 <= k < n && p.mappings[k].targetID == m.targetID;
    }
  }

  lemma TargetsSeenNext(p: Document, n: nat, seen: map<string, (string, string)>)
    requires n < |p.mappings| && TargetsSeen(p, n, seen)
    requires p.mappings[n].targetID in seen ==> seen[p.mappings[n].targetID] == Physical(p.mappings[n])
    ensures TargetsSeen(p, n + 1, seen[p.mappings[n].targetID := Physical(p.mappings[n])])
  {
    hide Physical;
  }

  lemma RevisionsSeenNext(p: Document, n: nat, seen: map<nat, Mapping>)
    requires n < |p.mappings| && RevisionsSeen(p, n, seen) && RevisionsRise(p, n + 1)
    ensures RevisionsSeen(p, n + 1, seen[p.mappings[n].revision := p.mappings[n]])
  {
  }

  lemma AllowedRevisionPositive(p: Document, m: Mapping)
    requires MappingAllowed(p, m)
    ensures 0 < m.revision
  {
  }

  lemma AdmitsExactly(p: Document, n: nat, x: Index)
    requires n < |p.mappings| && MappingsAllowed(p, n) && Indexes(p, n, x)
    ensures Admits(p, x, p.mappings[n]) <==> MappingsAllowed(p, n + 1)
    ensures Admits(p, x, p.mappings[n]) ==> Indexes(p, n + 1, Extended(x, p.mappings[n]))
  {
    hide MappingAllowed, MeaningsSeen, TargetsSeen, RevisionsSeen, MeaningsDiffer, TargetsFixed,
         RevisionsRise, Semantic, Physical;
    var m := p.mappings[n];
    if MappingAllowed(p, m) {
      AllowedRevisionPositive(p, m);
      RiseExactly(p, n, x.previous);
      MeaningExactly(p, n, x.bySemantic);
      TargetExactly(p, n, x.targetBinding);
      if Admits(p, x, m) {
        TargetsSeenNext(p, n, x.targetBinding);
        RevisionsSeenNext(p, n, x.byRevision);
      }
    }
  }

  lemma FewerMappings(p: Document, n: nat)
    requires n <= |p.mappings|
    ensures MappingsAllowed(p, |p.mappings|) ==> MappingsAllowed(p, n)
  {
    hide MappingAllowed, Semantic, Physical;
  }

  method ValidateMappings(p: Document) returns (ok: bool, x: Index)
    ensures ok <==> MappingsAllowed(p, |p.mappings|)
    ensures ok ==> Indexes(p, |p.mappings|, x)
  {
    hide MappingAllowed, EachAllowed, MeaningsDiffer, TargetsFixed, RevisionsRise, MeaningsSeen, TargetsSeen,
         RevisionsSeen, LastRevision, Admits, Extended;
    x := Index(0, {}, map[], map[]);
    NothingIndexed(p);
    for i := 0 to |p.mappings|
      invariant MappingsAllowed(p, i) && Indexes(p, i, x)
    {
      AdmitsExactly(p, i, x);
      if !Admits(p, x, p.mappings[i]) {
        FewerMappings(p, i + 1);
        return false, x;
      }
      x := Extended(x, p.mappings[i]);
    }
    ok := true;
  }

  lemma NothingIndexed(p: Document)
    ensures MappingsAllowed(p, 0) && Indexes(p, 0, Index(0, {}, map[], map[]))
  {
  }

  // ---------- the current selection ----------

  datatype Usage = Usage(pairs: set<(string, Operation)>, aliases: map<string, string>,
    physicalTargets: map<(string, string), string>)

  ghost predicate PairsUsed(chosen: seq<Mapping>, pairs: set<(string, Operation)>) {
    && (forall k :: 0 <= k < |chosen| ==> (chosen[k].targetID, chosen[k].operation) in pairs)
    && (forall x :: x in pairs ==> exists k :: 0 <= k < |chosen| && (chosen[k].targetID, chosen[k].operation) == x)
  }

  ghost predicate AliasesUsed(alias: string -> string, chosen: seq<Mapping>, aliases: map<string, string>) {
    && (forall k ::
       0 <= k < |chosen| ==>
       alias(chosen[k].container) in aliases && aliases[alias(chosen[k].container)] == chosen[k].targetID)
    && (forall x :: x in aliases ==> exists k :: 0 <= k < |chosen| && alias(chosen[k].container) == x)
  }

  ghost predicate PhysicalUsed(chosen: seq<Mapping>, used: map<(string, string), string>) {
    && (forall k ::
       0 <= k < |chosen| ==> Physical(chosen[k]) in used && used[Physical(chosen[k])] == chosen[k].targetID)
    && (forall x :: x in used ==> exists k :: 0 <= k < |chosen| && Physical(chosen[k]) == x)
  }

  ghost predicate Uses(alias: string -> string, chosen: seq<Mapping>, u: Usage) {
    PairsUsed(chosen, u.pairs) && AliasesUsed(alias, chosen, u.aliases) && PhysicalUsed(chosen, u.physicalTargets)
  }

  predicate Fits(alias: string -> string, u: Usage, m: Mapping) {
    && (m.targetID, m.operation) !in u.pairs
    && (alias(m.container) in u.aliases ==> u.aliases[alias(m.container)] == m.targetID)
    && (Physical(m) in u.physicalTargets ==> u.physicalTargets[Physical(m)] == m.targetID)
  }

  function Used(alias: string -> string, u: Usage, m: Mapping): Usage {
    Usage(u.pairs + {(m.targetID, m.operation)}, u.aliases[alias(m.container) := m.targetID],
          u.physicalTargets[Physical(m) := m.targetID])
  }

  ghost predicate CompatibleWithAll(alias: string -> string, chosen: seq<Mapping>, m: Mapping) {
    forall k :: 0 <= k < |chosen| ==> Compatible(alias, chosen[k], m)
  }

  lemma PairFits(chosen: seq<Mapping>, pairs: set<(string, Operation)>, m: Mapping)
    requires PairsUsed(chosen, pairs)
    ensures (m.targetID, m.operation) !in pairs <==>
      forall k :: 0 <= k < |chosen| ==> !(chosen[k].targetID == m.targetID && chosen[k].operation == m.operation)
  {
  }

  lemma AliasFits(alias: string -> string, chosen: seq<Mapping>, aliases: map<string, string>, m: Mapping)
    requires AliasesUsed(alias, chosen, aliases)
    ensures (alias(m.container) in aliases ==> aliases[alias(m.container)] == m.targetID) <==>
      forall k ::
        0 <= k < |chosen| && alias(chosen[k].container) == alias(m.container) ==> chosen[k].targetID == m.targetID
  {
  }

  lemma PhysicalFits(chosen: seq<Mapping>, used: map<(string, string), string>, m: Mapping)
    requires PhysicalUsed(chosen, used)
    ensures (Physical(m) in used ==> used[Physical(m)] == m.targetID) <==>
      forall k :: 0 <= k < |chosen| && Physical(chosen[k]) == Physical(m) ==> chosen[k].targetID == m.targetID
  {
    hide Physical;
  }

  lemma FitsExactly(alias: string -> string, chosen: seq<Mapping>, u: Usage, m: Mapping)
    requires Uses(alias, chosen, u)
    ensures Fits(alias, u, m) <==> CompatibleWithAll(alias, chosen, m)
  {
    hide Physical, PairsUsed, AliasesUsed, PhysicalUsed;
    PairFits(chosen, u.pairs, m);
    AliasFits(alias, chosen, u.aliases, m);
    PhysicalFits(chosen, u.physicalTargets, m);
  }

  lemma UsesNext(alias: string -> string, chosen: seq<Mapping>, u: Usage, m: Mapping)
    requires Uses(alias, chosen, u) && Fits(alias, u, m)
    ensures Uses(alias, chosen + [m], Used(alias, u, m))
  {
    hide Physical;
    PairsNext(chosen, u.pairs, m);
    AliasesNext(alias, chosen, u.aliases, m);
    PhysicalNext(chosen, u.physicalTargets, m);
  }

  lemma PairsNext(chosen: seq<Mapping>, pairs: set<(string, Operation)>, m: Mapping)
    requires PairsUsed(chosen, pairs)
    ensures PairsUsed(chosen + [m], pairs + {(m.targetID, m.operation)})
  {
    var longer := chosen + [m];
    assert longer[|chosen|] == m;
    forall x | x in pairs ensures exists k :: 0 <= k < |longer| && (longer[k].targetID, longer[k].operation) == x {
      var k :| 0 <= k < |chosen| && (chosen[k].targetID, chosen[k].operation) == x;
      assert longer[k] == chosen[k];
    }
  }

  lemma AliasesNext(alias: string -> string, chosen: seq<Mapping>, aliases: map<string, string>, m: Mapping)
    requires AliasesUsed(alias, chosen, aliases)
    requires alias(m.container) in aliases ==> aliases[alias(m.container)] == m.targetID
    ensures AliasesUsed(alias, chosen + [m], aliases[alias(m.container) := m.targetID])
  {
    var longer := chosen + [m];
    assert longer[|chosen|] == m;
    forall x | x in aliases ensures exists k :: 0 <= k < |longer| && alias(longer[k].container) == x {
      var k :| 0 <= k < |chosen| && alias(chosen[k].container) == x;
      assert longer[k] == chosen[k];
    }
  }

  lemma PhysicalNext(chosen: seq<Mapping>, used: map<(string, string), string>, m: Mapping)
    requires PhysicalUsed(chosen, used)
    requires Physical(m) in used ==> used[Physical(m)] == m.targetID
    ensures PhysicalUsed(chosen + [m], used[Physical(m) := m.targetID])
  {
    hide Physical;
    var longer := chosen + [m];
    assert longer[|chosen|] == m;
    forall x | x in used ensures exists k :: 0 <= k < |longer| && Physical(longer[k]) == x {
      var k :| 0 <= k < |chosen| && Physical(chosen[k]) == x;
      assert longer[k] == chosen[k];
    }
  }

  // `chosen` lists the mappings the first n current revisions name.
  ghost predicate Chosen(p: Document, n: nat, chosen: seq<Mapping>)
    requires n <= |p.current|
  {
    |chosen| == n && forall i :: 0 <= i < n ==> Names(p, p.current[i], chosen[i])
  }

  lemma NamedOnce(p: Document, r: nat, a: Mapping, b: Mapping)
    requires RevisionsRise(p, |p.mappings|) && Names(p, r, a) && Names(p, r, b)
    ensures a == b
  {
  }

  lemma CurrentStep(p: Document, alias: string -> string, n: nat, chosen: seq<Mapping>, m: Mapping)
    requires n < |p.current| && RevisionsRise(p, |p.mappings|) && CurrentAllowed(p, alias, n) && Chosen(p, n, chosen)
    requires Names(p, p.current[n], m) && LocalRevision(p.current[n]) && (n > 0 ==> p.current[n - 1] < p.current[n])
    ensures CurrentAllowed(p, alias, n + 1) <==> CompatibleWithAll(alias, chosen, m)
  {
    hide Compatible, RevisionsRise, Names;
    assert Selects(p, p.current[n]);
    assert forall i :: 0 <= i < n ==> p.current[i] <= p.current[n - 1];
    if CompatibleWithAll(alias, chosen, m) {
      forall i, j, a, b | 0 <= i < j < n + 1 && Names(p, p.current[i], a) && Names(p, p.current[j], b)
        ensures Compatible(alias, a, b)
      {
        if j == n {
          NamedOnce(p, p.current[n], b, m);
          NamedOnce(p, p.current[i], a, chosen[i]);
        }
      }
    }
  }

  method ValidateCurrent(p: Document, alias: string -> string, x: Index) returns (ok: bool)
    requires MappingsAllowed(p, |p.mappings|) && Indexes(p, |p.mappings|, x)
    ensures ok <==> CurrentAllowed(p, alias, |p.current|)
  {
    hide MappingAllowed, EachAllowed, MeaningsDiffer, TargetsFixed, MeaningsSeen, TargetsSeen, LastRevision,
         Uses, Fits, Used, CompatibleWithAll, Compatible, RevisionsRise, Names, CurrentAllowed;
    var u := Usage({}, map[], map[]);
    ghost var chosen := [];
    var previous := 0;
    NothingCurrent(p, alias);
    for i := 0 to |p.current|
      invariant CurrentAllowed(p, alias, i) && Chosen(p, i, chosen) && Uses(alias, chosen, u)
      invariant if i == 0 then previous == 0 else previous == p.current[i - 1]
    {
      var revision := p.current[i];
      if !LocalRevision(revision) || revision <= previous || revision !in x.byRevision {
        CurrentNeeds(p, alias, i, x);
        return false;
      }
      var m := x.byRevision[revision];
      CurrentStep(p, alias, i, chosen, m);
      FitsExactly(alias, chosen, u, m);
      if !Fits(alias, u, m) {
        FewerCurrent(p, alias, i + 1);
        return false;
      }
      UsesNext(alias, chosen, u, m);
      previous, u, chosen := revision, Used(alias, u, m), chosen + [m];
    }
    ok := true;
  }

  lemma NothingCurrent(p: Document, alias: string -> string)
    ensures CurrentAllowed(p, alias, 0) && Uses(alias, [], Usage({}, map[], map[]))
  {
  }

  lemma FewerCurrent(p: Document, alias: string -> string, n: nat)
    requires n <= |p.current|
    ensures CurrentAllowed(p, alias, |p.current|) ==> CurrentAllowed(p, alias, n)
  {
    hide Compatible, Names;
  }

  lemma CurrentNeeds(p: Document, alias: string -> string, n: nat, x: Index)
    requires n < |p.current| && RevisionsSeen(p, |p.mappings|, x.byRevision)
    ensures CurrentAllowed(p, alias, |p.current|) ==>
      LocalRevision(p.current[n]) && p.current[n] in x.byRevision && (n > 0 ==> p.current[n - 1] < p.current[n])
  {
    hide Compatible;
    if CurrentAllowed(p, alias, |p.current|) {
      assert Selects(p, p.current[n]);
    }
  }

  /** The validator accepts exactly the documents of `PolicyAllowed`. */
  method ValidatePolicy(p: Document, alias: string -> string) returns (ok: bool)
    ensures ok <==> PolicyAllowed(p, alias)
  {
    hide HeaderAllowed, EachAllowed, MeaningsDiffer, TargetsFixed, RevisionsRise, CurrentAllowed, Indexes;
    if !HeaderAllowed(p) { return false; }
    var valid, x := ValidateMappings(p);
    if !valid { return false; }
    var selected := ValidateCurrent(p, alias, x);
    ok := selected && |p.mappings| - |p.current| <= 1000;
  }
}
