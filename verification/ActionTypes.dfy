/** Vocabulary shared by the journal, the broker and the coordinator: requests,
    journal keys, result codes and the clock. Times are integer nanoseconds
    counted from Go's zero time (0001-01-01T00:00:00Z). */
module ActionTypes {

  datatype Option<+T> = None | Some(value: T)

  type Time = int

  const SECOND: int := 1_000_000_000
  const DAY: int := 86_400 * SECOND

  // A stored stamp is RFC 3339 text with a four-digit year (section 5.6).
  const YEAR_0: Time := -366 * DAY
  const YEAR_10000: Time := 3_652_059 * DAY

  predicate ParsesAsStamp(t: Time) {
    YEAR_0 <= t < YEAR_10000
  }

  function Power10(n: nat): nat {
    if n == 0 then 1 else 10 * Power10(n - 1)
  }

  // The first instant of a year of the Gregorian calendar, from year 1 on.
  function YearStart(year: nat): Time
    requires year > 0
  {
    var gone := year - 1;
    (365 * gone + gone / 4 - gone / 100 + gone / 400) * DAY
  }

  /** Whether the stamp's text has the 20 to 30 characters a table column takes:
      from year 10000 on, each further digit of the year costs one of the fraction. */
  predicate Storable(t: Time) {
    t < YEAR_10000 || exists digits :: 5 <= digits <= 14 && StampFits(t, digits)
  }

  predicate StampFits(t: Time, digits: nat)
    requires 5 <= digits
  {
    Positive10(digits);
    t < YearStart(Power10(digits)) && WholeUnits(t, if digits <= 13 then digits - 4 else 9)
  }

  // The fraction's last `n` of nine digits are zero, and so are not written.
  predicate WholeUnits(t: Time, n: nat) {
    Positive10(n);
    t % Power10(n) == 0
  }

  lemma Positive10(n: nat)
    ensures Power10(n) > 0
  {
  }

  datatype Operation = Start | Stop | Restart

  datatype State = Created | Exited | Running | Paused | Restarting | Removing | Dead | UnknownState

  datatype Code =
    | Started | Stopped | Restarted | AlreadyRunning | AlreadyStopped | Denied
    | StateConflict | Unavailable | BudgetExceeded | OutcomeUnknown | IdentityConflict

  // The three codes that record an effect on the container.
  predicate Success(c: Code) {
    c == Started || c == Stopped || c == Restarted
  }

  datatype Request = Request(
    actionID: string, serverID: string, installationID: string, ownerID: string, actorID: string, targetID: string,
    operation: Operation, grace: nat, policyRevision: nat, capabilityRevision: nat, created: Time, expires: Time)

  /** Private journal identity. Its canonical metadata is an injective image of
      these fields, so equality of keys stands for equality of stored bytes. */
  datatype Key = Key(request: Request, engine: string, container: string) {
    function ActionID(): string { request.actionID }
    function TargetID(): string { request.targetID }
    function Expires(): Time { request.expires }
  }

  datatype Binding = Binding(serverID: string, installationID: string, ownerID: string)

  predicate Hex(s: string, n: nat) {
    |s| == n && forall i :: 0 <= i < |s| ==> '0' <= s[i] <= '9' || 'a' <= s[i] <= 'f'
  }

  predicate Identifier(s: string, prefix: string) {
    |s| == |prefix| + 32 && s[..|prefix|] == prefix && Hex(s[|prefix|..], 32)
  }

  predicate GraceAllowed(op: Operation, grace: nat) {
    if op == Start then grace == 0 else 1 <= grace <= 30
  }

  // What canonical journal metadata demands of a key.
  predicate Canonical(k: Key) {
    var r := k.request;
    && Identifier(r.actionID, "hla_") && Identifier(r.targetID, "hlt_") && Identifier(r.serverID, "srv_")
    && Identifier(r.installationID, "agent_") && Identifier(r.ownerID, "usr_") && Identifier(r.actorID, "usr_")
    && Hex(k.engine, 32) && Hex(k.container, 64)
    && r.policyRevision != 0 && r.capabilityRevision != 0
    && r.created != 0 && r.created < r.expires <= r.created + 300 * SECOND
    && GraceAllowed(r.operation, r.grace)
    && ParsesAsStamp(r.created) && ParsesAsStamp(r.expires)
  }

  predicate BoundTo(k: Key, b: Binding) {
    k.request.serverID == b.serverID && k.request.installationID == b.installationID && k.request.ownerID == b.ownerID
  }

  // Two keys touch the same target or the same container of the same engine.
  predicate Related(a: Key, b: Key) {
    a.TargetID() == b.TargetID() || (a.engine == b.engine && a.container == b.container)
  }

  /** What the protected local policy allows one request to touch. */
  datatype LocalBinding = LocalBinding(
    serverID: string, installationID: string, ownerID: string, targetID: string, engine: string, container: string,
    policyRevision: nat, capabilityRevision: nat, grace: nat, operations: seq<Operation>)

  predicate Distinct(ops: seq<Operation>) {
    forall i, j :: 0 <= i < j < |ops| ==> ops[i] != ops[j]
  }

  // The request, its binding and the moment agree.
  predicate ValidRequest(r: Request, b: LocalBinding, now: Time) {
    && Identifier(r.actionID, "hla_") && Identifier(r.serverID, "srv_") && Identifier(r.installationID, "agent_")
    && Identifier(r.ownerID, "usr_") && Identifier(r.actorID, "usr_") && Identifier(r.targetID, "hlt_")
    && Hex(b.container, 64) && Hex(b.engine, 32) && r.policyRevision != 0 && r.capabilityRevision != 0
    && r.serverID == b.serverID && r.installationID == b.installationID && r.ownerID == b.ownerID &&
       r.targetID == b.targetID
    && r.policyRevision == b.policyRevision && r.capabilityRevision == b.capabilityRevision
    && r.created != 0 && r.created < r.expires <= r.created + 300 * SECOND && r.created <= now < r.expires
    && 1 <= |b.operations| <= 3 && Distinct(b.operations) && r.operation in b.operations
    && (Stop in b.operations || Restart in b.operations ==> 1 <= b.grace <= 30)
    && (if r.operation == Start then r.grace == 0 else 1 <= r.grace <= 30 && r.grace == b.grace)
  }

  function KeyFor(r: Request, b: LocalBinding): Key {
    Key(r, b.engine, b.container)
  }

  function NewJournalKey(r: Request, b: LocalBinding): Option<Key> {
    if ValidRequest(r, b, r.created) && Canonical(KeyFor(r, b)) then Some(KeyFor(r, b)) else None
  }
}
