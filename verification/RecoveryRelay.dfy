/** The worker's recovery relay: the broker's queries are delivered to the remote
    service one leg at a time. Remote answers and queries are arbitrary. */
module RecoveryRelay {
  import opened ActionTypes

  const MAX_LEGS := 5

  datatype Op = Retained | Propose | Status | Check | Finalize
  datatype Outcome = Ok | Refused

  // Who the worker acts for.
  datatype Scope = Scope(serverID: string, ownerID: string, instanceID: string)

  datatype Receipt = Receipt(actionID: string, scope: Scope, actorID: string, digest: string)
  datatype Approval = Approval(
    recoveryID: string, prepareID: string, revision: string, ack: Option<string>, scope: Scope, actionID: string,
      digest: string)
  datatype View = View(actionID: string, digest: Option<string>, approval: Option<Approval>)
  datatype CheckBody = CheckBody(recoveryID: string, prepareID: string, revision: string, digest: string,
    ack: Option<string>, nonce: string)
  datatype Decision = Decision(approval: Approval, nonce: string, permitted: bool, timely: bool)
  datatype FinalizeBody = FinalizeBody(recoveryID: string, prepareID: string, revision: string, digest: string,
    ack: string)
  datatype Finalization = Finalization(
    recoveryID: string, prepareID: string, revision: string, actionID: string, digest: string, ack: string,
      timely: bool)

  datatype Body = NoBody | Proposal | Checking(check: CheckBody) | Finalizing(finalize: FinalizeBody)
  datatype Query = Query(op: Op, actionID: string, digest: string, body: Body)

  // What the remote service returned, if it was called.
  datatype Answer =
    | Error
    | RetainedStatus(actionID: string, request: Option<Receipt>)
    | Viewed(view: View)
    | Decided(decision: Decision)
    | Finalized(finalization: Finalization)

  // What a relay remembers between legs.
  datatype Relay = Relay(actionID: string, digest: string, request: Option<Receipt>, approval: Option<Approval>)

  // One leg: what the relay knew, the query, whether the remote service was
  // called, its answer and the reply's outcome.
  datatype Leg = Leg(before: Relay, query: Query, called: bool, answer: Answer, outcome: Outcome)

  // ---------- one leg ----------

  predicate SameApproval(a: Approval, recoveryID: string, prepareID: string, revision: string) {
    a.recoveryID == recoveryID && a.prepareID == prepareID && a.revision == revision
  }

  predicate MatchesCheck(s: Relay, c: CheckBody) {
    s.approval.Some? && SameApproval(s.approval.value, c.recoveryID, c.prepareID, c.revision) && c.digest == s.digest
    && c.ack == s.approval.value.ack
  }

  predicate MatchesFinalize(s: Relay, f: FinalizeBody) {
    s.approval.Some? && SameApproval(s.approval.value, f.recoveryID, f.prepareID, f.revision) && f.digest == s.digest
    && (s.approval.value.ack.Some? ==> f.ack == s.approval.value.ack.value)
  }

  predicate MatchesView(r: Receipt, digest: string, v: View) {
    && r.digest == digest && v.actionID == r.actionID && (v.digest.Some? ==> v.digest.value == digest)
    && (v.approval.Some? ==> v.approval.value.scope == r.scope)
  }

  // The remote service is called only for a query that fits what the relay knows.
  predicate Calls(s: Relay, q: Query) {
    match q.op
    case Retained => true
    case Status => true
    case Propose => q.body.Proposal? && s.request.Some?
    case Check => q.body.Checking? && MatchesCheck(s, q.body.check)
    case Finalize => q.body.Finalizing? && MatchesFinalize(s, q.body.finalize)
  }

  // The answer is of the right kind and bound to the scope, the request and the approval.
  predicate Fits(scope: Scope, s: Relay, q: Query, a: Answer)
    requires Calls(s, q)
  {
    match q.op
    case Retained =>
      a.RetainedStatus? && a.request.Some? && a.request.value.scope == scope && a.request.value.actorID == scope.ownerID
    case Propose => FitsView(scope, s, a)
    case Status => FitsView(scope, s, a)
    case Check =>
      && a.Decided? && a.decision.approval == s.approval.value && a.decision.nonce == q.body.check.nonce
      && a.decision.permitted && a.decision.timely
    case Finalize =>
      && a.Finalized? &&
         SameApproval(s.approval.value, a.finalization.recoveryID, a.finalization.prepareID, a.finalization.revision)
      && a.finalization.actionID == s.approval.value.actionID && a.finalization.digest == s.approval.value.digest
      && a.finalization.ack == q.body.finalize.ack && a.finalization.timely
  }

  predicate FitsView(scope: Scope, s: Relay, a: Answer) {
    && a.Viewed? && (a.view.approval.Some? ==> a.view.approval.value.scope == scope)
    && (s.request.Some? ==> MatchesView(s.request.value, s.digest, a.view))
  }

  // The reply's own decoder: it must speak of this action and this receipt.
  predicate Replies(s: Relay, a: Answer) {
    match a
    case Error => false
    case RetainedStatus(id, request) => id == s.actionID && request.Some? && request.value.digest == s.digest
    case Viewed(v) => v.actionID == s.actionID && (v.digest.Some? ==> v.digest.value == s.digest)
    case Decided(d) => d.approval.actionID == s.actionID && d.approval.digest == s.digest
    case Finalized(f) => f.actionID == s.actionID && f.digest == s.digest
  }

  function Remember(s: Relay, q: Query, a: Answer): Relay {
    if q.op == Retained && a.RetainedStatus? then s.(request := a.request)
    else if (q.op == Status || q.op == Propose) && a.Viewed? then s.(approval := a.view.approval)
    else s
  }

  function Deliver(scope: Scope, s: Relay, q: Query, a: Answer, encodes: bool): Leg {
    if !Calls(s, q) then Leg(s, q, false, Error, Refused)
    else Leg(s, q, true, a, if Fits(scope, s, q, a) && encodes && Replies(s, a) then Ok else Refused)
  }

  // What the relay knows after a leg, even when its reply could not be encoded.
  function Learned(scope: Scope, leg: Leg): Relay {
    if Calls(leg.before, leg.query) && Fits(scope, leg.before, leg.query, leg.answer)
      then Remember(leg.before, leg.query, leg.answer)
    else leg.before
  }

  // ---------- the order of legs ----------

  predicate Follows(previous: Op, next: Op, ordinal: nat) {
    match ordinal
    case 1 => previous == Retained && (next == Propose || next == Status)
    case 2 => previous == Status && next == Check
    case 3 => previous == Check && next == Finalize
    case 4 => previous == Finalize && next == Status
    case _ => false
  }

  predicate Ends(leg: Leg, ordinal: nat) {
    var op, ok := leg.query.op, leg.outcome == Ok;
    op == Propose || (op == Status && (ordinal == 1 || ordinal == 5)) || (op == Finalize && ok) || ordinal == 5 ||
      (!ok && op != Finalize)
  }

  // A whole relay: each leg is delivered in the state the earlier ones left.
  ghost predicate Delivered(scope: Scope, leg: Leg) {
    exists a, encodes :: leg == Deliver(scope, leg.before, leg.query, a, encodes)
  }

  ghost predicate Chained(scope: Scope, legs: seq<Leg>, i: nat)
    requires i + 1 < |legs|
  {
    && !Ends(legs[i], i + 1) && Follows(legs[i].query.op, legs[i + 1].query.op, i + 1)
    && legs[i + 1].before == Learned(scope, legs[i])
  }

  ghost predicate Legal(scope: Scope, first: Query, legs: seq<Leg>) {
    && |legs| <= MAX_LEGS
    && (legs != [] ==>
          && legs[0].query == first && (first.op == Status || first.op == Retained)
          && legs[0].before == Relay(first.actionID, first.digest, None, None))
    && (forall i :: 0 <= i < |legs| ==>
          Delivered(scope, legs[i]) && legs[i].query.actionID == first.actionID && legs[i].query.digest == first.digest)
    && (forall i :: 0 <= i && i + 1 < |legs| ==> Chained(scope, legs, i))
  }

  // ---------- what a finalization proves ----------

  lemma KeepsSubject(scope: Scope, first: Query, legs: seq<Leg>, i: nat)
    requires Legal(scope, first, legs) && i < |legs|
    ensures legs[i].before.actionID == first.actionID && legs[i].before.digest == first.digest
    decreases i
  {
    hide Fits, Calls, Ends;
    if i > 0 {
      KeepsSubject(scope, first, legs, i - 1);
      assert Chained(scope, legs, i - 1);
    }
  }

  // The first four legs of a relay that gets as far as finalizing.
  ghost predicate Finalizing4(legs: seq<Leg>) {
    && |legs| >= 4 && legs[0].query.op == Retained && legs[1].query.op == Status && legs[2].query.op == Check
    && legs[0].outcome == Ok && legs[1].outcome == Ok && legs[2].outcome == Ok
  }

  lemma FinalizeComesFourth(scope: Scope, first: Query, legs: seq<Leg>, i: nat)
    requires Legal(scope, first, legs) && i < |legs| && legs[i].query.op == Finalize
    ensures i == 3 && Finalizing4(legs)
  {
    hide Learned, Delivered;
    if i > 0 { assert Chained(scope, legs, i - 1); }
    if i > 1 { assert Chained(scope, legs, i - 2); }
    if i > 2 { assert Chained(scope, legs, i - 3); }
  }

  lemma OkMeans(scope: Scope, leg: Leg)
    requires Delivered(scope, leg)
    ensures leg.called <==> Calls(leg.before, leg.query)
    ensures leg.outcome == Ok ==>
      leg.called && Fits(scope, leg.before, leg.query, leg.answer) && Replies(leg.before, leg.answer)
  {
  }

  /** The remote service is asked to finalize at most once in a relay, as its
      fourth leg: after a retained request of this worker's owner, an approval
      current for that request, and a permitting decision on that same approval;
      and the finalization names that approval and the same receipt. */
  lemma FinalizeIsEarned(scope: Scope, first: Query, legs: seq<Leg>, i: nat)
    requires Legal(scope, first, legs) && i < |legs| && legs[i].called && legs[i].query.op == Finalize
    ensures i == 3 && Finalizing4(legs) && forall j :: 0 <= j < |legs| && legs[j].query.op == Finalize ==> j == 3
    ensures
      var request, approval, decision, body := legs[0].answer, legs[1].answer, legs[2].answer, legs[3].query.body;
      && request.RetainedStatus? && request.request.Some? && request.request.value.scope == scope
      && request.request.value.actorID == scope.ownerID && request.request.value.digest == first.digest
      && approval.Viewed? && approval.view.approval.Some? && approval.view.approval.value.scope == scope
      && approval.view.actionID == first.actionID
      && var a := approval.view.approval.value;
         && decision.Decided? && decision.decision.approval == a && decision.decision.permitted
         && a.actionID == first.actionID && a.digest == first.digest
         && body.Finalizing? &&
            SameApproval(a, body.finalize.recoveryID, body.finalize.prepareID, body.finalize.revision)
         && body.finalize.digest == first.digest && (a.ack.Some? ==> body.finalize.ack == a.ack.value)
  {
    FinalizeComesFourth(scope, first, legs, i);
    forall j | 0 <= j < |legs| && legs[j].query.op == Finalize ensures j == 3 {
      FinalizeComesFourth(scope, first, legs, j);
    }
    forall j | 0 <= j < 4 ensures legs[j].before.actionID == first.actionID && legs[j].before.digest == first.digest {
      KeepsSubject(scope, first, legs, j);
      OkMeans(scope, legs[j]);
    }
    OkMeans(scope, legs[0]);
    OkMeans(scope, legs[1]);
    OkMeans(scope, legs[2]);
    OkMeans(scope, legs[3]);
    assert Chained(scope, legs, 0) && Chained(scope, legs, 1) && Chained(scope, legs, 2);
  }

  /** Only a failed finalization is followed by another leg: every other refusal ends the relay. */
  lemma RefusalEnds(scope: Scope, first: Query, legs: seq<Leg>, i: nat)
    requires Legal(scope, first, legs) && i + 1 < |legs| && legs[i].outcome == Refused
    ensures legs[i].query.op == Finalize && i == 3 && |legs| == 5
  {
    hide Learned, Delivered;
    assert Chained(scope, legs, i);
    FinalizeComesFourth(scope, first, legs, i);
  }

  // ---------- a relay that finalizes ----------

  // The four legs of an approved recovery, each answered as it should be.
  function Approved(scope: Scope, a: Approval, ack: string, nonce: string): seq<Leg> {
    var id, d := a.actionID, a.digest;
    var receipt := Receipt(id, scope, scope.ownerID, d);
    var known0 := Relay(id, d, None, None);
    var known1 := known0.(request := Some(receipt));
    var known2 := known1.(approval := Some(a));
    [Leg(known0, Query(Retained, id, d, NoBody), true, RetainedStatus(id, Some(receipt)), Ok),
     Leg(known1, Query(Status, id, d, NoBody), true, Viewed(View(id, Some(d), Some(a))), Ok),
     Leg(known2, Query(Check, id, d, Checking(CheckBody(a.recoveryID, a.prepareID, a.revision, d, a.ack, nonce))), true,
         Decided(Decision(a, nonce, true, true)), Ok),
     Leg(known2, Query(Finalize, id, d, Finalizing(FinalizeBody(a.recoveryID, a.prepareID, a.revision, d, ack))), true,
         Finalized(Finalization(a.recoveryID, a.prepareID, a.revision, id, d, ack, true)), Ok)]
  }

  lemma ApprovedLeg(scope: Scope, a: Approval, ack: string, nonce: string, i: nat)
    requires a.scope == scope && (a.ack.Some? ==> a.ack.value == ack) && i < 4
    ensures Delivered(scope, Approved(scope, a, ack, nonce)[i])
  {
    var leg := Approved(scope, a, ack, nonce)[i];
    assert leg == Deliver(scope, leg.before, leg.query, leg.answer, true);
  }

  /** For every approval of this worker's scope there is a relay that finalizes it. */
  lemma FinalizationPossible(scope: Scope, a: Approval, ack: string, nonce: string)
    requires a.scope == scope && (a.ack.Some? ==> a.ack.value == ack)
    ensures var legs := Approved(scope, a, ack, nonce);
      && Legal(scope, Query(Retained, a.actionID, a.digest, NoBody), legs) && Ends(legs[3], 4)
      && legs[3].called && legs[3].query.op == Finalize && legs[3].outcome == Ok
  {
    hide Delivered;
    var legs := Approved(scope, a, ack, nonce);
    forall i | 0 <= i < 4 ensures Delivered(scope, legs[i]) { ApprovedLeg(scope, a, ack, nonce, i); }
    assert Chained(scope, legs, 0) && Chained(scope, legs, 1) && Chained(scope, legs, 2);
  }
}
