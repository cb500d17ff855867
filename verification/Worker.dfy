/** The worker's conversations and its latch: once execution is disabled the
    worker only relays recovery. The broker's messages, the remote service and
    the clock checks may come out any way at all. */
module Worker {
  import opened ActionTypes
  import opened RecoveryRelay

  datatype Result = Done | NoSelection | BadSelection | Unsafe

  // The broker's first message.
  datatype Choice =
    | NotBegun
    | NoChoice
    | Malformed
    | RecoveryQuery(query: Option<Query>)
    | SnapshotQuery(ok: bool)
    | Approvals(ok: bool)
    | OtherKind

  datatype ClaimReply = NoReply | NoClaim | Leased(lease: string)
  datatype Ruling = Unanswered | Forbidden | Allowed

  // Every message and remote call of a conversation, and how it went. `Late` is a clock check that fails.
  datatype Event =
    | Selected(choice: Choice)
    | Late
    | OnTime
    | Refreshed(sound: bool)
    | SnapshotReplied(ok: bool)
    | Claimed(reply: ClaimReply)
    | NoClaimReplied(ok: bool)
    | ClaimApproved(ok: bool)
    | ExecuteSent(ok: bool)
    | Challenged(ok: bool)
    | Checked(lease: string, checkpoint: nat, ruling: Ruling)
    | Mismatched
    | RulingReplied(ok: bool)
    | ResultRead(report: Option<bool>)
    | Reported(lease: string, unknown: bool, receipt: bool)
    | Relayed(leg: Leg)
    | LegReplied(ok: bool)
    | Continued(next: Option<Query>)

  // Calls to the remote service other than the relay's.
  predicate Remote(e: Event) {
    e.Refreshed? || e.Claimed? || e.Checked? || e.Reported?
  }

  // ---------- one conversation, as an automaton ----------

  datatype Phase =
    | Begin
    | Over(result: Result, latch: bool)
    | Relaying(first: Query, legs: seq<Leg>, known: Relay, query: Query)
    | Posting(first: Query, legs: seq<Leg>)
    | Reading(first: Query, legs: seq<Leg>)
    | Snapshotting
    | SnapshotSound
    | Claiming
    | Unclaimed
    | Holding(lease: string)
    | Offering(lease: string)
    | Waiting(lease: string, checkpoint: nat)
    | Asked(lease: string, checkpoint: nat)
    | Ruled(lease: string, checkpoint: nat, allowed: bool)
    | Cleared(lease: string)
    | Resulting(lease: string, unknown: bool)
    | Acknowledged(unknown: bool)

  function Choose(disabled: bool, c: Choice): Phase {
    match c
    case NotBegun => Over(Unsafe, false)
    case NoChoice => Over(NoSelection, false)
    case Malformed => Over(BadSelection, false)
    case RecoveryQuery(query) =>
      if query.None? then Over(Unsafe, false)
      else if query.value.op == Status || query.value.op == Retained then
        Relaying(query.value, [], Relay(query.value.actionID, query.value.digest, None, None), query.value)
      else Over(Unsafe, true)
    case SnapshotQuery(ok) => if disabled || !ok then Over(Unsafe, false) else Snapshotting
    case Approvals(ok) => if disabled || !ok then Over(Unsafe, false) else Claiming
    case OtherKind => Over(Unsafe, false)
  }

  // From a claim on, whatever goes wrong disables execution.
  function Or(ok: bool, p: Phase): Phase {
    if ok then p else Over(Unsafe, true)
  }

  ghost function Step(scope: Scope, disabled: bool, p: Phase, e: Event): Option<Phase> {
    match (p, e)
    case (Begin, Selected(c)) => Some(Choose(disabled, c))
    case (Relaying(first, legs, known, q), Late) => Some(Over(Unsafe, first.op != Status))
    case (Relaying(first, legs, known, q), Relayed(leg)) =>
      if leg.before == known && leg.query == q && Delivered(scope, leg) then Some(Posting(first, legs + [leg]))
        else None
    case (Posting(first, legs), LegReplied(ok)) =>
      if legs == [] then None
      else if !ok then Some(Over(Unsafe, first.op != Status))
      else if Ends(legs[|legs| - 1], |legs|) then Some(Over(Done, first.op != Status))
      else Some(Reading(first, legs))
    case (Reading(first, legs), Continued(next)) =>
      if legs == [] then None
      else
        var last := legs[|legs| - 1];
        if next.Some? && next.value.actionID == first.actionID && next.value.digest == first.digest &&
           Follows(last.query.op, next.value.op, |legs|)
        then Some(Relaying(first, legs, Learned(scope, last), next.value)) else Some(Over(Unsafe, first.op != Status))
    case (Snapshotting, Refreshed(sound)) => Some(Or(sound, SnapshotSound))
    case (SnapshotSound, SnapshotReplied(ok)) => Some(Or(ok, Over(Done, false)))
    case (Claiming, Claimed(reply)) =>
      Some(match reply case NoReply => Over(Unsafe, true) case NoClaim => Unclaimed case Leased(l) => Holding(l))
    case (Unclaimed, NoClaimReplied(ok)) => Some(Or(ok, Over(Done, false)))
    case (Holding(l), ClaimApproved(ok)) => Some(Or(ok, Offering(l)))
    case (Offering(l), ExecuteSent(ok)) => Some(Or(ok, Waiting(l, 1)))
    case (Waiting(l, n), Challenged(ok)) => Some(Or(ok, Asked(l, n)))
    case (Asked(l, n), Checked(lease, checkpoint, ruling)) =>
      if lease != l || checkpoint != n then None
      else Some(Or(ruling != Unanswered, Ruled(l, n, ruling == Allowed)))
    case (Ruled(l, n, allowed), RulingReplied(ok)) =>
      Some(Or(ok && allowed, if n == 1 then Waiting(l, 2) else Cleared(l)))
    case (Ruled(_, _, _), Mismatched) => Some(Over(Unsafe, true))
    case (Cleared(l), ResultRead(unknown)) =>
      Some(if unknown.Some? then Resulting(l, unknown.value) else Over(Unsafe, true))
    case (Resulting(l, unknown), Reported(lease, u, receipt)) =>
      if lease != l || u != unknown then None else Some(Or(receipt, Acknowledged(unknown)))
    case (Acknowledged(unknown), OnTime) => Some(Over(Done, unknown))
    case (_, Late) =>
      if p.Claiming? || p.Holding? || p.Waiting? || p.Asked? || p.Ruled? || p.Cleared? || p.Resulting? ||
        p.Acknowledged?
      then Some(Over(Unsafe, true)) else None
    case _ => None
  }

  ghost function Walk(scope: Scope, disabled: bool, calls: seq<Event>): Option<Phase>
    decreases |calls|
  {
    if calls == [] then Some(Begin)
    else
      var p := Walk(scope, disabled, calls[..|calls| - 1]);
      if p.None? then None else Step(scope, disabled, p.value, calls[|calls| - 1])
  }

  ghost predicate At(scope: Scope, disabled: bool, calls: seq<Event>, p: Phase) {
    Walk(scope, disabled, calls) == Some(p)
  }

  lemma Move(scope: Scope, disabled: bool, calls: seq<Event>, p: Phase, e: Event)
    returns (more: seq<Event>, q: Phase)
    requires At(scope, disabled, calls, p) && Step(scope, disabled, p, e).Some?
    ensures more == calls + [e] && q == Step(scope, disabled, p, e).value && At(scope, disabled, more, q)
  {
    hide Step;
    more, q := calls + [e], Step(scope, disabled, p, e).value;
    assert (calls + [e])[..|calls|] == calls;
  }

  lemma Back(scope: Scope, disabled: bool, calls: seq<Event>, p: Phase) returns (q: Phase, first: seq<Event>, e: Event)
    requires At(scope, disabled, calls, p) && calls != []
    ensures calls == first + [e] && At(scope, disabled, first, q) && Step(scope, disabled, q, e) == Some(p)
  {
    hide Step;
    first, e := calls[..|calls| - 1], calls[|calls| - 1];
    q := Walk(scope, disabled, first).value;
  }

  // ---------- what a conversation asks of the remote service ----------

  function RemoteCalls(calls: seq<Event>): seq<Event> {
    if calls == [] then []
    else
      var last := calls[|calls| - 1];
      RemoteCalls(calls[..|calls| - 1]) + if Remote(last) then [last] else []
  }

  lemma RemoteAdds(calls: seq<Event>, e: Event)
    ensures RemoteCalls(calls + [e]) == RemoteCalls(calls) + if Remote(e) then [e] else []
  {
    assert (calls + [e])[..|calls|] == calls;
  }

  // A claim, then its first and its second check, each allowed before anything follows it.
  function Claim(lease: string): seq<Event> {
    [Claimed(Leased(lease))]
  }

  function ChecksBefore(lease: string, checkpoint: nat): seq<Event> {
    if checkpoint <= 1 then Claim(lease) else Claim(lease) + [Checked(lease, 1, Allowed)]
  }

  function BothChecks(lease: string): seq<Event> {
    Claim(lease) + [Checked(lease, 1, Allowed), Checked(lease, 2, Allowed)]
  }

  // The remote calls made when a phase is reached.
  ghost predicate Asks(p: Phase, remote: seq<Event>) {
    match p
    case SnapshotSound => remote == [Refreshed(true)]
    case Unclaimed => remote == [Claimed(NoClaim)]
    case Holding(l) => remote == Claim(l)
    case Offering(l) => remote == Claim(l)
    case Waiting(l, n) => 1 <= n <= 2 && remote == ChecksBefore(l, n)
    case Asked(l, n) => 1 <= n <= 2 && remote == ChecksBefore(l, n)
    case Ruled(l, n, allowed) =>
      1 <= n <= 2 && remote == ChecksBefore(l, n) + [Checked(l, n, if allowed then Allowed else Forbidden)]
    case Cleared(l) => remote == BothChecks(l)
    case Resulting(l, _) => remote == BothChecks(l)
    case Acknowledged(unknown) => exists l :: remote == BothChecks(l) + [Reported(l, unknown, true)]
    case Over(r, latch) => EndsAsking(remote, r, latch)
    case _ => remote == []
  }

  // What was asked, the answer, and the latch, at the end of a conversation.
  ghost predicate EndsAsking(remote: seq<Event>, r: Result, latch: bool) {
    || remote == []
    || (remote == [Refreshed(true)] && (r == Done ==> !latch))
    || (remote == [Claimed(NoClaim)] && (r == Done ==> !latch))
    || (r == Unsafe && (remote == [Refreshed(false)] || remote == [Claimed(NoReply)]))
    || (exists l :: r == Unsafe && remote == Claim(l))
    || (exists l, n, ruling ::
          r == Unsafe && 1 <= n <= 2 && remote == ChecksBefore(l, n) + [Checked(l, n, ruling)])
    || (exists l, unknown, receipt ::
          remote == BothChecks(l) + [Reported(l, unknown, receipt)] && (r == Done ==> receipt && latch == unknown))
  }

  lemma StepAsks(scope: Scope, disabled: bool, p: Phase, calls: seq<Event>, e: Event)
    requires Asks(p, RemoteCalls(calls)) && Step(scope, disabled, p, e).Some?
    ensures Asks(Step(scope, disabled, p, e).value, RemoteCalls(calls + [e]))
  {
    hide Delivered, Ends, Follows, Learned, RemoteCalls, EndsAsking;
    RemoteAdds(calls, e);
    var q, remote := Step(scope, disabled, p, e).value, RemoteCalls(calls + [e]);
    if q.Over? { StepEnds(scope, disabled, p, calls, e); }
  }

  lemma StepEnds(scope: Scope, disabled: bool, p: Phase, calls: seq<Event>, e: Event)
    requires Asks(p, RemoteCalls(calls)) && Step(scope, disabled, p, e).Some? && Step(scope, disabled, p, e).value.Over?
    ensures var q := Step(scope, disabled, p, e).value; EndsAsking(RemoteCalls(calls + [e]), q.result, q.latch)
  {
    hide Delivered, Ends, Follows, Learned, RemoteCalls;
    RemoteAdds(calls, e);
  }

  /** Whatever happens, a conversation asks the remote service for one snapshot, or
      for one claim, at most two checks of it, the second only after the first allowed
      it, and one report after both; and only a conversation that asked nothing, was
      answered in full, or ended badly is over. */
  lemma {:induction false} ConversationAsks(scope: Scope, disabled: bool, calls: seq<Event>, p: Phase)
    requires At(scope, disabled, calls, p)
    ensures Asks(p, RemoteCalls(calls))
    decreases |calls|
  {
    hide Step, Asks, RemoteCalls, At;
    if calls == [] {
      BeginAsks(scope, disabled, p);
    } else {
      var q, first, e := Back(scope, disabled, calls, p);
      ConversationAsks(scope, disabled, first, q);
      StepAsks(scope, disabled, q, first, e);
    }
  }

  lemma BeginAsks(scope: Scope, disabled: bool, p: Phase)
    requires At(scope, disabled, [], p)
    ensures Asks(p, RemoteCalls([])) && p == Begin
  {
  }

  // ---------- the latch ----------

  // What must never be followed by claiming again: a failed or forbidding check, a
  // report of an unknown outcome, and any recovery beyond a status.
  predicate Latches(e: Event) {
    || (e.Checked? && e.ruling != Allowed)
    || (e.Reported? && (e.unknown || !e.receipt))
    || (e.Claimed? && e.reply == NoReply)
    || (e.Refreshed? && !e.sound)
    || (e.Selected? && e.choice.RecoveryQuery? && e.choice.query.Some? && e.choice.query.value.op != Status)
  }

  // Phases whose conversation is bound to latch.
  predicate Doomed(p: Phase) {
    match p
    case Over(_, latch) => latch
    case Relaying(first, _, _, _) => first.op != Status
    case Posting(first, _) => first.op != Status
    case Reading(first, _) => first.op != Status
    case Ruled(_, _, allowed) => !allowed
    case Acknowledged(unknown) => unknown
    case _ => false
  }

  lemma StepLatches(scope: Scope, disabled: bool, p: Phase, e: Event)
    requires Step(scope, disabled, p, e).Some?
    ensures Latches(e) || Doomed(p) ==> Doomed(Step(scope, disabled, p, e).value)
    ensures Doomed(p) ==> !Remote(e)
  {
    hide Delivered, Ends, Follows, Learned;
  }

  /** A latching event dooms its conversation: no remote call but the relay's follows
      it, and when the conversation is over execution is disabled. */
  lemma {:induction false} LatchHolds(scope: Scope, disabled: bool, calls: seq<Event>, p: Phase)
    requires At(scope, disabled, calls, p)
    ensures (exists i :: 0 <= i < |calls| && Latches(calls[i])) ==> Doomed(p)
    ensures forall i, j :: 0 <= i < j < |calls| && Latches(calls[i]) ==> !Remote(calls[j])
    decreases |calls|
  {
    hide Step, At, Latches, Doomed, Remote;
    if calls != [] {
      var q, first, e := Back(scope, disabled, calls, p);
      LatchHolds(scope, disabled, first, q);
      StepLatches(scope, disabled, q, e);
      assert forall i :: 0 <= i < |first| ==> calls[i] == first[i];
      assert calls[|first|] == e;
    }
  }

  // A conversation that has not yet gone wrong latches only for the events above.
  ghost predicate Innocent(p: Phase, calls: seq<Event>) {
    match p
    case Over(r, latch) => r == Done && latch ==> exists i :: 0 <= i < |calls| && Latches(calls[i])
    case _ => Doomed(p) ==> exists i :: 0 <= i < |calls| && Latches(calls[i])
  }

  lemma StepInnocent(scope: Scope, disabled: bool, p: Phase, calls: seq<Event>, e: Event)
    requires Innocent(p, calls) && !p.Over? && Step(scope, disabled, p, e).Some? && Asks(p, RemoteCalls(calls))
    ensures Innocent(Step(scope, disabled, p, e).value, calls + [e])
  {
    hide Delivered, Ends, Follows, Learned, RemoteCalls, Asks;
    var all := calls + [e];
    assert all[|calls|] == e;
    assert forall i :: 0 <= i < |calls| ==> all[i] == calls[i];
    if p.Resulting? && e.Reported? { assert e.unknown ==> Latches(all[|calls|]); }
    if p.Begin? && e.Selected? && e.choice.RecoveryQuery? && e.choice.query.Some? {
      assert e.choice.query.value.op != Status ==> Latches(all[|calls|]);
    }
    if p.Asked? && e.Checked? { assert e.ruling != Allowed ==> Latches(all[|calls|]); }
  }

  lemma OverIsLast(scope: Scope, disabled: bool, p: Phase, e: Event)
    requires p.Over?
    ensures Step(scope, disabled, p, e).None?
  {
  }

  /** A conversation that ends well disables execution only for such an event. */
  lemma {:induction false} LatchIsEarned(scope: Scope, disabled: bool, calls: seq<Event>, p: Phase)
    requires At(scope, disabled, calls, p)
    ensures Innocent(p, calls)
    decreases |calls|
  {
    hide Step, At, Latches, Doomed, Asks, RemoteCalls, Innocent;
    if calls == [] {
      BeginInnocent(scope, disabled, p);
    } else {
      var q, first, e := Back(scope, disabled, calls, p);
      LatchIsEarned(scope, disabled, first, q);
      ConversationAsks(scope, disabled, first, q);
      if q.Over? { OverIsLast(scope, disabled, q, e); }
      StepInnocent(scope, disabled, q, first, e);
    }
  }

  lemma BeginInnocent(scope: Scope, disabled: bool, p: Phase)
    requires At(scope, disabled, [], p)
    ensures Innocent(p, [])
  {
  }

  /** A disabled worker makes no remote call but the relay's. */
  lemma {:induction false} DisabledOnlyRelays(scope: Scope, calls: seq<Event>, p: Phase)
    requires At(scope, true, calls, p)
    ensures forall i :: 0 <= i < |calls| ==> !Remote(calls[i])
    ensures p.Begin? || p.Over? || p.Relaying? || p.Posting? || p.Reading?
    decreases |calls|
  {
    hide At, Delivered, Ends, Follows, Learned;
    if calls == [] {
      BeginAsks(scope, true, p);
    } else {
      var q, first, e := Back(scope, true, calls, p);
      DisabledOnlyRelays(scope, first, q);
    }
  }

  // ---------- a fair conversation ----------

  // A message or call that goes as it should.
  predicate Fair(e: Event) {
    match e
    case Selected(c) => c == SnapshotQuery(true) || c == Approvals(true)
    case Late => false
    case OnTime => true
    case Refreshed(sound) => sound
    case SnapshotReplied(ok) => ok
    case Claimed(reply) => reply != NoReply
    case NoClaimReplied(ok) => ok
    case ClaimApproved(ok) => ok
    case ExecuteSent(ok) => ok
    case Challenged(ok) => ok
    case Checked(_, _, ruling) => ruling == Allowed
    case Mismatched => false
    case RulingReplied(ok) => ok
    case ResultRead(report) => report.Some?
    case Reported(_, _, receipt) => receipt
    case _ => false
  }

  predicate OnCourse(p: Phase) {
    match p
    case Over(r, _) => r == Done
    case Ruled(_, _, allowed) => allowed
    case Relaying(_, _, _, _) => false
    case Posting(_, _) => false
    case Reading(_, _) => false
    case _ => true
  }

  /** While execution is enabled, a snapshot or a claim in which nothing goes wrong
      ends well. */
  lemma {:induction false} FairEndsWell(scope: Scope, calls: seq<Event>, p: Phase)
    requires At(scope, false, calls, p) && forall e :: e in calls ==> Fair(e)
    ensures OnCourse(p)
    decreases |calls|
  {
    hide At, Delivered, Ends, Follows, Learned;
    if calls == [] {
      BeginAsks(scope, false, p);
    } else {
      var q, first, e := Back(scope, false, calls, p);
      assert e in calls && forall x :: x in first ==> x in calls;
      FairEndsWell(scope, first, q);
    }
  }

  function Served(lease: string, unknown: bool): seq<Event> {
    [Selected(Approvals(true)), Claimed(Leased(lease)), ClaimApproved(true), ExecuteSent(true),
     Challenged(true), Checked(lease, 1, Allowed), RulingReplied(true),
     Challenged(true), Checked(lease, 2, Allowed), RulingReplied(true),
     ResultRead(Some(unknown)), Reported(lease, unknown, true), OnTime]
  }

  lemma ServedStep(scope: Scope, lease: string, unknown: bool, i: nat)
    requires i < 13
    ensures Step(scope, false, ServedAt(lease, unknown, i), Served(lease, unknown)[i]) ==
      Some(ServedAt(lease, unknown, i + 1))
    ensures Fair(Served(lease, unknown)[i])
  {
  }

  /** And there is such a conversation for every lease and every result. */
  lemma ClaimIsServed(scope: Scope, lease: string, unknown: bool)
    ensures At(scope, false, Served(lease, unknown), Over(Done, unknown))
    ensures forall i :: 0 <= i < |Served(lease, unknown)| ==> Fair(Served(lease, unknown)[i])
  {
    hide At, Step, Fair;
    var all := Served(lease, unknown);
    NothingSaid(scope, false);
    var calls: seq<Event>, p := [], Begin;
    for i := 0 to 13
      invariant calls == all[..i] && At(scope, false, calls, p) && p == ServedAt(lease, unknown, i)
      invariant forall k :: 0 <= k < i ==> Fair(all[k])
    {
      hide Served, ServedAt;
      ServedStep(scope, lease, unknown, i);
      assert all[..i + 1] == all[..i] + [all[i]];
      calls, p := Move(scope, false, calls, p, all[i]);
    }
    assert all[..13] == all;
  }

  function ServedAt(lease: string, unknown: bool, i: nat): Phase {
    match i
    case 0 => Begin
    case 1 => Claiming
    case 2 => Holding(lease)
    case 3 => Offering(lease)
    case 4 => Waiting(lease, 1)
    case 5 => Asked(lease, 1)
    case 6 => Ruled(lease, 1, true)
    case 7 => Waiting(lease, 2)
    case 8 => Asked(lease, 2)
    case 9 => Ruled(lease, 2, true)
    case 10 => Cleared(lease)
    case 11 => Resulting(lease, unknown)
    case 12 => Acknowledged(unknown)
    case _ => Over(Done, unknown)
  }

  // ---------- the legs of a relay ----------

  ghost predicate LegsOf(scope: Scope, p: Phase) {
    match p
    case Relaying(first, legs, known, q) =>
      && Legal(scope, first, legs) && |legs| < MAX_LEGS && (first.op == Status || first.op == Retained)
      && q.actionID == first.actionID && q.digest == first.digest
      && (legs == [] ==> q == first && known == Relay(first.actionID, first.digest, None, None))
      && (legs != [] ==>
            var last := legs[|legs| - 1];
            known == Learned(scope, last) && !Ends(last, |legs|) && Follows(last.query.op, q.op, |legs|))
    case Posting(first, legs) => Legal(scope, first, legs) && legs != []
    case Reading(first, legs) => Legal(scope, first, legs) && legs != [] && !Ends(legs[|legs| - 1], |legs|)
    case _ => true
  }

  lemma Extends(scope: Scope, first: Query, legs: seq<Leg>, leg: Leg)
    requires Legal(scope, first, legs) && |legs| < MAX_LEGS && (first.op == Status || first.op == Retained)
    requires Delivered(scope, leg) && leg.query.actionID == first.actionID && leg.query.digest == first.digest
    requires legs == [] ==> leg.query == first && leg.before == Relay(first.actionID, first.digest, None, None)
    requires legs != [] ==>
      var last := legs[|legs| - 1];
      leg.before == Learned(scope, last) && !Ends(last, |legs|) && Follows(last.query.op, leg.query.op, |legs|)
    ensures Legal(scope, first, legs + [leg])
  {
    hide Ends, Learned, Delivered;
    var all := legs + [leg];
    forall i | 0 <= i && i + 1 < |all| ensures Chained(scope, all, i) {
      if i + 1 < |legs| { assert Chained(scope, legs, i); }
    }
  }

  lemma StepLegs(scope: Scope, disabled: bool, p: Phase, e: Event)
    requires LegsOf(scope, p) && Step(scope, disabled, p, e).Some?
    ensures LegsOf(scope, Step(scope, disabled, p, e).value)
  {
    hide Delivered, Learned, Legal;
    if p.Begin? && e.Selected? && e.choice.RecoveryQuery? && e.choice.query.Some? {
      NoLegs(scope, e.choice.query.value);
    } else if p.Relaying? && e.Relayed? {
      Extends(scope, p.first, p.legs, e.leg);
    } else if p.Reading? {
      FewLegs(scope, p.first, p.legs);
    }
  }

  lemma NoLegs(scope: Scope, first: Query)
    ensures Legal(scope, first, [])
  {
  }

  lemma FewLegs(scope: Scope, first: Query, legs: seq<Leg>)
    requires Legal(scope, first, legs)
    ensures |legs| <= MAX_LEGS && (legs != [] ==> first.op == Status || first.op == Retained)
  {
  }

  /** A relay's legs are legal at every moment: at most five, each delivered in the
      state the earlier ones left. */
  lemma {:induction false} RelayIsLegal(scope: Scope, disabled: bool, calls: seq<Event>, p: Phase)
    requires At(scope, disabled, calls, p)
    ensures LegsOf(scope, p)
    decreases |calls|
  {
    hide Step, At, LegsOf;
    if calls == [] {
      BeginLegs(scope, disabled, p);
    } else {
      var q, first, e := Back(scope, disabled, calls, p);
      RelayIsLegal(scope, disabled, first, q);
      StepLegs(scope, disabled, q, e);
    }
  }

  lemma BeginLegs(scope: Scope, disabled: bool, p: Phase)
    requires At(scope, disabled, [], p)
    ensures LegsOf(scope, p)
  {
  }

  // ---------- the client ----------

  // One conversation as the loop sees it.
  datatype Talk = Talk(disabled: bool, calls: seq<Event>, result: Result, latch: bool)

  ghost predicate Spoken(scope: Scope, t: Talk) {
    At(scope, t.disabled, t.calls, Over(t.result, t.latch))
  }

  class Client {
    const scope: Scope
    var disabled: bool

    constructor (scope: Scope)
      ensures this.scope == scope && !disabled
    {
      this.scope, disabled := scope, false;
    }

    method Disable()
      modifies this
      ensures disabled
    {
      disabled := true;
    }

    /** Delivers up to five queries, each in the state the earlier ones left. */
    method RelayRecovery(first: Query, ghost was: bool, ghost before: seq<Event>)
      returns (r: Result, ghost calls: seq<Event>)
      requires At(scope, was, before, Choose(was, RecoveryQuery(Some(first)))) && disabled == was
      modifies this
      ensures At(scope, was, calls, Over(r, first.op != Status)) && disabled == (was || first.op != Status)
    {
      hide At, Delivered, Ends, Learned, Deliver, Follows;
      calls, r := before, Unsafe;
      if first.op != Status {
        Disable();
      }
      if first.op != Status && first.op != Retained {
        return;
      }
      var q, s, legs: seq<Leg> := first, Relay(first.actionID, first.digest, None, None), [];
      ghost var p := Relaying(first, legs, s, q);
      for ordinal := 1 to MAX_LEGS + 1
        invariant |legs| == ordinal - 1 && p == Relaying(first, legs, s, q) && At(scope, was, calls, p)
        invariant disabled == (was || first.op != Status)
      {
        var inTime: bool := *;
        if !inTime {
          calls, p := Move(scope, was, calls, p, Late);
          return;
        }
        var answer: Answer, encodes: bool := *, *;
        var leg := Deliver(scope, s, q, answer, encodes);
        Delivers(scope, s, q, answer, encodes);
        calls, p := Move(scope, was, calls, p, Relayed(leg));
        s, legs := Learned(scope, leg), legs + [leg];
        var sent: bool := *;
        calls, p := Move(scope, was, calls, p, LegReplied(sent));
        if !sent {
          return;
        }
        if Ends(leg, ordinal) {
          r := Done;
          return;
        }
        var next: Option<Query> := *;
        calls, p := Move(scope, was, calls, p, Continued(next));
        if !next.Some? || next.value.actionID != first.actionID || next.value.digest != first.digest ||
           !Follows(q.op, next.value.op, ordinal) {
          return;
        }
        q := next.value;
      }
      LastLegEnds(scope, was, calls, p);
      assert false;
    }

    /** One conversation with the broker: exactly what the automaton allows, and
        execution is disabled exactly when it was or the conversation latches. */
    method Converse() returns (r: Result, ghost talk: Talk)
      modifies this
      ensures Spoken(scope, talk) && talk.disabled == old(disabled) && talk.result == r
      ensures disabled == (old(disabled) || talk.latch)
    {
      hide At;
      ghost var was, calls, p := disabled, [], Begin;
      NothingSaid(scope, was);
      var choice: Choice := *;
      calls, p := Move(scope, was, calls, p, Selected(choice));
      match choice {
      case NotBegun => r := Unsafe;
      case NoChoice => r := NoSelection;
      case Malformed => r := BadSelection;
      case RecoveryQuery(query) =>
        r := Unsafe;
        if query.Some? {
          r, calls := RelayRecovery(query.value, was, calls);
          return r, Talk(was, calls, r, query.value.op != Status);
        }
      case SnapshotQuery(ok) =>
        r := Unsafe;
        if !disabled && ok {
          ghost var latch;
          r, calls, latch := Refresh(was, calls);
          return r, Talk(was, calls, r, latch);
        }
      case Approvals(ok) =>
        r := Unsafe;
        if !disabled && ok {
          ghost var latch;
          r, calls, latch := ClaimAndExecute(was, calls);
          return r, Talk(was, calls, r, latch);
        }
      case OtherKind => r := Unsafe;
      }
      talk := Talk(was, calls, r, false);
    }

    method Refresh(ghost was: bool, ghost before: seq<Event>)
      returns (r: Result, ghost calls: seq<Event>, ghost latch: bool)
      requires At(scope, was, before, Snapshotting) && disabled == was
      modifies this
      ensures At(scope, was, calls, Over(r, latch)) && disabled == (was || latch)
    {
      hide At;
      calls, r := before, Unsafe;
      ghost var p := Snapshotting;
      var sound: bool := *;
      calls, p := Move(scope, was, calls, p, Refreshed(sound));
      if sound {
        var sent: bool := *;
        calls, p := Move(scope, was, calls, p, SnapshotReplied(sent));
        if sent {
          r := Done;
        }
      }
      if r != Done {
        Disable();
      }
      latch := r != Done;
    }

    // A claim that does not end well disables execution before the worker talks to anyone again.
    method ClaimAndExecute(ghost was: bool, ghost before: seq<Event>)
      returns (r: Result, ghost calls: seq<Event>, ghost latch: bool)
      requires At(scope, was, before, Claiming) && disabled == was
      modifies this
      ensures At(scope, was, calls, Over(r, latch)) && disabled == (was || latch)
    {
      r, calls, latch := Claim(was, before);
      if r != Done {
        Disable();
      }
    }

    method Claim(ghost was: bool, ghost before: seq<Event>)
      returns (r: Result, ghost calls: seq<Event>, ghost latch: bool)
      requires At(scope, was, before, Claiming) && disabled == was
      modifies this
      ensures At(scope, was, calls, Over(r, latch)) && (r == Done ==> disabled == (was || latch)) &&
        (r != Done ==> latch)
    {
      hide At;
      calls, r, latch := before, Unsafe, true;
      ghost var p := Claiming;
      var inTime: bool := *;
      if !inTime {
        calls, p := Move(scope, was, calls, p, Late);
        return;
      }
      var reply: ClaimReply := *;
      calls, p := Move(scope, was, calls, p, Claimed(reply));
      match reply {
        case NoReply =>
        case NoClaim =>
          var sent: bool := *;
          calls, p := Move(scope, was, calls, p, NoClaimReplied(sent));
          if sent {
            r, latch := Done, false;
          }
        case Leased(lease) =>
          r, calls, latch := Carry(lease, was, calls);
      }
    }

    // From a lease to the reported result.
    method Carry(lease: string, ghost was: bool, ghost before: seq<Event>)
      returns (r: Result, ghost calls: seq<Event>, ghost latch: bool)
      requires At(scope, was, before, Holding(lease)) && disabled == was
      modifies this
      ensures At(scope, was, calls, Over(r, latch)) && (r == Done ==> disabled == (was || latch)) &&
        (r != Done ==> latch)
    {
      hide At;
      r, latch := Unsafe, true;
      var ok;
      ok, calls := Offer(lease, was, before);
      if !ok {
        return;
      }
      for checkpoint := 1 to 3
        invariant At(scope, was, calls, if checkpoint == 3 then Cleared(lease) else Waiting(lease, checkpoint))
        invariant disabled == was
      {
        var allowed;
        allowed, calls := CheckOnce(lease, checkpoint, was, calls);
        if !allowed {
          return;
        }
      }
      r, calls, latch := ReportResult(lease, was, calls);
    }

    method Offer(lease: string, ghost was: bool, ghost before: seq<Event>) returns (ok: bool, ghost calls: seq<Event>)
      requires At(scope, was, before, Holding(lease))
      ensures At(scope, was, calls, if ok then Waiting(lease, 1) else Over(Unsafe, true))
    {
      hide At;
      calls, ok := before, false;
      ghost var p := Holding(lease);
      var inTime: bool, approved: bool, sent: bool := *, *, *;
      if !inTime {
        calls, p := Move(scope, was, calls, p, Late);
        return;
      }
      calls, p := Move(scope, was, calls, p, ClaimApproved(approved));
      if !approved {
        return;
      }
      calls, p := Move(scope, was, calls, p, ExecuteSent(sent));
      ok := sent;
    }

    // One challenge of the broker, answered by the remote service; a denial disables execution at once.
    method CheckOnce(lease: string, checkpoint: nat, ghost was: bool, ghost before: seq<Event>)
      returns (allowed: bool, ghost calls: seq<Event>)
      requires At(scope, was, before, Waiting(lease, checkpoint)) && 1 <= checkpoint <= 2 && disabled == was
      modifies this
      ensures allowed ==> disabled == was
      ensures At(scope, was, calls,
                 if !allowed then Over(Unsafe, true) else if checkpoint == 1 then Waiting(lease, 2) else Cleared(lease))
    {
      hide At;
      calls, allowed := before, false;
      ghost var p := Waiting(lease, checkpoint);
      var inTime: bool, read: bool, still: bool := *, *, *;
      if !inTime {
        calls, p := Move(scope, was, calls, p, Late);
        return;
      }
      calls, p := Move(scope, was, calls, p, Challenged(read));
      if !read {
        return;
      }
      if !still {
        calls, p := Move(scope, was, calls, p, Late);
        return;
      }
      var ruling: Ruling := *;
      calls, p := Move(scope, was, calls, p, Checked(lease, checkpoint, ruling));
      if ruling.Unanswered? {
        return;
      }
      var soon: bool, matches: bool, sent: bool := *, *, *;
      if !soon {
        calls, p := Move(scope, was, calls, p, Late);
        return;
      }
      if ruling.Forbidden? {
        Disable();
      }
      if !matches {
        calls, p := Move(scope, was, calls, p, Mismatched);
        return;
      }
      calls, p := Move(scope, was, calls, p, RulingReplied(sent));
      allowed := sent && ruling.Allowed?;
    }

    method ReportResult(lease: string, ghost was: bool, ghost before: seq<Event>)
      returns (r: Result, ghost calls: seq<Event>, ghost latch: bool)
      requires At(scope, was, before, Cleared(lease)) && disabled == was
      modifies this
      ensures At(scope, was, calls, Over(r, latch)) && (r == Done ==> disabled == (was || latch)) &&
        (r != Done ==> latch)
    {
      hide At;
      calls, r, latch := before, Unsafe, true;
      ghost var p := Cleared(lease);
      var inTime: bool, still: bool, soon: bool := *, *, *;
      if !inTime {
        calls, p := Move(scope, was, calls, p, Late);
        return;
      }
      var unknown: Option<bool> := *;
      calls, p := Move(scope, was, calls, p, ResultRead(unknown));
      if !unknown.Some? {
        return;
      }
      if !still {
        calls, p := Move(scope, was, calls, p, Late);
        return;
      }
      var receipt: bool := *;
      calls, p := Move(scope, was, calls, p, Reported(lease, unknown.value, receipt));
      if !receipt {
        return;
      }
      if !soon {
        calls, p := Move(scope, was, calls, p, Late);
        return;
      }
      calls, p := Move(scope, was, calls, p, OnTime);
      if unknown.value {
        Disable();
      }
      r, latch := Done, unknown.value;
    }

    /** The connection loop, for however many rounds the environment gives it: each
        conversation begins with the latch the earlier ones left, and only the last
        may be one that ends the loop. */
    method RunLoop(rounds: nat) returns (r: Result, ghost talks: seq<Talk>, ghost cancelled: bool)
      modifies this
      ensures Linked(scope, old(disabled), talks) && disabled == LatchAfter(old(disabled), talks)
      ensures forall i :: 0 <= i < |talks| - 1 ==> GoesOn(talks[i])
      ensures talks != [] && !GoesOn(talks[|talks| - 1]) ==> r == Unsafe || cancelled
    {
      hide Spoken;
      talks, cancelled := [], false;
      for n := 0 to rounds
        invariant Linked(scope, old(disabled), talks) && disabled == LatchAfter(old(disabled), talks)
        invariant forall i :: 0 <= i < |talks| ==> GoesOn(talks[i])
      {
        var stopped: bool, connected: bool, absent: bool := *, *, *;
        if stopped {
          return Done, talks, true;
        }
        if !connected {
          if !absent {
            return Unsafe, talks, false;
          }
        } else {
          ghost var talk;
          r, talk := Converse();
          LinkMore(scope, old(disabled), talks, talk);
          talks := talks + [talk];
          var over: bool := *;
          if over {
            return Done, talks, true;
          }
          if r == BadSelection || (r == Unsafe && !disabled) {
            return Unsafe, talks, false;
          }
        }
        var paced: bool := *;
        if !paced {
          return Unsafe, talks, false;
        }
      }
      r := Done;
    }
  }

  lemma Delivers(scope: Scope, s: Relay, q: Query, a: Answer, encodes: bool)
    ensures var leg := Deliver(scope, s, q, a, encodes); leg.before == s && leg.query == q && Delivered(scope, leg)
  {
    var leg := Deliver(scope, s, q, a, encodes);
    assert leg == Deliver(scope, leg.before, leg.query, a, encodes);
  }

  lemma NothingSaid(scope: Scope, disabled: bool)
    ensures At(scope, disabled, [], Begin)
  {
  }

  lemma LastLegEnds(scope: Scope, disabled: bool, calls: seq<Event>, p: Phase)
    requires At(scope, disabled, calls, p)
    ensures p.Relaying? ==> |p.legs| < MAX_LEGS
  {
    hide At;
    RelayIsLegal(scope, disabled, calls, p);
  }

  // ---------- many conversations ----------

  ghost function LatchAfter(disabled: bool, talks: seq<Talk>): bool {
    disabled || exists i :: 0 <= i < |talks| && talks[i].latch
  }

  ghost predicate Linked(scope: Scope, disabled: bool, talks: seq<Talk>) {
    forall i :: 0 <= i < |talks| ==> Spoken(scope, talks[i]) && talks[i].disabled == LatchAfter(disabled, talks[..i])
  }

  // After this conversation the loop asks for another.
  ghost predicate GoesOn(t: Talk) {
    t.result != BadSelection && (t.result == Unsafe ==> t.disabled || t.latch)
  }

  lemma LinkMore(scope: Scope, disabled: bool, talks: seq<Talk>, t: Talk)
    requires Linked(scope, disabled, talks) && Spoken(scope, t) && t.disabled == LatchAfter(disabled, talks)
    ensures Linked(scope, disabled, talks + [t])
    ensures LatchAfter(disabled, talks + [t]) == (LatchAfter(disabled, talks) || t.latch)
  {
    hide Spoken;
    var all := talks + [t];
    forall i | 0 <= i < |all| ensures all[..i] == if i < |talks| then talks[..i] else talks {
    }
    assert all[|talks|] == t;
    assert forall i :: 0 <= i < |talks| ==> all[i] == talks[i];
  }

  /** Over any number of conversations, nothing but relaying follows a latching event:
      no snapshot, claim, check or report, in its own conversation or a later one. */
  lemma LatchedForGood(scope: Scope, disabled: bool, talks: seq<Talk>, a: nat, i: nat, b: nat, j: nat)
    requires Linked(scope, disabled, talks) && a < |talks| && b < |talks|
    requires i < |talks[a].calls| && Latches(talks[a].calls[i]) && j < |talks[b].calls|
    requires a < b || (a == b && i < j)
    ensures !Remote(talks[b].calls[j])
  {
    hide At, Latches, Remote, Doomed;
    assert Spoken(scope, talks[a]) && Spoken(scope, talks[b]);
    LatchHolds(scope, talks[a].disabled, talks[a].calls, Over(talks[a].result, talks[a].latch));
    if a < b {
      DoomedIsLatch(talks[a]);
      assert talks[..b][a] == talks[a];
      DisabledOnlyRelays(scope, talks[b].calls, Over(talks[b].result, talks[b].latch));
    }
  }

  lemma DoomedIsLatch(t: Talk)
    ensures Doomed(Over(t.result, t.latch)) <==> t.latch
  {
  }

  /** And without one, conversations that end well leave the worker as it was. */
  lemma EnabledStays(scope: Scope, disabled: bool, talks: seq<Talk>)
    requires Linked(scope, disabled, talks)
    requires forall t :: t in talks ==> t.result == Done && forall e :: e in t.calls ==> !Latches(e)
    ensures LatchAfter(disabled, talks) == disabled
  {
    hide At, Latches;
    forall i | 0 <= i < |talks| ensures !talks[i].latch {
      assert Spoken(scope, talks[i]) && talks[i] in talks;
      LatchIsEarned(scope, talks[i].disabled, talks[i].calls, Over(talks[i].result, talks[i].latch));
      forall k | 0 <= k < |talks[i].calls| ensures !Latches(talks[i].calls[k]) {
        assert talks[i].calls[k] in talks[i].calls;
      }
    }
  }
}
