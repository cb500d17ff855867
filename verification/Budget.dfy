/** Local timing budgets over three clocks that may drift: boot time, the Go
    monotonic clock and the wall clock. A budget compares every later sample with
    one origin; no sample is ever used to restart it. Durations are nanoseconds,
    and every bound is far inside 64 bits, so integers are exact here. */
module Budget {
  import opened ActionTypes
  import Coordinator

  const CONTINUITY: int := SECOND / 10
  const SKEW: int := 49 * SECOND / 10
  const ORIGIN_CAP: int := 134 * SECOND
  const REPORT_CAP: int := 139 * SECOND
  const MAX_BOOT: int := 0x7fff_ffff_ffff_ffff - ORIGIN_CAP

  // A sample of the three clocks, bound to the clock object that produced it.
  datatype Stamp = Stamp(clock: nat, mono: Time, wall: Time, boot: int)

  predicate Capturable(s: Stamp) {
    s.mono != 0 && s.wall != 0 && 0 <= s.boot <= MAX_BOOT
  }

  // ---------- continuity ----------

  predicate Near(passed: int, boot: int) {
    boot - CONTINUITY <= passed <= boot + CONTINUITY
  }

  // The three clocks moved forward together from one sample to the next.
  predicate Together(from: Stamp, to: Stamp) {
    && from.clock == to.clock && from.boot <= to.boot && from.wall <= to.wall && from.mono <= to.mono
    && Near(to.mono - from.mono, to.boot - from.boot) && Near(to.wall - from.wall, to.boot - from.boot)
  }

  predicate ContinuousWithin(from: Stamp, to: Stamp, maximum: int) {
    Together(from, to) && to.boot - from.boot <= maximum
  }

  predicate Continuous(from: Stamp, to: Stamp) {
    ContinuousWithin(from, to, ORIGIN_CAP)
  }

  predicate ReportContinuous(from: Stamp, to: Stamp) {
    to.boot - from.boot < (5 + 15 + 119) * SECOND && ContinuousWithin(from, to, REPORT_CAP)
  }

  predicate ServerBracket(server: Time, send: Stamp, recv: Stamp) {
    Continuous(send, recv) && server != 0 && server - recv.wall >= -SKEW && server - send.wall <= SKEW
  }

  // ---------- readiness and conversations ----------

  datatype Readiness = Readiness(clock: nat, origin: Stamp, recv: Stamp)

  function ObserveServerTime(clock: nat, server: Time, send: Stamp, recv: Stamp): Option<Readiness> {
    if send.clock == clock && recv.clock == clock && ServerBracket(server, send, recv)
      then Some(Readiness(clock, send, recv)) else None
  }

  function ObserveControlTime(clock: nat, server: Time, send: Stamp, recv: Stamp): Option<Readiness> {
    if send.clock != clock || recv.clock != clock || !Continuous(send, recv) || recv.boot - send.boot >= 5 * SECOND
      then None
    else ObserveServerTime(clock, server, send, recv)
  }

  predicate MayBegin(clock: nat, r: Readiness, now: Stamp) {
    && Capturable(now) && r.clock == clock && Continuous(r.origin, now)
    && r.recv.boot <= now.boot <= r.recv.boot + 15 * SECOND
  }

  datatype Claim = Claim(request: Request, digest: string, claimed: Time, lease: Time)

  // The timing part of a well-formed claim; the rest of its form is `wellFormed` below.
  predicate ClaimTimes(c: Claim) {
    c.request.created <= c.claimed && c.lease <= c.request.expires && c.lease - c.claimed == 120 * SECOND
  }

  datatype Guard = Guard(
    clock: nat, origin: Stamp, deadline: int, actionID: string, digest: string, container: string, operation: Operation)

  datatype Execution = Execution(guard: Guard, delivery: Coordinator.Delivery, start: Stamp)

  function Allowance(rtt: int): int {
    Coordinator.Min(89 * SECOND, rtt + 60 * SECOND)
  }

  predicate MayAccept(r: Readiness, start: Stamp, c: Claim, wellFormed: bool, rtt: int, container: string, now: Stamp) {
    && Capturable(now) && wellFormed && ClaimTimes(c) && Continuous(r.origin, now)
    && start.boot <= now.boot < start.boot + 30 * SECOND
    && 0 <= rtt <= 30 * SECOND && rtt <= now.boot - start.boot
    && ServerBracket(c.claimed, start, now) && Hex(container, 64)
    && now.boot < start.boot + Allowance(rtt)
  }

  function Accepted(r: Readiness, start: Stamp, c: Claim, rtt: int, container: string): Execution {
    Execution(
      Guard(r.clock, r.origin, start.boot +
        Allowance(rtt), c.request.actionID, c.digest, container, c.request.operation),
      Coordinator.Delivery(Some(start.wall), start.wall + rtt, start.wall + 119 * SECOND), start)
  }

  // ---------- the checks ----------

  predicate Checked(g: Guard, now: Stamp) {
    && Capturable(now) && now.clock == g.clock && Continuous(g.origin, now) && now.boot < g.deadline
    && now.boot - g.origin.boot <= ORIGIN_CAP
  }

  predicate CheckExecution(g: Guard, actionID: string, digest: string, now: Stamp) {
    Checked(g, now) && g.actionID == actionID && g.digest == digest
  }

  predicate CheckMutation(g: Guard, container: string, operation: Operation, now: Stamp) {
    Checked(g, now) && g.container == container && g.operation == operation
  }

  predicate CheckDelivery(r: Readiness, start: Stamp, used: bool, now: Stamp) {
    && !used && Capturable(now) && Continuous(r.origin, now) && Continuous(start, now)
    && now.boot - start.boot < 30 * SECOND
  }

  predicate CheckDecision(e: Execution, send: Stamp, recv: Stamp, checkedAt: Time, now: Stamp) {
    && send.clock == e.guard.clock && recv.clock == e.guard.clock
    && Continuous(e.guard.origin, send) && Continuous(e.guard.origin, recv)
    && ServerBracket(checkedAt, send, recv) && recv.boot - send.boot < 5 * SECOND
    && CheckExecution(e.guard, e.guard.actionID, e.guard.digest, now)
  }

  predicate CheckReport(e: Execution, now: Stamp) {
    && Identifier(e.guard.actionID, "hla_") && Continuous(e.guard.origin, e.start) && Capturable(now)
    && ReportContinuous(e.guard.origin, now) && e.start.boot <= now.boot < e.start.boot + 119 * SECOND
  }

  /** One conversation: begun once on a readiness, good for a single claim. */
  class Conversation {
    const readiness: Readiness
    const start: Stamp
    var used: bool

    constructor (readiness: Readiness, now: Stamp)
      requires MayBegin(readiness.clock, readiness, now)
      ensures this.readiness == readiness && start == now && !used
    {
      this.readiness, this.start, used := readiness, now, false;
    }

    /** Even a refused claim uses the conversation up. */
    method AcceptClaim(c: Claim, wellFormed: bool, rtt: int, container: string, now: Option<Stamp>)
      returns (e: Option<Execution>)
      modifies this
      ensures used
      ensures e.Some? <==>
        !old(used) && now.Some? && MayAccept(readiness, start, c, wellFormed, rtt, container, now.value)
      ensures e.Some? ==> e.value == Accepted(readiness, start, c, rtt, container)
    {
      if used {
        return None;
      }
      used := true;
      if now.None? || !MayAccept(readiness, start, c, wellFormed, rtt, container, now.value) {
        return None;
      }
      e := Some(Accepted(readiness, start, c, rtt, container));
    }
  }

  method Begin(clock: nat, r: Option<Readiness>, now: Option<Stamp>) returns (c: Conversation?)
    ensures c != null <==> r.Some? && now.Some? && MayBegin(clock, r.value, now.value)
    ensures c != null ==> fresh(c) && c.readiness == r.value && c.start == now.value && !c.used
  {
    if r.None? || now.None? || !MayBegin(clock, r.value, now.value) {
      return null;
    }
    c := new Conversation(r.value, now.value);
  }

  // ---------- the lease outlives every permitted mutation ----------

  // A readiness, the start of a conversation on it and a claim accepted there.
  ghost predicate Admitted(r: Readiness, start: Stamp, c: Claim, rtt: int, container: string, accepted: Stamp) {
    MayBegin(r.clock, r, start) && MayAccept(r, start, c, true, rtt, container, accepted)
  }

  /** Whenever the mutation check passes, the local wall clock is more than
      54.9 seconds short of the claim's lease. */
  lemma LeaseMargin(r: Readiness, start: Stamp, c: Claim, rtt: int, container: string, accepted: Stamp,
                    operation: Operation, now: Stamp)
    requires Admitted(r, start, c, rtt, container, accepted)
    requires CheckMutation(Accepted(r, start, c, rtt, container).guard, container, operation, now)
    ensures 549 * SECOND / 10 < c.lease - now.wall
  {
    var origin := r.origin;
    // The claim was stamped no earlier than the skew before the accepting sample.
    assert c.claimed >= accepted.wall - SKEW >= origin.wall + (start.boot + rtt - origin.boot) - CONTINUITY - SKEW;
    // The check ran before the allowance, and drifted at most once from the origin.
    assert now.wall <= origin.wall + (now.boot - origin.boot) + CONTINUITY;
    assert now.boot < start.boot + rtt + 60 * SECOND;
  }

  /** The server bracket around a claim leaves no room for a long round trip, so
      the 89 second ceiling on the allowance is never the binding one. */
  lemma RoundTripIsShort(r: Readiness, start: Stamp, c: Claim, rtt: int, container: string, accepted: Stamp)
    requires Admitted(r, start, c, rtt, container, accepted)
    ensures rtt <= 99 * SECOND / 10 && Allowance(rtt) == rtt + 60 * SECOND
  {
    assert accepted.wall - SKEW <= c.claimed <= start.wall + SKEW;
  }

  /** A decision accepted in time was stamped by the server more than fifty
      seconds before the lease ends, provided its request left before the check. */
  lemma DecisionBeforeLease(r: Readiness, start: Stamp, c: Claim, rtt: int, container: string, accepted: Stamp,
                            send: Stamp, recv: Stamp, checkedAt: Time, now: Stamp)
    requires Admitted(r, start, c, rtt, container, accepted) && send.boot <= now.boot
    requires CheckDecision(Accepted(r, start, c, rtt, container), send, recv, checkedAt, now)
    ensures 50 * SECOND < c.lease - checkedAt
  {
    assert c.claimed >= accepted.wall - SKEW >= r.origin.wall + (start.boot + rtt - r.origin.boot) - CONTINUITY - SKEW;
    assert checkedAt <= send.wall + SKEW <= r.origin.wall + (send.boot - r.origin.boot) + CONTINUITY + SKEW;
    assert send.boot < start.boot + rtt + 60 * SECOND;
  }

  function At(boot: int, wall: int): Stamp {
    Stamp(0, 1 + boot, 1 + wall, boot)
  }

  function SharpClaim(): Claim {
    Claim(Request("", "", "", "", "", "", Start, 0, 0, 0, 1, 300 * SECOND), "", 10 * SECOND + 1, 130 * SECOND + 1)
  }

  /** The margin is the best possible: one nanosecond more is not guaranteed. */
  lemma LeaseMarginIsSharp(container: string)
    returns (r: Readiness, start: Stamp, rtt: int, accepted: Stamp, now: Stamp)
    requires Hex(container, 64)
    ensures Admitted(r, start, SharpClaim(), rtt, container, accepted)
    ensures CheckMutation(Accepted(r, start, SharpClaim(), rtt, container).guard, container, Start, now)
    ensures SharpClaim().lease - now.wall == 549 * SECOND / 10 + 1
  {
    r := Readiness(0, At(0, 0), At(0, 0));
    start, rtt, accepted := At(10 * SECOND, 10 * SECOND), 5 * SECOND, At(15 * SECOND, 149 * SECOND / 10);
    now := At(75 * SECOND - 1, 751 * SECOND / 10 - 1);
  }

  // ---------- the phases compose ----------

  /** A server bracket is narrow: at most 9.9 seconds of boot time. */
  lemma BracketIsNarrow(server: Time, send: Stamp, recv: Stamp)
    requires ServerBracket(server, send, recv)
    ensures recv.boot - send.boot <= 99 * SECOND / 10
  {
    assert recv.wall - SKEW <= server <= send.wall + SKEW;
  }

  /** The 134 second cap never ends the delivery or the execution phase: until
      their own deadlines only drift decides, whatever readiness they run on. */
  lemma OriginCapNeverFires(clock: nat, server: Time, send: Stamp, recv: Stamp, r: Readiness, start: Stamp, now: Stamp)
    requires ObserveServerTime(clock, server, send, recv) == Some(r) && MayBegin(clock, r, start)
    ensures now.boot < start.boot + 89 * SECOND ==> (Continuous(r.origin, now) <==> Together(r.origin, now))
    ensures CheckDelivery(r, start, false, now) <==>
      Capturable(now) && Together(r.origin, now) && Together(start, now) && now.boot < start.boot + 30 * SECOND
  {
    BracketIsNarrow(server, send, recv);
  }

  /** After a control-time readiness the reporting cap is silent as well. */
  lemma ReportCapNeverFires(clock: nat, server: Time, send: Stamp, recv: Stamp, r: Readiness, start: Stamp, now: Stamp)
    requires ObserveControlTime(clock, server, send, recv) == Some(r) && MayBegin(clock, r, start)
    requires now.boot < start.boot + 119 * SECOND
    ensures ReportContinuous(r.origin, now) <==> Together(r.origin, now)
  {
  }

  /** In general the reporting cap is silent exactly when the conversation began
      within twenty seconds of its origin. */
  lemma ReportCapSilent(origin: Stamp, start: Stamp)
    requires origin.boot <= start.boot
    ensures start.boot - origin.boot <= 20 * SECOND <==>
      forall now: Stamp ::
        start.boot <= now.boot < start.boot + 119 * SECOND && Together(origin, now) ==> ReportContinuous(origin, now)
  {
    var passed := start.boot - origin.boot + 119 * SECOND - 1;
    var last := Stamp(origin.clock, origin.mono + passed, origin.wall + passed, origin.boot + passed);
    assert Together(origin, last) && last.boot == start.boot + 119 * SECOND - 1;
  }

  /** A plain server-time readiness can be too wide for that. */
  lemma WideReadiness() returns (server: Time, r: Readiness, start: Stamp)
    ensures ObserveServerTime(0, server, r.origin, r.recv) == Some(r) && MayBegin(0, r, start)
    ensures start.boot - r.origin.boot > 20 * SECOND
  {
    r := Readiness(0, At(0, 0), At(9 * SECOND, 9 * SECOND));
    server, start := 45 * SECOND / 10, At(24 * SECOND, 24 * SECOND);
  }

  /** The coordinator's own deadline is the guard's, measured from the same start:
      the request's expiry and the 90 second ceiling never come first. */
  lemma EndIsTheGuards(r: Readiness, start: Stamp, c: Claim, rtt: int, container: string, accepted: Stamp)
    requires Admitted(r, start, c, rtt, container, accepted)
    ensures var e := Accepted(r, start, c, rtt, container);
      Coordinator.End(c.request, e.delivery) - start.wall == e.guard.deadline - start.boot
  {
    var d := Accepted(r, start, c, rtt, container).delivery;
    var values := [c.request.expires, d.started.value + 90 * SECOND, d.received + 60 * SECOND, d.lease - 30 * SECOND];
    assert c.request.expires >= c.lease == c.claimed + 120 * SECOND >= accepted.wall - SKEW + 120 * SECOND;
    assert values[2] == start.wall + rtt + 60 * SECOND && values[3] == start.wall + 89 * SECOND;
    var end := Coordinator.Earliest(values);
    assert end <= values[2] && end <= values[3];
  }

  /** Reports stay possible for the whole of the execution window and after it. */
  lemma ReportOutlastsExecution(r: Readiness, start: Stamp, c: Claim, rtt: int, container: string, accepted: Stamp,
                                now: Stamp)
    requires Admitted(r, start, c, rtt, container, accepted) && Identifier(c.request.actionID, "hla_")
    requires Checked(Accepted(r, start, c, rtt, container).guard, now) && start.boot <= now.boot
    ensures CheckReport(Accepted(r, start, c, rtt, container), now)
  {
  }
}
