/** The activation transaction and its cleanup, as the automaton's runs. */
module ActivationTransaction {
  import opened ActionTypes
  import opened Activation

  // What a failing run still has to stop, and what it will report.
  function Failed(u: Instance, c: Option<Instance>, r: Result): Phase {
    Stopping(Uploader, u, c, NeverStarted, r)
  }

  function Failing(owned: map<Unit, Instance>, r: Result): Phase {
    if Uploader !in owned then Over(r, NeverStarted, NeverStarted)
    else Failed(owned[Uploader], if Collector in owned then Some(owned[Collector]) else None, r)
  }

  lemma SameCleaned(p: Phase, q: Phase)
    requires (p.Stopping? || p.Issuing? || p.Joining?) && (q.Stopping? || q.Issuing? || q.Joining?)
    requires p.unit == q.unit && p.next == q.next && p.uploader == q.uploader && p.result == q.result
    ensures forall fate :: CleanedUp(p, fate) == CleanedUp(q, fate)
  {
  }

  predicate InRequest(s: Stage) {
    s.AuditUploader? || s.CheckUploader? || s.ComposeRequest? || s.CompareFirst? || s.CheckUploader2? ||
      s.DenyFirst? || s.PublishRequest?
  }

  predicate InResponse(s: Stage) {
    s.PollUploader? || s.PollDenied? || s.PollResponse? || s.PollWait? || s.StartCollector? ||
      s.CaptureCollector? || s.ConfirmCollector?
  }

  predicate InCollecting(s: Stage) {
    s.AwaitCollector? || s.AwaitUploader? || s.AwaitStatus? || s.AwaitWait?
  }

  predicate InAudit(s: Stage) {
    s.FinishProbes? || s.CompareAgain? || s.CheckUploader3? || s.CheckCollector?
  }

  predicate InCommit(s: Stage) {
    s.AuditAgain? || s.CheckUploader4? || s.CheckCollector2? || s.ComposeCommit? || s.PublishCommit?
  }

  predicate InReady(s: Stage) {
    s.ReadyUploader? || s.ReadyCollector? || s.ReadyStatus? || s.ReadyWait?
  }

  predicate InEnd(s: Stage) {
    s.LastTime? || s.LastUploader? || s.LastCollector? || s.LastTime2?
  }

  class World {
    ghost var log: seq<Event>
    ghost var phase: Phase

    constructor ()
      ensures log == [] && phase == START && Valid()
    {
      log, phase := [], START;
      new;
      Nothing(phase);
    }

    ghost predicate Valid()
      reads this
    {
      Reaches(log, phase)
    }

    // A call and its answer.
    ghost method Note(e: Event)
      requires Valid() && Step(phase, e).Some?
      modifies this
      ensures Valid() && phase == Step(old(phase), e).value
    {
      hide Reaches, Step;
      log, phase := Move(log, phase, e);
    }

    ghost method NoteRequest(e: Event)
      requires Valid() && phase.At? && InRequest(phase.stage) && StepRequest(phase, e).Some?
      modifies this
      ensures Valid() && phase == StepRequest(old(phase), e).value
      ensures forall r :: Fail(old(phase), r) == Failed(old(phase).u, None, r)
    {
      hide Reaches, StepRequest;
      Note(e);
    }

    ghost method NoteResponse(e: Event)
      requires Valid() && phase.At? && InResponse(phase.stage) && StepResponse(phase, e).Some?
      modifies this
      ensures Valid() && phase == StepResponse(old(phase), e).value
      ensures forall r ::
        Fail(old(phase), r) ==
        Failed(old(phase).u, if old(phase).stage.CaptureCollector? || old(phase).stage.ConfirmCollector?
        then Some(old(phase).c) else None, r)
    {
      hide Reaches, StepResponse;
      Note(e);
    }

    ghost method NoteCollecting(e: Event)
      requires Valid() && phase.At? && InCollecting(phase.stage) && StepCollecting(phase, e).Some?
      modifies this
      ensures Valid() && phase == StepCollecting(old(phase), e).value
      ensures forall r :: Fail(old(phase), r) == Failed(old(phase).u, Some(old(phase).c), r)
    {
      hide Reaches, StepCollecting;
      Note(e);
    }

    ghost method NoteAudit(e: Event)
      requires Valid() && phase.At? && InAudit(phase.stage) && StepAudit(phase, e).Some?
      modifies this
      ensures Valid() && phase == StepAudit(old(phase), e).value
      ensures forall r :: Fail(old(phase), r) == Failed(old(phase).u, Some(old(phase).c), r)
    {
      hide Reaches, StepAudit;
      Note(e);
    }

    ghost method NoteCommit(e: Event)
      requires Valid() && phase.At? && InCommit(phase.stage) && StepCommit(phase, e).Some?
      modifies this
      ensures Valid() && phase == StepCommit(old(phase), e).value
      ensures forall r :: Fail(old(phase), r) == Failed(old(phase).u, Some(old(phase).c), r)
    {
      hide Reaches, StepCommit;
      Note(e);
    }

    ghost method NoteReady(e: Event)
      requires Valid() && phase.At? && InReady(phase.stage) && StepReady(phase, e).Some?
      modifies this
      ensures Valid() && phase == StepReady(old(phase), e).value
      ensures forall r :: Fail(old(phase), r) == Failed(old(phase).u, Some(old(phase).c), r)
    {
      hide Reaches, StepReady;
      Note(e);
    }

    ghost method NoteEnd(e: Event)
      requires Valid() && phase.At? && InEnd(phase.stage) && StepEnd(phase, e).Some?
      modifies this
      ensures Valid() && phase == StepEnd(old(phase), e).value
      ensures forall r :: Fail(old(phase), r) == Failed(old(phase).u, Some(old(phase).c), r)
    {
      hide Reaches, StepEnd;
      Note(e);
    }

    /** Starts a unit and captures the invocation that is then running, even when the
        start itself was reported to have failed. */
    method StartWorker(unit: Unit) returns (want: Instance, ok: bool)
      requires Valid() && phase.At? && phase.stage == if unit == Uploader then StartUploader else StartCollector
      modifies this
      ensures Valid()
      ensures ok && unit == Uploader ==> phase == old(phase).(stage := AuditUploader, started := true, u := want)
      ensures ok && unit == Collector ==> phase == old(phase).(stage := AwaitCollector, started := true, c := want)
      ensures !ok && unit == Uploader ==> phase == Failed(want, None, Recovery)
      ensures !ok && unit == Collector ==> phase == Failed(old(phase).u, Some(want), Recovery)
    {
      hide Reaches, StepRequest, StepCollecting, StepAudit, StepCommit, StepReady, StepEnd, StepCleanup;
      var started: bool, state: Option<Instance>, inTime: bool := *, *, *;
      want := NOBODY;
      Note(StartIssued(unit, started));
      Note(Inspected(unit, state));
      if state.Some? && state.value.invocation != "" {
        want := state.value;
      }
      Note(InTime(inTime));
      ok := started && state.Some? && state.value.active == Active && inTime;
    }

    // Both units are found at rest, then the uploader is started.
    method Begin() returns (u: Instance, ok: bool, owned: map<Unit, Instance>, r: Result)
      requires Valid() && phase == START
      modifies this
      ensures Valid() && (ok ==> phase == At(AuditUploader, true, u, None, NOBODY) && owned == map[Uploader := u])
      ensures !ok ==> phase == Failing(owned, r) && r != Activated
    {
      hide Reaches, StepRequest, StepResponse, StepCollecting, StepAudit, StepCommit, StepReady, StepEnd,
           StepCleanup;
      u, ok, owned, r := NOBODY, false, map[], Unsafe;
      var first: Option<Instance>, second: Option<Instance>, prepared: bool := *, *, *;
      Note(Inspected(Uploader, first));
      if !first.Some? || !AtRest(first.value) {
        return;
      }
      Note(Inspected(Collector, second));
      if !second.Some? || !AtRest(second.value) {
        return;
      }
      Note(Prepared(prepared));
      if !prepared {
        return;
      }
      hide Step;
      u, ok := StartWorker(Uploader);
      owned, r := map[Uploader := u], Recovery;
    }

    /** Audits the uploader and sees it unchanged. */
    method Audit(u: Instance) returns (id: Option<Identity>, ok: bool)
      requires Valid() && phase == At(AuditUploader, true, u, None, NOBODY)
      modifies this
      ensures Valid() && (ok ==> id.Some? && phase == At(ComposeRequest, true, u, id, NOBODY))
      ensures !ok ==> phase == Failed(u, None, Unsafe)
    {
      hide Reaches, Step, Fail;
      id, ok := *, false;
      var got: Option<Instance> := *;
      NoteRequest(Audited(u.pid, id));
      if !id.Some? || id.value.pid != u.pid {
        return;
      }
      NoteRequest(Inspected(Uploader, got));
      ok := Unchanged(u, got);
    }

    /** Publishes the request of an unchanged installation. */
    method Publish(u: Instance, id: Option<Identity>) returns (ok: bool, r: Result)
      requires Valid() && phase == At(ComposeRequest, true, u, id, NOBODY)
      modifies this
      ensures Valid() && (ok ==> phase == At(PollUploader, true, u, id, NOBODY))
      ensures !ok ==> phase == Failed(u, None, r) && r != Activated
    {
      hide Reaches, Step, Fail;
      ok, r := false, Unsafe;
      var got: Option<Instance>, composed: bool, same: bool, denied: bool, written: bool := *, *, *, *, *;
      NoteRequest(Composed(composed));
      if !composed {
        return;
      }
      NoteRequest(Compared(same));
      if !same {
        return;
      }
      NoteRequest(Inspected(Uploader, got));
      if !Unchanged(u, got) {
        return;
      }
      NoteRequest(ProbesDenied(denied));
      if !denied {
        return;
      }
      NoteRequest(Published(RequestFile, written));
      ok, r := written, Recovery;
    }

    /** Waits for the uploader's response to the request. */
    method AwaitResponse(u: Instance, id: Option<Identity>, patience: nat) returns (ok: bool)
      requires Valid() && phase == At(PollUploader, true, u, id, NOBODY)
      modifies this
      ensures Valid() && phase == if ok then At(StartCollector, true, u, id, NOBODY) else Failed(u, None, Unsafe)
    {
      hide Reaches, Step, Fail;
      var left := patience;
      while true
        invariant Valid() && phase == At(PollUploader, true, u, id, NOBODY)
        decreases left
      {
        var got: Option<Instance>, denied: bool, response: Response := *, *, *;
        NoteResponse(Inspected(Uploader, got));
        if !Unchanged(u, got) {
          return false;
        }
        NoteResponse(ProbesDenied(denied));
        if !denied {
          return false;
        }
        NoteResponse(Responded(response));
        if response == Matching {
          return true;
        }
        if response != Missing {
          return false;
        }
        NoteResponse(Waited(left > 0));
        if left == 0 {
          return false;
        }
        left := left - 1;
      }
    }

    /** Waits until the captured collector itself reports that it is collecting. */
    method AwaitStatus(u: Instance, id: Option<Identity>, c: Instance, patience: nat) returns (ok: bool)
      requires Valid() && phase == At(AwaitCollector, true, u, id, c)
      modifies this
      ensures Valid() && phase ==
        if ok then At(FinishProbes, true, u, id, c) else Failed(u, Some(c), Unsafe)
    {
      hide Reaches, Step, Fail;
      var left := patience;
      while true
        invariant Valid() && phase == At(AwaitCollector, true, u, id, c)
        decreases left
      {
        var one: Option<Instance>, two: Option<Instance>, status: Status := *, *, *;
        NoteCollecting(Inspected(Collector, one));
        if !Unchanged(c, one) {
          return false;
        }
        NoteCollecting(Inspected(Uploader, two));
        if !Unchanged(u, two) {
          return false;
        }
        NoteCollecting(StatusRead(Collector, status));
        if status.Reported? && status.invocation == c.invocation {
          return status.state == Collecting;
        }
        if status.BadStatus? {
          return false;
        }
        NoteCollecting(Waited(left > 0));
        if left == 0 {
          return false;
        }
        left := left - 1;
      }
    }

    /** Finishes the probes and audits everything once more. */
    method FinalAudit(u: Instance, id: Option<Identity>, c: Instance) returns (ok: bool)
      requires Valid() && phase == At(FinishProbes, true, u, id, c) && id.Some?
      modifies this
      ensures Valid() && phase ==
        if ok then At(CheckUploader4, true, u, id, c) else Failed(u, Some(c), Unsafe)
    {
      hide Reaches, Step, Fail;
      var probes: bool, same: bool, one: Option<Instance>, two: Option<Instance>, current: Option<Identity> := *,
        *, *, *, *;
      NoteAudit(ProbesFinished(probes));
      if !probes {
        return false;
      }
      NoteAudit(Compared(same));
      if !same {
        return false;
      }
      NoteAudit(Inspected(Uploader, one));
      if !Unchanged(u, one) {
        return false;
      }
      NoteAudit(Inspected(Collector, two));
      if !Unchanged(c, two) {
        return false;
      }
      NoteCommit(Audited(u.pid, current));
      ok := current.Some? && current == id;
    }

    /** Looks at both workers and publishes the commit. */
    method Commit(u: Instance, id: Option<Identity>, c: Instance) returns (ok: bool, r: Result)
      requires Valid() && phase == At(CheckUploader4, true, u, id, c)
      modifies this
      ensures Valid() && (ok ==> phase == At(ReadyUploader, true, u, id, c))
      ensures !ok ==> phase == Failed(u, Some(c), r) && r != Activated
    {
      hide Reaches, Step, Fail;
      ok, r := false, Unsafe;
      var one: Option<Instance>, two: Option<Instance>, composed: bool, written: bool := *, *, *, *;
      NoteCommit(Inspected(Uploader, one));
      if !Unchanged(u, one) {
        return;
      }
      NoteCommit(Inspected(Collector, two));
      if !Unchanged(c, two) {
        return;
      }
      NoteCommit(Composed(composed));
      if !composed {
        return;
      }
      NoteCommit(Published(CommitFile, written));
      ok, r := written, Recovery;
    }

    /** Waits for the uploader to be admitted. */
    method AwaitAdmission(u: Instance, id: Option<Identity>, c: Instance, patience: nat) returns (ok: bool)
      requires Valid() && phase == At(ReadyUploader, true, u, id, c)
      modifies this
      ensures Valid() && phase ==
        if ok then At(LastTime, true, u, id, c) else Failed(u, Some(c), Unsafe)
    {
      hide Reaches, Step, Fail;
      var left := patience;
      while true
        invariant Valid() && phase == At(ReadyUploader, true, u, id, c)
        decreases left
      {
        var one: Option<Instance>, two: Option<Instance>, status: Status := *, *, *;
        NoteReady(Inspected(Uploader, one));
        if !Unchanged(u, one) {
          return false;
        }
        NoteReady(Inspected(Collector, two));
        if !Unchanged(c, two) {
          return false;
        }
        NoteReady(StatusRead(Uploader, status));
        if status.Reported? && status.invocation == u.invocation {
          if status.state == Admitted {
            return true;
          }
          if status.state != StoppedStatus {
            return false;
          }
        }
        if status.BadStatus? {
          return false;
        }
        NoteReady(Waited(left > 0));
        if left == 0 {
          return false;
        }
        left := left - 1;
      }
    }

    // The status may be stale by now: both workers are looked at once more.
    method LastLook(u: Instance, id: Option<Identity>, c: Instance) returns (ok: bool)
      requires Valid() && phase == At(LastTime, true, u, id, c)
      modifies this
      ensures Valid() && phase ==
        if ok then Over(Activated, Kept, Kept) else Failed(u, Some(c), Unsafe)
    {
      hide Reaches, Step, Fail;
      var before: bool, one: Option<Instance>, two: Option<Instance>, after: bool := *, *, *, *;
      NoteEnd(InTime(before));
      if !before {
        return false;
      }
      NoteEnd(Inspected(Uploader, one));
      if !Unchanged(u, one) {
        return false;
      }
      NoteEnd(Inspected(Collector, two));
      if !Unchanged(c, two) {
        return false;
      }
      NoteEnd(InTime(after));
      ok := after;
    }

    // The collector, from its start to the commit and the uploader's admission.
    method RunCollector(u: Instance, id: Option<Identity>, patience: nat)
      returns (ok: bool, owned: map<Unit, Instance>, r: Result)
      requires Valid() && phase == At(StartCollector, true, u, id, NOBODY) && id.Some?
      modifies this
      ensures Valid() && phase == if ok then Over(Activated, Kept, Kept) else Failing(owned, r)
      ensures !ok ==> r != Activated
    {
      hide Reaches, Step;
      var c;
      c, ok := StartWorker(Collector);
      owned, r := map[Uploader := u, Collector := c], Recovery;
      if !ok {
        return;
      }
      r := Unsafe;
      ok := AwaitStatus(u, id, c, patience);
      if !ok {
        return;
      }
      ok := FinalAudit(u, id, c);
      if !ok {
        return;
      }
      ok, r := Commit(u, id, c);
      if !ok {
        return;
      }
      r := Unsafe;
      ok := AwaitAdmission(u, id, c, patience);
      if !ok {
        return;
      }
      ok := LastLook(u, id, c);
    }

    /** Stops a started unit, but only the invocation that was captured for it and is
        the last one seen. */
    method StopCaptured(unit: Unit, want: Instance) returns (ok: bool)
      requires Valid() && phase.Stopping? && phase.unit == unit && phase.want == want
      modifies this
      ensures Valid() && phase == CleanedUp(old(phase), if ok then Rests else Unstopped)
    {
      hide Reaches, CleanedUp, StepBegin, StepRequest, StepResponse, StepCollecting, StepAudit, StepCommit,
           StepReady, StepEnd;
      var got: Option<Instance> := *;
      Note(Inspected(unit, got));
      if !got.Some? {
        return false;
      }
      if AtRest(got.value) {
        return true;
      }
      if !SameInvocation(want, got.value) {
        return false;
      }
      var stopped: bool, joined: Option<Instance> := *, *;
      SameCleaned(old(phase), phase);
      Note(StopIssued(unit, stopped));
      if !stopped {
        return false;
      }
      SameCleaned(old(phase), phase);
      Note(Inspected(unit, joined));
      ok := joined.Some? && joined.value.pid == 0 && joined.value.active == Inactive;
    }

    // From the audited uploader to the end.
    method Exchange(u: Instance, patience: nat) returns (ok: bool, owned: map<Unit, Instance>, r: Result)
      requires Valid() && phase == At(AuditUploader, true, u, None, NOBODY)
      modifies this
      ensures Valid() && phase == if ok then Over(Activated, Kept, Kept) else Failing(owned, r)
      ensures !ok ==> r != Activated
    {
      hide Reaches, Step;
      owned, r := map[Uploader := u], Unsafe;
      var id;
      id, ok := Audit(u);
      if !ok {
        return;
      }
      ok, r := Publish(u, id);
      if !ok {
        return;
      }
      r := Unsafe;
      ok := AwaitResponse(u, id, patience);
      if !ok {
        return;
      }
      ok, owned, r := RunCollector(u, id, patience);
    }

    /** The whole transaction: exactly a run of the automaton, cleanup included. */
    method Activate(patience: nat) returns (r: Result)
      requires Valid() && phase == START
      modifies this
      ensures Valid() && phase.Over? && phase.result == r
    {
      hide Reaches, Step;
      var u, ok, owned;
      u, ok, owned, r := Begin();
      if ok {
        ok, owned, r := Exchange(u, patience);
        if ok {
          return Activated;
        }
      }
      if Uploader in owned {
        ok := StopCaptured(Uploader, owned[Uploader]);
        if !ok {
          r := Recovery;
        }
        if Collector in owned {
          ok := StopCaptured(Collector, owned[Collector]);
          if !ok {
            r := Recovery;
          }
        }
      }
    }
  }
}
