/** What every run of the activation keeps: a commit and a success are earned, each
    unit is started once, only captured invocations are stopped, a failure stops what
    it started, recovery has a cause, and a fair run succeeds. */
module ActivationSafety {
  import opened ActionTypes
  import opened Activation

  // ---------- events in order ----------

  // The events of p happened in this order, others perhaps between them.
  ghost predicate Sub(p: seq<Event>, log: seq<Event>)
    decreases |log|
  {
    p == [] ||
    (log != [] &&
     var front, last := log[..|log| - 1], log[|log| - 1];
     Sub(p, front) || (p[|p| - 1] == last && Sub(p[..|p| - 1], front)))
  }

  lemma SubGrows(p: seq<Event>, log: seq<Event>, e: Event)
    requires Sub(p, log)
    ensures Sub(p, log + [e])
  {
    assert (log + [e])[..|log|] == log;
  }

  lemma SubAdds(p: seq<Event>, log: seq<Event>, e: Event)
    requires Sub(p, log)
    ensures Sub(p + [e], log + [e])
  {
    assert (log + [e])[..|log|] == log && (p + [e])[..|p|] == p;
  }

  lemma {:induction false} SubPrefix(p: seq<Event>, n: nat, log: seq<Event>)
    requires Sub(p, log) && n <= |p|
    ensures Sub(p[..n], log)
    decreases |log|
  {
    if n == |p| {
      assert p[..n] == p;
    } else if p != [] {
      var front := log[..|log| - 1];
      if Sub(p, front) {
        SubPrefix(p, n, front);
      } else {
        SubPrefix(p[..|p| - 1], n, front);
        assert p[..|p| - 1][..n] == p[..n];
      }
    }
  }

  ghost predicate EndsWith(log: seq<Event>, tail: seq<Event>) {
    |tail| <= |log| && log[|log| - |tail|..] == tail
  }

  // ---------- what a commit and a success have behind them ----------

  // Everything a successful run does after finding both units at rest, repeated polls left out.
  function Course(u: Instance, id: Option<Identity>, c: Instance, i: nat): Event {
    match i
    case 0 => Prepared(true)
    case 1 => StartIssued(Uploader, true)
    case 2 => Inspected(Uploader, Some(u))
    case 3 => InTime(true)
    case 4 => Audited(u.pid, id)
    case 5 => Inspected(Uploader, Some(u))
    case 6 => Composed(true)
    case 7 => Compared(true)
    case 8 => Inspected(Uploader, Some(u))
    case 9 => ProbesDenied(true)
    case 10 => Published(RequestFile, true)
    case 11 => Inspected(Uploader, Some(u))
    case 12 => ProbesDenied(true)
    case 13 => Responded(Matching)
    case 14 => StartIssued(Collector, true)
    case 15 => Inspected(Collector, Some(c))
    case 16 => InTime(true)
    case 17 => Inspected(Collector, Some(c))
    case 18 => Inspected(Uploader, Some(u))
    case 19 => StatusRead(Collector, Reported(c.invocation, Collecting))
    case 20 => ProbesFinished(true)
    case 21 => Compared(true)
    case 22 => Inspected(Uploader, Some(u))
    case 23 => Inspected(Collector, Some(c))
    case 24 => Audited(u.pid, id)
    case 25 => Inspected(Uploader, Some(u))
    case 26 => Inspected(Collector, Some(c))
    case 27 => Composed(true)
    case 28 => Published(CommitFile, true)
    case 29 => Inspected(Uploader, Some(u))
    case 30 => Inspected(Collector, Some(c))
    case 31 => StatusRead(Uploader, Reported(u.invocation, Admitted))
    case 32 => InTime(true)
    case 33 => Inspected(Uploader, Some(u))
    case 34 => Inspected(Collector, Some(c))
    case _ => InTime(true)
  }

  // Its first n events.
  function Done(u: Instance, id: Option<Identity>, c: Instance, n: nat): seq<Event> {
    if n == 0 then [] else Done(u, id, c, n - 1) + [Course(u, id, c, n - 1)]
  }

  // The beginning of the course does not depend on what is captured later.
  lemma {:induction false} DoneSame(p: Phase, q: Phase, n: nat)
    requires p.At? && q.At? && (n <= 2 || p.u == q.u) && (n <= 4 || p.id == q.id) && (n <= 15 || p.c == q.c)
    ensures Done(p.u, p.id, p.c, n) == Done(q.u, q.id, q.c, n)
  {
    if n > 0 { DoneSame(p, q, n - 1); }
  }

  const COMMITTING: nat := 28
  const COMPLETE: nat := 36

  // How much of the course a stage has behind it.
  function Index(s: Stage): nat
    ensures Index(s) < COMPLETE
  {
    match s
    case LookUploader => 0
    case LookCollector => 0
    case Preparing => 0
    case StartUploader => 1
    case CaptureUploader => 2
    case ConfirmUploader => 3
    case AuditUploader => 4
    case CheckUploader => 5
    case ComposeRequest => 6
    case CompareFirst => 7
    case CheckUploader2 => 8
    case DenyFirst => 9
    case PublishRequest => 10
    case PollUploader => 11
    case PollDenied => 12
    case PollResponse => 13
    case PollWait => 11
    case StartCollector => 14
    case CaptureCollector => 15
    case ConfirmCollector => 16
    case AwaitCollector => 17
    case AwaitUploader => 18
    case AwaitStatus => 19
    case AwaitWait => 17
    case FinishProbes => 20
    case CompareAgain => 21
    case CheckUploader3 => 22
    case CheckCollector => 23
    case AuditAgain => 24
    case CheckUploader4 => 25
    case CheckCollector2 => 26
    case ComposeCommit => 27
    case PublishCommit => 28
    case ReadyUploader => 29
    case ReadyCollector => 30
    case ReadyStatus => 31
    case ReadyWait => 29
    case LastTime => 32
    case LastUploader => 33
    case LastCollector => 34
    case LastTime2 => 35
  }

  // The starts so far were reported well and their invocations seen.
  predicate Straight(p: Phase)
    requires p.At?
  {
    var n := Index(p.stage);
    && (n == 2 || n == 3 || n == 15 || n == 16 ==> p.started)
    && (n >= 3 ==> p.u.invocation != "") && (n >= 16 ==> p.c.invocation != "")
  }

  // Past its first check a captured worker is an active one.
  predicate Solid(p: Phase)
    requires p.At?
  {
    && (Index(p.stage) >= 6 ==> p.u.active == Active) && (p.u.active == Active ==> p.u.invocation != "")
    && (Index(p.stage) >= 18 || p.stage == AwaitWait ==> p.c.active == Active)
    && (p.c.active == Active ==> p.c.invocation != "")
  }

  // A step of the main sequence adds the course's next event, or begins a poll again.
  ghost predicate Forward(p: Phase, e: Event, q: Phase)
    requires p.At? && q.At?
  {
    var n := Index(p.stage);
    && (|| (Index(q.stage) == n + 1 && e == Course(q.u, q.id, q.c, n))
        || (Index(q.stage) <= n && q.u == p.u && q.id == p.id && q.c == p.c))
    && (n <= 2 || p.u == q.u) && (n <= 4 || p.id == q.id) && (n <= 15 || p.c == q.c) && Straight(p)
  }

  ghost predicate Advances(p: Phase, e: Event, q: Option<Phase>)
    requires p.At?
  {
    q.Some? && q.value.At? ==> Solid(q.value) && (Straight(q.value) ==> Forward(p, e, q.value))
  }

  lemma FailsAway(p: Phase)
    requires p.At?
    ensures forall r :: !Fail(p, r).At? && (r != Activated ==> Fail(p, r) != Over(Activated, Kept, Kept))
  {
  }

  lemma BeginAdvances(p: Phase, e: Event)
    requires p.At? && Solid(p)
    ensures PartOf(p.stage) == Beginning ==> Advances(p, e, StepBegin(p, e))
  {
    hide Fail;
    FailsAway(p);
  }

  lemma RequestAdvances(p: Phase, e: Event)
    requires p.At? && Solid(p)
    ensures PartOf(p.stage) == Requesting ==> Advances(p, e, StepRequest(p, e))
  {
    hide Fail;
    FailsAway(p);
  }

  lemma ResponseAdvances(p: Phase, e: Event)
    requires p.At? && Solid(p)
    ensures PartOf(p.stage) == Responding ==> Advances(p, e, StepResponse(p, e))
  {
    hide Fail;
    FailsAway(p);
  }

  lemma CollectingAdvances(p: Phase, e: Event)
    requires p.At? && Solid(p)
    ensures PartOf(p.stage) == Awaiting ==> Advances(p, e, StepCollecting(p, e))
  {
    hide Fail;
    FailsAway(p);
  }

  lemma AuditAdvances(p: Phase, e: Event)
    requires p.At? && Solid(p)
    ensures PartOf(p.stage) == Auditing ==> Advances(p, e, StepAudit(p, e))
  {
    hide Fail;
    FailsAway(p);
  }

  lemma CommitAdvances(p: Phase, e: Event)
    requires p.At? && Solid(p)
    ensures PartOf(p.stage) == Committing ==> Advances(p, e, StepCommit(p, e))
  {
    hide Fail;
    FailsAway(p);
  }

  lemma ReadyAdvances(p: Phase, e: Event)
    requires p.At? && Solid(p)
    ensures PartOf(p.stage) == Readying ==> Advances(p, e, StepReady(p, e))
  {
    hide Fail;
    FailsAway(p);
  }

  lemma EndAdvances(p: Phase, e: Event)
    requires p.At? && Solid(p)
    ensures PartOf(p.stage) == Ending ==> Advances(p, e, StepEnd(p, e))
  {
    hide Fail;
    FailsAway(p);
  }

  lemma MainAdvances(p: Phase, e: Event)
    requires p.At? && Solid(p)
    ensures Advances(p, e, StepMain(p, e))
  {
    hide Advances, StepBegin, StepRequest, StepResponse, StepCollecting, StepAudit, StepCommit, StepReady, StepEnd,
         Solid, PartOf;
    BeginAdvances(p, e);
    RequestAdvances(p, e);
    ResponseAdvances(p, e);
    CollectingAdvances(p, e);
    AuditAdvances(p, e);
    CommitAdvances(p, e);
    ReadyAdvances(p, e);
    EndAdvances(p, e);
  }

  // The looks directly behind a stage.
  ghost predicate Tail(p: Phase, log: seq<Event>)
    requires p.At?
  {
    var look, both := [Inspected(Uploader, Some(p.u))],
      [Inspected(Uploader, Some(p.u)), Inspected(Collector, Some(p.c))];
    match p.stage
    case CheckCollector2 => EndsWith(log, look)
    case ComposeCommit => EndsWith(log, both)
    case PublishCommit => EndsWith(log, both + [Composed(true)])
    case LastCollector => EndsWith(log, look)
    case LastTime2 => EndsWith(log, both)
    case _ => true
  }

  lemma EndsAdd(log: seq<Event>, tail: seq<Event>, e: Event)
    ensures EndsWith(log, tail) || tail == [] ==> EndsWith(log + [e], tail + [e])
  {
    var all, n := log + [e], |log| - |tail|;
    if EndsWith(log, tail) { assert all[n..] == log[n..] + [e]; } else if tail == [] { assert all[n..] == [e]; }
  }

  // What leads to each of those stages.
  ghost predicate Led(p: Phase, e: Event, q: Phase)
    requires p.At? && q.At?
  {
    && q.u == p.u && q.c == p.c
    && (q.stage in {CheckCollector2, LastCollector} ==> e == Inspected(Uploader, Some(p.u)))
    && (q.stage == ComposeCommit ==> p.stage == CheckCollector2 && e == Inspected(Collector, Some(p.c)))
    && (q.stage == PublishCommit ==> p.stage == ComposeCommit && e == Composed(true))
    && (q.stage == LastTime2 ==> p.stage == LastCollector && e == Inspected(Collector, Some(p.c)))
  }

  lemma CommitLeads(p: Phase, e: Event)
    requires p.At? && PartOf(p.stage) == Committing
    ensures var q := StepCommit(p, e); q.Some? && q.value.At? ==> Led(p, e, q.value)
  {
    hide Fail;
    FailsAway(p);
  }

  lemma EndLeads(p: Phase, e: Event)
    requires p.At? && PartOf(p.stage) == Ending
    ensures var q := StepEnd(p, e); q.Some? && q.value.At? ==> Led(p, e, q.value)
  {
    hide Fail;
    FailsAway(p);
  }

  lemma LedTails(p: Phase, log: seq<Event>, e: Event, q: Phase)
    requires p.At? && q.At? && Tail(p, log) && Led(p, e, q)
    ensures Tail(q, log + [e])
  {
    hide EndsWith;
    var look, both := [Inspected(Uploader, Some(p.u))],
      [Inspected(Uploader, Some(p.u)), Inspected(Collector, Some(p.c))];
    EndsAdd(log, [], e);
    EndsAdd(log, look, e);
    EndsAdd(log, both, e);
    assert [] + [e] == [e];
    assert look + [Inspected(Collector, Some(p.c))] == both;
  }

  // No other part leads to a stage with such a tail.
  lemma OtherTails(p: Phase, e: Event)
    requires p.At? && PartOf(p.stage) != Committing && PartOf(p.stage) != Ending
    ensures var q := StepMain(p, e); q.Some? && q.value.At? ==>
      q.value.stage !in {CheckCollector2, ComposeCommit, PublishCommit, LastCollector, LastTime2}
  {
    hide Fail;
    FailsAway(p);
  }

  // The course so far, in order.
  ghost predicate OnCourse(p: Phase, log: seq<Event>) {
    match p
    case At(_, _, _, _, _) =>
      && Solid(p) && Tail(p, log) && (Straight(p) ==> Sub(Done(p.u, p.id, p.c, Index(p.stage)), log))
    case Over(r, _, _) => r == Activated ==> Succeeded(log)
    case _ => p.result != Activated
  }

  // Success: the whole course in order, ending with both captured workers seen unchanged in time.
  ghost predicate Succeeded(log: seq<Event>) {
    exists u, id, c ::
      && Worker(u) && Worker(c) && Sub(Done(u, id, c, COMPLETE), log)
      && EndsWith(log, [Inspected(Uploader, Some(u)), Inspected(Collector, Some(c)), InTime(true)])
  }

  predicate Worker(i: Instance) {
    i.active == Active && i.invocation != ""
  }

  lemma StepTails(p: Phase, log: seq<Event>, e: Event)
    requires p.At? && Tail(p, log) && StepMain(p, e).Some? && StepMain(p, e).value.At?
    ensures Tail(StepMain(p, e).value, log + [e])
  {
    if PartOf(p.stage) == Committing {
      hide StepCommit, Tail, Led;
      CommitLeads(p, e);
      LedTails(p, log, e, StepMain(p, e).value);
    } else if PartOf(p.stage) == Ending {
      hide StepEnd, Tail, Led;
      EndLeads(p, e);
      LedTails(p, log, e, StepMain(p, e).value);
    } else {
      hide StepMain;
      OtherTails(p, e);
    }
  }

  lemma StepOnCourse(p: Phase, log: seq<Event>, e: Event)
    requires p.At? && OnCourse(p, log) && StepMain(p, e).Some? && StepMain(p, e).value.At?
    ensures OnCourse(StepMain(p, e).value, log + [e])
  {
    hide StepMain, Tail, Sub, Solid, Straight, Done, Course, Index;
    var q := StepMain(p, e).value;
    MainAdvances(p, e);
    StepTails(p, log, e);
    if Straight(q) {
      var n := Index(p.stage);
      DoneSame(p, q, n);
      SubGrows(Done(p.u, p.id, p.c, n), log, e);
      SubAdds(Done(p.u, p.id, p.c, n), log, e);
      DoneMore(q, n);
      DonePrefix(q, Index(q.stage), n, log + [e]);
    }
  }

  lemma DoneMore(q: Phase, n: nat)
    requires q.At?
    ensures Done(q.u, q.id, q.c, n + 1) == Done(q.u, q.id, q.c, n) + [Course(q.u, q.id, q.c, n)]
  {
  }

  lemma {:induction false} DoneLength(q: Phase, m: nat, n: nat)
    requires q.At? && m <= n
    ensures |Done(q.u, q.id, q.c, n)| == n && Done(q.u, q.id, q.c, n)[..m] == Done(q.u, q.id, q.c, m)
    decreases n
  {
    hide Course;
    if m == n {
      if n > 0 { DoneLength(q, n - 1, n - 1); }
    } else {
      DoneLength(q, m, n - 1);
    }
  }

  lemma DonePrefix(q: Phase, m: nat, n: nat, log: seq<Event>)
    requires q.At?
    ensures m <= n && Sub(Done(q.u, q.id, q.c, n), log) ==> Sub(Done(q.u, q.id, q.c, m), log)
  {
    hide Sub, Done;
    if m <= n && Sub(Done(q.u, q.id, q.c, n), log) {
      DoneLength(q, m, n);
      SubPrefix(Done(q.u, q.id, q.c, n), m, log);
    }
  }

  lemma EndSucceeds(p: Phase, log: seq<Event>, e: Event)
    requires p.At? && OnCourse(p, log) && PartOf(p.stage) == Ending
    requires StepEnd(p, e).Some? && StepEnd(p, e).value.Over? && StepEnd(p, e).value.result == Activated
    ensures Succeeded(log + [e])
  {
    hide Sub, Done, Course, Fail;
    FailsAway(p);
    FailsNot(p);
    assert p.stage == LastTime2 && e == InTime(true);
    DoneMore(p, 35);
    CourseEnds(p);
    SubAdds(Done(p.u, p.id, p.c, 35), log, e);
    assert (log + [e])[|log| - 2..] == log[|log| - 2..] + [e];
    assert Worker(p.u) && Worker(p.c);
  }

  lemma CourseEnds(p: Phase)
    requires p.At?
    ensures Course(p.u, p.id, p.c, 35) == InTime(true)
  {
  }

  lemma FailsNot(p: Phase)
    requires p.At?
    ensures forall r :: Fail(p, r).Over? ==> Fail(p, r).result == r
    ensures forall r :: !Fail(p, r).Over? ==> (Fail(p, r).Stopping? && Fail(p, r).result == r)
  {
  }

  lemma StepEndsCourse(p: Phase, log: seq<Event>, e: Event)
    requires OnCourse(p, log) && Step(p, e).Some? && !Step(p, e).value.At?
    ensures OnCourse(Step(p, e).value, log + [e])
  {
    hide Sub, Done, Course, Solid, Tail, Straight, Succeeded;
    if p.At? && PartOf(p.stage) == Ending {
      hide StepEnd;
      EndsOrFails(p, e);
      if StepEnd(p, e).value.Over? && StepEnd(p, e).value.result == Activated { EndSucceeds(p, log, e); }
    } else if p.At? {
      NoEarlyEnd(p, e);
    }
  }

  lemma EndsOrFails(p: Phase, e: Event)
    requires p.At? && StepEnd(p, e).Some? && !StepEnd(p, e).value.At?
    ensures var q := StepEnd(p, e).value; q.Over? || q.result != Activated
  {
    hide Fail;
    FailsNot(p);
  }

  lemma NoEarlyEnd(p: Phase, e: Event)
    requires p.At? && PartOf(p.stage) != Ending && StepMain(p, e).Some? && !StepMain(p, e).value.At?
    ensures StepMain(p, e).value.result != Activated
  {
    hide Fail;
    FailsNot(p);
  }

  lemma {:induction false} RunOnCourse(log: seq<Event>, p: Phase)
    requires Reaches(log, p)
    ensures OnCourse(p, log)
    decreases |log|
  {
    hide Reaches, Step, StepMain, OnCourse;
    if log == [] {
      Nothing(p);
      StartOnCourse();
    } else {
      var q, first, e := Back(log, p);
      RunOnCourse(first, q);
      if p.At? {
        OnlyMain(q, e);
        StepOnCourse(q, first, e);
      } else {
        StepEndsCourse(q, first, e);
      }
    }
  }

  lemma StartOnCourse()
    ensures OnCourse(START, [])
  {
  }

  // Cleaning up never returns to the main sequence.
  lemma OnlyMain(p: Phase, e: Event)
    requires Step(p, e).Some? && Step(p, e).value.At?
    ensures p.At? && Step(p, e) == StepMain(p, e)
  {
    hide StepMain;
  }

  /** A commit is published only after the whole course before it, in order: both
      starts with their captures, the audits, the request and its matching response,
      the captured collector's own COLLECTING status, the finished probes and the
      unchanged configuration, and directly before it both captured workers, active
      and unchanged. */
  lemma CommitIsEarned(log: seq<Event>, p: Phase, ok: bool)
    requires Reaches(log + [Published(CommitFile, ok)], p)
    ensures exists u, id, c ::
      && Worker(u) && Worker(c) && Sub(Done(u, id, c, COMMITTING), log)
      && EndsWith(log, [Inspected(Uploader, Some(u)), Inspected(Collector, Some(c)), Composed(true)])
  {
    hide Reaches, Sub, Done, Course;
    var q, first, e := Back(log + [Published(CommitFile, ok)], p);
    SameLast(first, e, log, Published(CommitFile, ok));
    OnlyCommits(q, ok);
    RunOnCourse(log, q);
    assert [Inspected(Uploader, Some(q.u)), Inspected(Collector, Some(q.c))] + [Composed(true)] ==
      [Inspected(Uploader, Some(q.u)), Inspected(Collector, Some(q.c)), Composed(true)];
    assert Worker(q.u) && Worker(q.c);
  }

  lemma OnlyCommits(p: Phase, ok: bool)
    requires Step(p, Published(CommitFile, ok)).Some?
    ensures p.At? && p.stage == PublishCommit
  {
    hide Fail;
  }

  /** Success is the whole course, in order, with both workers unchanged at its end. */
  lemma SuccessIsEarned(log: seq<Event>, p: Phase)
    requires Reaches(log, p) && p.Over? && p.result == Activated
    ensures Succeeded(log)
  {
    hide Reaches, Succeeded;
    RunOnCourse(log, p);
  }

  lemma SameLast(a: seq<Event>, x: Event, b: seq<Event>, y: Event)
    requires a + [x] == b + [y]
    ensures a == b && x == y
  {
    assert (a + [x])[|a|] == x && (b + [y])[|b|] == y && a == (a + [x])[..|a|] && b == (b + [y])[..|b|];
  }

  // ---------- starts and captures ----------

  ghost predicate StartedIn(log: seq<Event>, unit: Unit) {
    exists i :: 0 <= i < |log| && log[i].StartIssued? && log[i].unit == unit
  }

  ghost predicate StartsOnce(log: seq<Event>) {
    forall i, j :: 0 <= i < j < |log| && log[i].StartIssued? && log[j].StartIssued? ==> log[i].unit != log[j].unit
  }

  predicate Owns(p: Phase, unit: Unit) {
    match p
    case At(stage, _, _, _, _) => if unit == Uploader then UploaderOwned(stage) else CollectorOwned(stage)
    case Over(_, uploader, collector) => (if unit == Uploader then uploader else collector) != NeverStarted
    case _ => unit == Uploader || p.unit == Collector || p.next.Some?
  }

  ghost predicate Starts(p: Phase, log: seq<Event>) {
    && StartsOnce(log) && (forall unit :: StartedIn(log, unit) <==> Owns(p, unit))
    && (!p.At? && !p.Over? && p.unit == Collector ==> p.next.None? && p.uploader != NeverStarted)
    && (!p.At? && !p.Over? && p.unit == Uploader ==> p.uploader == NeverStarted)
  }

  // What one event does to what is owned.
  lemma StepOwns(p: Phase, e: Event)
    requires Step(p, e).Some?
    requires !p.At? && !p.Over? && p.unit == Collector ==> p.next.None? && p.uploader != NeverStarted
    requires !p.At? && !p.Over? && p.unit == Uploader ==> p.uploader == NeverStarted
    ensures var q := Step(p, e).value;
      && (forall unit :: Owns(q, unit) <==> Owns(p, unit) || (e.StartIssued? && e.unit == unit))
      && (e.StartIssued? ==> !Owns(p, e.unit) && p.At?)
      && (!q.At? && !q.Over? && q.unit == Collector ==> q.next.None? && q.uploader != NeverStarted)
      && (!q.At? && !q.Over? && q.unit == Uploader ==> q.uploader == NeverStarted)
  {
    if p.At? {
      hide StepMain;
      MainOwns(p, e);
    }
  }

  // How the main sequence moves on, fails or succeeds.
  ghost predicate Moves(p: Phase, e: Event, next: Option<Phase>)
    requires p.At?
  {
    next.Some? ==>
      var q := next.value;
      && !e.StopIssued? && (e.StartIssued? ==> !Owns(p, e.unit) && q.At?)
      && (if q.At? then
            && (forall unit :: Owns(q, unit) <==> Owns(p, unit) || (e.StartIssued? && e.unit == unit))
            && (q.stage == CaptureUploader <==> e.StartIssued? && e.unit == Uploader)
            && (q.stage == CaptureCollector <==> e.StartIssued? && e.unit == Collector)
            && (if p.stage == CaptureUploader then e.Inspected? && e.unit == Uploader && q.u == Captured(e.got)
               else q.u == p.u)
            && (if p.stage == CaptureCollector then e.Inspected? && e.unit == Collector && q.c == Captured(e.got)
               else q.c == p.c)
          else
            && p.stage != CaptureUploader && p.stage != CaptureCollector
            && (q == Fail(p, Unsafe) || q == Fail(p, Recovery) ||
               (q == Over(Activated, Kept, Kept) && CollectorOwned(p.stage))))
  }

  lemma BeginMoves(p: Phase, e: Event)
    requires p.At?
    ensures PartOf(p.stage) == Beginning ==> Moves(p, e, StepBegin(p, e))
  {
    hide Fail;
    FailsAway(p);
  }

  lemma RequestMoves(p: Phase, e: Event)
    requires p.At?
    ensures PartOf(p.stage) == Requesting ==> Moves(p, e, StepRequest(p, e))
  {
    hide Fail;
    FailsAway(p);
  }

  lemma ResponseMoves(p: Phase, e: Event)
    requires p.At?
    ensures PartOf(p.stage) == Responding ==> Moves(p, e, StepResponse(p, e))
  {
    hide Fail;
    FailsAway(p);
  }

  lemma CollectingMoves(p: Phase, e: Event)
    requires p.At?
    ensures PartOf(p.stage) == Awaiting ==> Moves(p, e, StepCollecting(p, e))
  {
    hide Fail;
    FailsAway(p);
  }

  lemma AuditMoves(p: Phase, e: Event)
    requires p.At?
    ensures PartOf(p.stage) == Auditing ==> Moves(p, e, StepAudit(p, e))
  {
    hide Fail;
    FailsAway(p);
  }

  lemma CommitMoves(p: Phase, e: Event)
    requires p.At?
    ensures PartOf(p.stage) == Committing ==> Moves(p, e, StepCommit(p, e))
  {
    hide Fail;
    FailsAway(p);
  }

  lemma ReadyMoves(p: Phase, e: Event)
    requires p.At?
    ensures PartOf(p.stage) == Readying ==> Moves(p, e, StepReady(p, e))
  {
    hide Fail;
    FailsAway(p);
  }

  lemma EndMoves(p: Phase, e: Event)
    requires p.At?
    ensures PartOf(p.stage) == Ending ==> Moves(p, e, StepEnd(p, e))
  {
    hide Fail;
    FailsAway(p);
  }

  lemma MainMoves(p: Phase, e: Event)
    requires p.At?
    ensures Moves(p, e, StepMain(p, e))
  {
    hide Moves, StepBegin, StepRequest, StepResponse, StepCollecting, StepAudit, StepCommit, StepReady, StepEnd, PartOf;
    BeginMoves(p, e);
    RequestMoves(p, e);
    ResponseMoves(p, e);
    CollectingMoves(p, e);
    AuditMoves(p, e);
    CommitMoves(p, e);
    ReadyMoves(p, e);
    EndMoves(p, e);
  }

  lemma MainOwns(p: Phase, e: Event)
    requires p.At? && StepMain(p, e).Some?
    ensures var q := StepMain(p, e).value;
      && (e.StartIssued? ==> !Owns(p, e.unit))
      && (q.At? ==> forall unit :: Owns(q, unit) <==> Owns(p, unit) || (e.StartIssued? && e.unit == unit))
      && (!q.At? ==> !e.StartIssued? && (q == Fail(p, Unsafe) || q == Fail(p, Recovery) ||
                                         (q == Over(Activated, Kept, Kept) && CollectorOwned(p.stage))))
  {
    hide Fail, StepMain, Owns, CollectorOwned;
    MainMoves(p, e);
  }

  lemma {:induction false} RunStarts(log: seq<Event>, p: Phase)
    requires Reaches(log, p)
    ensures Starts(p, log)
    decreases |log|
  {
    hide Reaches, Step, Owns;
    if log == [] {
      Nothing(p);
      NothingOwned();
    } else {
      var q, first, e := Back(log, p);
      RunStarts(first, q);
      StepOwns(q, e);
      StartsAdd(first, e);
    }
  }

  lemma NothingOwned()
    ensures forall unit :: !Owns(START, unit)
  {
  }

  lemma StartsAdd(log: seq<Event>, e: Event)
    requires StartsOnce(log) && (e.StartIssued? ==> !StartedIn(log, e.unit))
    ensures StartsOnce(log + [e])
    ensures forall unit :: StartedIn(log + [e], unit) <==> StartedIn(log, unit) || (e.StartIssued? && e.unit == unit)
  {
    var all := log + [e];
    assert all[|log|] == e;
    assert forall i :: 0 <= i < |log| ==> all[i] == log[i];
  }

  /** Each unit is started at most once in a run. */
  lemma StartedOnce(log: seq<Event>, p: Phase, i: nat, j: nat)
    requires Reaches(log, p) && i < |log| && j < |log| && log[i].StartIssued? && log[j].StartIssued?
    requires log[i].unit == log[j].unit
    ensures i == j
  {
    hide Reaches;
    RunStarts(log, p);
  }

  // The look directly after the unit's start saw this instance.
  ghost predicate CapturedIn(log: seq<Event>, unit: Unit, want: Instance) {
    exists i :: 0 <= i && i + 1 < |log| && CapturedAt(log, unit, want, i)
  }

  ghost predicate CapturedAt(log: seq<Event>, unit: Unit, want: Instance, i: nat)
    requires i + 1 < |log|
  {
    log[i].StartIssued? && log[i].unit == unit && log[i + 1] == Inspected(unit, Some(want))
  }

  // The instance owned for a unit is the one captured, if one was.
  ghost predicate Holds(log: seq<Event>, unit: Unit, want: Instance) {
    && (want.invocation != "" ==> CapturedIn(log, unit, want))
    && (forall w :: CapturedIn(log, unit, w) && w.invocation != "" ==> w == want)
  }

  predicate Capturing(p: Phase, unit: Unit) {
    p.At? && p.stage == if unit == Uploader then CaptureUploader else CaptureCollector
  }

  ghost predicate StartLast(log: seq<Event>, unit: Unit) {
    log != [] && log[|log| - 1].StartIssued? && log[|log| - 1].unit == unit
  }

  ghost predicate NoCapture(log: seq<Event>, unit: Unit) {
    forall w :: !CapturedIn(log, unit, w)
  }

  // What is known of one unit's capture in the main sequence.
  ghost predicate CapturesOf(p: Phase, log: seq<Event>, unit: Unit, want: Instance) {
    && (StartLast(log, unit) <==> Capturing(p, unit))
    && if Owns(p, unit) && !Capturing(p, unit) then Holds(log, unit, want) else NoCapture(log, unit)
  }

  ghost predicate Captures(p: Phase, log: seq<Event>) {
    match p
    case At(_, _, u, _, c) => CapturesOf(p, log, Uploader, u) && CapturesOf(p, log, Collector, c)
    case Over(_, _, _) => true
    case _ =>
      && !StartLast(log, Uploader) && !StartLast(log, Collector)
      && Holds(log, p.unit, p.want) && (p.next.Some? ==> Holds(log, Collector, p.next.value))
  }

  // Only a look at the unit directly after its start adds a capture.
  lemma CaptureAdds(log: seq<Event>, e: Event, unit: Unit, w: Instance)
    ensures CapturedIn(log + [e], unit, w) <==>
      CapturedIn(log, unit, w) || (e == Inspected(unit, Some(w)) && log != [] && log[|log| - 1].StartIssued? &&
                                   log[|log| - 1].unit == unit)
  {
    var all, n := log + [e], |log|;
    if i: nat :| i + 1 < |all| && CapturedAt(all, unit, w, i) {
      if i + 1 < n { assert CapturedAt(log, unit, w, i); }
    }
    if i: nat :| i + 1 < n && CapturedAt(log, unit, w, i) { assert CapturedAt(all, unit, w, i); }
    if e == Inspected(unit, Some(w)) && log != [] && log[n - 1].StartIssued? && log[n - 1].unit == unit {
      assert CapturedAt(all, unit, w, n - 1);
    }
  }

  lemma HoldsStill(log: seq<Event>, e: Event, unit: Unit, want: Instance)
    requires Holds(log, unit, want) && !StartLast(log, unit)
    ensures Holds(log + [e], unit, want)
  {
    hide CapturedIn;
    forall w ensures CapturedIn(log + [e], unit, w) <==> CapturedIn(log, unit, w) { CaptureAdds(log, e, unit, w); }
  }

  lemma NoneStill(log: seq<Event>, e: Event, unit: Unit)
    requires NoCapture(log, unit) && (!StartLast(log, unit) || !e.Inspected? || e.unit != unit)
    ensures NoCapture(log + [e], unit)
  {
    hide CapturedIn;
    forall w ensures !CapturedIn(log + [e], unit, w) { CaptureAdds(log, e, unit, w); }
  }

  lemma HoldsNow(log: seq<Event>, unit: Unit, got: Option<Instance>)
    requires NoCapture(log, unit) && StartLast(log, unit)
    ensures Holds(log + [Inspected(unit, got)], unit, Captured(got))
  {
    hide CapturedIn;
    var e := Inspected(unit, got);
    forall w ensures CapturedIn(log + [e], unit, w) <==> got == Some(w) { CaptureAdds(log, e, unit, w); }
  }

  lemma UnitCaptures(p: Phase, log: seq<Event>, e: Event, q: Phase, unit: Unit, want: Instance, want': Instance)
    requires p.At? && q.At? && CapturesOf(p, log, unit, want) && !e.StopIssued?
    requires Owns(q, unit) <==> Owns(p, unit) || (e.StartIssued? && e.unit == unit)
    requires e.StartIssued? && e.unit == unit ==> !Owns(p, unit)
    requires Capturing(q, unit) <==> e.StartIssued? && e.unit == unit
    requires if Capturing(p, unit) then e.Inspected? && e.unit == unit && want' == Captured(e.got) else want' == want
    requires Capturing(p, unit) ==> Owns(p, unit)
    ensures CapturesOf(q, log + [e], unit, want')
  {
    hide Owns, Capturing, Holds, NoCapture;
    assert (log + [e])[|log|] == e;
    if Capturing(p, unit) {
      HoldsNow(log, unit, e.got);
    } else if Owns(p, unit) {
      HoldsStill(log, e, unit, want);
    } else {
      NoneStill(log, e, unit);
    }
  }

  lemma MainCaptures(p: Phase, log: seq<Event>, e: Event)
    requires p.At? && Captures(p, log) && StepMain(p, e).Some?
    ensures Captures(StepMain(p, e).value, log + [e])
  {
    hide StepMain, CapturesOf, Holds, StartLast, Fail;
    var q := StepMain(p, e).value;
    MainMoves(p, e);
    CapturingOwns(p);
    if q.At? {
      UnitCaptures(p, log, e, q, Uploader, p.u, q.u);
      UnitCaptures(p, log, e, q, Collector, p.c, q.c);
    } else if !q.Over? {
      FailCaptures(p, log, e, q);
    }
  }

  lemma CapturingOwns(p: Phase)
    requires p.At?
    ensures forall unit :: Capturing(p, unit) ==> Owns(p, unit)
  {
  }

  lemma FailCaptures(p: Phase, log: seq<Event>, e: Event, q: Phase)
    requires p.At? && Captures(p, log) && !e.StartIssued? && p.stage != CaptureUploader && p.stage != CaptureCollector
    requires (q == Fail(p, Unsafe) || q == Fail(p, Recovery)) && !q.Over?
    ensures Captures(q, log + [e])
  {
    hide Holds, NoCapture;
    assert (log + [e])[|log|] == e;
    HoldsStill(log, e, Uploader, p.u);
    if CollectorOwned(p.stage) { HoldsStill(log, e, Collector, p.c); }
  }

  lemma CleanupCaptures(p: Phase, log: seq<Event>, e: Event)
    requires !p.At? && !p.Over? && Captures(p, log) && Step(p, e).Some?
    ensures Captures(Step(p, e).value, log + [e])
  {
    hide Holds;
    assert (log + [e])[|log|] == e;
    HoldsStill(log, e, p.unit, p.want);
    if p.next.Some? { HoldsStill(log, e, Collector, p.next.value); }
  }

  lemma {:induction false} RunCaptures(log: seq<Event>, p: Phase)
    requires Reaches(log, p)
    ensures Captures(p, log)
    decreases |log|
  {
    hide Reaches, StepMain, StepCleanup, Captures;
    if log == [] {
      Nothing(p);
      NothingCaptured();
    } else {
      var q, first, e := Back(log, p);
      RunCaptures(first, q);
      if q.At? { MainCaptures(q, first, e); } else { CleanupCaptures(q, first, e); }
    }
  }

  lemma NothingCaptured()
    ensures Captures(START, [])
  {
  }

  // ---------- stops ----------

  // The look just made is at the very invocation that was captured.
  ghost predicate Recognised(p: Phase, log: seq<Event>) {
    p.Issuing? ==>
      log != [] &&
      var last := log[|log| - 1];
      last.Inspected? && last.unit == p.unit && last.got.Some? && SameInvocation(p.want, last.got.value)
  }

  lemma RunRecognised(log: seq<Event>, p: Phase)
    requires Reaches(log, p)
    ensures Recognised(p, log)
  {
    hide Reaches, StepMain, Fail;
    if log == [] {
      Nothing(p);
    } else {
      var q, first, e := Back(log, p);
      if q.At? {
        MainMoves(q, e);
        FailsNot(q);
      }
    }
  }

  /** A stop is issued only to the invocation captured directly after the unit's own
      start, and only directly after a look that finds that invocation, and its
      process when one was captured. */
  lemma StopIsEarned(log: seq<Event>, p: Phase, unit: Unit, ok: bool)
    requires Reaches(log + [StopIssued(unit, ok)], p)
    ensures exists want, got ::
      && CapturedIn(log, unit, want) && SameInvocation(want, got)
      && log != [] && log[|log| - 1] == Inspected(unit, Some(got))
  {
    hide Reaches, StepMain, CapturedIn;
    var q, first, e := Back(log + [StopIssued(unit, ok)], p);
    SameLast(first, e, log, StopIssued(unit, ok));
    if q.At? {
      MainMoves(q, e);
      assert false;
    }
    RunRecognised(log, q);
    RunCaptures(log, q);
  }

  // ---------- what becomes of the started units ----------

  predicate About(e: Event, unit: Unit) {
    (e.Inspected? || e.StartIssued? || e.StopIssued?) && e.unit == unit
  }

  function LastAbout(log: seq<Event>, unit: Unit): Option<Event> {
    if log == [] then None
    else if About(log[|log| - 1], unit) then Some(log[|log| - 1])
    else LastAbout(log[..|log| - 1], unit)
  }

  lemma LastAdds(log: seq<Event>, e: Event, unit: Unit)
    ensures LastAbout(log + [e], unit) == if About(e, unit) then Some(e) else LastAbout(log, unit)
  {
    assert (log + [e])[..|log|] == log;
  }

  ghost predicate ToldToStop(log: seq<Event>, unit: Unit) {
    exists ok :: StopIssued(unit, ok) in log
  }

  // The last word on a unit, by its fate.
  ghost predicate FateMeans(log: seq<Event>, unit: Unit, fate: Fate) {
    var last := LastAbout(log, unit);
    match fate
    case NeverStarted => !StartedIn(log, unit)
    case Kept => true
    case Rests => last.Some? && last.value.Inspected? && last.value.got.Some? && AtRest(last.value.got.value)
    case Unstopped =>
      || ToldToStop(log, unit) || last == Some(Inspected(unit, None))
      || (last.Some? && last.value.Inspected? && last.value.got.Some? &&
          forall w :: CapturedIn(log, unit, w) ==> !SameInvocation(w, last.value.got.value))
  }

  ghost predicate Fates(p: Phase, log: seq<Event>) {
    match p
    case At(_, _, _, _, _) => true
    case Over(r, uploader, collector) =>
      && FateMeans(log, Uploader, uploader) && FateMeans(log, Collector, collector)
      && (r == Activated ==> uploader == Kept && collector == Kept)
      && (r != Activated ==> uploader != Kept && collector != Kept)
      && (r == Unsafe ==> uploader != Unstopped && collector != Unstopped)
    case _ =>
      && p.result != Activated && (p.Joining? ==> ToldToStop(log, p.unit))
      && (p.unit == Uploader && p.next.None? ==> !StartedIn(log, Collector))
      && (p.unit == Collector ==>
            && p.next.None? && FateMeans(log, Uploader, p.uploader) && p.uploader != Kept && p.uploader != NeverStarted
            && (p.uploader == Unstopped ==> p.result == Recovery))
  }

  // Another unit's events leave a fate alone.
  lemma FateStays(log: seq<Event>, e: Event, unit: Unit, fate: Fate)
    requires FateMeans(log, unit, fate) && !About(e, unit) && !StartLast(log, unit)
    ensures FateMeans(log + [e], unit, fate)
  {
    hide CapturedIn;
    LastAdds(log, e, unit);
    assert forall x :: x in log ==> x in log + [e];
    forall w ensures CapturedIn(log + [e], unit, w) <==> CapturedIn(log, unit, w) { CaptureAdds(log, e, unit, w); }
    if !StartedIn(log, unit) { NotStarted(log, e, unit); }
  }

  lemma NotStarted(log: seq<Event>, e: Event, unit: Unit)
    requires !StartedIn(log, unit) && !(e.StartIssued? && e.unit == unit)
    ensures !StartedIn(log + [e], unit)
  {
    assert forall i :: 0 <= i < |log| ==> (log + [e])[i] == log[i];
  }

  lemma FailFates(p: Phase, log: seq<Event>, e: Event, q: Phase)
    requires p.At? && Starts(p, log) && !e.StartIssued? && (q == Fail(p, Unsafe) || q == Fail(p, Recovery))
    ensures Fates(q, log + [e])
  {
    assert !StartedIn(log, Uploader) <==> !UploaderOwned(p.stage);
    assert !StartedIn(log, Collector) <==> !CollectorOwned(p.stage);
    if !UploaderOwned(p.stage) { NotStarted(log, e, Uploader); }
    if !CollectorOwned(p.stage) { NotStarted(log, e, Collector); }
  }

  lemma MainFates(p: Phase, log: seq<Event>, e: Event)
    requires p.At? && Starts(p, log) && StepMain(p, e).Some?
    ensures Fates(StepMain(p, e).value, log + [e])
  {
    hide StepMain, Starts, Fail, Owns;
    MainMoves(p, e);
    FailsAway(p);
    if StepMain(p, e).value == Fail(p, Unsafe) || StepMain(p, e).value == Fail(p, Recovery) {
      FailFates(p, log, e, StepMain(p, e).value);
    }
  }

  // How the cleanup of one unit ends.
  lemma UnitFate(p: Phase, log: seq<Event>, e: Event, fate: Fate)
    requires (p.Stopping? || p.Issuing? || p.Joining?) && Captures(p, log) && Fates(p, log)
    requires StepCleanup(p, e) == Some(CleanedUp(p, fate)) && (fate == Rests || fate == Unstopped) && About(e, p.unit)
    requires fate == Rests ==> e.Inspected? && e.got.Some? && AtRest(e.got.value)
    requires fate == Unstopped ==>
      p.Joining? || e.StopIssued? || (e.Inspected? && (e.got.None? || !SameInvocation(p.want, e.got.value)))
    ensures FateMeans(log + [e], p.unit, fate)
  {
    hide StepCleanup, CleanedUp, CapturedIn;
    LastAdds(log, e, p.unit);
    assert e in log + [e] && forall x :: x in log ==> x in log + [e];
    forall w ensures CapturedIn(log + [e], p.unit, w) <==>
      CapturedIn(log, p.unit, w) { CaptureAdds(log, e, p.unit, w); }
  }

  lemma StoppedFates(p: Phase, log: seq<Event>, e: Event, fate: Fate)
    requires (p.Stopping? || p.Issuing? || p.Joining?) && Captures(p, log) && Fates(p, log) && !e.StartIssued?
    requires About(e, p.unit) && FateMeans(log + [e], p.unit, fate) && (fate == Rests || fate == Unstopped)
    ensures Fates(CleanedUp(p, fate), log + [e])
  {
    hide FateMeans, Captures, ToldToStop;
    var other := if p.unit == Uploader then Collector else Uploader;
    if p.unit == Collector {
      NoStartLast(p, log, Uploader);
      FateStays(log, e, Uploader, p.uploader);
    } else if p.next.None? {
      NotStarted(log, e, Collector);
      NeverMeans(log + [e], Collector);
    }
  }

  lemma NeverMeans(log: seq<Event>, unit: Unit)
    requires !StartedIn(log, unit)
    ensures FateMeans(log, unit, NeverStarted)
  {
  }

  lemma NoStartLast(p: Phase, log: seq<Event>, unit: Unit)
    requires (p.Stopping? || p.Issuing? || p.Joining?) && Captures(p, log)
    ensures !StartLast(log, unit)
  {
    assert unit == Uploader || unit == Collector;
  }

  lemma CleanupFates(p: Phase, log: seq<Event>, e: Event)
    requires (p.Stopping? || p.Issuing? || p.Joining?) && Captures(p, log) && Fates(p, log) && StepCleanup(p, e).Some?
    ensures Fates(StepCleanup(p, e).value, log + [e])
  {
    hide FateMeans, Captures, CapturedIn;
    var q := StepCleanup(p, e).value;
    if q == CleanedUp(p, Rests) && e.Inspected? && e.got.Some? && AtRest(e.got.value) {
      UnitFate(p, log, e, Rests);
      StoppedFates(p, log, e, Rests);
    } else if q == CleanedUp(p, Unstopped) {
      UnitFate(p, log, e, Unstopped);
      StoppedFates(p, log, e, Unstopped);
    } else {
      GoesOnCleaning(p, log, e);
    }
  }

  lemma GoesOnCleaning(p: Phase, log: seq<Event>, e: Event)
    requires (p.Stopping? || p.Issuing? || p.Joining?) && Captures(p, log) && Fates(p, log) && StepCleanup(p, e).Some?
    requires var q := StepCleanup(p, e).value; q.Issuing? || (q.Joining? && p.Issuing?)
    ensures Fates(StepCleanup(p, e).value, log + [e])
  {
    hide FateMeans, Captures;
    assert e in log + [e];
    if p.unit == Collector {
      NoStartLast(p, log, Uploader);
      FateStays(log, e, Uploader, p.uploader);
    } else if p.next.None? {
      NotStarted(log, e, Collector);
    }
  }

  lemma {:induction false} RunFates(log: seq<Event>, p: Phase)
    requires Reaches(log, p)
    ensures Fates(p, log)
    decreases |log|
  {
    hide Reaches, StepMain, StepCleanup, Fates, Starts, Captures;
    if log == [] {
      Nothing(p);
      NoFates(log);
    } else {
      var q, first, e := Back(log, p);
      RunFates(first, q);
      if q.At? {
        RunStarts(first, q);
        MainFates(q, first, e);
      } else {
        RunCaptures(first, q);
        CleanupFates(q, first, e);
      }
    }
  }

  lemma NoFates(log: seq<Event>)
    ensures Fates(START, log)
  {
  }

  /** When a run is over without success, each unit it started was last seen at rest,
      or was told to stop, or could not be read, or was no longer the invocation
      captured; only in the first case, for every unit, is the failure plain, and in
      the others it asks for recovery. */
  lemma FailureStopsAll(log: seq<Event>, p: Phase, unit: Unit)
    requires Reaches(log, p) && p.Over? && p.result != Activated && StartedIn(log, unit)
    ensures FateMeans(log, unit, Rests) || (FateMeans(log, unit, Unstopped) && p.result == Recovery)
  {
    hide Reaches, FateMeans;
    RunFates(log, p);
    RunStarts(log, p);
    var fate := if unit == Uploader then p.uploader else p.collector;
    assert fate != NeverStarted;
  }

  // ---------- why recovery is asked for ----------

  // A start that was not confirmed: reported badly, not seen running, or too late.
  ghost predicate UnconfirmedAt(log: seq<Event>, i: nat) {
    && i + 2 < |log| && log[i].StartIssued? && log[i + 1].Inspected? && log[i + 2].InTime?
    && !(log[i].ok && Runs(log[i + 1].got) && log[i + 2].ok)
  }

  ghost predicate Unsettled(log: seq<Event>) {
    (exists d :: Published(d, false) in log) || (exists i :: UnconfirmedAt(log, i))
  }

  // What led to a start's confirmation.
  ghost predicate Confirming(p: Phase, log: seq<Event>) {
    match p
    case At(stage, started, _, _, _) =>
      var n := |log|;
      && (stage == CaptureUploader || stage == CaptureCollector ==>
            n >= 1 && log[n - 1].StartIssued? && (started <==> log[n - 1].ok))
      && (stage == ConfirmUploader || stage == ConfirmCollector ==>
            && n >= 2 && log[n - 2].StartIssued? && log[n - 1].Inspected?
            && (started <==> log[n - 2].ok && Runs(log[n - 1].got)))
    case Over(r, uploader, collector) =>
      r == Recovery ==> Unsettled(log) || uploader == Unstopped || collector == Unstopped
    case _ => p.result == Recovery ==> Unsettled(log) || (p.unit == Collector && p.uploader == Unstopped)
  }

  lemma UnsettledStill(log: seq<Event>, e: Event)
    requires Unsettled(log)
    ensures Unsettled(log + [e])
  {
    var all := log + [e];
    if i: nat :| UnconfirmedAt(log, i) {
      assert UnconfirmedAt(all, i);
    } else {
      var d :| Published(d, false) in log;
      assert Published(d, false) in all;
    }
  }

  // The two ways the main sequence asks for recovery.
  ghost predicate RecoversFor(p: Phase, e: Event, q: Option<Phase>)
    requires p.At?
  {
    && (q == Some(Fail(p, Recovery)) ==>
          || (e.Published? && !e.ok)
          || ((p.stage == ConfirmUploader || p.stage == ConfirmCollector) && e.InTime? && !(p.started && e.ok)))
    && (q.Some? && q.value.At? ==>
          && (q.value.stage == CaptureUploader || q.value.stage == CaptureCollector ==>
             e.StartIssued? && q.value.started == e.ok)
          && (q.value.stage == ConfirmUploader || q.value.stage == ConfirmCollector ==>
                && (p.stage == CaptureUploader || p.stage == CaptureCollector) && e.Inspected?
                && q.value.started == (p.started && Runs(e.got))))
  }

  lemma FailsApart(p: Phase)
    requires p.At?
    ensures Fail(p, Unsafe) != Fail(p, Recovery)
  {
  }

  lemma BeginRecovers(p: Phase, e: Event)
    requires p.At?
    ensures PartOf(p.stage) == Beginning ==> RecoversFor(p, e, StepBegin(p, e))
  {
    hide Fail;
    FailsAway(p);
    FailsApart(p);
  }

  lemma RequestRecovers(p: Phase, e: Event)
    requires p.At?
    ensures PartOf(p.stage) == Requesting ==> RecoversFor(p, e, StepRequest(p, e))
  {
    hide Fail;
    FailsAway(p);
    FailsApart(p);
  }

  lemma ResponseRecovers(p: Phase, e: Event)
    requires p.At?
    ensures PartOf(p.stage) == Responding ==> RecoversFor(p, e, StepResponse(p, e))
  {
    hide Fail;
    FailsAway(p);
    FailsApart(p);
  }

  lemma CollectingRecovers(p: Phase, e: Event)
    requires p.At?
    ensures PartOf(p.stage) == Awaiting ==> RecoversFor(p, e, StepCollecting(p, e))
  {
    hide Fail;
    FailsAway(p);
    FailsApart(p);
  }

  lemma AuditRecovers(p: Phase, e: Event)
    requires p.At?
    ensures PartOf(p.stage) == Auditing ==> RecoversFor(p, e, StepAudit(p, e))
  {
    hide Fail;
    FailsAway(p);
    FailsApart(p);
  }

  lemma CommitRecovers(p: Phase, e: Event)
    requires p.At?
    ensures PartOf(p.stage) == Committing ==> RecoversFor(p, e, StepCommit(p, e))
  {
    hide Fail;
    FailsAway(p);
    FailsApart(p);
  }

  lemma ReadyRecovers(p: Phase, e: Event)
    requires p.At?
    ensures PartOf(p.stage) == Readying ==> RecoversFor(p, e, StepReady(p, e))
  {
    hide Fail;
    FailsAway(p);
    FailsApart(p);
  }

  lemma EndRecovers(p: Phase, e: Event)
    requires p.At?
    ensures PartOf(p.stage) == Ending ==> RecoversFor(p, e, StepEnd(p, e))
  {
    hide Fail;
    FailsAway(p);
    FailsApart(p);
  }

  lemma MainRecovers(p: Phase, e: Event)
    requires p.At?
    ensures RecoversFor(p, e, StepMain(p, e))
  {
    hide RecoversFor, StepBegin, StepRequest, StepResponse, StepCollecting, StepAudit, StepCommit, StepReady, StepEnd,
         PartOf;
    BeginRecovers(p, e);
    RequestRecovers(p, e);
    ResponseRecovers(p, e);
    CollectingRecovers(p, e);
    AuditRecovers(p, e);
    CommitRecovers(p, e);
    ReadyRecovers(p, e);
    EndRecovers(p, e);
  }

  lemma MainConfirms(p: Phase, log: seq<Event>, e: Event)
    requires p.At? && Confirming(p, log) && StepMain(p, e).Some?
    ensures Confirming(StepMain(p, e).value, log + [e])
  {
    hide StepMain, Fail;
    var q, all := StepMain(p, e).value, log + [e];
    MainMoves(p, e);
    MainRecovers(p, e);
    FailsAway(p);
    FailsNot(p);
    assert all[|log|] == e && forall i :: 0 <= i < |log| ==> all[i] == log[i];
    if q == Fail(p, Recovery) {
      if e.Published? {
        assert Published(e.document, false) in all;
      } else {
        assert UnconfirmedAt(all, |log| - 2);
      }
    }
  }

  lemma CleanupConfirms(p: Phase, log: seq<Event>, e: Event)
    requires (p.Stopping? || p.Issuing? || p.Joining?) && Confirming(p, log) && StepCleanup(p, e).Some?
    ensures Confirming(StepCleanup(p, e).value, log + [e])
  {
    hide Unsettled;
    if Unsettled(log) { UnsettledStill(log, e); }
  }

  lemma {:induction false} RunConfirms(log: seq<Event>, p: Phase)
    requires Reaches(log, p)
    ensures Confirming(p, log)
    decreases |log|
  {
    hide Reaches, StepMain, StepCleanup, Confirming;
    if log == [] {
      Nothing(p);
      StartConfirms(log);
    } else {
      var q, first, e := Back(log, p);
      RunConfirms(first, q);
      if q.At? { MainConfirms(q, first, e); } else { CleanupConfirms(q, first, e); }
    }
  }

  lemma StartConfirms(log: seq<Event>)
    ensures Confirming(START, log)
  {
  }

  /** Recovery is asked for only over a start that was not confirmed, a document that
      could not be published, or a unit that could not be stopped. */
  lemma RecoveryHasCause(log: seq<Event>, p: Phase)
    requires Reaches(log, p) && p.Over? && p.result == Recovery
    ensures Unsettled(log) || p.uploader == Unstopped || p.collector == Unstopped
  {
    hide Reaches, Unsettled;
    RunConfirms(log, p);
  }

  // ---------- a run that succeeds ----------

  function Stages(i: nat): Stage {
    match i
    case 0 => Preparing
    case 1 => StartUploader
    case 2 => CaptureUploader
    case 3 => ConfirmUploader
    case 4 => AuditUploader
    case 5 => CheckUploader
    case 6 => ComposeRequest
    case 7 => CompareFirst
    case 8 => CheckUploader2
    case 9 => DenyFirst
    case 10 => PublishRequest
    case 11 => PollUploader
    case 12 => PollDenied
    case 13 => PollResponse
    case 14 => StartCollector
    case 15 => CaptureCollector
    case 16 => ConfirmCollector
    case 17 => AwaitCollector
    case 18 => AwaitUploader
    case 19 => AwaitStatus
    case 20 => FinishProbes
    case 21 => CompareAgain
    case 22 => CheckUploader3
    case 23 => CheckCollector
    case 24 => AuditAgain
    case 25 => CheckUploader4
    case 26 => CheckCollector2
    case 27 => ComposeCommit
    case 28 => PublishCommit
    case 29 => ReadyUploader
    case 30 => ReadyCollector
    case 31 => ReadyStatus
    case 32 => LastTime
    case 33 => LastUploader
    case 34 => LastCollector
    case _ => LastTime2
  }

  ghost predicate Midway(p: Phase, i: nat, u: Instance, id: Option<Identity>, c: Instance) {
    && p.At? && p.stage == Stages(i) && (i == 2 || i == 3 || i == 15 || i == 16 ==> p.started)
    && (i >= 3 ==> p.u == u) && (i >= 5 ==> p.id == id) && (i >= 16 ==> p.c == c)
  }

  lemma CourseBegins(p: Phase, i: nat, u: Instance, id: Option<Identity>, c: Instance)
    requires 0 <= i < 4 && Midway(p, i, u, id, c) && Worker(u) && Worker(c) && id.Some? && id.value.pid == u.pid
    ensures var q := StepBegin(p, Course(u, id, c, i)); q.Some? && Midway(q.value, i + 1, u, id, c)
    ensures StepMain(p, Course(u, id, c, i)) == StepBegin(p, Course(u, id, c, i))
  {
    hide Fail;
  }

  lemma CourseRequests(p: Phase, i: nat, u: Instance, id: Option<Identity>, c: Instance)
    requires 4 <= i < 11 && Midway(p, i, u, id, c) && Worker(u) && Worker(c) && id.Some? && id.value.pid == u.pid
    ensures var q := StepRequest(p, Course(u, id, c, i)); q.Some? && Midway(q.value, i + 1, u, id, c)
    ensures StepMain(p, Course(u, id, c, i)) == StepRequest(p, Course(u, id, c, i))
  {
    hide Fail;
  }

  lemma CourseResponds(p: Phase, i: nat, u: Instance, id: Option<Identity>, c: Instance)
    requires 11 <= i < 17 && Midway(p, i, u, id, c) && Worker(u) && Worker(c) && id.Some? && id.value.pid == u.pid
    ensures var q := StepResponse(p, Course(u, id, c, i)); q.Some? && Midway(q.value, i + 1, u, id, c)
    ensures StepMain(p, Course(u, id, c, i)) == StepResponse(p, Course(u, id, c, i))
  {
    hide Fail;
  }

  lemma CourseCollects(p: Phase, i: nat, u: Instance, id: Option<Identity>, c: Instance)
    requires 17 <= i < 20 && Midway(p, i, u, id, c) && Worker(u) && Worker(c) && id.Some? && id.value.pid == u.pid
    ensures var q := StepCollecting(p, Course(u, id, c, i)); q.Some? && Midway(q.value, i + 1, u, id, c)
    ensures StepMain(p, Course(u, id, c, i)) == StepCollecting(p, Course(u, id, c, i))
  {
    hide Fail;
  }

  lemma CourseAudits(p: Phase, i: nat, u: Instance, id: Option<Identity>, c: Instance)
    requires 20 <= i < 24 && Midway(p, i, u, id, c) && Worker(u) && Worker(c) && id.Some? && id.value.pid == u.pid
    ensures var q := StepAudit(p, Course(u, id, c, i)); q.Some? && Midway(q.value, i + 1, u, id, c)
    ensures StepMain(p, Course(u, id, c, i)) == StepAudit(p, Course(u, id, c, i))
  {
    hide Fail;
  }

  lemma CourseCommits(p: Phase, i: nat, u: Instance, id: Option<Identity>, c: Instance)
    requires 24 <= i < 29 && Midway(p, i, u, id, c) && Worker(u) && Worker(c) && id.Some? && id.value.pid == u.pid
    ensures var q := StepCommit(p, Course(u, id, c, i)); q.Some? && Midway(q.value, i + 1, u, id, c)
    ensures StepMain(p, Course(u, id, c, i)) == StepCommit(p, Course(u, id, c, i))
  {
    hide Fail;
  }

  lemma CourseReadies(p: Phase, i: nat, u: Instance, id: Option<Identity>, c: Instance)
    requires 29 <= i < 32 && Midway(p, i, u, id, c) && Worker(u) && Worker(c) && id.Some? && id.value.pid == u.pid
    ensures var q := StepReady(p, Course(u, id, c, i)); q.Some? && Midway(q.value, i + 1, u, id, c)
    ensures StepMain(p, Course(u, id, c, i)) == StepReady(p, Course(u, id, c, i))
  {
    hide Fail;
  }

  lemma CourseCloses(p: Phase, i: nat, u: Instance, id: Option<Identity>, c: Instance)
    requires 32 <= i < 35 && Midway(p, i, u, id, c) && Worker(u) && Worker(c) && id.Some? && id.value.pid == u.pid
    ensures var q := StepEnd(p, Course(u, id, c, i)); q.Some? && Midway(q.value, i + 1, u, id, c)
    ensures StepMain(p, Course(u, id, c, i)) == StepEnd(p, Course(u, id, c, i))
  {
    hide Fail;
  }

  lemma CourseSteps(p: Phase, i: nat, u: Instance, id: Option<Identity>, c: Instance)
    requires i < 35 && Midway(p, i, u, id, c) && Worker(u) && Worker(c) && id.Some? && id.value.pid == u.pid
    ensures var q := Step(p, Course(u, id, c, i)); q.Some? && Midway(q.value, i + 1, u, id, c)
  {
    hide Fail, Midway, Course, StepMain, StepBegin, StepRequest, StepResponse, StepCollecting, StepAudit, StepCommit,
         StepReady, StepEnd;
    assert p.At? by { MidwayAt(p, i, u, id, c); }
    if i < 4 {
      CourseBegins(p, i, u, id, c);
    } else if i < 11 {
      CourseRequests(p, i, u, id, c);
    } else if i < 17 {
      CourseResponds(p, i, u, id, c);
    } else if i < 20 {
      CourseCollects(p, i, u, id, c);
    } else if i < 24 {
      CourseAudits(p, i, u, id, c);
    } else if i < 29 {
      CourseCommits(p, i, u, id, c);
    } else if i < 32 {
      CourseReadies(p, i, u, id, c);
    } else {
      CourseCloses(p, i, u, id, c);
    }
  }

  lemma MidwayAt(p: Phase, i: nat, u: Instance, id: Option<Identity>, c: Instance)
    requires Midway(p, i, u, id, c)
    ensures p.At?
  {
  }

  /** For any two workers that start well and any identity of the uploader's process,
      a run in which every call answers well activates them. */
  lemma {:induction false} FairRunActivates(a: Instance, b: Instance, u: Instance, id: Identity, c: Instance)
    requires AtRest(a) && AtRest(b) && Worker(u) && Worker(c) && id.pid == u.pid
    ensures Reaches([Inspected(Uploader, Some(a)), Inspected(Collector, Some(b))] + Done(u, Some(id), c, COMPLETE),
                    Over(Activated, Kept, Kept))
  {
    hide Reaches, Course, Done, Step, Midway;
    var log: seq<Event>, p := [], START;
    Nothing(p);
    LooksFirst(a, b, u, Some(id), c);
    log, p := Move(log, p, Inspected(Uploader, Some(a)));
    log, p := Move(log, p, Inspected(Collector, Some(b)));
    var looks := log;
    assert looks == [Inspected(Uploader, Some(a)), Inspected(Collector, Some(b))];
    NoneDone(u, Some(id), c);
    for i := 0 to 35
      invariant log == looks + Done(u, Some(id), c, i) && Reaches(log, p) && Midway(p, i, u, Some(id), c)
    {
      CourseSteps(p, i, u, Some(id), c);
      MoreDone(u, Some(id), c, i);
      assert looks + Done(u, Some(id), c, i + 1) == looks + Done(u, Some(id), c, i) + [Course(u, Some(id), c, i)];
      log, p := Move(log, p, Course(u, Some(id), c, i));
    }
    LastStep(p, u, Some(id), c);
    MoreDone(u, Some(id), c, 35);
    assert looks + Done(u, Some(id), c, 36) == log + [Course(u, Some(id), c, 35)];
    log, p := Move(log, p, Course(u, Some(id), c, 35));
  }

  lemma LooksFirst(a: Instance, b: Instance, u: Instance, id: Option<Identity>, c: Instance)
    requires AtRest(a) && AtRest(b)
    ensures var p := Step(START, Inspected(Uploader, Some(a)));
      p.Some? && var q := Step(p.value, Inspected(Collector, Some(b))); q.Some? && Midway(q.value, 0, u, id, c)
  {
  }

  lemma NoneDone(u: Instance, id: Option<Identity>, c: Instance)
    ensures Done(u, id, c, 0) == []
  {
  }

  lemma MoreDone(u: Instance, id: Option<Identity>, c: Instance, n: nat)
    ensures Done(u, id, c, n + 1) == Done(u, id, c, n) + [Course(u, id, c, n)]
  {
  }

  lemma LastStep(p: Phase, u: Instance, id: Option<Identity>, c: Instance)
    requires Midway(p, 35, u, id, c)
    ensures Step(p, Course(u, id, c, 35)) == Some(Over(Activated, Kept, Kept))
  {
  }
}
