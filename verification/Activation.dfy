/** Activating the stopped worker pair: start the uploader, exchange a request and
    a response, start the collector, audit, publish the commit, and on any failure
    stop what was started. The service manager, the files and the clock may answer
    anything; every call, with its answer, is an event of an automaton. */
module Activation {
  import opened ActionTypes

  datatype Unit = Uploader | Collector
  datatype Activity = Active | Inactive | FailedUnit | Changing
  datatype Instance = Instance(active: Activity, pid: nat, invocation: string)
  datatype Identity = Identity(pid: nat, image: string)

  const NOBODY := Instance(Changing, 0, "")

  datatype Document = RequestFile | CommitFile
  datatype Condition = Collecting | Admitted | StoppedStatus | OtherStatus
  datatype Response = Matching | Mismatch | Missing | Unreadable
  datatype Status = Reported(invocation: string, state: Condition) | NoStatus | BadStatus

  datatype Event =
    | Inspected(unit: Unit, got: Option<Instance>)
    | Prepared(ok: bool)
    | StartIssued(unit: Unit, ok: bool)
    | InTime(ok: bool)
    | Audited(pid: nat, identity: Option<Identity>)
    | Composed(ok: bool)
    | Compared(ok: bool)
    | ProbesDenied(ok: bool)
    | Published(document: Document, ok: bool)
    | Responded(response: Response)
    | Waited(ok: bool)
    | StatusRead(unit: Unit, status: Status)
    | ProbesFinished(ok: bool)
    | StopIssued(unit: Unit, ok: bool)

  datatype Result = Activated | Unsafe | Recovery

  predicate AtRest(i: Instance) {
    i.pid == 0 && (i.active == Inactive || i.active == FailedUnit)
  }

  // The same invocation, and the same process when one was captured.
  predicate SameInvocation(want: Instance, got: Instance) {
    want.invocation != "" && got.invocation == want.invocation && (want.pid != 0 ==> got.pid == want.pid)
  }

  // The captured worker is active and unchanged.
  predicate Unchanged(want: Instance, got: Option<Instance>) {
    want.active == Active && got == Some(want)
  }

  // What a start leaves to own: the invocation then running, if one was seen.
  function Captured(got: Option<Instance>): Instance {
    if got.Some? && got.value.invocation != "" then got.value else NOBODY
  }

  predicate Runs(got: Option<Instance>) {
    got.Some? && got.value.active == Active
  }

  // ---------- the automaton ----------

  // Where the main sequence stands; the numbers tell repeated checks apart.
  datatype Stage =
    | LookUploader | LookCollector | Preparing
    | StartUploader | CaptureUploader | ConfirmUploader
    | AuditUploader | CheckUploader | ComposeRequest | CompareFirst | CheckUploader2 | DenyFirst | PublishRequest
    | PollUploader | PollDenied | PollResponse | PollWait
    | StartCollector | CaptureCollector | ConfirmCollector
    | AwaitCollector | AwaitUploader | AwaitStatus | AwaitWait
    | FinishProbes | CompareAgain | CheckUploader3 | CheckCollector | AuditAgain | CheckUploader4 | CheckCollector2
    | ComposeCommit | PublishCommit
    | ReadyUploader | ReadyCollector | ReadyStatus | ReadyWait
    | LastTime | LastUploader | LastCollector | LastTime2

  datatype Part = Beginning | Requesting | Responding | Awaiting | Auditing | Committing | Readying | Ending

  function PartOf(s: Stage): Part {
    match s
    case LookUploader | LookCollector | Preparing | StartUploader | CaptureUploader | ConfirmUploader => Beginning
    case AuditUploader | CheckUploader | ComposeRequest | CompareFirst | CheckUploader2 | DenyFirst | PublishRequest =>
      Requesting
    case PollUploader | PollDenied | PollResponse | PollWait | StartCollector | CaptureCollector | ConfirmCollector =>
      Responding
    case AwaitCollector | AwaitUploader | AwaitStatus | AwaitWait => Awaiting
    case FinishProbes | CompareAgain | CheckUploader3 | CheckCollector => Auditing
    case AuditAgain | CheckUploader4 | CheckCollector2 | ComposeCommit | PublishCommit => Committing
    case ReadyUploader | ReadyCollector | ReadyStatus | ReadyWait => Readying
    case LastTime | LastUploader | LastCollector | LastTime2 => Ending
  }

  // What became of a unit when the run is over.
  datatype Fate = NeverStarted | Kept | Rests | Unstopped

  // The run so far: its stage, whether the current start was reported well, and what was captured.
  datatype Phase =
    | At(stage: Stage, started: bool, u: Instance, id: Option<Identity>, c: Instance)
    | Stopping(unit: Unit, want: Instance, next: Option<Instance>, uploader: Fate, result: Result)
    | Issuing(unit: Unit, want: Instance, next: Option<Instance>, uploader: Fate, result: Result)
    | Joining(unit: Unit, want: Instance, next: Option<Instance>, uploader: Fate, result: Result)
    | Over(result: Result, uploader: Fate, collector: Fate)

  const START := At(LookUploader, false, NOBODY, None, NOBODY)

  // Which units a stage may already have started.
  predicate UploaderOwned(s: Stage) {
    PartOf(s) != Beginning || s == CaptureUploader || s == ConfirmUploader
  }

  predicate CollectorOwned(s: Stage) {
    || s == CaptureCollector || s == ConfirmCollector
    || PartOf(s) == Awaiting || PartOf(s) == Auditing || PartOf(s) == Committing || PartOf(s) == Readying
    || PartOf(s) == Ending
  }

  // A failure stops what was started, the uploader first.
  function Fail(p: Phase, r: Result): Phase
    requires p.At?
  {
    if !UploaderOwned(p.stage) then Over(r, NeverStarted, NeverStarted)
    else Stopping(Uploader, p.u, if CollectorOwned(p.stage) then Some(p.c) else None, NeverStarted, r)
  }

  // On to the next stage, or a failure.
  function Go(p: Phase, ok: bool, stage: Stage): Option<Phase>
    requires p.At?
  {
    Some(if ok then p.(stage := stage) else Fail(p, Unsafe))
  }

  // Done with one unit's cleanup: the other, or the end.
  function CleanedUp(p: Phase, fate: Fate): Phase
    requires p.Stopping? || p.Issuing? || p.Joining?
  {
    var r := if fate == Rests then p.result else Recovery;
    if p.unit == Collector then Over(r, p.uploader, fate)
    else if p.next.Some? then Stopping(Collector, p.next.value, None, fate, r)
    else Over(r, fate, NeverStarted)
  }

  // Both units at rest, then the uploader's start and what it left running.
  function StepBegin(p: Phase, e: Event): Option<Phase>
    requires p.At?
  {
    match (p.stage, e)
    case (LookUploader, Inspected(Uploader, got)) => Go(p, got.Some? && AtRest(got.value), LookCollector)
    case (LookCollector, Inspected(Collector, got)) => Go(p, got.Some? && AtRest(got.value), Preparing)
    case (Preparing, Prepared(ok)) => Go(p, ok, StartUploader)
    case (StartUploader, StartIssued(Uploader, ok)) => Some(p.(stage := CaptureUploader, started := ok))
    case (CaptureUploader, Inspected(Uploader, got)) =>
      Some(p.(stage := ConfirmUploader, u := Captured(got), started := p.started && Runs(got)))
    case (ConfirmUploader, InTime(ok)) =>
      Some(if p.started && ok then p.(stage := AuditUploader) else Fail(p, Recovery))
    case _ => None
  }

  // The uploader's identity and the request.
  function StepRequest(p: Phase, e: Event): Option<Phase>
    requires p.At?
  {
    var u := p.u;
    match (p.stage, e)
    case (AuditUploader, Audited(pid, identity)) =>
      if pid != u.pid then None
      else if identity.Some? && identity.value.pid == u.pid then Some(p.(stage := CheckUploader, id := identity))
      else Some(Fail(p, Unsafe))
    case (CheckUploader, Inspected(Uploader, got)) => Go(p, Unchanged(u, got), ComposeRequest)
    case (ComposeRequest, Composed(ok)) => Go(p, ok, CompareFirst)
    case (CompareFirst, Compared(ok)) => Go(p, ok, CheckUploader2)
    case (CheckUploader2, Inspected(Uploader, got)) => Go(p, Unchanged(u, got), DenyFirst)
    case (DenyFirst, ProbesDenied(ok)) => Go(p, ok, PublishRequest)
    case (PublishRequest, Published(RequestFile, ok)) =>
      Some(if ok then p.(stage := PollUploader) else Fail(p, Recovery))
    case _ => None
  }

  // Polling for the response, then the collector's start.
  function StepResponse(p: Phase, e: Event): Option<Phase>
    requires p.At?
  {
    match (p.stage, e)
    case (PollUploader, Inspected(Uploader, got)) => Go(p, Unchanged(p.u, got), PollDenied)
    case (PollDenied, ProbesDenied(ok)) => Go(p, ok, PollResponse)
    case (PollResponse, Responded(response)) =>
      if response == Missing then Some(p.(stage := PollWait)) else Go(p, response == Matching, StartCollector)
    case (PollWait, Waited(ok)) => Go(p, ok, PollUploader)
    case (StartCollector, StartIssued(Collector, ok)) => Some(p.(stage := CaptureCollector, started := ok))
    case (CaptureCollector, Inspected(Collector, got)) =>
      Some(p.(stage := ConfirmCollector, c := Captured(got), started := p.started && Runs(got)))
    case (ConfirmCollector, InTime(ok)) =>
      Some(if p.started && ok then p.(stage := AwaitCollector) else Fail(p, Recovery))
    case _ => None
  }

  // Waiting until the collector itself reports that it is collecting.
  function StepCollecting(p: Phase, e: Event): Option<Phase>
    requires p.At?
  {
    match (p.stage, e)
    case (AwaitCollector, Inspected(Collector, got)) => Go(p, Unchanged(p.c, got), AwaitUploader)
    case (AwaitUploader, Inspected(Uploader, got)) => Go(p, Unchanged(p.u, got), AwaitStatus)
    case (AwaitStatus, StatusRead(Collector, status)) =>
      if status.Reported? && status.invocation == p.c.invocation then Go(p, status.state == Collecting, FinishProbes)
      else Go(p, !status.BadStatus?, AwaitWait)
    case (AwaitWait, Waited(ok)) => Go(p, ok, AwaitCollector)
    case _ => None
  }

  // The probes end and nothing has changed.
  function StepAudit(p: Phase, e: Event): Option<Phase>
    requires p.At?
  {
    var u, c := p.u, p.c;
    match (p.stage, e)
    case (FinishProbes, ProbesFinished(ok)) => Go(p, ok, CompareAgain)
    case (CompareAgain, Compared(ok)) => Go(p, ok, CheckUploader3)
    case (CheckUploader3, Inspected(Uploader, got)) => Go(p, Unchanged(u, got), CheckCollector)
    case (CheckCollector, Inspected(Collector, got)) => Go(p, Unchanged(c, got), AuditAgain)
    case _ => None
  }

  // The uploader is still the audited one, both workers are unchanged, and the commit.
  function StepCommit(p: Phase, e: Event): Option<Phase>
    requires p.At?
  {
    var u, c := p.u, p.c;
    match (p.stage, e)
    case (AuditAgain, Audited(pid, identity)) =>
      if pid != u.pid then None else Go(p, identity.Some? && identity == p.id, CheckUploader4)
    case (CheckUploader4, Inspected(Uploader, got)) => Go(p, Unchanged(u, got), CheckCollector2)
    case (CheckCollector2, Inspected(Collector, got)) => Go(p, Unchanged(c, got), ComposeCommit)
    case (ComposeCommit, Composed(ok)) => Go(p, ok, PublishCommit)
    case (PublishCommit, Published(CommitFile, ok)) =>
      Some(if ok then p.(stage := ReadyUploader) else Fail(p, Recovery))
    case _ => None
  }

  // Waiting until the uploader is admitted.
  function StepReady(p: Phase, e: Event): Option<Phase>
    requires p.At?
  {
    var u, c := p.u, p.c;
    match (p.stage, e)
    case (ReadyUploader, Inspected(Uploader, got)) => Go(p, Unchanged(u, got), ReadyCollector)
    case (ReadyCollector, Inspected(Collector, got)) => Go(p, Unchanged(c, got), ReadyStatus)
    case (ReadyStatus, StatusRead(Uploader, status)) =>
      if status.Reported? && status.invocation == u.invocation && status.state != StoppedStatus
      then Go(p, status.state == Admitted, LastTime) else Go(p, !status.BadStatus?, ReadyWait)
    case (ReadyWait, Waited(ok)) => Go(p, ok, ReadyUploader)
    case _ => None
  }

  // The status may be stale: a last look at both.
  function StepEnd(p: Phase, e: Event): Option<Phase>
    requires p.At?
  {
    var u, c := p.u, p.c;
    match (p.stage, e)
    case (LastTime, InTime(ok)) => Go(p, ok, LastUploader)
    case (LastUploader, Inspected(Uploader, got)) => Go(p, Unchanged(u, got), LastCollector)
    case (LastCollector, Inspected(Collector, got)) => Go(p, Unchanged(c, got), LastTime2)
    case (LastTime2, InTime(ok)) => Some(if ok then Over(Activated, Kept, Kept) else Fail(p, Unsafe))
    case _ => None
  }

  function StepMain(p: Phase, e: Event): Option<Phase>
    requires p.At?
  {
    match PartOf(p.stage)
    case Beginning => StepBegin(p, e)
    case Requesting => StepRequest(p, e)
    case Responding => StepResponse(p, e)
    case Awaiting => StepCollecting(p, e)
    case Auditing => StepAudit(p, e)
    case Committing => StepCommit(p, e)
    case Readying => StepReady(p, e)
    case Ending => StepEnd(p, e)
  }

  // Only the captured invocation is stopped, and only as the last one seen.
  function StepCleanup(p: Phase, e: Event): Option<Phase>
    requires p.Stopping? || p.Issuing? || p.Joining?
  {
    match e
    case Inspected(unit, got) =>
      if unit != p.unit || p.Issuing? then None
      else if p.Joining? then
        Some(CleanedUp(p, if got.Some? && got.value.pid == 0 && got.value.active == Inactive then Rests else Unstopped))
      else if got.Some? && AtRest(got.value) then Some(CleanedUp(p, Rests))
      else if got.Some? && SameInvocation(p.want, got.value) then
        Some(Issuing(p.unit, p.want, p.next, p.uploader, p.result))
      else Some(CleanedUp(p, Unstopped))
    case StopIssued(unit, ok) =>
      if unit != p.unit || !p.Issuing? then None
      else if ok then Some(Joining(p.unit, p.want, p.next, p.uploader, p.result))
      else Some(CleanedUp(p, Unstopped))
    case _ => None
  }

  function Step(p: Phase, e: Event): Option<Phase> {
    if p.At? then StepMain(p, e) else if p.Over? then None else StepCleanup(p, e)
  }

  function Walk(log: seq<Event>): Option<Phase>
    decreases |log|
  {
    if log == [] then Some(START)
    else
      var p := Walk(log[..|log| - 1]);
      if p.None? then None else Step(p.value, log[|log| - 1])
  }

  predicate Reaches(log: seq<Event>, p: Phase) {
    Walk(log) == Some(p)
  }

  lemma Move(log: seq<Event>, p: Phase, e: Event) returns (more: seq<Event>, q: Phase)
    requires Reaches(log, p) && Step(p, e).Some?
    ensures more == log + [e] && q == Step(p, e).value && Reaches(more, q)
  {
    hide Step;
    more, q := log + [e], Step(p, e).value;
    assert more[..|log|] == log;
  }

  lemma Back(log: seq<Event>, p: Phase) returns (q: Phase, first: seq<Event>, e: Event)
    requires Reaches(log, p) && log != []
    ensures log == first + [e] && Reaches(first, q) && Step(q, e) == Some(p)
  {
    hide Step;
    first, e := log[..|log| - 1], log[|log| - 1];
    q := Walk(first).value;
  }

  lemma Nothing(p: Phase)
    ensures Reaches([], p) <==> p == START
  {
  }
}
