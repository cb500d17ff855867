/** The broker's owned handlers, at most three, joined before the journal and the
    engine are closed; they are numbered as they register. The accept loop, the
    handlers and the controller interleave at will. Every
    check, every try of the lock and every write of theirs is a step of its own,
    and the controller's stop takes no lock; a step that cannot happen changes
    nothing. */
module OwnedJoin {
  import AT = ActionTypes

  const MAX_HANDLERS := 3
  const MAX_SIGNALS := 4

  datatype Phase = Greeting | NonRelay

  type Handlers = map<nat, Phase>

  // The registry's fields, and the completion of every handler it ever numbered.
  datatype Owned = Owned(
    handlers: Handlers, next: nat,
    closed: set<nat>,          // handlers that began to close
    done: set<nat>,            // handlers whose completion is signalled
    closing: bool, fenced: bool,
    halted: bool,              // the execution context is cancelled
    cancelled: bool)           // the run context is cancelled

  const EMPTY := Owned(map[], 0, {}, {}, false, false, false, false)

  predicate Admits(o: Owned) {
    !o.closing && !o.cancelled
  }

  function Finished(o: Owned): set<nat> {
    o.handlers.Keys * o.done
  }

  function Without(o: Owned, removed: set<nat>): Owned {
    o.(handlers := o.handlers - removed)
  }

  function Added(o: Owned): Owned {
    o.(handlers := o.handlers[o.next := Greeting], next := o.next + 1)
  }

  predicate MayEnter(o: Owned, h: nat) {
    h !in o.closed && h in o.handlers && o.handlers[h] == Greeting && !o.fenced && !o.halted
  }

  function Selected(o: Owned, h: nat): Owned {
    o.(handlers := o.handlers[h := NonRelay])
  }

  // One uninterrupted call of each operation; `locked` says that another holds the registry.
  function Registering(o: Owned, locked: bool): (Owned, AT.Option<nat>) {
    if !Admits(o) || locked then (o, AT.None)
    else
      var p := Without(o, Finished(o));
      if |p.handlers| >= MAX_HANDLERS then (p, AT.None) else (Added(p), AT.Some(p.next))
  }

  function EnteringScope(o: Owned, h: nat, locked: bool): (Owned, bool) {
    if o.fenced || o.closing || locked || !MayEnter(o, h) then (o, false) else (Selected(o, h), true)
  }

  function Closing(o: Owned, h: nat): Owned {
    if h in o.closed then o else o.(closed := o.closed + {h}, done := o.done + {h})
  }

  function Stopping(o: Owned): Owned {
    o.(closing := true, fenced := true, halted := true, cancelled := true)
  }

  // ---------- the interleaved steps ----------

  // A prune under way: what was already finished when the lock was taken.
  datatype Accept =
    | Accepting
    | HasSlot
    | Looked
    | Locked(found: set<nat>)
    | Checked
    | Ended

  datatype Entering =
    | Nobody
    | Trying(handler: nat)
    | Passed(handler: nat)

  datatype Controller =
    | Running
    | Closed
    | Fenced
    | Halted
    | Stopped
    | AcceptJoined
    | Collecting(found: set<nat>)
    | Collected(signals: set<nat>)
    | Joined
    | GaveUp

  datatype World = World(
    owned: Owned,
    holders: set<nat>,         // handlers that hold a slot
    looked: set<nat>,          // handlers past their first look at the fence
    entering: Entering,        // the handler that holds the lock
    accept: Accept, controller: Controller,
    shut: bool)                // the journal and the engine are closed

  datatype Step =
    | TakeSlot | Look | Lock | Check(removed: set<nat>) | Commit | EndAccept
    | LookEnter(h: nat) | LockEnter(h: nat) | CheckEnter | CommitEnter
    | BeginClose(h: nat) | Signal(h: nat) | FreeSlot(h: nat)
    | Cancel | Propagate
    | Stop | JoinAccept(gaveUp: bool) | Collect | Snapshot(removed: set<nat>) | JoinAll(gaveUp: bool) | Shut

  function Live(o: Owned): set<nat> {
    set h | 0 <= h < o.next && h !in o.done
  }

  predicate AcceptLocks(s: World) {
    s.accept.Locked? || s.accept.Checked?
  }

  predicate Held(s: World) {
    AcceptLocks(s) || !s.entering.Nobody? || s.controller.Collecting?
  }

  predicate AcceptHolds(s: World) {
    s.accept.HasSlot? || s.accept.Looked? || AcceptLocks(s)
  }

  function Slots(s: World): nat {
    |s.holders| + if AcceptHolds(s) then 1 else 0
  }

  // A prune removes all that was finished at its start and only what is finished at its end.
  predicate Sweeps(o: Owned, found: set<nat>, removed: set<nat>) {
    found * o.handlers.Keys <= removed <= Finished(o)
  }

  predicate Busy(s: World, h: nat) {
    h in s.looked || (!s.entering.Nobody? && s.entering.handler == h)
  }

  // A handler at work outside the registry.
  predicate Idle(s: World, h: nat) {
    h in Live(s.owned) && h !in s.owned.closed && !Busy(s, h)
  }

  function CheckStep(s: World, removed: set<nat>): World {
    var o := Without(s.owned, removed);
    s.(owned := o, accept := if Admits(o) && |o.handlers| < MAX_HANDLERS then Checked else Accepting)
  }

  function NextAccept(s: World, step: Step): World
    requires step.TakeSlot? || step.Look? || step.Lock? || step.Check? || step.Commit? || step.EndAccept?
  {
    match step
    case TakeSlot => if s.accept == Accepting && Slots(s) < MAX_HANDLERS then s.(accept := HasSlot) else s
    case Look => if s.accept == HasSlot then s.(accept := if Admits(s.owned) then Looked else Accepting) else s
    case Lock => if s.accept == Looked then s.(accept := if Held(s) then Accepting else Locked(s.owned.done)) else s
    case Check(removed) =>
      if s.accept.Locked? && Sweeps(s.owned, s.accept.found, removed) then CheckStep(s, removed) else s
    case Commit =>
      if s.accept == Checked
      then s.(owned := Added(s.owned), holders := s.holders + {s.owned.next}, accept := Accepting) else s
    case EndAccept => if s.accept == Accepting then s.(accept := Ended) else s
  }

  function NextHandler(s: World, step: Step): World
    requires || step.LookEnter? || step.LockEnter? || step.CheckEnter? || step.CommitEnter?
             || step.BeginClose? || step.Signal? || step.FreeSlot?
  {
    var o := s.owned;
    match step
    case LookEnter(h) =>
      if h in Live(o) && h !in o.closed && !Busy(s, h) && !o.fenced && !o.closing
      then s.(looked := s.looked + {h}) else s
    case LockEnter(h) =>
      if h in s.looked
      then s.(looked := s.looked - {h}, entering := if Held(s) then s.entering else Trying(h)) else s
    case CheckEnter =>
      if s.entering.Trying?
      then s.(entering := if MayEnter(o, s.entering.handler) then Passed(s.entering.handler) else Nobody) else s
    case CommitEnter =>
      if s.entering.Passed? then s.(owned := Selected(o, s.entering.handler), entering := Nobody) else s
    case BeginClose(h) =>
      if h in Live(o) && !Busy(s, h) then s.(owned := o.(closed := o.closed + {h})) else s
    case Signal(h) => if h in o.closed then s.(owned := o.(done := o.done + {h})) else s
    case FreeSlot(h) => if h in o.done then s.(holders := s.holders - {h}) else s
  }

  // The controller stops admission in four writes, then joins what it owns.
  function NextController(s: World, step: Step): World
    requires step.Stop? || step.JoinAccept? || step.Collect? || step.Snapshot? || step.JoinAll? || step.Shut?
  {
    var o := s.owned;
    match step
    case Stop =>
      if s.controller == Running then s.(owned := o.(closing := true), controller := Closed)
      else if s.controller == Closed then s.(owned := o.(fenced := true), controller := Fenced)
      else if s.controller == Fenced then s.(owned := o.(halted := true), controller := Halted)
      else if s.controller == Halted then s.(owned := o.(cancelled := true), controller := Stopped)
      else s
    case JoinAccept(gaveUp) =>
      if s.controller != Stopped then s
      else if s.accept == Ended then s.(controller := AcceptJoined)
      else if gaveUp then s.(controller := GaveUp) else s
    case Collect =>
      if s.controller == AcceptJoined
      then s.(controller := if Held(s) then GaveUp else Collecting(o.done)) else s
    case Snapshot(removed) =>
      if s.controller.Collecting? && Sweeps(o, s.controller.found, removed)
      then s.(owned := Without(o, removed), controller := Collected(Without(o, removed).handlers.Keys)) else s
    case JoinAll(gaveUp) =>
      if !s.controller.Collected? then s
      else if s.controller.signals <= o.done then s.(controller := Joined)
      else if gaveUp then s.(controller := GaveUp) else s
    case Shut => if s.controller == Joined then s.(shut := true) else s
  }

  // A cancelled run context reaches the execution context in a step of its own.
  function Next(s: World, step: Step): World {
    match step
    case TakeSlot | Look | Lock | Check(_) | Commit | EndAccept => NextAccept(s, step)
    case Cancel => s.(owned := s.owned.(cancelled := true))
    case Propagate => if s.owned.cancelled then s.(owned := s.owned.(halted := true)) else s
    case Stop | JoinAccept(_) | Collect | Snapshot(_) | JoinAll(_) | Shut => NextController(s, step)
    case _ => NextHandler(s, step)
  }

  const START := World(EMPTY, {}, {}, Nobody, Accepting, Running, false)

  function Run(s: World, steps: seq<Step>): World
    decreases |steps|
  {
    if steps == [] then s else Run(Next(s, steps[0]), steps[1..])
  }

  // ---------- what every step keeps ----------

  ghost predicate Numbered(o: Owned) {
    && Live(o) <= o.handlers.Keys && o.done <= o.closed
    && (forall h :: h in o.handlers ==> h < o.next) && (forall h :: h in o.closed ==> h < o.next)
  }

  ghost predicate Occupies(s: World) {
    Live(s.owned) <= s.holders && forall h :: h in s.holders ==> h < s.owned.next
  }

  // A handler that is entering is still at work, so its entry stays.
  ghost predicate AtWork(s: World) {
    && (forall h :: h in s.looked ==> h in Live(s.owned) && h !in s.owned.closed)
    && (!s.entering.Nobody? ==> s.entering.handler in Live(s.owned) && s.entering.handler !in s.owned.closed)
    && (s.entering.Passed? ==>
       s.entering.handler in s.owned.handlers && s.owned.handlers[s.entering.handler] == Greeting)
  }

  ghost predicate Exclusive(s: World) {
    && (AcceptLocks(s) ==> s.entering.Nobody? && !s.controller.Collecting?)
    && (s.controller.Collecting? ==> s.entering.Nobody?)
  }

  ghost predicate Bounded(s: World) {
    && |s.owned.handlers| <= MAX_HANDLERS && Slots(s) <= MAX_HANDLERS
    && (s.accept.Locked? ==> |s.owned.handlers.Keys - s.accept.found| < MAX_HANDLERS && s.accept.found <= s.owned.done)
    && (s.accept.Checked? ==> |s.owned.handlers| < MAX_HANDLERS)
  }

  predicate Joining(c: Controller) {
    c.AcceptJoined? || c.Collecting? || c.Collected? || c.Joined?
  }

  ghost predicate Draining(s: World) {
    && (!s.controller.Running? ==> s.owned.closing)
    && (s.controller.Halted? || s.controller.Stopped? || s.controller.GaveUp? || Joining(s.controller) ==>
          s.owned.fenced && s.owned.halted)
    && (s.controller.Fenced? ==> s.owned.fenced)
    && (s.controller.Stopped? || s.controller.GaveUp? || Joining(s.controller) ==> s.owned.cancelled)
    && (Joining(s.controller) ==> s.accept == Ended)
    && (s.controller.Collected? ==>
          && Live(s.owned) <= s.controller.signals && |s.controller.signals| <= MAX_HANDLERS
          && forall h :: h in s.controller.signals ==> h < s.owned.next)
    && (s.controller.Collecting? ==> s.controller.found <= s.owned.done)
    && (s.controller.Joined? || s.shut ==> s.controller.Joined? && Live(s.owned) == {})
  }

  ghost predicate Inv(s: World) {
    Numbered(s.owned) && Occupies(s) && AtWork(s) && Exclusive(s) && Bounded(s) && Draining(s)
  }

  lemma Fewer(a: set<nat>, b: set<nat>)
    requires a <= b
    ensures |a| <= |b|
  {
    assert b == a + (b - a);
  }

  lemma LiveNow(o: Owned, h: nat)
    ensures h in Live(o) <==> h < o.next && h !in o.done
  {
  }

  // The lock is taken with room to spare: everyone at work holds a slot, and so does the accept loop.
  lemma RoomAtLock(s: World)
    requires Inv(s) && AcceptHolds(s)
    ensures |s.owned.handlers.Keys - s.owned.done| < MAX_HANDLERS
  {
    Fewer(s.owned.handlers.Keys - s.owned.done, s.holders);
  }

  lemma SweepLeaves(o: Owned, found: set<nat>, removed: set<nat>)
    requires Sweeps(o, found, removed)
    ensures Without(o, removed).handlers.Keys == o.handlers.Keys - removed
    ensures |Without(o, removed).handlers| <= |o.handlers.Keys - found|
    ensures |Without(o, removed).handlers| <= |o.handlers|
    ensures Live(Without(o, removed)) == Live(o)
  {
    var p := Without(o, removed);
    assert p.handlers.Keys == o.handlers.Keys - removed && |p.handlers.Keys| == |p.handlers|;
    assert |o.handlers.Keys| == |o.handlers|;
    Fewer(p.handlers.Keys, o.handlers.Keys - found);
    Fewer(p.handlers.Keys, o.handlers.Keys);
  }

  /** A handler that holds a slot is never refused for lack of room: whichever
      handlers a prune finds finished, it leaves at most two. */
  lemma NeverRefusedFull(s: World, removed: set<nat>)
    requires Inv(s) && s.accept.Locked? && Sweeps(s.owned, s.accept.found, removed)
    ensures |Without(s.owned, removed).handlers| < MAX_HANDLERS
    ensures Next(s, Check(removed)).accept == if Admits(s.owned) then Checked else Accepting
  {
    SweepLeaves(s.owned, s.accept.found, removed);
  }

  lemma SweepNumbered(o: Owned, removed: set<nat>)
    requires Numbered(o) && removed <= Finished(o)
    ensures Numbered(Without(o, removed)) && Live(Without(o, removed)) == Live(o)
  {
  }

  lemma CheckKeeps(s: World, removed: set<nat>)
    requires Inv(s) && s.accept.Locked? && Sweeps(s.owned, s.accept.found, removed)
    ensures Inv(CheckStep(s, removed))
  {
    hide Numbered, Live, Without, Sweeps;
    NeverRefusedFull(s, removed);
    SweepLeaves(s.owned, s.accept.found, removed);
    SweepIsDone(s.owned, s.accept.found, removed);
    SweepNumbered(s.owned, removed);
    SweepFields(s.owned, removed);
  }

  lemma SweepIsDone(o: Owned, found: set<nat>, removed: set<nat>)
    requires Sweeps(o, found, removed)
    ensures removed <= Finished(o)
  {
  }

  lemma SweepFields(o: Owned, removed: set<nat>)
    ensures Without(o, removed) == o.(handlers := Without(o, removed).handlers)
  {
  }

  lemma AddLive(o: Owned)
    requires o.next !in o.done
    ensures Live(Added(o)) == Live(o) + {o.next}
  {
    forall h ensures h in Live(Added(o)) <==> h in Live(o) || h == o.next { LiveNow(Added(o), h); LiveNow(o, h); }
  }

  lemma AddNumbered(o: Owned)
    requires Numbered(o)
    ensures Numbered(Added(o)) && Live(Added(o)) == Live(o) + {o.next}
    ensures |Added(o).handlers| <= |o.handlers| + 1
  {
    hide Live;
    var p := Added(o);
    assert o.next !in o.closed && o.next !in o.done;
    AddLive(o);
    assert p.handlers.Keys == o.handlers.Keys + {o.next} && |p.handlers.Keys| == |p.handlers|;
  }

  lemma CommitKeeps(s: World)
    requires Inv(s) && s.accept.Checked?
    ensures Inv(Next(s, Commit))
  {
    hide Numbered, Live;
    AddNumbered(s.owned);
  }

  lemma AcceptKeeps(s: World, step: Step)
    requires Inv(s) && (step.TakeSlot? || step.Look? || step.Lock? || step.EndAccept?)
    ensures Inv(Next(s, step))
  {
    hide Numbered, Live;
    if step.Lock? && s.accept.Looked? { RoomAtLock(s); }
  }

  lemma SelectNumbered(o: Owned, h: nat)
    requires Numbered(o) && h in o.handlers
    ensures Numbered(Selected(o, h)) && Live(Selected(o, h)) == Live(o)
    ensures Selected(o, h).handlers.Keys == o.handlers.Keys && |Selected(o, h).handlers| == |o.handlers|
  {
    var p := Selected(o, h);
    assert p.handlers.Keys == o.handlers.Keys && |p.handlers.Keys| == |p.handlers| && |o.handlers.Keys| == |o.handlers|;
  }

  lemma EnterKeeps(s: World, step: Step)
    requires Inv(s) && (step.LookEnter? || step.LockEnter? || step.CheckEnter? || step.CommitEnter?)
    ensures Inv(Next(s, step))
  {
    hide Numbered, Live;
    if step.CommitEnter? && s.entering.Passed? { SelectNumbered(s.owned, s.entering.handler); }
  }

  lemma CloseNumbered(o: Owned, h: nat)
    requires Numbered(o) && h in Live(o)
    ensures Numbered(o.(closed := o.closed + {h})) && Live(o.(closed := o.closed + {h})) == Live(o)
  {
  }

  lemma BeginCloseKeeps(s: World, h: nat)
    requires Inv(s)
    ensures Inv(Next(s, BeginClose(h)))
  {
    hide Numbered, Live;
    if h in Live(s.owned) { CloseNumbered(s.owned, h); }
  }

  lemma SignalNumbered(o: Owned, h: nat)
    requires Numbered(o) && h in o.closed
    ensures Numbered(o.(done := o.done + {h})) && Live(o.(done := o.done + {h})) == Live(o) - {h}
  {
  }

  lemma SignalKeeps(s: World, h: nat)
    requires Inv(s)
    ensures Inv(Next(s, Signal(h)))
  {
    hide Numbered, Live;
    if h in s.owned.closed { SignalNumbered(s.owned, h); }
  }

  lemma FreeOccupies(s: World, h: nat)
    requires Occupies(s) && h in s.owned.done
    ensures Occupies(s.(holders := s.holders - {h})) && |s.holders - {h}| <= |s.holders|
  {
    hide Live;
    LiveNow(s.owned, h);
    Fewer(s.holders - {h}, s.holders);
  }

  lemma FreeKeeps(s: World, h: nat)
    requires Inv(s)
    ensures Inv(Next(s, FreeSlot(h)))
  {
    hide Numbered, Live, Occupies;
    if h in s.owned.done { FreeOccupies(s, h); }
  }

  lemma SnapshotKeeps(s: World, removed: set<nat>)
    requires Inv(s)
    ensures Inv(Next(s, Snapshot(removed)))
  {
    hide Numbered, Live, Without, Sweeps;
    if s.controller.Collecting? && Sweeps(s.owned, s.controller.found, removed) {
      SweepLeaves(s.owned, s.controller.found, removed);
      SweepIsDone(s.owned, s.controller.found, removed);
      SweepNumbered(s.owned, removed);
      SweepFields(s.owned, removed);
      var p := Without(s.owned, removed);
      LiveListed(p);
      assert |p.handlers.Keys| == |p.handlers|;
    }
  }

  lemma LiveListed(o: Owned)
    requires Numbered(o)
    ensures Live(o) <= o.handlers.Keys
  {
  }

  // Flags never matter to who is registered or alive.
  lemma FlagsNumbered(o: Owned, p: Owned)
    requires Numbered(o) && p.handlers == o.handlers && p.next == o.next && p.closed == o.closed && p.done == o.done
    ensures Numbered(p) && Live(p) == Live(o)
  {
  }

  lemma AllJoined(o: Owned, signals: set<nat>)
    requires Live(o) <= signals <= o.done
    ensures Live(o) == {}
  {
  }

  predicate Raises(o: Owned, p: Owned) {
    && p == o.(closing := p.closing, fenced := p.fenced, halted := p.halted, cancelled := p.cancelled)
    && (o.closing ==> p.closing) && (o.fenced ==> p.fenced) && (o.halted ==> p.halted) && (o.cancelled ==> p.cancelled)
  }

  lemma FlagMeans(s: World, step: Step)
    requires Draining(s) && (step.Cancel? || step.Propagate? || step.Stop?)
    ensures var s' := Next(s, step);
      && Raises(s.owned, s'.owned) && s' == s.(owned := s'.owned, controller := s'.controller)
      && (s'.controller == s.controller ||
          !(Joining(s.controller) || Joining(s'.controller) || s'.controller.GaveUp?))
      && (!s'.controller.Running? ==> s'.owned.closing)
      && (s'.controller.Fenced? || s'.controller.Halted? || s'.controller.Stopped? ==> s'.owned.fenced)
      && (s'.controller.Halted? || s'.controller.Stopped? ==> s'.owned.halted)
      && (s'.controller.Stopped? ==> s'.owned.cancelled)
  {
    hide Live;
  }

  lemma FlagKeeps(s: World, step: Step)
    requires Inv(s) && (step.Cancel? || step.Propagate? || step.Stop?)
    ensures Inv(Next(s, step))
  {
    hide Numbered, Live, Next;
    var s' := Next(s, step);
    FlagMeans(s, step);
    FlagsNumbered(s.owned, s'.owned);
    assert Occupies(s') && AtWork(s');
    assert Exclusive(s') && Bounded(s');
  }

  lemma JoinAllKeeps(s: World, gaveUp: bool)
    requires Inv(s)
    ensures Inv(Next(s, JoinAll(gaveUp)))
  {
    hide Numbered, Live;
    if s.controller.Collected? && s.controller.signals <= s.owned.done {
      AllJoined(s.owned, s.controller.signals);
    }
  }

  lemma JoinKeeps(s: World, step: Step)
    requires Inv(s) && (step.JoinAccept? || step.Collect? || step.Shut?)
    ensures Inv(Next(s, step))
  {
    hide Numbered, Live;
  }

  lemma StepKeeps(s: World, step: Step)
    requires Inv(s)
    ensures Inv(Next(s, step))
  {
    hide Inv, Sweeps, CheckStep;
    match step
    case Check(removed) =>
      if s.accept.Locked? && Sweeps(s.owned, s.accept.found, removed) { CheckKeeps(s, removed); }
    case Commit => if s.accept.Checked? { CommitKeeps(s); }
    case BeginClose(h) => BeginCloseKeeps(s, h);
    case Signal(h) => SignalKeeps(s, h);
    case FreeSlot(h) => FreeKeeps(s, h);
    case Snapshot(removed) => SnapshotKeeps(s, removed);
    case TakeSlot | Look | Lock | EndAccept => AcceptKeeps(s, step);
    case LookEnter(_) | LockEnter(_) | CheckEnter | CommitEnter => EnterKeeps(s, step);
    case Cancel | Propagate | Stop => FlagKeeps(s, step);
    case JoinAll(gaveUp) => JoinAllKeeps(s, gaveUp);
    case _ => JoinKeeps(s, step);
  }

  lemma {:induction false} RunKeeps(s: World, steps: seq<Step>)
    requires Inv(s)
    ensures Inv(Run(s, steps))
    decreases |steps|
  {
    hide Inv, Next;
    if steps != [] {
      StepKeeps(s, steps[0]);
      RunKeeps(Next(s, steps[0]), steps[1..]);
    }
  }

  lemma StartHolds()
    ensures Inv(START)
  {
    assert Live(EMPTY) == {};
  }

  /** Over every interleaving: the journal and the engine are closed only when the
      accept loop and every handler have finished, nobody else holds the lock while
      one does, the registry never holds more than three handlers, the join never
      waits for more than four signals, and a slot always finds room. */
  lemma ClosedAfterAll(steps: seq<Step>)
    ensures var s := Run(START, steps);
      && (s.shut ==> Live(s.owned) == {} && s.accept == Ended)
      && Exclusive(s) && |s.owned.handlers| <= MAX_HANDLERS
      && (s.controller.Collected? ==> 1 + |s.controller.signals| <= MAX_SIGNALS)
      && (s.accept.Locked? ==> forall removed :: Sweeps(s.owned, s.accept.found, removed) ==>
            |Without(s.owned, removed).handlers| < MAX_HANDLERS)
  {
    StartHolds();
    RunKeeps(START, steps);
    var s := Run(START, steps);
    if s.accept.Locked? {
      forall removed | Sweeps(s.owned, s.accept.found, removed)
        ensures |Without(s.owned, removed).handlers| < MAX_HANDLERS
      {
        NeverRefusedFull(s, removed);
      }
    }
  }

  // ---------- what still happens once admission is stopped ----------

  ghost predicate InScope(s: World, h: nat) {
    h in s.owned.handlers && s.owned.handlers[h] == NonRelay
  }

  // The registration, or the entry, that has passed its last check and holds the lock.
  predicate Registers(s: World, h: nat) {
    s.accept.Checked? && h == s.owned.next
  }

  predicate Enters(s: World, h: nat) {
    s.entering.Passed? && s.entering.handler == h
  }

  lemma LiveShrinks(o: Owned, p: Owned)
    requires p.next == o.next && o.done <= p.done
    ensures Live(p) <= Live(o)
  {
  }

  lemma NextIsNew(o: Owned)
    requires Numbered(o)
    ensures o.next !in o.done
  {
  }

  // Only a checked registration starts a handler.
  ghost predicate NoneStarted(s: World, s': World) {
    && s'.owned.closing && (forall h :: h in Live(s'.owned) ==> h in Live(s.owned) || Registers(s, h))
    && (forall h :: Registers(s', h) ==> Registers(s, h))
  }

  lemma CommitAfterClosing(s: World)
    requires Inv(s) && s.owned.closing
    ensures NoneStarted(s, Next(s, Commit))
  {
    hide Occupies, AtWork, Exclusive, Bounded, Draining, Live;
    if s.accept.Checked? {
      NextIsNew(s.owned);
      AddLive(s.owned);
    }
  }

  ghost predicate KeepsNext(s: World, s': World) {
    && s'.owned.closing && s'.owned.next == s.owned.next && s.owned.done <= s'.owned.done
    && (s'.accept.Checked? ==> s.accept.Checked?)
  }

  lemma AcceptKeepsNext(s: World, step: Step)
    requires s.owned.closing && (step.TakeSlot? || step.Look? || step.Lock? || step.Check? || step.EndAccept?)
    ensures KeepsNext(s, Next(s, step))
  {
    hide Slots, Sweeps, Held;
  }

  lemma HandlerKeepsNext(s: World, step: Step)
    requires s.owned.closing
    requires || step.LookEnter? || step.LockEnter? || step.CheckEnter? || step.CommitEnter?
             || step.BeginClose? || step.Signal? || step.FreeSlot?
    ensures KeepsNext(s, Next(s, step))
  {
    hide Live, Held, Busy, MayEnter;
  }

  lemma StepKeepsNext(s: World, step: Step)
    requires s.owned.closing && !step.Commit?
    ensures KeepsNext(s, Next(s, step))
  {
    hide Sweeps, Held, Finished;
    match step
    case TakeSlot | Look | Lock | Check(_) | EndAccept => AcceptKeepsNext(s, step);
    case Cancel | Propagate | Stop | JoinAccept(_) | Collect | Snapshot(_) | JoinAll(_) | Shut =>
    case _ => HandlerKeepsNext(s, step);
  }

  lemma StepAfterClosing(s: World, step: Step)
    requires Inv(s) && s.owned.closing
    ensures NoneStarted(s, Next(s, step))
  {
    hide Inv, Next, Live;
    if step.Commit? {
      CommitAfterClosing(s);
    } else {
      StepKeepsNext(s, step);
      LiveShrinks(s.owned, Next(s, step).owned);
    }
  }

  // Only a passed entry selects; pruning and adding do not.
  ghost predicate NoneSelected(s: World, s': World) {
    && s'.owned.fenced && (forall h :: InScope(s', h) ==> InScope(s, h) || Enters(s, h))
    && (forall h :: Enters(s', h) ==> Enters(s, h))
  }

  lemma AcceptAfterFence(s: World, step: Step)
    requires s.owned.fenced
    requires step.TakeSlot? || step.Look? || step.Lock? || step.Check? || step.Commit? || step.EndAccept?
    ensures NoneSelected(s, Next(s, step))
  {
    hide Slots, Sweeps, Held;
  }

  lemma HandlerAfterFence(s: World, step: Step)
    requires s.owned.fenced
    requires || step.LookEnter? || step.LockEnter? || step.CheckEnter? || step.CommitEnter?
             || step.BeginClose? || step.Signal? || step.FreeSlot?
    ensures NoneSelected(s, Next(s, step))
  {
    hide Live, Held, Busy;
  }

  lemma StepAfterFence(s: World, step: Step)
    requires s.owned.fenced
    ensures NoneSelected(s, Next(s, step))
  {
    hide Sweeps, Held, Finished;
    match step
    case TakeSlot | Look | Lock | Check(_) | Commit | EndAccept => AcceptAfterFence(s, step);
    case Cancel | Propagate | Stop | JoinAccept(_) | Collect | Snapshot(_) | JoinAll(_) | Shut =>
    case _ => HandlerAfterFence(s, step);
  }

  lemma {:induction false} AfterClosing(s: World, steps: seq<Step>)
    requires Inv(s) && s.owned.closing
    ensures forall h :: h in Live(Run(s, steps).owned) ==> h in Live(s.owned) || Registers(s, h)
    decreases |steps|
  {
    hide Inv, Next, Live, Registers;
    if steps != [] {
      StepKeeps(s, steps[0]);
      StepAfterClosing(s, steps[0]);
      AfterClosing(Next(s, steps[0]), steps[1..]);
    }
  }

  lemma {:induction false} AfterFence(s: World, steps: seq<Step>)
    requires Inv(s) && s.owned.fenced
    ensures forall h :: InScope(Run(s, steps), h) ==> InScope(s, h) || Enters(s, h)
    decreases |steps|
  {
    hide Inv, Next, InScope, Enters;
    if steps != [] {
      StepKeeps(s, steps[0]);
      StepAfterFence(s, steps[0]);
      AfterFence(Next(s, steps[0]), steps[1..]);
    }
  }

  ghost predicate CanStart(s: World, h: nat) {
    h !in Live(s.owned) && exists steps :: h in Live(Run(s, steps).owned)
  }

  ghost predicate CanEnter(s: World, h: nat) {
    !InScope(s, h) && exists steps :: InScope(Run(s, steps), h)
  }

  lemma RunOne(s: World, step: Step)
    ensures Run(s, [step]) == Next(s, step)
  {
    hide Next;
    assert Run(Next(s, step), [step][1..]) == Next(s, step);
  }

  /** Once closing is set, a handler can still start exactly if the accept loop has
      already passed its last check and holds the lock. */
  lemma StartsExactly(s: World, h: nat)
    requires Inv(s) && s.owned.closing
    ensures CanStart(s, h) <==> Registers(s, h)
  {
    hide Next, Inv, Run;
    forall steps ensures h in Live(Run(s, steps).owned) ==> h in Live(s.owned) || Registers(s, h) {
      AfterClosing(s, steps);
    }
    if Registers(s, h) {
      RunOne(s, Commit);
      Committed(s);
      assert h in Live(Run(s, [Commit]).owned);
    }
  }

  lemma Committed(s: World)
    requires Inv(s) && s.accept.Checked?
    ensures s.owned.next !in Live(s.owned) && s.owned.next in Live(Next(s, Commit).owned)
  {
  }

  /** Once the fence is set, a handler can still enter the execution scope exactly
      if it has already passed its last check and holds the lock. */
  lemma EntersExactly(s: World, h: nat)
    requires Inv(s) && s.owned.fenced
    ensures CanEnter(s, h) <==> Enters(s, h)
  {
    hide Next, Inv, Run;
    forall steps ensures InScope(Run(s, steps), h) ==> InScope(s, h) || Enters(s, h) {
      AfterFence(s, steps);
    }
    if Enters(s, h) {
      RunOne(s, CommitEnter);
      Entered(s, h);
      assert InScope(Run(s, [CommitEnter]), h);
    }
  }

  lemma Entered(s: World, h: nat)
    requires Inv(s) && Enters(s, h)
    ensures !InScope(s, h) && InScope(Next(s, CommitEnter), h)
  {
  }

  lemma StepStaysStopped(s: World, step: Step)
    requires Inv(s) && (s.controller.Stopped? || s.controller.GaveUp? || Joining(s.controller))
    ensures var s' := Next(s, step); s'.controller.Stopped? || s'.controller.GaveUp? || Joining(s'.controller)
    ensures s.controller.GaveUp? ==> Next(s, step).controller.GaveUp?
    ensures s.accept.Ended? ==> Next(s, step).accept.Ended? && Live(Next(s, step).owned) <= Live(s.owned)
  {
    hide Inv;
  }

  /** After the controller's stop, in every continuation: at most one handler more
      starts or enters the scope, namely the one whose call holds the lock; every
      context stays cancelled; none starts once the accept loop has ended; and a
      controller that gave up never closes the journal. */
  lemma AfterStop(s: World, steps: seq<Step>)
    requires Inv(s) && (s.controller.Stopped? || s.controller.GaveUp? || Joining(s.controller))
    ensures var s' := Run(s, steps);
      && s'.owned.halted && s'.owned.cancelled
      && (forall h, k :: CanStart(s, h) && CanStart(s, k) ==> h == k)
      && (forall h, k :: CanEnter(s, h) && CanEnter(s, k) ==> h == k)
      && (forall h, k :: CanStart(s, h) ==> !CanEnter(s, k))
      && (s.accept.Ended? ==> Live(s'.owned) <= Live(s.owned))
      && (s.controller.GaveUp? ==> s'.controller.GaveUp? && !s'.shut)
  {
    hide Next, Numbered, Occupies, AtWork, Bounded, Live, CanStart, CanEnter, Run;
    StayStopped(s, steps);
    forall h ensures CanStart(s, h) <==> Registers(s, h) { StartsExactly(s, h); }
    forall h ensures CanEnter(s, h) <==> Enters(s, h) { EntersExactly(s, h); }
  }

  lemma {:induction false} StayStopped(s: World, steps: seq<Step>)
    requires Inv(s) && (s.controller.Stopped? || s.controller.GaveUp? || Joining(s.controller))
    ensures var s' := Run(s, steps);
      && Inv(s') && (s'.controller.Stopped? || s'.controller.GaveUp? || Joining(s'.controller))
      && (s.controller.GaveUp? ==> s'.controller.GaveUp?)
      && (s.accept.Ended? ==> Live(s'.owned) <= Live(s.owned))
    decreases |steps|
  {
    hide Next, Inv, Live;
    if steps != [] {
      StepKeeps(s, steps[0]);
      StepStaysStopped(s, steps[0]);
      StayStopped(Next(s, steps[0]), steps[1..]);
    }
  }

  // A controller that finds the registry locked never learns what to join.
  lemma CollectNeedsLock(s: World)
    requires Inv(s) && s.controller.AcceptJoined?
    ensures Next(s, Collect).controller == if s.entering.Nobody? then Collecting(s.owned.done) else GaveUp
  {
  }

  function Race(): seq<Step> {
    [TakeSlot, Look, Lock, Check({}), Stop, Stop, Stop, Stop, Commit]
  }

  /** One handler really does start after the stop: the accept loop commits what it
      checked before. */
  lemma OneStillStarts()
    ensures var s := Run(START, Race()[..8]);
      && s.controller.Stopped? && Live(s.owned) == {} && Live(Next(s, Commit).owned) == {0}
  {
    var s4 := START.(accept := Checked);
    var steps := Race()[..8];
    assert Next(START, TakeSlot) == START.(accept := HasSlot);
    assert Next(START.(accept := HasSlot), Look) == START.(accept := Looked);
    assert Next(START.(accept := Looked), Lock) == START.(accept := Locked({}));
    assert Next(START.(accept := Locked({})), Check({})) == s4;
    Unroll(START, steps);
    Unroll(s4, steps[4..]);
    assert steps[4..][4..] == [];
  }

  lemma Unroll(s: World, steps: seq<Step>)
    requires |steps| >= 4
    ensures Run(s, steps) == Run(Next(Next(Next(Next(s, steps[0]), steps[1]), steps[2]), steps[3]), steps[4..])
  {
    hide Next;
    var s2 := Next(Next(s, steps[0]), steps[1]);
    assert steps[1..][1..] == steps[2..] && steps[2..][1..] == steps[3..] && steps[3..][1..] == steps[4..];
    assert steps[1..][0] == steps[1] && steps[2..][0] == steps[2] && steps[3..][0] == steps[3];
    assert Run(s, steps) == Run(Next(s, steps[0]), steps[1..]) == Run(s2, steps[2..]);
    var s3 := Next(s2, steps[2]);
    assert Run(s2, steps[2..]) == Run(s3, steps[3..]) == Run(Next(s3, steps[3]), steps[4..]);
  }

  // ---------- the registry's calls, uninterrupted ----------

  function RegisterSteps(o: Owned): seq<Step> {
    [Look, Lock, Check(Finished(o)), Commit]
  }

  lemma RefusedAtLook(s: World, removed: set<nat>)
    requires s.accept == HasSlot && !Admits(s.owned)
    ensures Next(Next(Next(Next(s, Look), Lock), Check(removed)), Commit) == s.(accept := Accepting)
  {
    var s1 := s.(accept := Accepting);
    assert Next(s, Look) == s1 && Next(s1, Lock) == s1 && Next(s1, Check(removed)) == s1;
  }

  lemma RefusedAtLock(s: World, removed: set<nat>)
    requires s.accept == HasSlot && Admits(s.owned) && Held(s)
    ensures Next(Next(Next(Next(s, Look), Lock), Check(removed)), Commit) == s.(accept := Accepting)
  {
    var s1, s2 := s.(accept := Looked), s.(accept := Accepting);
    assert Next(s, Look) == s1 && Held(s1);
    assert Next(s1, Lock) == s2 && Next(s2, Check(removed)) == s2;
  }

  lemma LockPasses(s: World)
    requires s.accept == HasSlot && Admits(s.owned) && !Held(s)
    ensures Next(Next(s, Look), Lock) == s.(accept := Locked(s.owned.done))
  {
    var s1 := s.(accept := Looked);
    assert Next(s, Look) == s1 && !Held(s1);
  }

  lemma CheckPasses(s: World)
    requires s.accept == Locked(s.owned.done) && Admits(s.owned)
    ensures var p := Without(s.owned, Finished(s.owned));
      Next(s, Check(Finished(s.owned))) ==
        s.(owned := p, accept := if |p.handlers| < MAX_HANDLERS then Checked else Accepting)
  {
    assert Sweeps(s.owned, s.owned.done, Finished(s.owned));
  }

  lemma RegisterPasses(s: World)
    requires s.accept == HasSlot && Admits(s.owned) && !Held(s)
    ensures var s' := Next(Next(Next(Next(s, Look), Lock), Check(Finished(s.owned))), Commit);
      var (o, h) := Registering(s.owned, false);
      s' == s.(owned := o, holders := s.holders + (if h.Some? then {h.value} else {}), accept := Accepting)
  {
    hide Held, Next, Added;
    LockPasses(s);
    CheckPasses(s.(accept := Locked(s.owned.done)));
    var p := Without(s.owned, Finished(s.owned));
    CommitPasses(s.(owned := p, accept := Checked));
    CommitPasses(s.(owned := p, accept := Accepting));
  }

  lemma CommitPasses(s: World)
    ensures Next(s, Commit) ==
      if s.accept.Checked?
      then s.(owned := Added(s.owned), holders := s.holders + {s.owned.next}, accept := Accepting) else s
  {
  }

  /** Registering without interruption is the four steps of the accept loop. */
  lemma RegisterRuns(s: World)
    requires s.accept == HasSlot
    ensures var s' := Run(s, RegisterSteps(s.owned));
      var (o, h) := Registering(s.owned, Held(s));
      s'.owned == o && s'.holders == s.holders + (if h.Some? then {h.value} else {})
  {
    hide Next, Held, Without, Finished, Added;
    var steps := RegisterSteps(s.owned);
    Unroll(s, steps);
    assert steps[4..] == [];
    if !Admits(s.owned) {
      RefusedAtLook(s, Finished(s.owned));
    } else if Held(s) {
      RefusedAtLock(s, Finished(s.owned));
    } else {
      RegisterPasses(s);
    }
  }

  lemma RunTwo(s: World, a: Step, b: Step)
    ensures Run(s, [a, b]) == Next(Next(s, a), b)
  {
    hide Next;
    assert [a, b][1..] == [b];
    RunOne(Next(s, a), b);
  }

  function EnterSteps(s: World, h: nat): seq<Step> {
    [LookEnter(h), LockEnter(h)] + if Held(s) then [] else [CheckEnter, CommitEnter]
  }

  /** So is entering the scope, for a handler at work; one that finds the registry
      locked stops there. */
  lemma EnterRuns(s: World, h: nat)
    requires Idle(s, h)
    ensures Run(s, EnterSteps(s, h)).owned == EnteringScope(s.owned, h, Held(s)).0
  {
    var steps := EnterSteps(s, h);
    if Held(s) {
      assert steps == [LookEnter(h), LockEnter(h)];
      RunTwo(s, LookEnter(h), LockEnter(h));
    } else {
      Unroll(s, steps);
      assert steps[4..] == [];
    }
  }

  /** So are closing, stopping and listing. */
  lemma CloseRuns(s: World, h: nat)
    requires Idle(s, h)
    ensures Run(s, [BeginClose(h), Signal(h)]).owned == Closing(s.owned, h)
  {
    hide Live, Run;
    RunTwo(s, BeginClose(h), Signal(h));
  }

  const STOP_STEPS := [Stop, Stop, Stop, Stop]

  lemma StopRuns(s: World)
    requires s.controller.Running?
    ensures var s' := Run(s, STOP_STEPS);
      s'.owned == Stopping(s.owned) && s'.controller.Stopped?
  {
    Unroll(s, STOP_STEPS);
    assert STOP_STEPS[4..] == [];
  }

  function CollectSteps(o: Owned): seq<Step> {
    [Collect, Snapshot(Finished(o))]
  }

  lemma CollectRuns(s: World)
    requires s.controller.AcceptJoined? && !Held(s)
    ensures var s' := Run(s, CollectSteps(s.owned));
      s'.owned == Without(s.owned, Finished(s.owned)) && s'.controller == Collected(s'.owned.handlers.Keys)
  {
    hide Run;
    RunTwo(s, Collect, Snapshot(Finished(s.owned)));
  }
}
