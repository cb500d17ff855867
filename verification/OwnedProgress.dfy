/** The handlers never get stuck: from every state the controller has not given up
    in, a run can still shut down, and while admission is open a free place is used. */
module OwnedProgress {
  import opened OwnedJoin

  // ---------- shutting down ----------

  function AcceptWork(a: Accept): nat {
    match a
    case Ended => 0
    case Accepting => 1
    case Checked => 10
    case Locked(_) => 11
    case Looked => 12
    case HasSlot => 13
  }

  function EnterWork(e: Entering): nat {
    match e case Nobody => 0 case Passed(_) => 1 case Trying(_) => 2
  }

  function ControlWork(c: Controller): nat {
    match c
    case Running => 10
    case Closed => 9
    case Fenced => 8
    case Halted => 7
    case Stopped => 6
    case AcceptJoined => 5
    case Collecting(_) => 4
    case Collected(_) => 3
    case Joined => 2
    case GaveUp => 0
  }

  // What is left to be done before everything is closed.
  function Work(s: World): nat {
    AcceptWork(s.accept) + EnterWork(s.entering) + 3 * |s.looked| + |Live(s.owned)| + |Live(s.owned) - s.owned.closed|
    + ControlWork(s.controller) + if s.shut then 0 else 1
  }

  ghost predicate Helps(s: World, step: Step) {
    !Next(s, step).controller.GaveUp? && Work(Next(s, step)) < Work(s)
  }

  lemma EnterHelps(s: World) returns (step: Step)
    requires Inv(s) && !s.controller.GaveUp? && !s.entering.Nobody?
    ensures Helps(s, step)
  {
    hide Numbered, Occupies, AtWork, Exclusive, Bounded, Draining, Live;
    step := if s.entering.Trying? then CheckEnter else CommitEnter;
    if s.entering.Passed? { SameLive(s.owned, Selected(s.owned, s.entering.handler)); }
  }

  lemma SameLive(o: Owned, p: Owned)
    requires p.next == o.next && p.done == o.done && p.closed == o.closed
    ensures Live(p) == Live(o) && Live(p) - p.closed == Live(o) - o.closed
  {
  }

  lemma AcceptHelps(s: World) returns (step: Step)
    requires Inv(s) && !s.controller.GaveUp? && s.accept != Ended
    ensures Helps(s, step)
  {
    hide Numbered, Occupies, AtWork, Exclusive, Draining, Live, Sweeps, Finished;
    step := match s.accept
      case Accepting => EndAccept
      case HasSlot => Look
      case Looked => Lock
      case Locked(_) => Check(Finished(s.owned))
      case Checked => Commit;
    if s.accept.Locked? {
      FullSweep(s.owned, s.accept.found);
      SameLive(s.owned, Without(s.owned, Finished(s.owned)));
    } else if s.accept.Checked? {
      AddedLive(s.owned);
    }
  }

  lemma FullSweep(o: Owned, found: set<nat>)
    requires found <= o.done
    ensures Sweeps(o, found, Finished(o))
  {
  }

  lemma AddedLive(o: Owned)
    requires Numbered(o)
    ensures |Live(Added(o))| <= |Live(o)| + 1 && |Live(Added(o)) - Added(o).closed| <= |Live(o) - o.closed| + 1
  {
    NextIsNew(o);
    AddLive(o);
    var p := Added(o);
    Fewer(Live(p) - p.closed, (Live(o) - o.closed) + {o.next});
    assert |Live(o) + {o.next}| <= |Live(o)| + 1;
    assert |(Live(o) - o.closed) + {o.next}| <= |Live(o) - o.closed| + 1;
  }

  lemma LookedHelps(s: World) returns (step: Step)
    requires Inv(s) && !s.controller.GaveUp? && s.entering.Nobody? && s.looked != {}
    ensures Helps(s, step)
  {
    hide Numbered, Occupies, AtWork, Exclusive, Bounded, Draining, Live, Held;
    var h :| h in s.looked;
    step := LockEnter(h);
    assert s.looked == (s.looked - {h}) + {h};
  }

  lemma SignalHelps(s: World, h: nat)
    requires Inv(s) && !s.controller.GaveUp? && h in Live(s.owned) && h in s.owned.closed
    ensures Helps(s, Signal(h))
  {
    hide Occupies, AtWork, Exclusive, Bounded, Draining, Live, Numbered;
    var o := s.owned;
    SignalNumbered(o, h);
    Removes(Live(o), h);
    Fewer(Live(o) - {h} - o.closed, Live(o) - o.closed);
  }

  lemma CloseHelps(s: World, h: nat)
    requires Inv(s) && !s.controller.GaveUp? && s.entering.Nobody? && s.looked == {}
    requires h in Live(s.owned) && h !in s.owned.closed
    ensures Helps(s, BeginClose(h))
  {
    hide Occupies, AtWork, Exclusive, Bounded, Draining, Live, Numbered;
    var o := s.owned;
    CloseNumbered(o, h);
    assert Live(o) - (o.closed + {h}) == Live(o) - o.closed - {h};
    Removes(Live(o) - o.closed, h);
  }

  lemma LiveHelps(s: World) returns (step: Step)
    requires Inv(s) && !s.controller.GaveUp? && s.entering.Nobody? && s.looked == {} && Live(s.owned) != {}
    ensures Helps(s, step)
  {
    hide Inv, Live, Helps;
    var h :| h in Live(s.owned);
    if h in s.owned.closed {
      SignalHelps(s, h);
      step := Signal(h);
    } else {
      CloseHelps(s, h);
      step := BeginClose(h);
    }
  }

  lemma Removes(a: set<nat>, h: nat)
    requires h in a
    ensures |a - {h}| < |a|
  {
    assert a == (a - {h}) + {h};
  }

  lemma AllSignalled(o: Owned, signals: set<nat>)
    requires Live(o) == {} && forall h :: h in signals ==> h < o.next
    ensures signals <= o.done
  {
    forall h | h in signals ensures h in o.done { LiveNow(o, h); }
  }

  lemma SnapshotHelps(s: World) returns (step: Step)
    requires Inv(s) && s.controller.Collecting?
    ensures Helps(s, step)
  {
    hide Numbered, Occupies, AtWork, Exclusive, Bounded, Sweeps, Finished, Live;
    step := Snapshot(Finished(s.owned));
    FullSweep(s.owned, s.controller.found);
    SameLive(s.owned, Without(s.owned, Finished(s.owned)));
  }

  lemma JoinHelps(s: World) returns (step: Step)
    requires Inv(s) && !s.shut && s.accept == Ended && s.entering.Nobody? && Live(s.owned) == {}
    requires s.controller.Stopped? || s.controller.AcceptJoined? || s.controller.Collected? || s.controller.Joined?
    ensures Helps(s, step)
  {
    hide Inv, Live;
    if s.controller.Collected? {
      step := JoinAll(false);
      AllJoin(s);
    } else {
      step := if s.controller.Stopped? then JoinAccept(false) else if s.controller.AcceptJoined? then Collect else Shut;
    }
  }

  lemma AllJoin(s: World)
    requires Inv(s) && s.controller.Collected? && Live(s.owned) == {}
    ensures Helps(s, JoinAll(false))
  {
    hide Numbered, Occupies, AtWork, Exclusive, Bounded, Live;
    AllSignalled(s.owned, s.controller.signals);
  }

  lemma StopHelps(s: World)
    requires s.controller.Running? || s.controller.Closed? || s.controller.Fenced? || s.controller.Halted?
    ensures Helps(s, Stop)
  {
    hide Live;
    SameLive(s.owned, Next(s, Stop).owned);
  }

  lemma ControlHelps(s: World) returns (step: Step)
    requires Inv(s) && !s.controller.GaveUp? && !s.shut
    requires s.accept == Ended && s.entering.Nobody? && Live(s.owned) == {}
    ensures Helps(s, step)
  {
    hide Inv, Helps, Live;
    match s.controller
    case Collecting(_) => step := SnapshotHelps(s);
    case Stopped | AcceptJoined | Collected(_) | Joined => step := JoinHelps(s);
    case _ =>
      StopHelps(s);
      step := Stop;
  }

  lemma SomeStepHelps(s: World) returns (step: Step)
    requires Inv(s) && !s.controller.GaveUp? && !s.shut
    ensures Helps(s, step)
  {
    hide Inv, Next, Live, Helps;
    if !s.entering.Nobody? {
      step := EnterHelps(s);
    } else if s.accept != Ended {
      step := AcceptHelps(s);
    } else if s.looked != {} {
      step := LookedHelps(s);
    } else if Live(s.owned) != {} {
      step := LiveHelps(s);
    } else {
      step := ControlHelps(s);
    }
  }

  /** From every reachable state in which the controller has not given up, some
      continuation ends every handler and closes the journal and the engine. */
  lemma {:induction false} CanShutDown(s: World) returns (steps: seq<Step>)
    requires Inv(s) && !s.controller.GaveUp?
    ensures Run(s, steps).shut
    decreases Work(s)
  {
    hide Inv, Next, Work;
    if s.shut {
      steps := [];
    } else {
      var step := SomeStepHelps(s);
      StepKeeps(s, step);
      var rest := CanShutDown(Next(s, step));
      steps := [step] + rest;
      assert steps[1..] == rest;
    }
  }

  // ---------- serving ----------

  // What is left to be done before the accept loop registers another handler.
  function ServeWork(s: World): nat {
    EnterWork(s.entering) + |s.holders| +
    match s.accept
    case Accepting => 10
    case HasSlot => 4
    case Looked => 3
    case Locked(_) => 2
    case Checked => 1
    case Ended => 0
  }

  ghost predicate Open(s: World) {
    Inv(s) && s.controller.Running? && Admits(s.owned) && s.accept != Ended
  }

  ghost predicate Brings(s: World, step: Step) {
    var s' := Next(s, step);
    && s'.controller.Running? && Admits(s'.owned) && s'.accept != Ended
    && (|| s'.owned.next == s.owned.next + 1
        || (s'.owned.next == s.owned.next && Live(s'.owned) == Live(s.owned) && ServeWork(s') < ServeWork(s)))
  }

  lemma EnterBrings(s: World) returns (step: Step)
    requires Open(s) && !s.entering.Nobody?
    ensures Brings(s, step)
  {
    hide Numbered, Occupies, AtWork, Exclusive, Bounded, Draining, Live;
    step := if s.entering.Trying? then CheckEnter else CommitEnter;
    if s.entering.Passed? { SameLive(s.owned, Selected(s.owned, s.entering.handler)); }
  }

  lemma RegisterBrings(s: World) returns (step: Step)
    requires Open(s) && s.entering.Nobody? && s.accept != Accepting
    ensures Brings(s, step)
  {
    hide Numbered, Occupies, AtWork, Exclusive, Draining, Live, Sweeps, Finished, CheckStep;
    step := match s.accept
      case HasSlot => Look
      case Looked => Lock
      case Locked(_) => Check(Finished(s.owned))
      case _ => Commit;
    if s.accept.Locked? {
      FullSweep(s.owned, s.accept.found);
      NeverRefusedFull(s, Finished(s.owned));
      CheckLeaves(s, Finished(s.owned));
    }
  }

  lemma CheckLeaves(s: World, removed: set<nat>)
    ensures var s' := CheckStep(s, removed);
      && s'.controller == s.controller && s'.entering == s.entering && s'.holders == s.holders
      && s'.owned.next == s.owned.next && Live(s'.owned) == Live(s.owned) && (Admits(s'.owned) <==> Admits(s.owned))
  {
    SameLive(s.owned, CheckStep(s, removed).owned);
  }

  lemma SlotBrings(s: World) returns (step: Step)
    requires Open(s) && s.accept == Accepting && |Live(s.owned)| < 3
    ensures Brings(s, step)
  {
    hide Numbered, AtWork, Exclusive, Draining;
    if Slots(s) < 3 {
      step := TakeSlot;
    } else {
      if s.holders <= Live(s.owned) { Fewer(s.holders, Live(s.owned)); }
      var h :| h in s.holders && h !in Live(s.owned);
      step := FreeSlot(h);
      Removes(s.holders, h);
    }
  }

  /** While admission is open and fewer than three handlers are at work, some
      continuation registers another one. */
  lemma {:induction false} CanServe(s: World) returns (steps: seq<Step>)
    requires Open(s) && |Live(s.owned)| < 3
    ensures Run(s, steps).owned.next == s.owned.next + 1
    decreases ServeWork(s)
  {
    hide Inv, Next, ServeWork, Live, Admits;
    var step;
    if !s.entering.Nobody? {
      step := EnterBrings(s);
    } else if s.accept != Accepting {
      step := RegisterBrings(s);
    } else {
      step := SlotBrings(s);
    }
    StepKeeps(s, step);
    var rest: seq<Step> := [];
    if Next(s, step).owned.next == s.owned.next {
      rest := CanServe(Next(s, step));
    }
    steps := [step] + rest;
    assert steps[1..] == rest;
  }
}
