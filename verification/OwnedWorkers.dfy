/** The registry of the broker's handlers and the wait for their completion. Each
    call, uninterrupted, is a sequence of the interleaved model's steps. */
module OwnedWorkers {
  import opened ActionTypes
  import opened OwnedJoin

  // ---------- the registry ----------

  class Registry {
    var handlers: Handlers
    var next: nat
    var closed: set<nat>
    var done: set<nat>
    var closing: bool
    var fenced: bool
    var halted: bool
    var cancelled: bool

    ghost function View(): Owned
      reads this
    {
      Owned(handlers, next, closed, done, closing, fenced, halted, cancelled)
    }

    constructor ()
      ensures View() == EMPTY
    {
      handlers, next, closed, done := map[], 0, {}, {};
      closing, fenced, halted, cancelled := false, false, false, false;
    }

    method PruneDone()
      modifies `handlers
      ensures View() == old(Without(View(), Finished(View())))
    {
      var rest := handlers.Keys;
      while rest != {}
        invariant rest <= old(handlers).Keys && handlers == old(handlers) - (done * (old(handlers).Keys - rest))
        decreases rest
      {
        var h :| h in rest;
        rest := rest - {h};
        if h in done {
          handlers := handlers - {h};
        }
      }
      assert handlers == old(handlers) - old(Finished(View()));
    }

    /** Adds a handler unless the registry is stopping, busy or full. */
    method Register(locked: bool) returns (h: Option<nat>)
      modifies `handlers, `next
      ensures (View(), h) == Registering(old(View()), locked)
      ensures forall w: World :: w.owned == old(View()) && w.accept == HasSlot && locked == Held(w) ==>
        Run(w, RegisterSteps(w.owned)).owned == View()
    {
      hide Run, Held, RegisterSteps;
      forall w: World | w.accept == HasSlot
        ensures Run(w, RegisterSteps(w.owned)).owned == Registering(w.owned, Held(w)).0
      {
        RegisterRuns(w);
      }
      if closing || cancelled || locked {
        return None;
      }
      PruneDone();
      if closing || cancelled || |handlers| >= MAX_HANDLERS {
        return None;
      }
      h, handlers, next := Some(next), handlers[next := Greeting], next + 1;
    }

    /** Lets a greeted handler into the execution scope, never after the fence. */
    method EnterNonRelay(h: nat, locked: bool) returns (ok: bool)
      modifies `handlers
      ensures (View(), ok) == EnteringScope(old(View()), h, locked)
      ensures forall w: World :: w.owned == old(View()) && Idle(w, h) && locked == Held(w) ==>
        Run(w, EnterSteps(w, h)).owned == View()
    {
      hide Run, Held, Idle, EnterSteps;
      forall w: World | Idle(w, h)
        ensures Run(w, EnterSteps(w, h)).owned == EnteringScope(w.owned, h, Held(w)).0
      {
        EnterRuns(w, h);
      }
      if fenced || closing || locked {
        return false;
      }
      if h in closed || h !in handlers || handlers[h] != Greeting || fenced || halted {
        return false;
      }
      handlers := handlers[h := NonRelay];
      ok := true;
    }

    /** The handler's last action: its completion is signalled once. */
    method Close(h: nat)
      modifies `closed, `done
      ensures View() == Closing(old(View()), h)
      ensures forall w: World :: w.owned == old(View()) && Idle(w, h) ==>
        Run(w, [BeginClose(h), Signal(h)]).owned == View()
    {
      hide Run, Idle;
      forall w: World | Idle(w, h) ensures Run(w, [BeginClose(h), Signal(h)]).owned == Closing(w.owned, h) {
        CloseRuns(w, h);
      }
      if h in closed {
        return;
      }
      closed := closed + {h};
      done := done + {h};
    }

    method StopAdmission()
      modifies `closing, `fenced, `halted, `cancelled
      ensures View() == Stopping(old(View()))
      ensures forall w: World :: w.owned == old(View()) && w.controller.Running? ==>
        Run(w, STOP_STEPS).owned == View()
    {
      hide Run;
      forall w: World | w.controller.Running? ensures Run(w, STOP_STEPS).owned == Stopping(w.owned) {
        StopRuns(w);
      }
      closing := true;
      fenced := true;
      halted := true;
      cancelled := true;
    }

    method All(locked: bool) returns (signals: Option<seq<nat>>)
      modifies `handlers
      ensures locked ==> signals.None? && View() == old(View())
      ensures !locked ==>
        && View() == old(Without(View(), Finished(View()))) && signals.Some? && |signals.value| == |handlers|
        && forall h :: h in signals.value <==> h in handlers
      ensures !locked ==>
        forall w: World :: w.owned == old(View()) && w.controller.AcceptJoined? && !Held(w) ==>
          Run(w, CollectSteps(w.owned)).controller == Collected(set h | h in signals.value)
    {
      hide Run, Held, CollectSteps;
      forall w: World | w.controller.AcceptJoined? && !Held(w)
        ensures Run(w, CollectSteps(w.owned)).controller == Collected(Without(w.owned, Finished(w.owned)).handlers.Keys)
      {
        CollectRuns(w);
      }
      if locked {
        return None;
      }
      PruneDone();
      var rest, list: seq<nat> := handlers.Keys, [];
      while rest != {}
        invariant rest <= handlers.Keys && |list| + |rest| == |handlers|
        invariant forall h :: h in list <==> h in handlers.Keys - rest
        decreases rest
      {
        var h :| h in rest;
        rest, list := rest - {h}, list + [h];
      }
      signals := Some(list);
      assert (set h | h in list) == handlers.Keys;
    }
  }

  // ---------- waiting for completion ----------

  // Completion signals: they are only ever raised.
  class Signals {
    var done: set<nat>

    method Pass()
      modifies this
      ensures old(done) <= done
    {
      var more: set<nat> := *;
      done := done + more;
    }

    method AllDone(signals: seq<Option<nat>>) returns (all: bool)
      ensures all <==> forall s :: s in signals ==> s.Some? && s.value in done
    {
      for i := 0 to |signals|
        invariant forall j :: 0 <= j < i ==> signals[j].Some? && signals[j].value in done
      {
        if signals[i].None? || signals[i].value !in done {
          assert signals[i] in signals;
          return false;
        }
      }
      all := true;
    }

    /** Waits for every signal until the deadline, at most `polls` looks. Joined
        means that all have really completed, however the wait ended. */
    method WaitJoin(signals: seq<Option<nat>>, begins: bool, polls: nat) returns (joined: bool, timely: bool)
      modifies this
      ensures old(done) <= done && (timely ==> joined)
      ensures joined <==> |signals| <= MAX_SIGNALS && forall s :: s in signals ==> s.Some? && s.value in done
    {
      timely := false;
      if |signals| > MAX_SIGNALS {
        return false, false;
      }
      if None in signals {
        return false, false;
      }
      if !begins {
        joined := AllDone(signals);
        return;
      }
      var left := polls;
      for i := 0 to |signals|
        invariant old(done) <= done && forall j :: 0 <= j < i ==> signals[j].Some? && signals[j].value in done
      {
        assert signals[i] in signals;
        while signals[i].value !in done
          invariant old(done) <= done && forall j :: 0 <= j < i ==> signals[j].Some? && signals[j].value in done
          decreases left
        {
          if left == 0 {
            joined := AllDone(signals);
            return;
          }
          left := left - 1;
          Pass();
        }
      }
      joined := true;
      timely := *;
    }
  }
}
