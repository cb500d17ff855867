/** Exclusion and cooldown over whole runs, across restarts and pruning. */
module JournalCooldown {
  import opened ActionTypes
  import opened JournalModel
  import opened JournalInvariant
  import opened JournalSafety

  ghost predicate NonDecreasing(steps: seq<Timed>, from: Time) {
    && (forall i :: 0 <= i < |steps| ==> from <= steps[i].now)
    && (forall i, j :: 0 <= i < j < |steps| ==> steps[i].now <= steps[j].now)
  }

  lemma {:induction false} RunSplits(s: Journal, a: seq<Timed>, b: seq<Timed>)
    ensures Run(s, a + b) == Run(Run(s, a), b)
    decreases |a|
  {
    hide Next;
    if a == [] {
      assert a + b == b;
    } else {
      assert (a + b)[1..] == a[1..] + b;
      RunSplits(Next(s, a[0]), a[1..], b);
    }
  }

  /** Open attempts and unresolved intents of every reachable state are pairwise
      unrelated, and together they never exceed two. */
  lemma Exclusion(b: Binding, steps: seq<Timed>, x: string, y: string)
    requires var s := Run(Provisioned(b), steps); x != y && InPlay(s, x) && InPlay(s, y)
    ensures var s := Run(Provisioned(b), steps); !Related(s.rows[x].key, s.rows[y].key) && |Occupied(s)| <= MAX_BUSY
  {
    hide Run, RowsValid, AttemptsHeld, Occupied, Related;
    ProvisionedHolds(b);
    RunKeeps(Provisioned(b), steps);
  }

  ghost predicate EndedAt(s: Journal, k: Key, at: Time) {
    && Holds(s, k) && s.rows[k.ActionID()].terminal.Some?
    && s.rows[k.ActionID()].terminal.value.at == at && Success(s.rows[k.ActionID()].terminal.value.code)
  }

  // The effect of `k` at `at` still holds back every undispatched related attempt.
  ghost predicate HoldsBack(s: Journal, k: Key, at: Time, clock: Time) {
    && (EndedAt(s, k, at) || at + RETENTION <= clock)
    && (forall id :: id in s.active && Undispatched(s.active[id].record) && Related(s.active[id].record.key, k) ==>
          at + COOLDOWN <= clock)
  }

  lemma HoldsBackStays(s: Journal, e: Effect, now: Time, s': Journal, k: Key, at: Time, clock: Time)
    requires RowsValid(s) && AttemptsHeld(s) && Shows(s, e, now, s') && HoldsBack(s, k, at, clock) && clock <= now
    ensures HoldsBack(s', k, at, now)
  {
    hide Canonical, TerminalAllowed, UnresolvedRelated, ActiveRelated, Permits, UnresolvedIDs;
  }

  // The step that commits an intent is a transition of an undispatched attempt.
  lemma IntentComesFromAttempt(s: Journal, e: Effect, now: Time, s': Journal, k: Key)
    requires RowsValid(s) && AttemptsHeld(s) && Shows(s, e, now, s') && !HasIntent(s, k) && HasIntent(s', k)
    ensures k.ActionID() in s.active && s.active[k.ActionID()].record.key == k &&
      Undispatched(s.active[k.ActionID()].record)
  {
    hide Canonical, TerminalAllowed, UnresolvedRelated, ActiveRelated, Permits, UnresolvedIDs,
         CoolingRelated;
  }

  lemma {:induction false} HeldBackRun(s: Journal, steps: seq<Timed>, k: Key, at: Time, clock: Time)
    requires Inv(s) && HoldsBack(s, k, at, clock) && NonDecreasing(steps, clock)
    ensures Inv(Run(s, steps))
    ensures HoldsBack(Run(s, steps), k, at, if steps == [] then clock else steps[|steps| - 1].now)
    decreases |steps|
  {
    hide Next, RowsValid, AttemptsHeld, Apart, Occupied, Shows, Caused, HoldsBack;
    if steps != [] {
      var e := StepShows(s, steps[0]);
      StepKeeps(s, steps[0]);
      HoldsBackStays(s, e, steps[0].now, Next(s, steps[0]), k, at, clock);
      HeldBackRun(Next(s, steps[0]), steps[1..], k, at, steps[0].now);
    }
  }

  ghost predicate CommitsSuccess(s: Journal, t: Timed, k: Key) {
    Holds(s, k) && s.rows[k.ActionID()].terminal.None? && EndedAt(Next(s, t), k, t.now)
  }

  lemma SuccessHoldsBack(s: Journal, e: Effect, now: Time, s': Journal, k: Key)
    requires AttemptsHeld(s) && Apart(s) && Shows(s, e, now, s')
    requires Holds(s, k) && s.rows[k.ActionID()].terminal.None? && EndedAt(s', k, now)
    ensures HoldsBack(s', k, now, now)
  {
    hide Canonical, UnresolvedRelated, ActiveRelated, Permits, UnresolvedIDs, CoolingRelated, Related;
    assert e.Moves? && e.id == k.ActionID();
    forall id | id in s'.active && id != e.id && Undispatched(s'.active[id].record)
      ensures !Related(s'.active[id].record.key, k)
    {
      assert InPlay(s, id) && InPlay(s, e.id);
    }
  }

  /** With a clock that never runs backwards, an effect on a target is followed by
      the next intent on a related target only after the 30 second cooldown -
      across attempt and handle closes, crashes, reopenings and pruning. */
  lemma CooldownBetweenEffects(b: Binding, steps: seq<Timed>, i: nat, j: nat, k1: Key, k2: Key)
    requires i < j < |steps| && NonDecreasing(steps, steps[0].now) && Related(k1, k2)
    requires CommitsSuccess(Run(Provisioned(b), steps[..i]), steps[i], k1)
    requires CommitsIntent(Run(Provisioned(b), steps[..j]), steps[j], k2)
    ensures steps[i].now + COOLDOWN <= steps[j].now
  {
    hide Next, Run, RowsValid, AttemptsHeld, Apart, Occupied, Shows, Caused, HasIntent, EndedAt, Holds;
    var si := Run(Provisioned(b), steps[..i]);
    var sj := Run(Provisioned(b), steps[..j]);
    ProvisionedHolds(b);
    RunKeeps(Provisioned(b), steps[..i]);
    var e := StepShows(si, steps[i]);
    SuccessHoldsBack(si, e, steps[i].now, Next(si, steps[i]), k1);
    StepKeeps(si, steps[i]);
    var between := steps[i+1..j];
    HeldBackRun(Next(si, steps[i]), between, k1, steps[i].now, steps[i].now);
    SplitAt(b, steps, i, j);
    RunKeeps(Provisioned(b), steps[..j]);
    var e' := StepShows(sj, steps[j]);
    IntentComesFromAttempt(sj, e', steps[j].now, Next(sj, steps[j]), k2);
    assert Related(k2, k1);
  }

  lemma SplitAt(b: Binding, steps: seq<Timed>, i: nat, j: nat)
    requires i < j <= |steps|
    ensures Run(Provisioned(b), steps[..j]) == Run(Next(Run(Provisioned(b), steps[..i]), steps[i]), steps[i+1..j])
  {
    hide Next, Provisioned;
    var p := Provisioned(b);
    assert steps[..j] == steps[..i] + ([steps[i]] + steps[i+1..j]);
    RunSplits(p, steps[..i], [steps[i]] + steps[i+1..j]);
    assert ([steps[i]] + steps[i+1..j])[1..] == steps[i+1..j];
  }
}
