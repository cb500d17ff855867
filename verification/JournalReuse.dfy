/** Single dispatch is per canonical key. One action identifier can be dispatched
    again, under metadata that expires later, and exactly when a prune in between
    reads a clock at least the retention period past the first key's expiry. */
module JournalReuse {
  import opened ActionTypes
  import opened JournalModel
  import opened JournalInvariant
  import opened JournalSafety
  import JC = JournalCooldown

  // ---------- what a second dispatch of an identifier needs ----------

  // The key was dispatched, and a row of its identifier that is not its own expires later.
  ghost predicate Past(s: Journal, k: Key) {
    || HasIntent(s, k)
    || (k.Expires() <= s.floor && (k.ActionID() in s.rows ==> k.Expires() < s.rows[k.ActionID()].key.Expires()))
  }

  // Only a prune past the retention period takes the key's own intent away.
  lemma PastStays(s: Journal, e: Effect, now: Time, s': Journal, k: Key)
    requires RowsValid(s) && AttemptsHeld(s) && Shows(s, e, now, s') && Past(s, k)
    ensures Past(s', k)
    ensures HasIntent(s, k) && !HasIntent(s', k) ==> e.Prunes? && k.Expires() + RETENTION <= now
  {
    hide Canonical, CoolingRelated, TerminalAllowed, UnresolvedRelated, ActiveRelated, Permits,
         UnresolvedIDs;
  }

  ghost predicate PrunesFrom(steps: seq<Timed>, from: Time) {
    exists i :: 0 <= i < |steps| && steps[i].step.Prune? && from <= steps[i].now
  }

  lemma LaterPrunes(steps: seq<Timed>, from: Time)
    requires steps != [] && (PrunesFrom(steps[1..], from) || (steps[0].step.Prune? && from <= steps[0].now))
    ensures PrunesFrom(steps, from)
  {
    if PrunesFrom(steps[1..], from) {
      var i :| 0 <= i < |steps[1..]| && steps[1..][i].step.Prune? && from <= steps[1..][i].now;
      assert steps[i + 1] == steps[1..][i];
    }
  }

  lemma {:induction false} PastThroughout(s: Journal, steps: seq<Timed>, k: Key)
    requires Inv(s) && Past(s, k)
    ensures Inv(Run(s, steps)) && Past(Run(s, steps), k)
    ensures HasIntent(s, k) && !HasIntent(Run(s, steps), k) ==> PrunesFrom(steps, k.Expires() + RETENTION)
    decreases |steps|
  {
    hide Next, RowsValid, AttemptsHeld, Apart, Occupied, Shows, Past, HasIntent, PrunesFrom;
    if steps != [] {
      var s' := Next(s, steps[0]);
      var e := StepShows(s, steps[0]);
      StepKeeps(s, steps[0]);
      PastStays(s, e, steps[0].now, s', k);
      PastThroughout(s', steps[1..], k);
      if HasIntent(s, k) && !HasIntent(Run(s, steps), k) {
        LaterPrunes(steps, k.Expires() + RETENTION);
      }
    }
  }

  // The step that dispatches the identifier again does so under a later key.
  lemma PastOutlived(s: Journal, t: Timed, k: Key, k': Key)
    requires Inv(s) && Past(s, k) && k'.ActionID() == k.ActionID() && CommitsIntent(s, t, k')
    ensures k.Expires() < k'.Expires() && !HasIntent(s, k)
  {
    hide Next, RowsValid, AttemptsHeld, Apart, Occupied, Shows;
    var e := StepShows(s, t);
    PastStays(s, e, t.now, Next(s, t), k);
    SpentStays(s, e, t.now, Next(s, t), k);
    JC.IntentComesFromAttempt(s, e, t.now, Next(s, t), k');
    HeldIsRow(s, k'.ActionID());
  }

  lemma HeldIsRow(s: Journal, id: string)
    requires AttemptsHeld(s) && id in s.active
    ensures id in s.rows && s.rows[id].key == s.active[id].record.key
  {
  }

  /** Once a key is dispatched, every later dispatch of its action identifier in any
      run, under any clock, is under a key that expires strictly later, and only
      after a prune that reads at least the retention period past the first expiry. */
  lemma RepeatNeedsPrune(s: Journal, steps: seq<Timed>, t: Timed, k: Key, k': Key)
    requires Inv(s) && HasIntent(s, k) && k'.ActionID() == k.ActionID() && CommitsIntent(Run(s, steps), t, k')
    ensures k.Expires() < k'.Expires() && PrunesFrom(steps, k.Expires() + RETENTION)
  {
    hide Inv, Run, Next, HasIntent, PrunesFrom;
    PastThroughout(s, steps, k);
    PastOutlived(Run(s, steps), t, k, k');
  }

  // A dispatch of the identifier under some key that expires at `from` or later.
  ghost predicate Dispatches(s: Journal, t: Timed, id: string, from: Time) {
    exists k: Key :: k.ActionID() == id && from <= k.Expires() && CommitsIntent(s, t, k)
  }

  ghost function DispatchCount(s: Journal, steps: seq<Timed>, id: string, from: Time): nat
    decreases |steps|
  {
    if steps == [] then 0
    else (if Dispatches(s, steps[0], id, from) then 1 else 0) + DispatchCount(Next(s, steps[0]), steps[1..], id, from)
  }

  lemma {:induction false} PastNotAgain(s: Journal, before: seq<Timed>, steps: seq<Timed>, k: Key, from: Time)
    requires Inv(s) && HasIntent(s, k) && from <= k.Expires() && !PrunesFrom(before + steps, from + RETENTION)
    ensures DispatchCount(Run(s, before), steps, k.ActionID(), from) == 0
    decreases |steps|
  {
    hide Next, Run, Inv, HasIntent, PrunesFrom, CommitsIntent;
    if steps != [] {
      var s' := Run(s, before);
      forall k': Key | k'.ActionID() == k.ActionID() && CommitsIntent(s', steps[0], k') ensures false {
        RepeatNeedsPrune(s, before, steps[0], k, k');
        FewerPrunes(before, steps, k.Expires(), from);
      }
      JC.RunSplits(s, before, [steps[0]]);
      RunOne(s', steps[0]);
      assert before + [steps[0]] + steps[1..] == before + steps;
      PastNotAgain(s, before + [steps[0]], steps[1..], k, from);
    }
  }

  lemma RunOne(s: Journal, t: Timed)
    ensures Run(s, [t]) == Next(s, t)
  {
    hide Next;
    assert Run(Next(s, t), [t][1..]) == Next(s, t);
  }

  lemma FewerPrunes(a: seq<Timed>, b: seq<Timed>, late: Time, from: Time)
    requires from <= late && PrunesFrom(a, late + RETENTION)
    ensures PrunesFrom(a + b, from + RETENTION)
  {
    var i :| 0 <= i < |a| && a[i].step.Prune? && late + RETENTION <= a[i].now;
    assert (a + b)[i] == a[i];
  }

  lemma PrunesTail(steps: seq<Timed>, from: Time)
    requires steps != [] && !PrunesFrom(steps, from)
    ensures !PrunesFrom(steps[1..], from)
  {
    if PrunesFrom(steps[1..], from) { LaterPrunes(steps, from); }
  }

  /** Of all keys of one action identifier that expire at `from` or later, a run
      dispatches at most one as long as no prune in it reads `from` plus the
      retention period or later; the clock may run backwards. */
  lemma {:induction false} IdentifierDispatchedOnce(s: Journal, steps: seq<Timed>, id: string, from: Time)
    requires Inv(s) && !PrunesFrom(steps, from + RETENTION)
    ensures DispatchCount(s, steps, id, from) <= 1
    decreases |steps|
  {
    hide Next, Inv, HasIntent, PrunesFrom;
    if steps != [] {
      var s' := Next(s, steps[0]);
      StepKeeps(s, steps[0]);
      PrunesTail(steps, from + RETENTION);
      if Dispatches(s, steps[0], id, from) {
        var k: Key :| k.ActionID() == id && from <= k.Expires() && CommitsIntent(s, steps[0], k);
        assert [] + steps[1..] == steps[1..];
        PastNotAgain(s', [], steps[1..], k, from);
      } else {
        IdentifierDispatchedOnce(s', steps[1..], id, from);
      }
    }
  }

  // ---------- and what suffices for one ----------

  // The same request, issued 60 days later.
  function Reissued(k: Key): Key {
    k.(request := k.request.(created := k.request.created + 60 * DAY, expires := k.request.expires + 60 * DAY))
  }

  function Effected(op: Operation): Code {
    match op case Start => Started case Stop => Stopped case Restart => Restarted
  }

  function At(step: Step, now: Time): Timed {
    Timed(step, now, Committed, true)
  }

  function Admitted(k: Key): Record { Record(k, k.request.created, None, None) }
  function Dispatched(k: Key): Record { Admitted(k).(intent := Some(k.request.created)) }
  function Ended(k: Key): Record { Dispatched(k).(terminal := Some(Terminal(k.request.created,
                 Effected(k.request.operation), false))) }

  function Store(b: Binding, floor: Time, r: Record, open: bool): Journal {
    Journal(b, map[r.key.ActionID() := r], floor, false,
            if open then map[r.key.ActionID() := Attempt(0, r)] else map[])
  }

  lemma AdmitsInto(b: Binding, k: Key, floor: Time)
    requires Canonical(k) && BoundTo(k, b) && floor < k.Expires() && ParsesAsStamp(floor)
    ensures Next(Journal(b, map[], floor, false, map[]), At(Acquire(k, 0, false), k.request.created)) ==
      Store(b, floor, Admitted(k), true)
  {
    hide Canonical;
    var s := Journal(b, map[], floor, false, map[]);
    assert Permits(s.active) == {} && UnresolvedIDs(s.rows) == {};
    CreatedBeforeExpiry(k);
  }

  lemma CreatedBeforeExpiry(k: Key)
    requires Canonical(k)
    ensures k.request.created < k.Expires() <= k.request.created + 300 * SECOND
    ensures ParsesAsStamp(k.request.created) && ParsesAsStamp(k.Expires())
  {
  }

  lemma DispatchesIn(b: Binding, k: Key, floor: Time)
    requires Canonical(k)
    ensures Next(Store(b, floor, Admitted(k), true), At(Intent(k.ActionID(), 0), k.request.created)) ==
      Store(b, floor, Dispatched(k), true)
  {
    hide Canonical;
    CreatedBeforeExpiry(k);
  }

  lemma EndsIn(b: Binding, k: Key, floor: Time)
    requires Canonical(k)
    ensures Next(Store(b, floor, Dispatched(k), true),
      At(Finish(k.ActionID(), 0, Effected(k.request.operation)), k.request.created))
      == Store(b, floor, Ended(k), true)
  {
    hide Canonical;
    CreatedBeforeExpiry(k);
  }

  lemma PrunesAway(b: Binding, k: Key)
    requires Canonical(k) && 0 < k.request.created
    ensures Next(Store(b, 0, Ended(k), false), At(Prune({k.ActionID()}), k.Expires() + RETENTION))
      == Journal(b, map[], k.Expires(), false, map[])
  {
    hide Canonical;
    CreatedBeforeExpiry(k);
    var s := Store(b, 0, Ended(k), false);
    assert Prunable(s, k.ActionID(), k.Expires() + RETENTION);
    assert PrunedRows(s, {k.ActionID()}, k.Expires() + RETENTION) == map[];
  }

  lemma ReissuedCanonical(k: Key)
    requires Canonical(k) && 0 < k.request.created && k.Expires() + 60 * DAY < YEAR_10000
    ensures Canonical(Reissued(k)) && k.Expires() < Reissued(k).Expires()
  {
  }

  function FirstLife(k: Key): seq<Timed> {
    [At(Acquire(k, 0, false), k.request.created), At(Intent(k.ActionID(), 0), k.request.created),
     At(Finish(k.ActionID(), 0, Effected(k.request.operation)), k.request.created),
       At(Release(k.ActionID(), 0), k.request.created),
     At(Prune({k.ActionID()}), k.Expires() + RETENTION)]
  }

  function Again(k: Key): seq<Timed> {
    [At(Acquire(Reissued(k), 0, false), Reissued(k).request.created),
     At(Intent(k.ActionID(), 0), Reissued(k).request.created)]
  }

  /** For every canonical key there is a run on one store that dispatches its
      action identifier twice, each time under its own key, and prunes once,
      exactly the retention period after the first key's expiry. */
  lemma IdentifierDispatchedTwice(b: Binding, k: Key)
    requires Canonical(k) && BoundTo(k, b) && 0 < k.request.created && k.Expires() + 60 * DAY < YEAR_10000
    ensures var life, again := FirstLife(k), Again(k);
      && Reissued(k).ActionID() == k.ActionID()
      && HasIntent(Run(Provisioned(b), life[..2]), k)
      && Run(Provisioned(b), life) == Journal(b, map[], k.Expires(), false, map[])
      && CommitsIntent(Next(Run(Provisioned(b), life), again[0]), again[1], Reissued(k))
  {
    hide Canonical, Next, Apply;
    var k' := Reissued(k);
    CreatedBeforeExpiry(k);
    ReissuedCanonical(k);
    var life := FirstLife(k);
    AdmitsInto(b, k, 0);
    DispatchesIn(b, k, 0);
    EndsIn(b, k, 0);
    Releases(b, k);
    PrunesAway(b, k);
    RunTwo(Provisioned(b), life[..2]);
    RunFive(Provisioned(b), life);
    AdmitsInto(b, k', k.Expires());
    DispatchesIn(b, k', k.Expires());
  }

  // Some run dispatches the key and later its identifier again, pruning in between no later than `limit`.
  ghost predicate Repeatable(b: Binding, k: Key, limit: Time) {
    exists before: seq<Timed>, after: seq<Timed>, t: Timed, k': Key ::
      && HasIntent(Run(Provisioned(b), before), k) && k'.ActionID() == k.ActionID()
      && CommitsIntent(Run(Run(Provisioned(b), before), after), t, k')
      && forall i :: 0 <= i < |after| && after[i].step.Prune? ==> after[i].now <= limit
  }

  /** An identifier can be dispatched again exactly when pruning may read the
      retention period past its first key's expiry. */
  lemma RepeatableExactly(b: Binding, k: Key, limit: Time)
    requires Canonical(k) && BoundTo(k, b) && 0 < k.request.created && k.Expires() + 60 * DAY < YEAR_10000
    ensures Repeatable(b, k, limit) <==> k.Expires() + RETENTION <= limit
  {
    hide Canonical, Next, Run, HasIntent, CommitsIntent;
    if Repeatable(b, k, limit) {
      var before: seq<Timed>, after: seq<Timed>, t: Timed, k': Key :|
        && HasIntent(Run(Provisioned(b), before), k) && k'.ActionID() == k.ActionID()
        && CommitsIntent(Run(Run(Provisioned(b), before), after), t, k')
        && forall i :: 0 <= i < |after| && after[i].step.Prune? ==> after[i].now <= limit;
      ProvisionedHolds(b);
      RunKeeps(Provisioned(b), before);
      RepeatNeedsPrune(Run(Provisioned(b), before), after, t, k, k');
    }
    if k.Expires() + RETENTION <= limit {
      var life, again := FirstLife(k), Again(k);
      IdentifierDispatchedTwice(b, k);
      var before, after := life[..2], life[2..] + [again[0]];
      JC.RunSplits(Provisioned(b), before, life[2..]);
      assert before + life[2..] == life;
      JC.RunSplits(Run(Provisioned(b), before), life[2..], [again[0]]);
      RunOne(Run(Provisioned(b), life), again[0]);
      assert CommitsIntent(Run(Run(Provisioned(b), before), after), again[1], Reissued(k));
    }
  }

  lemma Releases(b: Binding, k: Key)
    ensures Next(Store(b, 0, Ended(k), true), At(Release(k.ActionID(), 0), k.request.created)) ==
      Store(b, 0, Ended(k), false)
  {
  }

  lemma RunTwo(s: Journal, steps: seq<Timed>)
    requires |steps| == 2
    ensures Run(s, steps) == Next(Next(s, steps[0]), steps[1])
  {
    hide Next;
    var s1 := Next(s, steps[0]);
    assert Run(s1, steps[1..]) == Run(Next(s1, steps[1]), steps[1..][1..]);
    assert steps[1..][1..] == [];
  }

  lemma RunFive(s: Journal, steps: seq<Timed>)
    requires |steps| == 5
    ensures Run(s, steps) == Next(Next(Next(Next(Next(s, steps[0]), steps[1]), steps[2]), steps[3]), steps[4])
  {
    hide Next;
    var s1 := Next(s, steps[0]);
    var s2 := Next(s1, steps[1]);
    var s3 := Next(s2, steps[2]);
    assert steps[1..][1..] == steps[2..] && steps[2..][1..] == steps[3..];
    assert Run(s1, steps[1..]) == Run(s2, steps[2..]);
    assert Run(s2, steps[2..]) == Run(s3, steps[3..]);
    RunTwo(s3, steps[3..]);
  }
}
