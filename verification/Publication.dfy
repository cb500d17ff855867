/** Publishing a release by observing and advancing the provider's state, at most
    twelve rounds. `expected` names the candidate's four assets. */
module Publication {
  import opened ActionTypes

  const ROUNDS := 12
  const ASSETS := 4

  // An asset as listed; `sound` when it is uploaded with the expected size and digest.
  datatype Asset = Asset(id: nat, name: string, sound: bool)

  // A release; `named` when tag, target, name, body and prerelease flag are the expected ones.
  datatype Release = Release(id: nat, named: bool, draft: bool, immutable: bool, assets: seq<Asset>)

  // The tag, and whether it points at the candidate's source.
  datatype Snapshot = Snapshot(tag: Option<bool>, release: Option<Release>)

  datatype State = CreateTag | CreateDraft | UploadMissing(missing: seq<string>) | Publish | VerifyPublished

  // ---------- reading a snapshot ----------

  predicate NamesDiffer(assets: seq<Asset>) {
    forall i, j :: 0 <= i < j < |assets| ==> assets[i].name != assets[j].name
  }

  predicate AssetsFit(assets: seq<Asset>, expected: seq<string>) {
    && |assets| <= ASSETS && NamesDiffer(assets)
    && forall a :: a in assets ==> a.name in expected && a.sound
  }

  function NamesOf(assets: seq<Asset>): set<string> {
    set a | a in assets :: a.name
  }

  function Missing(expected: seq<string>, seen: set<string>): seq<string> {
    if expected == [] then []
    else (if expected[0] in seen then [] else [expected[0]]) + Missing(expected[1..], seen)
  }

  // What the closed retry states say; None is a refusal.
  function StateOf(s: Snapshot, expected: seq<string>): Option<State> {
    if s.tag.None? then (if s.release.None? then Some(CreateTag) else None)
    else if !s.tag.value then None
    else if s.release.None? then Some(CreateDraft)
    else
      var r := s.release.value;
      if !r.named || !AssetsFit(r.assets, expected) then None
      else
        var missing := Missing(expected, NamesOf(r.assets));
        if !r.draft then (if r.immutable && missing == [] then Some(VerifyPublished) else None)
        else if r.immutable then None
        else if missing != [] then Some(UploadMissing(missing)) else Some(Publish)
  }

  method ReadState(s: Snapshot, expected: seq<string>) returns (state: Option<State>)
    ensures state == StateOf(s, expected)
  {
    if s.tag.None? {
      return if s.release.None? then Some(CreateTag) else None;
    }
    if !s.tag.value {
      return None;
    }
    if s.release.None? {
      return Some(CreateDraft);
    }
    var r := s.release.value;
    if !r.named {
      return None;
    }
    var fit, seen := ReadAssets(r.assets, expected);
    if !fit {
      return None;
    }
    var missing := Missing(expected, seen);
    if !r.draft {
      return if r.immutable && missing == [] then Some(VerifyPublished) else None;
    }
    if r.immutable {
      return None;
    }
    state := if missing != [] then Some(UploadMissing(missing)) else Some(Publish);
  }

  /** The loop over the listed assets. */
  method ReadAssets(assets: seq<Asset>, expected: seq<string>) returns (fit: bool, seen: set<string>)
    ensures fit <==> AssetsFit(assets, expected)
    ensures fit ==> seen == NamesOf(assets)
  {
    seen := {};
    if |assets| > ASSETS {
      return false, seen;
    }
    for i := 0 to |assets|
      invariant seen == NamesOf(assets[..i]) && NamesDiffer(assets[..i])
      invariant forall a :: a in assets[..i] ==> a.name in expected && a.sound
    {
      var a := assets[i];
      assert assets[..i + 1] == assets[..i] + [a];
      if a.name !in expected || a.name in seen || !a.sound {
        RepeatedName(assets, i, expected);
        return false, seen;
      }
      AddsName(assets[..i], a);
      Differs(assets[..i], a);
      seen := seen + {a.name};
    }
    assert assets[..|assets|] == assets;
    fit := true;
  }

  lemma Differs(assets: seq<Asset>, a: Asset)
    requires NamesDiffer(assets) && a.name !in NamesOf(assets)
    ensures NamesDiffer(assets + [a])
  {
    forall i | 0 <= i < |assets| ensures assets[i].name != a.name { assert assets[i] in assets; }
  }

  lemma RepeatedName(assets: seq<Asset>, i: nat, expected: seq<string>)
    requires i < |assets| && (assets[i].name !in expected || assets[i].name in NamesOf(assets[..i]) || !assets[i].sound)
    ensures !AssetsFit(assets, expected)
  {
    assert assets[i] in assets;
    if assets[i].name in NamesOf(assets[..i]) {
      var a :| a in assets[..i] && a.name == assets[i].name;
      var j :| 0 <= j < i && assets[j] == a;
    }
  }

  lemma {:induction false} MissingIs(expected: seq<string>, seen: set<string>)
    ensures forall n :: n in Missing(expected, seen) <==> n in expected && n !in seen
  {
    if expected != [] {
      MissingIs(expected[1..], seen);
      assert forall n :: n in expected <==> n == expected[0] || n in expected[1..];
    }
  }

  // Exactly the expected assets, each sound and listed once.
  predicate Complete(r: Release, expected: seq<string>) {
    !r.draft && r.immutable && r.named && AssetsFit(r.assets, expected) && forall n ::
      n in expected ==> n in NamesOf(r.assets)
  }

  /** A snapshot reads as published exactly when the release is final, immutable
      and holds exactly the expected assets. */
  lemma PublishedIs(s: Snapshot, expected: seq<string>)
    ensures StateOf(s, expected) == Some(VerifyPublished) <==>
      s.tag == Some(true) && s.release.Some? && Complete(s.release.value, expected)
  {
    if s.release.Some? {
      var seen := NamesOf(s.release.value.assets);
      MissingIs(expected, seen);
      var missing := Missing(expected, seen);
      if missing != [] { assert missing[0] in missing; }
    }
  }

  // A draft that may still change, under the right tag, with nothing wrong in it.
  predicate Drafted(s: Snapshot, expected: seq<string>) {
    && s.tag == Some(true) && s.release.Some? && s.release.value.draft && !s.release.value.immutable
    && s.release.value.named && AssetsFit(s.release.value.assets, expected)
  }

  /** And each other state exactly when: no tag, no release, or a draft with or without
      all its assets, of which it lists those still missing. */
  lemma StateIs(s: Snapshot, expected: seq<string>)
    ensures StateOf(s, expected) == Some(CreateTag) <==> s.tag.None? && s.release.None?
    ensures StateOf(s, expected) == Some(CreateDraft) <==> s.tag == Some(true) && s.release.None?
    ensures StateOf(s, expected) == Some(Publish) <==>
      Drafted(s, expected) && forall n :: n in expected ==> n in NamesOf(s.release.value.assets)
    ensures (StateOf(s, expected).Some? && StateOf(s, expected).value.UploadMissing?) <==>
      Drafted(s, expected) && exists n :: n in expected && n !in NamesOf(s.release.value.assets)
    ensures forall m :: StateOf(s, expected) == Some(UploadMissing(m)) ==>
      forall n :: n in m <==> n in expected && n !in NamesOf(s.release.value.assets)
  {
    if Drafted(s, expected) {
      var seen := NamesOf(s.release.value.assets);
      MissingIs(expected, seen);
      var missing := Missing(expected, seen);
      if missing != [] { assert missing[0] in missing; }
    }
  }

  // ---------- any run at all ----------

  datatype Call =
    | Observed(snapshot: Snapshot, trusted: bool)
    | Downloaded(ok: bool)
    | TagCreated
    | DraftCreated
    | Uploaded(name: string)
    | MadePublic(id: nat)

  // Fields that decide; counters and listing order do not.
  predicate SameAuthority(a: Option<Release>, b: Option<Release>) {
    if a.None? || b.None? then a.None? && b.None?
    else
      && a.value.(assets := []) == b.value.(assets := [])
      && multiset(a.value.assets) == multiset(b.value.assets)
  }

  // The state in which a provider call that changes something is right.
  ghost predicate CallFits(c: Call, s: Snapshot, expected: seq<string>) {
    match c
    case TagCreated => StateOf(s, expected) == Some(CreateTag)
    case DraftCreated => StateOf(s, expected) == Some(CreateDraft)
    case Uploaded(name) =>
      var state := StateOf(s, expected);
      state.Some? && state.value.UploadMissing? && state.value.missing != [] && name == state.value.missing[0]
    case MadePublic(id) => StateOf(s, expected) == Some(Publish) && s.release.Some? && s.release.value.id == id
    case _ => true
  }

  // The same release: its fields and its assets, in any order.
  ghost predicate SameRelease(a: Option<Release>, b: Option<Release>) {
    if a.None? || b.None? then a == b
    else
      && a.value.id == b.value.id && a.value.named == b.value.named
      && a.value.draft == b.value.draft && a.value.immutable == b.value.immutable
      && multiset(a.value.assets) == multiset(b.value.assets)
  }

  predicate TrustedLook(c: Call) {
    c.Observed? && c.trusted
  }

  // A change directly follows a look that calls for it; before that look the same release was
  // seen, and its assets, if there is one, were downloaded and found sound. At both looks the
  // evidence held.
  ghost predicate EarnedAt(log: seq<Call>, i: nat, expected: seq<string>)
    requires i < |log|
  {
    && i >= 2 && TrustedLook(log[i - 1]) && CallFits(log[i], log[i - 1].snapshot, expected)
    && var release := log[i - 1].snapshot.release;
       if release.None? then TrustedLook(log[i - 2]) && log[i - 2].snapshot.release.None?
       else i >= 3 && log[i - 2] == Downloaded(true) && TrustedLook(log[i - 3]) &&
            SameRelease(log[i - 3].snapshot.release, release)
  }

  predicate Changes(c: Call) {
    !c.Observed? && !c.Downloaded?
  }

  ghost predicate Careful(log: seq<Call>, expected: seq<string>) {
    forall i :: 0 <= i < |log| && Changes(log[i]) ==> EarnedAt(log, i, expected)
  }

  lemma CarefulAdds(log: seq<Call>, c: Call, expected: seq<string>)
    requires Careful(log, expected) && (Changes(c) ==> EarnedAt(log + [c], |log|, expected))
    ensures Careful(log + [c], expected)
  {
    hide CallFits, SameRelease;
    var all := log + [c];
    forall i | 0 <= i < |all| && Changes(all[i]) ensures EarnedAt(all, i, expected) {
      if i < |log| {
        assert EarnedAt(log, i, expected);
        assert forall k :: 0 <= k <= i ==> all[k] == log[k];
      }
    }
  }

  lemma CarefulLooks(log: seq<Call>, c: Call, expected: seq<string>)
    requires Careful(log, expected) && !Changes(c)
    ensures Careful(log + [c], expected)
  {
    hide Careful;
    CarefulAdds(log, c, expected);
  }

  lemma CarefulChanges(log: seq<Call>, first: Snapshot, s: Snapshot, c: Call, expected: seq<string>)
    requires Careful(log, expected) && CallFits(c, s, expected) && SameAuthority(s.release, first.release) && log != []
    requires if first.release.None? then log[|log| - 1] == Observed(first, true)
             else |log| >= 2 && log[|log| - 1] == Downloaded(true) && log[|log| - 2] == Observed(first, true)
    ensures Careful(log + [Observed(s, true)] + [c], expected)
  {
    hide Careful, CallFits;
    CarefulLooks(log, Observed(s, true), expected);
    var seen := log + [Observed(s, true)];
    var all, n := seen + [c], |log|;
    assert all[n + 1] == c && all[n] == Observed(s, true) && forall k :: 0 <= k < n ==> all[k] == log[k];
    SameSeen(first.release, s.release);
    CarefulAdds(seen, c, expected);
  }

  lemma SameSeen(a: Option<Release>, b: Option<Release>)
    requires SameAuthority(b, a)
    ensures SameRelease(a, b) && (a.None? <==> b.None?)
  {
    if a.Some? && b.Some? {
      var x, y := a.value.(assets := []), b.value.(assets := []);
      assert x.id == a.value.id && y.id == b.value.id && x.draft == a.value.draft && y.draft == b.value.draft;
    }
  }

  // The call that advances a state.
  function Change(state: State, release: Option<Release>): Call
    requires state != VerifyPublished && (state.UploadMissing? ==> state.missing != []) &&
      (state == Publish ==> release.Some?)
  {
    match state
    case CreateTag => TagCreated
    case CreateDraft => DraftCreated
    case UploadMissing(missing) => Uploaded(missing[0])
    case Publish => MadePublic(release.value.id)
  }

  lemma ChangeFits(s: Snapshot, release: Option<Release>, expected: seq<string>)
    requires StateOf(s, expected).Some? && StateOf(s, expected).value != VerifyPublished &&
      SameAuthority(s.release, release)
    ensures var state := StateOf(s, expected).value;
      && (state.UploadMissing? ==> state.missing != []) && (state == Publish ==> release.Some?)
      && CallFits(Change(state, release), s, expected)
  {
  }

  // What the provider answers in one round: two looks, whether the evidence holds at
  // each, whether what was downloaded is sound, whether the change is accepted.
  datatype Round = Round(first: Snapshot, trusted: bool, sound: bool, again: Snapshot, still: bool, accepted: bool)

  predicate GoesOn(r: Round, expected: seq<string>) {
    && r.trusted && StateOf(r.first, expected).Some? && StateOf(r.first, expected).value != VerifyPublished
    && (r.first.release.Some? ==> r.sound)
    && StateOf(r.again, expected) == StateOf(r.first, expected) && SameAuthority(r.again.release, r.first.release)
    && r.still && r.accepted
  }

  // The release a run returns, from the provider's answers alone.
  function Outcome(expected: seq<string>, answers: seq<Round>): Option<Release> {
    if answers == [] then None
    else if StateOf(answers[0].first, expected) == Some(VerifyPublished) then
      if answers[0].trusted && answers[0].sound then answers[0].first.release else None
    else if GoesOn(answers[0], expected) then Outcome(expected, answers[1..])
    else None
  }

  // The look that ends a run, and the download behind it.
  ghost predicate EndsSound(log: seq<Call>, seen: Option<Release>) {
    |log| >= 2 && log[|log| - 2..] == [Observed(Snapshot(Some(true), seen), true), Downloaded(true)]
  }

  // One round: the release it returns, if any, and whether another round follows.
  method OneRound(expected: seq<string>, answer: Round, ghost log: seq<Call>)
    returns (seen: Option<Release>, more: bool, ghost calls: seq<Call>)
    requires Careful(log, expected)
    ensures Careful(calls, expected) && (more ==> GoesOn(answer, expected)) && (GoesOn(answer, expected) ==> more)
    ensures seen == (if StateOf(answer.first, expected) == Some(VerifyPublished) && answer.trusted && answer.sound
                     then answer.first.release else None)
    ensures seen.Some? ==> Complete(seen.value, expected) && EndsSound(calls, seen)
  {
    hide StateOf, Complete, SameAuthority, CallFits, Change, Careful;
    seen, more, calls := None, false, log;
    var first := answer.first;
    PublishedIs(first, expected);
    CarefulLooks(calls, Observed(first, answer.trusted), expected);
    calls := calls + [Observed(first, answer.trusted)];
    if !answer.trusted {
      return;
    }
    var state := ReadState(first, expected);
    if state.None? {
      return;
    }
    if state.value == VerifyPublished {
      if answer.sound {
        CarefulLooks(calls, Downloaded(true), expected);
        calls := calls + [Downloaded(true)];
        assert calls[|calls| - 2..] == [Observed(first, true), Downloaded(true)];
        seen := first.release;
      }
      return;
    }
    if first.release.Some? {
      CarefulLooks(calls, Downloaded(answer.sound), expected);
      calls := calls + [Downloaded(answer.sound)];
      if !answer.sound {
        return;
      }
    }
    more, calls := Advancing(expected, answer, state.value, calls);
  }

  // The second look and, when nothing moved, the change.
  method Advancing(expected: seq<string>, answer: Round, state: State, ghost log: seq<Call>)
    returns (more: bool, ghost calls: seq<Call>)
    requires Careful(log, expected) && log != [] && answer.trusted
    requires StateOf(answer.first, expected) == Some(state) && state != VerifyPublished
    requires if answer.first.release.None? then log[|log| - 1] == Observed(answer.first, true)
             else
               && |log| >= 2 && log[|log| - 1] == Downloaded(true) && log[|log| - 2] == Observed(answer.first, true)
               && answer.sound
    ensures Careful(calls, expected) && (more <==> GoesOn(answer, expected))
  {
    hide StateOf, SameAuthority, CallFits, Change, Careful;
    var first, again := answer.first, answer.again;
    var repeat := ReadState(again, expected);
    if !answer.still || repeat != Some(state) || !SameAuthority(again.release, first.release) {
      CarefulLooks(log, Observed(again, answer.still), expected);
      return false, log + [Observed(again, answer.still)];
    }
    ChangeFits(again, first.release, expected);
    CarefulChanges(log, first, again, Change(state, first.release), expected);
    calls := log + [Observed(again, true)] + [Change(state, first.release)];
    more := answer.accepted;
  }

  /** The loop against a provider that may answer in any way: it returns only after
      seeing a final, immutable release with exactly the expected assets and then
      finding them sound, and it changes nothing but what it has just observed to need
      changing, in a release whose assets it found sound before, on evidence that held
      each time. */
  method Publishing(expected: seq<string>, answers: seq<Round>)
    returns (id: Option<nat>, seen: Option<Release>, ghost log: seq<Call>)
    requires |answers| == ROUNDS
    ensures seen == Outcome(expected, answers) && (id.Some? <==> seen.Some?)
    ensures id.Some? ==> seen.value.id == id.value && Complete(seen.value, expected) && EndsSound(log, seen)
    ensures Careful(log, expected)
  {
    hide StateOf, Complete, Careful, GoesOn, EndsSound;
    id, seen, log := None, None, [];
    NothingDone(expected);
    for round := 0 to ROUNDS
      invariant Careful(log, expected) && Outcome(expected, answers) == Outcome(expected, answers[round..])
      invariant id.None? && seen.None?
    {
      var answer, more := answers[round], false;
      assert answers[round..][0] == answer && answers[round..][1..] == answers[round + 1..];
      PublishedIs(answer.first, expected);
      seen, more, log := OneRound(expected, answer, log);
      if seen.Some? {
        id := Some(seen.value.id);
        return;
      }
      NotPublished(answer, expected);
      if !more {
        return;
      }
    }
  }

  lemma NothingDone(expected: seq<string>)
    ensures Careful([], expected)
  {
  }

  lemma NotPublished(answer: Round, expected: seq<string>)
    ensures GoesOn(answer, expected) ==> StateOf(answer.first, expected) != Some(VerifyPublished)
  {
  }

  // ---------- an undisturbed run ----------

  // One round's call, when the provider carries it out.
  function Advance(s: Snapshot, expected: seq<string>, id: nat): Snapshot
    requires StateOf(s, expected).Some?
  {
    match StateOf(s, expected).value
    case CreateTag => s.(tag := Some(true))
    case CreateDraft => s.(release := Some(Release(id, true, true, false, [])))
    case UploadMissing(missing) =>
      var r := s.release.value;
      s.(release := Some(r.(assets := r.assets + [Asset(id, if missing == [] then "" else missing[0], true)])))
    case Publish => s.(release := Some(s.release.value.(draft := false, immutable := true)))
    case VerifyPublished => s
  }

  // How many calls are still to be carried out.
  function Work(s: Snapshot, expected: seq<string>): nat
    requires StateOf(s, expected).Some?
  {
    match StateOf(s, expected).value
    case CreateTag => 3 + |expected|
    case CreateDraft => 2 + |expected|
    case UploadMissing(missing) => 1 + |missing|
    case Publish => 1
    case VerifyPublished => 0
  }

  ghost predicate FourNames(expected: seq<string>) {
    |expected| == ASSETS && forall i, j :: 0 <= i < j < |expected| ==> expected[i] != expected[j]
  }

  lemma {:induction false} MissingAll(expected: seq<string>)
    ensures Missing(expected, {}) == expected
  {
    if expected != [] { MissingAll(expected[1..]); }
  }

  lemma {:induction false} MissingLess(expected: seq<string>, seen: set<string>, name: string)
    requires forall i, j :: 0 <= i < j < |expected| ==> expected[i] != expected[j]
    requires Missing(expected, seen) != [] && name == Missing(expected, seen)[0]
    ensures |Missing(expected, seen + {name})| == |Missing(expected, seen)| - 1
  {
    if expected[0] in seen {
      MissingLess(expected[1..], seen, name);
    } else {
      MissingSame(expected[1..], seen, name);
    }
  }

  lemma {:induction false} MissingSame(expected: seq<string>, seen: set<string>, name: string)
    requires name !in expected
    ensures Missing(expected, seen + {name}) == Missing(expected, seen)
  {
    if expected != [] { MissingSame(expected[1..], seen, name); }
  }

  lemma FitCount(assets: seq<Asset>, expected: seq<string>)
    requires FourNames(expected) && NamesDiffer(assets) && NamesOf(assets) < (set n | n in expected)
    ensures |assets| < ASSETS
  {
    NamesCount(assets);
    ExpectedCount(expected);
    Smaller(NamesOf(assets), set n | n in expected);
  }

  lemma Smaller(a: set<string>, b: set<string>)
    requires a < b
    ensures |a| < |b|
  {
    assert b == a + (b - a);
    var x :| x in b - a;
    assert |b - a| > 0;
  }

  lemma {:induction false} NamesCount(assets: seq<Asset>)
    requires NamesDiffer(assets)
    ensures |NamesOf(assets)| == |assets|
  {
    if assets != [] {
      var last, front := assets[|assets| - 1], assets[..|assets| - 1];
      NamesCount(front);
      assert assets == front + [last];
      assert NamesOf(assets) == NamesOf(front) + {last.name};
      assert last.name !in NamesOf(front);
    }
  }

  lemma {:induction false} ExpectedCount(expected: seq<string>)
    requires forall i, j :: 0 <= i < j < |expected| ==> expected[i] != expected[j]
    ensures |set n | n in expected| == |expected|
  {
    if expected != [] {
      ExpectedCount(expected[1..]);
      assert (set n | n in expected) == {expected[0]} + set n | n in expected[1..];
    }
  }

  lemma UploadFits(assets: seq<Asset>, expected: seq<string>, id: nat)
    requires FourNames(expected) && AssetsFit(assets, expected) && Missing(expected, NamesOf(assets)) != []
    ensures var missing := Missing(expected, NamesOf(assets));
      var more := assets + [Asset(id, missing[0], true)];
      AssetsFit(more, expected) && |Missing(expected, NamesOf(more))| == |missing| - 1
  {
    var seen := NamesOf(assets);
    var missing := Missing(expected, seen);
    var more := assets + [Asset(id, missing[0], true)];
    MissingIs(expected, seen);
    assert missing[0] in missing;
    assert seen <= set n | n in expected;
    assert missing[0] in (set n | n in expected) && missing[0] !in seen;
    FitCount(assets, expected);
    assert NamesOf(more) == seen + {missing[0]} by { AddsName(assets, Asset(id, missing[0], true)); }
    MissingLess(expected, seen, missing[0]);
    forall i, j | 0 <= i < j < |more| ensures more[i].name != more[j].name {
      if j == |assets| { assert more[i] == assets[i] && assets[i].name in seen; }
    }
  }

  lemma AddsName(assets: seq<Asset>, a: Asset)
    ensures NamesOf(assets + [a]) == NamesOf(assets) + {a.name}
  {
    assert a in assets + [a];
    assert forall x :: x in assets ==> x in assets + [a];
  }

  /** Every call the provider carries out takes exactly one step off the work left. */
  lemma AdvanceWorks(s: Snapshot, expected: seq<string>, id: nat)
    requires FourNames(expected) && StateOf(s, expected).Some? && StateOf(s, expected).value != VerifyPublished
    ensures StateOf(Advance(s, expected, id), expected).Some?
    ensures Work(Advance(s, expected, id), expected) == Work(s, expected) - 1
  {
    hide AssetsFit, Missing;
    match StateOf(s, expected).value
    case CreateTag =>
    case CreateDraft =>
      assert NamesOf([]) == {};
      MissingAll(expected);
      NoAssetsFit(expected);
    case UploadMissing(missing) => UploadFits(s.release.value.assets, expected, id);
    case Publish =>
    case VerifyPublished =>
  }

  lemma NoAssetsFit(expected: seq<string>)
    ensures AssetsFit([], expected)
  {
  }

  lemma WorkBound(s: Snapshot, expected: seq<string>)
    requires FourNames(expected) && StateOf(s, expected).Some?
    ensures Work(s, expected) <= 7
  {
    if s.release.Some? { MissingBound(expected, NamesOf(s.release.value.assets)); }
  }

  lemma {:induction false} MissingBound(expected: seq<string>, seen: set<string>)
    ensures |Missing(expected, seen)| <= |expected|
  {
    if expected != [] { MissingBound(expected[1..], seen); }
  }

  // Call i takes effect when effective[i], or when it publishes.
  function After(s: Snapshot, expected: seq<string>, id: nat, effective: bool): Snapshot {
    var state := StateOf(s, expected);
    if state.Some? && (effective || state.value == Publish) then Advance(s, expected, id) else s
  }

  // The answers of a provider that nobody else changes.
  function Calm(s: Snapshot, expected: seq<string>, effective: seq<bool>): seq<Round>
    decreases |effective|
  {
    if effective == [] then []
    else
      [Round(s, true, true, s, true, true)] +
        Calm(After(s, expected, |effective|, effective[0]), expected, effective[1..])
  }

  ghost predicate Finishes(s: Snapshot, expected: seq<string>, effective: seq<bool>) {
    Outcome(expected, Calm(s, expected, effective)).Some?
  }

  lemma FinishesStep(s: Snapshot, expected: seq<string>, effective: seq<bool>)
    requires effective != [] && StateOf(s, expected).Some?
    ensures Finishes(s, expected, effective) <==>
      || StateOf(s, expected).value == VerifyPublished
      || Finishes(After(s, expected, |effective|, effective[0]), expected, effective[1..])
  {
    hide StateOf, After;
    var answers := Calm(s, expected, effective);
    assert answers[0] == Round(s, true, true, s, true, true);
    assert answers[1..] == Calm(After(s, expected, |effective|, effective[0]), expected, effective[1..]);
    PublishedIs(s, expected);
  }

  function Wasted(effective: seq<bool>): nat {
    if effective == [] then 0 else (if effective[0] then 0 else 1) + Wasted(effective[1..])
  }

  lemma {:induction false} FinishesInTime(s: Snapshot, expected: seq<string>, effective: seq<bool>)
    requires FourNames(expected) && StateOf(s, expected).Some? && Work(s, expected) + Wasted(effective) < |effective|
    ensures Finishes(s, expected, effective)
    decreases |effective|
  {
    hide StateOf, Advance, Work, Finishes;
    FinishesStep(s, expected, effective);
    if StateOf(s, expected).value != VerifyPublished {
      AdvanceWorks(s, expected, |effective|);
      FinishesInTime(After(s, expected, |effective|, effective[0]), expected, effective[1..]);
    }
  }

  /** From any consistent start, an undisturbed run with at most four ineffective
      calls returns within its twelve rounds. */
  lemma TwelveRoundsSuffice(s: Snapshot, expected: seq<string>, effective: seq<bool>)
    requires FourNames(expected) && StateOf(s, expected).Some? && |effective| == ROUNDS && Wasted(effective) <= 4
    ensures Finishes(s, expected, effective)
  {
    WorkBound(s, expected);
    FinishesInTime(s, expected, effective);
  }

  lemma {:induction false} NotYet(s: Snapshot, expected: seq<string>, effective: seq<bool>)
    requires FourNames(expected) && StateOf(s, expected).Some? && |effective| <= Work(s, expected)
    ensures !Finishes(s, expected, effective)
    decreases |effective|
  {
    hide StateOf, Advance;
    if effective != [] {
      FinishesStep(s, expected, effective);
      AdvanceWorks(s, expected, |effective|);
      NotYet(After(s, expected, |effective|, effective[0]), expected, effective[1..]);
    }
  }

  /** Five are too many: a run from nothing that wastes its first five calls does not return. */
  lemma FiveWastedCalls(expected: seq<string>, rest: seq<bool>)
    requires FourNames(expected) && |rest| == 7
    ensures !Finishes(Snapshot(None, None), expected, [false, false, false, false, false] + rest)
  {
    var s := Snapshot(None, None);
    NotYet(s, expected, rest);
    Skips(s, expected, 5, rest);
    assert seq(5, _ => false) + rest == [false, false, false, false, false] + rest;
  }

  lemma {:induction false} Skips(s: Snapshot, expected: seq<string>, n: nat, rest: seq<bool>)
    requires StateOf(s, expected) == Some(CreateTag)
    ensures Finishes(s, expected, seq(n, _ => false) + rest) == Finishes(s, expected, rest)
  {
    hide StateOf, Finishes;
    var all := seq(n, _ => false) + rest;
    if n == 0 {
      assert all == rest;
    } else {
      FinishesStep(s, expected, all);
      Skips(s, expected, n - 1, rest);
      assert all[1..] == seq(n - 1, _ => false) + rest;
    }
  }
}
