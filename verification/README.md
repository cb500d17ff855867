# Home Lab Observer: verified models

Home Lab Observer lets a remote owner ask for a container to be started, stopped
or restarted. A worker claims the request, a broker reserves and binds it, a
coordinator runs it, and a SQLite journal records admission, intent and outcome.
This project models that control plane and four algorithms beside it in Dafny, and
proves what they keep over whole runs, for every input and against every behaviour
of the parts they do not control.

- **The journal** (`JournalModel`, `JournalInvariant`, `JournalSafety`,
  `JournalCooldown`, `JournalReuse`, `JournalGrants`) is a state machine whose
  transactions may commit, fail, or be left uncertain, under a clock that may run
  backwards; `JournalGrants` says exactly when it must grant, record and prune.
  `JournalTables`, `JournalTransactions` and `JournalStore` are the two SQL tables,
  the loops over them and the journal object; every operation is proved to be one
  step of the state machine.
- **Policy and broker** (`Policy`, `PolicyBinding`, `BrokerModel`,
  `BrokerInvariant`, `BrokerSafety`, `BrokerAnswers`, `BrokerState`): which mappings
  a policy may hold, how a receipt selects one, and reservations on top of the
  journal: what they keep, and exactly when each call is accepted.
- **Coordinator and budgets** (`Coordinator`, `SingleDispatch`, `Budget`,
  `Authority`): one execution against adversarial collaborators, many of them
  interleaved over one journal, and the timing windows over three drifting clocks.
- **Worker and handlers** (`RecoveryRelay`, `Worker`, `OwnedWorkers`,
  `OwnedJoin`, `OwnedProgress`): the recovery relay, the latch that ends claiming, and
  the joined shutdown of the broker's handlers.
- **Build identities** (`Scanner`, `IdentityText`, `ReleaseIdentity`,
  `ConnectedIdentity`): a streaming scan for one framed record.
- **Task XML** (`TaskXml`, `TaskTree`, `TaskPass`, `TaskCanonical`, `TaskOrder`,
  `TaskMeaning`, `TaskApart`): the single-pass canonicaliser against a recursive one,
  and exactly which documents it accepts and which it takes for the same task.
- **Activation** (`Activation`, `ActivationSafety`, `ActivationTransaction`) and
  **Publication**: a start-up transaction and a retry loop.

The coordinator, the worker's conversation and the activation are each an automaton
over the calls they make and the answers they get. The methods are proved to follow
their automaton exactly, and the promises are lemmas about its runs: what an outcome
has behind it, which cause every refusal has, and that a run in which everything goes
well succeeds.

Times are integer nanoseconds since Go's zero time. A time that may be unset is an
`Option`. SHA-256 digests and canonical JSON are represented by the values they
encode injectively.

Six things the code does differ from what its documentation or an obvious reading
suggests. Each is a lemma, next to the exact condition under which the reading is right.

- Stamps are written with a later year, as long as their text fits its column, but
  read back only with four digits, so a clock past year 9999 can strand the store:
  `FarFutureStrands`, `StepStampsExactly`, `RunReloadsExactly`.
- An action identifier, unlike a journal key, can be dispatched twice, exactly when a
  prune in between reads a clock 30 days or more past its first key's expiry:
  `IdentifierDispatchedTwice`, `RepeatableExactly`, `AtMostOneIntent`.
- Stopping admission takes no lock, so the one call that has passed its last check can
  still register or select a handler afterwards: `OneStillStarts`, `StartsExactly`,
  `EntersExactly`.
- The connected identity's ending overlaps its scan marker, and a version may contain
  the marker, so an accepted file can hold the marker more than once: `MarkedTwice`,
  `OnceIff`.
- The reporting cap of 139 seconds can end a report early unless the readiness came
  from a control exchange: `WideReadiness`, `ReportCapSilent`.
- The server bracket around a claim limits the round trip to 9.9 seconds, so the 89
  second ceiling on the allowance and the request's own expiry never bind, and the
  lease outlives a permitted mutation by 54.9 seconds: `RoundTripIsShort`,
  `EndIsTheGuards`, `LeaseMargin`.

## Model

| member | source | states |
|---|---|---|
| `JournalInvariant.AcquireBodyMeans` | internal/actionjournal/journal_linux.go:240-328 | An admission writes in one of three ways only: it grants an undispatched record clear of unresolved, cooling and open related work, it expires an undispatched one, or it reads one back |
| `JournalInvariant.StepKeeps` | internal/actionjournal/journal_linux.go:175-338 | Every step, whatever its transaction's fate and the clock, keeps all rows valid, attempts backed by rows, work in play pairwise unrelated, at most 1000 records and at most two occupied places |
| `JournalInvariant.RunKeeps` | internal/actionjournal/journal_linux.go:88-364 | The same over every run |
| `JournalGrants.GrantedExactly` | internal/actionjournal/journal_linux.go:240-328 | An acquisition whose transaction commits is granted exactly when what it reads is readable, the identifier is free or the key's own undispatched record with no attempt open, created <= now < expires, nothing related is uncertain, open or within 30 seconds of an effect, fewer than two places are taken, and a new record expires after the floor and finds fewer than 1000 |
| `JournalGrants.AnswerHasCause` | internal/actionjournal/journal_linux.go:223-338 | Every other answer to an acquisition has its own cause; a usable journal whose transaction commits asks for recovery only over an unreadable stamp |
| `JournalGrants.DoneExactly` | internal/actionjournal/attempt_linux.go:30-74 | An intent or a result is recorded exactly for the attempt's own handle, once, in time, and with a code that fits the operation and whether it was dispatched |
| `JournalGrants.PrunedExactly` | internal/actionjournal/prune_linux.go:20-62 | A prune keeps records in use, unpicked or uncertain as they are, deletes finished ones past retention, denies expired undispatched ones, and raises the floor to 30 days ago |
| `JournalSafety.ReloadsExactly` | internal/actionjournal/schema_linux.go:61-126 | A reachable state passes verification exactly when its stamps can be read back |
| `JournalSafety.StepStampsExactly` | internal/actionjournal/schema_linux.go:11-37 | By state, step and clock reading alone: a step leaves every stored stamp readable exactly unless it commits a denial, a terminal or a prune floor from year 10000 on whose text still fits the 30 characters of its column |
| `JournalSafety.EveryRunReloads` | internal/actionjournal/load_linux.go:123-166 | Every durable state of a run, after ambiguous commits too, passes verification while the clock stays within four-digit years (RFC 3339 section 5.6) |
| `JournalSafety.RunReloadsExactly` | internal/actionjournal/schema_linux.go:61-126 | Exactly the runs without such a step pass verification after every step |
| `JournalSafety.FarFutureStrands` | internal/actionjournal/journal_linux.go:71-78 | One prune with a clock far past year 9999 leaves a store that no later open accepts |
| `JournalSafety.AtMostOneIntent` | internal/actionjournal/prune_linux.go:20-62 | Over every run at most one intent is made durable for a canonical key |
| `JournalSafety.SpentNeverDispatches` | internal/actionjournal/journal_linux.go:280-283 | A key whose row was dispatched or pruned below the floor never dispatches again |
| `JournalReuse.RepeatNeedsPrune` | internal/actionjournal/prune_linux.go:36-58 | In any run and under any clock, a later dispatch of a dispatched key's action identifier is under a key that expires strictly later, and follows a prune that reads 30 days or more past the first expiry |
| `JournalReuse.IdentifierDispatchedOnce` | internal/actionjournal/journal_linux.go:280-283 | Of the keys of one identifier that expire at some time or later, a run dispatches at most one as long as no prune in it reads 30 days or more past that time |
| `JournalReuse.IdentifierDispatchedTwice` | internal/actionjournal/prune_linux.go:49-56 | For every canonical key of the years 1 to 9999, less the last 60 days, there is a run that dispatches its action identifier twice, under two keys, and prunes once, exactly 30 days after the first expires |
| `JournalReuse.RepeatableExactly` | internal/actionjournal/prune_linux.go:20-62 | For those keys, some run dispatches the identifier again exactly when prunes may read 30 days past its first key's expiry |
| `JournalSafety.PermanentFence` | internal/actionjournal/journal_linux.go:252-291 | An unresolved intent without an attempt is never resolved, changed or deleted, and nothing related is ever granted again |
| `JournalSafety.LosingRaisesFence` | internal/actionjournal/attempt_linux.go:75-86 | Closing an attempt, closing the journal or losing it leaves every undecided intent behind that fence |
| `JournalCooldown.Exclusion` | internal/actionjournal/journal_linux.go:298-313 | In every reachable state open attempts and unresolved intents are pairwise unrelated and at most two |
| `JournalCooldown.CooldownBetweenEffects` | internal/actionjournal/journal_linux.go:288-297 | With a clock that never runs backwards, the next intent on a related target comes at least 30 seconds after a recorded effect, across restarts and pruning |
| `JournalTables.SoundIsRebuilt` | internal/actionjournal/load_linux.go:123-166 | Validating the rows of a stored record gives that record back exactly when it is sound |
| `JournalTables.RebuiltIsSound` | internal/actionjournal/load_linux.go:123-166 | A record that validation rebuilds is sound and is what the rows hold |
| `JournalTables.EncodesOne` | internal/actionjournal/load_linux.go:55-121 | Two sets of records held by the same tables are equal |
| `JournalTables.LoadActions` | internal/actionjournal/load_linux.go:76-99 | The pass over action rows keeps every validated row and fails exactly on a bad one |
| `JournalTables.Load` | internal/actionjournal/load_linux.go:55-121 | Loading succeeds exactly on tables that encode at most 1000 sound records, and returns them |
| `JournalTables.VerifyUnresolved` | internal/actionjournal/schema_linux.go:92-106 | The pass over records accepts exactly when at most two are unresolved and no two of those share a target or a container |
| `JournalTables.Verify` | internal/actionjournal/schema_linux.go:86-114 | Reopening accepts exactly the tables of a store that satisfies every reload condition |
| `JournalTransactions.ScanRelated` | internal/actionjournal/journal_linux.go:284-297 | The scan fails exactly when a related record cannot be read, and otherwise reports a blocking record exactly when there is one |
| `JournalTransactions.ScanActive` | internal/actionjournal/journal_linux.go:298-306 | The pass over open attempts finds a related one exactly when there is one, and else counts the undispatched |
| `JournalTransactions.CountsUnresolved` | internal/actionjournal/journal_linux.go:307-310 | The event count equals the number of unresolved records |
| `JournalTransactions.AdmitTransaction` | internal/actionjournal/journal_linux.go:284-328 | The second half of an admission, over tables, is that of the state machine |
| `JournalTransactions.AcquireTransaction` | internal/actionjournal/journal_linux.go:240-328 | The whole admission body, over tables, is that of the state machine |
| `JournalTransactions.TransitionTransaction` | internal/actionjournal/attempt_linux.go:43-63 | Recording an intent or a terminal, over tables, is that of the state machine |
| `JournalTransactions.PruneTransaction` | internal/actionjournal/prune_linux.go:20-62 | Pruning, over tables, is that of the state machine for at most fifty prunable rows, and for all of them when fewer than fifty |
| `JournalStore.Store.Conclude` | internal/actionjournal/journal_linux.go:183-216 | Commit, rollback and uncertainty change the stored tables and the failed mark exactly as the state machine's transaction does |
| `JournalStore.Store.Acquire` | internal/actionjournal/journal_linux.go:223-338 | Acquiring is one admission step; a grant hands out a fresh mutable attempt, a retained record one that is not, and no other attempt changes |
| `JournalStore.Store.Transition` | internal/actionjournal/attempt_linux.go:30-74 | An intent or a finish is one transition step and moves only its own attempt |
| `JournalStore.Store.Existing` | internal/actionjournal/attempt_linux.go:11-25 | An attempt reports its terminal, an unknown outcome after an intent, nothing when undispatched, and unavailable once closed or failed |
| `JournalStore.Store.CloseAttempt` | internal/actionjournal/attempt_linux.go:75-86 | Closing an attempt releases its own registration and no other |
| `JournalStore.Store.Prune` | internal/actionjournal/prune_linux.go:10-63 | Pruning is one prune step of at most fifty rows |
| `JournalStore.Store.Close` | internal/actionjournal/journal_linux.go:339-364 | Closing makes the journal unusable, drops every registration and closes every registered attempt |
| `JournalStore.Store.Reopen` | internal/actionjournal/schema_linux.go:61-114 | Reopening is the reopen step: usable exactly when the tables verify |
| `JournalStore.Store.AdmissionSnapshot` | internal/actionjournal/snapshot_linux.go:13-43 | The snapshot succeeds exactly when the journal is free, usable and readable, and shows every row once with its outcome and whether it is in use |
| `Policy.ValidateMappings` | internal/actionbroker/policy.go:172-192 | The loop with its running revision and lookup maps accepts exactly the allowed mapping lists |
| `Policy.ValidateCurrent` | internal/actionbroker/policy.go:193-216 | The loop over current revisions accepts exactly the allowed selections |
| `Policy.ValidatePolicy` | internal/actionbroker/policy.go:167-218 | The validator accepts exactly the documents of the order-free definition |
| `PolicyBinding.AtMostOneMatch` | internal/actionbroker/policy_binding.go:28-42 | Under an accepted policy a receipt matches at most one mapping, among current or retained ones |
| `PolicyBinding.ResolveReceipt` | internal/actionbroker/policy_binding.go:20-65 | The lookup finds the one mapping a receipt names or nothing; its ambiguity branch is dead |
| `PolicyBinding.MapsBack` | internal/actionbroker/policy.go:219-235 | A key bound from a mapping maps back to exactly that mapping |
| `PolicyBinding.ValidateMappingReferences` | internal/actionbroker/broker_files.go:81-97 | The reference check accepts exactly when every key maps back into the policy |
| `PolicyBinding.ValidateEnginePolicy` | internal/actionbroker/broker_files.go:63-80 | The engine check accepts exactly when every current mapping is of this generation |
| `PolicyBinding.BoundKeysPass` | internal/actionbroker/broker_files.go:63-103 | Every key the broker binds passes both checks later made of stored records |
| `PolicyBinding.CurrentTargetsApart` | internal/actionbroker/policy.go:193-216 | Current mappings share a container exactly when they share a target |
| `BrokerInvariant.StepKeepsCore` | internal/actionbroker/reservations_linux.go:68-272 | Whatever the clock reads and the policy says, every broker step keeps the journal valid, attempts owned by bound reservations, and both limits |
| `BrokerInvariant.StepKeepsSpaced` | internal/actionbroker/reservations_linux.go:94-130 | Under an accepted policy, whatever the clock reads, every step keeps bound reservations apart from one another and from undecided records |
| `BrokerInvariant.StepKeepsRested` | internal/actionbroker/reservations_linux.go:94-130 | A step whose clock does not run backwards keeps what is bound clear of every effect of the last 30 seconds |
| `BrokerSafety.FirstHolds` | internal/actionbroker/reservations_linux.go:57-66 | A broker started with any policy on a store that any earlier use has left satisfies all of these |
| `BrokerSafety.RunKeeps` | internal/actionbroker/reservations_linux.go:57-272 | Over every run the first holds under any clock and policy, the second under any clock and an accepted policy, the third with a clock that never runs backwards |
| `BrokerSafety.ReservationsConserved` | internal/actionbroker/reservations_linux.go:132-178 | In every reachable state, under any clock and policy, live reservations plus unowned unresolved records are at most two, and stored records plus reservations not yet stored at most 1000 |
| `BrokerSafety.BoundNeverRefused` | internal/actionbroker/reservations_linux.go:202-238 | Under an accepted policy and a clock that never runs backwards, acquiring a bound claim never fails for an unresolved target, cooldown, related attempt, permit limit or full journal |
| `BrokerAnswers.BoundGranted` | internal/actionbroker/reservations_linux.go:202-238 | Under the same policy and clock, acquiring a bound claim whose transaction commits is granted exactly when its own and related records and the floor are readable, nothing of it is dispatched or open, it is in time and a new one above the floor: no other work stands in its way |
| `BrokerSafety.BrokerFence` | internal/actionbroker/reservations_linux.go:68-88 | Once an uncertain record has no live owner, in any continuation, under any clock and policy, it stays, nobody owns it, no reservation succeeds and no broker comes up |
| `BrokerAnswers.ReservedExactly` | internal/actionbroker/reservations_linux.go:132-178 | A reservation is made exactly when the broker is clear and open, fewer than two are live, fewer than 1000 records are accounted for and some target is on offer, and it holds exactly the targets on offer |
| `BrokerAnswers.BoundExactly` | internal/actionbroker/reservations_linux.go:202-238 | A claim is bound exactly when its reservation is live and untried, the broker clear and open, the exchange timely and one offered mapping of a held target matches; the key is that mapping's, and the try is used up whatever the answer |
| `BrokerAnswers.EndedExactly` | internal/actionbroker/reservations_linux.go:247-272 | An end is accepted exactly for a tried reservation whose record nobody uses in a readable journal, removes it alone, and calls for recovery exactly when no result is retained |
| `BrokerAnswers.UnconfirmedStops` | internal/actionbroker/reservations_linux.go:267-271 | After an end without a retained result every reservation of every continuation without a new start is answered with recovery required and adds nothing |
| `BrokerAnswers.ConfirmedGoesOn` | internal/actionbroker/reservations_linux.go:247-272 | After an end with a retained result the call for recovery is what it was, and the next reservation is refused for recovery only over a closed broker, an earlier call for it, a record nobody accounts for or a taken nonce |
| `BrokerState.FindStray` | internal/actionbroker/reservations_linux.go:73-83 | The loops latch recovery exactly when a record in use is nobody's |
| `BrokerState.EligibleTargets` | internal/actionbroker/reservations_linux.go:94-130 | The nested loops compute exactly the targets of unblocked current mappings |
| `BrokerState.CountLogical` | internal/actionbroker/reservations_linux.go:150-159 | The count is the stored records plus the live reservations without one |
| `BrokerState.State.Snapshot` | internal/actionbroker/reservations_linux.go:68-88 | Reading the journal latches recovery for strays and succeeds exactly when nothing calls for recovery |
| `BrokerState.State.Reserve` | internal/actionbroker/reservations_linux.go:132-178 | Reserving is one reservation step |
| `BrokerState.State.Bind` | internal/actionbroker/reservations_linux.go:202-238 | Binding a claim is one binding step, and even a failed try uses the reservation's claim up |
| `BrokerState.State.ReleaseUnclaimed` | internal/actionbroker/reservations_linux.go:192-200 | Releasing is one release step |
| `BrokerState.State.Abandon` | internal/actionbroker/conversation_linux.go:57-66 | Abandoning an unbound reservation is one abandon step |
| `BrokerState.State.Finish` | internal/actionbroker/reservations_linux.go:247-272 | Finishing is one end step: kept while the record is in use, and calling for recovery without a retained terminal |
| `BrokerState.NewState` | internal/actionbroker/reservations_linux.go:57-66 | A broker starts exactly on an allowed policy and a journal with nothing in use |
| `BrokerState.RetainedReport` | internal/actionbroker/execution_linux.go:158-191 | A report exists exactly when the journal holds a dispatched or finished record of this very key that nobody uses and its code fits the operation, and says what that record says |
| `BrokerState.ReportsAllButDenied` | internal/actionprotocol/execution.go:123-135 | In a valid journal that is every unused record of the key but a denied or an undecided undispatched one, and a report names an effect exactly when the action was dispatched and finished |
| `Coordinator.Earliest` | internal/actioncore/worker.go:312-319 | The result is one of the times and none is earlier |
| `Coordinator.RemainingIs` | internal/actioncore/worker.go:241-250 | Time is left exactly while the context lives and both deadlines lie ahead, and never more than to either |
| `Coordinator.Valid` | internal/actioncore/worker.go:269-297 | The loop over operations and the field checks accept exactly the valid requests |
| `Coordinator.Execute` | internal/actioncore/worker.go:123-231 | Against every behaviour of authority, journal, engine and clocks the calls follow the protocol automaton, stop only where it stops, and are answered as it answers there |
| `Coordinator.MutationNeedsEverything` | internal/actioncore/worker.go:142-221 | An engine call is the fourteenth event after two permissions, a granted attempt with nothing retained, an inspection that finds Created or Exited for a start and Running for a stop or restart, and a committed intent, each with time left; it carries the request's operation, container and grace within its budget |
| `Coordinator.AtMostOneMutation` | internal/actioncore/worker.go:208-221 | No run calls the engine to change anything twice |
| `Coordinator.SettledExactly` | internal/actioncore/worker.go:250-266 | A result recorded without an intent is ALREADY_RUNNING exactly for a start of a running container, ALREADY_STOPPED exactly for a stop of a created or exited one, else STATE_CONFLICT, and never for a state the operation changes |
| `Coordinator.AnswerAfterIntent` | internal/actioncore/worker.go:201-231 | Once an intent was attempted the answer is OUTCOME_UNKNOWN or the operation's own success, STARTED, STOPPED or RESTARTED, the latter only after a timely return with more than five seconds left and a committed finish |
| `Coordinator.SuccessIsEarned` | internal/actioncore/worker.go:148-231 | A success code is one the journal retained for this operation, or a dispatch that returned in time and was recorded |
| `Coordinator.GrantedIsClosed` | internal/actioncore/worker.go:148-163 | Every granted attempt is closed before the answer |
| `Coordinator.AnswerHasCause` | internal/actioncore/worker.go:123-231 | For every grace a request may have, each answer has its cause among the calls made |
| `Coordinator.FairWorldServes` | internal/actioncore/worker.go:123-231 | When every call goes well and time suffices, the change is carried out and recorded, or there was nothing to do for the state that was found |
| `SingleDispatch.AtMostOneMutationPerKey` | internal/actioncore/worker.go:201-221 | Over every interleaving of executions, crashes, reopenings and prunes the container is changed at most once for any key |
| `SingleDispatch.OneMutationPossible` | internal/actioncore/worker.go:123-231 | For every canonical key of the store's scope that expires after a new store's floor there is a run that changes the container exactly once, records the operation's own effect and gives the attempt back |
| `Budget.Conversation.AcceptClaim` | internal/actionbudget/budget.go:138-171 | A conversation accepts exactly one claim, if its first meets every bound, and a refused one uses it up |
| `Budget.LeaseMargin` | internal/actionbudget/budget.go:211-242 | Whenever the mutation check passes, the wall clock is more than 54.9 seconds before the claim's lease ends |
| `Budget.LeaseMarginIsSharp` | internal/actionbudget/budget.go:101-118 | Clocks exist that meet every check with one nanosecond more than that |
| `Budget.RoundTripIsShort` | internal/actionbudget/budget.go:114-171 | An accepted claim's round trip is at most 9.9 seconds, so its allowance is the round trip plus 60 seconds |
| `Budget.DecisionBeforeLease` | internal/actionbudget/decision.go:11-18 | A decision accepted in time was stamped by the server more than 50 seconds before the lease ends |
| `Budget.BracketIsNarrow` | internal/actionbudget/budget.go:114-118 | A server bracket spans at most 9.9 seconds of boot time |
| `Budget.OriginCapNeverFires` | internal/actionbudget/delivery.go:25-39 | On any readiness the 134 second cap never ends delivery or execution before their own deadlines |
| `Budget.ReportCapNeverFires` | internal/actionbudget/report.go:13-23 | After a control-time readiness the 139 second cap never ends reporting before 119 seconds |
| `Budget.ReportCapSilent` | internal/actionbudget/budget.go:97-112 | The reporting cap is silent exactly when the conversation began within 20 seconds of its origin |
| `Budget.WideReadiness` | internal/actionbudget/budget.go:120-133 | A plain server-time readiness can begin later than that |
| `Budget.EndIsTheGuards` | internal/actioncore/worker.go:135-136 | The coordinator's end is the guard's deadline measured from the same start |
| `Budget.ReportOutlastsExecution` | internal/actionbudget/report.go:13-23 | While execution is in budget so is reporting |
| `Authority.Conversation.Check` | internal/actionbroker/execution_linux.go:70-110 | A check sends one challenge, numbered next, exactly when fewer than two were sent, the invocation is current, the key is its own and the nonce differs from the last; it succeeds exactly when the answer to it names the same request, lease, number and nonce, permits, was made within the lease and in time, and the invocation is still current |
| `RecoveryRelay.FinalizeIsEarned` | internal/actionworker/recovery_linux.go:120-224 | The remote service is asked to finalize at most once per relay, as the fourth leg, after a retained request of this owner, an approval current for it and a permitting decision on that approval, and for the same receipt |
| `RecoveryRelay.FinalizationPossible` | internal/actionworker/recovery_linux.go:120-224 | For every approval of the worker's scope there is a relay of four well-answered legs that finalizes it |
| `RecoveryRelay.RefusalEnds` | internal/actionworker/recovery_linux.go:79-83 | Only a failed finalization is followed by another leg |
| `RecoveryRelay.KeepsSubject` | internal/actionworker/recovery_linux.go:94-100 | Every leg of a relay speaks of the first query's action and receipt |
| `Worker.ConversationAsks` | internal/actionworker/conversation_linux.go:91-288 | A conversation asks the remote service for one snapshot, or for one claim, at most two checks of its lease, the second only after a permitted first, and one report after both, which when all ends well was acknowledged |
| `Worker.LatchHolds` | internal/actionworker/conversation_linux.go:91-288 | After a check that does not permit, a claim without a reply, an unsound snapshot, a report of an unknown outcome or without a receipt, or a recovery beyond a status, the conversation makes no further snapshot, claim, check or report and ends with execution disabled |
| `Worker.LatchIsEarned` | internal/actionworker/conversation_linux.go:148-288 | A conversation that ends well disables execution only for such an event |
| `Worker.DisabledOnlyRelays` | internal/actionworker/conversation_linux.go:91-147 | A disabled worker asks for no snapshot, claim, check or report |
| `Worker.FairEndsWell` | internal/actionworker/conversation_linux.go:91-288 | While enabled, a conversation in which nothing goes wrong ends well |
| `Worker.ClaimIsServed` | internal/actionworker/conversation_linux.go:148-288 | For every lease and either kind of result there is a claim that is carried through, and it disables execution exactly for an unknown outcome |
| `Worker.RelayIsLegal` | internal/actionworker/recovery_linux.go:35-103 | At every moment of a conversation the relay's legs are at most five, each delivered in the state the earlier ones left |
| `Worker.LatchedForGood` | internal/actionworker/run_linux.go:60-105 | Over any number of conversations no snapshot, claim, check or report follows such an event, in its own conversation or a later one |
| `Worker.EnabledStays` | internal/actionworker/run_linux.go:60-105 | Conversations that end well without such an event leave execution enabled or disabled as it was |
| `Worker.Client.RelayRecovery` | internal/actionworker/recovery_linux.go:35-103 | The relay loop follows the automaton to its end and disables execution exactly unless it only asks for status |
| `Worker.Client.ClaimAndExecute` | internal/actionworker/conversation_linux.go:148-288 | A claim follows the automaton to its end, and execution is disabled exactly when it was or the automaton latches |
| `Worker.Client.Converse` | internal/actionworker/conversation_linux.go:91-288 | A conversation is a run of the automaton, and execution is disabled exactly when it was or the run latches |
| `Worker.Client.RunLoop` | internal/actionworker/run_linux.go:60-105 | Each conversation begins with the latch the earlier ones left, and only the last one may be one that ends the loop |
| `OwnedWorkers.Registry.PruneDone` | internal/actionbroker/owned_workers.go:93-101 | Exactly the handlers that signalled completion are dropped |
| `OwnedWorkers.Registry.Register` | internal/actionbroker/owned_workers.go:47-61 | From any state of the interleaved model in which the accept loop holds a slot, an uninterrupted call leaves the registry as the look, lock, check and commit steps do, refusals included |
| `OwnedJoin.RegisterRuns` | internal/actionbroker/owned_workers.go:47-61 | Those four steps add a handler exactly when the registry is open, free and, after pruning, below three, and give it the accept loop's slot |
| `OwnedWorkers.Registry.EnterNonRelay` | internal/actionbroker/owned_workers.go:65-79 | For any handler at work, an uninterrupted call leaves the registry as the look, lock, check and commit steps of its entry do, refusals included |
| `OwnedJoin.EnterRuns` | internal/actionbroker/owned_workers.go:65-79 | Those steps select exactly a greeted, unclosed handler, and only while the registry is open, free, unfenced and not halted |
| `OwnedWorkers.Registry.Close` | internal/actionbroker/owned_workers.go:81-90 | For any handler at work, a call is its begin-close and signal steps; a second call changes nothing |
| `OwnedJoin.CloseRuns` | internal/actionbroker/owned_workers.go:81-90 | Those two steps signal a handler's completion once |
| `OwnedWorkers.Registry.StopAdmission` | internal/actionbroker/owned_workers.go:103-110 | A call is the controller's four stop steps |
| `OwnedJoin.StopRuns` | internal/actionbroker/owned_workers.go:103-110 | Those four steps set every mark and leave the controller stopped |
| `OwnedWorkers.Registry.All` | internal/actionbroker/owned_workers.go:112-123 | The signals listed, once each, are exactly those of the handlers still registered, and those the controller's lock and snapshot steps collect |
| `OwnedJoin.CollectRuns` | internal/actionbroker/owned_workers.go:112-123 | Those two steps drop the finished handlers and collect all others |
| `OwnedWorkers.Signals.WaitJoin` | internal/actionbroker/owned_join.go:39-74 | However the wait ends, joined means exactly that there are at most four signals, none missing, and all have completed |
| `OwnedJoin.NeverRefusedFull` | internal/actionbroker/owned_workers.go:47-61 | Whichever handlers a prune finds finished, a handler that holds a slot finds room, so only the stop or a cancelled context can refuse it |
| `OwnedJoin.ClosedAfterAll` | internal/actionbroker/run_linux.go:130-256 | Over every interleaving of single checks, locks and writes the journal and engine are closed only after the accept loop and all handlers finished, the lock has one holder, and there are at most three registered and four signals |
| `OwnedJoin.StartsExactly` | internal/actionbroker/owned_workers.go:53-59 | Once closing is set a handler can still start exactly if the accept loop has passed its last check and holds the lock |
| `OwnedJoin.EntersExactly` | internal/actionbroker/owned_workers.go:74-77 | Once the fence is set a handler can still enter the execution scope exactly if it has passed its last check and holds the lock |
| `OwnedJoin.AfterStop` | internal/actionbroker/run_linux.go:146-171 | After the stop, in every continuation, at most one handler more starts or enters, every context stays cancelled, none starts once the accept loop has ended, and a controller that gave up never closes the journal |
| `OwnedJoin.OneStillStarts` | internal/actionbroker/owned_workers.go:53-59 | A run exists in which one handler starts after the stop |
| `OwnedJoin.CollectNeedsLock` | internal/actionbroker/run_linux.go:160-163 | Once the accept loop has ended, listing the handlers gives up exactly when one of them holds the lock |
| `OwnedProgress.CanShutDown` | internal/actionbroker/run_linux.go:130-256 | From every reachable state in which the controller has not given up, some continuation ends every handler and closes the journal and the engine |
| `OwnedProgress.CanServe` | internal/actionbroker/owned_workers.go:47-61 | While admission is open and fewer than three handlers are at work, some continuation registers another |
| `Scanner.Find` | internal/buildidentity/identity.go:143-157 | The first occurrence, or none |
| `Scanner.Drain` | internal/buildidentity/identity.go:142-172 | Taking records out of the buffer leaves fewer than 256 bytes that no later input can tell from the whole, or proves the file hopeless |
| `Scanner.Scan` | internal/buildidentity/identity.go:118-183 | For every content and every split into reads the streaming scan gives the whole-file answer |
| `Scanner.AnswerIs` | internal/connectedidentity/identity.go:134-174 | A file has an answer exactly when its first marker frames a record and no marker starts after it |
| `Scanner.OnceIs` | internal/connectedidentity/identity.go:135-164 | The framed marker is the only one exactly when none starts inside its record and none after |
| `IdentityText.SplitJoin` | internal/buildidentity/identity.go:34-45 | Splitting undoes joining when no field holds the separator |
| `ReleaseIdentity.ParseInvertsEncode` | internal/buildidentity/identity.go:26-58 | Parsing accepts exactly the encodings of valid identities and inverts them |
| `ReleaseIdentity.EncodesAs` | internal/buildidentity/identity.go:26-39 | The encodings letter for letter: prefix, six fields in order between bars, ending, at most 256 bytes |
| `ReleaseIdentity.AcceptedIff` | internal/buildidentity/identity.go:118-183 | A file is accepted exactly when the prefix occurs at one position and the bytes from there through the first ending are the canonical record |
| `ConnectedIdentity.ParseInvertsEncode` | internal/connectedidentity/identity.go:63-101 | Parsing accepts exactly the encodings of either record version and inverts them |
| `ConnectedIdentity.EncodesAs` | internal/connectedidentity/identity.go:63-78 | The encodings of both versions letter for letter, the contract field exactly in the second |
| `ConnectedIdentity.InsideIsVersion` | internal/connectedidentity/identity.go:63-78 | Past its start a record holds the scan marker only where its version does |
| `ConnectedIdentity.AcceptedIff` | internal/connectedidentity/identity.go:116-174 | A file is accepted exactly when its first marker frames a canonical record and no marker starts after it |
| `ConnectedIdentity.OnceIff` | internal/connectedidentity/identity.go:27-30 | In an accepted file the marker occurs once exactly when the version holds no marker and the record is not followed by "-V" |
| `ConnectedIdentity.MarkedTwice` | internal/connectedidentity/identity.go:116-174 | Every canonical record followed by "-V" is accepted although the marker occurs twice |
| `ConnectedIdentity.SomeMarkedTwice` | internal/connectedidentity/identity.go:116-174 | For every compiled contract there is such a file |
| `ConnectedIdentity.RecordFrames` | internal/connectedidentity/identity.go:134-164 | A canonical record at the start of a file is framed whatever follows |
| `TaskCanonical.ConsumeSimple` | internal/background/adapter_windows.go:520-542 | Reading a simple element succeeds exactly on character data up to the matching end |
| `TaskCanonical.CheckTiles` | internal/background/adapter_windows.go:346-354 | The boundary loop accepts exactly members that lie side by side |
| `TaskCanonical.CloseGroup` | internal/background/adapter_windows.go:340-363 | Closing a group checks and rearranges as the machine's splice does |
| `TaskCanonical.Canonicalize` | internal/background/adapter_windows.go:153-280 | The loop is the machine's run and, on a document's tokens, the document's recursive canonical form |
| `TaskPass.SpliceSorts` | internal/background/adapter_windows.go:340-363 | The boundary errors are unreachable and the in-place rearrangement equals sorting the members |
| `TaskPass.PassIsReference` | internal/background/adapter_windows.go:153-280 | For every document the single pass with its stack equals the recursion over the element tree, including every refusal |
| `TaskOrder.SortPermuted` | internal/background/adapter_windows.go:356-357 | The order in which differently named members arrive does not change the sorted result |
| `TaskMeaning.RearrangedAlike` | internal/background/adapter_windows.go:290-299 | Rearranging unordered groups at any depth (XML Schema Part 1 section 3.8) changes neither output, counts, depth nor consumed elements |
| `TaskMeaning.RearrangedDocument` | internal/background/adapter_windows.go:136-143 | Such a rearrangement never changes a document's canonical form or its refusal |
| `TaskMeaning.RequiredStays` | internal/background/adapter_windows.go:325-336 | A required member is never one that may be dropped |
| `TaskMeaning.TrimmedDocument` | internal/background/adapter_windows.go:479-507 | Leaving default-valued fields and the registration URI out of an accepted document keeps it accepted with the same canonical form |
| `TaskApart.SameFormExactly` | internal/background/adapter_windows.go:136-143 | Two accepted documents have the same canonical form exactly when they are the same task: the same elements, attributes and trimmed text in the same order, but for members of unordered groups, default-valued fields, skipped and blank nodes, the registration URI and how the owner is written |
| `TaskApart.PassKeepsApart` | internal/background/adapter_windows.go:153-280 | So the single pass gives two accepted documents different forms unless they are the same task |
| `TaskApart.AcceptedExactly` | internal/background/adapter_windows.go:153-280 | Exactly these documents are accepted: one Task element within the limits whose every element outside consumed ones is in order where it stands, with no consumed element twice |
| `ActivationSafety.CommitIsEarned` | internal/connectedinstall/activation_transaction_linux.go:27-173 | A commit follows, in order, both starts with their captures, the audits, the request and its matching response, the captured collector's COLLECTING status, finished probes and an unchanged configuration, and directly before it both captured workers unchanged |
| `ActivationSafety.SuccessIsEarned` | internal/connectedinstall/activation_transaction_linux.go:27-204 | Success follows the whole course in order: that commit, the captured uploader's admitted status and one more look at both workers |
| `ActivationSafety.StartedOnce` | internal/connectedinstall/activation_transaction_linux.go:249-266 | Each unit is started at most once |
| `ActivationSafety.StopIsEarned` | internal/connectedinstall/activation_lifecycle_linux.go:98-116 | A stop goes only to the invocation captured after the unit's own start, directly after a look that finds it, and its process when there is one |
| `ActivationSafety.FailureStopsAll` | internal/connectedinstall/activation_transaction_linux.go:59-73 | A run that ends without success has last seen every started unit at rest, or asks for recovery |
| `ActivationSafety.RecoveryHasCause` | internal/connectedinstall/activation_transaction_linux.go:59-73 | Recovery is asked for only over an unconfirmed start, an unpublished document or a unit that could not be stopped |
| `ActivationSafety.FairRunActivates` | internal/connectedinstall/activation_transaction_linux.go:27-204 | For any two workers that start well, a run in which every call answers well activates them |
| `ActivationTransaction.World.StartWorker` | internal/connectedinstall/activation_transaction_linux.go:249-266 | Starting follows the automaton; whatever the start reports, the invocation then running is captured |
| `ActivationTransaction.World.StopCaptured` | internal/connectedinstall/activation_lifecycle_linux.go:98-116 | Stopping follows the automaton and succeeds exactly when it ends at rest |
| `ActivationTransaction.World.FinalAudit` | internal/connectedinstall/activation_transaction_linux.go:157-164 | Probes, comparison, the collector and the second audit follow the automaton, in order, the audit being of the identity first seen |
| `ActivationTransaction.World.Commit` | internal/connectedinstall/activation_transaction_linux.go:162-173 | Both last looks, composing and publishing the commit follow the automaton |
| `ActivationTransaction.World.AwaitAdmission` | internal/connectedinstall/activation_transaction_linux.go:174-204 | Waiting for the admitted status follows the automaton, however many polls it takes |
| `ActivationTransaction.World.Activate` | internal/connectedinstall/activation_transaction_linux.go:27-204 | For every environment the whole transaction, cleanup included, is a run of the automaton to its end, and answers what it answers |
| `Publication.ReadState` | scripts/_connected_promotion_core.py:423-454 | Reading a snapshot gives exactly the state of the order-free definition, or a refusal |
| `Publication.PublishedIs` | scripts/_connected_promotion_core.py:437-452 | A snapshot reads as published exactly when the release is final, immutable and holds exactly the expected assets |
| `Publication.StateIs` | scripts/_connected_promotion_core.py:423-454 | Each of the other four states exactly when: neither tag nor release, a tag alone, a changeable draft with all its assets, or one without, listing exactly the missing ones |
| `Publication.Publishing` | scripts/_connected_promote_core.py:511-542 | For any answers of the provider the loop returns what they determine, only for a final, immutable, complete release whose assets it then found sound, and changes only what it has just seen to need changing, after seeing the same release before with sound downloads in between, on evidence that held at both looks |
| `Publication.AdvanceWorks` | scripts/_connected_promote_core.py:524-540 | Each call that takes effect removes exactly one step of the remaining work |
| `Publication.TwelveRoundsSuffice` | scripts/_connected_promote_core.py:511-542 | From any consistent start that same loop, undisturbed and with at most four ineffective calls, returns within twelve rounds |
| `Publication.FiveWastedCalls` | scripts/_connected_promote_core.py:511-542 | Undisturbed from nothing, five ineffective calls are too many for it |

## Left out

- SQLite itself: a transaction is an atomic step that may also be left uncertain; pragmas, page counts, schema text and integrity checks are not modelled, and of the column checks only the length of a stamp is.
- JSON, canonical metadata bytes, fingerprints and SHA-256: keys, receipts and documents are compared as values, so collisions and encoding limits (a mapping of at most 1024 bytes, metadata of at most 2048) are not modelled.
- A clock reading exactly at Go's zero time, which the code would take for an unset stamp: an unset stamp is `None` here.
- The order of rows: where a loop follows ORDER BY or Go's map order, the model visits records in any order, and every result is proved for all of them.
- Attempt handles and completion channels are numbered tokens, so pointer identity is token equality.
- JournalStore.Store.Reopen: reopens the same object where the code returns a new one or an error.
- File pinning, locks between processes, peer credentials, HTTP, TLS, Docker and socket plumbing: they appear as calls that may fail or answer anything.
- The readiness head, entry digest and publication fields of the broker are one condition, `open`; the control exchange that refreshes them is left out.
- BrokerState.State.Reserve: a readiness that no longer begins a conversation is a refusal that changes nothing, so its own verdict is not told apart.
- Worker.Client.RelayRecovery: timeouts and message formats are arbitrary outcomes of a leg, so the order and content of the legs is stated, not their timing.
- Worker.Client.ClaimAndExecute: lease horizons and elapsed-time checks are arbitrary outcomes, so the order of claim, checks and report is stated, not their timing.
- Worker.Client.Converse: message formats, horizons and elapsed-time checks are arbitrary outcomes, so only the order of remote calls is stated, not their timing.
- ActivationTransaction.World.Activate: the 30 second deadline is a number of polls, and audits, probes, policy and configuration comparisons are calls with arbitrary outcomes.
- OwnedWorkers.Signals.WaitJoin: polling is bounded by a number of looks instead of the 75 second clock.
- Accept errors, socket cancellation and the failure channel of the accept loop: it may end at any time, and a handler's own contexts are cancelled with the registry's.
- `phaseEngine` and the source-file checks around each engine call repeat the budget and binding checks at the transport and would add only easy members.
- The XML decoder, UTF-16 handling and Windows account lookup: the canonicaliser starts from decoder tokens with trimming and owner matching as arbitrary functions, and attributes are compared as multisets.
- Byte values: a byte is a char, and the 32768-byte chunk limit of a read is not imposed.
- `Resolve` of both identity packages: equality checks on a parsed record.
- Publication.Publishing: evidence, provenance, candidate and main-branch checks are one arbitrary condition per round; asset bytes are sound or not.
- Enrollment, collectors, uploaders, bundle building, background registration files, host collection and status classification.
