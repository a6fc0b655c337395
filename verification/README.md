# Verified model of Station Core

Station Core keeps the durable record of what is installed on a Station and carries
long-running work on Apps through a Runtime it cannot trust to answer. This project models
the parts of it whose correctness spans several functions, and proves what they promise over
every run. `dafny verify dfyconfig.toml` checks it.

Every part follows one plan. The operations of the original are functions from one state
value to the next; a service class (or a method with a loop) carries them out in place,
branch by branch and loop by loop, and is proved equal to those functions; a step relation
interleaves them; and lemmas about runs of steps state the promises. What each call answers
and leaves behind is stated once more for every reachable state, in terms of the rows and the
reports alone (the `Answers`, `Requests` and `Frames` files). Loops over Go maps pick their
next key arbitrarily, so a method that is equal to a function does not depend on the order of
iteration.

| part | files |
|---|---|
| Lifecycle operations, managed transitions and forward recovery over the installation tables (`internal/operations`) | `Rows`, `Releases`, `Lifecycle`, `Transitions`, `Interleaving`, `OperationsInvariant`, `OperationsLifecycleSteps`, `OperationsTransitionSteps`, `OperationsRuns`, `OperationsTheorems`, `LifecycleAnswers`, `TransitionAnswers`, `TransitionRequests`, `OperationsExamples`, `OperationsService` |
| Who is dispatched next (`worker.go`, `transition_worker.go`) | `Scheduling` |
| The collector stream and the volatile state cache (`internal/appstate`) | `Observations`, `AppMemory`, `AppHistory`, `AppInvariant`, `AppEvidence`, `AppProjection`, `AppSteps`, `AppTheorems`, `AppFrames`, `AppAnswers`, `AppScopes`, `AppSemantics`, `AppExamples`, `AppMemoryService` |
| Egress endpoints and their probes (`internal/egress`) | `Egress`, `EgressTheorems`, `EgressAnswers`, `EgressService` |
| The rewrite of stored execution state in a namespace migration | `ClusterDns`, `NamespaceRewrite` |
| The two version comparisons | `TransitionVersions`, `AppVersions` |
| The strict JSON recognizer (`internal/strictjson`) | `StrictJson` |

## How the original is represented

**Operations.** The tables of one Station are maps from identifiers to rows. A SQL transaction
is one step. `DispatchTransition` and the forward recovery are several steps, because they read
rows, call Runtime and write later: a *flight* holds what a caller that owns the per-operation
session lock has read so far, and any step of any other caller may come in between. Runtime is
an answer that can be anything: any echo, any phase, any report, or no answer. The catalog, the
release reader, the App Center admission and the history check are answers too. A digest is the
value it is taken of, so equal digests mean equal values.

**Application state.** The clock is an integer of nanoseconds that never goes back. Collectors,
sessions and bindings are rows of maps; the mutex makes each call one step. The log of accepted
frames and the record of unique matches are history that the code does not keep; the promises
are stated against them.

**Egress.** A probe reads a row, claims it, connects, stores and cleans up in separate
statements; any number of probes, edits and deletions interleave.

## Findings

- A guard is missing in `SubmitTransition`. It demands the installation's own revision and sets it no
  limit, while the dispatcher refuses an expected revision above `MaxInt64 - 2`. An unfinished
  transition is readable by the dispatcher exactly up to that limit
  (`OperationsRuns.UnfinishedIsReadableExactlyBelowTheLimit`). Every revision from 3 to `MaxInt64`,
  and so the two above the limit, is the expected revision of an accepted transition in some run
  (`OperationsExamples.EveryRevisionIsAccepted`; the run advances one row about 2^63 times). Beyond
  the limit the transition never moves and its App accepts no other operation
  (`OperationsExamples.BeyondTheLimitNothingMoves`).
- `rewriteMigratedValue` does not always remove the source's DNS names, nor is it always
  idempotent: matches can overlap, or be completed by a replacement, when a namespace starts with
  `local`. Both hold for every document exactly when neither namespace does
  (`NamespaceRewrite.CleansExactlyWithoutLocal`, `NamespaceRewrite.SettlesExactlyWithoutLocal`).
- A lifecycle dispatch that ends in a rollback does not touch its row's scheduling time, so it is
  selected again at once and nothing else is served (`Scheduling.RollbackBlocksTheQueue`). In every
  reachable state, short of an exhausted revision, this happens exactly when Runtime was called and
  its answer is no valid report of the operation (`Scheduling.RollsBackExactlyOnABadReport`), which
  some run does reach (`OperationsExamples.SomeDispatchRollsBack`).
- `VersionNewer` departs from section 11 of Semantic Versioning 2.0.0 on two classes of valid
  pre-release identifiers: numbers with a leading hyphen, which it reads as numbers and the standard
  as words (`AppVersions.SignedIdentifierDiffers`: 1.0.0-4 is newer than 1.0.0--5), and numbers
  beyond an int, which it reads as words (`AppVersions.LargeNumberDiffers`: twenty nines are newer
  than a one and twenty zeros). An identifier is compared as the standard says exactly when it is in
  neither class (`AppVersions.VersionsAlikeExactlyWhenPlain`).
- A reset of an App's bindings drops its objects and leaves the confirmation of the list alone, so
  the catalog can answer `not_installed` for a position that the last list held and that no frame
  removed (`AppExamples.ResetAnswersNotInstalled`).

## Model

| member | source | states |
|---|---|---|
| OperationsRuns.JointExclusion | internal/operations/service.go:155-182 | in every reachable world an App has at most one current installation and at most one unfinished operation or transition in all; an unfinished transition's installation is installed and holds the source at the expected revision, or in `releasing` possibly the target at the next one |
| OperationsRuns.StepKeepsInvariant | internal/operations/transitions.go:206-241 | the joint invariant of all writers, which none of them checks alone, is kept by every step of every writer and every stage of a dispatch |
| OperationsRuns.RunKeepsInvariant | internal/operations/installations.go:33-61 | the joint invariant holds after any run |
| OperationsRuns.DurableIdentity | internal/operations/transitions.go:256-278 | in every reachable world a release reference names one snapshot over all accepted transitions, and an idempotency key names one operation and one transition |
| OperationsRuns.UnfinishedIsReadableExactlyBelowTheLimit | internal/operations/transition_dispatch.go:83-90 | in every reachable world an unfinished transition passes the dispatcher's read exactly when its expected revision is at most MaxInt64 - 2 |
| OperationsExamples.EveryRevisionIsAccepted | internal/operations/transitions.go:206-241 | at every revision from 3 to MaxInt64, and so above the dispatcher's limit, some run from empty tables has an accepted transition that expects it |
| OperationsExamples.BeyondTheLimitNothingMoves | internal/operations/transition_dispatch.go:83-90 | beyond the limit no run ever changes the row of an unfinished transition, and every new operation of its App is refused |
| OperationsRuns.EveryStepHasOutcome | internal/operations/transition_dispatch.go:151-232 | whatever step is taken from whatever state that satisfies the invariant, an unfinished transition's identity is kept, its phase never goes back, its target is written only from `publishing` into `releasing`, `succeeded` means the target is held and a dispatcher's `failed` means the source is held |
| OperationsTheorems.TransitionOutcome | internal/operations/transition_dispatch.go:243-299 | the same outcome for every step of every run from empty tables |
| OperationsTheorems.StepProgresses | internal/operations/transition_dispatch.go:262-292 | a step changes nothing but status and phase of a transition, moves its phase forward only, and leads from `releasing` only to `completed` |
| OperationsTheorems.RunProgresses | internal/operations/transition_dispatch.go:151-232 | over any run a transition only moves forward, and a finished one never changes again |
| OperationsTheorems.PublicationEntersReleasing | internal/operations/transition_dispatch.go:262-292 | the installation gets the target version only in a commit of that transition that enters `releasing` in the same step, from `publishing` |
| OperationsTheorems.PublishedAtMostOnce | internal/operations/transition_dispatch.go:206-232 | over any run the target is published at most once, and never from recovery, restoring, releasing or a finished transition |
| OperationsTheorems.ReadyFlightIsCurrent | internal/operations/transition_dispatch.go:119-140 | in every reachable world the rows a dispatcher has read and checked under its lock are still the rows, however long Runtime takes to answer |
| OperationsTheorems.DecisionsAreCommitted | internal/operations/transition_dispatch.go:243-299 | every decision a dispatcher reaches is committed: its compare never fails and no revision overflows, which is what the limit of MaxInt64 - 2 is for |
| OperationsTheorems.CommitRefinesAtomicDispatch | internal/operations/transition_dispatch.go:151-299 | reading, calling Runtime and committing are together one atomic dispatch: the tables after a commit are those of reading, deciding and writing at that instant |
| TransitionAnswers.CommitLeaves | internal/operations/transition_dispatch.go:151-299 | the tables after a dispatch, for every phase and every answer of Runtime: an answer that echoes the step moves the transition exactly as listed (a released target succeeds, a released source fails, a prepared target is published at the next revision, stages only advance), every other answer leaves all tables alone |
| TransitionAnswers.UnfinishedHolds | internal/operations/transition_dispatch.go:107-122 | an unfinished transition's installation is the source at the expected revision, or in `releasing` possibly the target at the next one |
| TransitionAnswers.HonestRuntimeFinishes | internal/operations/transition_dispatch.go:124-232 | from every reachable world at most four dispatches whose work is done finish a transition that nobody else holds: as a success with the target installed, or once it had failed as a failure with the source installed |
| TransitionRequests.TransitionIsAcceptedExactlyWhen | internal/operations/transitions.go:166-254 | in every reachable world a new transition is accepted if and only if its caller may manage, the command is well formed, the installation is as expected, nothing is at work on its App, the two releases replace one another and neither name stands for anything else; only its row is inserted |
| TransitionRequests.EveryTransitionReplaces | internal/operations/transitions.go:115-130 | in every reachable world an accepted transition goes between two releases of its App with the same data and kind, numerically up or down as asked, and its target knows every worker of its source |
| TransitionRequests.TransitionKeyAnswers | internal/operations/transitions.go:181-197 | after any run a used key answers with its transition exactly to the same request, and with a conflict to any other |
| TransitionRequests.RecoveryIsAcceptedExactlyWhen | internal/operations/forward_recovery.go:148-217 | in every reachable world a new forward recovery is accepted if and only if its caller may recover, the parent is a stuck World transition of that caller from 0.1.4 to 0.1.5, the target is a verified 0.1.6 under a name of its own and no recovery of the parent is pending |
| TransitionRequests.RecoveryKeysAreUnique | internal/operations/forward_recovery.go:157-174 | in every reachable world an idempotency key names at most one forward recovery |
| TransitionRequests.RecoveryKeyAnswers | internal/operations/forward_recovery.go:157-174 | after any run a used key answers with its recovery exactly to the same request, and with a conflict to any other |
| TransitionRequests.RecoveryEndsAs | internal/operations/forward_recovery.go:218-277 | a verified recovery with its proof installs 0.1.6 at the next revision and ends the transition as failed; a rejected one changes only its own row; without the proof nothing changes |
| OperationsTheorems.ForwardCompareNeverFails | internal/operations/forward_recovery.go:218-277 | a forward recovery that was accepted in any run finishes by its verdict: the compare that guards the finish cannot report a conflict |
| OperationsTheorems.AcceptedOperationCompletes | internal/operations/installations.go:98-153 | a valid report of any accepted unfinished operation is recorded; the only refusal left is an exhausted revision column |
| OperationsTheorems.AdmittedGuardIsSent | internal/operations/appcenter_dispatch.go:14-46 | from its acceptance on, each call for a constrained operation passes the dispatch guard and carries exactly the admitted schema, digests, policy and workload |
| OperationsTheorems.AcceptedCommandReplays | internal/operations/service.go:97-124 | after any run the same request under the same key answers with the one operation it began and changes nothing, whatever its tracing identifier |
| OperationsTheorems.RunKeepsOperation | internal/operations/service.go:155-192 | no later step changes anything of an accepted operation but status and phase, nor its durable input |
| LifecycleAnswers.CommandIsAcceptedExactlyWhen | internal/operations/service.go:64-204 | in every reachable world a command under a new key is accepted if and only if its caller may ask for it, its form and evidence hold, nothing is at work on its App and the current installation may be claimed; the new tables are spelled out; who is denied and what is invalid |
| LifecycleAnswers.KeyAnswers | internal/operations/service.go:97-124 | after any run a used key answers with the operation it began exactly to the same request, tracing identifier and readers' answers aside, and with a conflict to any other; neither changes anything |
| LifecycleAnswers.DispatchIsAnswered | internal/operations/worker.go:35-98 | the answer to a dispatch of any unfinished operation: postponed, recorded as reported, recorded as refused by Runtime, or rolled back; an error changes nothing |
| LifecycleAnswers.ReportIsRecorded | internal/operations/installations.go:78-153 | what a recorded report leaves: the operation's status and phase; a deleted installation removed, any other success installed, a failure failed unless it was installed; a success of another version sets that version and on an adoption its binding; the revision advances exactly when the installation changed; nothing else changes |
| LifecycleAnswers.DeletedIsGone | internal/operations/installations.go:78-96 | a delete is always of the installed version, and once it has succeeded its App has no current installation |
| OperationsLifecycleSteps.SubmitKeeps | internal/operations/service.go:64-204 | accepting a lifecycle operation keeps the joint invariant of the tables |
| OperationsLifecycleSteps.DispatchKeeps | internal/operations/worker.go:19-99 | dispatching one, with any answer, keeps it |
| OperationsLifecycleSteps.AcceptedInputOk | internal/operations/appcenter_commands.go:89-135 | the durable input of an accepted constrained or preinstalled command passes the guards applied at its dispatch |
| OperationsLifecycleSteps.AcceptedIsRecordable | internal/operations/installations.go:33-61 | an accepted operation's success can be recorded: same version, an upgrade, a legacy adoption, or a bound adoption along a registered chain |
| OperationsLifecycleSteps.SuccessIsRecordable | internal/operations/installations.go:98-153 | recording a report of an accepted operation never ends in a conflict |
| OperationsTransitionSteps.SubmitTransitionKeeps | internal/operations/transitions.go:166-254 | accepting a transition keeps the joint invariant, although it only looks at other transitions by installation |
| OperationsTransitionSteps.CommitKeeps | internal/operations/transition_dispatch.go:243-299 | committing any decision on any prior read keeps it |
| OperationsTransitionSteps.AcceptForwardKeeps | internal/operations/forward_recovery.go:148-217 | accepting a forward recovery keeps it, adds at most one pending recovery for its operation and changes no other |
| OperationsTransitionSteps.FinishForwardKeeps | internal/operations/forward_recovery.go:218-277 | finishing one keeps it |
| OperationsTransitionSteps.PendingRecoveryFinishes | internal/operations/forward_recovery.go:218-277 | a pending recovery's finish is never a conflict, and succeeds when Runtime's verdict has its proof |
| Releases.CompatibleChangesVersion | internal/operations/transitions.go:115-130 | a compatible pair of snapshots always differs in version |
| OperationsService.Service.SubmitCommand | internal/operations/service.go:64-204 | replay, refusal or insertion of an operation with its installation, bindings and inputs in one transaction: exactly the submit step, with its answer |
| OperationsService.Service.OpenOperation | internal/operations/service.go:125-192 | the checks and inserts that open a new operation are the acceptance function |
| OperationsService.Service.ReserveInstallation | internal/operations/installations.go:33-61 | finds or creates the App's installation, and refuses another organization or an unregistered change of version |
| OperationsService.Service.BindInstallationOperation | internal/operations/installations.go:67-76 | the operation becomes the installation's latest and advances its revision, within a bigint |
| OperationsService.Service.BindOperationInputs | internal/operations/preinstalled.go:173-198 | the constrained input or the release bindings of a new operation |
| OperationsService.Service.RecordInstallationProgress | internal/operations/installations.go:98-153 | the installation state, version and binding after a report, only for its latest operation |
| OperationsService.Service.DispatchRow | internal/operations/worker.go:19-99 | guards, report and record of one dispatch: exactly the dispatch step, with its answer |
| OperationsService.Service.AcceptManagedTransition | internal/operations/transitions.go:166-254 | exactly the transition acceptance step, with its answer |
| OperationsService.Service.ReadInstallationRow | internal/operations/transition_dispatch.go:67-106 | the dispatcher's second read and its checks, which give up the lock when one fails |
| OperationsService.Service.CommitTransition | internal/operations/transition_dispatch.go:243-299 | re-read, compare and write both rows or none: exactly the commit step, with its answer |
| OperationsService.Service.AcceptForwardRecovery | internal/operations/forward_recovery.go:148-217 | exactly the acceptance step of a forward recovery, with its answer |
| OperationsService.Service.FinishForwardRecovery | internal/operations/forward_recovery.go:218-277 | exactly its finishing step, with its answer |
| Scheduling.EveryOperationIsServed | internal/operations/worker.go:82-109 | an operation gets through, by a postponement or a record, before more dispatches of others do than operations are ahead of it, whatever is admitted and whatever rolls back meanwhile |
| Scheduling.RollbackBlocksTheQueue | internal/operations/worker.go:87-98 | an operation whose dispatches roll back is the only one served as long as they do |
| Scheduling.RollsBackExactlyOnABadReport | internal/operations/worker.go:42-98 | in a reachable state a dispatch rolls back if the operation may be called and the answer is no valid report of it, and otherwise only at an exhausted revision |
| OperationsExamples.SomeDispatchRollsBack | internal/operations/worker.go:87-98 | some run from empty tables reaches an accepted operation and an answer whose dispatch rolls back |
| Scheduling.EveryTransitionIsSelected | internal/operations/transition_worker.go:12-28 | with no new acceptance a transition that stays unfinished is selected within as many calls as there are unfinished ones, whether or not any call succeeds |
| Scheduling.SelectNext | internal/operations/transition_worker.go:19-25 | selects the first unfinished transition after the cursor, and wraps |
| Scheduling.RunTransitions | internal/operations/transition_worker.go:30-49 | the cursor follows each selection, and the loop stops selecting only when nothing is unfinished |
| AppSteps.StepKeepsInvariant | internal/appstate/memory.go:155-211 | every call of every kind keeps the evidence and binding invariants |
| AppSteps.RunKeepsInvariant | internal/appstate/memory.go:113-130 | they hold after any run |
| AppEvidence.FrameKeeps | internal/appstate/memory.go:175-330 | an accepted frame of any kind keeps inventories equal to the replay of the log and every resource sourced |
| AppEvidence.SampleIsSound | internal/appstate/memory.go:224-237 | a relisted or upserted object has its facts from this frame and its health from a frame of the same session, whose deadline is kept |
| AppEvidence.ForgetKeeps | internal/appstate/memory.go:517-544 | a reset of an App is part of the replay |
| AppFrames.FrameIsAcceptedExactlyWhen | internal/appstate/memory.go:155-330 | in every reachable world a frame is accepted if and only if its session is in time and the frames accepted before let it be next; an accepted frame is logged, any other closes its session |
| AppFrames.FrameLeaves | internal/appstate/memory.go:175-330 | what an accepted frame leaves in its inventory, in the list being sent, in every other inventory and in every binding, times of evidence included |
| AppFrames.ReachableIsOnlyValid | internal/appstate/memory_validation.go:23-33 | no object that fails the checks of its frame is ever served |
| AppFrames.OpenLeaves | internal/appstate/memory.go:113-130 | a session opens if and only if its collector exists and no session of it is in time; all earlier ones are then closed |
| AppFrames.CloseLeaves | internal/appstate/memory.go:135-153 | closing ends exactly that session and frees its collector |
| AppFrames.ExpireLeaves | internal/appstate/memory.go:414-426 | the sweep closes exactly the sessions that are over and brings every binding up to date |
| AppTheorems.CacheIsReplay | internal/appstate/memory.go:256-309 | after any run with takeovers, timeouts and refused frames an inventory, health aside, is the replay of its accepted frames, keyed by position, at most 10,000 |
| AppTheorems.StagingIsInvisible | internal/appstate/memory.go:175-211 | beginning and filling a list publishes nothing |
| AppTheorems.RefusedSessionIsSilent | internal/appstate/memory.go:155-173 | a refused frame changes no inventory and ends its session: in no run afterwards is a frame of that session accepted |
| AppTheorems.PositionHasOneCollector | internal/appstate/memory.go:95-109 | a position is in at most one collector's inventory |
| AppTheorems.SessionIsActiveOrClosed | internal/appstate/stream_http.go:168-182 | every session is its collector's active one, live exactly until its deadline, or closed |
| AppTheorems.ClosedForever | internal/appstate/memory.go:135-153 | a closed session stays closed over any run |
| AppTheorems.ClosedSessionIsPowerless | internal/appstate/memory.go:76-87 | no frame or close of a closed session changes anything but its own row, so a stale handler cannot touch its replacement |
| AppTheorems.ReadServesProjection | internal/appstate/memory.go:335-392 | a read tracks each requested installation under its exact identity and answers with the projection of that very instant |
| AppTheorems.AnswersAreFresh | internal/appstate/memory.go:311-330 | a known answer is less than 30 seconds old and expires 30 seconds after it was observed; a known present one is the evaluation of the object at the binding's location, which it hands out, and exactly the facts of that object came in a frame less than 90 seconds ago |
| AppAnswers.ReadAnswersExactly | internal/appstate/memory.go:335-515 | every read of every reachable world answers exactly: the meaning of the one object that names the installation, with an expired probe left out, until the object expires; a conflict when several name it or its old place is still taken; and otherwise what is known of its last place |
| AppAnswers.ReadyIsServing | internal/appstate/collector_protocol.go:60-66 | a known ready answer hands out an object with all its replica counts equal and positive, no failure reported and its latest specification observed |
| AppAnswers.PlaceIsExactly | internal/appstate/memory.go:467-515 | where a projection leaves a binding: on the one object with its identity unless its old place is still occupied, otherwise where it was |
| AppAnswers.LastKnownSurvives | internal/appstate/memory.go:442-455 | while a required health is not observed the last known state is kept from view to view |
| AppAnswers.ReadTracksExactly | internal/appstate/memory.go:342-376 | a read is served if and only if its installations are well formed, at most 1000 and each under one identity, also against those tracked; all tracked ones are kept if there is room, else only the requested |
| AppAnswers.ResetLeaves | internal/appstate/memory.go:517-544 | a reset takes exactly the App's objects and places outside the target namespace, everywhere when there is no target, and keeps every other object and place |
| AppTheorems.HealthIsProbed | internal/appstate/memory.go:239-254 | an App whose health is required is ready only, and any App is failing its check only, on a report of exactly that health for the same uid and version less than 30 seconds ago, by the session that reported the object |
| AppTheorems.AbsenceIsEvidence | internal/appstate/memory.go:467-515 | a known absent installation was matched uniquely with the object at its location, has been matched with no other since, then a completed list lacked that object or its deletion was accepted; the position is free and no object carries the identity |
| AppTheorems.MatchesHappened | internal/appstate/memory.go:479-490 | each recorded match is of a world the run passed through, where that binding had that one object |
| AppTheorems.FreeForAReason | internal/appstate/memory.go:256-309 | a position that the replay leaves free was lacked by the last completed list, or its object was deleted or cleared by a reset after that list |
| AppTheorems.NotInstalledIsEvidence | internal/appstate/catalog.go:163-176 | the catalog's not-installed rests on a completed list begun less than 90 seconds ago, whose begin, or a later heartbeat of its session within 60 seconds of it, is less than 30 seconds past; the position is free in every collector, because that list lacked it, or a deletion or a reset freed it since |
| AppExamples.ResetAnswersNotInstalled | internal/appstate/memory.go:517-544 | a run in which the last list holds an object and no frame removes it, and after a reset the catalog sees the position free |
| AppTheorems.LegacyIsEvidence | internal/appstate/legacy.go:176-209 | a legacy workload is known absent only on the same evidence of a recent confirmed list, and known present only as the registered unowned object, from facts of that object less than 90 seconds old |
| AppAnswers.LegacyAnswersExactly | internal/appstate/legacy.go:176-209 | the view of a legacy workload in every case: the registered unowned object by its meaning, any other object a conflict, a free place absent while the list is believed |
| AppTheorems.ReachableIsLinked | internal/appstate/memory.go:414-426 | what the sweep over collectors relies on: an active session is a session of its collector |
| AppProjection.ProjectAllIsIdempotent | internal/appstate/memory.go:433-465 | projecting again at the same instant changes no view and no revision |
| AppProjection.ProjectionIsLocal | internal/appstate/memory.go:467-515 | a binding's projection depends only on its record, the configuration, the objects with its identity and the object at its last position |
| AppProjection.ProjectedPlace | internal/appstate/memory.go:479-490 | a projection moves a binding only onto the one object with its identity, and then drops the evidence of its absence |
| AppProjection.QuietHeartbeat | internal/appstate/memory.go:311-330 | a heartbeat when nothing has expired and the projection is current advances no revision and changes only when evidence was received |
| AppScopes.ScopeTokenIsSound | internal/appstate/memory.go:335-392 | equal scope revisions of an organization at two instants of a run mean the same tracked installations with the same identity, uid, state, quality, reason, last known state and metadata, even across reclaims |
| AppScopes.StepAdvances | internal/appstate/memory.go:442-464 | no call takes a scope revision back, and one that leaves it changes nothing it stands for |
| AppScopes.RevisionsCount | internal/appstate/memory.go:442-464 | unless a read forgets bindings to make room, a call advances an installation's revision by one exactly when its facts changed, and its organization's by the number of those changes |
| AppScopes.BindingsAreCapped | internal/appstate/memory.go:360-376 | the tracked bindings never exceed 1000 |
| AppSemantics.SemanticTextIsInjective | internal/appstate/memory.go:448-462 | the joined strings by which facts are compared are equal exactly when the facts are, up to collisions of the metadata digest, although a uid may contain the separator |
| Observations.KnownIsCurrent | internal/appstate/state.go:56-81 | evidence is known exactly when it is complete, not expired, of a definite state and the clock lies between receipt and expiry |
| Observations.EvaluatesExactly | internal/appstate/collector_protocol.go:35-67 | a report is evaluated to a state for a reason if and only if it meets that reason's own condition on its fields, for each of the eleven reasons |
| Observations.CheckImages | internal/appstate/memory_validation.go:23-33 | the image loop accepts exactly the lists of valid images with distinct components |
| AppMemoryService.Memory.CheckConfigs | internal/appstate/memory.go:89-111 | accepts exactly the configurations that are valid, distinct and disjoint in namespaces |
| AppMemoryService.Memory.OpenStream | internal/appstate/memory.go:113-130 | busy while the active session is live, otherwise a takeover that closes it |
| AppMemoryService.Memory.AddObjects | internal/appstate/memory.go:186-211 | a list frame is taken whole or not at all |
| AppMemoryService.Memory.EndList | internal/appstate/memory.go:256-275 | a completed list replaces the inventory and marks every binding it lacks |
| AppMemoryService.Memory.DeleteObject | internal/appstate/memory.go:291-309 | a deletion by another uid does nothing; otherwise the object goes and its bindings are marked |
| AppMemoryService.Memory.ConfirmList | internal/appstate/memory.go:311-330 | a heartbeat confirms objects, list and absences, never probes, and only within 60 seconds of the last list |
| AppMemoryService.Memory.Receive | internal/appstate/memory.go:155-173 | exactly the frame step, with its error |
| AppMemoryService.Memory.ProjectAll | internal/appstate/memory.go:433-465 | the nested loops and the counters give the projection function for every order of iteration |
| AppMemoryService.Memory.BuildIndex | internal/appstate/memory.go:433-441 | the index lists for an installation exactly the objects that name it |
| AppMemoryService.Memory.Views | internal/appstate/memory.go:335-392 | exactly the read step, with its answer; a refused read changes nothing |
| AppMemoryService.Memory.RegisterBindings | internal/appstate/memory.go:342-376 | refuses, or makes room and tracks the new installations |
| AppMemoryService.Memory.ExpireAll | internal/appstate/memory.go:414-426 | exactly the expiry step |
| AppMemoryService.Memory.ResetAppBindings | internal/appstate/memory.go:517-544 | exactly the reset step |
| AppMemoryService.Memory.CatalogPosition | internal/appstate/catalog.go:163-176 | not installed exactly when some collector of the namespace sees the position free on an unexpired list |
| AppMemoryService.Memory.LegacyView | internal/appstate/legacy.go:176-209 | the legacy view is that of a collector that watches the namespace, or unsynced when there is none |
| EgressTheorems.StoredProbeIsCurrent | internal/egress/service.go:209-260 | in every reachable state a stored result is that of a probe run against exactly the endpoint and credentials of the row's current revision, and a row is active exactly when it has a stored result that passed |
| EgressTheorems.OnlyTheLatestClaimLands | internal/egress/service.go:252-258 | a result is stored only by the probe that claimed the row last, at the revision it read, and changes that row only |
| EgressTheorems.ProbeInTimeLands | internal/egress/service.go:198-260 | a probe that claimed its row and comes back within 65 seconds stores its result, whatever other probes, deletions and edits of other rows do meanwhile |
| EgressTheorems.OvertakenNeverLands | internal/egress/service.go:103-180 | once an edit or a deletion has overtaken a probe, it can neither claim nor store, whatever happens later |
| EgressTheorems.EditOvertakes | internal/egress/service.go:168-170 | every successful edit overtakes every probe that had read the row |
| EgressAnswers.SaveLeaves | internal/egress/service.go:103-180 | every column of a saved row: given fields are stored, others kept, or empty on creation or when cleared; status, Apps and revision; the refusals are those of the source in their order, and no other row changes |
| EgressAnswers.DeleteLeaves | internal/egress/service.go:182-208 | a row is deleted if and only if it is the organization's, no App uses it and no claim lasts; nothing else goes |
| EgressAnswers.TestBegins | internal/egress/service.go:209-222 | a test begins if and only if the row is the organization's, enabled and not expired and fewer than four run |
| EgressAnswers.ClaimLeaves | internal/egress/service.go:223-230 | a claim is granted if and only if the row is as it was read, enabled, and free or with a claim that has run out; it lasts 65 seconds |
| EgressAnswers.LandingLeaves | internal/egress/service.go:244-258 | a result lands if and only if the row still carries its claim; it makes the row active or pending |
| EgressAnswers.OffUntilEdited | internal/egress/service.go:223-258 | what was switched off stays off, with no result on it, through any run until somebody edits it |
| EgressTheorems.CleanupReleasesOwnClaim | internal/egress/service.go:231-235 | the deferred cleanup releases its own claim and never another's |
| EgressTheorems.EndpointsAreUnique | migrations/0009_egress_proxies.sql:1-23 | endpoints stay unique within an organization and at most four probes run at once |
| EgressTheorems.RunKeepsInvariant | internal/egress/service.go:103-260 | the invariant behind these holds after any interleaving of edits, deletions and probes |
| EgressService.Service.SaveEndpoint | internal/egress/service.go:103-180 | exactly the save step: create, or update under the expected revision, and forget the stored result |
| EgressService.Service.DeleteEndpoint | internal/egress/service.go:182-208 | refused while Apps are assigned or a claim lasts |
| EgressService.Service.StartTest | internal/egress/service.go:209-222 | a disabled or expired endpoint is not probed, nor is any without a free slot |
| EgressService.Service.ClaimRow | internal/egress/service.go:223-230 | claims for 65 seconds exactly when the claim's condition holds |
| EgressService.Service.StoreResult | internal/egress/service.go:244-258 | stores exactly when the token, revision and status still fit |
| EgressService.Service.FinishTest | internal/egress/service.go:231-235 | exactly the cleanup step |
| NamespaceRewrite.RewriteValue | internal/operations/namespace_migration.go:420-460 | the walk in any order is the rewrite function, and it reports a change exactly when the document changed |
| NamespaceRewrite.ShapeIsKept | internal/operations/namespace_migration.go:420-460 | keys, array lengths, non-string leaves and strings that stand directly in arrays are kept |
| NamespaceRewrite.RewriteMoves | internal/operations/namespace_migration.go:420-460 | what each string becomes, wherever it stands: a stored secret identity the new one, the source namespace the target, any other text with its DNS names moved; holds for all namespaces |
| NamespaceRewrite.RewrittenIsClean | internal/operations/namespace_migration.go:439-443 | without `local` namespaces no string member keeps the source's DNS name |
| NamespaceRewrite.RewrittenTwice | internal/operations/namespace_migration.go:402-418 | without `local` namespaces a second migration changes nothing |
| NamespaceRewrite.CleansExactlyWithoutLocal | internal/operations/namespace_migration.go:439-443 | all documents are cleaned if and only if neither namespace starts with `local` |
| NamespaceRewrite.SettlesExactlyWithoutLocal | internal/operations/namespace_migration.go:420-460 | the rewrite is idempotent on all documents under exactly the same condition |
| ClusterDns.ReplacedIsClean | internal/operations/namespace_migration.go:439-443 | replacing a pattern by one it cannot overlap leaves no occurrence |
| ClusterDns.ReplaceChanges | internal/operations/namespace_migration.go:439-443 | a replacement changes exactly the texts that contain the pattern |
| ClusterDns.FirstReplaced | internal/operations/namespace_migration.go:439-443 | a replacement keeps what stands before the leftmost occurrence, puts the new text in its place and goes on behind it |
| TransitionVersions.CompareTransitionVersions | internal/operations/transitions.go:97-114 | comparing components by length and then by bytes is their numeric order, for any number of digits |
| TransitionVersions.EqualOnlyWhenSame | internal/operations/transitions.go:97-114 | canonical versions compare equal only when they are the same string |
| AppVersions.VersionNewer | internal/appcenter/version.go:11-35 | newer exactly when both parse and the target's key is above the installed one's |
| AppVersions.ParseSemVer | internal/appcenter/version.go:37-54 | the loop accepts exactly three components that are canonical and fit an int |
| AppVersions.ComparePreRelease | internal/appcenter/version.go:56-76 | the sign of the result is the order of the identifier lists |
| AppVersions.NewerIsStrictWeakOrder | internal/appcenter/version.go:8-35 | a strict weak order on versions that parse, and never true of others |
| AppVersions.NewerFollowsPrecedence | internal/appcenter/version.go:37-76 | section 11 of Semantic Versioning 2.0.0 on all versions whose identifiers are canonical numbers within an int, or no numbers even with a sign |
| AppVersions.ComparedAlikeExactlyWhenPlain | internal/appcenter/version.go:56-76 | an identifier is ordered and told apart from every such identifier as section 11 says if and only if it is one itself |
| AppVersions.VersionsAlikeExactlyWhenPlain | internal/appcenter/version.go:11-76 | the same if and only if for `VersionNewer` on version strings with one valid identifier |
| AppVersions.SignedIdentifierDiffers | internal/appcenter/version.go:56-76 | 1.0.0-4 is newer than 1.0.0--5, and precedes it by section 11 |
| AppVersions.LargeNumberDiffers | internal/appcenter/version.go:56-76 | 1.0.0 with twenty nines is newer than 1.0.0 with a one and twenty zeros, and precedes it by section 11 |
| AppVersions.ComparatorsAgree | internal/appcenter/version.go:11-35 | on canonical versions whose components fit an int, both comparisons agree |
| StrictJson.AcceptsExactlyTheValues | internal/strictjson/decode.go:71-121 | exactly the token sequences of values nested at most 32 deep, with distinct names per object and no null unless allowed |
| StrictJson.ConsumesExactlyOneValue | internal/strictjson/decode.go:71-121 | the value a scan consumes and what it leaves are determined |
| StrictJson.ScanValue | internal/strictjson/decode.go:71-121 | the recursive scan over the decoder's state is the recognizer function, and leaves what it leaves |
| StrictJson.Recognize | internal/strictjson/decode.go:26-33 | a scan and then the end of the input recognize exactly that language |
| StrictJson.Shape | internal/strictjson/decode.go:122-158 | looking up one side's keys and comparing sizes, in any order, decides that both sides have the same keys, lengths and kinds |
| StrictJson.ShapeIsReflexiveWithoutNull | internal/strictjson/decode.go:122-158 | a value has its own shape exactly when it holds no null |
| StrictJson.ShapeIsSymmetric | internal/strictjson/decode.go:122-158 | shape is symmetric |
| StrictJson.ShapeIsTransitive | internal/strictjson/decode.go:122-158 | shape is transitive |

## Left out

- Objects behind pointers: collectors, sessions and bindings are rows of maps held by one object, so aliasing of Go pointers is not modelled; a session is known by its identifier.
- AppMemoryService.Memory.ExpireAll: requires that a collector's active session is one of its own, which Go's pointers guarantee by construction and `AppTheorems.ReachableIsLinked` proves for every reachable state.
- SQL: statements and transactions are atomic steps; isolation levels, deadlocks and lost connections inside a transaction are not modelled, and the unique constraints of the installation tables are not assumed.
- `FOR UPDATE SKIP LOCKED` with several lifecycle workers: the queue is that of one worker.
- One Station: the rows of other Stations, and of tables no modelled writer touches, are left out.
- Timestamps of installation and operation rows: every update of an installation also advances its revision, which is what the compares rely on.
- `validatePreinstalled` and `readPreinstalledHistory`: their verdict on the installation history is an answer; inventory revisions are compared only through the request digest.
- The registered historical adoption chains of the Video App: one predicate that says whether a binding may follow another and on which recorded upgrade.
- The target of a forward recovery is not part of the release ledger, because only transitions are consulted when a reference is retained.
- The proof rows a forward recovery needs: whether one exists is an answer.
- The stored size limit of an execution input, and JSON encoding of rows.
- SHA-256: a digest is the value it is taken of.
- Unsigned 64-bit wrap-around of cache revisions, which are unbounded counters here.
- The NDJSON transport, read deadlines and decoding of frames: a frame arrives as a value.
- Byte lengths of strings outside ASCII: lengths count characters.
- `catalogSnapshot`, `registeredCatalog` and legacy revision digests: presentation of the views that are modelled.
- `validateLegacy` and `LoadLegacy`: reading and checking a registry file. The registered place is an argument of each legacy answer, so the namespace a reset moves it to is not part of the state.
- `Prober.Run`: the result of a probe is an answer; encryption of credentials is the identity.
- `normalize` in the egress service: its checks of names, hosts and ports are one flag of the request.
- `MigrateNamespace`: only the rewrite of stored documents, not the row updates around it.
- The standard decoder's own syntax checks: the recognizer works on the tokens it hands out.
- `Decode`'s second pass through a typed destination: only the shape comparison it ends with.
- HTTP gateways, gRPC, Kubernetes discovery, release verification, notifications, telemetry and sessions of users: plumbing around the parts above, or members that would be easy.
