/** What each step of a managed transition leaves in the tables, row by row and answer by answer. */
module TransitionAnswers {
  import opened Common
  import opened TransitionVersions
  import opened Releases
  import opened Rows
  import opened Lifecycle
  import opened Transitions
  import opened Interleaving
  import opened OperationsInvariant
  import opened OperationsLifecycleSteps
  import opened OperationsTransitionSteps
  import opened OperationsRuns
  import opened OperationsTheorems

  // ---------- What a dispatch commits ----------

  /** Runtime answers the very step the committed rows ask for: the accepted input, and the work their phase calls for. */
  predicate Echoes(t: Transition, i: Installation, requestId: Uuid, a: RuntimeAnswer) {
    && a.Answered? && a.step.operation == t.id && a.step.requestId == requestId
    && a.step.digest == InputDigest(t.id, t.installation, t.org, t.user, t.expected, t.source, t.target)
    && match t.phase
       case PRestoring => a.step.mode == Restore
       case PReleasing => a.step.mode == if i.version == t.target.appVersion then ReleaseTarget else ReleaseSource
       case _ => a.step.mode == Prepare
  }

  /** Nothing changed but status and phase of one transition. */
  predicate OnlyMoved(db: Db, next: Db, op: Uuid, status: TransitionStatus, phase: Phase)
    requires op in db.transitions
  {
    next == db.(transitions := db.transitions[op := db.transitions[op].(status := status, phase := phase)])
  }

  /** The target is the installed version now, at the revision after the expected one, and is being released. */
  predicate OnlyPublished(db: Db, next: Db, op: Uuid)
    requires op in db.transitions && db.transitions[op].installation in db.installations
  {
    var t := db.transitions[op];
    var i := db.installations[t.installation];
    next == db.(transitions := db.transitions[op := t.(status := TRunning, phase := PReleasing)],
                installations := db.installations[t.installation :=
                  i.(version := t.target.appVersion, revision := t.expected + 1)])
  }

  /** A released target is a success and a released source a failure. */
  predicate AfterRelease(db: Db, next: Db, op: Uuid, p: RuntimePhase)
    requires op in db.transitions && db.transitions[op].installation in db.installations
  {
    var t := db.transitions[op];
    if p != Released then next == db
    else if db.installations[t.installation].version == t.target.appVersion then OnlyMoved(db, next, op, TSucceeded, PCompleted)
    else OnlyMoved(db, next, op, TFailed, PCompleted)
  }

  predicate AfterRestore(db: Db, next: Db, op: Uuid, p: RuntimePhase)
    requires op in db.transitions
  {
    match p
    case RestoredByRuntime => OnlyMoved(db, next, op, TRunning, PReleasing)
    case RecoveryRequired => OnlyMoved(db, next, op, TRecoveryRequired, PRecoveryRequired)
    case _ => next == db
  }

  /** Preparation reaches the reported stage, unless that lies behind. */
  predicate AfterPreparation(db: Db, next: Db, op: Uuid, p: RuntimePhase)
    requires op in db.transitions && db.transitions[op].installation in db.installations
  {
    var phase := db.transitions[op].phase;
    match p
    case RecoveryRequired => OnlyMoved(db, next, op, TRecoveryRequired, PRecoveryRequired)
    case RejectedByRuntime =>
      if phase == PChecking || phase == PSealing then OnlyMoved(db, next, op, TFailed, PCompleted) else next == db
    case Prepared =>
      if phase == PPublishing then OnlyPublished(db, next, op) else OnlyMoved(db, next, op, TRunning, PPublishing)
    case AtChecking => next == db
    case AtSealing => if phase in {PChecking, PSealing} then OnlyMoved(db, next, op, TRunning, PSealing) else next == db
    case AtApplying =>
      if phase in {PChecking, PSealing, PApplying} then OnlyMoved(db, next, op, TRunning, PApplying) else next == db
    case AtVerifying =>
      if phase in {PChecking, PSealing, PApplying, PVerifying} then OnlyMoved(db, next, op, TRunning, PVerifying) else next == db
    case _ => next == db
  }

  /** The tables after a dispatch of `op`, by the phase of its row and the answer of Runtime. */
  predicate AfterDispatch(db: Db, next: Db, op: Uuid, requestId: Uuid, a: RuntimeAnswer)
    requires op in db.transitions && db.transitions[op].installation in db.installations
  {
    var t := db.transitions[op];
    match t.phase
    case PAccepted => OnlyMoved(db, next, op, TRunning, PChecking)
    case PRecoveryRequired => OnlyMoved(db, next, op, TRunning, PRestoring)
    case _ =>
      if !Echoes(t, db.installations[t.installation], requestId, a) then next == db
      else if t.phase == PReleasing then AfterRelease(db, next, op, a.phase)
      else if t.phase == PRestoring then AfterRestore(db, next, op, a.phase)
      else AfterPreparation(db, next, op, a.phase)
  }

  lemma DecisionLeaves(db: Db, t: Transition, i: Installation, requestId: Uuid, a: RuntimeAnswer)
    requires t.id in db.transitions && db.transitions[t.id] == t && !Terminal(t) && StatusMatchesPhase(t)
    requires t.installation in db.installations && db.installations[t.installation] == i && i.id == t.installation
    requires Holds(t, i) && t.source.appVersion != t.target.appVersion
    ensures var d := Decide(Dispatch(t, i), requestId, a);
      AfterDispatch(db, if d.Ok? then Apply(db, Dispatch(t, i), d.value) else db, t.id, requestId, a)
  {
    assert db.transitions[t.id := t] == db.transitions;
  }

  /**
   * In every reachable world a commit leaves exactly what its phase and Runtime's
   * answer call for, however much happened since the dispatcher read its rows.
   */
  lemma CommitLeaves(env: Env, w: World, s: Step)
    requires Reachable(env, w) && Enabled(w, s) && s.CommitStep?
    ensures s.op in w.db.transitions && w.db.transitions[s.op].installation in w.db.installations
    ensures AfterDispatch(w.db, Next(env, w, s).db, s.op, s.requestId, s.runtime)
  {
    hide Inv, Reachable, Decide, CheckDispatch, RecoveryPendingFor, Commit, Apply, AfterDispatch;
    ReachableSatisfiesInvariant(env, w);
    ReadyFlightIsCurrent(env, w, s.op);
    ReadyOf(env, w, s.op);
    var prior := w.flights[s.op].prior;
    ReadyRows(env, w, prior);
    UnfinishedFacts(env, w, s.op);
    if Decide(prior, s.requestId, s.runtime).Ok? {
      DecisionsAreCommitted(env, w, s.op, s.requestId, s.runtime);
    }
    DecisionLeaves(w.db, prior.t, prior.installed, s.requestId, s.runtime);
  }

  lemma UnfinishedFacts(env: Env, w: World, op: Uuid)
    requires Inv(env, w) && op in w.db.transitions && !Terminal(w.db.transitions[op])
    ensures var t := w.db.transitions[op];
      && t.id == op && t.installation in w.db.installations && w.db.installations[t.installation].id == t.installation
      && w.db.installations[t.installation].org == t.org && w.db.installations[t.installation].app == t.app
      && StatusMatchesPhase(t) && Holds(t, w.db.installations[t.installation]) && t.source.appVersion != t.target.appVersion
      && Compatible(t.action, t.app, t.source.appVersion, t.source.appVersion, t.target.releaseRef, t.source, t.target)
  {
    hide OperationsOk, RecoveriesOk, Exclusion, Ledger, KeysUnique, FlightsOk, Compatible, Holds, StatusMatchesPhase;
    var t := w.db.transitions[op];
    assert TransitionOk(w.db, t);
    CompatibleChangesVersion(t.action, t.app, t.source.appVersion, t.source.appVersion, t.target.releaseRef, t.source, t.target);
  }

  /** What an unfinished transition's installation holds, in versions and revisions. */
  lemma UnfinishedHolds(env: Env, w: World, op: Uuid)
    requires Reachable(env, w) && op in w.db.transitions && !Terminal(w.db.transitions[op])
    ensures var t := w.db.transitions[op];
      && t.installation in w.db.installations
      && var i := w.db.installations[t.installation];
         && i.state == Installed && i.app == t.source.appId == t.target.appId
         && (|| (i.version == t.source.appVersion && i.revision == t.expected)
             || (t.phase == PReleasing && i.version == t.target.appVersion && i.revision == t.expected + 1))
  {
    hide Inv, Reachable;
    ReachableSatisfiesInvariant(env, w);
    UnfinishedFacts(env, w, op);
    hide ValidSnapshot, VersionOrder;
  }

  // ---------- An honest Runtime ----------

  /** Nobody else works on the transition, and the dispatcher's limit leaves it room. */
  ghost predicate Free(w: World, op: Uuid) {
    && op in w.db.transitions && !Terminal(w.db.transitions[op]) && op !in w.flights
    && !RecoveryPendingFor(w.db, op) && w.db.transitions[op].expected <= MAX_INT64 - 2
  }

  lemma ChecksPass(env: Env, w: World, op: Uuid)
    requires Inv(env, w) && Free(w, op)
    ensures var t := w.db.transitions[op];
      && t.installation in w.db.installations && w.db.installations[t.installation].org == t.org
      && CheckDispatch(Dispatch(t, w.db.installations[t.installation]), false).None?
  {
    hide Inv, RecoveryPendingFor;
    UnfinishedFacts(env, w, op);
    hide Compatible;
  }

  /** One uninterrupted dispatch: lock, two reads and a commit. */
  lemma DispatchRound(env: Env, w: World, op: Uuid, requestId: Uuid, a: RuntimeAnswer) returns (steps: seq<Step>)
    requires Reachable(env, w) && Free(w, op)
    ensures IsRun(env, w, steps)
    ensures var w' := After(env, w, steps);
      && w'.flights == w.flights && w.db.transitions[op].installation in w.db.installations
      && AfterDispatch(w.db, w'.db, op, requestId, a)
    ensures |steps| == 4
  {
    hide Inv, Reachable, CheckDispatch, RecoveryPendingFor, AfterDispatch, CommitFlight, Next, IsRun, After;
    ReachableSatisfiesInvariant(env, w);
    ChecksPass(env, w, op);
    var t := w.db.transitions[op];
    var d := Dispatch(t, w.db.installations[t.installation]);
    var lock, row, both, commit := LockStep(op), ReadRowStep(op), ReadInstalledStep(op), CommitStep(op, requestId, a);
    var w1, w2, w3 := w.(flights := w.flights[op := Locked]), w.(flights := w.flights[op := RowRead(t)]),
                      w.(flights := w.flights[op := Ready(d)]);
    RoundSteps(env, w, op, t, d);
    OneStepRun(env, w, lock);
    Extend(env, w, [lock], row);
    assert [lock] + [row] == [lock, row];
    Extend(env, w, [lock, row], both);
    assert [lock, row] + [both] == [lock, row, both];
    Extend(env, w, [lock, row, both], commit);
    assert [lock, row, both] + [commit] == [lock, row, both, commit];
    ReachableExtends(env, w, lock);
    ReachableExtends(env, w1, row);
    ReachableExtends(env, w2, both);
    CommitLeaves(env, w3, commit);
    steps := [lock, row, both, commit];
    RoundEnds(env, w, w3, op, requestId, a);
  }

  lemma RoundSteps(env: Env, w: World, op: Uuid, t: Transition, d: Dispatch)
    requires Free(w, op) && t == w.db.transitions[op] && t.installation in w.db.installations
    requires d == Dispatch(t, w.db.installations[t.installation]) && d.installed.org == t.org && CheckDispatch(d, false).None?
    ensures Enabled(w, LockStep(op)) && Next(env, w, LockStep(op)) == w.(flights := w.flights[op := Locked])
    ensures var w1 := w.(flights := w.flights[op := Locked]);
      Enabled(w1, ReadRowStep(op)) && Next(env, w1, ReadRowStep(op)) == w.(flights := w.flights[op := RowRead(t)])
    ensures var w2 := w.(flights := w.flights[op := RowRead(t)]);
      Enabled(w2, ReadInstalledStep(op)) && Next(env, w2, ReadInstalledStep(op)) == w.(flights := w.flights[op := Ready(d)])
  {
    hide CheckDispatch, RecoveryPendingFor;
    assert w.flights[op := Locked][op := RowRead(t)] == w.flights[op := RowRead(t)];
    assert w.flights[op := RowRead(t)][op := Ready(d)] == w.flights[op := Ready(d)];
  }

  lemma RoundEnds(env: Env, w: World, w3: World, op: Uuid, requestId: Uuid, a: RuntimeAnswer)
    requires op !in w.flights && op in w3.flights && w3.flights[op].Ready? && w3.flights == w.flights[op := w3.flights[op]]
    ensures Next(env, w3, CommitStep(op, requestId, a)).flights == w.flights
  {
    hide CommitFlight;
  }

  lemma Extend(env: Env, w: World, steps: seq<Step>, s: Step)
    requires IsRun(env, w, steps) && Enabled(After(env, w, steps), s)
    ensures IsRun(env, w, steps + [s]) && After(env, w, steps + [s]) == Next(env, After(env, w, steps), s)
  {
    hide Enabled, Next, IsRun, After;
    OneStepRun(env, After(env, w, steps), s);
    RunsCompose(env, w, steps, [s]);
  }

  /** What Runtime answers when the work it was asked for is done. */
  function Done(t: Transition, i: Installation, requestId: Uuid): RuntimeAnswer {
    var digest := InputDigest(t.id, t.installation, t.org, t.user, t.expected, t.source, t.target);
    match t.phase
    case PRestoring => Answered(StepRef(t.id, requestId, digest, Restore), RestoredByRuntime)
    case PReleasing =>
      Answered(StepRef(t.id, requestId, digest, if i.version == t.target.appVersion then ReleaseTarget else ReleaseSource), Released)
    case _ => Answered(StepRef(t.id, requestId, digest, Prepare), Prepared)
  }

  /** Dispatches that are left when each is answered that its work is done. */
  function DispatchesLeft(p: Phase): nat {
    match p
    case PAccepted => 4
    case PPublishing => 2
    case PReleasing => 1
    case PRecoveryRequired => 3
    case PRestoring => 2
    case PCompleted => 0
    case _ => 3
  }

  /** The transition heads for its target: nothing of it failed, or the target is installed already. */
  predicate Promising(t: Transition, i: Installation) {
    t.phase in {PAccepted, PChecking, PSealing, PApplying, PVerifying, PPublishing}
    || (t.phase == PReleasing && i.version == t.target.appVersion)
  }

  /** The accepted input, kept, and how it ended. */
  predicate EndedAs(t: Transition, t': Transition, i': Installation, success: bool) {
    if success then t' == t.(status := TSucceeded, phase := PCompleted) && i'.version == t.target.appVersion && i'.revision == t.expected + 1
    else t' == t.(status := TFailed, phase := PCompleted) && i'.version == t.source.appVersion && i'.revision == t.expected
  }

  lemma DoneEchoes(t: Transition, i: Installation, requestId: Uuid)
    ensures Echoes(t, i, requestId, Done(t, i, requestId))
    ensures Done(t, i, requestId).phase ==
      if t.phase == PRestoring then RestoredByRuntime else if t.phase == PReleasing then Released else Prepared
  {
  }

  lemma DoneReleases(db: Db, next: Db, op: Uuid)
    requires op in db.transitions && db.transitions[op].installation in db.installations && db.transitions[op].phase == PReleasing
    requires Holds(db.transitions[op], db.installations[db.transitions[op].installation])
    requires db.transitions[op].source.appVersion != db.transitions[op].target.appVersion
    requires AfterRelease(db, next, op, Released)
    ensures next == db.(transitions := next.transitions)
    ensures var t, i := db.transitions[op], db.installations[db.transitions[op].installation];
      op in next.transitions && EndedAs(t, next.transitions[op], i, Promising(t, i))
  {
  }

  lemma DoneAdvances(db: Db, next: Db, op: Uuid)
    requires op in db.transitions && db.transitions[op].installation in db.installations
    requires db.transitions[op].phase != PReleasing && db.transitions[op].phase != PCompleted
    requires var p := db.transitions[op].phase;
      if p == PAccepted then OnlyMoved(db, next, op, TRunning, PChecking)
      else if p == PRecoveryRequired then OnlyMoved(db, next, op, TRunning, PRestoring)
      else if p == PRestoring then AfterRestore(db, next, op, RestoredByRuntime)
      else AfterPreparation(db, next, op, Prepared)
    requires Holds(db.transitions[op], db.installations[db.transitions[op].installation])
    requires db.transitions[op].source.appVersion != db.transitions[op].target.appVersion
    ensures next == db.(transitions := next.transitions, installations := next.installations)
    ensures op in next.transitions && db.transitions[op].installation in next.installations
    ensures var t, t' := db.transitions[op], next.transitions[op];
      && t' == t.(status := TRunning, phase := t'.phase) && t'.phase != PCompleted
      && DispatchesLeft(t'.phase) < DispatchesLeft(t.phase)
      && (Promising(t', next.installations[t.installation]) <==> Promising(t, db.installations[t.installation]))
  {
  }

  lemma DoneMoves(db: Db, next: Db, op: Uuid, requestId: Uuid)
    requires op in db.transitions && !Terminal(db.transitions[op]) && StatusMatchesPhase(db.transitions[op])
    requires db.transitions[op].installation in db.installations
    requires db.transitions[op].source.appVersion != db.transitions[op].target.appVersion
    requires Holds(db.transitions[op], db.installations[db.transitions[op].installation])
    requires var t := db.transitions[op]; AfterDispatch(db, next, op, requestId, Done(t, db.installations[t.installation], requestId))
    ensures next == db.(transitions := next.transitions, installations := next.installations)
    ensures op in next.transitions && db.transitions[op].installation in next.installations
    ensures var t, i := db.transitions[op], db.installations[db.transitions[op].installation];
      var t', i' := next.transitions[op], next.installations[t.installation];
      && t' == t.(status := t'.status, phase := t'.phase)
      && if t.phase == PReleasing then EndedAs(t, t', i', Promising(t, i))
         else !Terminal(t') && DispatchesLeft(t'.phase) < DispatchesLeft(t.phase) && (Promising(t', i') <==> Promising(t, i))
  {
    var t := db.transitions[op];
    DoneEchoes(t, db.installations[t.installation], requestId);
    assert t.phase != PCompleted;
    hide Echoes, Done, AfterPreparation, AfterRestore, AfterRelease, Promising, Holds, StatusMatchesPhase;
    if t.phase == PReleasing {
      DoneReleases(db, next, op);
    } else {
      DoneAdvances(db, next, op);
    }
  }

  /**
   * Nothing but Runtime keeps an accepted transition from its end: from every
   * reachable world, dispatches whose work is done finish it in at most four
   * rounds, as a success with the target installed or, once it had failed, as a
   * failure with the source installed.
   */
  lemma {:induction false} HonestRuntimeFinishes(env: Env, w: World, op: Uuid, requestId: Uuid) returns (steps: seq<Step>)
    requires Reachable(env, w) && Free(w, op)
    ensures IsRun(env, w, steps)
    ensures w.db.transitions[op].installation in w.db.installations
    ensures |steps| <= 4 * DispatchesLeft(w.db.transitions[op].phase)
    ensures var t, last := w.db.transitions[op], After(env, w, steps).db;
      && op in last.transitions && t.installation in last.installations
      && EndedAs(t, last.transitions[op], last.installations[t.installation], Promising(t, w.db.installations[t.installation]))
    decreases DispatchesLeft(w.db.transitions[op].phase)
  {
    hide Inv, Reachable, IsRun, After, AfterDispatch, Done, Holds, StatusMatchesPhase, Compatible, Promising, EndedAs;
    ReachableSatisfiesInvariant(env, w);
    UnfinishedFacts(env, w, op);
    var t := w.db.transitions[op];
    steps := DispatchRound(env, w, op, requestId, Done(t, w.db.installations[t.installation], requestId));
    var w' := After(env, w, steps);
    DoneMoves(w.db, w'.db, op, requestId);
    if t.phase != PReleasing {
      ReachableAfter(env, w, steps);
      var rest := HonestRuntimeFinishes(env, w', op, requestId);
      RunsCompose(env, w, steps, rest);
      SameEnd(t, w'.db.transitions[op]);
      steps := steps + rest;
    }
  }

  lemma SameEnd(t: Transition, u: Transition)
    requires u == t.(status := u.status, phase := u.phase)
    ensures forall t', i', success :: EndedAs(u, t', i', success) <==> EndedAs(t, t', i', success)
  {
  }
}
