/** Accepting, dispatching and forward-recovering managed transitions keep the joint invariant. */
module OperationsTransitionSteps {
  import opened Common
  import opened Releases
  import opened Rows
  import opened Lifecycle
  import opened Transitions
  import opened Interleaving
  import opened OperationsInvariant
  import opened OperationsLifecycleSteps

  // ---------- Acceptance ----------

  lemma SubmitTransitionKeeps(env: Env, db: Db, u: Identity, c: TransitionCommand, replay: Option<Uuid>,
                              releases: Result<(Snapshot, Snapshot), Error>, newId: Uuid)
    requires DbOk(env, db) && IsTransitionReplay(db, u.user, u.org, c.key, replay) && newId !in db.transitions
    ensures var next := SubmitTransition(env, db, u, c, replay, releases, newId).0;
      DbOk(env, next) && next.recoveries == db.recoveries
  {
    hide KeyedRows, OperationsOk, TransitionsOk, RecoveriesOk, Exclusion, Ledger, KeysUnique, AcceptTransition, ValidTransitionCommand;
    if u.station == env.station && u.admin && u.canManage && ValidTransitionCommand(c) && replay.None?
       && AcceptTransition(env, db, u, c, releases, newId).Ok? {
      var t := AcceptTransition(env, db, u, c, releases, newId).value;
      var next := db.(transitions := db.transitions[newId := t]);
      AcceptedTransitionFits(env, db, u, c, releases, newId);
      NewTransitionKeepsRows(env, db, t);
      NewTransitionKeepsExclusion(env, db, t);
      NewTransitionKeepsOthers(env, db, t);
    }
  }

  /** What acceptance has established about a new transition row. */
  ghost predicate Fits(env: Env, db: Db, t: Transition) {
    && DbOk(env, db) && t.id !in db.transitions && t.status == TAccepted && t.phase == PAccepted
    && t.installation in db.installations && !OperationBusy(db, t.app) && !TransitionBusyForInstallation(db, t.installation)
    && TransitionOk(db, t) && Retained(db, t.source) && Retained(db, t.target)
    && IsTransitionReplay(db, t.user, t.org, t.key, None)
  }

  lemma AcceptedTransitionFits(env: Env, db: Db, u: Identity, c: TransitionCommand,
                               releases: Result<(Snapshot, Snapshot), Error>, newId: Uuid)
    requires DbOk(env, db) && IsTransitionReplay(db, u.user, u.org, c.key, None) && newId !in db.transitions
    requires ValidTransitionCommand(c) && AcceptTransition(env, db, u, c, releases, newId).Ok?
    ensures var t := AcceptTransition(env, db, u, c, releases, newId).value; Fits(env, db, t) && t.id == newId
  {
    hide OperationsOk, TransitionsOk, RecoveriesOk, Exclusion, Ledger, KeysUnique, OperationBusy, TransitionBusyForInstallation,
         Retained, ValidSnapshot;
  }

  lemma ReferencesDiffer(db: Db, t: Transition)
    requires TransitionOk(db, t)
    ensures t.source.releaseRef != t.target.releaseRef
  {
    hide ValidSnapshot;
  }

  lemma NewTransitionKeepsLedger(db: Db, t: Transition)
    requires Ledger(db) && Retained(db, t.source) && Retained(db, t.target) && t.id !in db.transitions
    requires t.source.releaseRef != t.target.releaseRef
    ensures Ledger(db.(transitions := db.transitions[t.id := t]))
  {
    forall i | i in db.transitions
      ensures Agree(db.transitions[i].source, t.source) && Agree(db.transitions[i].source, t.target)
      ensures Agree(db.transitions[i].target, t.source) && Agree(db.transitions[i].target, t.target)
      ensures Agree(t.source, db.transitions[i].source) && Agree(t.target, db.transitions[i].source)
      ensures Agree(t.source, db.transitions[i].target) && Agree(t.target, db.transitions[i].target)
    {
    }
    hide Retained;
  }

  lemma NewTransitionKeepsRows(env: Env, db: Db, t: Transition)
    requires Fits(env, db, t)
    ensures var next := db.(transitions := db.transitions[t.id := t]); KeyedRows(next) && KeysUnique(next) && Ledger(next)
  {
    hide OperationsOk, TransitionsOk, RecoveriesOk, Exclusion, OperationBusy, TransitionBusyForInstallation, TransitionOk,
         Ledger, Retained;
    ReferencesDiffer(db, t);
    NewTransitionKeepsLedger(db, t);
  }

  /**
   * Acceptance only looks for other transitions of the same installation. That is
   * enough: an unfinished transition of the App sits on an installed row, and the
   * App has one such row.
   */
  lemma NewTransitionKeepsExclusion(env: Env, db: Db, t: Transition)
    requires Fits(env, db, t)
    ensures Exclusion(db.(transitions := db.transitions[t.id := t]))
  {
    hide OperationsOk, RecoveriesOk, KeyedRows, Ledger, KeysUnique, Retained, Compatible, HeldBy;
    forall o | o in db.transitions && db.transitions[o].app == t.app ensures Terminal(db.transitions[o]) {
      var other := db.transitions[o];
      assert TransitionOk(db, other) && TransitionOk(db, t);
    }
  }

  lemma NewTransitionKeepsOthers(env: Env, db: Db, t: Transition)
    requires Fits(env, db, t)
    ensures var next := db.(transitions := db.transitions[t.id := t]);
      OperationsOk(env, next) && TransitionsOk(next) && RecoveriesOk(next)
  {
    var next := db.(transitions := db.transitions[t.id := t]);
    hide Exclusion, Ledger, KeysUnique, Retained, Compatible, HeldBy, DispatchInput, ValidBinding, SourceRecovery,
         ReadableRecovery, ForwardStillBound, Readable, OperationBusy, TransitionBusyForInstallation;
    assert OperationsOk(env, next) by {
      forall o | o in next.operations ensures OperationOk(env, next, next.operations[o]) {
        assert OperationOk(env, db, db.operations[o]);
        if db.operations[o].installation.Some? {
          RecoveryEvidenceKept(env, db, next, db.operations[o].installation.value);
        }
      }
    }
    assert TransitionsOk(next);
    forall r | r in next.recoveries ensures RecoveryOk(next, next.recoveries[r]) {
      assert RecoveryOk(db, db.recoveries[r]);
    }
  }

  // ---------- Moving an unfinished transition and its installation ----------

  /** One unfinished transition row and its installation row change; nothing else but perhaps recoveries does. */
  ghost predicate Moves(db: Db, t: Transition, row: Transition, j: Installation, next: Db) {
    && t.id in db.transitions && db.transitions[t.id] == t && !Terminal(t)
    && row == t.(status := row.status, phase := row.phase) && StatusMatchesPhase(row)
    && j.id == t.installation && j.id in db.installations
    && j == db.installations[j.id].(version := j.version, revision := j.revision) && j.revision <= MAX_INT64
    && j.revision >= db.installations[j.id].revision
    && next == db.(transitions := db.transitions[t.id := row], installations := db.installations[j.id := j], recoveries := next.recoveries)
  }

  lemma MoveKeepsLedger(db: Db, t: Transition, row: Transition, j: Installation, next: Db)
    requires Ledger(db) && Moves(db, t, row, j, next)
    ensures Ledger(next)
  {
    hide StatusMatchesPhase, Agree;
  }

  lemma MoveKeepsKeys(db: Db, t: Transition, row: Transition, j: Installation, next: Db)
    requires KeysUnique(db) && Moves(db, t, row, j, next)
    ensures KeysUnique(next)
  {
    hide StatusMatchesPhase;
  }

  lemma MoveKeepsExclusion(env: Env, db: Db, t: Transition, row: Transition, j: Installation, next: Db)
    requires KeyedRows(db) && Exclusion(db) && Moves(db, t, row, j, next)
    ensures Exclusion(next)
    ensures forall i :: i in next.installations ==> next.installations[i].id == i && 1 <= next.installations[i].revision <= MAX_INT64
  {
  }

  lemma MoveKeepsOperations(env: Env, db: Db, t: Transition, row: Transition, j: Installation, next: Db)
    requires DbOk(env, db) && Moves(db, t, row, j, next)
    ensures OperationsOk(env, next)
  {
    hide RecoveriesOk, KeysUnique, Ledger, DispatchInput, ValidBinding, SourceRecovery, Holds, Compatible,
         OneInstallationPerApp, OneOperationPerApp, OneTransitionPerApp;
    assert TransitionOk(db, t);
    forall o | o in next.operations ensures OperationOk(env, next, next.operations[o]) {
      var p := db.operations[o];
      assert OperationOk(env, db, p);
      if p.installation.Some? {
        RecoveryEvidenceKept(env, db, next, p.installation.value);
        assert Active(p) ==> p.installation.value != j.id;
      }
    }
  }

  lemma MoveKeepsOtherTransitions(env: Env, db: Db, t: Transition, row: Transition, j: Installation, next: Db)
    requires DbOk(env, db) && Moves(db, t, row, j, next)
    requires !Terminal(row) ==> Holds(row, j)
    ensures TransitionsOk(next)
  {
    hide OperationsOk, RecoveriesOk, KeysUnique, Ledger, Compatible, OneInstallationPerApp, OneOperationPerApp, Holds;
    assert TransitionOk(db, t);
    forall o | o in next.transitions ensures TransitionOk(next, next.transitions[o]) {
      assert TransitionOk(db, db.transitions[o]);
    }
  }

  /** Recoveries of other operations, and finished ones of this operation, stay as bound as they were. */
  lemma MoveKeepsRecovery(env: Env, db: Db, t: Transition, row: Transition, j: Installation, next: Db, r: Recovery)
    requires DbOk(env, db) && Moves(db, t, row, j, next)
    requires RecoveryOk(db, r) && (r.state == RecoveryPending ==> r.operation != t.id)
    ensures RecoveryOk(next, r)
  {
    hide OperationsOk, KeysUnique, Ledger, Compatible, OneInstallationPerApp, OneOperationPerApp, Holds, ReadableRecovery,
         ForwardStillBound, Readable;
    if r.state == RecoveryPending {
      PendingParentUnfinished(db, r);
      var parent := db.transitions[r.operation];
      assert TransitionOk(db, parent) && TransitionOk(db, t);
      assert parent.app != t.app;
      assert parent.installation != j.id;
      assert next.installations[parent.installation] == db.installations[parent.installation];
    }
  }

  // ---------- Commit ----------

  /** The compare of a commit succeeded: the committed rows are the rows that were read, but for immutable extras. */
  ghost predicate Compared(db: Db, prior: Dispatch, t: Transition, i: Installation) {
    && t.id == prior.t.id && t.id in db.transitions && db.transitions[t.id] == t
    && t.installation in db.installations && db.installations[t.installation] == i && i == prior.installed
    && t.status == prior.t.status && t.phase == prior.t.phase && DigestOf(t) == DigestOf(prior.t)
  }

  /** What was decided from the rows that were read is what the committed rows decide. */
  lemma SameDecision(db: Db, prior: Dispatch, t: Transition, i: Installation, requestId: Uuid, a: RuntimeAnswer)
    requires Compared(db, prior, t, i)
    ensures Decide(prior, requestId, a) == Decide(Dispatch(t, i), requestId, a)
  {
  }

  lemma CommitCompares(db: Db, prior: Dispatch, plan: Plan) returns (t: Transition, i: Installation)
    requires KeyedRows(db) && Commit(db, prior, plan).1.Ok?
    ensures Compared(db, prior, t, i) && Readable(t, i)
    ensures plan.version.Some? ==> i.state == Installed && i.revision < MAX_INT64
    ensures Commit(db, prior, plan).0 == Apply(db, Dispatch(t, i), plan)
  {
    hide Readable;
    t := db.transitions[prior.t.id];
    i := db.installations[t.installation];
  }

  /** The installation row after a plan is applied. */
  function Planned(i: Installation, plan: Plan): Installation {
    if plan.version.None? then i else i.(version := plan.version.value, revision := i.revision + 1)
  }

  /** What a decision can be, given what the invariant says about the rows it is made from. */
  lemma DecisionFits(t: Transition, i: Installation, requestId: Uuid, a: RuntimeAnswer)
    requires !Terminal(t) && StatusMatchesPhase(t) && Holds(t, i) && Decide(Dispatch(t, i), requestId, a).Ok?
    ensures var plan := Decide(Dispatch(t, i), requestId, a).value;
      var row := t.(status := plan.status, phase := plan.phase);
      && StatusMatchesPhase(row)
      && (!Terminal(row) ==> Holds(row, Planned(i, plan)))
      && (plan.version.Some? ==> t.phase == PPublishing && row.phase == PReleasing && plan.version.value == t.target.appVersion)
  {
  }

  lemma CommitKeeps(env: Env, db: Db, prior: Dispatch, requestId: Uuid, a: RuntimeAnswer)
    requires DbOk(env, db) && !Terminal(prior.t) && !RecoveryPendingFor(db, prior.t.id)
    ensures var next := CommitFlight(db, prior, requestId, a); DbOk(env, next) && next.recoveries == db.recoveries
  {
    hide OperationsOk, TransitionsOk, RecoveriesOk, Exclusion, Ledger, KeysUnique, Decide, Commit;
    if Decide(prior, requestId, a).Ok? && Commit(db, prior, Decide(prior, requestId, a).value).1.Ok? {
      var plan := Decide(prior, requestId, a).value;
      var t, i := CommitCompares(db, prior, plan);
      SameDecision(db, prior, t, i, requestId, a);
      CommitKeepsAt(env, db, t, i, requestId, a);
    } else {
      RefusedCommitChangesNothing(db, prior, requestId, a);
    }
  }

  lemma RefusedCommitChangesNothing(db: Db, prior: Dispatch, requestId: Uuid, a: RuntimeAnswer)
    requires Decide(prior, requestId, a).Err? || Commit(db, prior, Decide(prior, requestId, a).value).1.Err?
    ensures CommitFlight(db, prior, requestId, a) == db
  {
    hide Decide, Readable;
  }

  /** The guard on the expected revision leaves room for every publication of an unfinished transition. */
  lemma UnfinishedLeavesRoom(db: Db, t: Transition, i: Installation)
    requires TransitionOk(db, t) && !Terminal(t) && db.installations[t.installation] == i && Readable(t, i)
    ensures i.revision < MAX_INT64
  {
    hide Compatible;
  }

  lemma PlanMoves(env: Env, db: Db, t: Transition, i: Installation, requestId: Uuid, a: RuntimeAnswer)
    requires KeyedRows(db) && TransitionOk(db, t) && t.id in db.transitions && db.transitions[t.id] == t && !Terminal(t)
    requires t.installation in db.installations && db.installations[t.installation] == i && i.revision < MAX_INT64
    requires Decide(Dispatch(t, i), requestId, a).Ok? && Readable(t, i)
    ensures var plan := Decide(Dispatch(t, i), requestId, a).value;
      var row := t.(status := plan.status, phase := plan.phase);
      Moves(db, t, row, Planned(i, plan), Apply(db, Dispatch(t, i), plan))
      && (!Terminal(row) ==> Holds(row, Planned(i, plan)))
  {
    hide Decide, Compatible, HeldBy, Holds, StatusMatchesPhase, Readable, ValidSnapshot;
    DecisionFits(t, i, requestId, a);
    var plan := Decide(Dispatch(t, i), requestId, a).value;
    assert plan.version.None? ==> db.installations[i.id := i] == db.installations;
  }

  lemma CommitKeepsAt(env: Env, db: Db, t: Transition, i: Installation, requestId: Uuid, a: RuntimeAnswer)
    requires DbOk(env, db) && t.id in db.transitions && db.transitions[t.id] == t && !Terminal(t)
    requires t.installation in db.installations && db.installations[t.installation] == i && !RecoveryPendingFor(db, t.id)
    requires Decide(Dispatch(t, i), requestId, a).Ok? && Readable(t, i)
    ensures var next := Apply(db, Dispatch(t, i), Decide(Dispatch(t, i), requestId, a).value);
      DbOk(env, next) && next.recoveries == db.recoveries
  {
    hide OperationsOk, RecoveriesOk, Exclusion, Ledger, KeysUnique, KeyedRows, Decide, Moves, Holds, Readable, TransitionOk;
    var plan := Decide(Dispatch(t, i), requestId, a).value;
    var next := Apply(db, Dispatch(t, i), plan);
    var row := t.(status := plan.status, phase := plan.phase);
    UnfinishedLeavesRoom(db, t, i);
    PlanMoves(env, db, t, i, requestId, a);
    hide TransitionsOk;
    MoveKeepsLedger(db, t, row, Planned(i, plan), next);
    MoveKeepsKeys(db, t, row, Planned(i, plan), next);
    MoveKeepsExclusion(env, db, t, row, Planned(i, plan), next);
    MoveKeepsOperations(env, db, t, row, Planned(i, plan), next);
    MoveKeepsOtherTransitions(env, db, t, row, Planned(i, plan), next);
    MovedRecoveries(env, db, t, row, Planned(i, plan), next);
  }

  lemma MovedRecoveries(env: Env, db: Db, t: Transition, row: Transition, j: Installation, next: Db)
    requires DbOk(env, db) && Moves(db, t, row, j, next) && !RecoveryPendingFor(db, t.id) && next.recoveries == db.recoveries
    ensures RecoveriesOk(next) && KeyedRows(next)
  {
    hide OperationsOk, TransitionsOk, Exclusion, Ledger, KeysUnique, RecoveryOk;
    forall r | r in next.recoveries ensures RecoveryOk(next, next.recoveries[r]) {
      MoveKeepsRecovery(env, db, t, row, j, next, db.recoveries[r]);
    }
  }

  // ---------- Forward recovery ----------

  lemma NewRecoveryIsBound(db: Db, u: Identity, c: ForwardCommand, releases: Result<(Snapshot, Snapshot), Error>, id: Uuid)
    requires KeyedRows(db) && NewRecovery(db, u, c, releases, id).Ok?
    ensures var r := NewRecovery(db, u, c, releases, id).value;
      && r.id == id && r.operation == c.operation && r.state == RecoveryPending
      && RecoveryOk(db, r) && !RecoveryPendingFor(db, r.operation)
  {
    hide Readable, Retained, OperationBusy, ValidSnapshot;
  }

  lemma AcceptForwardKeeps(env: Env, db: Db, u: Identity, c: ForwardCommand, replay: Option<Uuid>,
                           releases: Result<(Snapshot, Snapshot), Error>, id: Uuid)
    requires DbOk(env, db) && IsRecoveryReplay(db, u.user, u.org, c.key, replay) && id !in db.recoveries
    ensures var (next, r) := AcceptForward(env, db, u, c, replay, releases, id);
      && DbOk(env, next)
      && (forall op :: op != c.operation && !RecoveryPendingFor(db, op) ==> !RecoveryPendingFor(next, op))
      && (forall i :: i in db.recoveries ==> i in next.recoveries && next.recoveries[i] == db.recoveries[i])
      && (r.Ok? && r.value.state == RecoveryPending ==>
            r.value.operation == c.operation && r.value.id in next.recoveries && next.recoveries[r.value.id] == r.value)
  {
    hide OperationsOk, TransitionsOk, RecoveriesOk, Ledger, KeysUnique, Exclusion, NewRecovery, ValidForwardCommand, CanRecover,
         RecoveryOk, ReadableRecovery;
    if replay.Some? {
      assert RecoveryOk(db, db.recoveries[replay.value]) by { assert RecoveriesOk(db); RecoveryAt(db, replay.value); }
      BoundToItsOperation(db, db.recoveries[replay.value]);
    } else if NewRecovery(db, u, c, releases, id).Ok? {
      NewRecoveryIsBound(db, u, c, releases, id);
      AddedRecovery(env, db, NewRecovery(db, u, c, releases, id).value);
    }
  }

  lemma RecoveryAt(db: Db, id: Uuid)
    requires RecoveriesOk(db) && id in db.recoveries
    ensures RecoveryOk(db, db.recoveries[id])
  {
    hide RecoveryOk;
  }

  lemma BoundToItsOperation(db: Db, r: Recovery)
    requires RecoveryOk(db, r)
    ensures r.hash.operation == r.operation
  {
  }

  lemma AddedRecovery(env: Env, db: Db, r: Recovery)
    requires DbOk(env, db) && RecoveryOk(db, r) && r.id !in db.recoveries && !RecoveryPendingFor(db, r.operation)
    ensures DbOk(env, db.(recoveries := db.recoveries[r.id := r]))
  {
    var next := db.(recoveries := db.recoveries[r.id := r]);
    hide OperationsOk, TransitionsOk, Ledger, KeysUnique, Exclusion, RecoveryOk;
    RecoveriesAreApart(db, next);
    RecoveriesAreApartFromRows(env, db, next);
    forall i | i in next.recoveries ensures RecoveryOk(next, next.recoveries[i]) {
      SameRecoveryElsewhere(db, next, next.recoveries[i]);
    }
    assert RecoveriesOk(next);
    hide RecoveriesOk;
    assert KeyedRows(next);
  }

  lemma RecoveriesAreApart(db: Db, next: Db)
    requires Ledger(db) && KeysUnique(db) && Exclusion(db) && next == db.(recoveries := next.recoveries)
    ensures Ledger(next) && KeysUnique(next) && Exclusion(next)
  {
    hide Agree;
  }

  lemma RecoveriesAreApartFromRows(env: Env, db: Db, next: Db)
    requires OperationsOk(env, db) && TransitionsOk(db) && next == db.(recoveries := next.recoveries)
    ensures OperationsOk(env, next) && TransitionsOk(next)
  {
    hide DispatchInput, ValidBinding, SourceRecovery, Holds, Compatible, StatusMatchesPhase;
    forall o | o in next.operations ensures OperationOk(env, next, next.operations[o]) {
      assert OperationOk(env, db, db.operations[o]);
      if db.operations[o].installation.Some? {
        var id := db.operations[o].installation.value;
        if id in db.installations { RecoveryEvidenceKept(env, db, next, db.installations[id].id); }
      }
    }
    forall t | t in next.transitions ensures TransitionOk(next, next.transitions[t]) {
      assert TransitionOk(db, db.transitions[t]);
    }
  }

  /**
   * A pending forward recovery freezes its parent: the facts checked at
   * acceptance hold whenever it is finished, so its compare never fails. What is
   * left is a missing proof; the revision has room.
   */
  lemma PendingRecoveryFinishes(env: Env, db: Db, r: Recovery, verified: bool, proof: bool)
    requires DbOk(env, db) && r.id in db.recoveries && db.recoveries[r.id] == r && r.state == RecoveryPending
    ensures FinishForward(db, r, verified, proof).1 ==
      if verified && !proof then Err(Progress)
      else Ok(r.(state := if verified then RecoverySucceeded else RecoveryFailed))
  {
    hide OperationsOk, Ledger, KeysUnique, Exclusion, KeyedRows, Compatible, ValidSnapshot;
    assert RecoveryOk(db, r);
    var parent := ReadDispatch(db, r.operation).value;
    assert TransitionOk(db, parent.t) by { hide Readable, ForwardStillBound, ReadableRecovery; }
    PendingParentUnfinished(db, r);
    UnfinishedLeavesRoom(db, parent.t, parent.installed);
  }

  /** The tables after a finished recovery. */
  lemma FinishTouches(env: Env, db: Db, r: Recovery, verified: bool, proof: bool)
    requires DbOk(env, db) && r.id in db.recoveries && db.recoveries[r.id] == r && r.state == RecoveryPending
    ensures var next := FinishForward(db, r, verified, proof).0;
      var parent := ReadDispatch(db, r.operation).value;
      if verified && proof then
        && Moves(db, parent.t, parent.t.(status := TFailed, phase := PCompleted),
                 parent.installed.(version := r.target.appVersion, revision := parent.installed.revision + 1), next)
        && next.recoveries == db.recoveries[r.id := r.(state := RecoverySucceeded)] && parent.t.id == r.operation
      else
        next == if verified then db else db.(recoveries := db.recoveries[r.id := r.(state := RecoveryFailed)])
    ensures ReadDispatch(db, r.operation).Ok?
  {
    hide OperationsOk, Ledger, KeysUnique, Exclusion, Compatible, ValidSnapshot;
    assert RecoveryOk(db, r);
    var parent := ReadDispatch(db, r.operation).value;
    PendingParentUnfinished(db, r);
    assert TransitionOk(db, parent.t) by { hide Readable, ForwardStillBound, ReadableRecovery; }
    UnfinishedLeavesRoom(db, parent.t, parent.installed);
    hide TransitionsOk, RecoveriesOk;
  }

  lemma VerifiedKeeps(env: Env, db: Db, r: Recovery, t: Transition, row: Transition, j: Installation, next: Db)
    requires DbOk(env, db) && r.id in db.recoveries && db.recoveries[r.id] == r && r.state == RecoveryPending
    requires Moves(db, t, row, j, next) && t.id == r.operation && Terminal(row)
    requires next.recoveries == db.recoveries[r.id := r.(state := RecoverySucceeded)]
    ensures DbOk(env, next)
  {
    hide OperationsOk, TransitionsOk, Ledger, KeysUnique, Exclusion, KeyedRows, Moves, RecoveryOk;
    MoveKeepsLedger(db, t, row, j, next);
    MoveKeepsKeys(db, t, row, j, next);
    MoveKeepsExclusion(env, db, t, row, j, next);
    MoveKeepsOperations(env, db, t, row, j, next);
    MoveKeepsOtherTransitions(env, db, t, row, j, next);
    forall i | i in db.recoveries && i != r.id ensures RecoveryOk(next, db.recoveries[i]) {
      MoveKeepsRecovery(env, db, t, row, j, next, db.recoveries[i]);
    }
    DoneStaysBound(db, r, RecoverySucceeded);
    MoveKeepsRecovery(env, db, t, row, j, next, r.(state := RecoverySucceeded));
    assert RecoveriesOk(next);
    hide RecoveriesOk;
    assert forall i :: i in next.recoveries ==> next.recoveries[i].id == i by { KeyedRecoveries(db); }
    MovedRowsAreKeyed(db, t, row, j, next);
  }

  lemma KeyedRecoveries(db: Db)
    requires KeyedRows(db)
    ensures forall i :: i in db.recoveries ==> db.recoveries[i].id == i
  {
  }

  lemma DoneStaysBound(db: Db, r: Recovery, state: RecoveryState)
    requires RecoveryOk(db, r) && state != RecoveryPending
    ensures RecoveryOk(db, r.(state := state))
  {
    hide ValidSnapshot, Readable;
  }

  lemma RejectedKeeps(env: Env, db: Db, r: Recovery)
    requires DbOk(env, db) && r.id in db.recoveries && db.recoveries[r.id] == r && r.state == RecoveryPending
    ensures DbOk(env, db.(recoveries := db.recoveries[r.id := r.(state := RecoveryFailed)]))
  {
    var next := db.(recoveries := db.recoveries[r.id := r.(state := RecoveryFailed)]);
    hide OperationsOk, TransitionsOk, Ledger, KeysUnique, Exclusion, RecoveryOk;
    RecoveriesAreApart(db, next);
    RecoveriesAreApartFromRows(env, db, next);
    DoneStaysBound(db, r, RecoveryFailed);
    forall i | i in next.recoveries ensures RecoveryOk(next, next.recoveries[i]) {
      SameRecoveryElsewhere(db, next, next.recoveries[i]);
    }
    assert RecoveriesOk(next);
    hide RecoveriesOk;
    assert KeyedRows(next);
  }

  lemma FinishForwardKeeps(env: Env, db: Db, r: Recovery, verified: bool, proof: bool)
    requires DbOk(env, db) && r.id in db.recoveries && db.recoveries[r.id] == r && r.state == RecoveryPending
    ensures var next := FinishForward(db, r, verified, proof).0;
      && DbOk(env, next)
      && (forall op :: !RecoveryPendingFor(db, op) ==> !RecoveryPendingFor(next, op))
      && (forall i :: i in db.recoveries && i != r.id ==> i in next.recoveries && next.recoveries[i] == db.recoveries[i])
  {
    hide FinishForward, DbOk, Moves, ReadDispatch, RecoveryPendingFor;
    FinishTouches(env, db, r, verified, proof);
    var next := FinishForward(db, r, verified, proof).0;
    if verified && proof {
      var parent := ReadDispatch(db, r.operation).value;
      var row := parent.t.(status := TFailed, phase := PCompleted);
      var j := parent.installed.(version := r.target.appVersion, revision := parent.installed.revision + 1);
      VerifiedKeeps(env, db, r, parent.t, row, j, next);
      SettlingAddsNone(db, r, r.(state := RecoverySucceeded), next);
    } else if !verified {
      RejectedKeeps(env, db, r);
      SettlingAddsNone(db, r, r.(state := RecoveryFailed), next);
    }
  }

  lemma SettlingAddsNone(db: Db, r: Recovery, done: Recovery, next: Db)
    requires next.recoveries == db.recoveries[r.id := done] && done.state != RecoveryPending
    ensures forall op :: !RecoveryPendingFor(db, op) ==> !RecoveryPendingFor(next, op)
    ensures forall i :: i in db.recoveries && i != r.id ==> i in next.recoveries && next.recoveries[i] == db.recoveries[i]
  {
  }

  lemma SameRecoveryElsewhere(db: Db, next: Db, r: Recovery)
    requires RecoveryOk(db, r) && next == db.(recoveries := next.recoveries)
    ensures RecoveryOk(next, r)
  {
    hide ReadableRecovery, ForwardStillBound, Readable;
  }

  lemma MovedRowsAreKeyed(db: Db, t: Transition, row: Transition, j: Installation, next: Db)
    requires KeyedRows(db) && Moves(db, t, row, j, next)
    requires forall i :: i in next.recoveries ==> next.recoveries[i].id == i
    ensures KeyedRows(next)
  {
    hide StatusMatchesPhase;
  }
}
