/** The joint invariant of all writers. No single writer checks it. */
module OperationsInvariant {
  import opened Common
  import opened Releases
  import opened Rows
  import opened Lifecycle
  import opened Transitions
  import opened Interleaving

  ghost predicate KeyedRows(db: Db) {
    && (forall i :: i in db.installations ==> db.installations[i].id == i && 1 <= db.installations[i].revision <= MAX_INT64)
    && (forall i :: i in db.operations ==> db.operations[i].id == i)
    && (forall i :: i in db.transitions ==> db.transitions[i].id == i)
    && (forall i :: i in db.recoveries ==> db.recoveries[i].id == i)
    && (forall i :: i in db.inputs || i in db.operationBindings ==> i in db.operations)
    && (forall i :: i in db.installationBindings ==> i in db.installations)
  }

  // ---------- Exclusion ----------

  ghost predicate OneInstallationPerApp(db: Db) {
    forall i, j | i in db.installations && j in db.installations && db.installations[i].app == db.installations[j].app
      :: db.installations[i].state != Removed && db.installations[j].state != Removed ==> i == j
  }

  ghost predicate OneOperationPerApp(db: Db) {
    forall i, j | i in db.operations && j in db.operations && db.operations[i].app == db.operations[j].app
      :: Active(db.operations[i]) && Active(db.operations[j]) ==> i == j
  }

  ghost predicate OneTransitionPerApp(db: Db) {
    forall i, j | i in db.transitions && j in db.transitions && db.transitions[i].app == db.transitions[j].app
      :: !Terminal(db.transitions[i]) && !Terminal(db.transitions[j]) ==> i == j
  }

  ghost predicate OperationExcludesTransition(db: Db) {
    forall i, j | i in db.operations && j in db.transitions && db.operations[i].app == db.transitions[j].app
      :: Active(db.operations[i]) ==> Terminal(db.transitions[j])
  }

  ghost predicate Exclusion(db: Db) {
    OneInstallationPerApp(db) && OneOperationPerApp(db) && OneTransitionPerApp(db) && OperationExcludesTransition(db)
  }

  // ---------- Lifecycle operations ----------

  /** A reported success of `o` can be recorded on `i`. */
  ghost predicate Recordable(env: Env, db: Db, o: Operation, i: Installation) {
    || i.version == o.version
    || (o.action == Upgraded && i.state == Installed && o.id !in db.operationBindings)
    || (o.id in db.operationBindings && LegacyVersionAdoption(true, o.action, i.state, false)
        && (i.id in db.installationBindings ==>
              SourceRecovery(env, db, i.id, i.version, db.installationBindings[i.id], db.operationBindings[o.id],
                             o.action, i.state)))
  }

  ghost predicate BindingOk(db: Db, o: Operation) {
    o.id in db.operationBindings ==>
      var b := db.operationBindings[o.id];
      ValidBinding(b) && b.appId == o.app && b.appVersion == o.version && (o.action == Install || o.action == Adopt)
      && o.id !in db.inputs
  }

  ghost predicate InputOk(env: Env, db: Db, o: Operation) {
    o.id in db.inputs ==> DispatchInput(env, o, false, db.inputs[o.id].0, db.inputs[o.id].1).Ok?
  }

  ghost predicate OperationOk(env: Env, db: Db, o: Operation) {
    && BindingOk(db, o) && InputOk(env, db, o) && o.action != Unsupported
    && (o.installation.Some? ==>
          && o.installation.value in db.installations
          && var i := db.installations[o.installation.value];
             i.app == o.app && i.org == o.org
             && (Active(o) ==> i.lastOperation == Some(o.id) && i.state != Removed && Recordable(env, db, o, i)))
  }

  ghost predicate OperationsOk(env: Env, db: Db) {
    forall i :: i in db.operations ==> OperationOk(env, db, db.operations[i])
  }

  // ---------- Managed transitions ----------

  ghost predicate StatusMatchesPhase(t: Transition) {
    && (Terminal(t) <==> t.phase == PCompleted)
    && (t.status == TAccepted <==> t.phase == PAccepted)
    && (t.status == TRecoveryRequired <==> t.phase == PRecoveryRequired)
  }

  /** What an unfinished transition's installation holds, phase by phase. */
  ghost predicate Holds(t: Transition, i: Installation) {
    && i.state == Installed
    && if t.phase == PReleasing then HeldBy(t, i) == Some(Original) || HeldBy(t, i) == Some(Target)
       else HeldBy(t, i) == Some(Original)
  }

  ghost predicate TransitionOk(db: Db, t: Transition) {
    && StatusMatchesPhase(t) && t.expected >= 1
    && t.installation in db.installations
    && (var i := db.installations[t.installation];
        i.app == t.app && i.org == t.org && (!Terminal(t) ==> Holds(t, i)))
    && Compatible(t.action, t.app, t.source.appVersion, t.source.appVersion, t.target.releaseRef, t.source, t.target)
  }

  ghost predicate TransitionsOk(db: Db) {
    forall i :: i in db.transitions ==> TransitionOk(db, db.transitions[i])
  }

  // ---------- Forward recoveries ----------

  ghost predicate RecoveryOk(db: Db, r: Recovery) {
    && r.operation in db.transitions && r.hash.operation == r.operation && ReadableRecovery(r)
    && r.parent == DigestOf(db.transitions[r.operation])
    && (r.state == RecoveryPending ==>
          && ReadDispatch(db, r.operation).Ok?
          && var parent := ReadDispatch(db, r.operation).value;
             ForwardStillBound(r, parent, r) && parent.installed.version == r.version)
  }

  ghost predicate RecoveriesOk(db: Db) {
    && (forall i :: i in db.recoveries ==> RecoveryOk(db, db.recoveries[i]))
    && (forall i, j | i in db.recoveries && j in db.recoveries && db.recoveries[i].operation == db.recoveries[j].operation
          :: db.recoveries[i].state == RecoveryPending && db.recoveries[j].state == RecoveryPending ==> i == j)
  }

  // ---------- Idempotency keys and the release ledger ----------

  ghost predicate KeysUnique(db: Db) {
    && (forall i, j | i in db.operations && j in db.operations
          :: SameKey(db.operations[i], db.operations[j].user, db.operations[j].org, db.operations[j].key) ==> i == j)
    && (forall i, j | i in db.transitions && j in db.transitions
          :: SameTransitionKey(db.transitions[i], db.transitions[j].user, db.transitions[j].org, db.transitions[j].key) ==> i == j)
  }

  predicate Agree(a: Snapshot, b: Snapshot) {
    a.releaseRef == b.releaseRef ==> a == b
  }

  /** A release reference stands for one snapshot in all accepted transitions. */
  ghost predicate Ledger(db: Db) {
    forall i, j | i in db.transitions && j in db.transitions ::
      && Agree(db.transitions[i].source, db.transitions[j].source)
      && Agree(db.transitions[i].source, db.transitions[j].target)
      && Agree(db.transitions[i].target, db.transitions[j].source)
      && Agree(db.transitions[i].target, db.transitions[j].target)
  }

  // ---------- Flights ----------

  ghost predicate FlightOk(db: Db, op: Uuid, f: Flight) {
    match f
    case Locked => true
    case RowRead(t) => t.id == op
    case Ready(prior) =>
      prior.t.id == op && !Terminal(prior.t) && !RecoveryPendingFor(db, op) && CheckDispatch(prior, false).None?
    case Recovering(r) =>
      r.operation == op && r.state == RecoveryPending && r.id in db.recoveries && db.recoveries[r.id] == r
  }

  ghost predicate FlightsOk(w: World) {
    forall op :: op in w.flights ==> FlightOk(w.db, op, w.flights[op])
  }

  ghost predicate DbOk(env: Env, db: Db) {
    && KeyedRows(db) && Exclusion(db) && OperationsOk(env, db) && TransitionsOk(db) && RecoveriesOk(db)
    && KeysUnique(db) && Ledger(db)
  }

  ghost predicate Inv(env: Env, w: World) {
    DbOk(env, w.db) && FlightsOk(w)
  }
}
