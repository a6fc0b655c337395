/** Accepting an operation and recording its reports keep the joint invariant. */
module OperationsLifecycleSteps {
  import opened Common
  import opened Releases
  import opened Rows
  import opened Lifecycle
  import opened Transitions
  import opened Interleaving
  import opened OperationsInvariant

  /** The installation row an accepted operation claims, before its claim. */
  function Claimed(db: Db, u: Identity, q: Request, cur: Option<Uuid>, newId: Uuid): Installation
    requires cur.Some? ==> cur.value in db.installations
  {
    if cur.Some? then db.installations[cur.value]
    else Installation(newId, CommandOf(q).app, CommandOf(q).version, u.org, Pending, 1, None)
  }

  function Claim(i: Installation, op: Uuid): Installation {
    i.(revision := i.revision + 1, lastOperation := Some(op))
  }

  /** Which tables an acceptance touches, and how: `o` is the new row and `i` the row it claims. */
  ghost predicate AcceptedAs(db: Db, u: Identity, q: Request, o: Operation, i: Installation, next: Db) {
    && o == NewOperation(u, q, o.id, o.installation)
    && next.operations == db.operations[o.id := o]
    && next.transitions == db.transitions && next.recoveries == db.recoveries
    && (o.installation.None? || (o.installation == Some(i.id) && i.revision < MAX_INT64))
    && next.installations == (if o.installation.None? then db.installations else db.installations[i.id := Claim(i, o.id)])
    && next.inputs == (if q.AppCenter? && q.admission.Ok? then db.inputs[o.id := (q.input, q.admission.value)] else db.inputs)
    && next.operationBindings == (if q.Preinstalled? then db.operationBindings[o.id := q.release] else db.operationBindings)
    && next.installationBindings ==
       (if q.Preinstalled? && i.version == q.release.appVersion then db.installationBindings[i.id := q.release] else db.installationBindings)
  }

  /** What acceptance has checked about the row it claims. */
  ghost predicate ClaimAllowed(env: Env, db: Db, u: Identity, q: Request, o: Operation, i: Installation) {
    && !OperationBusy(db, o.app) && !TransitionBusyForApp(db, o.app)
    && (q.Preinstalled? ==> o.installation.Some?)
    && (o.installation.None? ==> i.id !in db.installations && o.action != Install)
    && (o.installation.Some? && i.id in db.installations ==>
          i == db.installations[i.id] && i.org == u.org && (i.version != o.version ==> VersionChangeAllowed(env, db, q, i.id)))
    && (o.installation.Some? && i.id !in db.installations ==>
          i == Installation(i.id, o.app, o.version, u.org, Pending, 1, None))
    && (q.AppCenter? ==>
          && q.admission.Ok? && CheckExecution(q.input, q.admission.value).None?
          && CheckExpectedInstallation(db, u, q.input, if i.id in db.installations then Some(i.id) else None).None?)
  }

  /** The tail of an acceptance, after the row is reserved. */
  lemma BindingTouches(db: Db, u: Identity, q: Request, o: Operation, i: Installation, execution: Option<Execution>)
    requires o.installation.Some? ==> o.installation == Some(i.id) && i.id in db.installations && db.installations[i.id] == i
    requires BindOperation(db, o).Ok? && BindInputs(BindOperation(db, o).value, o, q, execution).Ok?
    requires o == NewOperation(u, q, o.id, o.installation)
    requires q.AppCenter? ==> q.admission.Ok? && execution == Some(q.admission.value)
    ensures AcceptedAs(db, u, q, o, i, BindInputs(BindOperation(db, o).value, o, q, execution).value)
    ensures q.Preinstalled? ==> o.installation.Some?
  {
    hide NewOperation, HashOf;
  }

  /** Inserting the row first and claiming it then is inserting the claimed row. */
  lemma InsertThenClaim(db: Db, u: Identity, q: Request, o: Operation, i: Installation, next: Db)
    requires o.installation == Some(i.id)
    requires AcceptedAs(db.(installations := db.installations[i.id := i]), u, q, o, i, next)
    ensures AcceptedAs(db, u, q, o, i, next)
  {
    hide NewOperation;
    assert db.installations[i.id := i][i.id := Claim(i, o.id)] == db.installations[i.id := Claim(i, o.id)];
  }

  lemma AcceptTouches(env: Env, db: Db, u: Identity, q: Request, cur: Option<Uuid>, op: Uuid, newId: Uuid)
      returns (o: Operation, i: Installation)
    requires cur.Some? ==> cur.value in db.installations && db.installations[cur.value].id == cur.value
    requires newId !in db.installations
    requires Accept(env, db, u, q, cur, op, newId).Ok?
    ensures o.id == op && i == Claimed(db, u, q, cur, newId)
    ensures AcceptedAs(db, u, q, o, i, Accept(env, db, u, q, cur, op, newId).value)
    ensures ClaimAllowed(env, db, u, q, o, i)
  {
    hide CheckExecution, CheckExpectedInstallation, VersionChangeAllowed, HashOf, OperationBusy, TransitionBusyForApp, BindInputs, AcceptedAs, BindOperation;
    i := Claimed(db, u, q, cur, newId);
    var reserved := Reserve(env, db, u, q, cur, newId).value;
    o := NewOperation(u, q, op, reserved.1);
    BindingTouches(reserved.0, u, q, o, i, Admit(env, db, u, q, cur).value);
    if cur.None? && reserved.1.Some? {
      InsertThenClaim(db, u, q, o, i, Accept(env, db, u, q, cur, op, newId).value);
    }
  }

  /** An acceptance from a state that satisfies the invariant. */
  ghost predicate Opening(env: Env, db: Db, u: Identity, q: Request, o: Operation, i: Installation, next: Db) {
    && DbOk(env, db) && CheckCommand(env, u, q).None? && IsReplay(db, u.user, u.org, CommandOf(q).key, None)
    && AcceptedAs(db, u, q, o, i, next) && ClaimAllowed(env, db, u, q, o, i)
    && o.id !in db.operations && o.id !in db.operationBindings && o.id !in db.inputs
    && (i.id !in db.installations ==> i.id !in db.installationBindings)
    && (o.installation.Some? ==>
          IsCurrent(db, o.app, if i.id in db.installations then Some(i.id) else None))
  }

  lemma AcceptKeepsRows(env: Env, db: Db, u: Identity, q: Request, o: Operation, i: Installation, next: Db)
    requires Opening(env, db, u, q, o, i, next)
    ensures KeyedRows(next) && KeysUnique(next) && Ledger(next)
  {
    hide CheckCommand, OperationsOk, TransitionsOk, RecoveriesOk, Exclusion, HashOf, FirstPhase, OperationBusy, TransitionBusyForApp, CheckExecution, CheckExpectedInstallation, VersionChangeAllowed;
    assert KeyedRows(next);
    assert KeysUnique(next);
    assert Ledger(next);
  }

  lemma AcceptKeepsExclusion(env: Env, db: Db, u: Identity, q: Request, o: Operation, i: Installation, next: Db)
    requires Opening(env, db, u, q, o, i, next)
    ensures Exclusion(next)
  {
    hide CheckCommand, OperationsOk, TransitionsOk, RecoveriesOk, HashOf, Ledger, KeysUnique, FirstPhase, CheckExecution, CheckExpectedInstallation, VersionChangeAllowed;
  }

  lemma AcceptKeepsTransitions(env: Env, db: Db, u: Identity, q: Request, o: Operation, i: Installation, next: Db)
    requires Opening(env, db, u, q, o, i, next)
    ensures TransitionsOk(next)
  {
    hide CheckCommand, OperationsOk, RecoveriesOk, HashOf, Ledger, KeysUnique, FirstPhase, CheckExecution, CheckExpectedInstallation, VersionChangeAllowed, Compatible, Exclusion;
  }

  lemma AcceptKeepsRecoveries(env: Env, db: Db, u: Identity, q: Request, o: Operation, i: Installation, next: Db)
    requires Opening(env, db, u, q, o, i, next)
    ensures RecoveriesOk(next)
  {
    hide CheckCommand, OperationsOk, HashOf, Ledger, KeysUnique, FirstPhase, CheckExecution, CheckExpectedInstallation,
         VersionChangeAllowed, Compatible, Exclusion, ForwardStillBound, ReadableRecovery, ReadDispatch, NewOperation, Holds;
    forall r | r in next.recoveries ensures RecoveryOk(next, next.recoveries[r]) {
      var row := db.recoveries[r];
      assert RecoveryOk(db, row);
      if row.state == RecoveryPending {
        PendingParentUnfinished(db, row);
        var parent := db.transitions[row.operation];
        assert TransitionOk(db, parent);
        assert parent.app != o.app by { assert !TransitionBusyForApp(db, o.app); }
        assert next.installations[parent.installation] == db.installations[parent.installation];
      }
      RecoveryUnaffected(db, next, row);
    }
  }

  /** A recovery row depends on its parent transition and that transition's installation only. */
  lemma RecoveryUnaffected(db: Db, next: Db, r: Recovery)
    requires RecoveryOk(db, r) && next.transitions == db.transitions
    requires r.state == RecoveryPending ==>
      var id := db.transitions[r.operation].installation;
      id in db.installations && id in next.installations && next.installations[id] == db.installations[id]
    ensures RecoveryOk(next, r)
  {
    hide ReadableRecovery, Readable, ForwardStillBound;
  }

  lemma PendingParentUnfinished(db: Db, r: Recovery)
    requires RecoveryOk(db, r) && r.state == RecoveryPending
    ensures !Terminal(db.transitions[r.operation])
  {
    hide ReadableRecovery, Readable, ValidSnapshot;
  }

  /** The accepted operation's durable input passes Core's own later guard. */
  lemma AcceptedInputOk(env: Env, db: Db, u: Identity, q: Request, o: Operation, i: Installation, next: Db)
    requires Opening(env, db, u, q, o, i, next)
    ensures InputOk(env, next, o) && BindingOk(next, o) && o.action != Unsupported
  {
    hide OperationsOk, TransitionsOk, RecoveriesOk, Exclusion, Ledger, KeysUnique, FirstPhase, OperationBusy,
         TransitionBusyForApp, VersionChangeAllowed, IsDigest, CheckExecution, KeyedRows, IsReplay;
    if q.AppCenter? {
      assert next.inputs[o.id] == (q.input, q.admission.value);
    }
  }

  /** The accepted operation's success can be recorded on the row it claimed. */
  lemma AcceptedIsRecordable(env: Env, db: Db, u: Identity, q: Request, o: Operation, i: Installation, next: Db)
    requires Opening(env, db, u, q, o, i, next) && o.installation.Some?
    ensures i.id in next.installations && Recordable(env, next, o, next.installations[i.id])
  {
    hide OperationsOk, TransitionsOk, RecoveriesOk, Exclusion, Ledger, KeysUnique, FirstPhase, OperationBusy,
         TransitionBusyForApp, IsDigest, CheckExecution, CheckExpectedInstallation, KeyedRows, IsReplay, HashOf, UpgradeOnRecord;
    if i.version != o.version {
      assert i.id in db.installations;
      RecoveryEvidenceKept(env, db, next, i.id);
    }
  }

  /** The evidence for a historical adoption only depends on the transitions on record. */
  lemma RecoveryEvidenceKept(env: Env, db: Db, next: Db, installation: Uuid)
    requires forall t :: t in db.transitions && Terminal(db.transitions[t]) ==> t in next.transitions && next.transitions[t] == db.transitions[t]
    ensures forall version, from, to, action, state ::
      SourceRecovery(env, db, installation, version, from, to, action, state) ==>
      SourceRecovery(env, next, installation, version, from, to, action, state)
  {
  }

  /** No other unfinished operation owns the claimed row. */
  lemma AcceptKeepsOtherOperation(env: Env, db: Db, u: Identity, q: Request, o: Operation, i: Installation, next: Db, other: Uuid)
    requires Opening(env, db, u, q, o, i, next) && other in db.operations
    ensures OperationOk(env, next, db.operations[other])
  {
    hide CheckCommand, TransitionsOk, RecoveriesOk, Exclusion, Ledger, KeysUnique, FirstPhase, TransitionBusyForApp,
         IsDigest, CheckExecution, CheckExpectedInstallation, IsReplay, HashOf, UpgradeOnRecord, DispatchInput,
         VersionChangeAllowed, NewOperation, ValidBinding;
    var p := db.operations[other];
    assert OperationOk(env, db, p);
    assert p.id == other != o.id;
    if p.installation.Some? {
      RecoveryEvidenceKept(env, db, next, p.installation.value);
      if Active(p) && o.installation.Some? {
        assert p.app != o.app by { assert !OperationBusy(db, o.app); }
        assert i.app == o.app;
        assert p.installation.value != i.id;
      }
    }
  }

  lemma AcceptKeepsOperations(env: Env, db: Db, u: Identity, q: Request, o: Operation, i: Installation, next: Db)
    requires Opening(env, db, u, q, o, i, next)
    ensures OperationsOk(env, next)
  {
    AcceptedInputOk(env, db, u, q, o, i, next);
    if o.installation.Some? {
      AcceptedIsRecordable(env, db, u, q, o, i, next);
    }
    forall other | other in db.operations ensures OperationOk(env, next, db.operations[other]) {
      AcceptKeepsOtherOperation(env, db, u, q, o, i, next, other);
    }
    hide CheckCommand, TransitionsOk, RecoveriesOk, Exclusion, Ledger, KeysUnique, FirstPhase, TransitionBusyForApp,
         IsDigest, CheckExecution, CheckExpectedInstallation, IsReplay, HashOf, DispatchInput, OperationBusy,
         VersionChangeAllowed, ValidBinding, Recordable, BindingOk, InputOk;
    assert OperationOk(env, next, o);
  }

  /** Submit keeps the tables' part of the joint invariant. */
  lemma SubmitKeeps(env: Env, db: Db, u: Identity, q: Request, replay: Option<Uuid>, cur: Option<Uuid>, op: Uuid, newId: Uuid)
    requires DbOk(env, db) && Enabled(World(db, map[]), SubmitStep(u, q, replay, cur, op, newId))
    ensures var next := Submit(env, db, u, q, replay, cur, op, newId).0;
      DbOk(env, next) && next.recoveries == db.recoveries
  {
    hide CheckCommand, OperationsOk, TransitionsOk, RecoveriesOk, Exclusion, Ledger, KeysUnique, Accept;
    if CheckCommand(env, u, q).None? && replay.None? && Accept(env, db, u, q, cur, op, newId).Ok? {
      var next := Accept(env, db, u, q, cur, op, newId).value;
      var o, i := AcceptTouches(env, db, u, q, cur, op, newId);
      assert Opening(env, db, u, q, o, i, next);
      AcceptKeepsRows(env, db, u, q, o, i, next);
      AcceptKeepsExclusion(env, db, u, q, o, i, next);
      AcceptKeepsTransitions(env, db, u, q, o, i, next);
      AcceptKeepsRecoveries(env, db, u, q, o, i, next);
      AcceptKeepsOperations(env, db, u, q, o, i, next);
    }
  }

  // ---------- Reports ----------

  /** Which tables a report touches: the operation row, and perhaps the row it still owns once it has ended. */
  ghost predicate RecordedAs(db: Db, o: Operation, row: Operation, next: Db) {
    && o.id in db.operations && o == db.operations[o.id]
    && row == o.(status := row.status, phase := row.phase) && row.status != Accepted
    && next.operations == db.operations[o.id := row]
    && next.transitions == db.transitions && next.recoveries == db.recoveries
    && next.inputs == db.inputs && next.operationBindings == db.operationBindings
    && ((next.installations == db.installations && next.installationBindings == db.installationBindings)
        || (!Active(row) && o.installation.Some? && o.installation.value in db.installations
            && RowChanged(db, o, db.installations[o.installation.value], next)))
  }

  ghost predicate RowChanged(db: Db, o: Operation, i: Installation, next: Db) {
    && i.lastOperation == Some(o.id) && i.state != Removed && i.revision < MAX_INT64
    && i.id in next.installations
    && var j := next.installations[i.id];
       && j == i.(version := j.version, state := j.state, revision := i.revision + 1)
       && (j.version == i.version || (j.version == o.version && j.state == Installed))
       && next.installations == db.installations[i.id := j]
       && next.installationBindings.Keys <= db.installationBindings.Keys + {i.id}
       && forall k :: k in db.installationBindings && k != i.id ==>
            k in next.installationBindings && next.installationBindings[k] == db.installationBindings[k]
  }

  lemma RecordTouches(env: Env, db: Db, o: Operation, result: OperationStatus)
    requires o.installation.Some? && o.installation.value in db.installations
    requires db.installations[o.installation.value].id == o.installation.value
    requires Record(env, db, o, result).Ok?
    ensures var next := Record(env, db, o, result).value;
      && next.operations == db.operations && next.transitions == db.transitions && next.recoveries == db.recoveries
      && next.inputs == db.inputs && next.operationBindings == db.operationBindings
      && (next == db || ((result == Succeeded || result == Failed) && RowChanged(db, o, db.installations[o.installation.value], next)))
  {
    hide SourceRecovery, Rebind, SetInstallation, RowChanged, NextInstallState;
    var i := db.installations[o.installation.value];
    if i.lastOperation == Some(o.id) {
      var next := Record(env, db, o, result).value;
      if i.version != o.version && result == Succeeded {
        if o.action == Upgraded && i.state == Installed && o.id !in db.operationBindings {
          SetTouches(db, db, o, i, i.(version := o.version), next);
        } else {
          var rebound := Rebind(env, db, o, i).value;
          RebindTouches(env, db, o, i);
          SetTouches(db, rebound, o, i, i.(version := o.version), next);
        }
      } else {
        var state := NextInstallState(i.state, o.action, result);
        StateChanges(i.state, o.action, result);
        if state != i.state {
          SetTouches(db, db, o, i, i.(state := state), next);
        }
      }
    }
  }

  lemma StateChanges(current: InstallState, action: Action, result: OperationStatus)
    ensures NextInstallState(current, action, result) != current ==> current != Removed && (result == Succeeded || result == Failed)
  {
  }

  /** `mid` differs from `db` at most in the release binding of the row `i`. */
  ghost predicate SameButBinding(db: Db, i: Installation, mid: Db) {
    && mid == db.(installationBindings := mid.installationBindings)
    && mid.installationBindings.Keys <= db.installationBindings.Keys + {i.id}
    && forall k :: k in db.installationBindings && k != i.id ==>
         k in mid.installationBindings && mid.installationBindings[k] == db.installationBindings[k]
  }

  lemma RebindTouches(env: Env, db: Db, o: Operation, i: Installation)
    requires o.id in db.operationBindings && Rebind(env, db, o, i).Ok?
    ensures SameButBinding(db, i, Rebind(env, db, o, i).value)
  {
    hide SourceRecovery;
  }

  lemma SetTouches(db: Db, mid: Db, o: Operation, i: Installation, changed: Installation, next: Db)
    requires SameButBinding(db, i, mid) && i.id in db.installations && db.installations[i.id] == i
    requires i.lastOperation == Some(o.id) && i.state != Removed
    requires changed == i.(version := changed.version, state := changed.state)
    requires changed.version == i.version || (changed.version == o.version && changed.state == Installed)
    requires SetInstallation(mid, changed) == Ok(next)
    ensures RowChanged(db, o, i, next)
    ensures next == mid.(installations := next.installations)
  {
  }

  lemma ReportTouches(env: Env, db: Db, id: Uuid, canCallBound: bool, a: Answer)
    requires KeyedRows(db) && OperationsOk(env, db) && id in db.operations && Active(db.operations[id])
    requires DispatchOne(env, db, id, canCallBound, a).1.Ok?
    ensures var next := DispatchOne(env, db, id, canCallBound, a).0;
      id in next.operations && RecordedAs(db, db.operations[id], next.operations[id], next)
  {
    hide Dispatchable, Normalized, Record, Recordable, InputOk, BindingOk;
    var o := db.operations[id];
    var r := ReportOf(id, a).value;
    var row := o.(status := r.status, phase := r.phase);
    var next := DispatchOne(env, db, id, canCallBound, a).0;
    var marked := db.(operations := db.operations[id := row]);
    assert Ok(next) == Record(env, marked, row, r.status);
    assert OperationOk(env, db, o);
    if o.installation.Some? {
      RecordTouches(env, marked, row, r.status);
    } else {
      UnboundRecordsNothing(env, marked, row, r.status);
    }
  }

  lemma UnboundRecordsNothing(env: Env, db: Db, o: Operation, result: OperationStatus)
    requires o.installation.None?
    ensures Record(env, db, o, result) == Ok(db)
  {
  }

  lemma ReportKeepsRows(env: Env, db: Db, o: Operation, row: Operation, next: Db)
    requires KeyedRows(db) && KeysUnique(db) && Ledger(db) && RecordedAs(db, o, row, next)
    ensures KeyedRows(next) && KeysUnique(next) && Ledger(next)
  {
    assert KeyedRows(next) by { hide KeysUnique, Ledger; }
    assert KeysUnique(next) by { hide KeyedRows, RowChanged, Ledger; }
    assert Ledger(next) by { hide KeyedRows, RowChanged, KeysUnique; }
  }

  lemma ReportKeepsExclusion(env: Env, db: Db, o: Operation, row: Operation, next: Db)
    requires DbOk(env, db) && RecordedAs(db, o, row, next) && Active(o)
    ensures Exclusion(next)
  {
    hide TransitionsOk, RecoveriesOk, OperationsOk, KeysUnique, Ledger;
    assert OneInstallationPerApp(next) by { hide OneOperationPerApp, OneTransitionPerApp, OperationExcludesTransition; }
    assert OneOperationPerApp(next) by { hide OneInstallationPerApp, OneTransitionPerApp, OperationExcludesTransition, RowChanged; }
    assert OneTransitionPerApp(next) by { hide OneInstallationPerApp, OperationExcludesTransition, RowChanged; }
    assert OperationExcludesTransition(next) by { hide OneInstallationPerApp, OneTransitionPerApp, RowChanged; }
  }

  /** Rows of other Apps are untouched by a report. */
  lemma OtherAppsUntouched(env: Env, db: Db, o: Operation, row: Operation, next: Db, id: Uuid)
    requires DbOk(env, db) && RecordedAs(db, o, row, next) && Active(o)
    requires id in db.installations
    ensures id in next.installations && next.installations[id].app == db.installations[id].app && next.installations[id].org == db.installations[id].org
    ensures db.installations[id].app != o.app ==> next.installations[id] == db.installations[id]
  {
    hide TransitionsOk, RecoveriesOk, BindingOk, InputOk, Recordable, KeysUnique, Ledger, Exclusion;
    assert OperationOk(env, db, o);
  }

  lemma ReportKeepsTransitions(env: Env, db: Db, o: Operation, row: Operation, next: Db)
    requires DbOk(env, db) && RecordedAs(db, o, row, next) && Active(o)
    ensures TransitionsOk(next)
  {
    hide OperationsOk, RecoveriesOk, KeysUnique, Ledger, RowChanged, Compatible, HeldBy;
    forall t | t in next.transitions ensures TransitionOk(next, next.transitions[t]) {
      var row := db.transitions[t];
      assert TransitionOk(db, row);
      OtherAppsUntouched(env, db, o, db.operations[o.id].(status := next.operations[o.id].status, phase := next.operations[o.id].phase), next, row.installation);
    }
  }

  lemma ReportKeepsRecoveries(env: Env, db: Db, o: Operation, row: Operation, next: Db)
    requires DbOk(env, db) && RecordedAs(db, o, row, next) && Active(o)
    ensures RecoveriesOk(next)
  {
    hide OperationsOk, KeysUnique, Ledger, RowChanged, Compatible, Holds, ReadDispatch, ForwardStillBound, ReadableRecovery,
         OneInstallationPerApp, OneOperationPerApp, OneTransitionPerApp;
    forall r | r in next.recoveries ensures RecoveryOk(next, next.recoveries[r]) {
      var p := db.recoveries[r];
      assert RecoveryOk(db, p);
      if p.state == RecoveryPending {
        PendingParentUnfinished(db, p);
        var parent := db.transitions[p.operation];
        assert TransitionOk(db, parent);
        assert parent.app != o.app;
        OtherAppsUntouched(env, db, o, row, next, parent.installation);
        assert next.installations[parent.installation] == db.installations[parent.installation];
      }
      RecoveryUnaffected(db, next, p);
    }
  }

  lemma ReportKeepsOperations(env: Env, db: Db, o: Operation, row: Operation, next: Db)
    requires DbOk(env, db) && RecordedAs(db, o, row, next) && Active(o)
    ensures OperationsOk(env, next)
  {
    hide TransitionsOk, RecoveriesOk, KeysUnique, Ledger, DispatchInput, ValidBinding, UpgradeOnRecord, SourceRecovery;
    forall other | other in next.operations ensures OperationOk(env, next, next.operations[other]) {
      var p := db.operations[other];
      assert OperationOk(env, db, p) && OperationOk(env, db, o);
      if p.installation.Some? {
        RecoveryEvidenceKept(env, db, next, p.installation.value);
      }
      if other == o.id {
        StatusIsNoInput(env, o, row, db);
      }
    }
  }

  /** The later guards do not look at how far an operation has got. */
  lemma StatusIsNoInput(env: Env, o: Operation, row: Operation, db: Db)
    requires row == o.(status := row.status, phase := row.phase)
    ensures forall bound, input, x :: DispatchInput(env, o, bound, input, x) == DispatchInput(env, row, bound, input, x)
  {
    hide IsDigest, CheckExecution;
  }

  lemma DispatchKeeps(env: Env, db: Db, id: Uuid, canCallBound: bool, a: Answer)
    requires DbOk(env, db) && id in db.operations && Active(db.operations[id])
    ensures var next := DispatchOne(env, db, id, canCallBound, a).0;
      DbOk(env, next) && next.recoveries == db.recoveries
  {
    hide OperationsOk, TransitionsOk, RecoveriesOk, Exclusion, Ledger, KeysUnique, Record, Dispatchable;
    if DispatchOne(env, db, id, canCallBound, a).1.Ok? {
      var next := DispatchOne(env, db, id, canCallBound, a).0;
      ReportTouches(env, db, id, canCallBound, a);
      var o, row := db.operations[id], next.operations[id];
      ReportKeepsRows(env, db, o, row, next);
      ReportKeepsExclusion(env, db, o, row, next);
      ReportKeepsTransitions(env, db, o, row, next);
      ReportKeepsRecoveries(env, db, o, row, next);
      ReportKeepsOperations(env, db, o, row, next);
    }
  }

  // ---------- Admission implies that completion can be recorded ----------

  /** Recording any valid report of an unfinished operation can only fail for want of a larger revision. */
  lemma SuccessIsRecordable(env: Env, db: Db, o: Operation, row: Operation, result: OperationStatus)
    requires OperationOk(env, db, o) && Active(o) && row == o.(status := row.status, phase := row.phase)
    requires KeyedRows(db)
    ensures var marked := db.(operations := db.operations[o.id := row]);
      Record(env, marked, row, result).Err? ==>
        && o.installation.Some? && db.installations[o.installation.value].revision == MAX_INT64
        && Record(env, marked, row, result) == Err(OutOfRange)
  {
    hide DispatchInput, ValidBinding, UpgradeOnRecord;
    var marked := db.(operations := db.operations[o.id := row]);
    if o.installation.Some? {
      RecoveryEvidenceKept(env, db, marked, o.installation.value);
    }
  }
}
