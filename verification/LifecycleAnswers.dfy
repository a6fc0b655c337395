/** Which lifecycle commands are accepted, what a repeated key answers, and what a Runtime report leaves in the tables. */
module LifecycleAnswers {
  import opened Common
  import opened TransitionVersions
  import opened Releases
  import opened Rows
  import opened Lifecycle
  import opened Transitions
  import opened Interleaving
  import opened OperationsInvariant
  import opened OperationsLifecycleSteps
  import opened OperationsRuns
  import opened OperationsTheorems
  import Scheduling

  // ---------- Who may ask, and for what ----------

  /** Managers of the organization; the two verified kinds of command also need to read, on this Station. */
  predicate MayOperate(env: Env, u: Identity, q: Request) {
    u.admin && u.canManage && (q.Plain? || (u.canRead && u.station == env.station))
  }

  predicate IsRequest(env: Env, u: Identity, q: Request) {
    var c := CommandOf(q);
    && 0 < |c.requestId| < 129 && 7 < |c.key| < 129 && c.org == u.org && c.station == env.station
    && c.action in {Install, Upgraded, Start, Stop, Restart, Delete, Adopt}
    && (if c.action == Adopt then env.isUuid(c.expectedWorkload) else c.expectedWorkload == "")
    && (q.Preinstalled? ==>
          && c.action in {Install, Adopt} && ValidBinding(q.release) && IsDigest(q.inventory)
          && q.release.appId == c.app && q.release.appVersion == c.version)
  }

  lemma ChecksAreThese(env: Env, u: Identity, q: Request)
    ensures CheckCommand(env, u, q) ==
      if !MayOperate(env, u, q) then Some(Denied) else if !IsRequest(env, u, q) then Some(Invalid) else None
  {
    hide ValidBinding, IsDigest;
  }

  // ---------- A used key ----------

  predicate SameCommand(a: Command, b: Command) {
    && a.key == b.key && a.org == b.org && a.station == b.station && a.app == b.app && a.version == b.version
    && a.action == b.action && a.expectedWorkload == b.expectedWorkload
  }

  /** The same request, whatever it is traced by and whatever the readers say of it this time. */
  predicate SameRequest(a: Request, b: Request) {
    match (a, b)
    case (Plain(c), Plain(d)) => SameCommand(c, d)
    case (Preinstalled(c, release, inventory, reinstall, _), Preinstalled(d, release', inventory', reinstall', _)) =>
      SameCommand(c, d) && release == release' && inventory == inventory' && reinstall == reinstall'
    case (AppCenter(x, _), AppCenter(y, _)) => SameCommand(x.command, y.command) && x.expected == y.expected
    case _ => false
  }

  /** The digest of the older form, which covers the tracing identifier, is none of an accepted request. */
  lemma HashesCompare(a: Request, b: Request, prior: Operation)
    requires prior.hash == HashOf(b) && prior.requestId == CommandOf(b).requestId != ""
    ensures ReplayOf(a, prior) == if SameRequest(a, b) then Ok(prior) else Err(Conflict)
  {
  }

  /**
   * After any run a used key answers with the one operation it began, as it is
   * now, exactly to the same request, and with a conflict to any other. Neither
   * changes anything.
   */
  lemma KeyAnswers(env: Env, w: World, s: Step, steps: seq<Step>, again: Step)
    requires Reachable(env, w) && Enabled(w, s) && s.SubmitStep? && s.replay.None?
    requires Submit(env, w.db, s.u, s.q, None, s.cur, s.op, s.newId).1.Ok?
    requires IsRun(env, Next(env, w, s), steps) && Enabled(After(env, Next(env, w, s), steps), again)
    requires again.SubmitStep? && again.u.user == s.u.user && again.u.org == s.u.org
    requires CommandOf(again.q).key == CommandOf(s.q).key
    ensures var last := After(env, Next(env, w, s), steps).db;
      && s.op in last.operations && again.replay == Some(s.op)
      && Submit(env, last, again.u, again.q, again.replay, again.cur, again.op, again.newId)
         == (last, if !MayOperate(env, again.u, again.q) then Err(Denied)
                   else if !IsRequest(env, again.u, again.q) then Err(Invalid)
                   else if SameRequest(again.q, s.q) then Ok(last.operations[s.op])
                   else Err(Conflict))
  {
    hide Inv, Next, Submit, Accept, HashOf, CheckCommand, MayOperate, IsRequest, SameRequest;
    ReachableSatisfiesInvariant(env, w);
    NewOperationRow(env, w, s);
    StepKeepsInvariant(env, w, s);
    var begun := Next(env, w, s);
    RunKeepsInvariant(env, begun, steps);
    RunKeepsOperation(env, begun, steps, s.op);
    var last := After(env, begun, steps);
    assert KeysUnique(last.db) by { KeysOf(env, last); }
    assert SameKey(last.db.operations[s.op], s.u.user, s.u.org, CommandOf(s.q).key);
    AcceptedIsTraced(env, w, s);
    KeyAnswer(env, last.db, again, s.op, s.q);
  }

  lemma AcceptedIsTraced(env: Env, w: World, s: Step)
    requires Enabled(w, s) && s.SubmitStep? && Submit(env, w.db, s.u, s.q, s.replay, s.cur, s.op, s.newId).1.Ok?
    ensures CommandOf(s.q).requestId != ""
  {
    ChecksAreThese(env, s.u, s.q);
    hide CheckCommand, Accept, HashOf, MayOperate;
  }

  lemma KeyAnswer(env: Env, db: Db, again: Step, op: Uuid, q: Request)
    requires again.SubmitStep? && again.replay == Some(op) && op in db.operations
    requires again.cur.Some? ==> again.cur.value in db.installations
    requires db.operations[op].hash == HashOf(q) && db.operations[op].requestId == CommandOf(q).requestId != ""
    ensures Submit(env, db, again.u, again.q, again.replay, again.cur, again.op, again.newId)
            == (db, if !MayOperate(env, again.u, again.q) then Err(Denied)
                    else if !IsRequest(env, again.u, again.q) then Err(Invalid)
                    else if SameRequest(again.q, q) then Ok(db.operations[op])
                    else Err(Conflict))
  {
    ChecksAreThese(env, again.u, again.q);
    HashesCompare(again.q, q, db.operations[op]);
    hide CheckCommand, HashOf, Accept, ReplayOf, MayOperate, IsRequest, SameRequest;
  }

  // ---------- A new operation ----------

  /** The installation is the one a constrained command was prepared against. */
  predicate Foreseen(db: Db, u: Identity, input: AppCenterCommand, cur: Option<Uuid>)
    requires cur.Some? ==> cur.value in db.installations
  {
    var c, e := input.command, input.expected;
    && e.version == c.version
    && if c.action == Install then cur.None? && e.installation.None? && e.revision.None? && e.workload.None?
       else
         && cur.Some? && var i := db.installations[cur.value];
         && e.installation == Some(i.id) && e.revision == Some(i.revision) && i.org == u.org && i.state == Installed
         && (i.version != c.version <==> c.action == Upgraded)
  }

  /** What was verified is what the command names. */
  predicate Verified(input: AppCenterCommand, x: Execution) {
    var c, e := input.command, input.expected;
    && x.app == c.app && x.version == c.version && x.action == c.action && x.schema == 1
    && IsDigest(x.releaseDigest) && IsDigest(x.templateDigest) && IsDigest(x.policy)
    && e.releaseDigest == Some(x.releaseDigest) && e.policy == x.policy
    && match e.workload case None => x.workload == "" case Some(uid) => x.workload == uid
  }

  predicate Offered(env: Env, c: Command) {
    c.app in env.catalog && env.catalog[c.app] == c.version
  }

  predicate Admissible(env: Env, db: Db, u: Identity, q: Request, cur: Option<Uuid>)
    requires cur.Some? ==> cur.value in db.installations
  {
    match q
    case Plain(c) => Offered(env, c)
    case Preinstalled(c, _, _, _, history) => Offered(env, c) && history.None?
    case AppCenter(input, admission) => Foreseen(db, u, input, cur) && admission.Ok? && Verified(input, admission.value)
  }

  /** Nothing is at work on the App. */
  ghost predicate Vacant(db: Db, app: string) {
    && (forall o :: o in db.operations && db.operations[o].app == app ==> db.operations[o].status in {Succeeded, Failed})
    && (forall t :: t in db.transitions && db.transitions[t].app == app ==> db.transitions[t].status in {TSucceeded, TFailed})
  }

  /** An installation of another version is only upgraded, or adopted: freely while unbound, else along a registered chain. */
  predicate MayChangeVersion(env: Env, db: Db, q: Request, i: Installation) {
    && i.state == Installed
    && if q.Preinstalled? then
         && q.adopting.action == Adopt
         && (i.id in db.installationBindings ==>
               var from := db.installationBindings[i.id];
               match env.chain(i.version, from, q.release)
               case Unrelated => false
               case Direct => from.appVersion == i.version
               case Proven(source, target) => UpgradeOnRecord(db, i.id, source, target))
       else CommandOf(q).action == Upgraded
  }

  /** The App's current installation, if there is one, can be worked on by this command. */
  predicate MayClaim(env: Env, db: Db, u: Identity, q: Request, cur: Option<Uuid>)
    requires cur.Some? ==> cur.value in db.installations
  {
    cur.Some? ==>
      var i := db.installations[cur.value];
      && i.org == u.org && i.revision < MAX_INT64
      && (i.version != CommandOf(q).version ==> MayChangeVersion(env, db, q, i))
      && (q.Preinstalled? && i.version == q.release.appVersion && i.id in db.installationBindings ==>
            db.installationBindings[i.id] == q.release)
  }

  lemma AdmitsExactly(env: Env, db: Db, u: Identity, q: Request, cur: Option<Uuid>)
    requires cur.Some? ==> cur.value in db.installations
    ensures Admit(env, db, u, q, cur).Ok? <==> Admissible(env, db, u, q, cur)
    ensures Admit(env, db, u, q, cur).Ok? ==>
      Admit(env, db, u, q, cur).value == if q.AppCenter? && q.admission.Ok? then Some(q.admission.value) else None
  {
    hide IsDigest;
  }

  lemma ReservesExactly(env: Env, db: Db, u: Identity, q: Request, cur: Option<Uuid>, newId: Uuid)
    requires cur.Some? ==> cur.value in db.installations && db.installations[cur.value].id == cur.value
    ensures Reserve(env, db, u, q, cur, newId).Ok? <==>
      (cur.Some? ==>
         var i := db.installations[cur.value];
         i.org == u.org && (i.version != CommandOf(q).version ==> MayChangeVersion(env, db, q, i)))
  {
    hide UpgradeOnRecord;
  }

  lemma BindsExactly(db: Db, o: Operation, q: Request, execution: Option<Execution>)
    requires o.installation.Some? ==> o.installation.value in db.installations
    requires q.AppCenter? ==> execution.Some?
    requires q.Preinstalled? ==> o.installation.Some?
    ensures BindOperation(db, o).Ok? <==> (o.installation.Some? ==> db.installations[o.installation.value].revision < MAX_INT64)
    ensures BindOperation(db, o).Ok? ==>
      (BindInputs(BindOperation(db, o).value, o, q, execution).Ok? <==>
         (q.Preinstalled? ==>
            var id := o.installation.value;
            db.installations[id].version == q.release.appVersion && id in db.installationBindings ==>
              db.installationBindings[id] == q.release))
  {
  }

  lemma AcceptsExactly(env: Env, db: Db, u: Identity, q: Request, cur: Option<Uuid>, op: Uuid, newId: Uuid)
    requires cur.Some? ==> cur.value in db.installations && db.installations[cur.value].id == cur.value
    requires newId !in db.installations && newId !in db.installationBindings && IsRequest(env, u, q)
    ensures Accept(env, db, u, q, cur, op, newId).Ok? <==>
      && Admissible(env, db, u, q, cur) && Vacant(db, CommandOf(q).app) && MayClaim(env, db, u, q, cur)
  {
    var c := CommandOf(q);
    assert q.Preinstalled? ==> c.action in {Install, Adopt};
    AdmitsExactly(env, db, u, q, cur);
    ReservesExactly(env, db, u, q, cur, newId);
    VacantIsFree(db, c.app);
    var reserved := Reserve(env, db, u, q, cur, newId);
    if reserved.Ok? && Admissible(env, db, u, q, cur) {
      ReservedRow(env, db, u, q, cur, newId);
      BindsExactly(reserved.value.0, NewOperation(u, q, op, reserved.value.1), q, Admit(env, db, u, q, cur).value);
    }
    hide IsRequest, Admissible, Admit, Reserve, Vacant, OperationBusy, TransitionBusyForApp, MayChangeVersion, BindOperation, BindInputs, HashOf;
  }

  lemma ReservedRow(env: Env, db: Db, u: Identity, q: Request, cur: Option<Uuid>, newId: Uuid)
    requires cur.Some? ==> cur.value in db.installations
    requires Reserve(env, db, u, q, cur, newId).Ok?
    ensures var (mid, installation) := Reserve(env, db, u, q, cur, newId).value;
      && mid.installationBindings == db.installationBindings
      && (cur.Some? ==> installation == cur && mid == db)
      && (cur.None? && CommandOf(q).action in {Install, Start, Adopt} ==>
            installation == Some(newId) && newId in mid.installations && mid.installations[newId].revision == 1)
      && (installation.Some? ==> installation.value in mid.installations)
      && (cur.None? && CommandOf(q).action !in {Install, Start, Adopt} ==> installation.None?)
  {
    hide VersionChangeAllowed;
  }

  lemma VacantIsFree(db: Db, app: string)
    ensures Vacant(db, app) <==> !OperationBusy(db, app) && !TransitionBusyForApp(db, app)
  {
    forall o | o in db.operations ensures Active(db.operations[o]) <==> db.operations[o].status !in {Succeeded, Failed} { }
    forall t | t in db.transitions ensures Terminal(db.transitions[t]) <==> db.transitions[t].status in {TSucceeded, TFailed} { }
  }

  /** The tables after an acceptance. */
  ghost predicate Began(db: Db, next: Db, u: Identity, q: Request, cur: Option<Uuid>, op: Uuid, newId: Uuid)
    requires cur.Some? ==> cur.value in db.installations
  {
    var c := CommandOf(q);
    var created := cur.None? && c.action in {Install, Start, Adopt};
    var installation := if created then Some(newId) else cur;
    && op in next.operations && (installation.Some? ==> installation.value in next.installations)
    && var o := next.operations[op];
    && o == Operation(op, c.requestId, u.user, u.org, c.app, c.version, c.action, Accepted, o.phase, c.key, o.hash,
                      c.expectedWorkload, installation)
    && o.phase == (match c.action case Stop => Stopping case Delete => Stopping case Restart => Starting case _ => Checking)
    && next == db.(
         operations := db.operations[op := o],
         installations :=
           if created then db.installations[newId := Installation(newId, c.app, c.version, u.org, Pending, 2, Some(op))]
           else if cur.Some? then
             var i := db.installations[cur.value];
             db.installations[cur.value := i.(revision := i.revision + 1, lastOperation := Some(op))]
           else db.installations,
         inputs := if q.AppCenter? && q.admission.Ok? then db.inputs[op := (q.input, q.admission.value)] else db.inputs,
         operationBindings := if q.Preinstalled? then db.operationBindings[op := q.release] else db.operationBindings,
         installationBindings :=
           if q.Preinstalled? && installation.Some? && next.installations[installation.value].version == c.version
           then db.installationBindings[installation.value := q.release] else db.installationBindings)
  }

  /**
   * In every reachable world a command under a new key is accepted exactly when
   * its caller may ask for it, its form and its evidence hold, nothing is at work
   * on the App and the current installation can be claimed. Acceptance inserts
   * the operation and claims or creates the installation, and nothing else.
   */
  lemma CommandIsAcceptedExactlyWhen(env: Env, w: World, s: Step)
    requires Reachable(env, w) && Enabled(w, s) && s.SubmitStep? && s.replay.None?
    ensures var r, next := Submit(env, w.db, s.u, s.q, None, s.cur, s.op, s.newId).1, Next(env, w, s);
      && (r.Ok? <==>
            && MayOperate(env, s.u, s.q) && IsRequest(env, s.u, s.q) && Admissible(env, w.db, s.u, s.q, s.cur)
            && Vacant(w.db, CommandOf(s.q).app) && MayClaim(env, w.db, s.u, s.q, s.cur))
      && (!MayOperate(env, s.u, s.q) ==> r == Err(Denied))
      && (MayOperate(env, s.u, s.q) && !IsRequest(env, s.u, s.q) ==> r == Err(Invalid))
      && if r.Err? then next == w
         else next == w.(db := next.db) && Began(w.db, next.db, s.u, s.q, s.cur, s.op, s.newId)
              && r == Ok(next.db.operations[s.op])
  {
    hide Reachable, Inv, CheckCommand, Accept, MayOperate, IsRequest, Admissible, Vacant, MayClaim, Began;
    ReachableSatisfiesInvariant(env, w);
    ChecksAreThese(env, s.u, s.q);
    if s.cur.Some? { InstallationIsKeyed(env, w, s.cur.value); }
    if IsRequest(env, s.u, s.q) {
      AcceptsExactly(env, w.db, s.u, s.q, s.cur, s.op, s.newId);
    }
    if CheckCommand(env, s.u, s.q).None? && Accept(env, w.db, s.u, s.q, s.cur, s.op, s.newId).Ok? {
      AcceptanceRows(env, w.db, s.u, s.q, s.cur, s.op, s.newId);
    }
  }

  lemma InstallationIsKeyed(env: Env, w: World, id: Uuid)
    requires Inv(env, w)
    ensures id in w.db.installations ==> w.db.installations[id].id == id
  {
    hide OperationsOk, TransitionsOk, RecoveriesOk, Exclusion, Ledger, KeysUnique, FlightsOk;
  }

  lemma AcceptanceRows(env: Env, db: Db, u: Identity, q: Request, cur: Option<Uuid>, op: Uuid, newId: Uuid)
    requires cur.Some? ==> cur.value in db.installations && db.installations[cur.value].id == cur.value
    requires newId !in db.installations && IsRequest(env, u, q) && Accept(env, db, u, q, cur, op, newId).Ok?
    ensures Began(db, Accept(env, db, u, q, cur, op, newId).value, u, q, cur, op, newId)
  {
    var next := Accept(env, db, u, q, cur, op, newId).value;
    var o, i := AcceptTouches(env, db, u, q, cur, op, newId);
    AcceptedReservation(env, db, u, q, cur, op, newId);
    RowsBegan(env, db, next, u, q, cur, o, i, newId);
  }

  lemma AcceptedReservation(env: Env, db: Db, u: Identity, q: Request, cur: Option<Uuid>, op: Uuid, newId: Uuid)
    requires cur.Some? ==> cur.value in db.installations
    requires Accept(env, db, u, q, cur, op, newId).Ok?
    ensures var next := Accept(env, db, u, q, cur, op, newId).value;
      op in next.operations && next.operations[op].installation ==
        if cur.None? && CommandOf(q).action in {Install, Start, Adopt} then Some(newId) else cur
  {
    hide Admit, OperationBusy, TransitionBusyForApp, Reserve, HashOf;
    ReservedRow(env, db, u, q, cur, newId);
  }

  lemma RowsBegan(env: Env, db: Db, next: Db, u: Identity, q: Request, cur: Option<Uuid>, o: Operation, i: Installation, newId: Uuid)
    requires cur.Some? ==> cur.value in db.installations && db.installations[cur.value].id == cur.value
    requires newId !in db.installations && IsRequest(env, u, q)
    requires AcceptedAs(db, u, q, o, i, next) && i == Claimed(db, u, q, cur, newId)
    requires next == db.(operations := next.operations, installations := next.installations, inputs := next.inputs,
                         operationBindings := next.operationBindings, installationBindings := next.installationBindings)
    requires o.installation == if cur.None? && CommandOf(q).action in {Install, Start, Adopt} then Some(newId) else cur
    ensures Began(db, next, u, q, cur, o.id, newId)
  {
    hide HashOf, ValidBinding, IsDigest;
  }

  // ---------- A recorded report ----------

  /** The status an answer amounts to: a definite refusal is a failure. */
  function StatusOf(a: Answer): OperationStatus {
    if a.Reported? then a.report.status else Failed
  }

  function PhaseOf(a: Answer): OperationPhase {
    if a.Reported? then a.report.phase else Checking
  }

  /** The installation row after a report of its latest operation. */
  predicate Reports(o: Operation, i: Installation, i': Installation, status: OperationStatus) {
    if status == Succeeded && o.version != i.version then i' == i.(version := o.version, revision := i.revision + 1)
    else
      && i' == i.(state := i'.state, revision := if i'.state == i.state then i.revision else i.revision + 1)
      && (status == Succeeded && o.action == Delete ==> i'.state == Removed)
      && (status == Succeeded && o.action != Delete ==> i'.state == Installed)
      && (status == Failed ==> i'.state == if i.state == Installed then Installed else InstallFailed)
      && (status == Running ==> i'.state == i.state)
  }

  /** The tables after a recorded report of operation `id`. */
  predicate Recorded(db: Db, next: Db, id: Uuid, status: OperationStatus, phase: OperationPhase)
    requires id in db.operations
  {
    var o := db.operations[id];
    var marked := db.(operations := db.operations[id := o.(status := status, phase := phase)]);
    if o.installation.None? then next == marked
    else
      var at := o.installation.value;
      && at in db.installations && at in next.installations
      && var i := db.installations[at];
      && Reports(o, i, next.installations[at], status)
      && next == marked.(
           installations := db.installations[at := next.installations[at]],
           installationBindings :=
             if status == Succeeded && o.version != i.version && id in db.operationBindings
             then db.installationBindings[at := db.operationBindings[id]] else db.installationBindings)
  }

  lemma StateAfter(current: InstallState, action: Action, status: OperationStatus)
    requires current != Removed && action != Unsupported && status != Accepted
    ensures var next := NextInstallState(current, action, status);
      && (status == Succeeded && action == Delete ==> next == Removed)
      && (status == Succeeded && action != Delete ==> next == Installed)
      && (status == Failed ==> next == if current == Installed then Installed else InstallFailed)
      && (status == Running ==> next == current)
  {
  }

  lemma RecordLeaves(env: Env, db: Db, o: Operation, row: Operation)
    requires o.id in db.operations && db.operations[o.id] == o && row == o.(status := row.status, phase := row.phase)
    requires o.installation.Some? ==>
      && o.installation.value in db.installations && o.action != Unsupported
      && var i := db.installations[o.installation.value];
         i.id == o.installation.value && i.lastOperation == Some(o.id) && i.state != Removed
         && (o.id !in db.operationBindings && row.status == Succeeded && i.version != o.version ==> o.action == Upgraded)
         && (o.id in db.operationBindings ==> o.action != Upgraded)
    requires row.status != Accepted
    requires Record(env, db.(operations := db.operations[o.id := row]), row, row.status).Ok?
    ensures Recorded(db, Record(env, db.(operations := db.operations[o.id := row]), row, row.status).value, o.id, row.status, row.phase)
  {
    hide SourceRecovery;
    if o.installation.Some? {
      var i := db.installations[o.installation.value];
      StateAfter(i.state, o.action, row.status);
      hide NextInstallState;
      assert db.installations[i.id := i] == db.installations;
    }
  }

  /** The states an operation can be reported in. */
  predicate IsReport(r: Report) {
    && 0 <= r.downloaded && (r.total.None? || r.downloaded <= r.total.value)
    && match r.status
       case Accepted => false
       case Succeeded => r.phase == Completed && r.code == "" && r.message == ""
       case Running => r.phase !in {Completed, UnknownPhase} && r.code == "" && r.message == ""
       case Failed =>
         && r.phase !in {Completed, UnknownPhase} && r.message != ""
         && r.code in {"INVALID_ARGUMENT", "NOT_FOUND", "CONFLICT", "SERVICE_UNAVAILABLE", "INTERNAL", "PERMISSION_DENIED",
                       "CHART_EXECUTION_FAILED"}
  }

  lemma ReportsAreThese(r: Report)
    ensures ValidReport(Normalized(r)) <==> IsReport(r)
  {
  }

  /**
   * The answer to a dispatch of an unfinished operation in a reachable world:
   * postponed, recorded as reported, recorded as refused, or rolled back.
   */
  lemma DispatchIsAnswered(env: Env, w: World, s: Step)
    requires Reachable(env, w) && Enabled(w, s) && s.DispatchStep?
    ensures var r := DispatchOne(env, w.db, s.op, s.canCallBound, s.answer).1;
      if s.op in w.db.inputs && !s.canCallBound then r == Err(DispatchUnsupported)
      else if s.answer == OutcomeUnknown then r == Err(Unavailable)
      else if s.answer.Reported? && !(s.answer.report.operation == s.op && IsReport(s.answer.report)) then r == Err(Progress)
      else r == Ok(StatusOf(s.answer)) || (r == Err(OutOfRange) && Scheduling.Exhausted(w.db, w.db.operations[s.op]))
    ensures DispatchOne(env, w.db, s.op, s.canCallBound, s.answer).1.Err? ==> Next(env, w, s) == w
  {
    hide Reachable, Inv, DispatchOne, ValidReport, IsReport, Normalized, Next;
    if s.answer.Reported? { ReportsAreThese(s.answer.report); }
    if DispatchOne(env, w.db, s.op, s.canCallBound, s.answer).1.Err? { NothingOnError(env, w, s); }
    if !Scheduling.Callable(w.db, s.op, s.canCallBound) {
      NotCallable(env, w, s);
    } else if Scheduling.BadReport(s.op, s.answer) {
      Scheduling.BadReportRollsBack(env, w, s.op, s.canCallBound, s.answer);
    } else if s.answer == OutcomeUnknown {
      UnknownIsUnavailable(env, w, s);
    } else {
      var r := if s.answer.Reported? then s.answer.report else ReportOf(s.op, s.answer).value;
      if !s.answer.Reported? { Scheduling.RejectionIsValid(s.op, s.answer); }
      Scheduling.SameAnswer(env, w.db, s.op, s.canCallBound, s.answer, r);
      AcceptedOperationCompletes(env, w, s.op, s.canCallBound, r);
    }
  }

  lemma NotCallable(env: Env, w: World, s: Step)
    requires Enabled(w, s) && s.DispatchStep? && s.op in w.db.inputs && !s.canCallBound
    ensures DispatchOne(env, w.db, s.op, s.canCallBound, s.answer).1 == Err(DispatchUnsupported)
  {
  }

  lemma UnknownIsUnavailable(env: Env, w: World, s: Step)
    requires Reachable(env, w) && Enabled(w, s) && s.DispatchStep? && s.answer == OutcomeUnknown
    requires Scheduling.Callable(w.db, s.op, s.canCallBound)
    ensures DispatchOne(env, w.db, s.op, s.canCallBound, s.answer).1 == Err(Unavailable)
  {
    hide Inv, Reachable, Record, Dispatchable, OperationOk;
    ReachableSatisfiesInvariant(env, w);
    RowsAreOk(env, w, s.op);
    DispatchableWhenOk(env, w.db, w.db.operations[s.op]);
  }

  lemma NothingOnError(env: Env, w: World, s: Step)
    requires Enabled(w, s) && s.DispatchStep? && DispatchOne(env, w.db, s.op, s.canCallBound, s.answer).1.Err?
    ensures Next(env, w, s) == w
  {
    FailedDispatchChangesNothing(env, w.db, s.op, s.canCallBound, s.answer);
    hide DispatchOne;
  }

  /**
   * What a recorded report leaves in the tables of any reachable world: the
   * operation's row, its installation's, on an adoption the release binding, and
   * nothing else. The revision advances exactly when the installation changed.
   */
  lemma ReportIsRecorded(env: Env, w: World, s: Step)
    requires Reachable(env, w) && Enabled(w, s) && s.DispatchStep?
    requires DispatchOne(env, w.db, s.op, s.canCallBound, s.answer).1.Ok?
    ensures Recorded(w.db, Next(env, w, s).db, s.op, StatusOf(s.answer), PhaseOf(s.answer))
    ensures DispatchOne(env, w.db, s.op, s.canCallBound, s.answer).1 == Ok(StatusOf(s.answer))
  {
    hide Inv, Reachable, Recorded, Record, Dispatchable;
    ReachableSatisfiesInvariant(env, w);
    RowsAreOk(env, w, s.op);
    var o := w.db.operations[s.op];
    var r := ReportOf(s.op, s.answer).value;
    OperationsRow(env, w, o);
    RecordLeaves(env, w.db, o, o.(status := r.status, phase := r.phase));
  }

  lemma OperationsRow(env: Env, w: World, o: Operation)
    requires Inv(env, w) && o.id in w.db.operations && w.db.operations[o.id] == o && Active(o)
    ensures o.installation.Some? ==>
      && o.installation.value in w.db.installations && o.action != Unsupported
      && var i := w.db.installations[o.installation.value];
         && i.id == o.installation.value && i.lastOperation == Some(o.id) && i.state != Removed && i.app == o.app
         && (o.id !in w.db.operationBindings && i.version != o.version ==> o.action == Upgraded)
         && (o.id in w.db.operationBindings ==> o.action != Upgraded)
  {
    hide TransitionsOk, RecoveriesOk, Exclusion, Ledger, KeysUnique, FlightsOk, InputOk;
    assert OperationOk(env, w.db, o);
  }

  /** A delete is always of the installed version, and once it has succeeded its App has no current installation. */
  lemma DeletedIsGone(env: Env, w: World, s: Step)
    requires Reachable(env, w) && Enabled(w, s) && s.DispatchStep? && w.db.operations[s.op].installation.Some?
    requires DispatchOne(env, w.db, s.op, s.canCallBound, s.answer) == (Next(env, w, s).db, Ok(Succeeded))
    requires var o := w.db.operations[s.op]; o.action == Delete
    ensures var o, next := w.db.operations[s.op], Next(env, w, s).db;
      && o.installation.value in w.db.installations && w.db.installations[o.installation.value].version == o.version
      && forall i :: i in next.installations && next.installations[i].app == o.app ==> next.installations[i].state == Removed
  {
    hide Inv, Reachable, DispatchOne, Next;
    ReachableSatisfiesInvariant(env, w);
    ReportIsRecorded(env, w, s);
    RowsAreOk(env, w, s.op);
    var o := w.db.operations[s.op];
    OperationsRow(env, w, o);
    DeletesItsVersion(env, w.db, o);
    OthersAreRemoved(env, w, o);
  }

  lemma DeletesItsVersion(env: Env, db: Db, o: Operation)
    requires OperationOk(env, db, o) && Active(o) && o.action == Delete && o.installation.Some?
    ensures o.installation.value in db.installations && db.installations[o.installation.value].version == o.version
  {
    hide InputOk, SourceRecovery;
  }

  lemma OthersAreRemoved(env: Env, w: World, o: Operation)
    requires Inv(env, w) && o.installation.Some? && o.installation.value in w.db.installations
    requires w.db.installations[o.installation.value].state != Removed && w.db.installations[o.installation.value].app == o.app
    ensures forall i :: i in w.db.installations && w.db.installations[i].app == o.app && i != o.installation.value ==>
      w.db.installations[i].state == Removed
  {
    hide OperationsOk, TransitionsOk, RecoveriesOk, Ledger, KeysUnique, FlightsOk, KeyedRows, OneOperationPerApp, OneTransitionPerApp,
         OperationExcludesTransition;
  }
}
