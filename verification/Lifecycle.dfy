/**
 * Lifecycle operations as database transactions: acceptance (service.go,
 * installations.go, preinstalled.go, appcenter_commands.go) and the recording
 * of a Runtime report (worker.go, appcenter_dispatch.go).
 *
 * A transaction is a function from the committed tables to a result that holds
 * the next tables; an error leaves the tables as they were.
 */
module Lifecycle {
  import opened Common
  import opened TransitionVersions
  import opened Releases
  import opened Rows

  // ---------- Acceptance: checks before the transaction ----------

  function CheckPreinstalled(u: Identity, env: Env, q: Request): Option<Error>
    requires q.Preinstalled?
  {
    var c := q.adopting;
    if !(u.station == env.station && u.admin && u.canRead && u.canManage) then Some(Denied)
    else if !ValidBinding(q.release) || q.release.appId != c.app || q.release.appVersion != c.version
            || !IsDigest(q.inventory) || !(c.action == Install || c.action == Adopt) then Some(Invalid)
    else None
  }

  function CheckCommand(env: Env, u: Identity, q: Request): Option<Error> {
    var c := CommandOf(q);
    if q.Preinstalled? && CheckPreinstalled(u, env, q).Some? then CheckPreinstalled(u, env, q)
    else if q.AppCenter? && !(u.station == env.station && u.admin && u.canRead && u.canManage) then Some(Denied)
    else if !u.admin || !u.canManage then Some(Denied)
    else if !(1 <= |c.requestId| <= 128) then Some(Invalid)
    else if c.station != env.station || c.org != u.org || !(8 <= |c.key| <= 128) then Some(Invalid)
    else if c.action == Unsupported then Some(Invalid)
    else if c.action == Adopt && !env.isUuid(c.expectedWorkload) then Some(Invalid)
    else if c.action != Adopt && c.expectedWorkload != "" then Some(Invalid)
    else None
  }

  /** The answer to a command whose idempotency key is already taken. */
  function ReplayOf(q: Request, prior: Operation): Result<Operation, Error> {
    var legacy := CommandHash(CommandOf(q).(requestId := prior.requestId));
    if prior.hash != HashOf(q) && (!q.Plain? || prior.hash != legacy) then Err(Conflict) else Ok(prior)
  }

  // ---------- Acceptance: the constrained command ----------

  function CheckExpectedInstallation(db: Db, u: Identity, input: AppCenterCommand, cur: Option<Uuid>): Option<Error>
    requires cur.Some? ==> cur.value in db.installations
  {
    var c, e := input.command, input.expected;
    if e.version != c.version || e.installation.None? != e.revision.None? then Some(Invalid)
    else if c.action == Install then
      if cur.Some? || e.installation.Some? || e.revision.Some? || e.workload.Some? then Some(BindingChanged) else None
    else if cur.None? || e.installation.None? || e.revision.None? then Some(BindingChanged)
    else
      var i := db.installations[cur.value];
      if i.id != e.installation.value || i.revision != e.revision.value || i.org != u.org || i.state != Installed
         || (i.version == e.version) == (c.action == Upgraded) then Some(BindingChanged)
      else None
  }

  function CheckExecution(input: AppCenterCommand, x: Execution): Option<Error> {
    var c, e := input.command, input.expected;
    if x.app != c.app || x.version != c.version || x.action != c.action || x.schema != 1
       || !IsDigest(x.releaseDigest) || !IsDigest(x.templateDigest) || !IsDigest(x.policy) || e.releaseDigest.None?
      then Some(ReleaseUnverified)
    else if x.releaseDigest != e.releaseDigest.value || x.policy != e.policy
            || x.workload != (if e.workload.Some? then e.workload.value else "")
      then Some(BindingChanged)
    else None
  }

  /** The verified execution of a constrained command, or nothing for the other kinds. */
  function Admit(env: Env, db: Db, u: Identity, q: Request, cur: Option<Uuid>): Result<Option<Execution>, Error>
    requires cur.Some? ==> cur.value in db.installations
  {
    var c := CommandOf(q);
    match q
    case AppCenter(input, admission) =>
      var refused := CheckExpectedInstallation(db, u, input, cur);
      if refused.Some? then Err(refused.value)
      else if admission.Err? then Err(admission.error)
      else
        var wrong := CheckExecution(input, admission.value);
        if wrong.Some? then Err(wrong.value) else Ok(Some(admission.value))
    case Preinstalled(_, _, _, _, history) =>
      if c.app !in env.catalog || env.catalog[c.app] != c.version then Err(Invalid)
      else if history.Some? then Err(history.value)
      else Ok(None)
    case Plain(_) =>
      if c.app !in env.catalog || env.catalog[c.app] != c.version then Err(Invalid) else Ok(None)
  }

  // ---------- Acceptance: the installation ----------

  predicate LegacyVersionAdoption(trusted: bool, action: Action, state: InstallState, bound: bool) {
    trusted && action == Adopt && state == Installed && !bound
  }

  /** A completed managed upgrade between exactly these snapshots is on record. */
  predicate UpgradeOnRecord(db: Db, installation: Uuid, source: Snapshot, target: Snapshot) {
    exists t :: t in db.transitions && var r := db.transitions[t];
      r.installation == installation && r.app == "video-mcp" && r.action == Upgrade
      && r.status == TSucceeded && r.phase == PCompleted && r.source == source && r.target == target
  }

  /** The registered historical chains; they only ever permit adopting an installed App. */
  predicate SourceRecovery(env: Env, db: Db, installation: Uuid, version: string, from: Binding, to: Binding,
                           action: Action, state: InstallState)
  {
    action == Adopt && state == Installed &&
    match env.chain(version, from, to)
    case Unrelated => false
    case Direct => from.appVersion == version
    case Proven(source, target) => UpgradeOnRecord(db, installation, source, target)
  }

  predicate VersionChangeAllowed(env: Env, db: Db, q: Request, id: Uuid)
    requires id in db.installations
  {
    var c, i, bound := CommandOf(q), db.installations[id], id in db.installationBindings;
    if q.Preinstalled? && bound && i.version != c.version then
      SourceRecovery(env, db, id, i.version, db.installationBindings[id], q.release, c.action, i.state)
    else
      LegacyVersionAdoption(q.Preinstalled?, c.action, i.state, bound)
      || (!q.Preinstalled? && c.action == Upgraded && i.state == Installed)
  }

  function Reserve(env: Env, db: Db, u: Identity, q: Request, cur: Option<Uuid>, newId: Uuid): Result<(Db, Option<Uuid>), Error>
    requires cur.Some? ==> cur.value in db.installations
  {
    var c := CommandOf(q);
    match cur
    case Some(id) =>
      var i := db.installations[id];
      if i.org != u.org || (i.version != c.version && !VersionChangeAllowed(env, db, q, id)) then Err(Conflict)
      else Ok((db, Some(id)))
    case None =>
      if !(c.action == Install || c.action == Start || c.action == Adopt) then Ok((db, None))
      else
        var i := Installation(newId, c.app, c.version, u.org, Pending, 1, None);
        Ok((db.(installations := db.installations[newId := i]), Some(newId)))
  }

  function FirstPhase(a: Action): OperationPhase {
    if a == Stop || a == Delete then Stopping else if a == Restart then Starting else Checking
  }

  function NewOperation(u: Identity, q: Request, op: Uuid, installation: Option<Uuid>): Operation {
    var c := CommandOf(q);
    Operation(op, c.requestId, u.user, u.org, c.app, c.version, c.action, Accepted, FirstPhase(c.action), c.key,
              HashOf(q), c.expectedWorkload, installation)
  }

  /** revision = revision + 1; a bigint column refuses to pass its maximum. */
  function Bumped(i: Installation): Result<Installation, Error> {
    if i.revision >= MAX_INT64 then Err(OutOfRange) else Ok(i.(revision := i.revision + 1))
  }

  function BindOperation(db: Db, o: Operation): Result<Db, Error>
    requires o.installation.Some? ==> o.installation.value in db.installations
  {
    var withRow := db.(operations := db.operations[o.id := o]);
    match o.installation
    case None => Ok(withRow)
    case Some(id) =>
      var i :- Bumped(db.installations[id]);
      Ok(withRow.(installations := db.installations[id := i.(lastOperation := Some(o.id))]))
  }

  function BindPreinstalled(db: Db, op: Uuid, installation: Option<Uuid>, release: Binding): Result<Db, Error>
    requires installation.Some? ==> installation.value in db.installations
  {
    if installation.None? then Err(Unavailable)
    else
      var id := installation.value;
      var bound := db.(operationBindings := db.operationBindings[op := release]);
      if db.installations[id].version != release.appVersion then Ok(bound)
      else if id in db.installationBindings && db.installationBindings[id] != release then Err(Conflict)
      else Ok(bound.(installationBindings := db.installationBindings[id := release]))
  }

  function BindInputs(db: Db, o: Operation, q: Request, execution: Option<Execution>): Result<Db, Error>
    requires o.installation.Some? ==> o.installation.value in db.installations
  {
    match q
    case Plain(_) => Ok(db)
    case AppCenter(input, _) =>
      if execution.None? then Err(ReleaseUnverified)
      else Ok(db.(inputs := db.inputs[o.id := (input, execution.value)]))
    case Preinstalled(_, release, _, _, _) => BindPreinstalled(db, o.id, o.installation, release)
  }

  /** The transaction that accepts a new operation. */
  function Accept(env: Env, db: Db, u: Identity, q: Request, cur: Option<Uuid>, op: Uuid, newId: Uuid): Result<Db, Error>
    requires cur.Some? ==> cur.value in db.installations
  {
    var execution :- Admit(env, db, u, q, cur);
    if OperationBusy(db, CommandOf(q).app) || TransitionBusyForApp(db, CommandOf(q).app) then Err(Conflict)
    else
      var reserved :- Reserve(env, db, u, q, cur, newId);
      var o := NewOperation(u, q, op, reserved.1);
      var bound :- BindOperation(reserved.0, o);
      BindInputs(bound, o, q, execution)
  }

  /** Submit: the tables after the call and its answer. */
  function Submit(env: Env, db: Db, u: Identity, q: Request, replay: Option<Uuid>, cur: Option<Uuid>, op: Uuid, newId: Uuid)
    : (Db, Result<Operation, Error>)
    requires cur.Some? ==> cur.value in db.installations
    requires replay.Some? ==> replay.value in db.operations
  {
    var refused := CheckCommand(env, u, q);
    if refused.Some? then (db, Err(refused.value))
    else if replay.Some? then (db, ReplayOf(q, db.operations[replay.value]))
    else
      match Accept(env, db, u, q, cur, op, newId)
      case Err(e) => (db, Err(e))
      case Ok(next) => if op in next.operations then (next, Ok(next.operations[op])) else (db, Err(Unavailable))
  }

  // ---------- Recording a Runtime report ----------

  datatype Report = Report(operation: Uuid, status: OperationStatus, phase: OperationPhase,
                           downloaded: int, total: Option<int>, code: string, message: string)

  /** A gRPC answer: a report, a definite rejection, or anything that leaves the outcome open. */
  datatype Answer = Reported(report: Report) | AlreadyExists | PermissionDenied | Rejected | OutcomeUnknown

  const REJECTION := "Runtime rejected the command or execution template; check registered application version"

  function Normalized(r: Report): Report {
    if r.status == Failed && r.code == "CHART_EXECUTION_FAILED" then r.(code := "SERVICE_UNAVAILABLE") else r
  }

  /** The report an answer amounts to; none when the call must be repeated. */
  function ReportOf(op: Uuid, a: Answer): Option<Report> {
    match a
    case Reported(r) => Some(Normalized(r))
    case AlreadyExists => Some(Report(op, Failed, Checking, 0, None, "CONFLICT", REJECTION))
    case PermissionDenied => Some(Report(op, Failed, Checking, 0, None, "PERMISSION_DENIED", REJECTION))
    case Rejected => Some(Report(op, Failed, Checking, 0, None, "INVALID_ARGUMENT", REJECTION))
    case OutcomeUnknown => None
  }

  predicate ValidReport(r: Report) {
    && r.downloaded >= 0 && (r.total.Some? ==> r.total.value >= 0 && r.downloaded <= r.total.value)
    && r.phase != UnknownPhase
    && match r.status
       case Succeeded => r.phase == Completed && r.code == "" && r.message == ""
       case Failed => r.phase != Completed && r.message != "" &&
         r.code in ["INVALID_ARGUMENT", "NOT_FOUND", "CONFLICT", "SERVICE_UNAVAILABLE", "INTERNAL", "PERMISSION_DENIED"]
       case Running => r.phase != Completed && r.code == "" && r.message == ""
       case Accepted => false
  }

  function NextInstallState(current: InstallState, action: Action, result: OperationStatus): InstallState {
    if current == Removed then current
    else if result == Succeeded && action == Delete then Removed
    else if result == Succeeded && action != Unsupported then Installed
    else if result == Failed && current != Installed then InstallFailed
    else current
  }

  /** The release binding of an installation after a successful adoption of another version. */
  function Rebind(env: Env, db: Db, o: Operation, i: Installation): Result<Db, Error>
    requires o.id in db.operationBindings
  {
    var next := db.operationBindings[o.id];
    if i.id in db.installationBindings then
      var prior := db.installationBindings[i.id];
      if next.appVersion != o.version || !SourceRecovery(env, db, i.id, i.version, prior, next, o.action, i.state)
        then Err(Conflict)
      else Ok(db.(installationBindings := db.installationBindings[i.id := next]))
    else Ok(db.(installationBindings := db.installationBindings[i.id := next]))
  }

  function SetInstallation(db: Db, i: Installation): Result<Db, Error> {
    var next :- Bumped(i);
    Ok(db.(installations := db.installations[i.id := next]))
  }

  /** recordInstallationProgress, for an operation whose row already carries the reported status. */
  function Record(env: Env, db: Db, o: Operation, result: OperationStatus): Result<Db, Error> {
    if o.installation.None? || o.installation.value !in db.installations then Ok(db)
    else
      var i := db.installations[o.installation.value];
      var bound := o.id in db.operationBindings;
      if i.lastOperation != Some(o.id) then Ok(db)
      else if i.version != o.version && result == Succeeded then
        if o.action == Upgraded && i.state == Installed && !bound then SetInstallation(db, i.(version := o.version))
        else if !LegacyVersionAdoption(bound, o.action, i.state, false) then Err(Conflict)
        else
          var rebound :- Rebind(env, db, o, i);
          SetInstallation(rebound, i.(version := o.version))
      else
        var next := NextInstallState(i.state, o.action, result);
        if next == i.state then Ok(db) else SetInstallation(db, i.(state := next))
  }

  /** The guard values sent with a constrained call. */
  datatype Guard = Guard(schema: int, releaseDigest: string, templateDigest: string, policy: string, workload: string)

  /** appCenterDispatchInput: the durable input must still be the one the operation row was accepted with. */
  function DispatchInput(env: Env, o: Operation, bound: bool, input: AppCenterCommand, x: Execution): Result<Guard, Error> {
    var c, e := input.command, input.expected;
    if o.hash != AppCenterHash(input.(command := Untraced(c))) || c.key != o.key || c.requestId != o.requestId
       || c.org != o.org || c.station != env.station || c.app != o.app || c.version != o.version || c.action != o.action
       || c.expectedWorkload != o.workload || bound || o.installation.None? then Err(BindingChanged)
    else if e.version != o.version || e.installation.None? != e.revision.None? then Err(BindingChanged)
    else if c.action == Install && (e.installation.Some? || e.workload.Some?) then Err(BindingChanged)
    else if c.action != Install && e.installation != o.installation then Err(BindingChanged)
    else if CheckExecution(input, x).Some? then Err(BindingChanged)
    else Ok(Guard(x.schema, x.releaseDigest, x.templateDigest, x.policy, x.workload))
  }

  /** The checks Core makes on an operation's own durable rows before it calls Runtime. */
  function Dispatchable(env: Env, db: Db, o: Operation): Result<Option<Guard>, Error> {
    var bound := o.id in db.operationBindings;
    if o.id in db.inputs then
      var guard :- DispatchInput(env, o, bound, db.inputs[o.id].0, db.inputs[o.id].1);
      Ok(Some(guard))
    else if bound && (!ValidBinding(db.operationBindings[o.id]) || db.operationBindings[o.id].appId != o.app
                      || db.operationBindings[o.id].appVersion != o.version) then Err(Invalid)
    else Ok(None)
  }

  /** One DispatchOne of the given row: the tables after it and whether it reached a durable report. */
  function DispatchOne(env: Env, db: Db, id: Uuid, canCallBound: bool, a: Answer): (Db, Result<OperationStatus, Error>)
    requires id in db.operations
  {
    var o := db.operations[id];
    if id in db.inputs && !canCallBound then (db, Err(DispatchUnsupported))
    else
      match Dispatchable(env, db, o)
      case Err(e) => (db, Err(e))
      case Ok(_) =>
        match ReportOf(id, a)
        case None => (db, Err(Unavailable))
        case Some(r) =>
          if r.operation != id || !ValidReport(r) then (db, Err(Progress))
          else
            var row := o.(status := r.status, phase := r.phase);
            match Record(env, db.(operations := db.operations[id := row]), row, r.status)
            case Err(e) => (db, Err(e))
            case Ok(next) => (next, Ok(r.status))
  }
}
