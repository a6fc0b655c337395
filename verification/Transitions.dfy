/**
 * Managed version transitions as database transactions: acceptance
 * (transitions.go), the decision and the compare-and-commit of one dispatch
 * (transition_dispatch.go), and forward recovery (forward_recovery.go).
 */
module Transitions {
  import opened Common
  import opened TransitionVersions
  import opened Releases
  import opened Rows

  // ---------- Acceptance ----------

  predicate ValidTransitionCommand(c: TransitionCommand) {
    && 1 <= |c.requestId| <= 128 && 8 <= |c.key| <= 128 && c.expected > 0
    && IsVersion(c.sourceVersion) && IsName(c.targetRef)
  }

  predicate SameTransitionKey(t: Transition, user: string, org: string, key: string) {
    t.user == user && t.org == org && t.key == key
  }

  predicate IsTransitionReplay(db: Db, user: string, org: string, key: string, replay: Option<Uuid>) {
    match replay
    case None => forall i :: i in db.transitions ==> !SameTransitionKey(db.transitions[i], user, org, key)
    case Some(id) => id in db.transitions && SameTransitionKey(db.transitions[id], user, org, key)
  }

  /** No accepted snapshot uses the reference of `s` for other release material. */
  predicate Retained(db: Db, s: Snapshot) {
    forall i :: i in db.transitions ==>
      (db.transitions[i].source.releaseRef == s.releaseRef ==> db.transitions[i].source == s)
      && (db.transitions[i].target.releaseRef == s.releaseRef ==> db.transitions[i].target == s)
  }

  function AcceptTransition(env: Env, db: Db, u: Identity, c: TransitionCommand,
                            releases: Result<(Snapshot, Snapshot), Error>, id: Uuid): Result<Transition, Error>
  {
    if c.installation !in db.installations || db.installations[c.installation].org != u.org then Err(NotFound)
    else
      var i := db.installations[c.installation];
      if i.state != Installed || i.revision != c.expected || i.version != c.sourceVersion then Err(Conflict)
      else if OperationBusy(db, i.app) || TransitionBusyForInstallation(db, c.installation) then Err(Conflict)
      else
        var pair :- releases;
        var (source, target) := pair;
        if !Compatible(c.action, i.app, i.version, c.sourceVersion, c.targetRef, source, target) then Err(Invalid)
        else if !Retained(db, source) || !Retained(db, target) then Err(Conflict)
        else Ok(Transition(id, c.installation, u.user, u.org, i.app, c.key, c.(requestId := ""), c.action, c.expected,
                           source, target, TAccepted, PAccepted))
  }

  /** SubmitTransition: the tables after the call and its answer. */
  function SubmitTransition(env: Env, db: Db, u: Identity, c: TransitionCommand, replay: Option<Uuid>,
                            releases: Result<(Snapshot, Snapshot), Error>, id: Uuid): (Db, Result<Transition, Error>)
    requires replay.Some? ==> replay.value in db.transitions
  {
    if u.station != env.station || !u.admin || !u.canManage then (db, Err(Denied))
    else if !ValidTransitionCommand(c) then (db, Err(Invalid))
    else if replay.Some? then
      var t := db.transitions[replay.value];
      (db, if t.hash != c.(requestId := "") then Err(Conflict)
           else if !ValidSnapshot(t.source) || !ValidSnapshot(t.target) then Err(Unavailable) else Ok(t))
    else
      match AcceptTransition(env, db, u, c, releases, id)
      case Err(e) => (db, Err(e))
      case Ok(t) => (db.(transitions := db.transitions[id := t]), Ok(t))
  }

  // ---------- One dispatch: what was read, and what it decides ----------

  /** The rows a dispatcher works from: a transition and its installation. */
  datatype Dispatch = Dispatch(t: Transition, installed: Installation)

  datatype Held = Original | Target | Restored

  /** installationState: which of the three bound versions the installation holds, if any. */
  function HeldBy(t: Transition, i: Installation): Option<Held> {
    if i.state != Installed || i.app != t.source.appId || i.revision < 1 then None
    else if i.version == t.source.appVersion && i.revision == t.expected then Some(Original)
    else if i.version == t.target.appVersion && i.revision == t.expected + 1 then Some(Target)
    else if i.version == t.source.appVersion && i.revision == t.expected + 2 then Some(Restored)
    else None
  }

  /** The checks of readDispatchTransition on rows it has read. */
  predicate Readable(t: Transition, i: Installation) {
    && t.expected <= MAX_INT64 - 2
    && Compatible(t.action, i.app, t.source.appVersion, t.source.appVersion, t.target.releaseRef, t.source, t.target)
  }

  predicate BeforePublication(p: Phase) {
    p == PAccepted || p == PChecking || p == PSealing || p == PApplying || p == PVerifying || p == PPublishing
  }

  /** The checks of a dispatch between its reads and its first effect. */
  function CheckDispatch(d: Dispatch, pending: bool): Option<Error> {
    if !Readable(d.t, d.installed) then Some(Progress)
    else if pending then Some(Busy)
    else if HeldBy(d.t, d.installed).None?
            || (BeforePublication(d.t.phase) && HeldBy(d.t, d.installed) != Some(Original)) then Some(Progress)
    else None
  }

  datatype Mode = Prepare | Restore | ReleaseSource | ReleaseTarget

  function ModeOf(d: Dispatch): Mode {
    if d.t.phase == PRestoring then Restore
    else if d.t.phase == PReleasing then
      if HeldBy(d.t, d.installed) == Some(Target) then ReleaseTarget else ReleaseSource
    else Prepare
  }

  datatype StepRef = StepRef(operation: Uuid, requestId: Uuid, digest: InputDigest, mode: Mode)

  datatype RuntimePhase =
    | AtChecking | AtSealing | AtApplying | AtVerifying
    | Prepared | RejectedByRuntime | RecoveryRequired | Restoring | RestoredByRuntime | Releasing | Released | OtherPhase

  /** Runtime may fail, echo any step, and claim any phase. */
  datatype RuntimeAnswer = CallFailed | Answered(step: StepRef, phase: RuntimePhase)

  datatype Plan = Plan(status: TransitionStatus, phase: Phase, version: Option<string>)

  /** The index of a phase among the ordered preparation stages, or -1. */
  function StageOf(p: Phase): int {
    match p
    case PChecking => 0
    case PSealing => 1
    case PApplying => 2
    case PVerifying => 3
    case PPublishing => 4
    case _ => -1
  }

  function StageReported(p: RuntimePhase): int {
    match p
    case AtChecking => 0
    case AtSealing => 1
    case AtApplying => 2
    case AtVerifying => 3
    case _ => -1
  }

  function PhaseReported(p: RuntimePhase): Phase {
    match p
    case AtChecking => PChecking
    case AtSealing => PSealing
    case AtApplying => PApplying
    case _ => PVerifying
  }

  function DecideRelease(d: Dispatch, p: RuntimePhase): Result<Plan, Error> {
    if p == Releasing then Ok(Plan(TRunning, d.t.phase, None))
    else if p != Released then Err(Progress)
    else Ok(Plan(if ModeOf(d) == ReleaseTarget then TSucceeded else TFailed, PCompleted, None))
  }

  function DecideRestore(d: Dispatch, p: RuntimePhase): Result<Plan, Error> {
    match p
    case RestoredByRuntime =>
      Ok(Plan(TRunning, PReleasing,
              if HeldBy(d.t, d.installed) == Some(Target) then Some(d.t.source.appVersion) else None))
    case Restoring => Ok(Plan(TRunning, d.t.phase, None))
    case RecoveryRequired => Ok(Plan(TRecoveryRequired, PRecoveryRequired, None))
    case _ => Err(Progress)
  }

  function DecidePrepare(d: Dispatch, p: RuntimePhase): Result<Plan, Error> {
    match p
    case RecoveryRequired => Ok(Plan(TRecoveryRequired, PRecoveryRequired, None))
    case RejectedByRuntime =>
      if d.t.phase != PChecking && d.t.phase != PSealing then Err(Progress) else Ok(Plan(TFailed, PCompleted, None))
    case Prepared =>
      if d.t.phase == PPublishing then Ok(Plan(TRunning, PReleasing, Some(d.t.target.appVersion)))
      else Ok(Plan(TRunning, PPublishing, None))
    case _ =>
      if StageOf(d.t.phase) < 0 || StageReported(p) < StageOf(d.t.phase) then Err(Progress)
      else Ok(Plan(TRunning, PhaseReported(p), None))
  }

  /** What one dispatch will try to commit, from the rows it read and the answer it got. */
  function Decide(d: Dispatch, requestId: Uuid, a: RuntimeAnswer): Result<Plan, Error> {
    if d.t.phase == PAccepted then Ok(Plan(TRunning, PChecking, None))
    else if d.t.phase == PRecoveryRequired then Ok(Plan(TRunning, PRestoring, None))
    else
      match a
      case CallFailed => Err(Unavailable)
      case Answered(step, p) =>
        if step != StepRef(d.t.id, requestId, DigestOf(d.t), ModeOf(d)) then Err(Progress)
        else
          match ModeOf(d)
          case ReleaseSource => DecideRelease(d, p)
          case ReleaseTarget => DecideRelease(d, p)
          case Restore => DecideRestore(d, p)
          case Prepare => DecidePrepare(d, p)
  }

  // ---------- One dispatch: the compare and the commit ----------

  /** The writes of a commit whose compare succeeded. */
  function Apply(db: Db, d: Dispatch, plan: Plan): Db {
    var row := d.t.(status := plan.status, phase := plan.phase);
    var withRow := db.(transitions := db.transitions[d.t.id := row]);
    match plan.version
    case None => withRow
    case Some(v) =>
      withRow.(installations := db.installations[d.installed.id :=
        d.installed.(version := v, revision := d.installed.revision + 1)])
  }

  /** commitTransition: the tables after it and the committed row. */
  function Commit(db: Db, prior: Dispatch, plan: Plan): (Db, Result<Transition, Error>) {
    if prior.t.id !in db.transitions then (db, Err(NotFound))
    else
      var t := db.transitions[prior.t.id];
      if t.installation !in db.installations || db.installations[t.installation].org != t.org then (db, Err(NotFound))
      else
        var i := db.installations[t.installation];
        if !Readable(t, i) then (db, Err(Progress))
        else if t.status != prior.t.status || t.phase != prior.t.phase || DigestOf(t) != DigestOf(prior.t)
                || i != prior.installed then (db, Err(Conflict))
        else if plan.version.Some? && i.state != Installed then (db, Err(Conflict))
        else if plan.version.Some? && i.revision >= MAX_INT64 then (db, Err(OutOfRange))
        else
          var next := Apply(db, Dispatch(t, i), plan);
          if t.id in next.transitions then (next, Ok(next.transitions[t.id])) else (db, Err(NotFound))
  }

  // ---------- Forward recovery ----------

  predicate CanRecover(env: Env, u: Identity) {
    u.station == env.station && u.admin && u.canRead && u.canManage
  }

  /** The length and name checks of a recovery command. Its request ID must be a version 4 UUID. */
  predicate ValidForwardCommand(env: Env, c: ForwardCommand) {
    env.isUuid(c.requestId) && c.expected > 0 && 8 <= |c.key| <= 128 && IsName(c.targetRef)
  }

  function ForwardDigestOf(r: Recovery): ForwardDigest {
    ForwardDigest(r.id, r.parent, r.expected, r.version, r.target)
  }

  /** readForward refuses a row whose stored digest is not the digest of its content. */
  predicate ReadableRecovery(r: Recovery) {
    ValidSnapshot(r.target) && r.digest == ForwardDigestOf(r)
  }

  predicate SameRecoveryKey(r: Recovery, user: string, org: string, key: string) {
    r.user == user && r.org == org && r.key == key
  }

  predicate IsRecoveryReplay(db: Db, user: string, org: string, key: string, replay: Option<Uuid>) {
    match replay
    case None => forall i :: i in db.recoveries ==> !SameRecoveryKey(db.recoveries[i], user, org, key)
    case Some(id) => id in db.recoveries && SameRecoveryKey(db.recoveries[id], user, org, key)
  }

  /** The one registered repair: World 0.1.4 to 0.1.5 failed, and 0.1.6 replaces it. */
  predicate AllowedWorldForward(d: Dispatch, target: Snapshot) {
    && d.t.source.appId == "world" && d.t.source.appVersion == "0.1.4" && d.t.target.appVersion == "0.1.5"
    && target.appId == "world" && target.appVersion == "0.1.6"
    && d.t.source.releaseKind == "dashboard-release" && d.t.target.releaseKind == "dashboard-release"
    && target.releaseKind == "dashboard-release" && ValidSnapshot(target)
    && HeldBy(d.t, d.installed) == Some(Original)
    && (d.t.phase == PRestoring || d.t.phase == PRecoveryRequired)
    && (d.t.status == TRunning || d.t.status == TRecoveryRequired)
  }

  /** readDispatchTransition on the committed tables. */
  function ReadDispatch(db: Db, operation: Uuid): Result<Dispatch, Error> {
    if operation !in db.transitions then Err(NotFound)
    else
      var t := db.transitions[operation];
      if t.installation !in db.installations || db.installations[t.installation].org != t.org then Err(NotFound)
      else if !Readable(t, db.installations[t.installation]) then Err(Progress)
      else Ok(Dispatch(t, db.installations[t.installation]))
  }

  function NewRecovery(db: Db, u: Identity, c: ForwardCommand, releases: Result<(Snapshot, Snapshot), Error>, id: Uuid)
    : Result<Recovery, Error>
  {
    var parent :- ReadDispatch(db, c.operation);
    if parent.t.user != u.user || parent.t.org != u.org then Err(NotFound)
    else if parent.installed.revision != c.expected then Err(Conflict)
    else if releases.Err? then Err(ReleaseUnavailable)
    else
      var (source, target) := releases.value;
      if source != parent.t.source || !AllowedWorldForward(parent, target) then Err(Conflict)
      else if OperationBusy(db, parent.t.source.appId) || RecoveryPendingFor(db, parent.t.id) then Err(Conflict)
      else if !Retained(db, source) || !Retained(db, target) then Err(Conflict)
      else
        var digest := ForwardDigest(id, DigestOf(parent.t), c.expected, parent.installed.version, target);
        Ok(Recovery(id, c.operation, u.user, u.org, c.key, c.(requestId := ""), c.expected, parent.installed.version,
                    DigestOf(parent.t), target, digest, RecoveryPending))
  }

  /** SubmitForwardRecovery up to its acceptance, under the lock of the parent operation. */
  function AcceptForward(env: Env, db: Db, u: Identity, c: ForwardCommand, replay: Option<Uuid>,
                         releases: Result<(Snapshot, Snapshot), Error>, id: Uuid): (Db, Result<Recovery, Error>)
    requires replay.Some? ==> replay.value in db.recoveries
  {
    if !CanRecover(env, u) then (db, Err(Denied))
    else if !ValidForwardCommand(env, c) then (db, Err(Invalid))
    else if replay.Some? then
      var r := db.recoveries[replay.value];
      (db, if r.hash != c.(requestId := "") then Err(Conflict)
           else if !ReadableRecovery(r) then Err(Progress) else Ok(r))
    else
      match NewRecovery(db, u, c, releases, id)
      case Err(e) => (db, Err(e))
      case Ok(r) => (db.(recoveries := db.recoveries[id := r]), Ok(r))
  }

  /** The compare of finishForward on the rows it re-reads under its locks. */
  predicate ForwardStillBound(current: Recovery, parent: Dispatch, r: Recovery) {
    && current.state == RecoveryPending && current.digest == r.digest && DigestOf(parent.t) == r.parent
    && parent.installed.revision == r.expected && AllowedWorldForward(parent, r.target)
  }

  /** finishForward: `verified` is Runtime's verdict and `proof` whether its proof row exists. */
  function FinishForward(db: Db, r: Recovery, verified: bool, proof: bool): (Db, Result<Recovery, Error>) {
    if r.id !in db.recoveries then (db, Err(NotFound))
    else
      match ReadDispatch(db, r.operation)
      case Err(e) => (db, Err(e))
      case Ok(parent) =>
        var current := db.recoveries[r.id];
        if !ReadableRecovery(current) then (db, Err(Progress))
        else if !ForwardStillBound(current, parent, r) then (db, Err(Conflict))
        else if !verified then
          var done := current.(state := RecoveryFailed);
          (db.(recoveries := db.recoveries[r.id := done]), Ok(done))
        else if !proof then (db, Err(Progress))
        else if parent.installed.version != r.version || parent.installed.state != Installed then (db, Err(Conflict))
        else if parent.installed.revision >= MAX_INT64 then (db, Err(OutOfRange))
        else
          var done := current.(state := RecoverySucceeded);
          var i := parent.installed.(version := r.target.appVersion, revision := parent.installed.revision + 1);
          (db.(installations := db.installations[parent.t.installation := i],
               transitions := db.transitions[r.operation := parent.t.(status := TFailed, phase := PCompleted)],
               recoveries := db.recoveries[r.id := done]), Ok(done))
  }
}
