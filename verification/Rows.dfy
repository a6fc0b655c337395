/** The rows of one Station's database, and the inputs that reach them. */
module Rows {
  import opened Common
  import opened TransitionVersions
  import opened Releases

  /** Identifiers are only compared, and ordered by the transition cursor. */
  type Uuid = nat

  datatype Error =
    | Denied | Invalid | Conflict | NotFound | Busy | Progress | OutOfRange
    | ReleaseUnverified | BindingChanged | DispatchUnsupported | ReleaseUnavailable | Unavailable

  datatype Identity = Identity(user: string, org: string, station: string, admin: bool, canRead: bool, canManage: bool)

  /** A registered release of a preinstalled App. */
  datatype Binding = Binding(releaseRef: string, appId: string, appVersion: string,
                             packageDigest: string, chartDigest: string, templateDigest: string)

  predicate IsReleaseIdent(s: string) {
    1 <= |s| <= 63 && IsName(s)
  }

  predicate ValidBinding(b: Binding) {
    && IsReleaseIdent(b.releaseRef) && IsReleaseIdent(b.appId)
    && (var parts := Split(b.appVersion, '.'); |parts| == 3 && forall i :: 0 <= i < 3 ==> IsCanonicalNumber(parts[i]))
    && IsDigest(b.packageDigest) && IsDigest(b.chartDigest) && IsDigest(b.templateDigest)
  }

  // ---------- Lifecycle commands ----------

  datatype Action = Install | Upgraded | Start | Stop | Restart | Delete | Adopt | Unsupported

  datatype Command = Command(expectedWorkload: string, requestId: string, key: string, org: string, station: string,
                             app: string, version: string, action: Action)

  datatype Expected = Expected(installation: Option<Uuid>, revision: Option<int>, version: string,
                               releaseDigest: Option<string>, workload: Option<string>, policy: string)

  datatype AppCenterCommand = AppCenterCommand(command: Command, expected: Expected)

  datatype Execution = Execution(app: string, version: string, action: Action, schema: int, releaseDigest: string,
                                 templateDigest: string, policy: string, workload: string)

  /** What a caller submits. The admission and history fields are the answers of readers that Core consults. */
  datatype Request =
    | Plain(plain: Command)
    | Preinstalled(adopting: Command, release: Binding, inventory: string, reinstall: string, history: Option<Error>)
    | AppCenter(input: AppCenterCommand, admission: Result<Execution, Error>)

  function CommandOf(q: Request): Command {
    match q
    case Plain(c) => c
    case Preinstalled(c, _, _, _, _) => c
    case AppCenter(input, _) => input.command
  }

  /** SHA-256 over the JSON of a request, as an injective value: the digest of a thing is the thing. */
  datatype RequestHash =
    | CommandHash(c: Command)
    | PreinstalledHash(adopting: Command, release: Binding, inventory: string, reinstall: string)
    | AppCenterHash(input: AppCenterCommand)

  function Untraced(c: Command): Command {
    c.(requestId := "")
  }

  function HashOf(q: Request): RequestHash {
    match q
    case Plain(c) => CommandHash(Untraced(c))
    case Preinstalled(c, release, inventory, reinstall, _) => PreinstalledHash(Untraced(c), release, inventory, reinstall)
    case AppCenter(input, _) => AppCenterHash(input.(command := Untraced(input.command)))
  }

  datatype OperationStatus = Accepted | Running | Succeeded | Failed

  datatype OperationPhase =
    | Checking | Downloading | Verifying | Installing | Starting | Warming | Stopping | Deleting | Completed | UnknownPhase

  datatype Operation = Operation(
    id: Uuid, requestId: string, user: string, org: string, app: string, version: string, action: Action,
    status: OperationStatus, phase: OperationPhase, key: string, hash: RequestHash, workload: string,
    installation: Option<Uuid>)

  predicate Active(o: Operation) {
    o.status == Accepted || o.status == Running
  }

  // ---------- Installations ----------

  datatype InstallState = Pending | Installed | InstallFailed | Removed

  datatype Installation = Installation(
    id: Uuid, app: string, version: string, org: string, state: InstallState, revision: int, lastOperation: Option<Uuid>)

  // ---------- Managed transitions ----------

  datatype TransitionCommand = TransitionCommand(
    requestId: string, key: string, installation: Uuid, expected: int, sourceVersion: string, targetRef: string,
    action: TransitionAction)

  datatype TransitionStatus = TAccepted | TRunning | TSucceeded | TFailed | TRecoveryRequired

  datatype Phase =
    | PAccepted | PChecking | PSealing | PApplying | PVerifying | PPublishing
    | PReleasing | PRestoring | PRecoveryRequired | PCompleted

  datatype Transition = Transition(
    id: Uuid, installation: Uuid, user: string, org: string, app: string, key: string, hash: TransitionCommand,
    action: TransitionAction, expected: int, source: Snapshot, target: Snapshot, status: TransitionStatus, phase: Phase)

  predicate Terminal(t: Transition) {
    t.status == TSucceeded || t.status == TFailed
  }

  /** The digest that binds every Runtime call to the accepted input. */
  datatype InputDigest = InputDigest(operation: Uuid, installation: Uuid, org: string, user: string, expected: int,
                                     source: Snapshot, target: Snapshot)

  function DigestOf(t: Transition): InputDigest {
    InputDigest(t.id, t.installation, t.org, t.user, t.expected, t.source, t.target)
  }

  // ---------- Forward recoveries ----------

  datatype ForwardCommand = ForwardCommand(requestId: string, key: string, operation: Uuid, expected: int, targetRef: string)

  datatype RecoveryState = RecoveryPending | RecoverySucceeded | RecoveryFailed

  datatype ForwardDigest = ForwardDigest(recovery: Uuid, parent: InputDigest, expected: int, version: string, target: Snapshot)

  datatype Recovery = Recovery(
    id: Uuid, operation: Uuid, user: string, org: string, key: string, hash: ForwardCommand, expected: int,
    version: string, parent: InputDigest, target: Snapshot, digest: ForwardDigest, state: RecoveryState)

  // ---------- The database ----------

  datatype Db = Db(
    installations: map<Uuid, Installation>,
    operations: map<Uuid, Operation>,
    operationBindings: map<Uuid, Binding>,
    installationBindings: map<Uuid, Binding>,
    inputs: map<Uuid, (AppCenterCommand, Execution)>,
    transitions: map<Uuid, Transition>,
    recoveries: map<Uuid, Recovery>)

  const EMPTY := Db(map[], map[], map[], map[], map[], map[], map[])

  /** Why an older release binding may be replaced on adoption: never, always, or after one managed upgrade. */
  datatype Chain = Unrelated | Direct | Proven(source: Snapshot, target: Snapshot)

  /** Server configuration: the Station, the catalog, and the registered historical adoptions. */
  datatype Env = Env(
    station: string,
    catalog: map<string, string>,
    isUuid: string -> bool,
    chain: (string, Binding, Binding) -> Chain)

  // ---------- Row lookups ----------

  /** The row, or one of the rows, a query for the App's current installation returns. */
  predicate IsCurrent(db: Db, app: string, cur: Option<Uuid>) {
    match cur
    case None => forall i :: i in db.installations ==> db.installations[i].app == app ==> db.installations[i].state == Removed
    case Some(id) => id in db.installations && db.installations[id].app == app && db.installations[id].state != Removed
  }

  predicate SameKey(o: Operation, user: string, org: string, key: string) {
    o.user == user && o.org == org && o.key == key
  }

  predicate IsReplay(db: Db, user: string, org: string, key: string, replay: Option<Uuid>) {
    match replay
    case None => forall i :: i in db.operations ==> !SameKey(db.operations[i], user, org, key)
    case Some(id) => id in db.operations && SameKey(db.operations[id], user, org, key)
  }

  predicate OperationBusy(db: Db, app: string) {
    exists i :: i in db.operations && db.operations[i].app == app && Active(db.operations[i])
  }

  predicate TransitionBusyForApp(db: Db, app: string) {
    exists i :: i in db.transitions && db.transitions[i].app == app && !Terminal(db.transitions[i])
  }

  predicate TransitionBusyForInstallation(db: Db, installation: Uuid) {
    exists i :: i in db.transitions && db.transitions[i].installation == installation && !Terminal(db.transitions[i])
  }

  predicate RecoveryPendingFor(db: Db, operation: Uuid) {
    exists i :: i in db.recoveries && db.recoveries[i].operation == operation && db.recoveries[i].state == RecoveryPending
  }
}
