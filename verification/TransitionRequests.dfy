/** Which transitions and forward recoveries are accepted, what a repeated key answers, and how a recovery ends. */
module TransitionRequests {
  import opened Common
  import opened TransitionVersions
  import opened Releases
  import opened Rows
  import opened Lifecycle
  import opened Transitions
  import opened Interleaving
  import opened OperationsInvariant
  import opened OperationsLifecycleSteps
  import opened OperationsTransitionSteps
  import opened OperationsRuns
  import opened OperationsTheorems
  import opened TransitionAnswers

  // ---------- Managed transitions ----------

  predicate MayManage(env: Env, u: Identity) {
    u.station == env.station && u.admin && u.canManage
  }

  predicate IsTransitionCommand(c: TransitionCommand) {
    && 0 < |c.requestId| < 129 && 7 < |c.key| < 129 && c.expected >= 1 && |c.sourceVersion| <= 64
    && IsName(c.targetRef) && (var parts := Split(c.sourceVersion, '.');
                               |parts| == 3 && forall p :: p in parts ==> IsCanonicalNumber(p))
  }

  /** Version parts as numbers, the earlier ones weighing more. */
  predicate Above(a: seq<nat>, b: seq<nat>)
    requires |a| == |b| == 3
  {
    a[0] > b[0] || (a[0] == b[0] && (a[1] > b[1] || (a[1] == b[1] && a[2] > b[2])))
  }

  lemma OrderIsAbove(a: seq<nat>, b: seq<nat>)
    requires |a| == |b| == 3
    ensures NumbersOrder(a, b) > 0 <==> Above(a, b)
    ensures NumbersOrder(a, b) < 0 <==> Above(b, a)
  {
    var x, y := a[1..], b[1..];
    assert NumbersOrder(x[1..], y[1..]) == (if x[1] != y[1] then Sign((x[1] as int) - (y[1] as int)) else 0) by {
      assert x[1..] == [x[1]] && y[1..] == [y[1]] && [x[1]][1..] == [] && [y[1]][1..] == [];
    }
  }

  /** Another release of the same App and data, in the direction that was asked for, that knows every worker of the source. */
  predicate Replaces(action: TransitionAction, source: Snapshot, target: Snapshot)
    requires ValidSnapshot(source) && ValidSnapshot(target)
  {
    && source.appId == target.appId && source.releaseRef != target.releaseRef
    && source.dataContract == target.dataContract && source.releaseKind == target.releaseKind
    && (forall v :: v in Workers(source) ==> v in Workers(target))
    && var from, to := Numbers(Split(source.appVersion, '.')), Numbers(Split(target.appVersion, '.'));
       if action == Upgrade then Above(to, from) else Above(from, to)
  }

  lemma CompatibleReplaces(action: TransitionAction, app: string, installed: string, sourceVersion: string, targetRef: string,
                           source: Snapshot, target: Snapshot)
    ensures Compatible(action, app, installed, sourceVersion, targetRef, source, target) <==>
      && ValidSnapshot(source) && ValidSnapshot(target) && Replaces(action, source, target)
      && source.appId == app && source.appVersion == installed && sourceVersion == installed && target.releaseRef == targetRef
  {
    hide IsName, IsDigest, Split, Numbers, Workers, NumbersOrder, Above;
    if ValidSnapshot(source) && ValidSnapshot(target) {
      OrderIsAbove(Numbers(Split(target.appVersion, '.')), Numbers(Split(source.appVersion, '.')));
    }
  }

  /** Every accepted transition replaces one release by another of the same App, in every reachable world. */
  lemma EveryTransitionReplaces(env: Env, w: World, id: Uuid)
    requires Reachable(env, w) && id in w.db.transitions
    ensures var t := w.db.transitions[id];
      ValidSnapshot(t.source) && ValidSnapshot(t.target) && Replaces(t.action, t.source, t.target) && t.source.appId == t.app
  {
    hide Reachable, ValidSnapshot, Replaces, Compatible;
    ReachableSatisfiesInvariant(env, w);
    var t := w.db.transitions[id];
    AnyTransition(env, w, id);
    hide Inv;
    CompatibleReplaces(t.action, t.app, t.source.appVersion, t.source.appVersion, t.target.releaseRef, t.source, t.target);
  }

  lemma AnyTransition(env: Env, w: World, id: Uuid)
    requires Inv(env, w) && id in w.db.transitions
    ensures TransitionOk(w.db, w.db.transitions[id]) && w.db.transitions[id].id == id
  {
    hide OperationsOk, RecoveriesOk, Exclusion, Ledger, KeysUnique, FlightsOk, TransitionOk;
  }

  /** The installation is as the command expects it, and nothing is at work on its App. */
  ghost predicate Idle(db: Db, u: Identity, c: TransitionCommand) {
    && c.installation in db.installations
    && var i := db.installations[c.installation];
       && i.org == u.org && i.state == Installed && i.revision == c.expected && i.version == c.sourceVersion
       && (forall o :: o in db.operations && db.operations[o].app == i.app ==> db.operations[o].status in {Succeeded, Failed})
       && (forall t :: t in db.transitions && db.transitions[t].app == i.app ==> db.transitions[t].phase == PCompleted)
  }

  /** No accepted transition uses the name of this release for anything else. */
  ghost predicate Unclaimed(db: Db, s: Snapshot) {
    forall t, x :: t in db.transitions && x in {db.transitions[t].source, db.transitions[t].target} ==>
      x.releaseRef == s.releaseRef ==> x == s
  }

  /** The whole condition under which a new transition is accepted. */
  ghost predicate Acceptable(env: Env, db: Db, u: Identity, c: TransitionCommand, releases: Result<(Snapshot, Snapshot), Error>) {
    && MayManage(env, u) && IsTransitionCommand(c) && Idle(db, u, c) && releases.Ok?
    && var (source, target) := releases.value;
       && ValidSnapshot(source) && ValidSnapshot(target) && Replaces(c.action, source, target)
       && source.appId == db.installations[c.installation].app && source.appVersion == c.sourceVersion
       && target.releaseRef == c.targetRef && Unclaimed(db, source) && Unclaimed(db, target)
  }

  lemma CommandIsValid(c: TransitionCommand)
    ensures ValidTransitionCommand(c) <==> IsTransitionCommand(c)
  {
    hide Split, IsCanonicalNumber, IsName;
    var parts := Split(c.sourceVersion, '.');
    assert |parts| == 3 ==> parts == [parts[0], parts[1], parts[2]];
  }

  lemma IdleIsFree(env: Env, w: World, u: Identity, c: TransitionCommand)
    requires Inv(env, w) && c.installation in w.db.installations
    ensures var i := w.db.installations[c.installation];
      Idle(w.db, u, c) <==>
        && i.org == u.org && i.state == Installed && i.revision == c.expected && i.version == c.sourceVersion
        && !OperationBusy(w.db, i.app) && !TransitionBusyForInstallation(w.db, c.installation)
  {
    hide OperationsOk, RecoveriesOk, Ledger, KeysUnique, FlightsOk, Compatible, OneOperationPerApp, OneTransitionPerApp,
         OperationExcludesTransition;
    var db, i := w.db, w.db.installations[c.installation];
    forall t | t in db.transitions ensures TransitionOk(db, db.transitions[t]) { }
    if i.state == Installed && !TransitionBusyForInstallation(db, c.installation) {
      forall t | t in db.transitions && db.transitions[t].app == i.app ensures Terminal(db.transitions[t]) {
        assert TransitionOk(db, db.transitions[t]);
      }
    }
  }

  lemma UnclaimedIsRetained(db: Db, s: Snapshot)
    ensures Unclaimed(db, s) <==> Retained(db, s)
  {
    if Unclaimed(db, s) {
      forall i | i in db.transitions
        ensures (db.transitions[i].source.releaseRef == s.releaseRef ==> db.transitions[i].source == s)
                && (db.transitions[i].target.releaseRef == s.releaseRef ==> db.transitions[i].target == s)
      {
        assert db.transitions[i].source in {db.transitions[i].source, db.transitions[i].target};
      }
    }
  }

  /**
   * In every reachable world a new transition is accepted exactly under this
   * condition, and acceptance inserts its row and touches nothing else.
   */
  lemma TransitionIsAcceptedExactlyWhen(env: Env, w: World, s: Step)
    requires Reachable(env, w) && Enabled(w, s) && s.TransitionStep? && s.replay.None?
    ensures var r, next := SubmitTransition(env, w.db, s.u, s.c, None, s.releases, s.newId).1, Next(env, w, s);
      && (r.Ok? <==> Acceptable(env, w.db, s.u, s.c, s.releases))
      && (!MayManage(env, s.u) ==> r == Err(Denied)) && (MayManage(env, s.u) && !IsTransitionCommand(s.c) ==> r == Err(Invalid))
      && if r.Err? then next == w
         else
           var c, i := s.c, w.db.installations[s.c.installation];
           && r.value == Transition(s.newId, c.installation, s.u.user, s.u.org, i.app, c.key, c.(requestId := ""), c.action,
                                    i.revision, s.releases.value.0, s.releases.value.1, TAccepted, PAccepted)
           && next == w.(db := w.db.(transitions := w.db.transitions[s.newId := r.value]))
  {
    hide Reachable, Inv, ValidTransitionCommand, IsTransitionCommand, Idle, OperationBusy, TransitionBusyForInstallation,
         Compatible, Replaces, ValidSnapshot, Unclaimed, Retained;
    ReachableSatisfiesInvariant(env, w);
    CommandIsValid(s.c);
    IdleVersion(w.db, s.u, s.c);
    if s.c.installation in w.db.installations { IdleIsFree(env, w, s.u, s.c); }
    if s.releases.Ok? && s.c.installation in w.db.installations {
      var (source, target) := s.releases.value;
      var i := w.db.installations[s.c.installation];
      CompatibleReplaces(s.c.action, i.app, i.version, s.c.sourceVersion, s.c.targetRef, source, target);
      UnclaimedIsRetained(w.db, source);
      UnclaimedIsRetained(w.db, target);
    }
  }

  lemma IdleVersion(db: Db, u: Identity, c: TransitionCommand)
    ensures Idle(db, u, c) ==> c.installation in db.installations && db.installations[c.installation].version == c.sourceVersion
  {
  }

  /** The same request, apart from the identifier it is traced by. */
  predicate SameTransition(a: TransitionCommand, b: TransitionCommand) {
    && a.key == b.key && a.installation == b.installation && a.expected == b.expected && a.sourceVersion == b.sourceVersion
    && a.targetRef == b.targetRef && a.action == b.action
  }

  /**
   * After any run a used key answers with the one transition it began, as it is
   * now, exactly to the same request, and with a conflict to any other. Neither
   * changes anything.
   */
  lemma TransitionKeyAnswers(env: Env, w: World, s: Step, steps: seq<Step>, again: Step)
    requires Reachable(env, w) && Enabled(w, s) && s.TransitionStep? && s.replay.None?
    requires SubmitTransition(env, w.db, s.u, s.c, None, s.releases, s.newId).1.Ok?
    requires IsRun(env, Next(env, w, s), steps) && Enabled(After(env, Next(env, w, s), steps), again)
    requires again.TransitionStep? && again.u.user == s.u.user && again.u.org == s.u.org && again.c.key == s.c.key
    ensures var last := After(env, Next(env, w, s), steps).db;
      && s.newId in last.transitions && again.replay == Some(s.newId)
      && SubmitTransition(env, last, again.u, again.c, again.replay, again.releases, again.newId)
         == (last, if !MayManage(env, again.u) then Err(Denied)
                   else if !IsTransitionCommand(again.c) then Err(Invalid)
                   else if SameTransition(again.c, s.c) then Ok(last.transitions[s.newId])
                   else Err(Conflict))
  {
    hide Reachable, Inv, Next, SubmitTransition, IsRun, After, Acceptable, MayManage, IsTransitionCommand, Progressed;
    ReachableSatisfiesInvariant(env, w);
    TransitionIsAcceptedExactlyWhen(env, w, s);
    StepKeepsInvariant(env, w, s);
    var begun := Next(env, w, s);
    RunKeepsInvariant(env, begun, steps);
    RunProgresses(env, begun, steps, s.newId);
    var last := After(env, begun, steps);
    ProgressedInput(begun.db.transitions[s.newId], last.db.transitions[s.newId]);
    KeysOf(env, last);
    assert SameTransitionKey(last.db.transitions[s.newId], s.u.user, s.u.org, s.c.key);
    AnyTransition(env, last, s.newId);
    TransitionReplayAnswer(env, last.db, again, s.newId, s.c);
  }

  lemma ProgressedInput(t: Transition, t': Transition)
    requires Progressed(t, t')
    ensures t' == t.(status := t'.status, phase := t'.phase)
  {
  }

  lemma TransitionReplayAnswer(env: Env, db: Db, again: Step, id: Uuid, c: TransitionCommand)
    requires again.TransitionStep? && again.replay == Some(id) && id in db.transitions && again.c.key == c.key
    requires db.transitions[id].hash == c.(requestId := "") && TransitionOk(db, db.transitions[id])
    ensures SubmitTransition(env, db, again.u, again.c, again.replay, again.releases, again.newId)
            == (db, if !MayManage(env, again.u) then Err(Denied)
                    else if !IsTransitionCommand(again.c) then Err(Invalid)
                    else if SameTransition(again.c, c) then Ok(db.transitions[id])
                    else Err(Conflict))
  {
    CommandIsValid(again.c);
    hide ValidTransitionCommand, IsTransitionCommand, ValidSnapshot, AcceptTransition, StatusMatchesPhase, Holds;
  }

  // ---------- Forward recoveries ----------

  predicate MayRecover(env: Env, u: Identity) {
    u.station == env.station && u.admin && u.canManage && u.canRead
  }

  predicate IsForwardCommand(env: Env, c: ForwardCommand) {
    env.isUuid(c.requestId) && 7 < |c.key| < 129 && c.expected >= 1 && IsName(c.targetRef)
  }

  /** A transition of World from 0.1.4 to 0.1.5 that could not be completed, with 0.1.4 still installed. */
  ghost predicate Stuck(db: Db, operation: Uuid) {
    && operation in db.transitions && var t := db.transitions[operation];
    && t.app == "world" && t.source.appVersion == "0.1.4" && t.target.appVersion == "0.1.5"
    && t.source.releaseKind == "dashboard-release" && t.phase in {PRestoring, PRecoveryRequired}
    && t.expected <= MAX_INT64 - 2
  }

  /** The whole condition under which a new forward recovery is accepted. */
  ghost predicate Recoverable(env: Env, db: Db, u: Identity, c: ForwardCommand, releases: Result<(Snapshot, Snapshot), Error>) {
    && MayRecover(env, u) && IsForwardCommand(env, c) && Stuck(db, c.operation) && releases.Ok?
    && var t, (source, target) := db.transitions[c.operation], releases.value;
       && t.user == u.user && t.org == u.org && t.expected == c.expected && source == t.source
       && target.appId == "world" && target.appVersion == "0.1.6" && target.releaseKind == "dashboard-release" && ValidSnapshot(target)
       && Unclaimed(db, target)
       && forall r :: r in db.recoveries && db.recoveries[r].operation == c.operation ==> db.recoveries[r].state != RecoveryPending
  }

  lemma ParentIsRead(env: Env, w: World, id: Uuid)
    requires Inv(env, w) && id in w.db.transitions
    requires !Terminal(w.db.transitions[id]) && w.db.transitions[id].expected <= MAX_INT64 - 2
    ensures var t := w.db.transitions[id];
      t.installation in w.db.installations && ReadDispatch(w.db, id) == Ok(Dispatch(t, w.db.installations[t.installation]))
  {
    hide Inv;
    UnfinishedFacts(env, w, id);
    hide Compatible, Holds;
  }

  /** Neither an operation nor a second release name can stand against an unfinished transition. */
  lemma ParentIsAlone(env: Env, w: World, id: Uuid)
    requires Inv(env, w) && id in w.db.transitions && !Terminal(w.db.transitions[id])
    ensures !OperationBusy(w.db, w.db.transitions[id].app) && Retained(w.db, w.db.transitions[id].source)
  {
    hide OperationsOk, TransitionsOk, RecoveriesOk, KeysUnique, FlightsOk, OneInstallationPerApp, OneOperationPerApp,
         OneTransitionPerApp, KeyedRows;
    forall i | i in w.db.transitions
      ensures Agree(w.db.transitions[i].source, w.db.transitions[id].source)
              && Agree(w.db.transitions[i].target, w.db.transitions[id].source)
    {
    }
  }

  lemma StuckIsAllowed(env: Env, w: World, op: Uuid, target: Snapshot)
    requires Inv(env, w) && op in w.db.transitions && !Terminal(w.db.transitions[op])
    requires w.db.transitions[op].installation in w.db.installations && w.db.transitions[op].expected <= MAX_INT64 - 2
    ensures var t := w.db.transitions[op];
      AllowedWorldForward(Dispatch(t, w.db.installations[t.installation]), target) <==>
        && Stuck(w.db, op) && target.appId == "world" && target.appVersion == "0.1.6"
        && target.releaseKind == "dashboard-release" && ValidSnapshot(target)
    ensures var t := w.db.transitions[op];
      t.source.appId == t.app
      && (Stuck(w.db, op) ==> w.db.installations[t.installation].revision == t.expected)
  {
    hide Inv;
    UnfinishedFacts(env, w, op);
    hide ValidSnapshot, VersionOrder, Workers;
  }

  /** In every reachable world a new forward recovery is accepted exactly under this condition; only its row is inserted. */
  lemma RecoveryIsAcceptedExactlyWhen(env: Env, w: World, s: Step)
    requires Reachable(env, w) && Enabled(w, s) && s.AcceptForwardStep? && s.replay.None?
    ensures var r, next := AcceptForward(env, w.db, s.u, s.f, None, s.releases, s.newId).1, Next(env, w, s).db;
      && (r.Ok? <==> Recoverable(env, w.db, s.u, s.f, s.releases))
      && (!MayRecover(env, s.u) ==> r == Err(Denied)) && (MayRecover(env, s.u) && !IsForwardCommand(env, s.f) ==> r == Err(Invalid))
      && if r.Err? then next == w.db
         else
           && r.value.id == s.newId && r.value.operation == s.op && r.value.user == s.u.user && r.value.org == s.u.org
           && r.value.key == s.f.key && r.value.hash == s.f.(requestId := "") && r.value.target == s.releases.value.1
           && r.value.state == RecoveryPending && next == w.db.(recoveries := w.db.recoveries[s.newId := r.value])
  {
    hide Reachable, Inv, ValidSnapshot, Stuck, AllowedWorldForward, OperationBusy, Retained, Unclaimed, ReadDispatch, Terminal;
    ReachableSatisfiesInvariant(env, w);
    ForwardParent(env, w, s.f.operation);
    if ReadDispatch(w.db, s.f.operation).Ok? && s.releases.Ok? {
      var t := w.db.transitions[s.f.operation];
      UnclaimedIsRetained(w.db, s.releases.value.1);
      if !Terminal(t) {
        ParentIsRead(env, w, s.f.operation);
        ParentIsAlone(env, w, s.f.operation);
        StuckIsAllowed(env, w, s.f.operation, s.releases.value.1);
      } else {
        FinishedIsNotAllowed(w.db, s.f.operation, t, s.releases.value.1);
      }
    }
  }

  /** What can be read of the parent of a recovery. */
  lemma ForwardParent(env: Env, w: World, op: Uuid)
    requires Inv(env, w)
    ensures Stuck(w.db, op) ==> ReadDispatch(w.db, op).Ok? && !Terminal(w.db.transitions[op])
    ensures ReadDispatch(w.db, op).Ok? ==>
      && op in w.db.transitions && w.db.transitions[op].id == op && ReadDispatch(w.db, op).value.t == w.db.transitions[op]
      && w.db.transitions[op].expected <= MAX_INT64 - 2 && StatusMatchesPhase(w.db.transitions[op])
  {
    hide Inv, ReadDispatch;
    if op in w.db.transitions { AnyTransition(env, w, op); }
    if Stuck(w.db, op) { ParentIsRead(env, w, op); }
    if ReadDispatch(w.db, op).Ok? { ReadDispatchRows(w.db, op); ReadIsReadable(w.db, op); }
  }

  lemma ReadIsReadable(db: Db, op: Uuid)
    requires ReadDispatch(db, op).Ok?
    ensures op in db.transitions && db.transitions[op].expected <= MAX_INT64 - 2
  {
    hide Compatible;
  }

  lemma FinishedIsNotAllowed(db: Db, op: Uuid, t: Transition, target: Snapshot)
    requires Terminal(t) && op in db.transitions && t == db.transitions[op] && StatusMatchesPhase(t)
    ensures forall i :: !AllowedWorldForward(Dispatch(t, i), target)
    ensures !Stuck(db, op)
  {
  }

  // ---------- The keys of forward recoveries ----------

  ghost predicate RecoveryKeysUnique(db: Db) {
    forall i, j | i in db.recoveries && j in db.recoveries
      :: SameRecoveryKey(db.recoveries[i], db.recoveries[j].user, db.recoveries[j].org, db.recoveries[j].key) ==> i == j
  }

  /** A step keeps every recovery but for its state, and adds at most one, under a new key. */
  ghost predicate RecoveriesGrow(db: Db, next: Db) {
    && (forall r :: r in db.recoveries ==>
          r in next.recoveries && next.recoveries[r] == db.recoveries[r].(state := next.recoveries[r].state))
    && (RecoveryKeysUnique(db) ==> RecoveryKeysUnique(next))
  }

  lemma SameRecoveriesGrow(db: Db, next: Db)
    requires next.recoveries == db.recoveries
    ensures RecoveriesGrow(db, next)
  {
  }

  lemma StepGrowsRecoveries(env: Env, w: World, s: Step)
    requires Inv(env, w) && Enabled(w, s)
    ensures RecoveriesGrow(w.db, Next(env, w, s).db)
  {
    hide DbOk, FlightsOk, Submit, DispatchOne, SubmitTransition, CommitFlight, AcceptForward, FinishForward, CheckDispatch,
         RecoveryPendingFor, RecoveriesGrow;
    var next := Next(env, w, s).db;
    match s {
      case AcceptForwardStep(op, u, f, replay, releases, newId) => AcceptGrows(env, w.db, u, f, replay, releases, newId);
      case FinishForwardStep(op, verified, proof) =>
        RecoveringFlight(w, op);
        FinishGrows(env, w.db, w.flights[op].recovery, verified, proof);
      case SubmitStep(u, q, replay, cur, op, newId) =>
        SubmitLeavesRecoveries(env, w.db, u, q, replay, cur, op, newId);
        SameRecoveriesGrow(w.db, next);
      case DispatchStep(op, canCallBound, answer) =>
        DispatchLeavesRecoveries(env, w.db, op, canCallBound, answer);
        SameRecoveriesGrow(w.db, next);
      case TransitionStep(u, c, replay, releases, newId) =>
        SubmitTransitionKeeps(env, w.db, u, c, replay, releases, newId);
        SameRecoveriesGrow(w.db, next);
      case CommitStep(op, requestId, runtime) =>
        CommitLeavesRecoveries(w.db, w.flights[op].prior, requestId, runtime);
        SameRecoveriesGrow(w.db, next);
      case _ => SameRecoveriesGrow(w.db, next);
    }
  }

  lemma CommitLeavesRecoveries(db: Db, prior: Dispatch, requestId: Uuid, a: RuntimeAnswer)
    ensures CommitFlight(db, prior, requestId, a).recoveries == db.recoveries
  {
    hide Decide, Readable;
  }

  lemma SubmitLeavesRecoveries(env: Env, db: Db, u: Identity, q: Request, replay: Option<Uuid>, cur: Option<Uuid>, op: Uuid, newId: Uuid)
    requires DbOk(env, db) && Enabled(World(db, map[]), SubmitStep(u, q, replay, cur, op, newId))
    ensures Submit(env, db, u, q, replay, cur, op, newId).0.recoveries == db.recoveries
  {
    hide CheckCommand, OperationsOk, TransitionsOk, RecoveriesOk, Exclusion, Ledger, KeysUnique, Accept, ClaimAllowed, NewOperation;
    if CheckCommand(env, u, q).None? && replay.None? && Accept(env, db, u, q, cur, op, newId).Ok? {
      var o, i := AcceptTouches(env, db, u, q, cur, op, newId);
    }
  }

  lemma DispatchLeavesRecoveries(env: Env, db: Db, op: Uuid, canCallBound: bool, a: Answer)
    requires DbOk(env, db) && op in db.operations && Active(db.operations[op])
    ensures DispatchOne(env, db, op, canCallBound, a).0.recoveries == db.recoveries
  {
    hide OperationsOk, TransitionsOk, RecoveriesOk, Exclusion, Ledger, KeysUnique, DispatchOne, RowChanged;
    FailedDispatchChangesNothing(env, db, op, canCallBound, a);
    if DispatchOne(env, db, op, canCallBound, a).1.Ok? {
      ReportTouches(env, db, op, canCallBound, a);
    }
  }

  lemma AcceptGrows(env: Env, db: Db, u: Identity, c: ForwardCommand, replay: Option<Uuid>,
                    releases: Result<(Snapshot, Snapshot), Error>, id: Uuid)
    requires IsRecoveryReplay(db, u.user, u.org, c.key, replay) && id !in db.recoveries
    ensures RecoveriesGrow(db, AcceptForward(env, db, u, c, replay, releases, id).0)
  {
    hide NewRecovery, ReadableRecovery, RecoveriesGrow, CanRecover, ValidForwardCommand;
    var next := AcceptForward(env, db, u, c, replay, releases, id).0;
    if replay.None? && NewRecovery(db, u, c, releases, id).Ok? {
      NewRecoveryRow(db, u, c, releases, id);
      if next != db { InsertedGrows(db, next, id, NewRecovery(db, u, c, releases, id).value, u, c.key); }
    }
    if next == db { SameRecoveriesGrow(db, next); }
  }

  lemma InsertedGrows(db: Db, next: Db, id: Uuid, r: Recovery, u: Identity, key: string)
    requires id !in db.recoveries && next.recoveries == db.recoveries[id := r] && SameRecoveryKey(r, u.user, u.org, key)
    requires IsRecoveryReplay(db, u.user, u.org, key, None)
    ensures RecoveriesGrow(db, next)
  {
  }

  lemma SettledGrows(db: Db, next: Db, r: Recovery, state: RecoveryState)
    requires r.id in db.recoveries && db.recoveries[r.id] == r && next.recoveries == db.recoveries[r.id := r.(state := state)]
    ensures RecoveriesGrow(db, next)
  {
  }

  lemma NewRecoveryRow(db: Db, u: Identity, c: ForwardCommand, releases: Result<(Snapshot, Snapshot), Error>, id: Uuid)
    requires NewRecovery(db, u, c, releases, id).Ok?
    ensures SameRecoveryKey(NewRecovery(db, u, c, releases, id).value, u.user, u.org, c.key)
  {
    hide ReadDispatch, AllowedWorldForward, OperationBusy, RecoveryPendingFor, Retained;
  }

  lemma FinishGrows(env: Env, db: Db, r: Recovery, verified: bool, proof: bool)
    requires DbOk(env, db) && r.id in db.recoveries && db.recoveries[r.id] == r && r.state == RecoveryPending
    ensures RecoveriesGrow(db, FinishForward(db, r, verified, proof).0)
  {
    hide DbOk, FinishForward, ReadDispatch, RecoveriesGrow, Moves;
    FinishTouches(env, db, r, verified, proof);
    var next := FinishForward(db, r, verified, proof).0;
    if verified && !proof {
      SameRecoveriesGrow(db, next);
    } else {
      SettledGrows(db, next, r, if verified then RecoverySucceeded else RecoveryFailed);
    }
  }

  lemma {:induction false} RunGrowsRecoveries(env: Env, w: World, steps: seq<Step>)
    requires Inv(env, w) && IsRun(env, w, steps)
    ensures RecoveriesGrow(w.db, After(env, w, steps).db)
    decreases |steps|
  {
    hide Inv, Next, RecoveriesGrow;
    if steps == [] {
      SameRecoveriesGrow(w.db, w.db);
    } else {
      StepGrowsRecoveries(env, w, steps[0]);
      StepKeepsInvariant(env, w, steps[0]);
      RunGrowsRecoveries(env, Next(env, w, steps[0]), steps[1..]);
      GrowthChains(w.db, Next(env, w, steps[0]).db, After(env, w, steps).db);
    }
  }

  lemma GrowthChains(a: Db, b: Db, c: Db)
    requires RecoveriesGrow(a, b) && RecoveriesGrow(b, c)
    ensures RecoveriesGrow(a, c)
  {
    hide RecoveryKeysUnique;
  }

  /** In every reachable world an idempotency key names at most one forward recovery. */
  lemma RecoveryKeysAreUnique(env: Env, w: World)
    requires Reachable(env, w)
    ensures RecoveryKeysUnique(w.db)
  {
    hide Inv;
    var steps :| IsRun(env, INITIAL, steps) && After(env, INITIAL, steps) == w;
    InitialSatisfiesInvariant(env);
    RunGrowsRecoveries(env, INITIAL, steps);
  }

  predicate SameForward(a: ForwardCommand, b: ForwardCommand) {
    a.key == b.key && a.operation == b.operation && a.expected == b.expected && a.targetRef == b.targetRef
  }

  /** A used key answers with its recovery, as it is now, exactly to the same request, and with a conflict to any other. */
  lemma RecoveryKeyAnswers(env: Env, w: World, s: Step, steps: seq<Step>, again: Step)
    requires Reachable(env, w) && Enabled(w, s) && s.AcceptForwardStep? && s.replay.None?
    requires AcceptForward(env, w.db, s.u, s.f, None, s.releases, s.newId).1.Ok?
    requires IsRun(env, Next(env, w, s), steps) && Enabled(After(env, Next(env, w, s), steps), again)
    requires again.AcceptForwardStep? && again.u.user == s.u.user && again.u.org == s.u.org && again.f.key == s.f.key
    ensures var last := After(env, Next(env, w, s), steps).db;
      && s.newId in last.recoveries && again.replay == Some(s.newId)
      && AcceptForward(env, last, again.u, again.f, again.replay, again.releases, again.newId)
         == (last, if !MayRecover(env, again.u) then Err(Denied)
                   else if !IsForwardCommand(env, again.f) then Err(Invalid)
                   else if SameForward(again.f, s.f) then Ok(last.recoveries[s.newId])
                   else Err(Conflict))
  {
    hide Reachable, Inv, Next, AcceptForward, IsRun, After, Recoverable, MayRecover, IsForwardCommand;
    ReachableSatisfiesInvariant(env, w);
    RecoveryIsAcceptedExactlyWhen(env, w, s);
    StepKeepsInvariant(env, w, s);
    var begun := Next(env, w, s);
    RunKeepsInvariant(env, begun, steps);
    RunGrowsRecoveries(env, begun, steps);
    ReachableExtends(env, w, s);
    ReachableAfter(env, begun, steps);
    var last := After(env, begun, steps);
    RecoveryKeysAreUnique(env, last);
    assert SameRecoveryKey(last.db.recoveries[s.newId], s.u.user, s.u.org, s.f.key);
    AnyRecovery(env, last, s.newId);
    RecoveryReplayAnswer(env, last.db, again, s.newId, s.f);
  }

  lemma AnyRecovery(env: Env, w: World, id: Uuid)
    requires Inv(env, w) && id in w.db.recoveries
    ensures ReadableRecovery(w.db.recoveries[id])
  {
    hide KeyedRows, OperationsOk, TransitionsOk, Exclusion, Ledger, KeysUnique, FlightsOk, ReadableRecovery, ReadDispatch, ForwardStillBound;
    RecoveryAt(w.db, id);
  }

  lemma RecoveryReplayAnswer(env: Env, db: Db, again: Step, id: Uuid, c: ForwardCommand)
    requires again.AcceptForwardStep? && again.replay == Some(id) && id in db.recoveries && again.f.key == c.key
    requires db.recoveries[id].hash == c.(requestId := "") && ReadableRecovery(db.recoveries[id])
    ensures AcceptForward(env, db, again.u, again.f, again.replay, again.releases, again.newId)
            == (db, if !MayRecover(env, again.u) then Err(Denied)
                    else if !IsForwardCommand(env, again.f) then Err(Invalid)
                    else if SameForward(again.f, c) then Ok(db.recoveries[id])
                    else Err(Conflict))
  {
    hide NewRecovery, ReadableRecovery;
  }

  // ---------- How a recovery ends ----------

  /**
   * A verified recovery with its proof installs 0.1.6 at the next revision and
   * ends the failed transition; a rejected one changes only its own row; without
   * the proof nothing changes.
   */
  lemma RecoveryEndsAs(env: Env, w: World, s: Step)
    requires Reachable(env, w) && Enabled(w, s) && s.FinishForwardStep?
    ensures var db, next, r := w.db, Next(env, w, s).db, w.flights[s.op].recovery;
      && r.id in db.recoveries && r.operation == s.op && s.op in db.transitions
      && db.transitions[s.op].installation in db.installations
      && var t := db.transitions[s.op];
         if !s.verified then next == db.(recoveries := db.recoveries[r.id := r.(state := RecoveryFailed)])
         else if !s.proof then next == db
         else next == db.(
           recoveries := db.recoveries[r.id := r.(state := RecoverySucceeded)],
           transitions := db.transitions[s.op := t.(status := TFailed, phase := PCompleted)],
           installations := db.installations[t.installation :=
             db.installations[t.installation].(version := "0.1.6", revision := t.expected + 1)])
  {
    hide Inv, Reachable, FinishForward, ReadDispatch, Terminal, RecoveryOk;
    ReachableSatisfiesInvariant(env, w);
    PendingFlight(env, w, s.op);
    var r := w.flights[s.op].recovery;
    FinishTouches(env, w.db, r, s.verified, s.proof);
    PendingAt(env, w.db, r);
    PendingRows(env, w, r);
  }

  lemma PendingFlight(env: Env, w: World, op: Uuid)
    requires Inv(env, w) && op in w.flights && w.flights[op].Recovering?
    ensures var r := w.flights[op].recovery;
      DbOk(env, w.db) && r.operation == op && r.state == RecoveryPending && r.id in w.db.recoveries && w.db.recoveries[r.id] == r
  {
    hide DbOk, FlightsOk, RecoveryPendingFor, CheckDispatch;
    RecoveringFlight(w, op);
  }

  lemma PendingRows(env: Env, w: World, r: Recovery)
    requires Inv(env, w) && RecoveryOk(w.db, r) && r.state == RecoveryPending && r.operation in w.db.transitions
    ensures var t := w.db.transitions[r.operation];
      && t.installation in w.db.installations && ReadDispatch(w.db, r.operation) == Ok(Dispatch(t, w.db.installations[t.installation]))
      && w.db.installations[t.installation].revision == t.expected && w.db.installations[t.installation].id == t.installation
      && r.target.appVersion == "0.1.6"
  {
    hide Inv, Readable, ReadableRecovery;
    AnyTransition(env, w, r.operation);
    InstallationKey(env, w, w.db.transitions[r.operation].installation);
  }

  lemma InstallationKey(env: Env, w: World, id: Uuid)
    requires Inv(env, w)
    ensures id in w.db.installations ==> w.db.installations[id].id == id
  {
    hide OperationsOk, TransitionsOk, RecoveriesOk, Exclusion, Ledger, KeysUnique, FlightsOk;
  }
}
