/** What holds over every run of the writers. */
module OperationsRuns {
  import opened Common
  import opened Releases
  import opened Rows
  import opened Lifecycle
  import opened Transitions
  import opened Interleaving
  import opened OperationsInvariant
  import opened OperationsLifecycleSteps
  import opened OperationsTransitionSteps

  // ---------- The invariant over steps and runs ----------

  /** Flights of other operations survive any change that opens no recovery for them and keeps theirs. */
  lemma FlightsKept(w: World, next: Db, flights: map<Uuid, Flight>)
    requires FlightsOk(w)
    requires flights.Keys <= w.flights.Keys && forall op :: op in flights ==> flights[op] == w.flights[op]
    requires forall op :: op in flights && !RecoveryPendingFor(w.db, op) ==> !RecoveryPendingFor(next, op)
    requires forall op :: op in flights && flights[op].Recovering? ==>
      var id := flights[op].recovery.id; id in w.db.recoveries ==> id in next.recoveries && next.recoveries[id] == w.db.recoveries[id]
    ensures FlightsOk(World(next, flights))
  {
    hide CheckDispatch;
    forall op | op in flights ensures FlightOk(next, op, flights[op]) {
      assert FlightOk(w.db, op, w.flights[op]);
    }
  }

  lemma SameRecoveriesSamePending(db: Db, next: Db)
    requires next.recoveries == db.recoveries
    ensures forall op :: RecoveryPendingFor(db, op) <==> RecoveryPendingFor(next, op)
  {
  }

  lemma StepKeepsInvariant(env: Env, w: World, s: Step)
    requires Inv(env, w) && Enabled(w, s)
    ensures Inv(env, Next(env, w, s))
  {
    hide DbOk, Submit, DispatchOne, SubmitTransition, FlightsOk, CommitFlight, AcceptForward, FinishForward, CheckDispatch,
         RecoveryPendingFor;
    var w' := Next(env, w, s);
    match s {
      case SubmitStep(u, q, replay, cur, op, newId) =>
        SubmitKeeps(env, w.db, u, q, replay, cur, op, newId);
        SameRecoveriesSamePending(w.db, w'.db);
        FlightsKept(w, w'.db, w.flights);
      case DispatchStep(op, canCallBound, answer) =>
        DispatchKeeps(env, w.db, op, canCallBound, answer);
        SameRecoveriesSamePending(w.db, w'.db);
        FlightsKept(w, w'.db, w.flights);
      case TransitionStep(u, c, replay, releases, newId) =>
        SubmitTransitionKeeps(env, w.db, u, c, replay, releases, newId);
        SameRecoveriesSamePending(w.db, w'.db);
        FlightsKept(w, w'.db, w.flights);
      case CommitStep(op, requestId, runtime) =>
        ReadyFlight(w, op);
        CommitKeeps(env, w.db, w.flights[op].prior, requestId, runtime);
        SameRecoveriesSamePending(w.db, w'.db);
        FlightsKept(w, w'.db, w'.flights);
      case AcceptForwardStep(op, u, f, replay, releases, newId) =>
        AcceptForwardKeeps(env, w.db, u, f, replay, releases, newId);
        FlightsKept(w, w'.db, w.flights - {op});
        assert w'.flights - {op} == w.flights - {op};
        OpenedFlight(w', op);
      case FinishForwardStep(op, verified, proof) =>
        RecoveringFlight(w, op);
        FinishForwardKeeps(env, w.db, w.flights[op].recovery, verified, proof);
        OtherRecoveries(w, op);
        FlightsKept(w, w'.db, w'.flights);
      case LockStep(op) => LocalStep(env, w, s);
      case ReadRowStep(op) => LocalStep(env, w, s);
      case ReadInstalledStep(op) => LocalStep(env, w, s);
      case ReleaseStep(op) => LocalStep(env, w, s);
    }
  }

  lemma ReadyFlight(w: World, op: Uuid)
    requires FlightsOk(w) && op in w.flights && w.flights[op].Ready?
    ensures var prior := w.flights[op].prior;
      prior.t.id == op && !Terminal(prior.t) && !RecoveryPendingFor(w.db, op) && CheckDispatch(prior, false).None?
  {
    assert FlightOk(w.db, op, w.flights[op]);
  }

  lemma RecoveringFlight(w: World, op: Uuid)
    requires FlightsOk(w) && op in w.flights && w.flights[op].Recovering?
    ensures var r := w.flights[op].recovery;
      r.operation == op && r.state == RecoveryPending && r.id in w.db.recoveries && w.db.recoveries[r.id] == r
  {
    assert FlightOk(w.db, op, w.flights[op]);
  }

  lemma OtherRecoveries(w: World, op: Uuid)
    requires FlightsOk(w) && op in w.flights && w.flights[op].Recovering?
    ensures forall o :: o in w.flights && o != op && w.flights[o].Recovering? ==> w.flights[o].recovery.id != w.flights[op].recovery.id
  {
    forall o | o in w.flights && o != op && w.flights[o].Recovering?
      ensures w.flights[o].recovery.id != w.flights[op].recovery.id
    {
      RecoveringFlight(w, op);
      RecoveringFlight(w, o);
    }
  }

  /** One flight on top of others that are fine. */
  lemma OpenedFlight(w: World, op: Uuid)
    requires FlightsOk(World(w.db, w.flights - {op})) && (op in w.flights ==> FlightOk(w.db, op, w.flights[op]))
    ensures FlightsOk(w)
  {
    hide FlightOk;
    forall o | o in w.flights ensures FlightOk(w.db, o, w.flights[o]) {
      if o != op {
        assert o in World(w.db, w.flights - {op}).flights;
      }
    }
  }

  lemma LocalStep(env: Env, w: World, s: Step)
    requires Inv(env, w) && Enabled(w, s) && (s.LockStep? || s.ReadRowStep? || s.ReadInstalledStep? || s.ReleaseStep?)
    ensures Inv(env, Next(env, w, s))
  {
    hide OperationsOk, TransitionsOk, RecoveriesOk, Exclusion, Ledger, KeysUnique, HeldBy, Readable, BeforePublication;
    var op := s.op;
    FlightsKept(w, w.db, w.flights - {op});
    OpenedFlight(Next(env, w, s), op);
  }

  lemma InitialSatisfiesInvariant(env: Env)
    ensures Inv(env, INITIAL)
  {
  }

  lemma {:induction false} RunKeepsInvariant(env: Env, w: World, steps: seq<Step>)
    requires Inv(env, w) && IsRun(env, w, steps)
    ensures Inv(env, After(env, w, steps))
    decreases |steps|
  {
    if steps != [] {
      StepKeepsInvariant(env, w, steps[0]);
      RunKeepsInvariant(env, Next(env, w, steps[0]), steps[1..]);
    }
  }

  /** A world some run from the empty database reaches. */
  ghost predicate Reachable(env: Env, w: World) {
    exists steps :: IsRun(env, INITIAL, steps) && After(env, INITIAL, steps) == w
  }

  lemma ReachableSatisfiesInvariant(env: Env, w: World)
    requires Reachable(env, w)
    ensures Inv(env, w)
  {
    var steps :| IsRun(env, INITIAL, steps) && After(env, INITIAL, steps) == w;
    InitialSatisfiesInvariant(env);
    RunKeepsInvariant(env, INITIAL, steps);
  }

  lemma InitialIsReachable(env: Env)
    ensures Reachable(env, INITIAL)
  {
    assert IsRun(env, INITIAL, []);
  }

  lemma {:induction false} RunsCompose(env: Env, w: World, first: seq<Step>, second: seq<Step>)
    requires IsRun(env, w, first) && IsRun(env, After(env, w, first), second)
    ensures IsRun(env, w, first + second) && After(env, w, first + second) == After(env, After(env, w, first), second)
    decreases |first|
  {
    hide Enabled, Next;
    if first == [] {
      assert first + second == second;
    } else {
      RunsCompose(env, Next(env, w, first[0]), first[1..], second);
      assert (first + second)[1..] == first[1..] + second;
    }
  }

  lemma OneStepRun(env: Env, w: World, s: Step)
    requires Enabled(w, s)
    ensures IsRun(env, w, [s]) && After(env, w, [s]) == Next(env, w, s)
  {
    hide Enabled, Next;
    assert [s][1..] == [];
    assert IsRun(env, Next(env, w, s), []);
  }

  lemma ReachableAfter(env: Env, w: World, steps: seq<Step>)
    requires Reachable(env, w) && IsRun(env, w, steps)
    ensures Reachable(env, After(env, w, steps))
  {
    hide Enabled, Next, IsRun, After;
    var before :| IsRun(env, INITIAL, before) && After(env, INITIAL, before) == w;
    RunsCompose(env, INITIAL, before, steps);
  }

  lemma ReachableExtends(env: Env, w: World, s: Step)
    requires Reachable(env, w) && Enabled(w, s)
    ensures Reachable(env, Next(env, w, s))
  {
    hide Enabled, Next, IsRun, After;
    var steps :| IsRun(env, INITIAL, steps) && After(env, INITIAL, steps) == w;
    OneStepRun(env, w, s);
    RunsCompose(env, INITIAL, steps, [s]);
  }

  // ---------- Joint exclusion ----------

  /**
   * In every reachable world an App has at most one current installation and at
   * most one unfinished operation or transition. An unfinished transition's
   * installation is installed; it holds the source at the expected revision in
   * every phase but `releasing`, where it may hold the target at the next one.
   */
  lemma JointExclusion(env: Env, w: World)
    requires Reachable(env, w)
    ensures Exclusion(w.db)
    ensures forall t :: t in w.db.transitions && !Terminal(w.db.transitions[t]) ==>
      var row := w.db.transitions[t];
      row.installation in w.db.installations && w.db.installations[row.installation].state == Installed
      && w.db.installations[row.installation].app == row.app
      && HeldBy(row, w.db.installations[row.installation]) in {Some(Original), Some(Target)}
      && (row.phase != PReleasing ==> HeldBy(row, w.db.installations[row.installation]) == Some(Original))
  {
    ReachableSatisfiesInvariant(env, w);
    hide OperationsOk, RecoveriesOk, Exclusion, Ledger, KeysUnique, KeyedRows, FlightsOk, Compatible, HeldBy;
    forall t | t in w.db.transitions && !Terminal(w.db.transitions[t])
      ensures var row := w.db.transitions[t];
        row.installation in w.db.installations && w.db.installations[row.installation].state == Installed
        && w.db.installations[row.installation].app == row.app
        && HeldBy(row, w.db.installations[row.installation]) in {Some(Original), Some(Target)}
        && (row.phase != PReleasing ==> HeldBy(row, w.db.installations[row.installation]) == Some(Original))
    {
      assert TransitionOk(w.db, w.db.transitions[t]);
    }
  }

  /** In every reachable world a release reference names one snapshot, and an idempotency key one operation. */
  lemma DurableIdentity(env: Env, w: World)
    requires Reachable(env, w)
    ensures Ledger(w.db) && KeysUnique(w.db)
  {
    ReachableSatisfiesInvariant(env, w);
    hide Ledger, KeysUnique;
  }

  /**
   * Acceptance demands the installation's own revision and sets it no limit, the
   * dispatcher has one: an unfinished transition can be read by the dispatcher
   * exactly when its expected revision leaves room for two more.
   */
  lemma UnfinishedIsReadableExactlyBelowTheLimit(env: Env, w: World, id: Uuid)
    requires Reachable(env, w) && id in w.db.transitions && !Terminal(w.db.transitions[id])
    ensures ReadDispatch(w.db, id).Ok? <==> w.db.transitions[id].expected <= MAX_INT64 - 2
  {
    ReachableSatisfiesInvariant(env, w);
    hide OperationsOk, RecoveriesOk, Exclusion, Ledger, KeysUnique, KeyedRows, FlightsOk, Compatible, HeldBy;
    assert TransitionOk(w.db, w.db.transitions[id]);
  }

  // ---------- What a step can do to an unfinished transition ----------

  /** Phases in the order a run passes them; recovery and restoring alternate. */
  function Rank(p: Phase): nat {
    match p
    case PAccepted => 0
    case PChecking => 1
    case PSealing => 2
    case PApplying => 3
    case PVerifying => 4
    case PPublishing => 5
    case PRecoveryRequired => 6
    case PRestoring => 6
    case PReleasing => 7
    case PCompleted => 8
  }

  /** The step that publishes the target of `id`: the installation goes from the source to the target version. */
  ghost predicate Publishes(env: Env, w: World, s: Step, id: Uuid)
    requires Enabled(w, s)
  {
    var next := Next(env, w, s).db;
    && id in w.db.transitions && id in next.transitions && !Terminal(w.db.transitions[id])
    && w.db.transitions[id].installation in w.db.installations
    && w.db.transitions[id].installation in next.installations
    && HeldBy(w.db.transitions[id], w.db.installations[w.db.transitions[id].installation]) != Some(Target)
    && HeldBy(next.transitions[id], next.installations[w.db.transitions[id].installation]) == Some(Target)
  }

  /** What a single step did to the rows (t, i) of an unfinished transition. */
  ghost predicate Outcome(s: Step, t: Transition, i: Installation, t': Transition, i': Installation) {
    && t' == t.(status := t'.status, phase := t'.phase) && Rank(t.phase) <= Rank(t'.phase)
    && (t.phase == PReleasing ==> t'.phase == PReleasing || t'.phase == PCompleted)
    && ((t', i') == (t, i) || (s.CommitStep? && s.op == t.id) || (s.FinishForwardStep? && s.op == t.id))
    && (s.CommitStep? && i' != i ==>
          && t.phase == PPublishing && t'.phase == PReleasing
          && i' == i.(version := t.target.appVersion, revision := t.expected + 1))
    && (t'.status == TSucceeded ==> t.phase == PReleasing && HeldBy(t', i') == Some(Target))
    && (s.CommitStep? && t'.status == TFailed ==> HeldBy(t', i') == Some(Original))
    && (s.FinishForwardStep? && (t', i') != (t, i) ==>
          && (t.phase == PRestoring || t.phase == PRecoveryRequired) && t'.status == TFailed
          && i'.revision == t.expected + 1 && i'.version == "0.1.6" && HeldBy(t', i').None?)
  }

  /** The rows of transition `id` before and after a step that leads from `db` to `next` satisfy Outcome. */
  ghost predicate StepOutcome(s: Step, db: Db, next: Db, id: Uuid) {
    && id in db.transitions && id in next.transitions
    && db.transitions[id].installation in db.installations && db.transitions[id].installation in next.installations
    && Outcome(s, db.transitions[id], db.installations[db.transitions[id].installation],
               next.transitions[id], next.installations[db.transitions[id].installation])
  }

  lemma DecisionOutcome(s: Step, t: Transition, i: Installation)
    requires s.CommitStep? && s.op == t.id && !Terminal(t) && StatusMatchesPhase(t) && Holds(t, i)
    requires Decide(Dispatch(t, i), s.requestId, s.runtime).Ok?
    ensures var plan := Decide(Dispatch(t, i), s.requestId, s.runtime).value;
      Outcome(s, t, i, t.(status := plan.status, phase := plan.phase), Planned(i, plan))
  {
  }

  lemma NothingChanged(s: Step, t: Transition, i: Installation)
    requires !Terminal(t)
    ensures Outcome(s, t, i, t, i)
  {
    hide HeldBy;
  }

  /** A commit either changes nothing or applies the decision of the rows it finds. */
  lemma CommitFlightShape(db: Db, prior: Dispatch, requestId: Uuid, a: RuntimeAnswer) returns (t: Transition, i: Installation)
    requires KeyedRows(db)
    ensures CommitFlight(db, prior, requestId, a) == db ||
      (&& prior.t.id in db.transitions && db.transitions[prior.t.id] == t && t.id == prior.t.id
       && t.status == prior.t.status && t.installation in db.installations && db.installations[t.installation] == i && Readable(t, i)
       && Decide(Dispatch(t, i), requestId, a).Ok?
       && CommitFlight(db, prior, requestId, a) == Apply(db, Dispatch(t, i), Decide(Dispatch(t, i), requestId, a).value))
  {
    hide Decide, Commit, KeyedRows, Readable;
    if Decide(prior, requestId, a).Ok? && Commit(db, prior, Decide(prior, requestId, a).value).1.Ok? {
      t, i := CommitCompares(db, prior, Decide(prior, requestId, a).value);
      SameDecision(db, prior, t, i, requestId, a);
    } else {
      RefusedCommitChangesNothing(db, prior, requestId, a);
      t, i := prior.t, prior.installed;
    }
  }

  /** Applying a decision touches the transition and its installation and no other rows. */
  lemma AppliedRows(db: Db, t: Transition, i: Installation, plan: Plan)
    requires KeyedRows(db) && t.installation in db.installations && db.installations[t.installation] == i
    requires t.id in db.transitions && db.transitions[t.id] == t
    ensures var next := Apply(db, Dispatch(t, i), plan);
      && next.transitions == db.transitions[t.id := t.(status := plan.status, phase := plan.phase)]
      && next.installations == db.installations[t.installation := Planned(i, plan)]
  {
    assert db.installations[t.installation := i] == db.installations;
  }

  /** Two unfinished transitions work on different installations. */
  lemma UnfinishedApart(env: Env, db: Db, a: Uuid, b: Uuid)
    requires DbOk(env, db) && a in db.transitions && b in db.transitions && a != b
    requires !Terminal(db.transitions[a]) && !Terminal(db.transitions[b])
    ensures db.transitions[a].installation != db.transitions[b].installation
  {
    hide KeyedRows, OperationsOk, RecoveriesOk, Ledger, KeysUnique, Compatible, Holds, StatusMatchesPhase, Terminal,
         OneInstallationPerApp, OneOperationPerApp, OperationExcludesTransition;
    assert TransitionOk(db, db.transitions[a]) && TransitionOk(db, db.transitions[b]);
  }

  lemma UnfinishedRow(env: Env, db: Db, id: Uuid)
    requires DbOk(env, db) && id in db.transitions && !Terminal(db.transitions[id])
    ensures db.transitions[id].id == id && TransitionOk(db, db.transitions[id])
    ensures db.transitions[id].installation in db.installations
  {
    hide OperationsOk, RecoveriesOk, Exclusion, Ledger, KeysUnique, Compatible, Holds, StatusMatchesPhase;
  }

  lemma CommitOutcome(env: Env, w: World, s: Step, id: Uuid)
    requires Inv(env, w) && Enabled(w, s) && s.CommitStep? && id in w.db.transitions && !Terminal(w.db.transitions[id])
    ensures StepOutcome(s, w.db, Next(env, w, s).db, id)
  {
    hide OperationsOk, RecoveriesOk, Ledger, KeysUnique, FlightsOk, Compatible, Decide, CommitFlight, Apply, HeldBy, Outcome,
         Holds, OneInstallationPerApp, OneOperationPerApp, OperationExcludesTransition, Readable, KeyedRows;
    ReadyFlight(w, s.op);
    var t, i := CommitFlightShape(w.db, w.flights[s.op].prior, s.requestId, s.runtime);
    var row := w.db.transitions[id];
    assert TransitionOk(w.db, row);
    var held := w.db.installations[row.installation];
    NothingChanged(s, row, held);
    if Next(env, w, s).db != w.db {
      assert TransitionOk(w.db, t);
      AppliedRows(w.db, t, i, Decide(Dispatch(t, i), s.requestId, s.runtime).value);
      if id == t.id {
        DecisionOutcome(s, t, i);
      } else {
        assert row.app != t.app;
        assert row.installation != t.installation;
      }
    }
  }

  /** A step that keeps every transition row, and every installation row of an App with an unfinished one. */
  lemma UntouchedOutcome(env: Env, db: Db, next: Db, s: Step, id: Uuid)
    requires DbOk(env, db) && id in db.transitions && !Terminal(db.transitions[id])
    requires id in next.transitions && next.transitions[id] == db.transitions[id]
    requires forall i :: i in db.installations && TransitionBusyForApp(db, db.installations[i].app) ==>
      i in next.installations && next.installations[i] == db.installations[i]
    ensures StepOutcome(s, db, next, id)
  {
    hide OperationsOk, RecoveriesOk, Ledger, KeysUnique, Compatible, HeldBy, Outcome, Holds, Exclusion, KeyedRows;
    var t := db.transitions[id];
    assert TransitionOk(db, t);
    assert TransitionBusyForApp(db, t.app);
    NothingChanged(s, t, db.installations[t.installation]);
  }

  lemma SubmitTouchesNoBusyApp(env: Env, db: Db, u: Identity, q: Request, replay: Option<Uuid>, cur: Option<Uuid>, op: Uuid, newId: Uuid)
    requires DbOk(env, db) && Enabled(World(db, map[]), SubmitStep(u, q, replay, cur, op, newId))
    ensures var next := Submit(env, db, u, q, replay, cur, op, newId).0;
      && next.transitions == db.transitions
      && forall i :: i in db.installations && TransitionBusyForApp(db, db.installations[i].app) ==>
           i in next.installations && next.installations[i] == db.installations[i]
  {
    hide CheckCommand, OperationsOk, TransitionsOk, RecoveriesOk, Exclusion, Ledger, KeysUnique, Accept, TransitionBusyForApp,
         HashOf, VersionChangeAllowed, CheckExpectedInstallation, CheckExecution, OperationBusy;
    if CheckCommand(env, u, q).None? && replay.None? && Accept(env, db, u, q, cur, op, newId).Ok? {
      var o, i := AcceptTouches(env, db, u, q, cur, op, newId);
    }
  }

  lemma FailedDispatchChangesNothing(env: Env, db: Db, id: Uuid, canCallBound: bool, a: Answer)
    requires id in db.operations
    ensures DispatchOne(env, db, id, canCallBound, a).1.Err? ==> DispatchOne(env, db, id, canCallBound, a).0 == db
  {
    hide Record, Dispatchable, ValidReport, Normalized;
  }

  lemma DispatchTouchesNoBusyApp(env: Env, db: Db, id: Uuid, canCallBound: bool, a: Answer)
    requires DbOk(env, db) && id in db.operations && Active(db.operations[id])
    ensures var next := DispatchOne(env, db, id, canCallBound, a).0;
      && next.transitions == db.transitions
      && forall i :: i in db.installations && TransitionBusyForApp(db, db.installations[i].app) ==>
           i in next.installations && next.installations[i] == db.installations[i]
  {
    hide OperationsOk, TransitionsOk, RecoveriesOk, Ledger, KeysUnique, DispatchOne, RowChanged,
         OneInstallationPerApp, OneOperationPerApp, OneTransitionPerApp, KeyedRows;
    var next := DispatchOne(env, db, id, canCallBound, a).0;
    FailedDispatchChangesNothing(env, db, id, canCallBound, a);
    if DispatchOne(env, db, id, canCallBound, a).1.Ok? {
      ReportTouches(env, db, id, canCallBound, a);
      forall i | i in db.installations && TransitionBusyForApp(db, db.installations[i].app)
        ensures i in next.installations && next.installations[i] == db.installations[i]
      {
        OtherAppsUntouched(env, db, db.operations[id], next.operations[id], next, i);
      }
    }
  }

  lemma ReadDispatchRows(db: Db, operation: Uuid)
    requires ReadDispatch(db, operation).Ok?
    ensures var d := ReadDispatch(db, operation).value;
      && operation in db.transitions && d.t == db.transitions[operation]
      && d.t.installation in db.installations && d.installed == db.installations[d.t.installation]
  {
    hide Readable;
  }

  lemma FinishOutcome(env: Env, w: World, s: Step, id: Uuid)
    requires Inv(env, w) && Enabled(w, s) && s.FinishForwardStep? && id in w.db.transitions && !Terminal(w.db.transitions[id])
    ensures StepOutcome(s, w.db, Next(env, w, s).db, id)
  {
    hide DbOk, FlightsOk, TransitionOk, FinishForward, HeldBy, Outcome, ReadDispatch, RecoveryOk;
    RecoveringFlight(w, s.op);
    var r := w.flights[s.op].recovery;
    PendingAt(env, w.db, r);
    FinishTouches(env, w.db, r, s.verified, s.proof);
    var row := w.db.transitions[id];
    UnfinishedRow(env, w.db, id);
    NothingChanged(s, row, w.db.installations[row.installation]);
    if s.verified && s.proof {
      var parent := ReadDispatch(w.db, r.operation).value;
      ReadDispatchRows(w.db, r.operation);
      if id == s.op {
        ForwardOutcome(w.db, r, s);
      } else {
        UnfinishedApart(env, w.db, id, s.op);
      }
    }
  }

  lemma PendingAt(env: Env, db: Db, r: Recovery)
    requires DbOk(env, db) && r.id in db.recoveries && db.recoveries[r.id] == r && r.state == RecoveryPending
    ensures RecoveryOk(db, r) && r.operation in db.transitions && db.transitions[r.operation].id == r.operation
    ensures !Terminal(db.transitions[r.operation])
  {
    hide OperationsOk, TransitionsOk, Exclusion, Ledger, KeysUnique, RecoveryOk;
    RecoveryAt(db, r.id);
    RecoveryParent(db, r);
    PendingParentUnfinished(db, r);
  }

  lemma RecoveryParent(db: Db, r: Recovery)
    requires RecoveryOk(db, r)
    ensures r.operation in db.transitions
  {
    hide ReadableRecovery, ForwardStillBound, ReadDispatch;
  }

  lemma ForwardOutcome(db: Db, r: Recovery, s: Step)
    requires RecoveryOk(db, r) && r.state == RecoveryPending && s.FinishForwardStep? && s.op == r.operation
    requires r.operation in db.transitions && db.transitions[r.operation].id == r.operation
    ensures var parent := ReadDispatch(db, r.operation).value;
      Outcome(s, parent.t, parent.installed, parent.t.(status := TFailed, phase := PCompleted),
              parent.installed.(version := r.target.appVersion, revision := parent.installed.revision + 1))
  {
    hide Compatible, ValidSnapshot;
  }

  /** Every step, from every state that satisfies the invariant, has the outcome for every unfinished transition. */
  lemma EveryStepHasOutcome(env: Env, w: World, s: Step, id: Uuid)
    requires Inv(env, w) && Enabled(w, s) && id in w.db.transitions && !Terminal(w.db.transitions[id])
    ensures StepOutcome(s, w.db, Next(env, w, s).db, id)
  {
    hide DbOk, FlightsOk, Submit, DispatchOne, SubmitTransition, CommitFlight, AcceptForward, FinishForward, StepOutcome,
         CheckDispatch, RecoveryPendingFor, TransitionBusyForApp;
    var next := Next(env, w, s).db;
    match s {
      case SubmitStep(u, q, replay, cur, op, newId) =>
        SubmitTouchesNoBusyApp(env, w.db, u, q, replay, cur, op, newId);
        UntouchedOutcome(env, w.db, next, s, id);
      case DispatchStep(op, canCallBound, answer) =>
        DispatchTouchesNoBusyApp(env, w.db, op, canCallBound, answer);
        UntouchedOutcome(env, w.db, next, s, id);
      case TransitionStep(u, c, replay, releases, newId) =>
        TransitionsOnlyAdded(env, w.db, u, c, replay, releases, newId);
        UntouchedOutcome(env, w.db, next, s, id);
      case AcceptForwardStep(op, u, f, replay, releases, newId) =>
        OnlyRecoveriesAdded(env, w.db, u, f, replay, releases, newId);
        UntouchedOutcome(env, w.db, next, s, id);
      case CommitStep(_, _, _) => CommitOutcome(env, w, s, id);
      case FinishForwardStep(_, _, _) => FinishOutcome(env, w, s, id);
      case _ => UntouchedOutcome(env, w.db, next, s, id);
    }
  }

  lemma TransitionsOnlyAdded(env: Env, db: Db, u: Identity, c: TransitionCommand, replay: Option<Uuid>,
                             releases: Result<(Snapshot, Snapshot), Error>, newId: Uuid)
    requires (replay.Some? ==> replay.value in db.transitions) && newId !in db.transitions
    ensures var next := SubmitTransition(env, db, u, c, replay, releases, newId).0;
      && next.installations == db.installations
      && forall t :: t in db.transitions ==> t in next.transitions && next.transitions[t] == db.transitions[t]
  {
    hide AcceptTransition, ValidTransitionCommand, ValidSnapshot;
  }

  lemma OnlyRecoveriesAdded(env: Env, db: Db, u: Identity, c: ForwardCommand, replay: Option<Uuid>,
                            releases: Result<(Snapshot, Snapshot), Error>, id: Uuid)
    requires replay.Some? ==> replay.value in db.recoveries
    ensures var next := AcceptForward(env, db, u, c, replay, releases, id).0;
      next == db.(recoveries := next.recoveries)
  {
    hide NewRecovery, ValidForwardCommand, CanRecover, ReadableRecovery;
  }
}
