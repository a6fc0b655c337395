/** The promises of the operation tables that span whole runs and several writers. */
module OperationsTheorems {
  import opened Common
  import opened Releases
  import opened Rows
  import opened Lifecycle
  import opened Transitions
  import opened Interleaving
  import opened OperationsInvariant
  import opened OperationsLifecycleSteps
  import opened OperationsTransitionSteps
  import opened OperationsRuns

  // ---------- A finished transition is final; an accepted one keeps its input ----------

  lemma FinishedIsFinal(env: Env, w: World, s: Step, id: Uuid)
    requires Inv(env, w) && Enabled(w, s) && id in w.db.transitions && Terminal(w.db.transitions[id])
    ensures var next := Next(env, w, s).db; id in next.transitions && next.transitions[id] == w.db.transitions[id]
  {
    hide DbOk, FlightsOk, Submit, DispatchOne, SubmitTransition, CommitFlight, AcceptForward, FinishForward,
         CheckDispatch, RecoveryPendingFor, TransitionBusyForApp;
    match s {
      case SubmitStep(u, q, replay, cur, op, newId) => SubmitTouchesNoBusyApp(env, w.db, u, q, replay, cur, op, newId);
      case DispatchStep(op, canCallBound, answer) => DispatchTouchesNoBusyApp(env, w.db, op, canCallBound, answer);
      case TransitionStep(u, c, replay, releases, newId) => TransitionsOnlyAdded(env, w.db, u, c, replay, releases, newId);
      case AcceptForwardStep(op, u, f, replay, releases, newId) => OnlyRecoveriesAdded(env, w.db, u, f, replay, releases, newId);
      case CommitStep(op, requestId, runtime) =>
        ReadyFlight(w, op);
        assert KeyedRows(w.db) by { KeyedOf(env, w); }
        var t, i := CommitFlightShape(w.db, w.flights[op].prior, requestId, runtime);
        if Next(env, w, s).db != w.db {
          AppliedRows(w.db, t, i, Decide(Dispatch(t, i), requestId, runtime).value);
        }
      case FinishForwardStep(op, verified, proof) =>
        RecoveringFlight(w, op);
        FinishTouches(env, w.db, w.flights[op].recovery, verified, proof);
        hide ReadDispatch, StatusMatchesPhase;
      case _ =>
    }
  }

  lemma KeyedOf(env: Env, w: World)
    requires Inv(env, w)
    ensures KeyedRows(w.db)
  {
    hide KeyedRows, OperationsOk, TransitionsOk, RecoveriesOk, Exclusion, Ledger, KeysUnique, FlightsOk;
  }

  /** Only phase and status of a transition ever change, they only move forward, and a finished row stays. */
  ghost predicate Progressed(t: Transition, t': Transition) {
    && t' == t.(status := t'.status, phase := t'.phase)
    && Rank(t.phase) <= Rank(t'.phase)
    && (Terminal(t) ==> t' == t)
    && (t.phase == PReleasing ==> t'.phase == PReleasing || t'.phase == PCompleted)
  }

  lemma StepProgresses(env: Env, w: World, s: Step, id: Uuid)
    requires Inv(env, w) && Enabled(w, s) && id in w.db.transitions
    ensures var next := Next(env, w, s).db; id in next.transitions && Progressed(w.db.transitions[id], next.transitions[id])
  {
    hide Inv, Next, HeldBy;
    if Terminal(w.db.transitions[id]) {
      FinishedIsFinal(env, w, s, id);
    } else {
      EveryStepHasOutcome(env, w, s, id);
    }
  }

  /** From its acceptance on, whatever the other writers and Runtime do, a transition only moves forward. */
  lemma {:induction false} RunProgresses(env: Env, w: World, steps: seq<Step>, id: Uuid)
    requires Inv(env, w) && IsRun(env, w, steps) && id in w.db.transitions
    ensures var last := After(env, w, steps).db; id in last.transitions && Progressed(w.db.transitions[id], last.transitions[id])
    decreases |steps|
  {
    hide Inv, Next;
    if steps != [] {
      StepProgresses(env, w, steps[0], id);
      StepKeepsInvariant(env, w, steps[0]);
      RunProgresses(env, Next(env, w, steps[0]), steps[1..], id);
    }
  }

  // ---------- At most one publication ----------

  ghost function Publications(env: Env, w: World, steps: seq<Step>, id: Uuid): nat
    requires IsRun(env, w, steps)
    decreases |steps|
  {
    if steps == [] then 0
    else (if Publishes(env, w, steps[0], id) then 1 else 0) + Publications(env, Next(env, w, steps[0]), steps[1..], id)
  }

  /** Only a commit publishes, and it enters `releasing` in the same step. */
  lemma PublicationEntersReleasing(env: Env, w: World, s: Step, id: Uuid)
    requires Inv(env, w) && Enabled(w, s) && Publishes(env, w, s, id)
    ensures s.CommitStep? && s.op == id && w.db.transitions[id].phase == PPublishing
    ensures Next(env, w, s).db.transitions[id].phase == PReleasing
  {
    hide Next, Inv, Outcome, HeldBy;
    EveryStepHasOutcome(env, w, s, id);
    KeyedOf(env, w);
    var t, t' := w.db.transitions[id], Next(env, w, s).db.transitions[id];
    OutcomePublishes(s, t, w.db.installations[t.installation], t', Next(env, w, s).db.installations[t.installation]);
  }

  lemma OutcomePublishes(s: Step, t: Transition, i: Installation, t': Transition, i': Installation)
    requires Outcome(s, t, i, t', i') && HeldBy(t, i) != Some(Target) && HeldBy(t', i') == Some(Target)
    ensures s.CommitStep? && s.op == t.id && t.phase == PPublishing && t'.phase == PReleasing
  {
  }

  /** A target is published at most once in a run, and never once the run has left the phases before publication. */
  lemma {:induction false} PublishedAtMostOnce(env: Env, w: World, steps: seq<Step>, id: Uuid)
    requires Inv(env, w) && IsRun(env, w, steps)
    ensures Publications(env, w, steps, id) <= 1
    ensures id in w.db.transitions && Rank(w.db.transitions[id].phase) > 5 ==> Publications(env, w, steps, id) == 0
    decreases |steps|
  {
    hide Inv, Next, Publishes;
    if steps != [] {
      var next := Next(env, w, steps[0]);
      StepKeepsInvariant(env, w, steps[0]);
      PublishedAtMostOnce(env, next, steps[1..], id);
      if id in w.db.transitions {
        StepProgresses(env, w, steps[0], id);
      }
      if Publishes(env, w, steps[0], id) {
        PublishedRow(w, env, steps[0], id);
        PublicationEntersReleasing(env, w, steps[0], id);
      }
    }
  }

  lemma PublishedRow(w: World, env: Env, s: Step, id: Uuid)
    requires Enabled(w, s) && Publishes(env, w, s, id)
    ensures id in w.db.transitions && id in Next(env, w, s).db.transitions
  {
    hide Next;
  }

  // ---------- The dispatcher refines one atomic step ----------

  /** Reading, deciding and writing at one instant, with no lock and nothing in between. */
  function AtomicDispatch(db: Db, operation: Uuid, requestId: Uuid, a: RuntimeAnswer): Db {
    match ReadDispatch(db, operation)
    case Err(_) => db
    case Ok(d) =>
      if Terminal(d.t) || CheckDispatch(d, RecoveryPendingFor(db, operation)).Some? then db
      else match Decide(d, requestId, a)
        case Err(_) => db
        case Ok(plan) => Apply(db, d, plan)
  }

  /** What a lock owner has read of a transition is what the tables hold. */
  ghost predicate FlightCurrent(db: Db, op: Uuid, f: Flight) {
    match f
    case RowRead(t) => op in db.transitions && db.transitions[op] == t
    case Ready(prior) =>
      && op in db.transitions && db.transitions[op] == prior.t
      && prior.t.installation in db.installations && db.installations[prior.t.installation] == prior.installed
    case _ => true
  }

  ghost predicate FlightsCurrent(w: World) {
    forall op :: op in w.flights ==> FlightCurrent(w.db, op, w.flights[op])
  }

  /** Only the owner of an operation's lock changes the rows of its transition. */
  lemma OthersLeaveTheRows(env: Env, w: World, s: Step, op: Uuid)
    requires Inv(env, w) && Enabled(w, s) && op in w.flights && FlightCurrent(w.db, op, w.flights[op])
    requires w.flights[op].RowRead? || w.flights[op].Ready?
    requires op in Next(env, w, s).flights && Next(env, w, s).flights[op] == w.flights[op]
    ensures FlightCurrent(Next(env, w, s).db, op, w.flights[op])
  {
    hide Inv, CommitFlight, FinishForward, Submit, DispatchOne, SubmitTransition, AcceptForward, CheckDispatch, HeldBy;
    var t := if w.flights[op].RowRead? then w.flights[op].t else w.flights[op].prior.t;
    if Terminal(t) {
      FinishedIsFinal(env, w, s, op);
      if w.flights[op].Ready? { ReadyOf(env, w, op); }
    } else {
      EveryStepHasOutcome(env, w, s, op);
      KeyedTransition(env, w, op);
      assert !(s.CommitStep? && s.op == op) && !(s.FinishForwardStep? && s.op == op);
    }
  }

  lemma ReadyOf(env: Env, w: World, op: Uuid)
    requires Inv(env, w) && op in w.flights && w.flights[op].Ready?
    ensures var prior := w.flights[op].prior;
      prior.t.id == op && !Terminal(prior.t) && !RecoveryPendingFor(w.db, op) && CheckDispatch(prior, false).None?
  {
    hide DbOk, FlightsOk, CheckDispatch, RecoveryPendingFor;
    ReadyFlight(w, op);
  }

  lemma KeyedTransition(env: Env, w: World, id: Uuid)
    requires Inv(env, w) && id in w.db.transitions
    ensures w.db.transitions[id].id == id
  {
    hide OperationsOk, TransitionsOk, RecoveriesOk, Exclusion, Ledger, KeysUnique, FlightsOk;
  }

  lemma StepKeepsFlightsCurrent(env: Env, w: World, s: Step)
    requires Inv(env, w) && Enabled(w, s) && FlightsCurrent(w)
    ensures FlightsCurrent(Next(env, w, s))
  {
    hide Inv, CommitFlight, FinishForward, Submit, DispatchOne, SubmitTransition, AcceptForward, CheckDispatch, RecoveryPendingFor;
    var w' := Next(env, w, s);
    forall op | op in w'.flights ensures FlightCurrent(w'.db, op, w'.flights[op]) {
      if op in w.flights && w'.flights[op] == w.flights[op] {
        assert FlightCurrent(w.db, op, w.flights[op]);
        if w.flights[op].RowRead? || w.flights[op].Ready? { OthersLeaveTheRows(env, w, s, op); }
      } else if s.ReadInstalledStep? {
        assert FlightCurrent(w.db, s.op, w.flights[s.op]);
      }
    }
  }

  lemma {:induction false} RunKeepsFlightsCurrent(env: Env, w: World, steps: seq<Step>)
    requires Inv(env, w) && IsRun(env, w, steps) && FlightsCurrent(w)
    ensures FlightsCurrent(After(env, w, steps))
    decreases |steps|
  {
    hide Inv, Next, FlightsCurrent;
    if steps != [] {
      StepKeepsFlightsCurrent(env, w, steps[0]);
      StepKeepsInvariant(env, w, steps[0]);
      RunKeepsFlightsCurrent(env, Next(env, w, steps[0]), steps[1..]);
    }
  }

  /** When a dispatcher comes back from Runtime, the rows it read are still the rows. */
  lemma ReadyFlightIsCurrent(env: Env, w: World, op: Uuid)
    requires Reachable(env, w) && op in w.flights && w.flights[op].Ready?
    ensures FlightCurrent(w.db, op, w.flights[op])
  {
    hide Inv, FlightCurrent;
    var steps :| IsRun(env, INITIAL, steps) && After(env, INITIAL, steps) == w;
    InitialSatisfiesInvariant(env);
    RunKeepsFlightsCurrent(env, INITIAL, steps);
  }

  /**
   * Every decision a dispatcher reaches is committed: in no run does the compare
   * find other rows, nor does a revision overflow.
   */
  lemma DecisionsAreCommitted(env: Env, w: World, op: Uuid, requestId: Uuid, a: RuntimeAnswer)
    requires Reachable(env, w) && op in w.flights && w.flights[op].Ready?
    requires Decide(w.flights[op].prior, requestId, a).Ok?
    ensures var prior := w.flights[op].prior; var plan := Decide(prior, requestId, a).value;
      && Commit(w.db, prior, plan).1.Ok? && Commit(w.db, prior, plan).0 == Apply(w.db, prior, plan)
      && (plan.version.Some? ==> prior.installed.revision < MAX_INT64)
  {
    hide Inv, Reachable, Decide, CheckDispatch, RecoveryPendingFor;
    ReachableSatisfiesInvariant(env, w);
    ReadyFlightIsCurrent(env, w, op);
    ReadyOf(env, w, op);
    var prior := w.flights[op].prior;
    ReadyRows(env, w, prior);
    CommitOfCurrent(w.db, prior, Decide(prior, requestId, a).value);
  }

  lemma ReadyRows(env: Env, w: World, prior: Dispatch)
    requires Inv(env, w) && prior.t.id in w.db.transitions && w.db.transitions[prior.t.id] == prior.t && !Terminal(prior.t)
    requires prior.t.installation in w.db.installations && w.db.installations[prior.t.installation] == prior.installed
    requires CheckDispatch(prior, false).None?
    ensures prior.installed.org == prior.t.org && prior.installed.state == Installed && prior.installed.revision < MAX_INT64
    ensures Readable(prior.t, prior.installed) && prior.installed.id == prior.t.installation
  {
    hide OperationsOk, RecoveriesOk, Exclusion, Ledger, KeysUnique, FlightsOk, Compatible;
    assert TransitionOk(w.db, prior.t);
  }

  lemma CommitOfCurrent(db: Db, prior: Dispatch, plan: Plan)
    requires prior.t.id in db.transitions && db.transitions[prior.t.id] == prior.t
    requires prior.t.installation in db.installations && db.installations[prior.t.installation] == prior.installed
    requires prior.installed.org == prior.t.org && prior.installed.state == Installed && prior.installed.revision < MAX_INT64
    requires Readable(prior.t, prior.installed)
    ensures Commit(db, prior, plan).1.Ok? && Commit(db, prior, plan).0 == Apply(db, prior, plan)
  {
    hide Readable;
  }

  /**
   * The read, the RPC and the commit of a dispatcher are together one atomic step:
   * its commit does what dispatching the current rows at that instant would do.
   */
  lemma CommitRefinesAtomicDispatch(env: Env, w: World, s: Step)
    requires Reachable(env, w) && Enabled(w, s) && s.CommitStep?
    ensures Next(env, w, s).db == AtomicDispatch(w.db, s.op, s.requestId, s.runtime)
  {
    hide Inv, Reachable, Decide, CheckDispatch, RecoveryPendingFor, Commit, Apply;
    ReachableSatisfiesInvariant(env, w);
    ReadyFlightIsCurrent(env, w, s.op);
    ReadyOf(env, w, s.op);
    var prior := w.flights[s.op].prior;
    CommittedRowsPassTheChecks(env, w, prior);
    if Decide(prior, s.requestId, s.runtime).Ok? {
      DecisionsAreCommitted(env, w, s.op, s.requestId, s.runtime);
    }
  }

  lemma CommittedRowsPassTheChecks(env: Env, w: World, prior: Dispatch)
    requires Inv(env, w) && prior.t.id in w.db.transitions && w.db.transitions[prior.t.id] == prior.t && !Terminal(prior.t)
    requires prior.t.installation in w.db.installations && w.db.installations[prior.t.installation] == prior.installed
    requires CheckDispatch(prior, false).None?
    ensures ReadDispatch(w.db, prior.t.id) == Ok(prior)
  {
    ReadyRows(env, w, prior);
    hide Inv, Readable, Compatible;
  }

  /**
   * A forward recovery accepted in any run is finished by its verdict whenever a
   * caller gets to it: the compare that guards the finish cannot fail.
   */
  lemma ForwardCompareNeverFails(env: Env, w: World, s: Step)
    requires Reachable(env, w) && Enabled(w, s) && s.FinishForwardStep?
    ensures FinishForward(w.db, w.flights[s.op].recovery, s.verified, s.proof).1 != Err(Conflict)
    ensures s.verified && s.proof ==> FinishForward(w.db, w.flights[s.op].recovery, s.verified, s.proof).1.Ok?
  {
    hide FlightsOk, DbOk, FinishForward;
    ReachableSatisfiesInvariant(env, w);
    RecoveringFlight(w, s.op);
    PendingRecoveryFinishes(env, w.db, w.flights[s.op].recovery, s.verified, s.proof);
  }

  /** What one step of any writer, with any Runtime answer, does to an unfinished transition in a reachable world. */
  lemma TransitionOutcome(env: Env, w: World, s: Step, id: Uuid)
    requires Reachable(env, w) && Enabled(w, s) && id in w.db.transitions && !Terminal(w.db.transitions[id])
    ensures StepOutcome(s, w.db, Next(env, w, s).db, id)
  {
    hide Inv, Next, StepOutcome;
    ReachableSatisfiesInvariant(env, w);
    EveryStepHasOutcome(env, w, s, id);
  }

  // ---------- Admission implies completion ----------

  /**
   * A valid report of any unfinished operation of a reachable world is recorded:
   * no guard that Core applies after acceptance refuses it. The one exception is
   * the width of the revision column.
   */
  lemma AcceptedOperationCompletes(env: Env, w: World, id: Uuid, canCallBound: bool, r: Report)
    requires Reachable(env, w) && id in w.db.operations && Active(w.db.operations[id])
    requires r.operation == id && ValidReport(Normalized(r)) && (id in w.db.inputs ==> canCallBound)
    ensures var o := w.db.operations[id]; var answer := DispatchOne(env, w.db, id, canCallBound, Reported(r)).1;
      answer == Ok(r.status)
      || (answer == Err(OutOfRange) && o.installation.Some? && o.installation.value in w.db.installations
          && w.db.installations[o.installation.value].revision == MAX_INT64)
  {
    hide Record, Dispatchable, ValidReport, OperationOk, TransitionsOk, RecoveriesOk, Exclusion, Ledger, KeysUnique, FlightsOk;
    ReachableSatisfiesInvariant(env, w);
    var o := w.db.operations[id];
    var n := Normalized(r);
    assert OperationOk(env, w.db, o);
    DispatchableWhenOk(env, w.db, o);
    if o.installation.Some? { InstallationOfOperation(env, w.db, o); }
    SuccessIsRecordable(env, w.db, o, o.(status := n.status, phase := n.phase), n.status);
  }

  lemma DispatchableWhenOk(env: Env, db: Db, o: Operation)
    requires OperationOk(env, db, o)
    ensures Dispatchable(env, db, o).Ok?
    ensures o.id in db.inputs ==>
      var x := db.inputs[o.id].1;
      Dispatchable(env, db, o) == Ok(Some(Guard(x.schema, x.releaseDigest, x.templateDigest, x.policy, x.workload)))
  {
    hide ValidBinding, CheckExecution, Recordable;
  }

  lemma InstallationOfOperation(env: Env, db: Db, o: Operation)
    requires OperationOk(env, db, o) && o.installation.Some?
    ensures o.installation.value in db.installations
  {
  }

  /** What a later step never takes from an accepted operation: its identity and its durable input. */
  ghost predicate Kept(db: Db, next: Db, id: Uuid) {
    && id in db.operations && id in next.operations
    && next.operations[id] == db.operations[id].(status := next.operations[id].status, phase := next.operations[id].phase)
    && (id in db.inputs ==> id in next.inputs && next.inputs[id] == db.inputs[id])
  }

  lemma StepKeepsOperation(env: Env, w: World, s: Step, id: Uuid)
    requires Inv(env, w) && Enabled(w, s) && id in w.db.operations
    ensures Kept(w.db, Next(env, w, s).db, id)
  {
    hide DbOk, FlightsOk, Submit, DispatchOne, SubmitTransition, CommitFlight, AcceptForward, FinishForward, CheckDispatch,
         RecoveryPendingFor;
    match s {
      case SubmitStep(u, q, replay, cur, op, newId) => SubmitOnlyAdds(env, w.db, u, q, replay, cur, op, newId);
      case DispatchStep(op, canCallBound, answer) => DispatchKeepsOperation(env, w.db, op, canCallBound, answer, id);
      case TransitionStep(u, c, replay, releases, newId) => OperationsApartFromTransitions(env, w.db, u, c, replay, releases, newId);
      case AcceptForwardStep(op, u, f, replay, releases, newId) => OnlyRecoveriesAdded(env, w.db, u, f, replay, releases, newId);
      case CommitStep(op, requestId, runtime) => CommitKeepsOperations(w.db, w.flights[op].prior, requestId, runtime);
      case FinishForwardStep(op, verified, proof) =>
        RecoveringFlight(w, op);
        FinishKeepsOperations(env, w.db, w.flights[op].recovery, verified, proof);
      case _ =>
    }
  }

  lemma CommitKeepsOperations(db: Db, prior: Dispatch, requestId: Uuid, a: RuntimeAnswer)
    ensures var next := CommitFlight(db, prior, requestId, a); next.operations == db.operations && next.inputs == db.inputs
  {
    hide Decide, Readable;
  }

  lemma FinishKeepsOperations(env: Env, db: Db, r: Recovery, verified: bool, proof: bool)
    requires DbOk(env, db)
    ensures var next := FinishForward(db, r, verified, proof).0; next.operations == db.operations && next.inputs == db.inputs
  {
    hide DbOk, ReadDispatch, ForwardStillBound, ReadableRecovery;
  }

  lemma DispatchKeepsOperation(env: Env, db: Db, op: Uuid, canCallBound: bool, a: Answer, id: Uuid)
    requires DbOk(env, db) && op in db.operations && Active(db.operations[op]) && id in db.operations
    ensures Kept(db, DispatchOne(env, db, op, canCallBound, a).0, id)
  {
    hide OperationsOk, TransitionsOk, RecoveriesOk, Exclusion, Ledger, KeysUnique, DispatchOne, RowChanged;
    FailedDispatchChangesNothing(env, db, op, canCallBound, a);
    if DispatchOne(env, db, op, canCallBound, a).1.Ok? {
      ReportTouches(env, db, op, canCallBound, a);
    }
  }

  lemma SubmitOnlyAdds(env: Env, db: Db, u: Identity, q: Request, replay: Option<Uuid>, cur: Option<Uuid>, op: Uuid, newId: Uuid)
    requires DbOk(env, db) && Enabled(World(db, map[]), SubmitStep(u, q, replay, cur, op, newId))
    ensures var next := Submit(env, db, u, q, replay, cur, op, newId).0;
      && (forall o :: o in db.operations ==> o in next.operations && next.operations[o] == db.operations[o])
      && (forall o :: o in db.inputs ==> o in next.inputs && next.inputs[o] == db.inputs[o])
  {
    hide CheckCommand, OperationsOk, TransitionsOk, RecoveriesOk, Exclusion, Ledger, KeysUnique, Accept, ClaimAllowed;
    if CheckCommand(env, u, q).None? && replay.None? && Accept(env, db, u, q, cur, op, newId).Ok? {
      var o, i := AcceptTouches(env, db, u, q, cur, op, newId);
    }
  }

  lemma OperationsApartFromTransitions(env: Env, db: Db, u: Identity, c: TransitionCommand, replay: Option<Uuid>,
                                       releases: Result<(Snapshot, Snapshot), Error>, newId: Uuid)
    requires replay.Some? ==> replay.value in db.transitions
    ensures var next := SubmitTransition(env, db, u, c, replay, releases, newId).0;
      next.operations == db.operations && next.inputs == db.inputs
  {
    hide AcceptTransition, ValidTransitionCommand, ValidSnapshot;
  }

  lemma {:induction false} RunKeepsOperation(env: Env, w: World, steps: seq<Step>, id: Uuid)
    requires Inv(env, w) && IsRun(env, w, steps) && id in w.db.operations
    ensures Kept(w.db, After(env, w, steps).db, id)
    decreases |steps|
  {
    hide Inv, Next;
    if steps != [] {
      StepKeepsOperation(env, w, steps[0], id);
      StepKeepsInvariant(env, w, steps[0]);
      RunKeepsOperation(env, Next(env, w, steps[0]), steps[1..], id);
    }
  }

  /**
   * The guard of a constrained operation: whatever happens after its acceptance,
   * each call Core makes for it carries exactly the execution that was admitted.
   */
  lemma AdmittedGuardIsSent(env: Env, w: World, s: Step, steps: seq<Step>)
    requires Reachable(env, w) && Enabled(w, s) && s.SubmitStep? && s.q.AppCenter? && s.replay.None?
    requires Submit(env, w.db, s.u, s.q, None, s.cur, s.op, s.newId).1.Ok?
    requires IsRun(env, Next(env, w, s), steps)
    ensures var last := After(env, Next(env, w, s), steps).db;
      && s.op in last.operations && s.q.admission.Ok?
      && var x := s.q.admission.value;
         Dispatchable(env, last, last.operations[s.op])
         == Ok(Some(Guard(x.schema, x.releaseDigest, x.templateDigest, x.policy, x.workload)))
  {
    hide Inv, Next, Submit, Accept, Dispatchable, AcceptedAs;
    ReachableSatisfiesInvariant(env, w);
    NewOperationRow(env, w, s);
    StepKeepsInvariant(env, w, s);
    var begun := Next(env, w, s);
    RunKeepsInvariant(env, begun, steps);
    RunKeepsOperation(env, begun, steps, s.op);
    var last := After(env, begun, steps);
    assert OperationOk(env, last.db, last.db.operations[s.op]) && last.db.operations[s.op].id == s.op by {
      RowsAreOk(env, last, s.op);
    }
    DispatchableWhenOk(env, last.db, last.db.operations[s.op]);
  }

  lemma RowsAreOk(env: Env, w: World, id: Uuid)
    requires Inv(env, w) && id in w.db.operations
    ensures OperationOk(env, w.db, w.db.operations[id]) && w.db.operations[id].id == id
  {
    hide OperationOk, TransitionsOk, RecoveriesOk, Exclusion, Ledger, KeysUnique, FlightsOk;
  }

  lemma NewOperationRow(env: Env, w: World, s: Step)
    requires Inv(env, w) && Enabled(w, s) && s.SubmitStep? && s.replay.None?
    requires Submit(env, w.db, s.u, s.q, None, s.cur, s.op, s.newId).1.Ok?
    ensures var next := Next(env, w, s).db;
      && s.op in next.operations
      && next.operations[s.op] == NewOperation(s.u, s.q, s.op, next.operations[s.op].installation)
      && (s.q.AppCenter? ==> s.q.admission.Ok? && s.op in next.inputs && next.inputs[s.op] == (s.q.input, s.q.admission.value))
  {
    hide CheckCommand, OperationsOk, TransitionsOk, RecoveriesOk, Exclusion, Ledger, KeysUnique, FlightsOk, Accept, NewOperation,
         CheckExecution, CheckExpectedInstallation, OperationBusy, TransitionBusyForApp, VersionChangeAllowed;
    var o, i := AcceptTouches(env, w.db, s.u, s.q, s.cur, s.op, s.newId);
  }

  /**
   * An accepted command is replayed, never repeated: after any run, the same
   * request under the same key finds the one operation it began, whatever tracing
   * identifier it carries, and changes nothing.
   */
  lemma AcceptedCommandReplays(env: Env, w: World, s: Step, steps: seq<Step>, again: Step)
    requires Reachable(env, w) && Enabled(w, s) && s.SubmitStep? && s.replay.None?
    requires Submit(env, w.db, s.u, s.q, None, s.cur, s.op, s.newId).1.Ok?
    requires IsRun(env, Next(env, w, s), steps) && Enabled(After(env, Next(env, w, s), steps), again)
    requires again.SubmitStep? && again.u.user == s.u.user && again.u.org == s.u.org
    requires CommandOf(again.q).key == CommandOf(s.q).key && HashOf(again.q) == HashOf(s.q)
    requires CheckCommand(env, again.u, again.q).None?
    ensures var last := After(env, Next(env, w, s), steps).db;
      && s.op in last.operations && again.replay == Some(s.op)
      && Submit(env, last, again.u, again.q, again.replay, again.cur, again.op, again.newId) == (last, Ok(last.operations[s.op]))
  {
    hide Inv, Next, Submit, Accept, HashOf, CheckCommand;
    ReachableSatisfiesInvariant(env, w);
    NewOperationRow(env, w, s);
    StepKeepsInvariant(env, w, s);
    var begun := Next(env, w, s);
    RunKeepsInvariant(env, begun, steps);
    RunKeepsOperation(env, begun, steps, s.op);
    var last := After(env, begun, steps);
    assert KeysUnique(last.db) by { KeysOf(env, last); }
    assert SameKey(last.db.operations[s.op], s.u.user, s.u.org, CommandOf(s.q).key);
    ReplayAnswer(env, last.db, again, s.op);
  }

  lemma KeysOf(env: Env, w: World)
    requires Inv(env, w)
    ensures KeysUnique(w.db)
  {
    hide KeyedRows, OperationsOk, TransitionsOk, RecoveriesOk, Exclusion, Ledger, KeysUnique, FlightsOk;
  }

  lemma ReplayAnswer(env: Env, db: Db, again: Step, op: Uuid)
    requires again.SubmitStep? && again.replay == Some(op) && op in db.operations
    requires again.cur.Some? ==> again.cur.value in db.installations
    requires CheckCommand(env, again.u, again.q).None? && HashOf(again.q) == db.operations[op].hash
    ensures Submit(env, db, again.u, again.q, again.replay, again.cur, again.op, again.newId) == (db, Ok(db.operations[op]))
  {
    hide CheckCommand, HashOf, Accept;
  }
}
