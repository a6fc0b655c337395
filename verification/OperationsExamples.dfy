/**
 * Worlds that some run reaches: an accepted transition at the limit of the
 * revision column, where it stays for ever, and a dispatch that rolls back.
 */
module OperationsExamples {
  import opened Common
  import opened TransitionVersions
  import opened Releases
  import opened Rows
  import opened Lifecycle
  import opened Transitions
  import opened Interleaving
  import opened OperationsInvariant
  import opened OperationsTransitionSteps
  import opened OperationsRuns
  import opened OperationsTheorems
  import Scheduling

  // ---------- Beyond the limit nothing moves ----------

  lemma BeyondTheLimitNoStepMoves(env: Env, w: World, s: Step, id: Uuid)
    requires Inv(env, w) && Enabled(w, s) && id in w.db.transitions && !Terminal(w.db.transitions[id])
    requires w.db.transitions[id].expected > MAX_INT64 - 2
    ensures id in Next(env, w, s).db.transitions && Next(env, w, s).db.transitions[id] == w.db.transitions[id]
  {
    hide Inv, DbOk, FlightsOk, Submit, DispatchOne, SubmitTransition, AcceptForward, Decide, CheckDispatch, RecoveryPendingFor,
         HeldBy, Compatible, ReadableRecovery, ForwardStillBound, Apply;
    EveryStepHasOutcome(env, w, s, id);
    KeyedTransition(env, w, id);
    if s.CommitStep? && s.op == id {
      ReadyOf(env, w, id);
    } else if s.FinishForwardStep? && s.op == id {
      RecoveringAt(env, w, id);
    }
  }

  lemma RecoveringAt(env: Env, w: World, op: Uuid)
    requires Inv(env, w) && op in w.flights && w.flights[op].Recovering?
    ensures w.flights[op].recovery.operation == op
  {
    hide DbOk, FlightsOk, RecoveryPendingFor, CheckDispatch;
    RecoveringFlight(w, op);
  }

  /**
   * An unfinished transition whose expected revision leaves no room for two more
   * is never finished: no run changes its row, and no run makes room for another
   * operation of its App.
   */
  lemma {:induction false} BeyondTheLimitNothingMoves(env: Env, w: World, steps: seq<Step>, id: Uuid)
    requires Inv(env, w) && IsRun(env, w, steps) && id in w.db.transitions && !Terminal(w.db.transitions[id])
    requires w.db.transitions[id].expected > MAX_INT64 - 2
    ensures var last := After(env, w, steps).db;
      && id in last.transitions && last.transitions[id] == w.db.transitions[id]
      && forall u, q, replay, cur, op, newId ::
           Enabled(After(env, w, steps), SubmitStep(u, q, replay, cur, op, newId))
           && replay.None? && CommandOf(q).app == w.db.transitions[id].app
           ==> Submit(env, last, u, q, replay, cur, op, newId).1.Err?
    decreases |steps|
  {
    hide Inv, Next;
    if steps == [] {
      BusyAppAcceptsNothing(env, w, id);
    } else {
      BeyondTheLimitNoStepMoves(env, w, steps[0], id);
      StepKeepsInvariant(env, w, steps[0]);
      BeyondTheLimitNothingMoves(env, Next(env, w, steps[0]), steps[1..], id);
    }
  }

  lemma BusyAppAcceptsNothing(env: Env, w: World, id: Uuid)
    requires id in w.db.transitions && !Terminal(w.db.transitions[id])
    ensures forall u, q, replay, cur, op, newId ::
      Enabled(w, SubmitStep(u, q, replay, cur, op, newId))
      && replay.None? && CommandOf(q).app == w.db.transitions[id].app
      ==> Submit(env, w.db, u, q, replay, cur, op, newId).1.Err?
  {
    hide CheckCommand, Admit, Reserve, BindOperation, BindInputs, NewOperation, IsReplay, IsCurrent;
    assert TransitionBusyForApp(w.db, w.db.transitions[id].app);
  }

  // ---------- Running up one revision ----------

  const APP := "demo"
  const VERSION := "1.0.0"

  ghost predicate Offers(env: Env) {
    APP in env.catalog && env.catalog[APP] == VERSION
  }

  /** Idempotency keys are per user, so that a new user may reuse one. */
  function Name(n: nat): string {
    seq(n, _ => 'u')
  }

  function Caller(env: Env, n: nat): Identity {
    Identity(Name(n), "org", env.station, true, true, true)
  }

  function Submitted(env: Env, action: Action): Request {
    Plain(Command("", "request", "idem-key", "org", env.station, APP, VERSION, action))
  }

  function Finish(op: Uuid, status: OperationStatus): Answer {
    Reported(if status == Succeeded then Report(op, Succeeded, Completed, 0, None, "", "")
             else Report(op, Failed, Checking, 0, None, "INTERNAL", "failed"))
  }

  /** One installation, at revision `r`, and `n` operations that are over, each of another user. */
  ghost predicate Idle(w: World, n: nat, r: int) {
    && w.flights == map[]
    && (exists last :: w.db.installations == map[0 := Installation(0, APP, VERSION, "org", Installed, r, last)])
    && (forall i :: i in w.db.operations ==> i < n && !Active(w.db.operations[i]) && |w.db.operations[i].user| < n)
    && w.db == EMPTY.(installations := w.db.installations, operations := w.db.operations)
  }

  /** The row of one accepted command. */
  function Begun(env: Env, n: nat, action: Action): Operation {
    NewOperation(Caller(env, n), Submitted(env, action), n, Some(0))
  }

  lemma StartMayBeSubmitted(env: Env, w: World, n: nat, r: int)
    requires Idle(w, n, r)
    ensures Enabled(w, SubmitStep(Caller(env, n), Submitted(env, Start), None, Some(0), n, 1))
    ensures !OperationBusy(w.db, APP) && !TransitionBusyForApp(w.db, APP)
  {
    var u, q := Caller(env, n), Submitted(env, Start);
    assert forall i :: i in w.db.operations ==> !SameKey(w.db.operations[i], u.user, u.org, CommandOf(q).key);
  }

  lemma StartPassesTheChecks(env: Env, db: Db, n: nat)
    requires Offers(env) && 0 in db.installations && db.installations[0].org == "org" && db.installations[0].version == VERSION
    ensures var u, q := Caller(env, n), Submitted(env, Start);
      && CheckCommand(env, u, q).None? && Admit(env, db, u, q, Some(0)) == Ok(None)
      && Reserve(env, db, u, q, Some(0), 1) == Ok((db, Some(0)))
  {
    hide VersionChangeAllowed;
  }

  lemma StartIsAccepted(env: Env, w: World, n: nat, r: int)
    requires Offers(env) && Idle(w, n, r) && 1 <= r < MAX_INT64
    ensures var s := SubmitStep(Caller(env, n), Submitted(env, Start), None, Some(0), n, 1);
      && Enabled(w, s)
      && Next(env, w, s) == World(w.db.(
           installations := map[0 := w.db.installations[0].(revision := r + 1, lastOperation := Some(n))],
           operations := w.db.operations[n := Begun(env, n, Start)]), map[])
  {
    StartMayBeSubmitted(env, w, n, r);
    StartPassesTheChecks(env, w.db, n);
    hide Offers, Enabled, Caller, CheckCommand, Admit, Reserve, OperationBusy, TransitionBusyForApp, NewOperation;
    assert Begun(env, n, Start).installation == Some(0) && Begun(env, n, Start).id == n by { BegunForm(env, n); }
  }

  lemma BegunForm(env: Env, n: nat)
    ensures Begun(env, n, Start).installation == Some(0) && Begun(env, n, Start).id == n
  {
  }

  lemma FailureIsRecorded(env: Env, w: World, n: nat)
    requires n in w.db.operations && w.db.operations[n] == Begun(env, n, Start)
    requires n !in w.db.inputs && n !in w.db.operationBindings
    requires 0 in w.db.installations && w.db.installations[0].state == Installed && w.db.installations[0].version == VERSION
    ensures var s := DispatchStep(n, true, Finish(n, Failed));
      && Enabled(w, s)
      && Next(env, w, s) == w.(db := w.db.(operations := w.db.operations[n := Begun(env, n, Start).(status := Failed, phase := Checking)]))
  {
  }

  ghost predicate Visited(env: Env, n: nat, r: int) {
    exists w :: Reachable(env, w) && Idle(w, n, r)
  }

  lemma InstallIsAccepted(env: Env)
    requires Offers(env)
    ensures var s := SubmitStep(Caller(env, 0), Submitted(env, Install), None, None, 0, 0);
      && Enabled(INITIAL, s)
      && Next(env, INITIAL, s) == World(EMPTY.(
           installations := map[0 := Installation(0, APP, VERSION, "org", Pending, 2, Some(0))],
           operations := map[0 := Begun(env, 0, Install)]), map[])
  {
    var u, q := Caller(env, 0), Submitted(env, Install);
    assert CheckCommand(env, u, q).None?;
    assert Admit(env, EMPTY, u, q, None) == Ok(None);
    assert !OperationBusy(EMPTY, APP) && !TransitionBusyForApp(EMPTY, APP);
  }

  lemma InstalledIsIdle(env: Env)
    requires Offers(env)
    ensures Visited(env, 1, 3)
  {
    hide Reachable, Submit;
    var s := SubmitStep(Caller(env, 0), Submitted(env, Install), None, None, 0, 0);
    InstallIsAccepted(env);
    InitialIsReachable(env);
    ReachableExtends(env, INITIAL, s);
    var w := Next(env, INITIAL, s);
    var d := DispatchStep(0, true, Finish(0, Succeeded));
    ReachableExtends(env, w, d);
    assert Next(env, w, d).db.installations == map[0 := Installation(0, APP, VERSION, "org", Installed, 3, Some(0))];
    assert Idle(Next(env, w, d), 1, 3);
  }

  lemma OneMoreRevision(env: Env, n: nat, r: int)
    requires Offers(env) && Visited(env, n, r) && 1 <= r < MAX_INT64
    ensures Visited(env, n + 1, r + 1)
  {
    hide Reachable, Enabled, Next;
    var w :| Reachable(env, w) && Idle(w, n, r);
    var s := SubmitStep(Caller(env, n), Submitted(env, Start), None, Some(0), n, 1);
    StartIsAccepted(env, w, n, r);
    ReachableExtends(env, w, s);
    var begun := Next(env, w, s);
    FailureIsRecorded(env, begun, n);
    var d := DispatchStep(n, true, Finish(n, Failed));
    ReachableExtends(env, begun, d);
    assert Idle(Next(env, begun, d), n + 1, r + 1);
  }

  lemma {:induction false} EveryRevisionIsReached(env: Env, r: int)
    requires Offers(env) && 3 <= r <= MAX_INT64
    ensures exists n: nat :: Visited(env, n, r)
    decreases r
  {
    hide Offers, Visited;
    if r == 3 {
      InstalledIsIdle(env);
    } else {
      EveryRevisionIsReached(env, r - 1);
      var n: nat :| Visited(env, n, r - 1);
      OneMoreRevision(env, n, r - 1);
      assert Visited(env, n + 1, r);
    }
  }

  // ---------- A transition at the limit ----------

  function SomeDigest(): string {
    "sha256:" + seq(64, _ => 'a')
  }

  function Released(version: string, ref: string): Snapshot {
    var d := SomeDigest();
    Snapshot(APP, version, ref, d, d, d, d, "", "", Some([]), "dashboard-release", d)
  }

  const NEXT_VERSION := "1.0.1"

  function UpgradeCommand(r: int): TransitionCommand {
    TransitionCommand("request", "idem-key", 0, r, VERSION, "demo-2", Upgrade)
  }

  lemma ExampleParts()
    ensures Split(VERSION, '.') == ["1", "0", "0"] && Split(NEXT_VERSION, '.') == ["1", "0", "1"]
  {
    SplitWhole("0", '.');
    SplitWhole("1", '.');
    SplitStep('0', "0");
    SplitStep('0', "1");
    SplitStep('1', "0.0");
    SplitStep('1', "0.1");
    hide Split;
    assert VERSION == ['1'] + "." + "0.0" && NEXT_VERSION == ['1'] + "." + "0.1";
    assert ['0'] + "." + "0" == "0.0" && ['0'] + "." + "1" == "0.1";
  }

  lemma ExampleVersions()
    ensures IsVersion(VERSION) && IsVersion(NEXT_VERSION) && VersionOrder(NEXT_VERSION, VERSION) > 0
  {
    ExampleParts();
    hide Split;
    assert "1"[..0] == "" && "0"[..0] == "";
    assert Value("1") == 1 && Value("0") == 0;
    hide Value;
    LastNumberDecides([1, 0], 1, 0);
    assert Numbers(Split(NEXT_VERSION, '.')) == [1, 0] + [1] && Numbers(Split(VERSION, '.')) == [1, 0] + [0];
  }

  lemma {:induction false} LastNumberDecides(front: seq<nat>, a: nat, b: nat)
    requires a > b
    ensures NumbersOrder(front + [a], front + [b]) > 0
  {
    if front != [] {
      LastNumberDecides(front[1..], a, b);
      assert (front + [a])[1..] == front[1..] + [a] && (front + [b])[1..] == front[1..] + [b];
    }
  }

  lemma ExampleRelease()
    ensures Compatible(Upgrade, APP, VERSION, VERSION, "demo-2", Released(VERSION, "demo-1"), Released(NEXT_VERSION, "demo-2"))
  {
    ExampleVersions();
    hide IsVersion, VersionOrder;
    assert IsDigest(SomeDigest()) by { assert SomeDigest()[..7] == "sha256:"; }
    hide IsDigest, SomeDigest;
    assert IsName(APP) && IsName("demo-1") && IsName("demo-2");
  }

  lemma UpgradeMayBeSubmitted(w: World, n: nat, r: int)
    requires Idle(w, n, r)
    ensures !OperationBusy(w.db, APP) && !TransitionBusyForInstallation(w.db, 0)
    ensures Retained(w.db, Released(VERSION, "demo-1")) && Retained(w.db, Released(NEXT_VERSION, "demo-2"))
    ensures w.db.transitions == map[]
    ensures 0 in w.db.installations && var i := w.db.installations[0];
      i.org == "org" && i.state == Installed && i.version == VERSION && i.revision == r && i.app == APP
  {
    hide Released;
  }

  lemma UpgradeIsAccepted(env: Env, w: World, n: nat, r: int)
    requires Idle(w, n, r) && 1 <= r
    ensures var s := TransitionStep(Caller(env, n), UpgradeCommand(r), None,
                                    Ok((Released(VERSION, "demo-1"), Released(NEXT_VERSION, "demo-2"))), 0);
      && Enabled(w, s)
      && 0 in Next(env, w, s).db.transitions
      && var t := Next(env, w, s).db.transitions[0]; t.status == TAccepted && t.expected == r && t.app == APP
  {
    ExampleRelease();
    ExampleVersions();
    UpgradeMayBeSubmitted(w, n, r);
    assert IsName("demo-2");
    hide Compatible, IsVersion, IsName, Released, ValidSnapshot, Idle, OperationBusy, TransitionBusyForInstallation, Retained, Name;
  }

  predicate AcceptedAt(db: Db, id: Uuid, r: int) {
    id in db.transitions && db.transitions[id].status == TAccepted && db.transitions[id].expected == r
  }

  /**
   * The missing guard can be missed: at every revision from the third on, and so
   * above the dispatcher's limit, some run has an accepted transition.
   */
  lemma EveryRevisionIsAccepted(env: Env, r: int)
    requires Offers(env) && 3 <= r <= MAX_INT64
    ensures exists w, id :: Reachable(env, w) && AcceptedAt(w.db, id, r)
  {
    hide Offers, Reachable, Enabled, Next;
    EveryRevisionIsReached(env, r);
    var n: nat :| Visited(env, n, r);
    var w :| Reachable(env, w) && Idle(w, n, r);
    var s := TransitionStep(Caller(env, n), UpgradeCommand(r), None,
                            Ok((Released(VERSION, "demo-1"), Released(NEXT_VERSION, "demo-2"))), 0);
    UpgradeIsAccepted(env, w, n, r);
    ReachableExtends(env, w, s);
    assert AcceptedAt(Next(env, w, s).db, 0, r);
  }

  // ---------- A dispatch that rolls back ----------

  predicate RollsBack(env: Env, db: Db, id: Uuid, a: Answer) {
    && id in db.operations && Active(db.operations[id])
    && Scheduling.EndOf(DispatchOne(env, db, id, true, a).1) == Scheduling.RolledBack
  }

  /** A report of operation 1 for operation 0 of the first command of a run rolls back. */
  lemma SomeDispatchRollsBack(env: Env)
    requires Offers(env)
    ensures exists w, id, a :: Reachable(env, w) && RollsBack(env, w.db, id, a)
  {
    hide Reachable, DispatchOne, Enabled, Next, Submitted, Caller;
    var s := SubmitStep(Caller(env, 0), Submitted(env, Install), None, None, 0, 0);
    InstallIsAccepted(env);
    InitialIsReachable(env);
    ReachableExtends(env, INITIAL, s);
    var w, a := Next(env, INITIAL, s), Finish(1, Succeeded);
    assert Scheduling.Callable(w.db, 0, true) && Scheduling.BadReport(0, a);
    Scheduling.RollsBackExactlyOnABadReport(env, w, 0, true, a);
    assert RollsBack(env, w.db, 0, a);
  }
}
