/**
 * Every interleaving of the writers. A SQL transaction is one step; a dispatch
 * or a forward recovery is several, between which any other step may happen.
 * `flights` holds what each caller that owns a per-operation session lock has
 * read so far; losing the connection drops the flight and its lock together.
 */
module Interleaving {
  import opened Common
  import opened Releases
  import opened Rows
  import opened Lifecycle
  import opened Transitions

  datatype Flight =
    | Locked                      // holds the lock, has read nothing
    | RowRead(t: Transition)      // has read the transition row
    | Ready(prior: Dispatch)      // has read both rows and passed the checks
    | Recovering(recovery: Recovery)  // has a pending forward recovery and may call Runtime

  datatype World = World(db: Db, flights: map<Uuid, Flight>)

  const INITIAL := World(EMPTY, map[])

  datatype Step =
    | SubmitStep(u: Identity, q: Request, replay: Option<Uuid>, cur: Option<Uuid>, op: Uuid, newId: Uuid)
    | DispatchStep(op: Uuid, canCallBound: bool, answer: Answer)
    | TransitionStep(u: Identity, c: TransitionCommand, replay: Option<Uuid>, releases: Result<(Snapshot, Snapshot), Error>, newId: Uuid)
    | LockStep(op: Uuid)
    | ReadRowStep(op: Uuid)
    | ReadInstalledStep(op: Uuid)
    | CommitStep(op: Uuid, requestId: Uuid, runtime: RuntimeAnswer)
    | AcceptForwardStep(op: Uuid, u: Identity, f: ForwardCommand, replay: Option<Uuid>, releases: Result<(Snapshot, Snapshot), Error>, newId: Uuid)
    | FinishForwardStep(op: Uuid, verified: bool, proof: bool)
    | ReleaseStep(op: Uuid)

  /** What the database and the locks allow: query results are rows, new identifiers are new, locks exclude. */
  predicate Enabled(w: World, s: Step) {
    match s
    case SubmitStep(u, q, replay, cur, op, newId) =>
      && IsReplay(w.db, u.user, u.org, CommandOf(q).key, replay)
      && IsCurrent(w.db, CommandOf(q).app, cur)
      && op !in w.db.operations && op !in w.db.operationBindings && op !in w.db.inputs
      && newId !in w.db.installations && newId !in w.db.installationBindings
    case DispatchStep(op, _, _) => op in w.db.operations && Active(w.db.operations[op])
    case TransitionStep(u, c, replay, _, newId) =>
      IsTransitionReplay(w.db, u.user, u.org, c.key, replay) && newId !in w.db.transitions
    case LockStep(op) => op !in w.flights
    case ReadRowStep(op) => op in w.flights && w.flights[op].Locked? && op in w.db.transitions
    case ReadInstalledStep(op) => op in w.flights && w.flights[op].RowRead?
    case CommitStep(op, _, _) => op in w.flights && w.flights[op].Ready?
    case AcceptForwardStep(op, u, f, replay, _, newId) =>
      && op in w.flights && w.flights[op].Locked? && f.operation == op
      && IsRecoveryReplay(w.db, u.user, u.org, f.key, replay) && newId !in w.db.recoveries
    case FinishForwardStep(op, _, _) => op in w.flights && w.flights[op].Recovering?
    case ReleaseStep(op) => op in w.flights
  }

  function Unlocked(w: World, db: Db, op: Uuid): World {
    World(db, w.flights - {op})
  }

  /** The dispatcher's second read and its checks; a failed check ends the flight. */
  function ReadInstalled(w: World, op: Uuid, t: Transition): World {
    if t.installation !in w.db.installations || w.db.installations[t.installation].org != t.org then Unlocked(w, w.db, op)
    else
      var d := Dispatch(t, w.db.installations[t.installation]);
      if Terminal(t) || CheckDispatch(d, RecoveryPendingFor(w.db, op)).Some? then Unlocked(w, w.db, op)
      else w.(flights := w.flights[op := Ready(d)])
  }

  function CommitFlight(db: Db, prior: Dispatch, requestId: Uuid, a: RuntimeAnswer): Db {
    match Decide(prior, requestId, a)
    case Err(_) => db
    case Ok(plan) => Commit(db, prior, plan).0
  }

  function AcceptForwardFlight(env: Env, w: World, op: Uuid, u: Identity, f: ForwardCommand, replay: Option<Uuid>,
                               releases: Result<(Snapshot, Snapshot), Error>, newId: Uuid): World
    requires replay.Some? ==> replay.value in w.db.recoveries
  {
    var (next, r) := AcceptForward(env, w.db, u, f, replay, releases, newId);
    if r.Ok? && r.value.state == RecoveryPending then World(next, w.flights[op := Recovering(r.value)])
    else Unlocked(w, next, op)
  }

  function Next(env: Env, w: World, s: Step): World
    requires Enabled(w, s)
  {
    match s
    case SubmitStep(u, q, replay, cur, op, newId) => w.(db := Submit(env, w.db, u, q, replay, cur, op, newId).0)
    case DispatchStep(op, canCallBound, answer) => w.(db := DispatchOne(env, w.db, op, canCallBound, answer).0)
    case TransitionStep(u, c, replay, releases, newId) => w.(db := SubmitTransition(env, w.db, u, c, replay, releases, newId).0)
    case LockStep(op) => w.(flights := w.flights[op := Locked])
    case ReadRowStep(op) => w.(flights := w.flights[op := RowRead(w.db.transitions[op])])
    case ReadInstalledStep(op) => ReadInstalled(w, op, w.flights[op].t)
    case CommitStep(op, requestId, runtime) => Unlocked(w, CommitFlight(w.db, w.flights[op].prior, requestId, runtime), op)
    case AcceptForwardStep(op, u, f, replay, releases, newId) => AcceptForwardFlight(env, w, op, u, f, replay, releases, newId)
    case FinishForwardStep(op, verified, proof) => Unlocked(w, FinishForward(w.db, w.flights[op].recovery, verified, proof).0, op)
    case ReleaseStep(op) => Unlocked(w, w.db, op)
  }

  /** The steps of a run are allowed one after the other, starting from `w`. */
  predicate IsRun(env: Env, w: World, steps: seq<Step>)
    decreases |steps|
  {
    steps == [] || (Enabled(w, steps[0]) && IsRun(env, Next(env, w, steps[0]), steps[1..]))
  }

  function After(env: Env, w: World, steps: seq<Step>): World
    requires IsRun(env, w, steps)
    decreases |steps|
  {
    if steps == [] then w else After(env, Next(env, w, steps[0]), steps[1..])
  }
}
