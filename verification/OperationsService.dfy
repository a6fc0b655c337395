/**
 * The operations service as an object whose methods change the tables. Each
 * method is one transaction, or one statement of a caller that holds a session
 * lock, and is proved to be one step of the interleaving model.
 */
module OperationsService {
  import opened Common
  import opened TransitionVersions
  import opened Releases
  import opened Rows
  import opened Lifecycle
  import opened Transitions
  import opened Interleaving

  class Service {
    const env: Env
    var db: Db
    var flights: map<Uuid, Flight>

    ghost function State(): World
      reads this
    {
      World(db, flights)
    }

    constructor (env: Env)
      ensures State() == INITIAL && this.env == env
    {
      this.env := env;
      db, flights := EMPTY, map[];
    }

    // ---------- Queries ----------

    method FindCurrent(app: string) returns (cur: Option<Uuid>)
      ensures IsCurrent(db, app, cur)
    {
      if id :| id in db.installations && db.installations[id].app == app && db.installations[id].state != Removed {
        return Some(id);
      }
      return None;
    }

    method FindReplay(user: string, org: string, key: string) returns (replay: Option<Uuid>)
      ensures IsReplay(db, user, org, key, replay)
    {
      if id :| id in db.operations && SameKey(db.operations[id], user, org, key) {
        return Some(id);
      }
      return None;
    }

    method FindTransitionReplay(user: string, org: string, key: string) returns (replay: Option<Uuid>)
      ensures IsTransitionReplay(db, user, org, key, replay)
    {
      if id :| id in db.transitions && SameTransitionKey(db.transitions[id], user, org, key) {
        return Some(id);
      }
      return None;
    }

    method FindRecoveryReplay(user: string, org: string, key: string) returns (replay: Option<Uuid>)
      ensures IsRecoveryReplay(db, user, org, key, replay)
    {
      if id :| id in db.recoveries && SameRecoveryKey(db.recoveries[id], user, org, key) {
        return Some(id);
      }
      return None;
    }

    // ---------- Lifecycle operations ----------

    /** reserveInstallation on the tables of an open transaction. */
    method ReserveInstallation(open: Db, u: Identity, q: Request, cur: Option<Uuid>, newId: Uuid)
      returns (tx: Db, id: Option<Uuid>, error: Option<Error>)
      requires cur.Some? ==> cur.value in open.installations
      ensures Reserve(env, open, u, q, cur, newId) == if error.Some? then Err(error.value) else Ok((tx, id))
    {
      var c := CommandOf(q);
      tx, id, error := open, cur, None;
      if cur.Some? {
        var i := tx.installations[cur.value];
        var bound := cur.value in tx.installationBindings;
        var allowed := LegacyVersionAdoption(q.Preinstalled?, c.action, i.state, bound)
                       || (!q.Preinstalled? && c.action == Upgraded && i.state == Installed);
        if q.Preinstalled? && bound && i.version != c.version {
          allowed := SourceRecovery(env, tx, cur.value, i.version, tx.installationBindings[cur.value], q.release, c.action, i.state);
        }
        if i.org != u.org || (i.version != c.version && !allowed) {
          error := Some(Conflict);
        }
        return;
      }
      if c.action != Install && c.action != Start && c.action != Adopt {
        return;
      }
      id := Some(newId);
      tx := tx.(installations := tx.installations[newId := Installation(newId, c.app, c.version, u.org, Pending, 1, None)]);
    }

    /** bindInstallationOperation: insert the row and make it the installation's latest operation. */
    method BindInstallationOperation(open: Db, o: Operation) returns (tx: Db, error: Option<Error>)
      requires o.installation.Some? ==> o.installation.value in open.installations
      ensures BindOperation(open, o) == if error.Some? then Err(error.value) else Ok(tx)
    {
      tx, error := open.(operations := open.operations[o.id := o]), None;
      if o.installation.Some? {
        var i := tx.installations[o.installation.value];
        if i.revision >= MAX_INT64 {
          return tx, Some(OutOfRange);
        }
        i := i.(revision := i.revision + 1, lastOperation := Some(o.id));
        tx := tx.(installations := tx.installations[o.installation.value := i]);
      }
    }

    /** The constrained input or the release bindings that belong to a new operation. */
    method BindOperationInputs(open: Db, o: Operation, q: Request, execution: Option<Execution>) returns (tx: Db, error: Option<Error>)
      requires o.installation.Some? ==> o.installation.value in open.installations
      ensures BindInputs(open, o, q, execution) == if error.Some? then Err(error.value) else Ok(tx)
    {
      tx, error := open, None;
      if q.AppCenter? {
        if execution.None? {
          return tx, Some(ReleaseUnverified);
        }
        tx := tx.(inputs := tx.inputs[o.id := (q.input, execution.value)]);
      }
      if q.Preinstalled? {
        if o.installation.None? {
          return tx, Some(Unavailable);
        }
        var id := o.installation.value;
        tx := tx.(operationBindings := tx.operationBindings[o.id := q.release]);
        if tx.installations[id].version == q.release.appVersion {
          if id in tx.installationBindings && tx.installationBindings[id] != q.release {
            return tx, Some(Conflict);
          }
          tx := tx.(installationBindings := tx.installationBindings[id := q.release]);
        }
      }
    }

    /** The inserts of an accepted operation, in the order of the transaction. */
    method OpenOperation(u: Identity, q: Request, cur: Option<Uuid>, op: Uuid, newId: Uuid) returns (tx: Db, error: Option<Error>)
      requires cur.Some? ==> cur.value in db.installations
      ensures Accept(env, db, u, q, cur, op, newId) == if error.Some? then Err(error.value) else Ok(tx)
      ensures error.None? ==> op in tx.operations
    {
      hide Admit, HashOf, OperationBusy, TransitionBusyForApp, VersionChangeAllowed;
      var c := CommandOf(q);
      tx := db;
      var admitted := Admit(env, db, u, q, cur);
      if admitted.Err? {
        return tx, Some(admitted.error);
      }
      if OperationBusy(db, c.app) || TransitionBusyForApp(db, c.app) {
        return tx, Some(Conflict);
      }
      var id: Option<Uuid>;
      tx, id, error := ReserveInstallation(db, u, q, cur, newId);
      if error.Some? {
        return;
      }
      var o := NewOperation(u, q, op, id);
      tx, error := BindInstallationOperation(tx, o);
      if error.Some? {
        return;
      }
      tx, error := BindOperationInputs(tx, o, q, admitted.value);
    }

    /** Submit: one transaction that replays, refuses, or opens an operation. */
    method SubmitCommand(u: Identity, q: Request, op: Uuid, newId: Uuid) returns (r: Result<Operation, Error>, ghost s: Step)
      requires op !in db.operations && op !in db.operationBindings && op !in db.inputs
      requires newId !in db.installations && newId !in db.installationBindings
      modifies this`db
      ensures s.SubmitStep? && s.u == u && s.q == q && Enabled(old(State()), s) && State() == Next(env, old(State()), s)
      ensures r == Submit(env, old(db), u, q, s.replay, s.cur, op, newId).1
    {
      hide CheckCommand, HashOf, Accept;
      var c := CommandOf(q);
      var replay := FindReplay(u.user, u.org, c.key);
      var cur := FindCurrent(c.app);
      s := SubmitStep(u, q, replay, cur, op, newId);
      var refused := CheckCommand(env, u, q);
      if refused.Some? {
        return Err(refused.value), s;
      }
      if replay.Some? {
        var prior := db.operations[replay.value];
        if prior.hash != HashOf(q) && (!q.Plain? || prior.hash != CommandHash(c.(requestId := prior.requestId))) {
          return Err(Conflict), s;
        }
        return Ok(prior), s;
      }
      var tx, error := OpenOperation(u, q, cur, op, newId);
      if error.Some? {
        return Err(error.value), s;
      }
      db := tx;
      return Ok(tx.operations[op]), s;
    }

    /** recordInstallationProgress on the tables of an open transaction. */
    method RecordInstallationProgress(open: Db, o: Operation, result: OperationStatus) returns (tx: Db, error: Option<Error>)
      ensures Record(env, open, o, result) == if error.Some? then Err(error.value) else Ok(tx)
    {
      tx, error := open, None;
      if o.installation.None? || o.installation.value !in tx.installations {
        return;
      }
      var i := tx.installations[o.installation.value];
      if i.lastOperation != Some(o.id) {
        return;
      }
      var changed := i;
      if i.version != o.version && result == Succeeded {
        var bound := o.id in tx.operationBindings;
        if o.action != Upgraded || i.state != Installed || bound {
          if !LegacyVersionAdoption(bound, o.action, i.state, false) {
            error := Some(Conflict);
            return;
          }
          var next := tx.operationBindings[o.id];
          if i.id in tx.installationBindings &&
             (next.appVersion != o.version
              || !SourceRecovery(env, tx, i.id, i.version, tx.installationBindings[i.id], next, o.action, i.state)) {
            error := Some(Conflict);
            return;
          }
          tx := tx.(installationBindings := tx.installationBindings[i.id := next]);
        }
        changed := i.(version := o.version);
      } else {
        changed := i.(state := NextInstallState(i.state, o.action, result));
        if changed.state == i.state {
          return;
        }
      }
      if changed.revision >= MAX_INT64 {
        error := Some(OutOfRange);
        return;
      }
      tx := tx.(installations := tx.installations[i.id := changed.(revision := changed.revision + 1)]);
    }

    /** DispatchOne of a selected row: the row lock is held from its selection to the commit. */
    method DispatchRow(id: Uuid, canCallBound: bool, answer: Answer) returns (r: Result<OperationStatus, Error>, ghost s: Step)
      requires id in db.operations && Active(db.operations[id])
      modifies this`db
      ensures s == DispatchStep(id, canCallBound, answer) && State() == Next(env, old(State()), s)
      ensures r == DispatchOne(env, old(db), id, canCallBound, answer).1
    {
      hide Dispatchable, ValidReport, Record;
      s := DispatchStep(id, canCallBound, answer);
      var o := db.operations[id];
      if id in db.inputs && !canCallBound {
        return Err(DispatchUnsupported), s;
      }
      var guarded := Dispatchable(env, db, o);
      if guarded.Err? {
        return Err(guarded.error), s;
      }
      var report := ReportOf(id, answer);
      if report.None? {
        return Err(Unavailable), s;
      }
      var p := report.value;
      if p.operation != id || !ValidReport(p) {
        return Err(Progress), s;
      }
      o := o.(status := p.status, phase := p.phase);
      var tx := db.(operations := db.operations[id := o]);
      var error: Option<Error>;
      tx, error := RecordInstallationProgress(tx, o, p.status);
      if error.Some? {
        return Err(error.value), s;
      }
      db := tx;
      return Ok(p.status), s;
    }

    // ---------- Managed transitions ----------

    method AcceptManagedTransition(u: Identity, c: TransitionCommand, releases: Result<(Snapshot, Snapshot), Error>, newId: Uuid)
      returns (r: Result<Transition, Error>, ghost s: Step)
      requires newId !in db.transitions
      modifies this`db
      ensures s.TransitionStep? && Enabled(old(State()), s) && State() == Next(env, old(State()), s)
      ensures r == SubmitTransition(env, old(db), u, c, s.replay, releases, newId).1
    {
      hide ValidTransitionCommand, Compatible, Retained, ValidSnapshot, OperationBusy, TransitionBusyForInstallation;
      var replay := FindTransitionReplay(u.user, u.org, c.key);
      s := TransitionStep(u, c, replay, releases, newId);
      if u.station != env.station || !u.admin || !u.canManage {
        return Err(Denied), s;
      }
      if !ValidTransitionCommand(c) {
        return Err(Invalid), s;
      }
      if replay.Some? {
        var prior := db.transitions[replay.value];
        if prior.hash != c.(requestId := "") {
          return Err(Conflict), s;
        }
        if !ValidSnapshot(prior.source) || !ValidSnapshot(prior.target) {
          return Err(Unavailable), s;
        }
        return Ok(prior), s;
      }
      if c.installation !in db.installations || db.installations[c.installation].org != u.org {
        return Err(NotFound), s;
      }
      var i := db.installations[c.installation];
      if i.state != Installed || i.revision != c.expected || i.version != c.sourceVersion {
        return Err(Conflict), s;
      }
      if OperationBusy(db, i.app) || TransitionBusyForInstallation(db, c.installation) {
        return Err(Conflict), s;
      }
      if releases.Err? {
        return Err(releases.error), s;
      }
      var (source, target) := releases.value;
      if !Compatible(c.action, i.app, i.version, c.sourceVersion, c.targetRef, source, target) {
        return Err(Invalid), s;
      }
      if !Retained(db, source) || !Retained(db, target) {
        return Err(Conflict), s;
      }
      var t := Transition(newId, c.installation, u.user, u.org, i.app, c.key, c.(requestId := ""), c.action, c.expected,
                          source, target, TAccepted, PAccepted);
      db := db.(transitions := db.transitions[newId := t]);
      return Ok(t), s;
    }

    /** pg_try_advisory_lock: false when another caller holds the operation. */
    method TryLock(op: Uuid) returns (locked: bool)
      modifies this`flights
      ensures locked <==> op !in old(flights)
      ensures State() == if locked then Next(env, old(State()), LockStep(op)) else old(State())
    {
      locked := op !in flights;
      if locked {
        flights := flights[op := Locked];
      }
    }

    method Unlock(op: Uuid)
      requires op in flights
      modifies this`flights
      ensures State() == Next(env, old(State()), ReleaseStep(op))
    {
      flights := flights - {op};
    }

    /** The dispatcher's first read. */
    method ReadTransitionRow(op: Uuid)
      requires op in flights && flights[op].Locked? && op in db.transitions
      modifies this`flights
      ensures State() == Next(env, old(State()), ReadRowStep(op))
    {
      flights := flights[op := RowRead(db.transitions[op])];
    }

    /** The dispatcher's second read and its checks; it gives up its lock when one fails. */
    method ReadInstallationRow(op: Uuid) returns (ready: bool)
      requires op in flights && flights[op].RowRead?
      modifies this`flights
      ensures State() == Next(env, old(State()), ReadInstalledStep(op))
      ensures ready <==> op in flights
    {
      hide Readable, HeldBy, RecoveryPendingFor;
      var t := flights[op].t;
      if t.installation !in db.installations || db.installations[t.installation].org != t.org {
        flights := flights - {op};
        return false;
      }
      var i := db.installations[t.installation];
      if !Readable(t, i) || Terminal(t) || RecoveryPendingFor(db, op) {
        flights := flights - {op};
        return false;
      }
      var held := HeldBy(t, i);
      if held.None? || (BeforePublication(t.phase) && held != Some(Original)) {
        flights := flights - {op};
        return false;
      }
      flights := flights[op := Ready(Dispatch(t, i))];
      return true;
    }

    /** commitTransition: re-read under the row locks, compare, and write both rows or none. */
    method CommitTransition(op: Uuid, requestId: Uuid, runtime: RuntimeAnswer) returns (r: Result<Transition, Error>)
      requires op in flights && flights[op].Ready?
      modifies this`db, this`flights
      ensures State() == Next(env, old(State()), CommitStep(op, requestId, runtime))
      ensures var prior := old(flights)[op].prior;
        r == match Decide(prior, requestId, runtime) case Err(e) => Err(e) case Ok(plan) => Commit(old(db), prior, plan).1
    {
      hide Decide, Readable;
      var prior := flights[op].prior;
      flights := flights - {op};
      var decided := Decide(prior, requestId, runtime);
      if decided.Err? {
        return Err(decided.error);
      }
      var plan := decided.value;
      if prior.t.id !in db.transitions {
        return Err(NotFound);
      }
      var t := db.transitions[prior.t.id];
      if t.installation !in db.installations || db.installations[t.installation].org != t.org {
        return Err(NotFound);
      }
      var i := db.installations[t.installation];
      if !Readable(t, i) {
        return Err(Progress);
      }
      if t.status != prior.t.status || t.phase != prior.t.phase || DigestOf(t) != DigestOf(prior.t) || i != prior.installed {
        return Err(Conflict);
      }
      var tx := db;
      if plan.version.Some? {
        if i.state != Installed {
          return Err(Conflict);
        }
        if i.revision >= MAX_INT64 {
          return Err(OutOfRange);
        }
        tx := tx.(installations := tx.installations[i.id := i.(version := plan.version.value, revision := i.revision + 1)]);
      }
      t := t.(status := plan.status, phase := plan.phase);
      tx := tx.(transitions := tx.transitions[t.id := t]);
      db := tx;
      return Ok(t);
    }

    // ---------- Forward recovery ----------

    /** acceptForward under the parent's lock; a settled or refused recovery gives the lock up. */
    method AcceptForwardRecovery(u: Identity, c: ForwardCommand, releases: Result<(Snapshot, Snapshot), Error>, newId: Uuid)
      returns (r: Result<Recovery, Error>, ghost s: Step)
      requires c.operation in flights && flights[c.operation].Locked? && newId !in db.recoveries
      modifies this`db, this`flights
      ensures s.AcceptForwardStep? && s.op == c.operation && Enabled(old(State()), s) && State() == Next(env, old(State()), s)
      ensures r == AcceptForward(env, old(db), u, c, s.replay, releases, newId).1
    {
      hide CanRecover, ValidForwardCommand, ReadableRecovery, NewRecovery;
      var op := c.operation;
      var replay := FindRecoveryReplay(u.user, u.org, c.key);
      s := AcceptForwardStep(op, u, c, replay, releases, newId);
      if !CanRecover(env, u) {
        r := Err(Denied);
      } else if !ValidForwardCommand(env, c) {
        r := Err(Invalid);
      } else if replay.Some? {
        var prior := db.recoveries[replay.value];
        r := if prior.hash != c.(requestId := "") then Err(Conflict)
             else if !ReadableRecovery(prior) then Err(Progress) else Ok(prior);
      } else {
        r := NewRecovery(db, u, c, releases, newId);
        if r.Ok? {
          db := db.(recoveries := db.recoveries[newId := r.value]);
        }
      }
      if r.Ok? && r.value.state == RecoveryPending {
        flights := flights[op := Recovering(r.value)];
      } else {
        flights := flights - {op};
      }
    }

    /** finishForward: installation, parent and recovery change together or not at all. */
    method FinishForwardRecovery(op: Uuid, verified: bool, proof: bool) returns (r: Result<Recovery, Error>)
      requires op in flights && flights[op].Recovering?
      modifies this`db, this`flights
      ensures State() == Next(env, old(State()), FinishForwardStep(op, verified, proof))
      ensures r == FinishForward(old(db), old(flights)[op].recovery, verified, proof).1
    {
      hide ReadDispatch, ReadableRecovery, ForwardStillBound;
      var started := flights[op].recovery;
      flights := flights - {op};
      if started.id !in db.recoveries {
        return Err(NotFound);
      }
      var read := ReadDispatch(db, started.operation);
      if read.Err? {
        return Err(read.error);
      }
      var parent, current := read.value, db.recoveries[started.id];
      if !ReadableRecovery(current) {
        return Err(Progress);
      }
      if !ForwardStillBound(current, parent, started) {
        return Err(Conflict);
      }
      var tx := db;
      var state := RecoveryFailed;
      if verified {
        if !proof {
          return Err(Progress);
        }
        var i := parent.installed;
        if i.version != started.version || i.state != Installed {
          return Err(Conflict);
        }
        if i.revision >= MAX_INT64 {
          return Err(OutOfRange);
        }
        tx := tx.(installations := tx.installations[parent.t.installation :=
          i.(version := started.target.appVersion, revision := i.revision + 1)]);
        tx := tx.(transitions := tx.transitions[started.operation := parent.t.(status := TFailed, phase := PCompleted)]);
        state := RecoverySucceeded;
      }
      current := current.(state := state);
      tx := tx.(recoveries := tx.recoveries[started.id := current]);
      db := tx;
      return Ok(current);
    }
  }
}
