/** Who is dispatched next, and how long anyone waits (worker.go, transition_worker.go). */
module Scheduling {
  import opened Common
  import opened Rows
  import opened Lifecycle
  import opened Interleaving
  import opened OperationsInvariant
  import opened OperationsRuns
  import opened OperationsTheorems

  // ---------- Operations: least recently updated first ----------

  type Time = int

  /** The unfinished operations, each with the time its row was last updated. */
  type Queue = map<Uuid, Time>

  /** ORDER BY updated_at, operation_id. */
  predicate Before(q: Queue, a: Uuid, b: Uuid)
    requires a in q && b in q
  {
    q[a] < q[b] || (q[a] == q[b] && a < b)
  }

  predicate IsFirst(q: Queue, a: Uuid) {
    a in q && forall b :: b in q && b != a ==> Before(q, a, b)
  }

  function Ahead(q: Queue, x: Uuid): set<Uuid>
    requires x in q
  {
    set a | a in q && Before(q, a, x)
  }

  /** How a dispatch leaves the row it selected. */
  datatype End = Postponed | Recorded(finished: bool) | RolledBack

  datatype Turn = Serve(op: Uuid, end: End, now: Time) | Admit(op: Uuid, now: Time)

  /** Timestamps increase strictly, and the query returns the first row. */
  predicate Allowed(q: Queue, t: Turn) {
    && (forall a :: a in q ==> q[a] < t.now)
    && match t
       case Serve(op, _, _) => IsFirst(q, op)
       case Admit(op, _) => op !in q
  }

  function Turned(q: Queue, t: Turn): Queue {
    match t
    case Admit(op, now) => q[op := now]
    case Serve(op, end, now) =>
      if end == Recorded(true) then q - {op}
      else if end == RolledBack then q
      else q[op := now]
  }

  ghost predicate Queued(q: Queue, turns: seq<Turn>)
    decreases |turns|
  {
    turns == [] || (Allowed(q, turns[0]) && Queued(Turned(q, turns[0]), turns[1..]))
  }

  /** The turns that served an operation and were not rolled back. */
  function Served(turns: seq<Turn>): nat {
    if turns == [] then 0
    else (if turns[0].Serve? && turns[0].end != RolledBack then 1 else 0) + Served(turns[1..])
  }

  lemma FewerAhead(a: set<Uuid>, b: set<Uuid>)
    requires a <= b
    ensures |a| <= |b|
    ensures a != b ==> |a| < |b|
  {
    assert b == a + (b - a) && |a + (b - a)| == |a| + |b - a|;
    assert a != b ==> b - a != {};
  }

  /** A turn that does not get through with `x` leaves it in the queue, with nobody new ahead of it. */
  lemma TurnShortens(q: Queue, t: Turn, x: Uuid)
    requires x in q && Allowed(q, t) && (t.Serve? && t.op == x ==> t.end == RolledBack)
    ensures x in Turned(q, t) && Ahead(Turned(q, t), x) <= Ahead(q, x)
    ensures t.Serve? && t.end != RolledBack ==> t.op in Ahead(q, x) && t.op !in Ahead(Turned(q, t), x)
  {
  }

  /**
   * Least recently updated first: an operation gets through, by a postponement or
   * a record, before more other dispatches do than there are operations ahead of
   * it, however many are admitted meanwhile and however many roll back.
   */
  lemma {:induction false} EveryOperationIsServed(q: Queue, turns: seq<Turn>, x: Uuid)
    requires x in q && Queued(q, turns)
    requires forall i :: 0 <= i < |turns| && turns[i].Serve? && turns[i].op == x ==> turns[i].end == RolledBack
    ensures Served(turns) <= |Ahead(q, x)|
    decreases |turns|
  {
    if turns != [] {
      var t := turns[0];
      assert t.Serve? && t.op == x ==> t.end == RolledBack;
      TurnShortens(q, t, x);
      FewerAhead(Ahead(Turned(q, t), x), Ahead(q, x));
      forall i | 0 <= i < |turns[1..]| && turns[1..][i].Serve? && turns[1..][i].op == x
        ensures turns[1..][i].end == RolledBack
      {
        assert turns[1..][i] == turns[i + 1];
      }
      EveryOperationIsServed(Turned(q, t), turns[1..], x);
    }
  }

  /**
   * What rolls back does not count for a reason: such a dispatch leaves its row
   * first, so nothing else is served for as long as that operation's dispatches do.
   */
  lemma {:induction false} RollbackBlocksTheQueue(q: Queue, turns: seq<Turn>, head: Uuid)
    requires IsFirst(q, head) && Queued(q, turns)
    requires forall i :: 0 <= i < |turns| && turns[i].Serve? && turns[i].op == head ==> turns[i].end == RolledBack
    ensures forall i :: 0 <= i < |turns| && turns[i].Serve? ==> turns[i].op == head
    decreases |turns|
  {
    if turns != [] {
      var t := turns[0];
      if t.Serve? {
        assert t.op == head;
      }
      assert IsFirst(Turned(q, t), head);
      forall i | 0 <= i < |turns[1..]| && turns[1..][i].Serve? && turns[1..][i].op == head ensures turns[1..][i].end == RolledBack {
        assert turns[1..][i] == turns[i + 1];
      }
      RollbackBlocksTheQueue(Turned(q, t), turns[1..], head);
      forall i | 0 <= i < |turns| && turns[i].Serve? ensures turns[i].op == head {
        if i > 0 { assert turns[i] == turns[1..][i - 1]; }
      }
    }
  }

  /** How a dispatch with this result leaves the row: which refusals touch the scheduling time, and which roll back. */
  function EndOf(r: Result<OperationStatus, Error>): End {
    match r
    case Ok(s) => Recorded(s == Succeeded || s == Failed)
    case Err(e) => if e == DispatchUnsupported || e == BindingChanged || e == Unavailable then Postponed else RolledBack
  }

  /** The answer reports another operation, or no state an operation can be in. */
  predicate BadReport(id: Uuid, a: Answer) {
    a.Reported? && (a.report.operation != id || !ValidReport(Normalized(a.report)))
  }

  /** The gateway may be called for this operation: constrained commands need the bound call. */
  predicate Callable(db: Db, id: Uuid, canCallBound: bool) {
    id in db.inputs ==> canCallBound
  }

  predicate Exhausted(db: Db, o: Operation) {
    && o.installation.Some? && o.installation.value in db.installations
    && db.installations[o.installation.value].revision == MAX_INT64
  }

  /**
   * In a reachable world, and short of an installation whose revision is at its
   * maximum, a dispatch rolls back exactly when Runtime was called and its answer
   * is no valid report of that operation.
   */
  lemma RollsBackExactlyOnABadReport(env: Env, w: World, id: Uuid, canCallBound: bool, a: Answer)
    requires Reachable(env, w) && id in w.db.operations && Active(w.db.operations[id])
    ensures var rolledBack := EndOf(DispatchOne(env, w.db, id, canCallBound, a).1) == RolledBack;
      && (Callable(w.db, id, canCallBound) && BadReport(id, a) ==> rolledBack)
      && (rolledBack ==> Callable(w.db, id, canCallBound) && (BadReport(id, a) || Exhausted(w.db, w.db.operations[id])))
  {
    hide Reachable, Record, Dispatchable, ValidReport, DispatchOne;
    if !Callable(w.db, id, canCallBound) {
      UncallableIsPostponed(env, w.db, id, canCallBound, a);
    } else if BadReport(id, a) {
      BadReportRollsBack(env, w, id, canCallBound, a);
    } else if ReportOf(id, a).Some? {
      var r := if a.Reported? then a.report else ReportOf(id, a).value;
      if !a.Reported? { RejectionIsValid(id, a); }
      SameAnswer(env, w.db, id, canCallBound, a, r);
      AcceptedOperationCompletes(env, w, id, canCallBound, r);
    } else {
      UnknownIsPostponed(env, w, id, canCallBound, a);
    }
  }

  lemma UncallableIsPostponed(env: Env, db: Db, id: Uuid, canCallBound: bool, a: Answer)
    requires id in db.operations && !Callable(db, id, canCallBound)
    ensures EndOf(DispatchOne(env, db, id, canCallBound, a).1) == Postponed
  {
  }

  lemma BadReportRollsBack(env: Env, w: World, id: Uuid, canCallBound: bool, a: Answer)
    requires Reachable(env, w) && id in w.db.operations && Active(w.db.operations[id])
    requires Callable(w.db, id, canCallBound) && BadReport(id, a)
    ensures DispatchOne(env, w.db, id, canCallBound, a).1 == Err(Progress)
  {
    hide Record, Dispatchable, OperationOk, TransitionsOk, RecoveriesOk, Exclusion, Ledger, KeysUnique, FlightsOk, ValidReport;
    ReachableSatisfiesInvariant(env, w);
    assert OperationOk(env, w.db, w.db.operations[id]);
    DispatchableWhenOk(env, w.db, w.db.operations[id]);
    KeyedOf(env, w);
  }

  lemma RejectionIsValid(id: Uuid, a: Answer)
    requires ReportOf(id, a).Some? && !a.Reported?
    ensures var r := ReportOf(id, a).value; r.operation == id && ValidReport(r) && Normalized(r) == r
  {
  }

  lemma SameAnswer(env: Env, db: Db, id: Uuid, canCallBound: bool, a: Answer, r: Report)
    requires id in db.operations && ReportOf(id, a) == Some(Normalized(r))
    ensures DispatchOne(env, db, id, canCallBound, a) == DispatchOne(env, db, id, canCallBound, Reported(r))
  {
    hide Record, Dispatchable, ValidReport, Normalized;
  }

  lemma UnknownIsPostponed(env: Env, w: World, id: Uuid, canCallBound: bool, a: Answer)
    requires Reachable(env, w) && id in w.db.operations && Active(w.db.operations[id]) && ReportOf(id, a).None?
    ensures EndOf(DispatchOne(env, w.db, id, canCallBound, a).1) == Postponed
  {
    hide Record, Dispatchable, OperationOk, TransitionsOk, RecoveriesOk, Exclusion, Ledger, KeysUnique, FlightsOk;
    ReachableSatisfiesInvariant(env, w);
    assert OperationOk(env, w.db, w.db.operations[id]);
    DispatchableWhenOk(env, w.db, w.db.operations[id]);
    KeyedOf(env, w);
  }

  // ---------- Transitions: a cursor ----------

  /** ORDER BY CASE WHEN operation_id > cursor THEN 0 ELSE 1 END, operation_id. */
  predicate Sooner(cursor: Option<Uuid>, a: Uuid, b: Uuid) {
    var wrapsA := cursor.Some? && a <= cursor.value;
    var wrapsB := cursor.Some? && b <= cursor.value;
    (!wrapsA && wrapsB) || (wrapsA == wrapsB && a < b)
  }

  predicate IsNext(unfinished: set<Uuid>, cursor: Option<Uuid>, a: Uuid) {
    a in unfinished && forall b :: b in unfinished && b != a ==> Sooner(cursor, a, b)
  }

  /** DispatchNextTransition's query. */
  method SelectNext(unfinished: set<Uuid>, cursor: Option<Uuid>) returns (next: Option<Uuid>)
    ensures next.None? <==> unfinished == {}
    ensures next.Some? ==> IsNext(unfinished, cursor, next.value)
  {
    next := None;
    var todo := unfinished;
    while todo != {}
      invariant todo <= unfinished
      invariant next.None? <==> todo == unfinished
      invariant next.Some? ==> IsNext(unfinished - todo, cursor, next.value)
      decreases |todo|
    {
      var a :| a in todo;
      todo := todo - {a};
      if next.None? || Sooner(cursor, a, next.value) {
        forall b | b in unfinished - todo && b != a ensures Sooner(cursor, a, b) {
          assert next.None? || b == next.value || Sooner(cursor, next.value, b);
        }
        next := Some(a);
      }
    }
    assert next.Some? ==> unfinished - todo == unfinished;
  }

  function SoonerThan(unfinished: set<Uuid>, cursor: Option<Uuid>, x: Uuid): set<Uuid> {
    set a | a in unfinished && Sooner(cursor, a, x)
  }

  /** One call: what it selected, and which transitions were finished by the time of the next. */
  datatype Call = Call(selected: Uuid, finished: set<Uuid>)

  ghost predicate Calls(unfinished: set<Uuid>, cursor: Option<Uuid>, calls: seq<Call>)
    decreases |calls|
  {
    calls == [] || (IsNext(unfinished, cursor, calls[0].selected)
                    && Calls(unfinished - calls[0].finished, Some(calls[0].selected), calls[1..]))
  }

  /** A call that selects another transition brings the cursor closer to `x`. */
  lemma CursorApproaches(unfinished: set<Uuid>, cursor: Option<Uuid>, c: Call, x: Uuid)
    requires x in unfinished && IsNext(unfinished, cursor, c.selected) && c.selected != x
    ensures SoonerThan(unfinished - c.finished, Some(c.selected), x) < SoonerThan(unfinished, cursor, x)
  {
    var s := c.selected;
    assert s in SoonerThan(unfinished, cursor, x);
    forall a | a in SoonerThan(unfinished - c.finished, Some(s), x)
      ensures a in SoonerThan(unfinished, cursor, x) && a != s
    {
      assert a != s ==> Sooner(cursor, s, a);
    }
    assert s !in SoonerThan(unfinished - c.finished, Some(s), x);
  }

  /**
   * With no new acceptance, a transition that stays unfinished is selected within
   * as many calls as there are unfinished transitions, whether or not any of the
   * calls in between succeeds.
   */
  lemma {:induction false} EveryTransitionIsSelected(unfinished: set<Uuid>, cursor: Option<Uuid>, calls: seq<Call>, x: Uuid)
    requires x in unfinished && Calls(unfinished, cursor, calls)
    requires forall i :: 0 <= i < |calls| ==> calls[i].selected != x && x !in calls[i].finished
    ensures |calls| <= |SoonerThan(unfinished, cursor, x)| && |calls| < |unfinished|
    decreases |calls|
  {
    SoonerIsOther(unfinished, cursor, x);
    if calls != [] {
      var c := calls[0];
      CursorApproaches(unfinished, cursor, c, x);
      FewerAhead(SoonerThan(unfinished - c.finished, Some(c.selected), x), SoonerThan(unfinished, cursor, x));
      forall i | 0 <= i < |calls[1..]| ensures calls[1..][i].selected != x && x !in calls[1..][i].finished {
        assert calls[1..][i] == calls[i + 1];
      }
      EveryTransitionIsSelected(unfinished - c.finished, Some(c.selected), calls[1..], x);
    }
  }

  lemma SoonerIsOther(unfinished: set<Uuid>, cursor: Option<Uuid>, x: Uuid)
    requires x in unfinished
    ensures |SoonerThan(unfinished, cursor, x)| < |unfinished|
  {
    assert x !in SoonerThan(unfinished, cursor, x);
    FewerAhead(SoonerThan(unfinished, cursor, x), unfinished);
  }

  /** RunTransitions: the cursor follows the selection even when the dispatch fails. */
  method RunTransitions(unfinished: set<Uuid>, finished: seq<set<Uuid>>) returns (calls: seq<Call>)
    ensures |calls| <= |finished| && Calls(unfinished, None, calls)
    ensures |calls| < |finished| ==> forall x :: x in unfinished ==> exists i :: 0 <= i < |calls| && x in calls[i].finished
    ensures forall i :: 0 <= i < |calls| ==> calls[i].finished == finished[i]
  {
    calls := [];
    var left, cursor := unfinished, None;
    ghost var gone: set<Uuid> := {};
    CallsExtend(unfinished, None, []);
    while |calls| < |finished|
      invariant |calls| <= |finished| && Calls(unfinished, None, calls) && left == Left(unfinished, calls) && cursor == Cursor(None, calls)
      invariant forall i :: 0 <= i < |calls| ==> calls[i].finished == finished[i]
      decreases |finished| - |calls|
    {
      var next := SelectNext(left, cursor);
      if next.None? {
        LeftIsUnfinished(unfinished, calls);
        return;
      }
      var call := Call(next.value, finished[|calls|]);
      CallsAppend(unfinished, None, calls, call);
      calls := calls + [call];
      left := left - call.finished;
      cursor := next;
    }
  }

  function Left(unfinished: set<Uuid>, calls: seq<Call>): set<Uuid> {
    if calls == [] then unfinished else Left(unfinished - calls[0].finished, calls[1..])
  }

  function Cursor(cursor: Option<Uuid>, calls: seq<Call>): Option<Uuid> {
    if calls == [] then cursor else Some(calls[|calls| - 1].selected)
  }

  lemma CallsExtend(unfinished: set<Uuid>, cursor: Option<Uuid>, calls: seq<Call>)
    requires calls == []
    ensures Calls(unfinished, cursor, calls) && Left(unfinished, calls) == unfinished
  {
  }

  lemma {:induction false} CallsAppend(unfinished: set<Uuid>, cursor: Option<Uuid>, calls: seq<Call>, call: Call)
    requires Calls(unfinished, cursor, calls) && IsNext(Left(unfinished, calls), Cursor(cursor, calls), call.selected)
    ensures Calls(unfinished, cursor, calls + [call]) && Left(unfinished, calls + [call]) == Left(unfinished, calls) - call.finished
    decreases |calls|
  {
    if calls == [] {
      assert [call][1..] == [];
    } else {
      CallsAppend(unfinished - calls[0].finished, Some(calls[0].selected), calls[1..], call);
      assert (calls + [call])[1..] == calls[1..] + [call];
    }
  }

  lemma {:induction false} LeftIsUnfinished(unfinished: set<Uuid>, calls: seq<Call>)
    ensures forall x :: x in unfinished && x !in Left(unfinished, calls) ==> exists i :: 0 <= i < |calls| && x in calls[i].finished
    decreases |calls|
  {
    if calls != [] {
      LeftIsUnfinished(unfinished - calls[0].finished, calls[1..]);
      forall x | x in unfinished && x !in Left(unfinished, calls) ensures exists i :: 0 <= i < |calls| && x in calls[i].finished {
        if x in unfinished - calls[0].finished {
          var i :| 0 <= i < |calls[1..]| && x in calls[1..][i].finished;
          assert x in calls[i + 1].finished;
        }
      }
    }
  }
}
