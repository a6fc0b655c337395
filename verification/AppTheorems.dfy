/** The promises of the application-state cache, over every run of calls on it. */
module AppTheorems {
  import opened Common
  import opened Observations
  import opened AppMemory
  import opened AppHistory
  import opened AppInvariant
  import opened AppEvidence
  import opened AppProjection
  import opened AppSteps

  // ---------- The cache is a replay ----------

  /**
   * After any run, with takeovers, timeouts and refused frames, an inventory is
   * the replay of the frames accepted for it, keyed by position, and bounded.
   */
  lemma CacheIsReplay(w: World, c: string)
    requires Reachable(w) && c in w.mem.collectors
    ensures var inv := w.mem.collectors[c];
      && Facts(inv.objects) == Replayed(w.log, c) && |inv.objects| <= MAX_INVENTORY
      && forall p :: p in inv.objects ==> inv.objects[p].o.pos == p && p.namespace in inv.config.namespaces
  {
    hide SessionsOk, BindingsOk, Current, Sound, Facts;
    ReachableSatisfiesInvariant(w);
    assert InventoryOk(w.log, w.clock, c, w.mem.collectors[c]);
  }

  /** A position is in the inventory of at most one collector. */
  lemma PositionHasOneCollector(w: World, c: string, d: string, p: Position)
    requires Reachable(w) && c in w.mem.collectors && d in w.mem.collectors
    requires p in w.mem.collectors[c].objects && p in w.mem.collectors[d].objects
    ensures c == d
  {
    CacheIsReplay(w, c);
    CacheIsReplay(w, d);
    ReachableSatisfiesInvariant(w);
    hide SessionsOk, InventoriesOk, BindingsOk, Current;
  }

  /** Everything a collector's inventory publishes. */
  predicate SamePublished(a: Inventory, b: Inventory) {
    a == b.(active := a.active)
  }

  /** A list is invisible until it is complete: beginning it and filling it publish nothing. */
  lemma StagingIsInvisible(w: World, s: Step, c: string)
    requires Enabled(w, s) && s.act.FrameAct? && (s.act.frame.Begin? || s.act.frame.Objects?) && c in w.mem.collectors
    ensures c in Next(w, s).mem.collectors && SamePublished(Next(w, s).mem.collectors[c], w.mem.collectors[c])
    ensures Replayed(Next(w, s).log, c) == Replayed(w.log, c)
  {
    hide PutAll, Projected, Advanced, Moved, MatchesOf, Replay, Handle, Live, CloseSession, Heard;
    var sid, f := s.act.sid, s.act.frame;
    if Accepts(w.mem, s) {
      LiveHas(w.mem, sid, s.now);
      StagingKeepsCollectors(w.mem, sid, f, s.now);
      var e := Accepted(s.now, w.mem.sessions[sid].collector, sid, f);
      LogStep(w.log, e, c, sid);
      OtherFramesReplayNothing(Replayed(w.log, c), Sent(w.log, sid), e, c);
    } else {
      ClosePublishesNothing(w.mem, sid);
      assert w.log + Logged(w.mem, s) == w.log;
    }
  }

  lemma StagingKeepsCollectors(m: Mem, sid: SessionId, f: Frame, now: Time)
    requires Has(m, sid) && (f.Begin? || f.Objects?) && Handle(m, sid, f, now).Ok?
    ensures Heard(Handle(m, sid, f, now).value, sid, now).collectors == m.collectors
  {
    hide PutAll, ChunkOk, IsId;
  }

  lemma ClosePublishesNothing(m: Mem, sid: SessionId)
    ensures var m' := CloseSession(m, sid);
      m'.collectors.Keys == m.collectors.Keys
      && forall c :: c in m.collectors ==> SamePublished(m'.collectors[c], m.collectors[c])
  {
  }

  lemma OtherFramesReplayNothing(facts: map<Position, Observation>, sent: map<Position, Observation>, e: Event, c: string)
    requires e.Accepted? && (e.frame.Begin? || e.frame.Objects?)
    ensures Replay(facts, sent, e, c) == facts
  {
  }

  /** A refused frame closes its own session; no inventory, binding, revision or other session changes. */
  lemma RefusedFrameIsInert(w: World, s: Step)
    requires Enabled(w, s) && s.act.FrameAct? && !Accepts(w.mem, s)
    ensures var w' := Next(w, s);
      && w'.log == w.log && w'.mem.bindings == w.mem.bindings && w'.mem.scopes == w.mem.scopes
      && w'.mem.collectors.Keys == w.mem.collectors.Keys
      && (forall c :: c in w.mem.collectors ==> SamePublished(w'.mem.collectors[c], w.mem.collectors[c]))
      && (forall sid :: sid in w.mem.sessions && sid != s.act.sid ==>
            sid in w'.mem.sessions && w'.mem.sessions[sid] == w.mem.sessions[sid])
      && (Has(w.mem, s.act.sid) ==> s.act.sid in w'.mem.sessions && w'.mem.sessions[s.act.sid].closed)
  {
    hide Handle, Live, ProjectAll, MatchesOf;
  }

  // ---------- Session capability ----------

  lemma OpenOrClosed(w: World, sid: SessionId)
    requires Inv(w) && sid in w.mem.sessions
    ensures Has(w.mem, sid)
    ensures w.mem.sessions[sid].closed <==> w.mem.collectors[w.mem.sessions[sid].collector].active != Some(sid)
  {
    hide EvidenceOk, BindingsOk, Current;
    OpenIsActive(w.mem, w.log, w.clock, sid);
  }

  /** A session is its collector's active one, and live exactly until its deadline, or it is closed. */
  lemma SessionIsActiveOrClosed(w: World, sid: SessionId, now: Time)
    requires Reachable(w) && sid in w.mem.sessions
    ensures var s := w.mem.sessions[sid];
      && s.collector in w.mem.collectors
      && (s.closed <==> w.mem.collectors[s.collector].active != Some(sid))
      && (Live(w.mem, sid, now) <==> !s.closed && now < Deadline(s))
  {
    hide Inv, Reachable;
    ReachableSatisfiesInvariant(w);
    OpenOrClosed(w, sid);
  }

  /** What the sweep over collectors relies on: an active session is a session of its collector. */
  lemma ReachableIsLinked(w: World)
    requires Reachable(w)
    ensures Linked(w.mem)
  {
    ReachableSatisfiesInvariant(w);
    hide InventoriesOk, SessionsOk, BindingsOk, Current;
  }

  lemma ClosedStaysClosed(w: World, s: Step, sid: SessionId)
    requires Inv(w) && Enabled(w, s) && sid in w.mem.sessions && w.mem.sessions[sid].closed
    ensures sid in Next(w, s).mem.sessions && Next(w, s).mem.sessions[sid].closed
  {
    hide Inv, MatchesOf, Projected, Advanced, Moved, Handle, Register, Stale;
    OpenOrClosed(w, sid);
    match s.act {
      case FrameAct(other, f) =>
        if Accepts(w.mem, s) {
          HandleTouches(w.mem, other, f, s.now);
        }
      case ReadAct(bindings) =>
        if Register(w.mem, bindings).Ok? { RegisterForm(w.mem, bindings); }
      case _ =>
    }
  }

  /** Once closed, by its owner, a deadline, a takeover or a bad frame, a session is closed forever. */
  lemma {:induction false} ClosedForever(w: World, steps: seq<Step>, sid: SessionId)
    requires Inv(w) && IsRun(w, steps) && sid in w.mem.sessions && w.mem.sessions[sid].closed
    ensures sid in After(w, steps).mem.sessions && After(w, steps).mem.sessions[sid].closed
    decreases |steps|
  {
    hide Inv, Next;
    if steps != [] {
      ClosedStaysClosed(w, steps[0], sid);
      StepKeepsInvariant(w, steps[0]);
      ClosedForever(Next(w, steps[0]), steps[1..], sid);
    }
  }

  /** What a handler does with a closed session changes nothing but that session's own row. */
  lemma ClosedSessionIsPowerless(w: World, s: Step)
    requires Reachable(w) && Enabled(w, s) && (s.act.FrameAct? || s.act.CloseAct?) && w.mem.sessions[s.act.sid].closed
    ensures var w' := Next(w, s);
      && w'.log == w.log && w'.mem == w.mem.(sessions := w'.mem.sessions)
      && w'.mem.sessions.Keys == w.mem.sessions.Keys
      && forall sid :: sid in w.mem.sessions && sid != s.act.sid ==> w'.mem.sessions[sid] == w.mem.sessions[sid]
  {
    hide Inv, Reachable, MatchesOf, ProjectAll, Handle, Heard;
    ReachableSatisfiesInvariant(w);
    OpenOrClosed(w, s.act.sid);
    assert !Live(w.mem, s.act.sid, s.now);
    assert w.log + Logged(w.mem, s) == w.log;
    hide Live;
  }

  lemma ClosedLogsNothing(w: World, s: Step, sid: SessionId)
    requires Inv(w) && Enabled(w, s) && sid in w.mem.sessions && w.mem.sessions[sid].closed
    ensures |w.log| <= |Next(w, s).log| && Next(w, s).log[..|w.log|] == w.log
    ensures forall k :: |w.log| <= k < |Next(w, s).log| && Next(w, s).log[k].Accepted? ==> Next(w, s).log[k].session != sid
  {
    hide Inv, Handle, MatchesOf, Projected, Advanced, Register;
    OpenOrClosed(w, sid);
    if s.act.FrameAct? && s.act.sid == sid { assert !Live(w.mem, sid, s.now); }
  }

  /** No run makes a closed session heard again. */
  lemma {:induction false} ClosedIsSilent(w: World, steps: seq<Step>, sid: SessionId)
    requires Inv(w) && IsRun(w, steps) && sid in w.mem.sessions && w.mem.sessions[sid].closed
    ensures var log := After(w, steps).log;
      && |w.log| <= |log| && log[..|w.log|] == w.log
      && forall k :: |w.log| <= k < |log| && log[k].Accepted? ==> log[k].session != sid
    decreases |steps|
  {
    hide Inv, Next;
    if steps != [] {
      var next := Next(w, steps[0]);
      ClosedLogsNothing(w, steps[0], sid);
      ClosedStaysClosed(w, steps[0], sid);
      StepKeepsInvariant(w, steps[0]);
      ClosedIsSilent(next, steps[1..], sid);
      var log := After(w, steps).log;
      assert log[..|w.log|] == next.log[..|w.log|];
      forall k | |w.log| <= k < |log| && log[k].Accepted? ensures log[k].session != sid {
        if k < |next.log| { assert log[k] == next.log[k]; }
      }
    }
  }

  /**
   * One refused frame ends a session: from the refusal on, in every run, nothing
   * that session sends is accepted; the refusal itself changes no inventory.
   */
  lemma RefusedSessionIsSilent(w: World, s: Step, steps: seq<Step>)
    requires Reachable(w) && Enabled(w, s) && s.act.FrameAct? && !Accepts(w.mem, s) && IsRun(Next(w, s), steps)
    ensures var log := After(Next(w, s), steps).log;
      && |w.log| <= |log| && log[..|w.log|] == w.log
      && forall k :: |w.log| <= k < |log| && log[k].Accepted? ==> log[k].session != s.act.sid
    ensures forall c :: c in w.mem.collectors ==>
      c in Next(w, s).mem.collectors && SamePublished(Next(w, s).mem.collectors[c], w.mem.collectors[c])
  {
    hide Inv, Reachable, Next, SamePublished;
    ReachableSatisfiesInvariant(w);
    OpenOrClosed(w, s.act.sid);
    RefusedFrameIsInert(w, s);
    StepKeepsInvariant(w, s);
    ClosedIsSilent(Next(w, s), steps, s.act.sid);
  }

  // ---------- What a read serves ----------

  /** A read answers with the projection of the very instant it is asked at, for every installation it names. */
  lemma ReadServesProjection(w: World, s: Step, b: Binding)
    requires Enabled(w, s) && s.act.ReadAct? && b in s.act.bindings && Read(w.mem, s.act.bindings, s.now).1.Ok?
    ensures var m, answer := Next(w, s).mem, Read(w.mem, s.act.bindings, s.now).1.value;
      && b.installation in m.bindings && m.bindings[b.installation].binding == b
      && b.installation in answer.views && answer.views[b.installation] == ViewOf(m, m.bindings[b.installation])
      && Projected(m, m.bindings[b.installation], s.now) == m.bindings[b.installation]
      && b.organization in answer.revisions && answer.revisions[b.organization] == Scope(m.scopes, b.organization)
  {
    hide Projected, Advanced, Moved, Register, MatchesOf, ViewOf;
    var registered := Register(w.mem, s.act.bindings).value;
    RegisterTracks(w.mem, s.act.bindings, b);
    var m := ProjectAll(registered, s.now);
    ProjectAllIsIdempotent(registered, s.now);
    assert ProjectAll(m, s.now).bindings[b.installation] == Projected(m, m.bindings[b.installation], s.now);
    ProjectedPlace(registered, registered.bindings[b.installation], s.now);
    assert b.installation in Ids(s.act.bindings);
  }

  /** The inventory row behind a location of a reachable world. */
  lemma ResourceAt(w: World, x: Candidate)
    requires Inv(w) && x.collector in w.mem.collectors && x.pos in w.mem.collectors[x.collector].objects
    ensures Author(w.log, x.collector).Some?
    ensures var inv := w.mem.collectors[x.collector];
      ResourceOk(w.log, w.clock, inv.config, x.collector, Author(w.log, x.collector).value, inv.lastFull, x.pos, inv.objects[x.pos])
  {
    hide SessionsOk, BindingsOk, Current, ResourceOk, Facts;
    assert InventoryOk(w.log, w.clock, x.collector, w.mem.collectors[x.collector]);
  }

  /** The view of a known binding is the evaluation of its one object, or absence. */
  lemma KnownCases(m: Mem, b: Record, now: Time) returns (x: Candidate)
    requires Projected(m, b, now) == b && b.view.quality == Known
    ensures b.loc.Some?
    ensures
      || (&& x == Candidate(b.loc.value.collector, b.loc.value.pos)
          && x.collector in m.collectors && x.pos in m.collectors[x.collector].objects
          && Identifies(m.station, m.collectors[x.collector].objects[x.pos].o, b.binding)
          && var r := m.collectors[x.collector].objects[x.pos];
             r.received <= now < r.expires
             && Evaluate(Fact(r, now), b.binding.app in m.collectors[x.collector].config.healthRequired) == (b.view.state, b.view.reason)
             && Held(m, b) == Some(r) && b.view.state != Unknown && b.view.observedAt == Some(r.received) && b.view.expiresAt == Some(r.expires))
      || (&& Candidates(m, b.binding) == {} && !Occupied(m, b.loc.value) && b.absent.Some?
          && b.view.state == Absent && b.absent.value.at <= now < b.absent.value.expires
          && b.view.observedAt == Some(b.absent.value.at) && b.view.expiresAt == Some(b.absent.value.expires))
  {
    hide Settle, Candidates, Identifies, Evaluate, Fact, SemanticOf;
    x := SettleCases(m, b, now);
  }

  // ---------- Age ----------

  /** An accepted frame carried exactly the facts of the object at this place, within the last 90 seconds. */
  ghost predicate ReportedRecently(w: World, x: Candidate, now: Time)
    requires x.collector in w.mem.collectors && x.pos in w.mem.collectors[x.collector].objects
  {
    exists k, sid ::
      0 <= k < |w.log| && Carries(w.log[k], x.collector, sid, w.mem.collectors[x.collector].objects[x.pos].o)
      && w.log[k].time <= now < w.log[k].time + FULL_SYNC + TTL
  }

  /** The answer is what the object at the place says of the binding, and that object is handed out with it. */
  ghost predicate Answers(m: Mem, x: Candidate, b: Binding, v: View, now: Time) {
    && x.collector in m.collectors && x.pos in m.collectors[x.collector].objects
    && var r, config := m.collectors[x.collector].objects[x.pos], m.collectors[x.collector].config;
       && Identifies(m.station, r.o, b) && v.resource == Some(r.o) && v.runtime.observedAt == Some(r.received)
       && (v.runtime.state, v.runtime.reason) == Evaluate(Fact(r, now), b.app in config.healthRequired)
  }

  /** A known view of this record is current, and a present one rests on facts reported less than 90 seconds ago. */
  ghost predicate Fresh(w: World, row: Record, v: View, now: Time) {
    && v.runtime.observedAt.Some? && v.runtime.observedAt.value <= now < v.runtime.observedAt.value + TTL
    && v.runtime.expiresAt == Some(v.runtime.observedAt.value + TTL)
    && (v.runtime.state != Absent ==>
          && row.loc.Some?
          && var x := Candidate(row.loc.value.collector, row.loc.value.pos);
             Answers(w.mem, x, row.binding, v, now) && ReportedRecently(w, x, now))
  }

  /**
   * A known answer is at most 30 seconds old. A known present one is the
   * evaluation of the object at the binding's own location, and the facts of that
   * very object came in less than 90 seconds ago: heartbeats confirm a list, but
   * no longer than 60 seconds after that list was begun.
   */
  lemma AnswersAreFresh(w: World, s: Step, b: Binding)
    requires Reachable(w) && Enabled(w, s) && s.act.ReadAct? && b in s.act.bindings && Read(w.mem, s.act.bindings, s.now).1.Ok?
    ensures var w', views := Next(w, s), Read(w.mem, s.act.bindings, s.now).1.value.views;
      && b.installation in views && b.installation in w'.mem.bindings && w'.mem.bindings[b.installation].binding == b
      && (views[b.installation].runtime.quality == Known ==>
            Fresh(w', w'.mem.bindings[b.installation], views[b.installation], s.now))
  {
    hide Reachable, Inv, Fresh, Next, Read, Projected, Held, Enabled;
    ReadServesProjection(w, s, b);
    ReachableSatisfiesInvariant(w);
    StepKeepsInvariant(w, s);
    FreshRow(Next(w, s), b.installation, s.now);
  }

  lemma FreshRow(w: World, id: string, now: Time)
    requires Inv(w) && id in w.mem.bindings && Projected(w.mem, w.mem.bindings[id], now) == w.mem.bindings[id]
    ensures var row := w.mem.bindings[id];
      row.view.quality == Known ==> Fresh(w, row, ViewOf(w.mem, row), now)
  {
    hide Inv, Projected, Candidates, ReportedRecently, Fact, Evaluate, ResourceOk, Identifies, Held;
    var row := w.mem.bindings[id];
    if row.view.quality == Known {
      var x := KnownCases(w.mem, row, now);
      if Occupied(w.mem, row.loc.value) {
        ResourceAt(w, x);
        ResourceTimes(w, x);
        CarrierAt(w, x, now);
        KnownReason(w.mem, row, now, x);
      } else {
        AbsenceTimes(w, id);
      }
    }
  }

  /** A known view never is a conflict, so it comes with its object. */
  lemma KnownReason(m: Mem, row: Record, now: Time, x: Candidate)
    requires x.collector in m.collectors && x.pos in m.collectors[x.collector].objects
    requires (row.view.state, row.view.reason) ==
             Evaluate(Fact(m.collectors[x.collector].objects[x.pos], now), row.binding.app in m.collectors[x.collector].config.healthRequired)
    ensures row.view.reason != IdentityConflict
  {
    hide Fact;
  }

  lemma AbsenceTimes(w: World, id: string)
    requires Inv(w) && id in w.mem.bindings && w.mem.bindings[id].absent.Some?
    ensures w.mem.bindings[id].absent.value == Since(w.mem.bindings[id].absent.value.at)
  {
    hide EvidenceOk, Current, Traced;
    assert BindingOk(id, w.mem.bindings[id], w.log, w.matches, w.clock);
  }

  lemma ResourceTimes(w: World, x: Candidate)
    requires Inv(w) && x.collector in w.mem.collectors && x.pos in w.mem.collectors[x.collector].objects
    ensures var r := w.mem.collectors[x.collector].objects[x.pos]; r.expires == r.received + TTL
  {
    ResourceAt(w, x);
    hide Inv;
  }

  // ---------- Health ----------

  /**
   * One session both carried the facts of the object at this place and, less
   * than 30 seconds ago, reported this health for its very uid and version.
   */
  ghost predicate ProbedRecently(w: World, x: Candidate, health: Health, now: Time)
    requires x.collector in w.mem.collectors && x.pos in w.mem.collectors[x.collector].objects
  {
    var o := w.mem.collectors[x.collector].objects[x.pos].o;
    exists j, k, sid ::
      && 0 <= j < |w.log| && Carries(w.log[j], x.collector, sid, o)
      && 0 <= k < |w.log| && Probes(w.log[k], x.collector, sid, o.(health := health))
      && now < w.log[k].time + TTL
  }

  /**
   * Health is never inherited: an App whose health is required is answered as
   * ready only on a fresh probe, and as failing its check only on a fresh failure,
   * each reported by the very session that reported the object.
   */
  lemma HealthIsProbed(w: World, s: Step, b: Binding)
    requires Reachable(w) && Enabled(w, s) && s.act.ReadAct? && b in s.act.bindings && Read(w.mem, s.act.bindings, s.now).1.Ok?
    requires var v := Read(w.mem, s.act.bindings, s.now).1.value.views;
      b.installation in v && v[b.installation].runtime.quality == Known
    ensures var w' := Next(w, s); var v := Read(w.mem, s.act.bindings, s.now).1.value.views[b.installation].runtime;
      b.installation in w'.mem.bindings && w'.mem.bindings[b.installation].loc.Some?
      && var l := w'.mem.bindings[b.installation].loc.value;
         (v.state != Absent ==> Occupied(w'.mem, l))
         && (v.state == Ready && b.app in w'.mem.collectors[l.collector].config.healthRequired ==>
               ProbedRecently(w', Candidate(l.collector, l.pos), Healthy, s.now))
         && (v.reason == HealthCheckFailed ==>
               Occupied(w'.mem, l) && ProbedRecently(w', Candidate(l.collector, l.pos), Unhealthy, s.now))
  {
    ReadServesProjection(w, s, b);
    ReachableSatisfiesInvariant(w);
    StepKeepsInvariant(w, s);
    hide Next, Read, Projected, EvidenceOk, BindingsOk, Current, ProbedRecently;
    var w' := Next(w, s);
    var row := w'.mem.bindings[b.installation];
    var x := KnownCases(w'.mem, row, s.now);
    if Occupied(w'.mem, row.loc.value) {
      ResourceAt(w', x);
      var r := w'.mem.collectors[x.collector].objects[x.pos];
      EvaluateHealth(Fact(r, s.now), b.app in w'.mem.collectors[x.collector].config.healthRequired);
      if Fact(r, s.now).health != NotChecked {
        RecentProbe(w', x, s.now);
      }
    } else {
      AbsentReason(w'.mem, row, s.now);
    }
  }

  /** What an evaluation presumes of the probe. */
  lemma EvaluateHealth(o: Observation, required: bool)
    ensures Evaluate(o, required).0 == Ready && required ==> o.health == Healthy
    ensures Evaluate(o, required).1 == HealthCheckFailed ==> o.health == Unhealthy
  {
  }

  lemma AbsentReason(m: Mem, b: Record, now: Time)
    requires Projected(m, b, now) == b && b.view.quality == Known && b.loc.Some? && !Occupied(m, b.loc.value)
    ensures b.view.reason == ResourceAbsent && b.view.state == Absent
  {
    hide Settle, Candidates, Identifies, Evaluate, Fact, SemanticOf;
    var x := SettleCases(m, b, now);
  }

  lemma RecentProbe(w: World, x: Candidate, now: Time)
    requires x.collector in w.mem.collectors && x.pos in w.mem.collectors[x.collector].objects && Author(w.log, x.collector).Some?
    requires var inv := w.mem.collectors[x.collector];
      ResourceOk(w.log, w.clock, inv.config, x.collector, Author(w.log, x.collector).value, inv.lastFull, x.pos, inv.objects[x.pos])
    requires var r := w.mem.collectors[x.collector].objects[x.pos]; now < r.expires && Fact(r, now).health != NotChecked
    ensures var r := w.mem.collectors[x.collector].objects[x.pos];
      Fact(r, now) == r.o && ProbedRecently(w, x, r.o.health, now)
  {
    hide Carries, Probes;
    var inv := w.mem.collectors[x.collector];
    var r, sid := inv.objects[x.pos], Author(w.log, x.collector).value;
    var j :| 0 <= j < |w.log| && Carries(w.log[j], x.collector, sid, r.o) && inv.lastFull <= w.log[j].time <= r.received
             && (r.received == w.log[j].time || r.received < inv.lastFull + FULL_SYNC);
    var k :| 0 <= k < |w.log| && Probes(w.log[k], x.collector, sid, r.o) && r.healthExpires == w.log[k].time + TTL;
    assert r.o.(health := r.o.health) == r.o;
  }

  // ---------- Absence ----------

  /**
   * The last match of this binding was with exactly this object, the object was
   * removed after it, and nothing carries the identity now.
   */
  ghost predicate Vanished(w: World, b: Binding, l: Location) {
    && (exists since: nat :: LastMatch(w.matches, b, l, since) && since <= |w.log| && Removed(w.log, since, l))
    && !Occupied(w.mem, l) && Candidates(w.mem, b) == {}
  }

  /** A known absence is never invented: it is of the object at the record's own location. */
  lemma AbsenceIsEvidence(w: World, s: Step, b: Binding)
    requires Reachable(w) && Enabled(w, s) && s.act.ReadAct? && b in s.act.bindings && Read(w.mem, s.act.bindings, s.now).1.Ok?
    requires var v := Read(w.mem, s.act.bindings, s.now).1.value.views;
      b.installation in v && v[b.installation].runtime.quality == Known && v[b.installation].runtime.state == Absent
    ensures var m := Next(w, s).mem;
      b.installation in m.bindings && m.bindings[b.installation].loc.Some?
      && Vanished(Next(w, s), b, m.bindings[b.installation].loc.value)
  {
    hide Reachable, Inv, Next, Read, Projected, Candidates, Enabled, Vanished, Held;
    ReadServesProjection(w, s, b);
    ReachableSatisfiesInvariant(w);
    StepKeepsInvariant(w, s);
    AbsentRow(Next(w, s), b.installation, s.now);
  }

  lemma AbsentRow(w: World, id: string, now: Time)
    requires Inv(w) && id in w.mem.bindings && Projected(w.mem, w.mem.bindings[id], now) == w.mem.bindings[id]
    requires w.mem.bindings[id].view.quality == Known && w.mem.bindings[id].view.state == Absent
    ensures w.mem.bindings[id].loc.Some? && Vanished(w, w.mem.bindings[id].binding, w.mem.bindings[id].loc.value)
  {
    hide Inv, Projected, Candidates, Removed, LastMatch, Evaluate, Fact, ResourceOk, Identifies;
    var row := w.mem.bindings[id];
    var x := KnownCases(w.mem, row, now);
    if Occupied(w.mem, row.loc.value) {
      ResourceAt(w, x);
      NeverDeleted(w, x, now, row.binding.app in w.mem.collectors[x.collector].config.healthRequired);
    } else {
      var since := TraceOf(w, id);
    }
  }

  lemma TraceOf(w: World, id: string) returns (since: nat)
    requires Inv(w) && id in w.mem.bindings && w.mem.bindings[id].loc.Some?
    ensures var row := w.mem.bindings[id]; Traced(row.binding, row.loc.value, row.absent.Some?, w.log, w.matches, since)
  {
    hide EvidenceOk, Current, Traced, MatchesOk;
    var row := w.mem.bindings[id];
    assert BindingOk(id, row, w.log, w.matches, w.clock);
    since :| Traced(row.binding, row.loc.value, row.absent.Some?, w.log, w.matches, since);
  }

  lemma NeverDeleted(w: World, x: Candidate, now: Time, required: bool)
    requires x.collector in w.mem.collectors && x.pos in w.mem.collectors[x.collector].objects && Author(w.log, x.collector).Some?
    requires var inv := w.mem.collectors[x.collector];
      ResourceOk(w.log, w.clock, inv.config, x.collector, Author(w.log, x.collector).value, inv.lastFull, x.pos, inv.objects[x.pos])
    ensures Evaluate(Fact(w.mem.collectors[x.collector].objects[x.pos], now), required).0 != Absent
  {
    hide Sound;
  }

  /** A world of the run had the binding matched with exactly this object, when the log was this long. */
  ghost predicate MatchedIn(w: World, x: Match) {
    && |w.log| == x.at
    && exists id :: id in w.mem.bindings && w.mem.bindings[id].binding == x.binding && Matched(w.mem, w.mem.bindings[id])
                    && w.mem.bindings[id].loc == Some(x.loc)
  }

  lemma RecordedMatch(m: Mem, length: nat, x: Match)
    requires x in MatchesOf(m, length)
    ensures x.at == length
    ensures exists id :: id in m.bindings && m.bindings[id].binding == x.binding && Matched(m, m.bindings[id])
                         && m.bindings[id].loc == Some(x.loc)
  {
    hide Candidates, Held;
    var id := MatchOf(m, length, x);
  }

  /** The recorded matches happened: each belongs to a world the run passed through. */
  lemma {:induction false} MatchesHappened(w: World, steps: seq<Step>, x: Match)
    requires IsRun(w, steps) && x in After(w, steps).matches && x !in w.matches
    ensures exists n :: 1 <= n <= |steps| && IsRun(w, steps[..n]) && MatchedIn(After(w, steps[..n]), x)
    decreases |steps|
  {
    hide Matched, NextMem, Logged;
    var next := Next(w, steps[0]);
    if x in next.matches {
      var one := steps[..1];
      assert one == [steps[0]] && one[1..] == [];
      assert IsRun(next, one[1..]) && After(next, one[1..]) == next;
      assert IsRun(w, one) && After(w, one) == next;
      RecordedMatch(next.mem, |next.log|, x);
      assert MatchedIn(After(w, steps[..1]), x);
    } else {
      MatchesHappened(next, steps[1..], x);
      var n :| 1 <= n <= |steps| - 1 && IsRun(next, steps[1..][..n]) && MatchedIn(After(next, steps[1..][..n]), x);
      assert steps[..n + 1][0] == steps[0] && steps[..n + 1][1..] == steps[1..][..n];
      assert IsRun(w, steps[..n + 1]) && After(w, steps[..n + 1]) == After(next, steps[1..][..n]);
    }
  }

  // ---------- Free positions ----------

  /** A position that is free was lacked by the last list, or made free after it. */
  lemma {:induction false} FreeForAReason(log: seq<Event>, c: string, pos: Position, e: nat)
    requires e < |log| && Ends(log[e], c) && (forall k :: e < k < |log| ==> !Ends(log[k], c))
    requires pos !in Replayed(log, c)
    ensures FreeSince(log, c, pos, e)
    decreases |log|
  {
    var n := |log| - 1;
    assert log == log[..n] + [log[n]];
    LogStep(log[..n], log[n], c, log[e].session);
    if e == n {
    } else if pos in Replayed(log[..n], c) {
      hide Replayed;
      assert !Ends(log[n], c);
      assert Frees(log, n, c, pos);
    } else {
      hide Replayed, Sent, Frees;
      assert log[..n][e] == log[e];
      FreeForAReason(log[..n], c, pos, e);
      EarlierFrees(log, n, c, pos, e);
    }
  }

  lemma EarlierFrees(log: seq<Event>, n: nat, c: string, pos: Position, e: nat)
    requires e < n <= |log| && log[e].Accepted? && log[..n][e] == log[e] && FreeSince(log[..n], c, pos, e)
    ensures FreeSince(log, c, pos, e)
  {
    hide Replayed, Sent;
    assert log[..n][..e] == log[..e];
    if k: nat :| e < k < n && Frees(log[..n], k, c, pos) {
      assert log[..n][..k] == log[..k] && log[..n][k] == log[k];
      assert Frees(log, k, c, pos);
    }
  }

  /**
   * Everything that stands behind calling a position free: a list of the collector
   * that was begun less than 90 seconds ago and completed by the same session, the
   * confirmation of that list, less than 30 seconds old, by its beginning or by a
   * heartbeat of that session, and the reason why the position is free since.
   */
  ghost predicate FreeOnEvidence(w: World, c: string, pos: Position, now: Time)
    requires c in w.mem.collectors
  {
    var inv := w.mem.collectors[c];
    && inv.listed.Some? && inv.lastFull <= inv.listed.value.at <= now < inv.listed.value.at + TTL
    && now < inv.lastFull + FULL_SYNC + TTL
    && (exists e: nat :: Completed(w.log, c, inv.lastFull, e) && FreeSince(w.log, c, pos, e)
                       && Confirms(w.log, c, w.log[e].session, inv.lastFull, inv.listed.value.at))
    && (forall d :: d in w.mem.collectors ==> pos !in w.mem.collectors[d].objects && pos !in Replayed(w.log, d))
  }

  lemma AuthorIsLast(log: seq<Event>, c: string, from: Time, e: nat)
    requires Completed(log, c, from, e)
    ensures Author(log, c) == Some(log[e].session)
    decreases |log|
  {
    var n := |log| - 1;
    assert log == log[..n] + [log[n]];
    LogStep(log[..n], log[n], c, 0);
    if e < n {
      assert log[..n][e] == log[e] && log[..n][..e] == log[..e];
      assert forall k :: e < k < n ==> log[..n][k] == log[k];
      AuthorIsLast(log[..n], c, from, e);
    }
  }

  lemma ListedAt(w: World, c: string)
    requires Inv(w) && c in w.mem.collectors && w.mem.collectors[c].listed.Some?
    ensures var inv := w.mem.collectors[c];
      && Author(w.log, c).Some? && CompletedSince(w.log, c, inv.lastFull) && inv.listed.value == Since(inv.listed.value.at)
      && inv.listed.value.at <= w.clock && Confirms(w.log, c, Author(w.log, c).value, inv.lastFull, inv.listed.value.at)
  {
    hide SessionsOk, BindingsOk, Current, MatchesOk, Sound, Facts, CompletedSince, Confirms;
    assert InventoryOk(w.log, w.clock, c, w.mem.collectors[c]);
  }

  /** The catalog calls a position not installed only on the evidence of a recent completed list. */
  lemma NotInstalledIsEvidence(w: World, c: string, pos: Position, now: Time)
    requires Reachable(w) && w.clock <= now && c in w.mem.collectors && SeesFree(w.mem.collectors[c], pos, now)
    ensures FreeOnEvidence(w, c, pos, now)
  {
    hide Reachable, Inv, Completed, FreeSince, Replayed;
    ReachableSatisfiesInvariant(w);
    var inv := w.mem.collectors[c];
    ListedAt(w, c);
    PositionIsFree(w, c, pos);
    var e: nat :| Completed(w.log, c, inv.lastFull, e);
    AuthorIsLast(w.log, c, inv.lastFull, e);
    CompletedEnds(w.log, c, inv.lastFull, e);
    FreeForAReason(w.log, c, pos, e);
  }

  lemma CompletedEnds(log: seq<Event>, c: string, from: Time, e: nat)
    requires Completed(log, c, from, e)
    ensures e < |log| && Ends(log[e], c) && forall k :: e < k < |log| ==> !Ends(log[k], c)
  {
  }

  lemma PositionIsFree(w: World, c: string, pos: Position)
    requires Reachable(w) && c in w.mem.collectors && pos.namespace in w.mem.collectors[c].config.namespaces
    requires pos !in w.mem.collectors[c].objects
    ensures forall d :: d in w.mem.collectors ==> pos !in w.mem.collectors[d].objects && pos !in Replayed(w.log, d)
  {
    hide SessionsOk, BindingsOk, Current, MatchesOk, InventoryOk, Replayed, Reachable;
    ReachableSatisfiesInvariant(w);
    forall d | d in w.mem.collectors ensures pos !in w.mem.collectors[d].objects && pos !in Replayed(w.log, d) {
      CacheIsReplay(w, d);
      assert pos in Facts(w.mem.collectors[d].objects) <==> pos in w.mem.collectors[d].objects;
    }
  }

  /**
   * The same holds for a registered legacy workload: it is known absent only on
   * the evidence of a recent completed list, and known present only as the
   * registered, unowned object, from facts of it less than 90 seconds old.
   */
  lemma LegacyIsEvidence(w: World, c: string, b: Legacy, now: Time)
    requires Reachable(w) && w.clock <= now && c in w.mem.collectors && b.pos.namespace in w.mem.collectors[c].config.namespaces
    requires LegacyOf(w.mem.collectors[c], b, now).quality == Known
    ensures var inv := w.mem.collectors[c];
      if b.pos in inv.objects then IsUnowned(inv.objects[b.pos].o, b.uid) && ReportedRecently(w, Candidate(c, b.pos), now)
      else LegacyOf(inv, b, now).state == Absent && FreeOnEvidence(w, c, b.pos, now)
  {
    hide Reachable, Inv, Evaluate, Fact, Carries, FreeOnEvidence;
    ReachableSatisfiesInvariant(w);
    var inv := w.mem.collectors[c];
    if b.pos in inv.objects {
      ResourceAt(w, Candidate(c, b.pos));
      CarrierAt(w, Candidate(c, b.pos), now);
    } else {
      NotInstalledIsEvidence(w, c, b.pos, now);
    }
  }

  lemma CarrierAt(w: World, x: Candidate, now: Time)
    requires x.collector in w.mem.collectors && x.pos in w.mem.collectors[x.collector].objects && Author(w.log, x.collector).Some?
    requires var inv := w.mem.collectors[x.collector];
      ResourceOk(w.log, w.clock, inv.config, x.collector, Author(w.log, x.collector).value, inv.lastFull, x.pos, inv.objects[x.pos])
    ensures var r := w.mem.collectors[x.collector].objects[x.pos]; r.received <= now < r.expires ==> ReportedRecently(w, x, now)
  {
    hide Carries;
    var inv := w.mem.collectors[x.collector];
    var r, sid := inv.objects[x.pos], Author(w.log, x.collector).value;
    var k :| 0 <= k < |w.log| && Carries(w.log[k], x.collector, sid, r.o) && inv.lastFull <= w.log[k].time <= r.received
             && (r.received == w.log[k].time || r.received < inv.lastFull + FULL_SYNC);
  }
}
