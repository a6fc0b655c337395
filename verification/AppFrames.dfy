/** Which frames of a session are accepted, in terms of the frames before, and what they confirm. */
module AppFrames {
  import opened Common
  import opened Observations
  import opened AppMemory
  import opened AppHistory
  import opened AppInvariant
  import opened AppEvidence
  import opened AppProjection
  import opened AppSteps
  import opened AppTheorems

  // ---------- Acceptance ----------

  /** The session has completed the collector's last list and is sending none. */
  predicate Following(log: seq<Event>, c: string, sid: SessionId) {
    Author(log, c) == Some(sid) && OpenList(log, sid).None?
  }

  /** The positions of a chunk are new to the list and differ from each other. */
  predicate NewPlaces(sent: map<Position, Observation>, objects: seq<Observation>) {
    && (forall o :: o in objects ==> o.pos !in sent)
    && forall i, j :: 0 <= i < j < |objects| ==> objects[i].pos != objects[j].pos
  }

  /** The collector's last list was begun less than a minute ago. */
  ghost predicate RecentlyListed(log: seq<Event>, c: string, now: Time) {
    exists from, e: nat :: Completed(log, c, from, e) && now < from + FULL_SYNC
  }

  /** What a session may send next, from the frames accepted so far. */
  ghost predicate Expected(log: seq<Event>, config: Config, sid: SessionId, f: Frame, now: Time) {
    match f
    case Begin(syncId) => IsId(syncId) && OpenList(log, sid).None?
    case Objects(syncId, objects) =>
      && OpenList(log, sid).Some? && OpenList(log, sid).value.syncId == syncId
      && 1 <= |objects| <= 500 && |Sent(log, sid)| + |objects| <= 10000
      && (forall o :: o in objects ==> ValidResource(o, config) && !o.deleted) && NewPlaces(Sent(log, sid), objects)
    case End(syncId, count) =>
      OpenList(log, sid).Some? && OpenList(log, sid).value.syncId == syncId && count == |Sent(log, sid)|
    case Upsert(o) =>
      && Following(log, config.id, sid) && ValidResource(o, config) && !o.deleted
      && (o.pos in Replayed(log, config.id) || |Replayed(log, config.id)| < 10000)
    case Delete(pos, uid) => Following(log, config.id, sid) && ValidLocation(pos, uid, config)
    case Probe(pos, uid, version, health) =>
      Following(log, config.id, sid) && ValidLocation(pos, uid, config) && 0 < |version| <= 256 && health in {Healthy, Unhealthy}
    case Heartbeat => Following(log, config.id, sid) && RecentlyListed(log, config.id, now)
  }

  lemma FactsSize(objects: map<Position, Resource>)
    ensures |Facts(objects)| == |objects| && Facts(objects).Keys == objects.Keys
  {
    assert Facts(objects).Keys == objects.Keys;
    assert |Facts(objects)| == |Facts(objects).Keys| && |objects| == |objects.Keys|;
  }

  /** What the rows of an open session say of its log. */
  lemma OpenSession(w: World, sid: SessionId)
    requires Inv(w) && sid in w.mem.sessions && !w.mem.sessions[sid].closed
    ensures Has(w.mem, sid)
    ensures var s := w.mem.sessions[sid]; var inv := w.mem.collectors[s.collector];
      && inv.config.id == s.collector && (s.synced <==> Author(w.log, s.collector) == Some(sid))
      && (if s.staging.Some? then OpenList(w.log, sid) == Some(Listing(s.syncId, s.started)) && Facts(s.staging.value) == Sent(w.log, sid)
          else OpenList(w.log, sid).None?)
      && Facts(inv.objects) == Replayed(w.log, s.collector)
      && (s.synced ==> CompletedSince(w.log, s.collector, inv.lastFull))
  {
    hide BindingsOk, Current, MatchesOk, ResourceOk, Facts, CompletedSince, Confirms;
    var c := w.mem.sessions[sid].collector;
    assert SessionOk(w.log, w.clock, w.mem.collectors[c], sid, w.mem.sessions[sid]);
    assert InventoryOk(w.log, w.clock, c, w.mem.collectors[c]);
  }

  lemma LastListIsOne(log: seq<Event>, c: string, from: Time, now: Time)
    requires CompletedSince(log, c, from)
    ensures RecentlyListed(log, c, now) <==> now < from + FULL_SYNC
  {
    hide OpenList;
    var e: nat :| Completed(log, c, from, e);
    forall from', e': nat | Completed(log, c, from', e') ensures from' == from {
      assert e' == e;
    }
  }

  /** The rows of a session and of its inventory tell what the log tells. */
  ghost predicate Tells(m: Mem, log: seq<Event>, sid: SessionId, now: Time) {
    && Has(m, sid) && var s := m.sessions[sid]; var inv := m.collectors[s.collector];
    && inv.config.id == s.collector && (s.synced <==> Author(log, s.collector) == Some(sid))
    && (if s.staging.None? then OpenList(log, sid).None?
        else OpenList(log, sid).Some? && OpenList(log, sid).value.syncId == s.syncId
             && Sent(log, sid).Keys == s.staging.value.Keys && |Sent(log, sid)| == |s.staging.value|)
    && Replayed(log, s.collector).Keys == inv.objects.Keys && |Replayed(log, s.collector)| == |inv.objects|
    && (s.synced ==> (RecentlyListed(log, s.collector, now) <==> now < inv.lastFull + FULL_SYNC))
  }

  lemma RowsTell(w: World, sid: SessionId, now: Time)
    requires Inv(w) && sid in w.mem.sessions && !w.mem.sessions[sid].closed
    ensures Tells(w.mem, w.log, sid, now)
  {
    hide Inv, OpenList, Author, Sent, Replayed, Facts, CompletedSince, RecentlyListed;
    OpenSession(w, sid);
    var s := w.mem.sessions[sid];
    var inv := w.mem.collectors[s.collector];
    FactsSize(inv.objects);
    if s.staging.Some? { FactsSize(s.staging.value); }
    if s.synced { LastListIsOne(w.log, s.collector, inv.lastFull, now); }
  }

  lemma ListFramesExactly(m: Mem, log: seq<Event>, sid: SessionId, f: Frame, now: Time)
    requires Tells(m, log, sid, now) && (f.Begin? || f.Objects? || f.End?)
    ensures Handle(m, sid, f, now).Ok? <==> Expected(log, m.collectors[m.sessions[sid].collector].config, sid, f, now)
  {
    hide IsId, ValidResource, OpenList, Author, Sent, Replayed, RecentlyListed, PutAll, Unlisted, Missing, ChunkOk, NewPlaces;
    var s := m.sessions[sid];
    if f.Objects? && s.staging.Some? {
      ChunkIsNew(m.collectors[s.collector], s.staging.value, Sent(log, sid), f.objects);
    }
  }

  lemma ObjectFramesExactly(m: Mem, log: seq<Event>, sid: SessionId, f: Frame, now: Time)
    requires Tells(m, log, sid, now) && !(f.Begin? || f.Objects? || f.End?)
    ensures Handle(m, sid, f, now).Ok? <==> Expected(log, m.collectors[m.sessions[sid].collector].config, sid, f, now)
  {
    hide IsId, ValidResource, ValidLocation, OpenList, Author, Sent, Replayed, RecentlyListed, Sample, BoundTo, KnownAbsent, Missing,
         Confirmed;
  }

  lemma ChunkIsNew(inv: Inventory, staging: map<Position, Resource>, sent: map<Position, Observation>, objects: seq<Observation>)
    requires sent.Keys == staging.Keys
    ensures ChunkOk(inv, staging, objects) <==>
      (forall o :: o in objects ==> ValidResource(o, inv.config) && !o.deleted) && NewPlaces(sent, objects)
  {
    hide ValidResource;
    assert forall i :: 0 <= i < |objects| ==> objects[i] in objects;
  }

  /**
   * In every reachable world a frame is accepted exactly when its session is live
   * and the frames accepted before let it be next. An accepted frame is logged;
   * any other closes its session.
   */
  lemma FrameIsAcceptedExactlyWhen(w: World, s: Step)
    requires Reachable(w) && Enabled(w, s) && s.act.FrameAct?
    ensures var row := w.mem.sessions[s.act.sid];
      && row.collector in w.mem.collectors
      && (Accepts(w.mem, s) <==>
            && !row.closed && s.now < row.lastFrame + 30 * SECOND && (row.staging.Some? ==> s.now < row.started + 30 * SECOND)
            && Expected(w.log, w.mem.collectors[row.collector].config, s.act.sid, s.act.frame, s.now))
      && Next(w, s).log == (if Accepts(w.mem, s) then w.log + [Accepted(s.now, row.collector, s.act.sid, s.act.frame)] else w.log)
      && s.act.sid in Next(w, s).mem.sessions && Next(w, s).mem.sessions[s.act.sid].closed == !Accepts(w.mem, s)
  {
    hide Inv, Reachable, Handle, Live, Expected, Projected, Moved, Advanced, MatchesOf, Heard, Tells;
    ReachableSatisfiesInvariant(w);
    SessionIsActiveOrClosed(w, s.act.sid, s.now);
    OpenOrClosed(w, s.act.sid);
    if !w.mem.sessions[s.act.sid].closed {
      RowsTell(w, s.act.sid, s.now);
      var f := s.act.frame;
      if f.Begin? || f.Objects? || f.End? {
        ListFramesExactly(w.mem, w.log, s.act.sid, f, s.now);
      } else {
        ObjectFramesExactly(w.mem, w.log, s.act.sid, f, s.now);
      }
    }
    if Accepts(w.mem, s) { HandledStaysOpen(w.mem, s.act.sid, s.act.frame, s.now); }
  }

  lemma HandledStaysOpen(m: Mem, sid: SessionId, f: Frame, now: Time)
    requires Has(m, sid) && !m.sessions[sid].closed && Handle(m, sid, f, now).Ok?
    ensures var m' := Heard(Handle(m, sid, f, now).value, sid, now); sid in m'.sessions && !m'.sessions[sid].closed
  {
    hide PutAll, ChunkOk, ValidResource, ValidLocation, Sample, IsId, Confirmed, Unlisted, BoundTo, KnownAbsent;
  }

  // ---------- Opening, closing and expiry ----------

  /** The session holds its collector's place: heard from, and sending its list, less than 30 seconds ago. */
  predicate InTime(s: Session, now: Time) {
    !s.closed && now < s.lastFrame + 30 * SECOND && (s.staging.Some? ==> now < s.started + 30 * SECOND)
  }

  /** The session is closed, has dropped the list it was sending, and its collector is free. */
  predicate ClosedIn(m: Mem, sid: SessionId) {
    && sid in m.sessions && m.sessions[sid].closed && m.sessions[sid].staging.None?
    && m.sessions[sid].collector in m.collectors && m.collectors[m.sessions[sid].collector].active != Some(sid)
  }

  /** A session opens exactly on a collector whose last session, if it has one, is over; that one is closed. */
  lemma OpenLeaves(w: World, s: Step)
    requires Reachable(w) && Enabled(w, s) && s.act.OpenAct?
    ensures var m, m', c, sid := w.mem, Next(w, s).mem, s.act.collector, s.act.sid;
      if c !in m.collectors || (exists o :: o in m.sessions && m.sessions[o].collector == c && InTime(m.sessions[o], s.now)) then m' == m
      else
        && m'.sessions.Keys == m.sessions.Keys + {sid} && m'.sessions[sid] == Session(c, s.now, false, false, "", 0, None)
        && m'.collectors == m.collectors[c := m.collectors[c].(active := Some(sid))]
        && (forall o :: o in m.sessions && m.sessions[o].collector == c ==> ClosedIn(m', o))
        && (forall o :: o in m.sessions && m.sessions[o].collector != c ==> m'.sessions[o] == m.sessions[o])
  {
    hide Inv, Reachable, Live, MatchesOf;
    ReachableSatisfiesInvariant(w);
    forall o | o in w.mem.sessions
      ensures Has(w.mem, o) && (Live(w.mem, o, s.now) <==> InTime(w.mem.sessions[o], s.now))
              && (w.mem.sessions[o].closed <==> w.mem.collectors[w.mem.sessions[o].collector].active != Some(o))
              && (w.mem.sessions[o].closed ==> w.mem.sessions[o].staging.None?)
    {
      SessionIsActiveOrClosed(w, o, s.now);
      OpenOrClosed(w, o);
      if w.mem.sessions[o].closed { ClosedSendsNothing(w, o); }
    }
    ReachableIsLinked(w);
  }

  lemma ClosedSendsNothing(w: World, sid: SessionId)
    requires Inv(w) && sid in w.mem.sessions && w.mem.sessions[sid].closed
    ensures w.mem.sessions[sid].staging.None?
  {
    hide InventoriesOk, BindingsOk, Current, MatchesOk, StagingOk;
  }

  /** Closing ends exactly the one session. */
  lemma CloseLeaves(w: World, s: Step)
    requires Reachable(w) && Enabled(w, s) && s.act.CloseAct?
    ensures var m, m' := w.mem, Next(w, s).mem;
      && ClosedIn(m', s.act.sid) && m'.sessions.Keys == m.sessions.Keys && m'.collectors.Keys == m.collectors.Keys
      && (forall o :: o in m.sessions && o != s.act.sid ==> m'.sessions[o] == m.sessions[o])
      && (forall c :: c in m.collectors && m.collectors[c].active != Some(s.act.sid) ==> m'.collectors[c] == m.collectors[c])
      && m'.bindings == m.bindings && m'.scopes == m.scopes
  {
    hide Inv, Reachable, MatchesOf;
    ReachableSatisfiesInvariant(w);
    OpenOrClosed(w, s.act.sid);
  }

  /** The sweep closes exactly the sessions that are over, and brings every binding up to date. */
  lemma ExpireLeaves(w: World, s: Step)
    requires Reachable(w) && Enabled(w, s) && s.act.ExpireAct?
    ensures var m, m' := w.mem, Next(w, s).mem;
      && m'.sessions.Keys == m.sessions.Keys && m'.bindings.Keys == m.bindings.Keys
      && (forall o :: o in m.sessions ==>
            if InTime(m.sessions[o], s.now) then m'.sessions[o] == m.sessions[o] else ClosedIn(m', o))
      && (forall id :: id in m'.bindings ==> Projected(m', m'.bindings[id], s.now) == m'.bindings[id])
  {
    hide Inv, Reachable, Live, MatchesOf, Projected, Advanced, Moved;
    ReachableSatisfiesInvariant(w);
    forall o | o in w.mem.sessions
      ensures Has(w.mem, o) && (Live(w.mem, o, s.now) <==> InTime(w.mem.sessions[o], s.now))
              && (w.mem.sessions[o].closed <==> w.mem.collectors[w.mem.sessions[o].collector].active != Some(o))
              && (w.mem.sessions[o].closed ==> w.mem.sessions[o].staging.None?)
    {
      SessionIsActiveOrClosed(w, o, s.now);
      OpenOrClosed(w, o);
      if w.mem.sessions[o].closed { ClosedSendsNothing(w, o); }
    }
    ReachableIsLinked(w);
    ProjectAllIsIdempotent(CloseStale(w.mem, s.now), s.now);
    var m' := Next(w, s).mem;
    forall id | id in m'.bindings ensures Projected(m', m'.bindings[id], s.now) == m'.bindings[id] {
      assert ProjectAll(m', s.now).bindings[id] == Projected(m', m'.bindings[id], s.now);
    }
  }

  // ---------- What an accepted frame leaves ----------

  /** A report taken now: its facts as they came, and a probe result only with the very same facts. */
  predicate Taken(inv: Inventory, followed: bool, o: Observation, now: Time, r: Resource) {
    && Bare(r.o) == Bare(o) && r.received == now && r.expires == now + 30 * SECOND
    && if followed && o.health == NotChecked && o.pos in inv.objects && Bare(inv.objects[o.pos].o) == o
       then r.o.health == inv.objects[o.pos].o.health && r.healthExpires == inv.objects[o.pos].healthExpires
       else r.o.health == o.health && r.healthExpires == now + 30 * SECOND
  }

  /** The staged list after some of the objects of a chunk. */
  predicate Staged(inv: Inventory, followed: bool, staging: map<Position, Resource>, objects: seq<Observation>, now: Time,
                   after: map<Position, Resource>)
  {
    && (forall p :: p in staging ==> p in after && after[p] == staging[p])
    && (forall p :: p in after && p !in staging ==> exists i :: 0 <= i < |objects| && objects[i].pos == p)
    && (forall i :: 0 <= i < |objects| ==> objects[i].pos in after && Taken(inv, followed, objects[i], now, after[objects[i].pos]))
  }

  /** A probe is of the object as it is: the same version of it, running, and no worker. */
  predicate Probeable(inv: Inventory, pos: Position, uid: string, version: string) {
    && pos in inv.objects
    && var o := inv.objects[pos].o;
       o.uid == uid && o.resourceVersion == version && o.instance == "" && !o.deleted && !o.terminating && o.desired != 0
  }

  /** The inventory of the session after its frame, with the list it was sending before and after. */
  predicate InventoryAfter(inv: Inventory, inv': Inventory, s: Session, s': Session, f: Frame, now: Time) {
    match f
    case Begin(syncId) => inv' == inv && s'.staging == Some(map[])
    case Objects(_, objects) =>
      && inv' == inv && s.staging.Some? && s'.staging.Some?
      && Staged(inv, s.synced, s.staging.value, objects, now, s'.staging.value)
    case End(_, _) =>
      && s.staging.Some? && s'.staging.None?
      && inv' == inv.(objects := s.staging.value, lastFull := s.started, listed := Some(Evidence(s.started, s.started + 30 * SECOND)))
    case Upsert(o) =>
      inv' == inv.(objects := inv'.objects) && inv'.objects.Keys == inv.objects.Keys + {o.pos}
      && Taken(inv, true, o, now, inv'.objects[o.pos])
      && forall p :: p in inv.objects && p != o.pos ==> inv'.objects[p] == inv.objects[p]
    case Delete(pos, uid) =>
      inv' == if pos in inv.objects && inv.objects[pos].o.uid == uid then inv.(objects := inv.objects - {pos}) else inv
    case Probe(pos, uid, version, health) =>
      inv' == if Probeable(inv, pos, uid, version)
              then inv.(objects := inv.objects[pos := inv.objects[pos].(o := inv.objects[pos].o.(health := health),
                                                                        healthExpires := now + 30 * SECOND)])
              else inv
    case Heartbeat =>
      && inv' == inv.(objects := inv'.objects, listed := Some(Evidence(now, now + 30 * SECOND)))
      && inv'.objects.Keys == inv.objects.Keys
      && forall p :: p in inv.objects ==> inv'.objects[p] == inv.objects[p].(received := now, expires := now + 30 * SECOND)
  }

  /** The frame takes away the object this binding was matched with, or confirms that it is gone. */
  predicate Bereaves(inv: Inventory, s: Session, c: string, row: Record, f: Frame) {
    && row.loc.Some? && row.loc.value.collector == c
    && match f
       case End(_, _) => s.staging.Some? && row.loc.value.pos !in s.staging.value
       case Delete(pos, uid) => row.loc.value.pos == pos && row.loc.value.uid == uid && pos in inv.objects && inv.objects[pos].o.uid == uid
       case Heartbeat => row.absent.Some?
       case _ => false
  }

  lemma StagedNext(inv: Inventory, followed: bool, staging: map<Position, Resource>, objects: seq<Observation>, o: Observation,
                   now: Time, before: map<Position, Resource>, r: Resource)
    requires Staged(inv, followed, staging, objects, now, before) && Taken(inv, followed, o, now, r)
    requires o.pos !in staging && forall i :: 0 <= i < |objects| ==> objects[i].pos != o.pos
    ensures Staged(inv, followed, staging, objects + [o], now, before[o.pos := r])
  {
    hide Taken;
    var all, after := objects + [o], before[o.pos := r];
    forall p | p in after && p !in staging ensures exists i :: 0 <= i < |all| && all[i].pos == p {
      if p == o.pos {
        assert all[|objects|].pos == p;
      } else {
        var i :| 0 <= i < |objects| && objects[i].pos == p;
        assert all[i].pos == p;
      }
    }
  }

  lemma {:induction false} PutAllStages(inv: Inventory, followed: bool, staging: map<Position, Resource>, objects: seq<Observation>, now: Time)
    requires forall i, j :: 0 <= i < j < |objects| ==> objects[i].pos != objects[j].pos
    requires forall i :: 0 <= i < |objects| ==> objects[i].pos !in staging
    ensures Staged(inv, followed, staging, objects, now, PutAll(inv, followed, staging, objects, now))
  {
    if objects != [] {
      var n := |objects| - 1;
      var before := objects[..n];
      assert objects == before + [objects[n]];
      PutAllStages(inv, followed, staging, before, now);
      SampleIsTaken(inv, followed, objects[n], now);
      hide Staged, Sample, Taken;
      StagedNext(inv, followed, staging, before, objects[n], now, PutAll(inv, followed, staging, before, now),
                 Sample(inv, followed, objects[n], now));
    }
  }

  lemma SampleIsTaken(inv: Inventory, followed: bool, o: Observation, now: Time)
    ensures Taken(inv, followed, o, now, Sample(inv, followed, o, now))
  {
  }

  lemma ObjectsLeave(m: Mem, sid: SessionId, f: Frame, now: Time)
    requires Has(m, sid) && Handle(m, sid, f, now).Ok? && f.Objects?
    ensures var m', s := Handle(m, sid, f, now).value, m.sessions[sid];
      && s.collector in m'.collectors && sid in m'.sessions
      && InventoryAfter(m.collectors[s.collector], m'.collectors[s.collector], s, m'.sessions[sid], f, now)
  {
    hide PutAll, Staged, ValidResource;
    var s := m.sessions[sid];
    PutAllStages(m.collectors[s.collector], s.synced, s.staging.value, f.objects, now);
    hide ChunkOk;
  }

  lemma HandleLeaves(m: Mem, sid: SessionId, f: Frame, now: Time)
    requires Has(m, sid) && Handle(m, sid, f, now).Ok?
    ensures var m', s := Handle(m, sid, f, now).value, m.sessions[sid];
      && s.collector in m'.collectors && sid in m'.sessions
      && InventoryAfter(m.collectors[s.collector], m'.collectors[s.collector], s, m'.sessions[sid], f, now)
  {
    hide PutAll, Staged, ValidResource, ChunkOk, Sample, Taken, IsId, ValidLocation, Missing, Unlisted, BoundTo, KnownAbsent;
    var s := m.sessions[sid];
    if f.Objects? {
      ObjectsLeave(m, sid, f, now);
    } else if f.Upsert? {
      SampleIsTaken(m.collectors[s.collector], true, f.item, now);
    }
  }

  lemma HandleMarks(m: Mem, sid: SessionId, f: Frame, now: Time)
    requires Has(m, sid) && Handle(m, sid, f, now).Ok?
    ensures var m', s := Handle(m, sid, f, now).value, m.sessions[sid];
      && m'.bindings.Keys == m.bindings.Keys && m'.station == m.station
      && m'.collectors.Keys == m.collectors.Keys
      && (forall c :: c in m.collectors && c != s.collector ==> m'.collectors[c] == m.collectors[c])
      && forall id :: id in m.bindings ==>
           m'.bindings[id] == if Bereaves(m.collectors[s.collector], s, s.collector, m.bindings[id], f)
                              then m.bindings[id].(absent := Some(Evidence(now, now + 30 * SECOND))) else m.bindings[id]
  {
    hide PutAll, ChunkOk, ValidResource, ValidLocation, Sample, IsId, Confirmed;
  }

  /** Where the bindings are after a frame, and since when they are known to be gone. */
  ghost predicate BindingsAfter(m: Mem, m': Mem, sid: SessionId, f: Frame, now: Time)
    requires Has(m, sid)
  {
    var c := m.sessions[sid].collector;
    && m'.bindings.Keys == m.bindings.Keys
    && forall id :: id in m.bindings ==>
         var row, row' := m.bindings[id], m'.bindings[id];
         && row'.binding == row.binding
         && (Matched(m', row')
             || (row'.loc == row.loc
                 && row'.absent == if Bereaves(m.collectors[c], m.sessions[sid], c, row, f) then Some(Evidence(now, now + 30 * SECOND))
                                   else row.absent))
  }

  /** The collectors and the session after a frame. */
  ghost predicate InventoriesAfter(m: Mem, m': Mem, sid: SessionId, f: Frame, now: Time)
    requires Has(m, sid)
  {
    var c := m.sessions[sid].collector;
    && m'.collectors.Keys == m.collectors.Keys && sid in m'.sessions && m'.sessions[sid].lastFrame == now
    && InventoryAfter(m.collectors[c], m'.collectors[c], m.sessions[sid], m'.sessions[sid], f, now)
    && forall d :: d in m.collectors && d != c ==> m'.collectors[d] == m.collectors[d]
  }

  /**
   * What an accepted frame leaves: its inventory as reported and confirmed at this
   * instant, no other inventory changed, and every binding where it was, or on
   * the one object that now carries its identity, with the evidence of its
   * absence dated from this frame exactly when the frame bereaves it.
   */
  lemma FrameLeaves(w: World, s: Step)
    requires Enabled(w, s) && Accepts(w.mem, s)
    ensures Has(w.mem, s.act.sid)
    ensures InventoriesAfter(w.mem, Next(w, s).mem, s.act.sid, s.act.frame, s.now)
    ensures BindingsAfter(w.mem, Next(w, s).mem, s.act.sid, s.act.frame, s.now)
  {
    hide Handle, Live, Projected, Moved, Advanced, MatchesOf, InventoryAfter, Bereaves, Matched;
    var sid, f := s.act.sid, s.act.frame;
    LiveHas(w.mem, sid, s.now);
    HandleLeaves(w.mem, sid, f, s.now);
    HandleMarks(w.mem, sid, f, s.now);
    var heard := Heard(Handle(w.mem, sid, f, s.now).value, sid, s.now);
    HandledSession(w.mem, sid, f, s.now);
    var m, m' := w.mem, Next(w, s).mem;
    var c := m.sessions[sid].collector;
    HeardInventory(m.collectors[c], m'.collectors[c], m.sessions[sid], Handle(m, sid, f, s.now).value.sessions[sid], f, s.now);
    forall id | id in m.bindings
      ensures var b' := Projected(heard, heard.bindings[id], s.now);
        && b'.binding == heard.bindings[id].binding && (Matched(m', b') <==> Matched(heard, b'))
        && ((b'.loc == heard.bindings[id].loc && b'.absent == heard.bindings[id].absent) || Matched(heard, b'))
    {
      ProjectedPlace(heard, heard.bindings[id], s.now);
      SameInventoriesMatch(heard, m', Projected(heard, heard.bindings[id], s.now));
    }
  }

  lemma SameInventoriesMatch(m: Mem, m': Mem, b: Record)
    requires m'.collectors == m.collectors && m'.station == m.station
    ensures Matched(m', b) <==> Matched(m, b)
  {
    hide Identifies;
    assert Candidates(m', b.binding) == Candidates(m, b.binding);
  }

  lemma HandledSession(m: Mem, sid: SessionId, f: Frame, now: Time)
    requires Has(m, sid) && Handle(m, sid, f, now).Ok?
    ensures var m' := Handle(m, sid, f, now).value; sid in m'.sessions && m'.sessions[sid].collector == m.sessions[sid].collector
  {
    hide PutAll, ChunkOk, ValidResource, ValidLocation, Sample, IsId, Confirmed, Unlisted, BoundTo, KnownAbsent;
  }

  lemma HeardInventory(inv: Inventory, inv': Inventory, s: Session, s': Session, f: Frame, now: Time)
    requires InventoryAfter(inv, inv', s, s', f, now)
    ensures InventoryAfter(inv, inv', s, s'.(lastFrame := now), f, now)
  {
    hide Taken, Probeable;
  }

  // ---------- Only valid objects ----------

  ghost predicate AllValid(objects: map<Position, Resource>, config: Config) {
    forall p :: p in objects ==> ValidResource(objects[p].o, config)
  }

  /** Every object that is served, or is about to be, passed the checks of its frame. */
  ghost predicate OnlyValid(m: Mem) {
    && (forall c :: c in m.collectors ==> AllValid(m.collectors[c].objects, m.collectors[c].config))
    && forall sid :: sid in m.sessions && m.sessions[sid].staging.Some? && m.sessions[sid].collector in m.collectors ==>
         AllValid(m.sessions[sid].staging.value, m.collectors[m.sessions[sid].collector].config)
  }

  lemma TakenIsValid(inv: Inventory, followed: bool, o: Observation, now: Time, r: Resource)
    requires Taken(inv, followed, o, now, r) && ValidResource(o, inv.config) && AllValid(inv.objects, inv.config)
    ensures ValidResource(r.o, inv.config)
  {
    hide ValidLocation, ValidMetadata;
    assert r.o == Bare(o).(health := r.o.health) by { assert r.o == Bare(r.o).(health := r.o.health); }
  }

  lemma ListStaysValid(inv: Inventory, s: Session, objects: seq<Observation>, now: Time, after: map<Position, Resource>)
    requires s.staging.Some? && Staged(inv, s.synced, s.staging.value, objects, now, after)
    requires AllValid(inv.objects, inv.config) && AllValid(s.staging.value, inv.config)
    requires forall i :: 0 <= i < |objects| ==> ValidResource(objects[i], inv.config)
    ensures AllValid(after, inv.config)
  {
    hide ValidResource, Taken;
    forall p | p in after ensures ValidResource(after[p].o, inv.config) {
      if p !in s.staging.value {
        var i :| 0 <= i < |objects| && objects[i].pos == p;
        TakenIsValid(inv, s.synced, objects[i], now, after[p]);
      }
    }
  }

  lemma AcceptedIsValid(m: Mem, sid: SessionId, f: Frame, now: Time)
    requires Has(m, sid) && Handle(m, sid, f, now).Ok?
    ensures var config := m.collectors[m.sessions[sid].collector].config;
      && (f.Objects? ==> forall i :: 0 <= i < |f.objects| ==> ValidResource(f.objects[i], config))
      && (f.Upsert? ==> ValidResource(f.item, config))
      && (f.Probe? ==> f.health != Unrecognized)
  {
    hide ValidResource, ValidLocation, PutAll, Sample, Missing;
  }

  lemma FrameStaysValid(inv: Inventory, inv': Inventory, s: Session, s': Session, f: Frame, now: Time)
    requires InventoryAfter(inv, inv', s, s', f, now) && AllValid(inv.objects, inv.config)
    requires s.staging.Some? ==> AllValid(s.staging.value, inv.config)
    requires f.Objects? ==> forall i :: 0 <= i < |f.objects| ==> ValidResource(f.objects[i], inv.config)
    requires f.Upsert? ==> ValidResource(f.item, inv.config)
    requires f.Probe? ==> f.health != Unrecognized
    requires s'.staging != s.staging ==> f.Begin? || f.Objects? || f.End?
    ensures AllValid(inv'.objects, inv'.config) && inv'.config == inv.config
    ensures s'.staging.Some? ==> AllValid(s'.staging.value, inv.config)
  {
    hide ValidResource, Staged, Taken;
    match f {
      case Objects(_, objects) => ListStaysValid(inv, s, objects, now, s'.staging.value);
      case Upsert(o) => TakenIsValid(inv, true, o, now, inv'.objects[o.pos]);
      case Probe(pos, _, _, health) => if Probeable(inv, pos, f.uid, f.resourceVersion) { ProbedIsValid(inv.objects[pos].o, health, inv.config); }
      case _ =>
    }
  }

  lemma ProbedIsValid(o: Observation, health: Health, config: Config)
    requires ValidResource(o, config) && health != Unrecognized
    ensures ValidResource(o.(health := health), config)
  {
    hide ValidLocation, ValidMetadata;
  }

  lemma HandledStaging(m: Mem, sid: SessionId, f: Frame, now: Time)
    requires Has(m, sid) && Handle(m, sid, f, now).Ok?
    ensures var m' := Heard(Handle(m, sid, f, now).value, sid, now);
      && m'.sessions.Keys == m.sessions.Keys && (forall o :: o in m.sessions && o != sid ==> m'.sessions[o] == m.sessions[o])
      && m'.sessions[sid].collector == m.sessions[sid].collector
      && (m'.sessions[sid].staging != m.sessions[sid].staging ==> f.Begin? || f.Objects? || f.End?)
  {
    hide PutAll, ChunkOk, ValidResource, ValidLocation, Sample, IsId, Confirmed, Unlisted, BoundTo, KnownAbsent, Missing;
  }

  lemma AcceptedStaysValid(w: World, s: Step)
    requires Enabled(w, s) && Accepts(w.mem, s) && OnlyValid(w.mem)
    ensures OnlyValid(Next(w, s).mem)
  {
    hide Handle, Live, Projected, Moved, Advanced, MatchesOf, InventoryAfter, BindingsAfter, AllValid, Heard;
    FrameLeaves(w, s);
    var m, m', sid := w.mem, Next(w, s).mem, s.act.sid;
    AcceptedIsValid(m, sid, s.act.frame, s.now);
    HandledStaging(m, sid, s.act.frame, s.now);
    var c := m.sessions[sid].collector;
    FrameStaysValid(m.collectors[c], m'.collectors[c], m.sessions[sid], m'.sessions[sid], s.act.frame, s.now);
  }

  /** Nothing new is served or being listed. */
  ghost predicate Fewer(m: Mem, m': Mem) {
    && m'.collectors.Keys == m.collectors.Keys
    && (forall c :: c in m.collectors ==>
          m'.collectors[c].config == m.collectors[c].config
          && forall p :: p in m'.collectors[c].objects ==>
               p in m.collectors[c].objects && m'.collectors[c].objects[p] == m.collectors[c].objects[p])
    && forall sid :: sid in m'.sessions && m'.sessions[sid].staging.Some? ==> sid in m.sessions && m.sessions[sid] == m'.sessions[sid]
  }

  lemma FewerStayValid(m: Mem, m': Mem)
    requires OnlyValid(m) && Fewer(m, m')
    ensures OnlyValid(m')
  {
    hide ValidResource;
  }

  lemma CloseServesFewer(m: Mem, sid: SessionId)
    ensures Fewer(m, CloseSession(m, sid))
  {
  }

  lemma OpenServesFewer(m: Mem, c: string, sid: SessionId, now: Time)
    requires Open(m, c, sid, now).Ok?
    ensures Fewer(m, Open(m, c, sid, now).value)
  {
    hide Live;
  }

  lemma SweepServesFewer(m: Mem, now: Time)
    ensures Fewer(m, CloseStale(m, now))
  {
    hide Stale, Lapsed;
  }

  lemma ForgetServesFewer(m: Mem, app: string, target: string)
    ensures Fewer(m, Forget(m, app, target))
  {
    hide Leaves;
  }

  /** Tracking and projecting bindings serves no other objects. */
  lemma SameObjectsServeFewer(m: Mem, mid: Mem, m': Mem)
    requires Fewer(m, mid) && m'.collectors == mid.collectors && m'.sessions == mid.sessions
    ensures Fewer(m, m')
  {
  }

  lemma ProjectServesFewer(m: Mem, mid: Mem, now: Time)
    requires Fewer(m, mid)
    ensures Fewer(m, ProjectAll(mid, now))
  {
    SameObjectsServeFewer(m, mid, ProjectAll(mid, now));
    hide Fewer, Projected, Moved, Advanced;
  }

  lemma OtherCallsServeFewer(w: World, s: Step)
    requires Enabled(w, s) && !Accepts(w.mem, s)
    ensures Fewer(w.mem, Next(w, s).mem)
  {
    hide Fewer, ProjectAll, MatchesOf, Handle, Live, CloseSession, CloseStale, Forget, Open, Register;
    var m, now := w.mem, s.now;
    assert Fewer(m, m) by { ServesItself(m); }
    match s.act {
      case OpenAct(c, sid) => if Open(m, c, sid, now).Ok? { OpenServesFewer(m, c, sid, now); }
      case CloseAct(sid) => CloseServesFewer(m, sid);
      case FrameAct(sid, _) => CloseServesFewer(m, sid);
      case ReadAct(bindings) =>
        if Register(m, bindings).Ok? {
          RegisterForm(m, bindings);
          SameObjectsServeFewer(m, m, Register(m, bindings).value);
          ProjectServesFewer(m, Register(m, bindings).value, now);
        }
      case ExpireAct =>
        SweepServesFewer(m, now);
        ProjectServesFewer(m, CloseStale(m, now), now);
      case ResetAct(app, target) =>
        ForgetServesFewer(m, app, target);
        ProjectServesFewer(m, Forget(m, app, target), now);
    }
  }

  lemma ServesItself(m: Mem)
    ensures Fewer(m, m)
  {
  }

  /** No object that fails the checks of its frame is ever served. */
  lemma StepKeepsOnlyValid(w: World, s: Step)
    requires Enabled(w, s) && OnlyValid(w.mem)
    ensures OnlyValid(Next(w, s).mem)
  {
    hide Next, OnlyValid, Fewer, Accepts;
    if Accepts(w.mem, s) {
      AcceptedStaysValid(w, s);
    } else {
      OtherCallsServeFewer(w, s);
      FewerStayValid(w.mem, Next(w, s).mem);
    }
  }

  lemma {:induction false} RunKeepsOnlyValid(w: World, steps: seq<Step>)
    requires IsRun(w, steps) && OnlyValid(w.mem)
    ensures OnlyValid(After(w, steps).mem)
    decreases |steps|
  {
    hide Next, OnlyValid;
    if steps != [] {
      StepKeepsOnlyValid(w, steps[0]);
      RunKeepsOnlyValid(Next(w, steps[0]), steps[1..]);
    }
  }

  lemma ReachableIsOnlyValid(w: World)
    requires Reachable(w)
    ensures OnlyValid(w.mem)
  {
    hide OnlyValid, ValidConfigs, Start;
    var station, configs, clock, steps :|
      ValidConfigs(configs) && 0 <= clock && IsRun(Start(station, configs, clock), steps)
      && After(Start(station, configs, clock), steps) == w;
    StartIsOnlyValid(station, configs, clock);
    RunKeepsOnlyValid(Start(station, configs, clock), steps);
  }

  lemma StartIsOnlyValid(station: string, configs: seq<Config>, clock: Time)
    requires ValidConfigs(configs)
    ensures OnlyValid(Start(station, configs, clock).mem)
  {
    hide ValidConfigs, ValidResource;
  }
}
