/** Every call keeps the evidence invariant: inventories replay the log and every resource has a source. */
module AppEvidence {
  import opened Common
  import opened Observations
  import opened AppMemory
  import opened AppHistory
  import opened AppInvariant

  // ---------- One more event ----------

  lemma LogStep(log: seq<Event>, e: Event, c: string, sid: SessionId)
    ensures Author(log + [e], c) ==
            if e.Accepted? && e.collector == c && e.frame.End? then Some(e.session) else Author(log, c)
    ensures Replayed(log + [e], c) ==
            Replay(Replayed(log, c), if e.Accepted? then Sent(log, e.session) else map[], e, c)
    ensures (e.Accepted? ==> e.session != sid) ==> Sent(log + [e], sid) == Sent(log, sid)
    ensures e.Accepted? && e.session == sid ==>
      Sent(log + [e], sid) == match e.frame case Begin(_) => map[]
                                            case Objects(_, objects) => PutFacts(Sent(log, sid), objects)
                                            case _ => Sent(log, sid)
    ensures (e.Accepted? ==> e.session != sid) ==> OpenList(log + [e], sid) == OpenList(log, sid)
    ensures e.Accepted? && e.session == sid ==>
      OpenList(log + [e], sid) == match e.frame case Begin(syncId) => Some(Listing(syncId, e.time))
                                                case End(_, _) => None
                                                case _ => OpenList(log, sid)
  {
    hide Replay, PutFacts;
    assert (log + [e])[..|log + [e]| - 1] == log;
  }

  lemma SoundExtends(log: seq<Event>, log': seq<Event>, c: string, sid: SessionId, from: Time, r: Resource)
    requires Sound(log, c, sid, from, r) && log <= log'
    ensures Sound(log', c, sid, from, r)
  {
    hide Carries, Probes;
    var k :| 0 <= k < |log| && Carries(log[k], c, sid, r.o) && from <= log[k].time <= r.received
             && (r.received == log[k].time || r.received < from + FULL_SYNC);
    assert log'[k] == log[k];
    if r.o.health != NotChecked {
      var j :| 0 <= j < |log| && Probes(log[j], c, sid, r.o) && r.healthExpires == log[j].time + TTL;
      assert log'[j] == log[j];
    }
  }

  lemma ResourceStays(log: seq<Event>, log': seq<Event>, clock: Time, now: Time, config: Config, c: string, sid: SessionId,
                      from: Time, objects: map<Position, Resource>)
    requires forall p :: p in objects ==> ResourceOk(log, clock, config, c, sid, from, p, objects[p])
    requires log <= log' && clock <= now
    ensures forall p :: p in objects ==> ResourceOk(log', now, config, c, sid, from, p, objects[p])
  {
    hide Sound;
    forall p | p in objects ensures ResourceOk(log', now, config, c, sid, from, p, objects[p]) {
      assert ResourceOk(log, clock, config, c, sid, from, p, objects[p]);
      SoundExtends(log, log', c, sid, from, objects[p]);
    }
  }

  /** No event of the longer log completes another list. */
  predicate NoEnd(log: seq<Event>, log': seq<Event>, c: string) {
    log <= log' && forall k :: |log| <= k < |log'| ==> !Ends(log'[k], c)
  }

  lemma CompletedStays(log: seq<Event>, log': seq<Event>, c: string, from: Time)
    requires CompletedSince(log, c, from) && NoEnd(log, log', c)
    ensures CompletedSince(log', c, from)
  {
    var e: nat :| Completed(log, c, from, e);
    assert log'[e] == log[e] && log'[..e] == log[..e];
    forall k | e < k < |log'| ensures !Ends(log'[k], c) {
      if k < |log| { assert log'[k] == log[k]; }
    }
    assert Completed(log', c, from, e);
  }

  lemma ConfirmsStays(log: seq<Event>, log': seq<Event>, c: string, sid: SessionId, from: Time, at: Time)
    requires Confirms(log, c, sid, from, at) && log <= log'
    ensures Confirms(log', c, sid, from, at)
  {
    if at != from {
      var k :| 0 <= k < |log| && Beats(log[k], c, sid, at);
      assert log'[k] == log[k];
    }
  }

  /** An inventory that an event or a call does not concern. */
  lemma InventoryStays(log: seq<Event>, log': seq<Event>, clock: Time, now: Time, c: string, inv: Inventory, inv': Inventory)
    requires InventoryOk(log, clock, c, inv) && log <= log' && clock <= now
    requires inv' == inv.(active := inv'.active) && NoEnd(log, log', c)
    requires Author(log', c) == Author(log, c) && Replayed(log', c) == Replayed(log, c)
    ensures InventoryOk(log', now, c, inv')
  {
    hide ResourceOk, CompletedSince, Confirms;
    if Author(log, c).Some? {
      CompletedStays(log, log', c, inv.lastFull);
      if inv.listed.Some? { ConfirmsStays(log, log', c, Author(log, c).value, inv.lastFull, inv.listed.value.at); }
      ResourceStays(log, log', clock, now, inv.config, c, Author(log, c).value, inv.lastFull, inv.objects);
    }
  }

  /** A session that an event or a call does not concern, or that is closed. */
  lemma SessionStays(log: seq<Event>, log': seq<Event>, clock: Time, now: Time, inv: Inventory, inv': Inventory,
                     sid: SessionId, s: Session, s': Session)
    requires SessionOk(log, clock, inv, sid, s) && log <= log' && clock <= now && inv'.config == inv.config
    requires s' == s || s' == s.(closed := true, staging := None, syncId := "")
    requires !s'.closed ==> inv'.active == Some(sid) && Author(log', s.collector) == Author(log, s.collector)
                            && Sent(log', sid) == Sent(log, sid) && OpenList(log', sid) == OpenList(log, sid)
    ensures SessionOk(log', now, inv', sid, s')
  {
    hide ResourceOk;
    if s'.staging.Some? {
      ResourceStays(log, log', clock, now, inv.config, s.collector, sid, s.started, s.staging.value);
    }
  }

  // ---------- Calls that log nothing ----------

  /** Inventories may lose their active session, sessions may be closed; the clock moves on. */
  lemma QuietKeeps(m: Mem, m': Mem, log: seq<Event>, clock: Time, now: Time)
    requires EvidenceOk(m, log, clock) && clock <= now
    requires m'.collectors.Keys == m.collectors.Keys && m'.sessions.Keys == m.sessions.Keys
    requires forall c :: c in m.collectors ==> m'.collectors[c] == m.collectors[c] || m'.collectors[c] == m.collectors[c].(active := None)
    requires forall sid :: sid in m.sessions ==>
      m'.sessions[sid] == m.sessions[sid] || m'.sessions[sid] == m.sessions[sid].(closed := true, staging := None, syncId := "")
    requires ActiveIsOpen(m')
    requires forall sid :: sid in m'.sessions && !m'.sessions[sid].closed ==>
      m.sessions[sid].collector in m'.collectors && m'.collectors[m.sessions[sid].collector].active == Some(sid)
    ensures EvidenceOk(m', log, now)
  {
    hide InventoryOk, SessionOk;
    forall c | c in m'.collectors ensures InventoryOk(log, now, c, m'.collectors[c]) {
      InventoryStays(log, log, clock, now, c, m.collectors[c], m'.collectors[c]);
    }
    forall sid | sid in m'.sessions
      ensures m'.sessions[sid].collector in m'.collectors
      ensures SessionOk(log, now, m'.collectors[m'.sessions[sid].collector], sid, m'.sessions[sid])
    {
      var c := m.sessions[sid].collector;
      SessionStays(log, log, clock, now, m.collectors[c], m'.collectors[c], sid, m.sessions[sid], m'.sessions[sid]);
    }
  }

  /** At most one session of a collector is open. */
  lemma OpenIsActive(m: Mem, log: seq<Event>, clock: Time, sid: SessionId)
    requires EvidenceOk(m, log, clock) && sid in m.sessions
    ensures Has(m, sid)
    ensures !m.sessions[sid].closed <==> m.collectors[m.sessions[sid].collector].active == Some(sid)
  {
    hide InventoryOk, StagingOk;
  }

  lemma CloseKeeps(m: Mem, log: seq<Event>, clock: Time, sid: SessionId, now: Time)
    requires EvidenceOk(m, log, clock) && clock <= now
    ensures EvidenceOk(CloseSession(m, sid), log, now)
  {
    hide InventoriesOk, SessionsOk;
    if sid in m.sessions {
      OpenIsActive(m, log, clock, sid);
    }
    forall other | other in m.sessions
      ensures Has(m, other)
      ensures !m.sessions[other].closed <==> m.collectors[m.sessions[other].collector].active == Some(other)
    {
      OpenIsActive(m, log, clock, other);
    }
    QuietKeeps(m, CloseSession(m, sid), log, clock, now);
  }

  lemma CloseStaleKeeps(m: Mem, log: seq<Event>, clock: Time, now: Time)
    requires EvidenceOk(m, log, clock) && clock <= now
    ensures EvidenceOk(CloseStale(m, now), log, now)
  {
    hide InventoriesOk, SessionsOk;
    forall other | other in m.sessions
      ensures Has(m, other)
      ensures !m.sessions[other].closed <==> m.collectors[m.sessions[other].collector].active == Some(other)
    {
      OpenIsActive(m, log, clock, other);
    }
    QuietKeeps(m, CloseStale(m, now), log, clock, now);
  }

  lemma OpenKeeps(m: Mem, log: seq<Event>, clock: Time, collector: string, sid: SessionId, now: Time)
    requires EvidenceOk(m, log, clock) && clock <= now && sid !in m.sessions && 0 <= now
    requires Open(m, collector, sid, now).Ok?
    ensures EvidenceOk(Open(m, collector, sid, now).value, log, now)
  {
    hide InventoryOk, SessionOk;
    var prior := m.collectors[collector].active;
    var freed := if prior.Some? then CloseSession(m, prior.value) else m;
    var m' := Open(m, collector, sid, now).value;
    if prior.Some? {
      CloseKeeps(m, log, clock, prior.value, now);
    } else {
      QuietKeeps(m, m, log, clock, now) by { AllOpenActive(m, log, clock); }
    }
    assert freed.collectors[collector].active == None;
    assert sid !in freed.sessions;
    forall c | c in m'.collectors ensures InventoryOk(log, now, c, m'.collectors[c]) {
      InventoryStays(log, log, now, now, c, freed.collectors[c], m'.collectors[c]);
    }
    forall other | other in m'.sessions
      ensures m'.sessions[other].collector in m'.collectors
      ensures SessionOk(log, now, m'.collectors[m'.sessions[other].collector], other, m'.sessions[other])
    {
      if other != sid {
        var c := freed.sessions[other].collector;
        OpenIsActive(freed, log, now, other);
        SessionStays(log, log, now, now, freed.collectors[c], m'.collectors[c], other, freed.sessions[other], m'.sessions[other]);
      } else {
        NeverHeard(log, sid, collector);
        FreshSessionOk(log, now, m'.collectors[collector], sid, collector);
      }
    }
  }

  /** A session of which no frame was accepted has begun no list and completed none. */
  lemma {:induction false} NeverHeard(log: seq<Event>, sid: SessionId, c: string)
    requires forall k :: 0 <= k < |log| && log[k].Accepted? ==> log[k].session != sid
    ensures OpenList(log, sid).None? && Author(log, c) != Some(sid)
    decreases |log|
  {
    if log != [] {
      var prior := log[..|log| - 1];
      assert forall k :: 0 <= k < |prior| ==> prior[k] == log[k];
      NeverHeard(prior, sid, c);
    }
  }

  lemma FreshSessionOk(log: seq<Event>, now: Time, inv: Inventory, sid: SessionId, collector: string)
    requires inv.active == Some(sid) && 0 <= now && OpenList(log, sid).None? && Author(log, collector) != Some(sid)
    ensures SessionOk(log, now, inv, sid, Session(collector, now, false, false, "", 0, None))
  {
  }

  lemma AllOpenActive(m: Mem, log: seq<Event>, clock: Time)
    requires EvidenceOk(m, log, clock)
    ensures forall sid :: sid in m.sessions && !m.sessions[sid].closed ==>
      m.sessions[sid].collector in m.collectors && m.collectors[m.sessions[sid].collector].active == Some(sid)
  {
    hide InventoriesOk, SessionsOk;
    forall sid | sid in m.sessions && !m.sessions[sid].closed
      ensures m.sessions[sid].collector in m.collectors && m.collectors[m.sessions[sid].collector].active == Some(sid)
    {
      OpenIsActive(m, log, clock, sid);
    }
  }

  // ---------- Samples ----------

  lemma SampleIsSound(log: seq<Event>, clock: Time, e: Event, c: string, inv: Inventory, sid: SessionId, synced: bool,
                      o: Observation, now: Time, from: Time)
    requires InventoryOk(log, clock, c, inv) && (synced ==> Author(log, c) == Some(sid))
    requires Carries(e, c, sid, o) && Probes(e, c, sid, o) && e.time == now && from <= now
    ensures Sound(log + [e], c, sid, from, Sample(inv, synced, o, now))
  {
    hide Carries, Probes, Facts;
    var r, log' := Sample(inv, synced, o, now), log + [e];
    assert log'[|log|] == e;
    assert Bare(r.o) == Bare(o);
    assert Carries(log'[|log|], c, sid, r.o) by { CarriesFacts(e, c, sid, o, r.o); }
    assert CarriedSince(log', c, sid, from, r);
    if r.o.health != NotChecked && r.o != o {
      assert ResourceOk(log, clock, inv.config, c, sid, inv.lastFull, o.pos, inv.objects[o.pos]);
      var j :| 0 <= j < |log| && Probes(log[j], c, sid, inv.objects[o.pos].o) && inv.objects[o.pos].healthExpires == log[j].time + TTL;
      assert log'[j] == log[j];
    }
  }

  lemma CarriesFacts(e: Event, c: string, sid: SessionId, o: Observation, x: Observation)
    requires Carries(e, c, sid, o) && Bare(o) == Bare(x)
    ensures Carries(e, c, sid, x)
  {
  }

  lemma FactsOfPut(objects: map<Position, Resource>, p: Position, r: Resource)
    ensures Facts(objects[p := r]) == Facts(objects)[p := Bare(r.o)]
  {
  }

  lemma {:induction false} PutAllFacts(c: Inventory, synced: bool, staging: map<Position, Resource>, objects: seq<Observation>, now: Time)
    ensures Facts(PutAll(c, synced, staging, objects, now)) == PutFacts(Facts(staging), objects)
    ensures |PutAll(c, synced, staging, objects, now)| <= |staging| + |objects|
  {
    if objects != [] {
      hide Facts;
      var o := objects[|objects| - 1];
      PutAllFacts(c, synced, staging, objects[..|objects| - 1], now);
      var before := PutAll(c, synced, staging, objects[..|objects| - 1], now);
      FactsOfPut(before, o.pos, Sample(c, synced, o, now));
    }
  }

  /** An entry of a list is from before, or the sample of an object of the frame. */
  lemma {:induction false} PutAllSource(c: Inventory, synced: bool, staging: map<Position, Resource>, objects: seq<Observation>,
                                        now: Time, p: Position) returns (i: nat)
    requires p in PutAll(c, synced, staging, objects, now)
    ensures var r := PutAll(c, synced, staging, objects, now)[p];
      (p in staging && r == staging[p]) || (i < |objects| && objects[i].pos == p && r == Sample(c, synced, objects[i], now))
  {
    hide Sample;
    i := 0;
    if objects != [] {
      var n := |objects| - 1;
      if p == objects[n].pos {
        i := n;
      } else {
        i := PutAllSource(c, synced, staging, objects[..n], now, p);
      }
    }
  }

  // ---------- Frames ----------

  /** An accepted frame concerns its own session and collector; everything else stays. */
  lemma FrameFrames(m: Mem, m': Mem, log: seq<Event>, clock: Time, e: Event)
    requires EvidenceOk(m, log, clock) && e.Accepted? && clock <= e.time && Has(m, e.session)
    requires m.sessions[e.session].collector == e.collector && !m.sessions[e.session].closed
    requires m'.collectors.Keys == m.collectors.Keys && m'.sessions.Keys == m.sessions.Keys
    requires forall c :: c in m.collectors && c != e.collector ==> m'.collectors[c] == m.collectors[c]
    requires forall sid :: sid in m.sessions && sid != e.session ==> m'.sessions[sid] == m.sessions[sid]
    requires var inv, inv' := m.collectors[e.collector], m'.collectors[e.collector];
      inv'.config == inv.config && inv'.active == inv.active && InventoryOk(log + [e], e.time, e.collector, inv')
    requires var s' := m'.sessions[e.session];
      s'.collector == e.collector && !s'.closed && SessionOk(log + [e], e.time, m'.collectors[e.collector], e.session, s')
    ensures EvidenceOk(m', log + [e], e.time)
  {
    hide InventoryOk, SessionOk;
    var log' := log + [e];
    forall c | c in m'.collectors ensures InventoryOk(log', e.time, c, m'.collectors[c]) {
      if c != e.collector {
        LogStep(log, e, c, e.session);
        InventoryStays(log, log', clock, e.time, c, m.collectors[c], m'.collectors[c]);
      }
    }
    forall sid | sid in m'.sessions
      ensures m'.sessions[sid].collector in m'.collectors
      ensures SessionOk(log', e.time, m'.collectors[m'.sessions[sid].collector], sid, m'.sessions[sid])
    {
      if sid != e.session {
        var c := m.sessions[sid].collector;
        LogStep(log, e, c, sid);
        OpenIsActive(m, log, clock, sid);
        OpenIsActive(m, log, clock, e.session);
        SessionStays(log, log', clock, e.time, m.collectors[c], m'.collectors[c], sid, m.sessions[sid], m'.sessions[sid]);
      }
    }
    LogTimes(log, clock, e);
  }

  lemma LogTimes(log: seq<Event>, clock: Time, e: Event)
    requires LogOk(log, clock) && clock <= e.time
    ensures LogOk(log + [e], e.time)
  {
  }

  /** An open session and its inventory, when a frame of the session arrives. */
  ghost predicate Receives(log: seq<Event>, clock: Time, e: Event, inv: Inventory, s: Session) {
    && e.Accepted? && e.collector == s.collector && clock <= e.time && !s.closed
    && InventoryOk(log, clock, s.collector, inv) && SessionOk(log, clock, inv, e.session, s)
  }

  /** The same after the first list, when the session is the inventory's author. */
  ghost predicate ReceivesSynced(log: seq<Event>, clock: Time, e: Event, inv: Inventory, s: Session) {
    && Receives(log, clock, e, inv, s) && s.synced && s.staging.None?
    && Author(log, s.collector) == Some(e.session) && Facts(inv.objects) == Replayed(log, s.collector)
    && |inv.objects| <= MAX_INVENTORY && inv.lastFull <= clock
    && forall p :: p in inv.objects ==> ResourceOk(log, clock, inv.config, s.collector, e.session, inv.lastFull, p, inv.objects[p])
  }

  lemma SyncedReceives(log: seq<Event>, clock: Time, e: Event, inv: Inventory, s: Session)
    requires Receives(log, clock, e, inv, s) && s.synced && s.staging.None?
    ensures ReceivesSynced(log, clock, e, inv, s)
  {
    hide Facts, ResourceOk;
  }

  lemma BeginKeeps(log: seq<Event>, clock: Time, e: Event, inv: Inventory, s: Session, s': Session)
    requires Receives(log, clock, e, inv, s) && e.frame.Begin?
    requires s' == s.(syncId := e.frame.syncId, started := e.time, staging := Some(map[]), lastFrame := e.time)
    ensures InventoryOk(log + [e], e.time, s.collector, inv) && SessionOk(log + [e], e.time, inv, e.session, s')
  {
    hide InventoryOk;
    LogStep(log, e, s.collector, e.session);
    InventoryStays(log, log + [e], clock, e.time, s.collector, inv, inv);
    assert (log + [e])[|log|] == e;
  }

  lemma ObjectsKeeps(log: seq<Event>, clock: Time, e: Event, inv: Inventory, s: Session, s': Session)
    requires Receives(log, clock, e, inv, s) && e.frame.Objects? && s.staging.Some?
    requires |s.staging.value| + |e.frame.objects| <= MAX_INVENTORY && ChunkOk(inv, s.staging.value, e.frame.objects)
    requires s' == s.(staging := Some(PutAll(inv, s.synced, s.staging.value, e.frame.objects, e.time)), lastFrame := e.time)
    ensures InventoryOk(log + [e], e.time, s.collector, inv) && SessionOk(log + [e], e.time, inv, e.session, s')
  {
    hide InventoryOk, Carries, Probes, Sound, PutAll, PutFacts, Sample, Facts, ValidResource;
    var log', objects := log + [e], e.frame.objects;
    LogStep(log, e, s.collector, e.session);
    InventoryStays(log, log', clock, e.time, s.collector, inv, inv);
    PutAllFacts(inv, s.synced, s.staging.value, objects, e.time);
    ResourceStays(log, log', clock, e.time, inv.config, s.collector, e.session, s.started, s.staging.value);
    forall p | p in s'.staging.value
      ensures ResourceOk(log', e.time, inv.config, s.collector, e.session, s.started, p, s'.staging.value[p])
    {
      var i := PutAllSource(inv, s.synced, s.staging.value, objects, e.time, p);
      if !(p in s.staging.value && s'.staging.value[p] == s.staging.value[p]) {
        ChunkCarries(e, s.collector, i);
        SampleIsSound(log, clock, e, s.collector, inv, e.session, s.synced, objects[i], e.time, s.started);
        SampleKeepsPlace(inv, s.synced, objects[i], e.time);
      }
    }
  }

  lemma ChunkCarries(e: Event, c: string, i: nat)
    requires e.Accepted? && e.frame.Objects? && e.collector == c && i < |e.frame.objects|
    ensures Carries(e, c, e.session, e.frame.objects[i]) && Probes(e, c, e.session, e.frame.objects[i])
  {
  }

  lemma SampleKeepsPlace(inv: Inventory, synced: bool, o: Observation, now: Time)
    requires ValidResource(o, inv.config) && !o.deleted
    ensures var r := Sample(inv, synced, o, now);
      r.o.pos == o.pos && !r.o.deleted && Bare(r.o) == Bare(o) && r.received == now && o.pos.namespace in inv.config.namespaces
  {
    hide IsLabel, IsSubdomain, ValidMetadata;
    assert Bare(Sample(inv, synced, o, now).o) == Bare(o);
  }

  lemma EndKeeps(log: seq<Event>, clock: Time, e: Event, inv: Inventory, inv': Inventory, s: Session, s': Session)
    requires Receives(log, clock, e, inv, s) && e.frame.End? && s.staging.Some?
    requires inv' == inv.(objects := s.staging.value, lastFull := s.started, listed := Some(Since(s.started)))
    requires s' == s.(staging := None, syncId := "", synced := true, lastFrame := e.time)
    ensures InventoryOk(log + [e], e.time, s.collector, inv') && SessionOk(log + [e], e.time, inv', e.session, s')
  {
    hide Sound, Facts, CompletedSince;
    LogStep(log, e, s.collector, e.session);
    ResourceStays(log, log + [e], clock, e.time, inv.config, s.collector, e.session, s.started, s.staging.value);
    EndCompletes(log, e, s.started);
  }

  lemma EndCompletes(log: seq<Event>, e: Event, from: Time)
    requires e.Accepted? && e.frame.End? && OpenList(log, e.session).Some? && OpenList(log, e.session).value.at == from
    ensures CompletedSince(log + [e], e.collector, from)
  {
    assert (log + [e])[|log|] == e && (log + [e])[..|log|] == log;
    assert Completed(log + [e], e.collector, from, |log|);
  }

  /** Frames after the list change objects one by one; the session only says it is alive. */
  lemma SyncedKeeps(log: seq<Event>, clock: Time, e: Event, inv: Inventory, inv': Inventory, s: Session)
    requires ReceivesSynced(log, clock, e, inv, s)
    requires e.frame.Upsert? || e.frame.Delete? || e.frame.Probe? || e.frame.Heartbeat?
    requires inv' == inv.(objects := inv'.objects, listed := inv'.listed)
    requires inv'.listed == inv.listed
             || (inv'.listed == Some(Since(e.time)) && e.frame.Heartbeat? && e.time < inv.lastFull + FULL_SYNC)
    requires |inv'.objects| <= MAX_INVENTORY && Facts(inv'.objects) == Replayed(log + [e], s.collector)
    requires forall p :: p in inv'.objects && !(p in inv.objects && inv'.objects[p] == inv.objects[p]) ==>
      ResourceOk(log + [e], e.time, inv.config, s.collector, e.session, inv.lastFull, p, inv'.objects[p])
    ensures InventoryOk(log + [e], e.time, s.collector, inv')
    ensures SessionOk(log + [e], e.time, inv', e.session, s.(lastFrame := e.time))
  {
    hide Sound, Facts, CompletedSince, Confirms;
    LogStep(log, e, s.collector, e.session);
    ResourceStays(log, log + [e], clock, e.time, inv.config, s.collector, e.session, inv.lastFull, inv.objects);
    CompletedStays(log, log + [e], s.collector, inv.lastFull);
    if inv'.listed == inv.listed {
      if inv.listed.Some? { ConfirmsStays(log, log + [e], s.collector, e.session, inv.lastFull, inv.listed.value.at); }
    } else {
      BeatConfirms(log, e, inv.lastFull);
    }
  }

  lemma BeatConfirms(log: seq<Event>, e: Event, from: Time)
    requires e.Accepted? && e.frame.Heartbeat? && from <= e.time < from + FULL_SYNC
    ensures Confirms(log + [e], e.collector, e.session, from, e.time)
  {
    assert Beats((log + [e])[|log|], e.collector, e.session, e.time);
  }

  lemma UpsertKeeps(log: seq<Event>, clock: Time, e: Event, inv: Inventory, inv': Inventory, s: Session)
    requires ReceivesSynced(log, clock, e, inv, s) && e.frame.Upsert?
    requires var o := e.frame.item;
      !o.deleted && ValidResource(o, inv.config) && (o.pos in inv.objects || |inv.objects| < MAX_INVENTORY)
      && inv' == inv.(objects := inv.objects[o.pos := Sample(inv, s.synced, o, e.time)])
    ensures InventoryOk(log + [e], e.time, s.collector, inv')
    ensures SessionOk(log + [e], e.time, inv', e.session, s.(lastFrame := e.time))
  {
    hide InventoryOk, SessionOk, Sound, ValidResource, Facts, Sample;
    var o := e.frame.item;
    LogStep(log, e, s.collector, e.session);
    FactsOfPut(inv.objects, o.pos, Sample(inv, s.synced, o, e.time));
    assert Carries(e, s.collector, e.session, o) && Probes(e, s.collector, e.session, o);
    SampleIsSound(log, clock, e, s.collector, inv, e.session, s.synced, o, e.time, inv.lastFull);
    SampleKeepsPlace(inv, s.synced, o, e.time);
    SyncedKeeps(log, clock, e, inv, inv', s);
  }

  lemma DeleteKeeps(log: seq<Event>, clock: Time, e: Event, inv: Inventory, inv': Inventory, s: Session)
    requires ReceivesSynced(log, clock, e, inv, s) && e.frame.Delete?
    requires var p := e.frame.pos;
      inv' == if p in inv.objects && inv.objects[p].o.uid == e.frame.uid then inv.(objects := inv.objects - {p}) else inv
    ensures InventoryOk(log + [e], e.time, s.collector, inv')
    ensures SessionOk(log + [e], e.time, inv', e.session, s.(lastFrame := e.time))
  {
    hide InventoryOk, SessionOk, ResourceOk, Facts;
    LogStep(log, e, s.collector, e.session);
    FewerObjects(inv.objects, e.frame.pos);
    SyncedKeeps(log, clock, e, inv, inv', s);
  }

  lemma FewerObjects(objects: map<Position, Resource>, p: Position)
    ensures |objects - {p}| <= |objects|
    ensures Facts(objects - {p}) == Facts(objects) - {p}
    ensures p in Facts(objects) <==> p in objects
    ensures p in objects ==> Facts(objects)[p].uid == objects[p].o.uid
  {
    assert (objects - {p}).Keys == objects.Keys - {p};
    assert |objects.Keys - {p}| <= |objects.Keys|;
  }

  lemma ProbeKeeps(log: seq<Event>, clock: Time, e: Event, inv: Inventory, inv': Inventory, s: Session)
    requires ReceivesSynced(log, clock, e, inv, s) && e.frame.Probe?
    requires inv' == inv || (
      && e.frame.pos in inv.objects
      && var r := inv.objects[e.frame.pos];
         r.o.uid == e.frame.uid && r.o.resourceVersion == e.frame.resourceVersion
         && inv' == inv.(objects := inv.objects[e.frame.pos := r.(o := r.o.(health := e.frame.health), healthExpires := e.time + TTL)]))
    ensures InventoryOk(log + [e], e.time, s.collector, inv')
    ensures SessionOk(log + [e], e.time, inv', e.session, s.(lastFrame := e.time))
  {
    hide InventoryOk, SessionOk, Facts, Sound;
    var log' := log + [e];
    LogStep(log, e, s.collector, e.session);
    if inv' != inv {
      var r, r' := inv.objects[e.frame.pos], inv'.objects[e.frame.pos];
      FactsOfPut(inv.objects, e.frame.pos, r');
      SamePut(inv.objects, e.frame.pos);
      SoundExtends(log, log', s.collector, e.session, inv.lastFull, r);
      assert Probes(log'[|log|], s.collector, e.session, r'.o);
      ProbedIsSound(log', s.collector, e.session, inv.lastFull, r, r', |log|);
    }
    SyncedKeeps(log, clock, e, inv, inv', s);
  }

  lemma SamePut(objects: map<Position, Resource>, p: Position)
    requires p in objects
    ensures Facts(objects)[p := Bare(objects[p].o)] == Facts(objects)
  {
  }

  lemma ProbedIsSound(log: seq<Event>, c: string, sid: SessionId, from: Time, r: Resource, r': Resource, k: nat)
    requires Sound(log, c, sid, from, r) && r' == r.(o := r'.o, healthExpires := r'.healthExpires) && Bare(r'.o) == Bare(r.o)
    requires k < |log| && Probes(log[k], c, sid, r'.o) && r'.healthExpires == log[k].time + TTL
    ensures Sound(log, c, sid, from, r')
  {
    hide Carries, Probes;
    var j :| 0 <= j < |log| && Carries(log[j], c, sid, r.o) && from <= log[j].time <= r.received
             && (r.received == log[j].time || r.received < from + FULL_SYNC);
    CarriesFacts(log[j], c, sid, r.o, r'.o);
  }

  lemma HeartbeatKeeps(log: seq<Event>, clock: Time, e: Event, inv: Inventory, inv': Inventory, s: Session)
    requires ReceivesSynced(log, clock, e, inv, s) && e.frame.Heartbeat?
    requires e.time < inv.lastFull + FULL_SYNC
    requires inv' == inv.(objects := Confirmed(inv.objects, e.time), listed := Some(Since(e.time)))
    ensures InventoryOk(log + [e], e.time, s.collector, inv')
    ensures SessionOk(log + [e], e.time, inv', e.session, s.(lastFrame := e.time))
  {
    hide InventoryOk, SessionOk, Facts, Sound;
    var log' := log + [e];
    LogStep(log, e, s.collector, e.session);
    ConfirmedFacts(inv.objects, e.time);
    forall p | p in inv'.objects
      ensures ResourceOk(log', e.time, inv.config, s.collector, e.session, inv.lastFull, p, inv'.objects[p])
    {
      ConfirmedIsSound(log, log', s.collector, e.session, inv.lastFull, inv.objects[p], e.time);
    }
    SyncedKeeps(log, clock, e, inv, inv', s);
  }

  lemma ConfirmedFacts(objects: map<Position, Resource>, now: Time)
    ensures Facts(Confirmed(objects, now)) == Facts(objects) && |Confirmed(objects, now)| == |objects|
  {
    assert Confirmed(objects, now).Keys == objects.Keys;
  }

  lemma ConfirmedIsSound(log: seq<Event>, log': seq<Event>, c: string, sid: SessionId, from: Time, r: Resource, now: Time)
    requires Sound(log, c, sid, from, r) && log <= log' && r.received <= now < from + FULL_SYNC
    ensures Sound(log', c, sid, from, r.(received := now, expires := now + TTL))
  {
    hide Carries, Probes;
    SoundExtends(log, log', c, sid, from, r);
  }

  /** What a handled frame may touch: its own session, and the objects of its collector. */
  ghost predicate TouchesOwn(m: Mem, m': Mem, sid: SessionId)
    requires Has(m, sid)
  {
    var c := m.sessions[sid].collector;
    && m'.station == m.station && m'.scopes == m.scopes && m'.bindings.Keys == m.bindings.Keys
    && m'.collectors.Keys == m.collectors.Keys && m'.sessions.Keys == m.sessions.Keys
    && (forall d :: d in m.collectors && d != c ==> m'.collectors[d] == m.collectors[d])
    && (forall other :: other in m.sessions && other != sid ==> m'.sessions[other] == m.sessions[other])
    && m'.collectors[c].config == m.collectors[c].config && m'.collectors[c].active == m.collectors[c].active
    && m'.sessions[sid].collector == c && m'.sessions[sid].closed == m.sessions[sid].closed
  }

  lemma HandleTouches(m: Mem, sid: SessionId, f: Frame, now: Time)
    requires Has(m, sid) && Handle(m, sid, f, now).Ok?
    ensures TouchesOwn(m, Heard(Handle(m, sid, f, now).value, sid, now), sid)
  {
    hide PutAll, ChunkOk, ValidResource, ValidLocation, Sample, IsId, Confirmed, Unlisted, BoundTo, KnownAbsent;
  }

  lemma FrameEffect(m: Mem, log: seq<Event>, clock: Time, sid: SessionId, f: Frame, now: Time)
    requires Has(m, sid) && Handle(m, sid, f, now).Ok?
    requires Receives(log, clock, Accepted(now, m.sessions[sid].collector, sid, f), m.collectors[m.sessions[sid].collector], m.sessions[sid])
    requires var m' := Heard(Handle(m, sid, f, now).value, sid, now); TouchesOwn(m, m', sid)
    ensures var c := m.sessions[sid].collector; var e := Accepted(now, c, sid, f);
      var m' := Heard(Handle(m, sid, f, now).value, sid, now);
      InventoryOk(log + [e], now, c, m'.collectors[c]) && SessionOk(log + [e], now, m'.collectors[c], sid, m'.sessions[sid])
  {
    hide InventoryOk, SessionOk, PutAll, ChunkOk, ValidResource, ValidLocation, Sample, Missing, IsId, ReceivesSynced, Confirmed,
         Unlisted, BoundTo, KnownAbsent;
    var s := m.sessions[sid];
    var inv := m.collectors[s.collector];
    var e := Accepted(now, s.collector, sid, f);
    var m' := Heard(Handle(m, sid, f, now).value, sid, now);
    var inv', s' := m'.collectors[s.collector], m'.sessions[sid];
    match f {
      case Begin(_) => BeginKeeps(log, clock, e, inv, s, s');
      case Objects(_, _) => ObjectsKeeps(log, clock, e, inv, s, s');
      case End(_, _) => EndKeeps(log, clock, e, inv, inv', s, s');
      case Upsert(_) => SyncedReceives(log, clock, e, inv, s); UpsertKeeps(log, clock, e, inv, inv', s);
      case Delete(_, _) => SyncedReceives(log, clock, e, inv, s); DeleteKeeps(log, clock, e, inv, inv', s);
      case Probe(_, _, _, _) => SyncedReceives(log, clock, e, inv, s); ProbeKeeps(log, clock, e, inv, inv', s);
      case Heartbeat => SyncedReceives(log, clock, e, inv, s); HeartbeatKeeps(log, clock, e, inv, inv', s);
    }
  }

  /** Any accepted frame keeps the evidence invariant. */
  lemma FrameKeeps(m: Mem, log: seq<Event>, clock: Time, sid: SessionId, f: Frame, now: Time)
    requires EvidenceOk(m, log, clock) && clock <= now && Live(m, sid, now) && Handle(m, sid, f, now).Ok?
    ensures var e := Accepted(now, m.sessions[sid].collector, sid, f);
      EvidenceOk(Heard(Handle(m, sid, f, now).value, sid, now), log + [e], now)
  {
    hide InventoryOk, SessionOk, Handle, LogOk, DisjointNamespaces;
    var e := Accepted(now, m.sessions[sid].collector, sid, f);
    HandleTouches(m, sid, f, now);
    FrameEffect(m, log, clock, sid, f, now);
    FrameFrames(m, Heard(Handle(m, sid, f, now).value, sid, now), log, clock, e);
  }

  // ---------- Reset ----------

  lemma ForgetKeeps(m: Mem, log: seq<Event>, clock: Time, app: string, target: string, now: Time)
    requires EvidenceOk(m, log, clock) && clock <= now
    ensures EvidenceOk(Forget(m, app, target), log + [Cleared(now, app, target)], now)
  {
    hide InventoryOk, SessionOk;
    var m', e := Forget(m, app, target), Cleared(now, app, target);
    forall c | c in m'.collectors ensures InventoryOk(log + [e], now, c, m'.collectors[c]) {
      ClearedInventory(log, clock, e, c, m.collectors[c]);
    }
    forall sid | sid in m'.sessions
      ensures m'.sessions[sid].collector in m'.collectors
      ensures SessionOk(log + [e], now, m'.collectors[m'.sessions[sid].collector], sid, m'.sessions[sid])
    {
      var c := m.sessions[sid].collector;
      LogStep(log, e, c, sid);
      OpenIsActive(m, log, clock, sid);
      SessionStays(log, log + [e], clock, now, m.collectors[c], m'.collectors[c], sid, m.sessions[sid], m'.sessions[sid]);
    }
    LogTimes(log, clock, e);
  }

  lemma ClearedInventory(log: seq<Event>, clock: Time, e: Event, c: string, inv: Inventory)
    requires InventoryOk(log, clock, c, inv) && e.Cleared? && clock <= e.time
    ensures InventoryOk(log + [e], e.time, c, inv.(objects := KeptObjects(inv.objects, e.app, e.target)))
  {
    hide Sound;
    var kept := KeptObjects(inv.objects, e.app, e.target);
    LogStep(log, e, c, 0);
    assert Facts(kept) == Replay(Facts(inv.objects), map[], e, c);
    assert |kept| <= |inv.objects| by { FewerKept(kept.Keys, inv.objects.Keys); }
    if Author(log, c).Some? {
      CompletedStays(log, log + [e], c, inv.lastFull);
      if inv.listed.Some? { ConfirmsStays(log, log + [e], c, Author(log, c).value, inv.lastFull, inv.listed.value.at); }
      ResourceStays(log, log + [e], clock, e.time, inv.config, c, Author(log, c).value, inv.lastFull, inv.objects);
    }
  }

  lemma {:induction false} FewerKept<T>(a: set<T>, b: set<T>)
    requires a <= b
    ensures |a| <= |b|
  {
    assert a + (b - a) == b;
    assert |a + (b - a)| == |a| + |b - a|;
  }

  // ---------- The start ----------

  lemma StartHasEvidence(station: string, configs: seq<Config>, clock: Time)
    requires ValidConfigs(configs) && 0 <= clock
    ensures EvidenceOk(Initial(station, configs), [], clock)
  {
    hide ValidConfig;
    var m := Initial(station, configs);
    forall c, d, ns | c in m.collectors && d in m.collectors && ns in m.collectors[c].config.namespaces
      ensures ns in m.collectors[d].config.namespaces ==> c == d
    {
      var i :| 0 <= i < |configs| && configs[i].id == c && m.collectors[c] == NewInventory(configs[i]);
      var j :| 0 <= j < |configs| && configs[j].id == d && m.collectors[d] == NewInventory(configs[j]);
    }
  }
}
