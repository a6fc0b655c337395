/**
 * The cache as the object the handlers share. Its methods hold the mutex from
 * start to end and change the tables in loops over maps, whose order Go leaves
 * open; each is proved equal to one function of the tables before it, so no
 * order of iteration shows.
 */
module AppMemoryService {
  import opened Common
  import opened Releases
  import opened Observations
  import opened AppMemory
  import opened AppHistory
  import opened AppProjection
  import opened AppScopes
  import opened AppSteps

  /** The objects that name an installation, whatever else they say: one entry of the index. */
  function Carrying(m: Mem, installation: string): set<Candidate> {
    set c, p | c in m.collectors && p in m.collectors[c].objects && Names(m.station, m.collectors[c].objects[p].o, installation)
      :: Candidate(c, p)
  }

  predicate IsEntry(m: Mem, installation: string, x: Candidate) {
    x.collector in m.collectors && x.pos in m.collectors[x.collector].objects
    && Names(m.station, m.collectors[x.collector].objects[x.pos].o, installation)
  }

  lemma CarryingIs(m: Mem, installation: string, x: Candidate)
    ensures x in Carrying(m, installation) <==> IsEntry(m, installation, x)
  {
    if IsEntry(m, installation, x) {
      assert Candidate(x.collector, x.pos) in Carrying(m, installation);
    }
  }

  predicate Names(station: string, o: Observation, installation: string) {
    o.station == station && o.instance == "" && o.installation != "" && o.installation == installation
  }

  function Lookup(index: map<string, set<Candidate>>, installation: string): set<Candidate> {
    if installation in index then index[installation] else {}
  }

  lemma OneMoreInOrganization(bindings: map<string, Record>, ids: set<string>, id: string, organization: string)
    requires id in bindings && id !in ids
    ensures |InOrganization(bindings, ids + {id}, organization)| ==
            |InOrganization(bindings, ids, organization)| + if bindings[id].binding.organization == organization then 1 else 0
  {
    if bindings[id].binding.organization == organization {
      assert InOrganization(bindings, ids + {id}, organization) == InOrganization(bindings, ids, organization) + {id};
    } else {
      assert InOrganization(bindings, ids + {id}, organization) == InOrganization(bindings, ids, organization);
    }
  }

  lemma AdvancedKeys(scopes: map<string, nat>, bindings: map<string, Record>, ids: set<string>, id: string)
    requires ids <= bindings.Keys && id in bindings
    ensures Advanced(scopes, bindings, ids + {id}).Keys ==
            Advanced(scopes, bindings, ids).Keys + {bindings[id].binding.organization}
  {
    assert (set i | i in ids + {id} :: bindings[i].binding.organization)
        == (set i | i in ids :: bindings[i].binding.organization) + {bindings[id].binding.organization};
  }

  /** Advancing for one more binding is one increment. */
  lemma AdvancedOne(scopes: map<string, nat>, bindings: map<string, Record>, ids: set<string>, id: string)
    requires ids <= bindings.Keys && id in bindings && id !in ids
    ensures var before, org := Advanced(scopes, bindings, ids), bindings[id].binding.organization;
      Advanced(scopes, bindings, ids + {id}) == before[org := Scope(before, org) + 1]
  {
    var before, org := Advanced(scopes, bindings, ids), bindings[id].binding.organization;
    var after := Advanced(scopes, bindings, ids + {id});
    AdvancedKeys(scopes, bindings, ids, id);
    hide Advanced, InOrganization;
    forall o | o in after ensures after[o] == before[org := Scope(before, org) + 1][o] {
      OneMoreInOrganization(bindings, ids, id, o);
      AdvancedScope(scopes, bindings, ids, o);
      AdvancedScope(scopes, bindings, ids + {id}, o);
    }
  }

  lemma RequestOkMore(m: Mem, bindings: seq<Binding>, b: Binding)
    requires RequestOk(m, bindings)
    ensures RequestOk(m, bindings + [b]) <==>
      && IsId(b.installation) && IsId(b.organization) && IsName(b.app)
      && (b.installation in Added(m, bindings) ==> Added(m, bindings)[b.installation].binding == b)
      && (b.installation in m.bindings ==> m.bindings[b.installation].binding == b)
  {
    hide IsId, IsName;
    assert forall a :: a in bindings + [b] <==> a in bindings || a == b;
    forall a | a in bindings && a.installation == b.installation && b.installation !in m.bindings
      ensures b.installation in Added(m, bindings) && Added(m, bindings)[b.installation].binding == a
    {
    }
    if RequestOk(m, bindings + [b]) {
      assert b in bindings + [b];
    }
  }

  lemma RequestOkPrefix(m: Mem, bindings: seq<Binding>, n: nat)
    requires n <= |bindings| && !RequestOk(m, bindings[..n])
    ensures !RequestOk(m, bindings)
  {
    hide IsId, IsName;
    assert forall b :: b in bindings[..n] ==> b in bindings;
  }

  lemma AddedMore(m: Mem, bindings: seq<Binding>, b: Binding)
    requires RequestOk(m, bindings) && RequestOk(m, bindings + [b])
    ensures Added(m, bindings + [b]) ==
            if b.installation in m.bindings then Added(m, bindings) else Added(m, bindings)[b.installation := NewRecord(b)]
    ensures Ids(bindings + [b]) == Ids(bindings) + {b.installation}
  {
    hide IsId, IsName;
    assert forall a :: a in bindings + [b] <==> a in bindings || a == b;
  }

  class Memory {
    const station: string
    var collectors: map<string, Inventory>
    var sessions: map<SessionId, Session>
    var bindings: map<string, Record>
    var scopes: map<string, nat>

    ghost function State(): Mem
      reads this
    {
      Mem(station, collectors, sessions, bindings, scopes)
    }

    constructor (station: string, configs: seq<Config>)
      requires ValidConfigs(configs)
      ensures State() == Initial(station, configs)
    {
      this.station := station;
      collectors := map c | c in configs :: c.id := NewInventory(c);
      sessions, bindings, scopes := map[], map[], map[];
    }

    /** The checks of NewMemory, which remember the identifiers and namespaces they have seen. */
    static method CheckConfigs(configs: seq<Config>) returns (ok: bool)
      ensures ok <==> ValidConfigs(configs)
    {
      hide ValidConfig;
      if |configs| > 128 {
        return false;
      }
      var ids: set<string>, namespaces: set<string> := {}, {};
      for n := 0 to |configs|
        invariant ids == set i | 0 <= i < n :: configs[i].id
        invariant namespaces == set i, ns | 0 <= i < n && ns in configs[i].namespaces :: ns
        invariant forall i :: 0 <= i < n ==> ValidConfig(configs[i])
        invariant forall i, j :: 0 <= i < j < n ==> configs[i].id != configs[j].id
        invariant forall i, j, ns | 0 <= i < j < n && ns in configs[i].namespaces :: ns !in configs[j].namespaces
      {
        var c := configs[n];
        if !ValidConfig(c) || c.id in ids {
          assert c in configs;
          return false;
        }
        var seen := namespaces;
        for k := 0 to |c.namespaces|
          invariant namespaces == seen + set l | 0 <= l < k :: c.namespaces[l]
          invariant forall l :: 0 <= l < k ==> c.namespaces[l] !in seen
        {
          if c.namespaces[k] in seen {
            assert c.namespaces[k] in configs[n].namespaces;
            return false;
          }
          namespaces := namespaces + {c.namespaces[k]};
        }
        ids := ids + {c.id};
        assert forall ns :: ns in namespaces <==> ns in seen || ns in c.namespaces;
      }
      return true;
    }

    // ---------- Sessions ----------

    /** live, for a session the connection holds. */
    method IsLive(sid: SessionId, now: Time) returns (live: bool)
      ensures live <==> Live(State(), sid, now)
    {
      if sid !in sessions || sessions[sid].collector !in collectors {
        return false;
      }
      var s := sessions[sid];
      return !s.closed && collectors[s.collector].active == Some(sid) && now < s.lastFrame + TTL
             && (s.staging.None? || now < s.started + TTL);
    }

    method Close(sid: SessionId)
      modifies this`sessions, this`collectors
      ensures State() == CloseSession(old(State()), sid)
    {
      if sid !in sessions || sessions[sid].collector !in collectors {
        return;
      }
      var s := sessions[sid];
      sessions := sessions[sid := s.(closed := true, staging := None, syncId := "")];
      if collectors[s.collector].active == Some(sid) {
        collectors := collectors[s.collector := collectors[s.collector].(active := None)];
      }
    }

    method OpenStream(collector: string, sid: SessionId, now: Time) returns (error: Option<StreamError>)
      requires sid !in sessions
      modifies this`sessions, this`collectors
      ensures Open(old(State()), collector, sid, now) == if error.Some? then Err(error.value) else Ok(State())
      ensures State() == NextMem(old(State()), Step(now, OpenAct(collector, sid)))
    {
      hide CloseSession, Live;
      if collector !in collectors {
        return Some(BadFrame);
      }
      var prior := collectors[collector].active;
      if prior.Some? {
        var live := IsLive(prior.value, now);
        if live {
          return Some(Busy);
        }
        CloseIsIdle(State(), prior.value);
        Close(prior.value);
      }
      sessions := sessions[sid := Session(collector, now, false, false, "", 0, None)];
      collectors := collectors[collector := collectors[collector].(active := Some(sid))];
      return None;
    }

    // ---------- Frames ----------

    method BeginList(sid: SessionId, syncId: string, now: Time) returns (error: Option<StreamError>)
      requires Has(State(), sid)
      modifies this`sessions
      ensures HandleBegin(old(State()), sid, syncId, now) == if error.Some? then Err(error.value) else Ok(State())
      ensures error.Some? ==> State() == old(State())
    {
      var s := sessions[sid];
      if !IsId(syncId) || s.staging.Some? {
        return Some(BadFrame);
      }
      sessions := sessions[sid := s.(syncId := syncId, started := now, staging := Some(map[]))];
      return None;
    }

    /** Validate the whole frame before changing even the private staging. */
    method AddObjects(sid: SessionId, syncId: string, objects: seq<Observation>, now: Time) returns (error: Option<StreamError>)
      requires Has(State(), sid)
      modifies this`sessions
      ensures HandleObjects(old(State()), sid, syncId, objects, now) == if error.Some? then Err(error.value) else Ok(State())
      ensures error.Some? ==> State() == old(State())
    {
      hide ValidResource, Sample;
      var s := sessions[sid];
      var c := collectors[s.collector];
      if s.staging.None? || syncId != s.syncId || |objects| == 0 || |objects| > 500 {
        return Some(BadFrame);
      }
      var staging := s.staging.value;
      if |staging| + |objects| > MAX_INVENTORY {
        return Some(Limit);
      }
      var seen: set<Position> := {};
      for n := 0 to |objects|
        invariant seen == set i | 0 <= i < n :: objects[i].pos
        invariant forall i :: 0 <= i < n ==> ValidResource(objects[i], c.config) && !objects[i].deleted && objects[i].pos !in staging
        invariant forall i, j :: 0 <= i < j < n ==> objects[i].pos != objects[j].pos
      {
        var o := objects[n];
        if !ValidResource(o, c.config) || o.deleted || o.pos in seen || o.pos in staging {
          return Some(BadFrame);
        }
        seen := seen + {o.pos};
      }
      for n := 0 to |objects|
        invariant staging == PutAll(c, s.synced, s.staging.value, objects[..n], now)
      {
        staging := staging[objects[n].pos := Sample(c, s.synced, objects[n], now)];
        assert objects[..n + 1][..n] == objects[..n];
      }
      assert objects[..|objects|] == objects;
      sessions := sessions[sid := s.(staging := Some(staging))];
      return None;
    }

    method EndList(sid: SessionId, syncId: string, count: int, now: Time) returns (error: Option<StreamError>)
      requires Has(State(), sid)
      modifies this`sessions, this`collectors, this`bindings
      ensures HandleEnd(old(State()), sid, syncId, count, now) == if error.Some? then Err(error.value) else Ok(State())
      ensures error.Some? ==> State() == old(State())
    {
      var s := sessions[sid];
      if s.staging.None? || s.syncId != syncId || count != |s.staging.value| {
        return Some(BadFrame);
      }
      var staging := s.staging.value;
      ghost var before, gone := bindings, Unlisted(bindings, s.collector, staging);
      var todo := bindings.Keys;
      while todo != {}
        invariant todo <= before.Keys && bindings == Missing(before, gone - todo, now)
        decreases |todo|
        modifies this`bindings
      {
        var id :| id in todo;
        todo := todo - {id};
        var b := bindings[id];
        if b.loc.Some? && b.loc.value.collector == s.collector && b.loc.value.pos !in staging {
          bindings := bindings[id := b.(absent := Some(Since(now)))];
        }
      }
      var c := collectors[s.collector];
      collectors := collectors[s.collector := c.(objects := staging, lastFull := s.started, listed := Some(Since(s.started)))];
      sessions := sessions[sid := s.(staging := None, syncId := "", synced := true)];
      assert gone - todo == gone;
      return None;
    }

    method UpsertObject(sid: SessionId, o: Observation, now: Time) returns (error: Option<StreamError>)
      requires Has(State(), sid)
      modifies this`collectors
      ensures HandleUpsert(old(State()), sid, o, now) == if error.Some? then Err(error.value) else Ok(State())
      ensures error.Some? ==> State() == old(State())
    {
      hide ValidResource, Sample;
      var s := sessions[sid];
      var c := collectors[s.collector];
      if !s.synced || s.staging.Some? || o.deleted || !ValidResource(o, c.config) {
        return Some(BadFrame);
      }
      if o.pos !in c.objects && |c.objects| >= MAX_INVENTORY {
        return Some(Limit);
      }
      collectors := collectors[s.collector := c.(objects := c.objects[o.pos := Sample(c, s.synced, o, now)])];
      return None;
    }

    method DeleteObject(sid: SessionId, pos: Position, uid: string, now: Time) returns (error: Option<StreamError>)
      requires Has(State(), sid)
      modifies this`collectors, this`bindings
      ensures HandleDelete(old(State()), sid, pos, uid, now) == if error.Some? then Err(error.value) else Ok(State())
      ensures error.Some? ==> State() == old(State())
    {
      hide ValidLocation;
      var s := sessions[sid];
      var c := collectors[s.collector];
      if !s.synced || s.staging.Some? || !ValidLocation(pos, uid, c.config) {
        return Some(BadFrame);
      }
      if pos !in c.objects || c.objects[pos].o.uid != uid {
        return None;
      }
      collectors := collectors[s.collector := c.(objects := c.objects - {pos})];
      ghost var before, gone := bindings, BoundTo(bindings, Location(s.collector, pos, uid));
      var todo := bindings.Keys;
      while todo != {}
        invariant todo <= before.Keys && bindings == Missing(before, gone - todo, now)
        decreases |todo|
        modifies this`bindings
      {
        var id :| id in todo;
        todo := todo - {id};
        var b := bindings[id];
        if b.loc == Some(Location(s.collector, pos, uid)) {
          bindings := bindings[id := b.(absent := Some(Since(now)))];
        }
      }
      assert gone - todo == gone;
      return None;
    }

    method ReportHealth(sid: SessionId, pos: Position, uid: string, resourceVersion: string, health: Health, now: Time)
      returns (error: Option<StreamError>)
      requires Has(State(), sid)
      modifies this`collectors
      ensures HandleProbe(old(State()), sid, pos, uid, resourceVersion, health, now) ==
              if error.Some? then Err(error.value) else Ok(State())
      ensures error.Some? ==> State() == old(State())
    {
      hide ValidLocation;
      var s := sessions[sid];
      var c := collectors[s.collector];
      if !s.synced || s.staging.Some? || !ValidLocation(pos, uid, c.config) || |resourceVersion| == 0 || |resourceVersion| > 256
         || (health != Healthy && health != Unhealthy) {
        return Some(BadFrame);
      }
      if pos !in c.objects {
        return None;
      }
      var r := c.objects[pos];
      if r.o.deleted || r.o.uid != uid || r.o.resourceVersion != resourceVersion || r.o.instance != "" || r.o.terminating
         || r.o.desired == 0 {
        return None;
      }
      r := r.(o := r.o.(health := health), healthExpires := now + TTL);
      collectors := collectors[s.collector := c.(objects := c.objects[pos := r])];
      return None;
    }

    /** A watch heartbeat confirms that the inventory is fresh, never the probes. */
    static method ConfirmObjects(all: map<Position, Resource>, now: Time) returns (objects: map<Position, Resource>)
      ensures objects == Confirmed(all, now)
    {
      objects := all;
      var places := all.Keys;
      while places != {}
        invariant places <= all.Keys && objects.Keys == all.Keys
        invariant forall p :: p in objects ==>
          objects[p] == if p in places then all[p] else all[p].(received := now, expires := now + TTL)
        decreases |places|
      {
        var p :| p in places;
        places := places - {p};
        objects := objects[p := objects[p].(received := now, expires := now + TTL)];
      }
    }

    method ConfirmList(sid: SessionId, now: Time) returns (error: Option<StreamError>)
      requires Has(State(), sid)
      modifies this`collectors, this`bindings
      ensures HandleHeartbeat(old(State()), sid, now) == if error.Some? then Err(error.value) else Ok(State())
      ensures error.Some? ==> State() == old(State())
    {
      hide Confirmed;
      var s := sessions[sid];
      var c := collectors[s.collector];
      if !s.synced || s.staging.Some? || now >= c.lastFull + FULL_SYNC {
        return Some(BadFrame);
      }
      var objects := ConfirmObjects(c.objects, now);
      collectors := collectors[s.collector := c.(objects := objects, listed := Some(Since(now)))];
      ghost var before, gone := bindings, KnownAbsent(bindings, s.collector);
      var todo := bindings.Keys;
      while todo != {}
        invariant todo <= before.Keys && bindings == Missing(before, gone - todo, now)
        decreases |todo|
        modifies this`bindings
      {
        var id :| id in todo;
        todo := todo - {id};
        var b := bindings[id];
        if b.loc.Some? && b.loc.value.collector == s.collector && b.absent.Some? {
          bindings := bindings[id := b.(absent := Some(Since(now)))];
        }
      }
      assert gone - todo == gone;
      return None;
    }

    method Dispatch(sid: SessionId, f: Frame, now: Time) returns (error: Option<StreamError>)
      requires Has(State(), sid)
      modifies this`sessions, this`collectors, this`bindings
      ensures Handle(old(State()), sid, f, now) == if error.Some? then Err(error.value) else Ok(State())
      ensures error.Some? ==> State() == old(State())
    {
      hide HandleBegin, HandleObjects, HandleEnd, HandleUpsert, HandleDelete, HandleProbe, HandleHeartbeat;
      match f {
        case Begin(syncId) => error := BeginList(sid, syncId, now);
        case Objects(syncId, objects) => error := AddObjects(sid, syncId, objects, now);
        case End(syncId, count) => error := EndList(sid, syncId, count, now);
        case Upsert(o) => error := UpsertObject(sid, o, now);
        case Delete(pos, uid) => error := DeleteObject(sid, pos, uid, now);
        case Probe(pos, uid, version, health) => error := ReportHealth(sid, pos, uid, version, health, now);
        case Heartbeat => error := ConfirmList(sid, now);
      }
    }

    /** apply: refuse and close, or handle, remember that the session is alive, and project. */
    method Receive(sid: SessionId, f: Frame, now: Time) returns (error: Option<StreamError>)
      modifies this`sessions, this`collectors, this`bindings, this`scopes
      ensures (State(), error) == Apply(old(State()), sid, f, now)
      ensures State() == NextMem(old(State()), Step(now, FrameAct(sid, f)))
    {
      hide Live, CloseSession, Handle, AppMemory.ProjectAll;
      var live := IsLive(sid, now);
      if !live {
        Close(sid);
        return Some(Closed);
      }
      assert Has(State(), sid) by { LiveHas(State(), sid, now); }
      error := Dispatch(sid, f, now);
      if error.Some? {
        Close(sid);
        return;
      }
      if sid in sessions {
        sessions := sessions[sid := sessions[sid].(lastFrame := now)];
      }
      ProjectAll(now);
    }

    // ---------- Projection ----------

    /** One collector's turn in building the index. */
    method IndexCollector(before: map<string, set<Candidate>>, c: string) returns (index: map<string, set<Candidate>>)
      requires c in collectors
      ensures forall id, x :: x in Lookup(index, id) <==>
        x in Lookup(before, id) || (x.collector == c && IsEntry(State(), id, x))
    {
      hide Carrying;
      index := before;
      var objects := collectors[c].objects;
      var places := objects.Keys;
      while places != {}
        invariant places <= objects.Keys
        invariant forall id, x :: x in Lookup(index, id) <==>
          x in Lookup(before, id) || (x.collector == c && x.pos !in places && IsEntry(State(), id, x))
        decreases |places|
      {
        var p :| p in places;
        places := places - {p};
        var o := objects[p].o;
        if o.station == station && o.instance == "" && o.installation != "" {
          index := index[o.installation := Lookup(index, o.installation) + {Candidate(c, p)}];
        }
      }
    }

    method BuildIndex() returns (index: map<string, set<Candidate>>)
      ensures forall id :: Lookup(index, id) == Carrying(State(), id)
    {
      hide IsEntry, Carrying;
      index := map[];
      var todo := collectors.Keys;
      while todo != {}
        invariant todo <= collectors.Keys
        invariant forall id, x :: x in Lookup(index, id) ==> x.collector !in todo && IsEntry(State(), id, x)
        invariant forall id, x :: IsEntry(State(), id, x) && x.collector in collectors && x.collector !in todo ==> x in Lookup(index, id)
        decreases |todo|
      {
        var c :| c in todo;
        todo := todo - {c};
        index := IndexCollector(index, c);
      }
      forall id ensures Lookup(index, id) == Carrying(State(), id) {
        forall x ensures x in Lookup(index, id) <==> x in Carrying(State(), id) {
          CarryingIs(State(), id, x);
          if IsEntry(State(), id, x) { EntryIsListed(State(), id, x); }
        }
      }
    }

    static lemma EntryIsListed(m: Mem, installation: string, x: Candidate)
      requires IsEntry(m, installation, x)
      ensures x.collector in m.collectors
    {
    }

    /** project, up to the record it returns through. */
    method Project(b: Record, resources: set<Candidate>, now: Time) returns (s: Settled)
      requires resources == Carrying(State(), b.binding.installation)
      ensures s == Settle(State(), b, now)
    {
      hide Evaluate, RuntimeView, Settle, SettleOn, SettleAlone;
      var candidates: set<Candidate> := {};
      var todo := resources;
      while todo != {}
        invariant todo <= resources
        invariant candidates == set x | x in resources && x in Candidates(State(), b.binding) && x !in todo
        decreases |todo|
      {
        var x :| x in todo;
        todo := todo - {x};
        var o := collectors[x.collector].objects[x.pos].o;
        if o.organization == b.binding.organization && o.app == b.binding.app {
          candidates := candidates + {x};
        }
      }
      assert candidates == Candidates(State(), b.binding);
      ghost var only := SettleCases(State(), b, now);
      if |candidates| > 1 {
        return Settled(b.loc, b.absent, CONFLICT);
      }
      if |candidates| == 1 {
        var x :| x in candidates;
        s := ProjectOn(b, x, now);
        return;
      }
      s := ProjectAlone(b, now);
    }

    method ProjectOn(b: Record, x: Candidate, now: Time) returns (s: Settled)
      requires x.collector in collectors && x.pos in collectors[x.collector].objects
      ensures s == SettleOn(State(), b, x, now)
    {
      hide Evaluate, RuntimeView;
      var c := collectors[x.collector];
      var r := c.objects[x.pos];
      if b.loc.Some? && (b.loc.value.collector != x.collector || b.loc.value.pos != x.pos) {
        if b.loc.value.collector in collectors && b.loc.value.pos in collectors[b.loc.value.collector].objects {
          return Settled(b.loc, b.absent, CONFLICT);
        }
      }
      var required := b.binding.app in c.config.healthRequired;
      var fact := r.o;
      if now < r.expires && now >= r.healthExpires {
        fact := fact.(health := NotChecked);
      }
      var (state, reason) := Evaluate(fact, required);
      return Settled(Some(Location(x.collector, x.pos, r.o.uid)), None,
                     RuntimeView(now, Some(state), Some(reason), Some(r.received), Some(r.expires), false));
    }

    method ProjectAlone(b: Record, now: Time) returns (s: Settled)
      ensures s == SettleAlone(State(), b, now)
    {
      hide RuntimeView;
      var view := UNSYNCED;
      if b.loc.Some? {
        var l := b.loc.value;
        if l.collector !in collectors || l.pos.namespace !in collectors[l.collector].config.namespaces {
          view := UNSYNCED.(reason := CollectorScopeChanged);
        } else if l.pos in collectors[l.collector].objects {
          var r := collectors[l.collector].objects[l.pos];
          view := RuntimeView(now, Some(Unknown), Some(IdentityConflict), Some(r.received), Some(r.expires), false);
        } else if b.absent.Some? {
          view := RuntimeView(now, Some(Absent), Some(ResourceAbsent), Some(b.absent.value.at), Some(b.absent.value.expires), false);
        }
      }
      return Settled(b.loc, b.absent, view);
    }

    /** One binding's turn in the loop of projectAll, up to its revisions. */
    method ProjectBinding(b: Record, resources: set<Candidate>, now: Time) returns (next: Record, moved: bool)
      requires resources == Carrying(State(), b.binding.installation)
      ensures next == Projected(State(), b, now) && (moved <==> next.semantic != b.semantic)
    {
      hide Settle, Carrying;
      var s := Project(b, resources, now);
      var view := s.view;
      if view.reason == HealthNotObserved && b.view.lastKnown.Some? {
        view := view.(lastKnown := b.view.lastKnown);
      }
      next := b.(loc := s.loc, absent := s.absent, view := view);
      var uid, digest: Option<Option<Metadata>> := "", None;
      if next.loc.Some? {
        var l := next.loc.value;
        uid := l.uid;
        if l.collector in collectors && l.pos in collectors[l.collector].objects {
          var o := collectors[l.collector].objects[l.pos].o;
          if o.uid == l.uid && Identifies(station, o, b.binding) {
            digest := Some(o.metadata);
          }
        }
      }
      var semantic := Some(Semantic(uid, view.state, view.quality, view.reason, view.lastKnown, digest));
      moved := semantic != b.semantic;
      if moved {
        next := next.(semantic := semantic, revision := b.revision + 1);
      }
    }

    /** One binding's turn in the loop. */
    method TakeTurn(ghost m: Mem, ghost done: set<string>, id: string, resources: set<Candidate>, now: Time)
      requires station == m.station && collectors == m.collectors
      requires id in bindings && id in m.bindings && id !in done && done <= m.bindings.Keys && Moved(m, now) <= m.bindings.Keys
      requires bindings[id] == m.bindings[id] && resources == Carrying(State(), m.bindings[id].binding.installation)
      requires scopes == Advanced(m.scopes, m.bindings, done * Moved(m, now))
      modifies this`bindings, this`scopes
      ensures bindings == old(bindings)[id := Projected(m, m.bindings[id], now)]
      ensures scopes == Advanced(m.scopes, m.bindings, (done + {id}) * Moved(m, now))
    {
      hide Projected, Carrying, Advanced, Moved, Scope;
      var b := bindings[id];
      var next, moved := ProjectBinding(b, resources, now);
      SameEvidence(m, State(), b, now);
      AdvancedTurn(m, now, done, id);
      if moved {
        scopes := scopes[b.binding.organization := Scope(scopes, b.binding.organization) + 1];
      }
      bindings := bindings[id := next];
    }

    method ProjectAll(now: Time)
      modifies this`bindings, this`scopes
      ensures State() == AppMemory.ProjectAll(old(State()), now)
    {
      hide Projected, Carrying, Advanced, Moved, Scope, Lookup, Turned, AppMemory.ProjectAll;
      var index := BuildIndex();
      ghost var m := State();
      ghost var done: set<string> := {};
      TurnsStart(m, now);
      var todo := bindings.Keys;
      while todo != {}
        invariant todo <= m.bindings.Keys && done == m.bindings.Keys - todo
        invariant Moved(m, now) <= m.bindings.Keys
        invariant bindings == Turned(m, now, done) && scopes == Advanced(m.scopes, m.bindings, done * Moved(m, now))
        decreases |todo|
      {
        var id :| id in todo;
        todo := todo - {id};
        TurnedOne(m, now, done, id);
        var installation := bindings[id].binding.installation;
        SameCarrying(m, State(), installation);
        TakeTurn(m, done, id, Lookup(index, installation), now);
        done := done + {id};
      }
      TurnsEnd(m, now, done);
    }

    /** The bindings after the turns of `done`. */
    static ghost function Turned(m: Mem, now: Time, done: set<string>): map<string, Record> {
      map id | id in m.bindings :: if id in done then Projected(m, m.bindings[id], now) else m.bindings[id]
    }

    static lemma TurnedOne(m: Mem, now: Time, done: set<string>, id: string)
      requires id in m.bindings && id !in done
      ensures id in Turned(m, now, done) && Turned(m, now, done)[id] == m.bindings[id]
      ensures Turned(m, now, done + {id}) == Turned(m, now, done)[id := Projected(m, m.bindings[id], now)]
    {
      hide Projected;
    }

    static lemma TurnsStart(m: Mem, now: Time)
      ensures Turned(m, now, {}) == m.bindings && Moved(m, now) <= m.bindings.Keys
      ensures Advanced(m.scopes, m.bindings, {} * Moved(m, now)) == m.scopes
    {
      hide Projected;
      assert {} * Moved(m, now) == {};
      NothingAdvanced(m.scopes, m.bindings);
    }

    static lemma TurnsEnd(m: Mem, now: Time, done: set<string>)
      requires done == m.bindings.Keys
      ensures done * Moved(m, now) == Moved(m, now)
      ensures AppMemory.ProjectAll(m, now) ==
              m.(bindings := Turned(m, now, done), scopes := Advanced(m.scopes, m.bindings, Moved(m, now)))
    {
      hide Projected, Advanced;
      assert done * Moved(m, now) == Moved(m, now);
    }

    /** One binding's turn advances its scope exactly when its facts moved. */
    static lemma AdvancedTurn(m: Mem, now: Time, done: set<string>, id: string)
      requires id in m.bindings && id !in done && done <= m.bindings.Keys
      ensures Moved(m, now) <= m.bindings.Keys
      ensures var before, org := Advanced(m.scopes, m.bindings, done * Moved(m, now)), m.bindings[id].binding.organization;
        Advanced(m.scopes, m.bindings, (done + {id}) * Moved(m, now)) ==
        if Projected(m, m.bindings[id], now).semantic != m.bindings[id].semantic then before[org := Scope(before, org) + 1] else before
    {
      hide Projected, Advanced;
      if id in Moved(m, now) {
        AdvancedOne(m.scopes, m.bindings, done * Moved(m, now), id);
        assert (done + {id}) * Moved(m, now) == done * Moved(m, now) + {id};
      } else {
        assert (done + {id}) * Moved(m, now) == done * Moved(m, now);
      }
    }

    lemma SameCarrying(m: Mem, m': Mem, installation: string)
      requires m'.station == m.station && m'.collectors == m.collectors
      ensures Carrying(m', installation) == Carrying(m, installation)
    {
    }

    // ---------- Reads ----------

    method CheckRequest(requested: seq<Binding>) returns (ok: bool, add: map<string, Record>, wanted: set<string>)
      ensures ok <==> RequestOk(State(), requested)
      ensures ok ==> add == Added(State(), requested) && wanted == Ids(requested)
    {
      hide IsId, IsName, RequestOk, Added, Ids;
      add, wanted := map[], {};
      assert requested[..0] == [];
      EmptyRequest(State());
      for n := 0 to |requested|
        invariant RequestOk(State(), requested[..n])
        invariant add == Added(State(), requested[..n]) && wanted == Ids(requested[..n])
      {
        var b := requested[n];
        wanted := wanted + {b.installation};
        assert requested[..n + 1] == requested[..n] + [b];
        RequestOkMore(State(), requested[..n], b);
        if !IsId(b.installation) || !IsId(b.organization) || !IsName(b.app)
           || (b.installation in add && add[b.installation].binding != b)
           || (b.installation in bindings && bindings[b.installation].binding != b) {
          RequestOkPrefix(State(), requested, n + 1);
          return false, add, wanted;
        }
        AddedMore(State(), requested[..n], b);
        if b.installation !in bindings {
          add := add[b.installation := NewRecord(b)];
        }
      }
      assert requested[..|requested|] == requested;
      return true, add, wanted;
    }

    static lemma EmptyRequest(m: Mem)
      ensures RequestOk(m, []) && Added(m, []) == map[] && Ids([]) == {}
    {
    }

    /** Forget the bindings outside the request. */
    method Reclaim(wanted: set<string>)
      modifies this`bindings, this`scopes
      ensures var m := old(State()); var dropped := m.bindings.Keys - wanted;
        State() == m.(bindings := m.bindings - dropped, scopes := Advanced(m.scopes, m.bindings, dropped))
    {
      hide Advanced;
      ghost var m := State();
      ghost var gone: set<string> := {};
      NothingAdvanced(scopes, bindings);
      var todo := bindings.Keys;
      while todo != {}
        invariant todo <= m.bindings.Keys && gone == m.bindings.Keys - todo - wanted
        invariant bindings == m.bindings - gone && scopes == Advanced(m.scopes, m.bindings, gone)
        decreases |todo|
      {
        var id :| id in todo;
        todo := todo - {id};
        if id !in wanted {
          var organization := bindings[id].binding.organization;
          AdvancedOne(m.scopes, m.bindings, gone, id);
          scopes := scopes[organization := Scope(scopes, organization) + 1];
          bindings := bindings - {id};
          gone := gone + {id};
        }
      }
      assert gone == m.bindings.Keys - wanted;
    }

    /** Make room if needed, then start tracking. */
    method Admit(add: map<string, Record>, wanted: set<string>)
      modifies this`bindings, this`scopes
      ensures var m := old(State()); var dropped := m.bindings.Keys - wanted;
        State() == if |m.bindings| + |add| > MAX_BINDINGS
                   then m.(bindings := (m.bindings - dropped) + add, scopes := Advanced(m.scopes, m.bindings, dropped))
                   else m.(bindings := m.bindings + add)
    {
      hide Advanced;
      if |bindings| + |add| > MAX_BINDINGS {
        Reclaim(wanted);
      }
      Track(add);
    }

    method RegisterBindings(requested: seq<Binding>) returns (error: Option<StreamError>)
      modifies this`bindings, this`scopes
      ensures Register(old(State()), requested) == if error.Some? then Err(error.value) else Ok(State())
      ensures error.Some? ==> State() == old(State())
    {
      hide RequestOk, Added, Ids, Advanced;
      var ok, add, wanted := CheckRequest(requested);
      if !ok {
        return Some(BadFrame);
      }
      if |wanted| > MAX_BINDINGS {
        return Some(Limit);
      }
      Admit(add, wanted);
      return None;
    }

    /** Start tracking new installations. */
    method Track(add: map<string, Record>)
      modifies this`bindings
      ensures bindings == old(bindings) + add
    {
      ghost var kept := bindings;
      var todo := add.Keys;
      while todo != {}
        invariant todo <= add.Keys && bindings.Keys == kept.Keys + (add.Keys - todo)
        invariant forall id :: id in bindings ==> bindings[id] == if id in add && id !in todo then add[id] else kept[id]
        decreases |todo|
      {
        var id :| id in todo;
        todo := todo - {id};
        bindings := bindings[id := add[id]];
      }
    }

    /** Views: register, project, and answer for exactly the requested installations. */
    method Views(requested: seq<Binding>, now: Time) returns (r: Result<Answer, StreamError>)
      modifies this`bindings, this`scopes
      ensures (State(), r) == Read(old(State()), requested, now)
      ensures State() == NextMem(old(State()), Step(now, ReadAct(requested)))
    {
      hide Register, AppMemory.ProjectAll, AnswerOf;
      var error := RegisterBindings(requested);
      if error.Some? {
        return Err(error.value);
      }
      ProjectAll(now);
      var answer := Collect(requested);
      return Ok(answer);
    }

    /** The copy of one binding that a reader gets. */
    method ViewRow(row: Record) returns (view: View)
      ensures view == ViewOf(State(), row)
    {
      hide Identifies;
      var resource: Option<Observation> := None;
      if row.loc.Some? && row.view.reason != IdentityConflict {
        var l := row.loc.value;
        if l.collector in collectors && l.pos in collectors[l.collector].objects {
          var o := collectors[l.collector].objects[l.pos].o;
          if o.uid == l.uid && Identifies(station, o, row.binding) {
            resource := Some(o);
          }
        }
      }
      view := View(row.view, row.revision, resource);
    }

    method Collect(requested: seq<Binding>) returns (answer: Answer)
      ensures answer == AnswerOf(State(), requested)
    {
      hide ViewOf, Scope;
      var views: map<string, View>, revisions: map<string, nat> := map[], map[];
      for n := 0 to |requested|
        invariant views.Keys == Ids(requested[..n]) * bindings.Keys
        invariant forall id :: id in views ==> views[id] == ViewOf(State(), bindings[id])
        invariant revisions.Keys == set b | b in requested[..n] :: b.organization
        invariant forall org :: org in revisions ==> revisions[org] == Scope(scopes, org)
      {
        var b := requested[n];
        assert requested[..n + 1] == requested[..n] + [b];
        assert Ids(requested[..n + 1]) == Ids(requested[..n]) + {b.installation};
        if b.installation in bindings {
          var row := bindings[b.installation];
          var view := ViewRow(row);
          views := views[b.installation := view];
        }
        revisions := revisions[b.organization := Scope(scopes, b.organization)];
      }
      assert requested[..|requested|] == requested;
      answer := Answer(views, revisions);
    }

    // ---------- Expiry and reset ----------

    /** The cache after the sessions of the collectors `done` were looked at. */
    static ghost function ClosedIn(m: Mem, now: Time, done: set<string>): Mem {
      m.(collectors := map c | c in m.collectors ::
                         if c in done && Stale(m, c, now) then m.collectors[c].(active := None) else m.collectors[c],
         sessions := map sid | sid in m.sessions ::
                       if Lapsed(m, sid, now) && m.sessions[sid].collector in done
                       then m.sessions[sid].(closed := true, staging := None, syncId := "") else m.sessions[sid])
    }

    static lemma ClosedInOne(m: Mem, now: Time, done: set<string>, c: string)
      requires Linked(m) && c in m.collectors && c !in done
      ensures var before := ClosedIn(m, now, done);
        && c in before.collectors && before.collectors[c] == m.collectors[c]
        && ClosedIn(m, now, done + {c}) ==
           if m.collectors[c].active.Some? && !Live(before, m.collectors[c].active.value, now)
           then CloseSession(before, m.collectors[c].active.value) else before
    {
      var before, after := ClosedIn(m, now, done), ClosedIn(m, now, done + {c});
      var active := m.collectors[c].active;
      if active.Some? {
        assert Has(m, active.value) && Has(before, active.value) && before.sessions[active.value] == m.sessions[active.value];
        assert Live(before, active.value, now) == Live(m, active.value, now);
      }
      hide Live;
      var goal := if active.Some? && !Live(before, active.value, now) then CloseSession(before, active.value) else before;
      assert after.collectors == goal.collectors;
      assert after.sessions == goal.sessions;
    }

    static lemma ClosedInEnds(m: Mem, now: Time)
      ensures ClosedIn(m, now, {}) == m && ClosedIn(m, now, m.collectors.Keys) == CloseStale(m, now)
    {
      hide Live;
    }

    method CloseStaleSessions(now: Time)
      requires Linked(State())
      modifies this`collectors, this`sessions
      ensures State() == CloseStale(old(State()), now)
    {
      hide Live, CloseSession, ClosedIn, CloseStale;
      ghost var m := State();
      ghost var done: set<string> := {};
      ClosedInEnds(m, now);
      var todo := collectors.Keys;
      while todo != {}
        invariant todo <= m.collectors.Keys && done == m.collectors.Keys - todo && State() == ClosedIn(m, now, done)
        decreases |todo|
      {
        var c :| c in todo;
        todo := todo - {c};
        ClosedInOne(m, now, done, c);
        done := done + {c};
        var active := collectors[c].active;
        if active.Some? {
          var live := IsLive(active.value, now);
          if !live {
            Close(active.value);
          }
        }
      }
      assert done == m.collectors.Keys;
    }

    /** Every active session is a session of its collector, as the pointers of the original are by construction. */
    method ExpireAll(now: Time)
      requires Linked(State())
      modifies this`bindings, this`scopes, this`collectors, this`sessions
      ensures State() == Expire(old(State()), now)
      ensures State() == NextMem(old(State()), Step(now, ExpireAct))
    {
      hide AppMemory.ProjectAll, CloseStale;
      CloseStaleSessions(now);
      ProjectAll(now);
    }

    static method KeepObjects(all: map<Position, Resource>, app: string, target: string) returns (objects: map<Position, Resource>)
      ensures objects == KeptObjects(all, app, target)
    {
      objects := all;
      var places := all.Keys;
      while places != {}
        invariant places <= all.Keys && objects.Keys <= all.Keys
        invariant forall p :: p in all ==>
          (p in objects <==> p in places || !Leaves(app, target, all[p].o.app, all[p].o.pos.namespace))
        invariant forall p :: p in objects ==> objects[p] == all[p]
        decreases |places|
      {
        var p :| p in places;
        places := places - {p};
        var o := all[p].o;
        if o.app == app && (target == "" || o.pos.namespace != target) {
          objects := objects - {p};
        }
      }
    }

    method ForgetObjects(app: string, target: string)
      modifies this`collectors
      ensures State() == old(State()).(collectors := Forget(old(State()), app, target).collectors)
    {
      hide KeptObjects;
      ghost var m := State();
      var todo := collectors.Keys;
      while todo != {}
        invariant todo <= m.collectors.Keys && collectors.Keys == m.collectors.Keys
        invariant forall c :: c in collectors ==>
          collectors[c] == if c in todo then m.collectors[c]
                           else m.collectors[c].(objects := KeptObjects(m.collectors[c].objects, app, target))
        decreases |todo|
      {
        var c :| c in todo;
        todo := todo - {c};
        var objects := KeepObjects(collectors[c].objects, app, target);
        collectors := collectors[c := collectors[c].(objects := objects)];
      }
    }

    method ResetBindings(app: string, target: string)
      modifies this`bindings
      ensures State() == old(State()).(bindings := Forget(old(State()), app, target).bindings)
    {
      ghost var m := State();
      var todo := bindings.Keys;
      while todo != {}
        invariant todo <= m.bindings.Keys && bindings.Keys == m.bindings.Keys
        invariant forall id :: id in bindings ==>
          bindings[id] == if id in todo then m.bindings[id] else ResetRecord(m.bindings[id], app, target)
        decreases |todo|
      {
        var id :| id in todo;
        todo := todo - {id};
        var b := bindings[id];
        var namespace := if b.loc.Some? then b.loc.value.pos.namespace else "";
        if b.binding.app == app && (target == "" || namespace != target) {
          bindings := bindings[id := b.(loc := None, absent := None)];
        }
      }
    }

    method ResetAppBindings(app: string, target: string, now: Time)
      modifies this`bindings, this`scopes, this`collectors
      ensures State() == Reset(old(State()), app, target, now)
      ensures State() == NextMem(old(State()), Step(now, ResetAct(app, target)))
    {
      hide AppMemory.ProjectAll, KeptObjects, ResetRecord;
      if app == "" {
        return;
      }
      ForgetObjects(app, target);
      ResetBindings(app, target);
      ProjectAll(now);
    }

    // ---------- Catalog ----------

    /** catalogPosition: whether some collector sees the position free, and since when. */
    method CatalogPosition(pos: Position, now: Time) returns (observed: Option<Time>)
      ensures observed.Some? ==> exists c :: c in collectors && SeesFree(collectors[c], pos, now) && observed.value == collectors[c].listed.value.at
      ensures observed.None? ==> forall c :: c in collectors ==> !SeesFree(collectors[c], pos, now)
    {
      observed := None;
      var todo := collectors.Keys;
      while todo != {}
        invariant todo <= collectors.Keys
        invariant observed.Some? ==> exists c :: c in collectors && SeesFree(collectors[c], pos, now) && observed.value == collectors[c].listed.value.at
        invariant observed.None? ==> forall c :: c in collectors && c !in todo ==> !SeesFree(collectors[c], pos, now)
        decreases |todo|
      {
        var c :| c in todo;
        todo := todo - {c};
        var inv := collectors[c];
        if pos.namespace in inv.config.namespaces && pos !in inv.objects && inv.listed.Some? && now < inv.listed.value.expires {
          observed := Some(inv.listed.value.at);
          assert SeesFree(collectors[c], pos, now);
        }
      }
    }

    /** The legacy view comes from the one collector that watches the namespace, or there is none. */
    method LegacyView(b: Legacy, now: Time) returns (view: Runtime)
      ensures (forall c :: c in collectors ==> b.pos.namespace !in collectors[c].config.namespaces) ==> view == UNSYNCED
      ensures (exists c :: c in collectors && b.pos.namespace in collectors[c].config.namespaces) ==>
        exists c :: c in collectors && b.pos.namespace in collectors[c].config.namespaces && view == LegacyOf(collectors[c], b, now)
    {
      hide Evaluate, RuntimeView;
      view := UNSYNCED;
      var todo := collectors.Keys;
      while todo != {}
        invariant todo <= collectors.Keys && view == UNSYNCED
        invariant forall c :: c in collectors && c !in todo ==> b.pos.namespace !in collectors[c].config.namespaces
        decreases |todo|
      {
        var c :| c in todo;
        todo := todo - {c};
        var inv := collectors[c];
        if b.pos.namespace in inv.config.namespaces {
          if b.pos in inv.objects {
            var r := inv.objects[b.pos];
            if !IsUnowned(r.o, b.uid) {
              view := view.(reason := IdentityConflict);
            } else {
              var fact := r.o;
              if now < r.expires && now >= r.healthExpires {
                fact := fact.(health := NotChecked);
              }
              var (state, reason) := Evaluate(fact, b.app in inv.config.healthRequired);
              view := RuntimeView(now, Some(state), Some(reason), Some(r.received), Some(r.expires), false);
            }
          } else if inv.listed.Some? {
            view := RuntimeView(now, Some(Absent), Some(ResourceAbsent), Some(inv.listed.value.at), Some(inv.listed.value.expires), false);
          }
          assert view == LegacyOf(collectors[c], b, now);
          return;
        }
      }
    }
  }
}
