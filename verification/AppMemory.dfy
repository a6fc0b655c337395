/**
 * The volatile application-state cache as a value, and each of its operations
 * as a function from one value to the next (memory.go, catalog.go).
 */
module AppMemory {
  import opened Common
  import opened Releases
  import opened Observations

  type SessionId = nat

  // ---------- State ----------

  datatype Resource = Resource(o: Observation, received: Time, expires: Time, healthExpires: Time)

  /** When something was last confirmed, and until when that is believed. */
  datatype Evidence = Evidence(at: Time, expires: Time)

  function Since(at: Time): Evidence {
    Evidence(at, at + TTL)
  }

  datatype Inventory = Inventory(config: Config, active: Option<SessionId>, objects: map<Position, Resource>,
                                 lastFull: Time, listed: Option<Evidence>)

  datatype Session = Session(collector: string, lastFrame: Time, synced: bool, closed: bool, syncId: string,
                             started: Time, staging: Option<map<Position, Resource>>)

  /** An installation as the database knows it. */
  datatype Binding = Binding(installation: string, organization: string, app: string)

  datatype Location = Location(collector: string, pos: Position, uid: string)

  /** The facts whose change advances a revision. The digest of an object's metadata stands for the metadata. */
  datatype Semantic = Semantic(uid: string, state: AppState, quality: Quality, reason: Reason,
                               lastKnown: Option<AppState>, digest: Option<Option<Metadata>>)

  datatype Record = Record(binding: Binding, loc: Option<Location>, absent: Option<Evidence>, view: Runtime,
                           revision: nat, semantic: Option<Semantic>)

  datatype Mem = Mem(station: string, collectors: map<string, Inventory>, sessions: map<SessionId, Session>,
                     bindings: map<string, Record>, scopes: map<string, nat>)

  datatype StreamError = BadFrame | Limit | Closed | Busy

  /** The session exists, and so does its collector. */
  predicate Has(m: Mem, sid: SessionId) {
    sid in m.sessions && m.sessions[sid].collector in m.collectors
  }

  /** An active session is a session of its collector. */
  predicate Linked(m: Mem) {
    forall c :: c in m.collectors && m.collectors[c].active.Some? ==>
      m.collectors[c].active.value in m.sessions && m.sessions[m.collectors[c].active.value].collector == c
  }

  // ---------- Construction ----------

  predicate ValidConfigs(configs: seq<Config>) {
    && |configs| <= 128
    && (forall c :: c in configs ==> ValidConfig(c))
    && (forall i, j :: 0 <= i < j < |configs| ==> configs[i].id != configs[j].id)
    && (forall i, j, ns | 0 <= i < j < |configs| && ns in configs[i].namespaces :: ns !in configs[j].namespaces)
  }

  function NewInventory(c: Config): Inventory {
    Inventory(c, None, map[], 0, None)
  }

  ghost function Initial(station: string, configs: seq<Config>): Mem
    requires ValidConfigs(configs)
  {
    Mem(station, map c | c in configs :: c.id := NewInventory(c), map[], map[], map[])
  }

  // ---------- Sessions ----------

  predicate Live(m: Mem, sid: SessionId, now: Time) {
    && Has(m, sid)
    && var s := m.sessions[sid];
    && !s.closed && m.collectors[s.collector].active == Some(sid) && now < s.lastFrame + TTL
    && (s.staging.Some? ==> now < s.started + TTL)
  }

  function Deadline(s: Session): Time {
    var last := s.lastFrame + TTL;
    if s.staging.Some? && s.started + TTL < last then s.started + TTL else last
  }

  function CloseSession(m: Mem, sid: SessionId): Mem {
    if !Has(m, sid) then m
    else
      var s := m.sessions[sid];
      var c := m.collectors[s.collector];
      m.(sessions := m.sessions[sid := s.(closed := true, staging := None, syncId := "")],
         collectors := if c.active == Some(sid) then m.collectors[s.collector := c.(active := None)] else m.collectors)
  }

  function Open(m: Mem, collector: string, sid: SessionId, now: Time): Result<Mem, StreamError> {
    if collector !in m.collectors then Err(BadFrame)
    else
      var prior := m.collectors[collector].active;
      if prior.Some? && Live(m, prior.value, now) then Err(Busy)
      else
        var freed := if prior.Some? then CloseSession(m, prior.value) else m;
        Ok(freed.(sessions := freed.sessions[sid := Session(collector, now, false, false, "", 0, None)],
                  collectors := freed.collectors[collector := freed.collectors[collector].(active := Some(sid))]))
  }

  // ---------- Frames ----------

  datatype Frame =
    | Begin(syncId: string)
    | Objects(syncId: string, objects: seq<Observation>)
    | End(syncId: string, count: int)
    | Upsert(item: Observation)
    | Delete(pos: Position, uid: string)
    | Probe(pos: Position, uid: string, resourceVersion: string, health: Health)
    | Heartbeat

  /** A relist keeps the deadline of a probe of the very same facts made on the same connection. */
  function Sample(c: Inventory, synced: bool, o: Observation, now: Time): Resource {
    if synced && o.health == NotChecked && o.pos in c.objects && Bare(c.objects[o.pos].o) == o then
      Resource(c.objects[o.pos].o, now, now + TTL, c.objects[o.pos].healthExpires)
    else
      Resource(o, now, now + TTL, now + TTL)
  }

  function PutAll(c: Inventory, synced: bool, staging: map<Position, Resource>, objects: seq<Observation>, now: Time)
    : map<Position, Resource>
  {
    if objects == [] then staging
    else
      var o := objects[|objects| - 1];
      PutAll(c, synced, staging, objects[..|objects| - 1], now)[o.pos := Sample(c, synced, o, now)]
  }

  predicate ChunkOk(c: Inventory, staging: map<Position, Resource>, objects: seq<Observation>) {
    && (forall i :: 0 <= i < |objects| ==> ValidResource(objects[i], c.config) && !objects[i].deleted && objects[i].pos !in staging)
    && (forall i, j :: 0 <= i < j < |objects| ==> objects[i].pos != objects[j].pos)
  }

  function SetSession(m: Mem, sid: SessionId, s: Session): Mem {
    m.(sessions := m.sessions[sid := s])
  }

  function SetObjects(m: Mem, collector: string, objects: map<Position, Resource>): Mem
    requires collector in m.collectors
  {
    m.(collectors := m.collectors[collector := m.collectors[collector].(objects := objects)])
  }

  /** Absence evidence from `now` on for the given bindings. */
  function Missing(bindings: map<string, Record>, gone: set<string>, now: Time): map<string, Record> {
    map id | id in bindings :: if id in gone then bindings[id].(absent := Some(Since(now))) else bindings[id]
  }

  /** Bound to this collector, at a position the finished list does not have. */
  function Unlisted(bindings: map<string, Record>, collector: string, staging: map<Position, Resource>): set<string> {
    set id | id in bindings && bindings[id].loc.Some? && bindings[id].loc.value.collector == collector
             && bindings[id].loc.value.pos !in staging
  }

  function BoundTo(bindings: map<string, Record>, l: Location): set<string> {
    set id | id in bindings && bindings[id].loc == Some(l)
  }

  function KnownAbsent(bindings: map<string, Record>, collector: string): set<string> {
    set id | id in bindings && bindings[id].loc.Some? && bindings[id].loc.value.collector == collector && bindings[id].absent.Some?
  }

  function HandleBegin(m: Mem, sid: SessionId, syncId: string, now: Time): Result<Mem, StreamError>
    requires Has(m, sid)
  {
    var s := m.sessions[sid];
    if !IsId(syncId) || s.staging.Some? then Err(BadFrame)
    else Ok(SetSession(m, sid, s.(syncId := syncId, started := now, staging := Some(map[]))))
  }

  function HandleObjects(m: Mem, sid: SessionId, syncId: string, objects: seq<Observation>, now: Time): Result<Mem, StreamError>
    requires Has(m, sid)
  {
    var s := m.sessions[sid];
    var c := m.collectors[s.collector];
    if s.staging.None? || syncId != s.syncId || |objects| == 0 || |objects| > 500 then Err(BadFrame)
    else if |s.staging.value| + |objects| > MAX_INVENTORY then Err(Limit)
    else if !ChunkOk(c, s.staging.value, objects) then Err(BadFrame)
    else Ok(SetSession(m, sid, s.(staging := Some(PutAll(c, s.synced, s.staging.value, objects, now)))))
  }

  function HandleEnd(m: Mem, sid: SessionId, syncId: string, count: int, now: Time): Result<Mem, StreamError>
    requires Has(m, sid)
  {
    var s := m.sessions[sid];
    var c := m.collectors[s.collector];
    if s.staging.None? || s.syncId != syncId || count != |s.staging.value| then Err(BadFrame)
    else
      Ok(m.(bindings := Missing(m.bindings, Unlisted(m.bindings, s.collector, s.staging.value), now),
            collectors := m.collectors[s.collector := c.(objects := s.staging.value, lastFull := s.started,
                                                         listed := Some(Since(s.started)))],
            sessions := m.sessions[sid := s.(staging := None, syncId := "", synced := true)]))
  }

  function HandleUpsert(m: Mem, sid: SessionId, o: Observation, now: Time): Result<Mem, StreamError>
    requires Has(m, sid)
  {
    var s := m.sessions[sid];
    var c := m.collectors[s.collector];
    if !s.synced || s.staging.Some? || o.deleted || !ValidResource(o, c.config) then Err(BadFrame)
    else if o.pos !in c.objects && |c.objects| >= MAX_INVENTORY then Err(Limit)
    else Ok(SetObjects(m, s.collector, c.objects[o.pos := Sample(c, s.synced, o, now)]))
  }

  function HandleDelete(m: Mem, sid: SessionId, pos: Position, uid: string, now: Time): Result<Mem, StreamError>
    requires Has(m, sid)
  {
    var s := m.sessions[sid];
    var c := m.collectors[s.collector];
    if !s.synced || s.staging.Some? || !ValidLocation(pos, uid, c.config) then Err(BadFrame)
    else if pos !in c.objects || c.objects[pos].o.uid != uid then Ok(m)
    else
      Ok(SetObjects(m, s.collector, c.objects - {pos}).(
           bindings := Missing(m.bindings, BoundTo(m.bindings, Location(s.collector, pos, uid)), now)))
  }

  function HandleProbe(m: Mem, sid: SessionId, pos: Position, uid: string, resourceVersion: string, health: Health, now: Time)
    : Result<Mem, StreamError>
    requires Has(m, sid)
  {
    var s := m.sessions[sid];
    var c := m.collectors[s.collector];
    if !s.synced || s.staging.Some? || !ValidLocation(pos, uid, c.config) || |resourceVersion| == 0 || |resourceVersion| > 256
       || (health != Healthy && health != Unhealthy) then Err(BadFrame)
    else if pos !in c.objects then Ok(m)
    else
      var r := c.objects[pos];
      if r.o.deleted || r.o.uid != uid || r.o.resourceVersion != resourceVersion || r.o.instance != "" || r.o.terminating
         || r.o.desired == 0 then Ok(m)
      else Ok(SetObjects(m, s.collector, c.objects[pos := r.(o := r.o.(health := health), healthExpires := now + TTL)]))
  }

  function Confirmed(objects: map<Position, Resource>, now: Time): map<Position, Resource> {
    map p | p in objects :: objects[p].(received := now, expires := now + TTL)
  }

  function HandleHeartbeat(m: Mem, sid: SessionId, now: Time): Result<Mem, StreamError>
    requires Has(m, sid)
  {
    var s := m.sessions[sid];
    var c := m.collectors[s.collector];
    if !s.synced || s.staging.Some? || now >= c.lastFull + FULL_SYNC then Err(BadFrame)
    else
      Ok(m.(collectors := m.collectors[s.collector := c.(objects := Confirmed(c.objects, now), listed := Some(Since(now)))],
            bindings := Missing(m.bindings, KnownAbsent(m.bindings, s.collector), now)))
  }

  function Handle(m: Mem, sid: SessionId, f: Frame, now: Time): Result<Mem, StreamError>
    requires Has(m, sid)
  {
    match f
    case Begin(syncId) => HandleBegin(m, sid, syncId, now)
    case Objects(syncId, objects) => HandleObjects(m, sid, syncId, objects, now)
    case End(syncId, count) => HandleEnd(m, sid, syncId, count, now)
    case Upsert(o) => HandleUpsert(m, sid, o, now)
    case Delete(pos, uid) => HandleDelete(m, sid, pos, uid, now)
    case Probe(pos, uid, resourceVersion, health) => HandleProbe(m, sid, pos, uid, resourceVersion, health, now)
    case Heartbeat => HandleHeartbeat(m, sid, now)
  }

  // ---------- Projection ----------

  /** The object carries exactly the identity of the binding, and is no worker instance. */
  predicate Identifies(station: string, o: Observation, b: Binding) {
    && o.station == station && o.instance == "" && o.installation != "" && o.installation == b.installation
    && o.organization == b.organization && o.app == b.app
  }

  datatype Candidate = Candidate(collector: string, pos: Position)

  function Candidates(m: Mem, b: Binding): set<Candidate> {
    set c, p | c in m.collectors && p in m.collectors[c].objects && Identifies(m.station, m.collectors[c].objects[p].o, b)
      :: Candidate(c, p)
  }

  predicate Occupied(m: Mem, l: Location) {
    l.collector in m.collectors && l.pos in m.collectors[l.collector].objects
  }

  /** The object at the binding's location, when it is the very object the binding was matched with. */
  function Held(m: Mem, b: Record): Option<Resource> {
    if b.loc.None? || !Occupied(m, b.loc.value) then None
    else
      var r := m.collectors[b.loc.value.collector].objects[b.loc.value.pos];
      if r.o.uid == b.loc.value.uid && Identifies(m.station, r.o, b.binding) then Some(r) else None
  }

  function SemanticOf(m: Mem, b: Record): Semantic {
    var held := Held(m, b);
    Semantic(if b.loc.Some? then b.loc.value.uid else "", b.view.state, b.view.quality, b.view.reason, b.view.lastKnown,
             if held.Some? then Some(held.value.o.metadata) else None)
  }

  datatype Settled = Settled(loc: Option<Location>, absent: Option<Evidence>, view: Runtime)

  const CONFLICT := UNSYNCED.(reason := IdentityConflict)

  /** A probe result only counts while it is fresh; an expired report is not even asked. */
  function Fact(r: Resource, now: Time): Observation {
    if now < r.expires && now >= r.healthExpires then Bare(r.o) else r.o
  }

  /** Exactly one object carries the identity. */
  function SettleOn(m: Mem, b: Record, x: Candidate, now: Time): Settled
    requires x.collector in m.collectors && x.pos in m.collectors[x.collector].objects
  {
    var c := m.collectors[x.collector];
    var r := c.objects[x.pos];
    if b.loc.Some? && (b.loc.value.collector != x.collector || b.loc.value.pos != x.pos) && Occupied(m, b.loc.value) then
      Settled(b.loc, b.absent, CONFLICT)
    else
      var (state, reason) := Evaluate(Fact(r, now), b.binding.app in c.config.healthRequired);
      Settled(Some(Location(x.collector, x.pos, r.o.uid)), None,
              RuntimeView(now, Some(state), Some(reason), Some(r.received), Some(r.expires), false))
  }

  /** No object carries the identity. */
  function SettleAlone(m: Mem, b: Record, now: Time): Settled {
    var view :=
      if b.loc.None? then UNSYNCED
      else
        var l := b.loc.value;
        if l.collector !in m.collectors || l.pos.namespace !in m.collectors[l.collector].config.namespaces then
          UNSYNCED.(reason := CollectorScopeChanged)
        else if Occupied(m, l) then
          var r := m.collectors[l.collector].objects[l.pos];
          RuntimeView(now, Some(Unknown), Some(IdentityConflict), Some(r.received), Some(r.expires), false)
        else if b.absent.Some? then
          RuntimeView(now, Some(Absent), Some(ResourceAbsent), Some(b.absent.value.at), Some(b.absent.value.expires), false)
        else UNSYNCED;
    Settled(b.loc, b.absent, view)
  }

  ghost function Settle(m: Mem, b: Record, now: Time): Settled {
    var xs := Candidates(m, b.binding);
    if |xs| > 1 then Settled(b.loc, b.absent, CONFLICT)
    else if |xs| == 1 then
      var x :| x in xs;
      SettleOn(m, b, x, now)
    else SettleAlone(m, b, now)
  }

  /** What a projection makes of a binding, given where it settles. */
  function Adopted(m: Mem, b: Record, s: Settled): Record {
    var view := if s.view.reason == HealthNotObserved && b.view.lastKnown.Some? then s.view.(lastKnown := b.view.lastKnown)
                else s.view;
    var next := b.(loc := s.loc, absent := s.absent, view := view);
    var semantic := Some(SemanticOf(m, next));
    if semantic == b.semantic then next else next.(semantic := semantic, revision := b.revision + 1)
  }

  ghost function Projected(m: Mem, b: Record, now: Time): Record {
    Adopted(m, b, Settle(m, b, now))
  }

  function Scope(scopes: map<string, nat>, organization: string): nat {
    if organization in scopes then scopes[organization] else 0
  }

  function InOrganization(bindings: map<string, Record>, ids: set<string>, organization: string): set<string> {
    set id | id in ids && id in bindings && bindings[id].binding.organization == organization
  }

  /** Every organization's revision advances once for each of its bindings among `ids`. */
  function Advanced(scopes: map<string, nat>, bindings: map<string, Record>, ids: set<string>): map<string, nat>
    requires ids <= bindings.Keys
  {
    map org | org in scopes.Keys + (set id | id in ids :: bindings[id].binding.organization)
      :: Scope(scopes, org) + |InOrganization(bindings, ids, org)|
  }

  ghost function Moved(m: Mem, now: Time): set<string> {
    set id | id in m.bindings && Projected(m, m.bindings[id], now).semantic != m.bindings[id].semantic
  }

  ghost function ProjectAll(m: Mem, now: Time): Mem {
    m.(bindings := map id | id in m.bindings :: Projected(m, m.bindings[id], now),
       scopes := Advanced(m.scopes, m.bindings, Moved(m, now)))
  }

  // ---------- Operations ----------

  /** The session was heard from. */
  function Heard(m: Mem, sid: SessionId, now: Time): Mem {
    if sid in m.sessions then SetSession(m, sid, m.sessions[sid].(lastFrame := now)) else m
  }

  /** One frame on one session: refused and closed, or handled and followed by a projection. */
  ghost function Apply(m: Mem, sid: SessionId, f: Frame, now: Time): (Mem, Option<StreamError>) {
    if !Live(m, sid, now) then (CloseSession(m, sid), Some(Closed))
    else
      match Handle(m, sid, f, now)
      case Err(e) => (CloseSession(m, sid), Some(e))
      case Ok(next) => (ProjectAll(Heard(next, sid, now), now), None)
  }

  function Ids(bindings: seq<Binding>): set<string> {
    set b | b in bindings :: b.installation
  }

  predicate RequestOk(m: Mem, bindings: seq<Binding>) {
    && (forall b :: b in bindings ==> IsId(b.installation) && IsId(b.organization) && IsName(b.app))
    && (forall b :: b in bindings ==> b.installation in m.bindings ==> m.bindings[b.installation].binding == b)
    && (forall a, b | a in bindings && b in bindings :: a.installation == b.installation ==> a == b)
  }

  function NewRecord(b: Binding): Record {
    Record(b, None, None, UNSYNCED, 0, None)
  }

  function Added(m: Mem, bindings: seq<Binding>): map<string, Record>
    requires RequestOk(m, bindings)
  {
    map b | b in bindings && b.installation !in m.bindings :: b.installation := NewRecord(b)
  }

  /** Make room at the cap by forgetting bindings outside the request, then start tracking the new ones. */
  function Register(m: Mem, bindings: seq<Binding>): Result<Mem, StreamError> {
    if !RequestOk(m, bindings) then Err(BadFrame)
    else if |Ids(bindings)| > MAX_BINDINGS then Err(Limit)
    else
      var added := Added(m, bindings);
      if |m.bindings| + |added| > MAX_BINDINGS then
        var dropped := m.bindings.Keys - Ids(bindings);
        Ok(m.(bindings := (m.bindings - dropped) + added, scopes := Advanced(m.scopes, m.bindings, dropped)))
      else Ok(m.(bindings := m.bindings + added))
  }

  datatype View = View(runtime: Runtime, revision: nat, resource: Option<Observation>)

  function ViewOf(m: Mem, b: Record): View {
    var held := Held(m, b);
    View(b.view, b.revision, if b.view.reason != IdentityConflict && held.Some? then Some(held.value.o) else None)
  }

  datatype Answer = Answer(views: map<string, View>, revisions: map<string, nat>)

  function AnswerOf(m: Mem, bindings: seq<Binding>): Answer {
    Answer(map id | id in Ids(bindings) && id in m.bindings :: ViewOf(m, m.bindings[id]),
           map org | org in (set b | b in bindings :: b.organization) :: Scope(m.scopes, org))
  }

  ghost function Read(m: Mem, bindings: seq<Binding>, now: Time): (Mem, Result<Answer, StreamError>) {
    match Register(m, bindings)
    case Err(e) => (m, Err(e))
    case Ok(next) =>
      var after := ProjectAll(next, now);
      (after, Ok(AnswerOf(after, bindings)))
  }

  /** The collector's active session is no longer live. */
  predicate Stale(m: Mem, c: string, now: Time)
    requires c in m.collectors
  {
    var active := m.collectors[c].active;
    active.Some? && Has(m, active.value) && !Live(m, active.value, now)
  }

  /** The session is its collector's active one and no longer live. */
  predicate Lapsed(m: Mem, sid: SessionId, now: Time) {
    Has(m, sid) && m.collectors[m.sessions[sid].collector].active == Some(sid) && !Live(m, sid, now)
  }

  function CloseStale(m: Mem, now: Time): Mem {
    m.(collectors := map c | c in m.collectors ::
                       if Stale(m, c, now) then m.collectors[c].(active := None) else m.collectors[c],
       sessions := map sid | sid in m.sessions ::
                     if Lapsed(m, sid, now) then m.sessions[sid].(closed := true, staging := None, syncId := "")
                     else m.sessions[sid])
  }

  ghost function Expire(m: Mem, now: Time): Mem {
    ProjectAll(CloseStale(m, now), now)
  }

  /** An observation or a binding of the App outside the namespace it moves to; everywhere when there is none. */
  predicate Leaves(app: string, target: string, subject: string, namespace: string) {
    subject == app && (target == "" || namespace != target)
  }

  function KeptObjects(objects: map<Position, Resource>, app: string, target: string): map<Position, Resource> {
    map p | p in objects && !Leaves(app, target, objects[p].o.app, objects[p].o.pos.namespace) :: objects[p]
  }

  function ResetRecord(b: Record, app: string, target: string): Record {
    if Leaves(app, target, b.binding.app, if b.loc.Some? then b.loc.value.pos.namespace else "")
    then b.(loc := None, absent := None) else b
  }

  function Forget(m: Mem, app: string, target: string): Mem {
    m.(collectors := map c | c in m.collectors ::
                       m.collectors[c].(objects := KeptObjects(m.collectors[c].objects, app, target)),
       bindings := map id | id in m.bindings :: ResetRecord(m.bindings[id], app, target))
  }

  ghost function Reset(m: Mem, app: string, target: string, now: Time): Mem {
    if app == "" then m else ProjectAll(Forget(m, app, target), now)
  }

  /** The collector watches the namespace, its last list is still believed, and nothing is at the position. */
  predicate SeesFree(c: Inventory, pos: Position, now: Time) {
    pos.namespace in c.config.namespaces && pos !in c.objects && c.listed.Some? && now < c.listed.value.expires
  }

  // ---------- Legacy observations ----------

  /** A registered workload of before installations: a place and the uid that is expected there. */
  datatype Legacy = Legacy(app: string, organization: string, pos: Position, uid: string)

  /** The object is the registered one, and nobody has claimed ownership of it since. */
  predicate IsUnowned(o: Observation, uid: string) {
    && o.uid == uid && o.station == "" && o.organization == "" && o.installation == "" && o.instance == "" && o.app == ""
    && o.metadata.Some? && !o.metadata.value.ownershipMarked
  }

  /** legacyView, on the collector that watches the namespace. */
  function LegacyOf(inv: Inventory, b: Legacy, now: Time): Runtime {
    if b.pos in inv.objects then
      var r := inv.objects[b.pos];
      if !IsUnowned(r.o, b.uid) then UNSYNCED.(reason := IdentityConflict)
      else
        var (state, reason) := Evaluate(Fact(r, now), b.app in inv.config.healthRequired);
        RuntimeView(now, Some(state), Some(reason), Some(r.received), Some(r.expires), false)
    else if inv.listed.Some? then
      RuntimeView(now, Some(Absent), Some(ResourceAbsent), Some(inv.listed.value.at), Some(inv.listed.value.expires), false)
    else UNSYNCED
  }
}
