/**
 * Runs of the application-state cache: which frames were accepted, and what a
 * replay of them says about every inventory.
 */
module AppHistory {
  import opened Common
  import opened Observations
  import opened AppMemory

  // ---------- The log ----------

  datatype Event =
    | Accepted(time: Time, collector: string, session: SessionId, frame: Frame)
    | Cleared(time: Time, app: string, target: string)

  /** The facts of an inventory: its objects without what HTTP probes said. */
  function Facts(objects: map<Position, Resource>): map<Position, Observation> {
    map p | p in objects :: Bare(objects[p].o)
  }

  function PutFacts(facts: map<Position, Observation>, objects: seq<Observation>): map<Position, Observation> {
    if objects == [] then facts
    else
      var o := objects[|objects| - 1];
      PutFacts(facts, objects[..|objects| - 1])[o.pos := Bare(o)]
  }

  /** What a session has sent since it last began a list. */
  function Sent(log: seq<Event>, sid: SessionId): map<Position, Observation>
    decreases |log|
  {
    if log == [] then map[]
    else
      var before, e := Sent(log[..|log| - 1], sid), log[|log| - 1];
      if !e.Accepted? || e.session != sid then before
      else match e.frame
        case Begin(_) => map[]
        case Objects(_, objects) => PutFacts(before, objects)
        case _ => before
  }

  /** A list a session is sending. */
  datatype Listing = Listing(syncId: string, at: Time)

  /** The list a session has begun and not ended. */
  function OpenList(log: seq<Event>, sid: SessionId): Option<Listing>
    decreases |log|
  {
    if log == [] then None
    else
      var before, e := OpenList(log[..|log| - 1], sid), log[|log| - 1];
      if !e.Accepted? || e.session != sid then before
      else match e.frame
        case Begin(syncId) => Some(Listing(syncId, e.time))
        case End(_, _) => None
        case _ => before
  }

  /** What one event does to the facts of a collector; `sent` is what its session has sent so far. */
  function Replay(facts: map<Position, Observation>, sent: map<Position, Observation>, e: Event, collector: string)
    : map<Position, Observation>
  {
    match e
    case Cleared(_, app, target) =>
      map p | p in facts && !Leaves(app, target, facts[p].app, facts[p].pos.namespace) :: facts[p]
    case Accepted(_, c, _, f) =>
      if c != collector then facts
      else match f
        case End(_, _) => sent
        case Upsert(o) => facts[o.pos := Bare(o)]
        case Delete(pos, uid) => if pos in facts && facts[pos].uid == uid then facts - {pos} else facts
        case _ => facts
  }

  /** The facts of a collector according to nothing but the frames it had accepted. */
  function Replayed(log: seq<Event>, collector: string): map<Position, Observation>
    decreases |log|
  {
    if log == [] then map[]
    else
      var prior, e := log[..|log| - 1], log[|log| - 1];
      Replay(Replayed(prior, collector), if e.Accepted? then Sent(prior, e.session) else map[], e, collector)
  }

  /** The session that last completed a list. */
  function Author(log: seq<Event>, collector: string): Option<SessionId>
    decreases |log|
  {
    if log == [] then None
    else
      var e := log[|log| - 1];
      if e.Accepted? && e.collector == collector && e.frame.End? then Some(e.session)
      else Author(log[..|log| - 1], collector)
  }

  predicate Ends(e: Event, collector: string) {
    e.Accepted? && e.collector == collector && e.frame.End?
  }

  /** The e-th event is the last to complete a list of this collector; that list was begun at `from`. */
  predicate Completed(log: seq<Event>, collector: string, from: Time, e: nat) {
    && e < |log| && Ends(log[e], collector) && (forall k :: e < k < |log| ==> !Ends(log[k], collector))
    && OpenList(log[..e], log[e].session).Some? && OpenList(log[..e], log[e].session).value.at == from
  }

  /** The event is a frame of this session that carried these facts. */
  predicate Carries(e: Event, collector: string, sid: SessionId, o: Observation) {
    && e.Accepted? && e.collector == collector && e.session == sid
    && match e.frame
       case Upsert(x) => Bare(x) == Bare(o)
       case Objects(_, xs) => exists i :: 0 <= i < |xs| && Bare(xs[i]) == Bare(o)
       case _ => false
  }

  predicate SameVersion(x: Observation, o: Observation) {
    x.pos == o.pos && x.uid == o.uid && x.resourceVersion == o.resourceVersion && x.health == o.health
  }

  /** The event is a frame of this session that carried this health for this very object version. */
  predicate Probes(e: Event, collector: string, sid: SessionId, o: Observation) {
    && e.Accepted? && e.collector == collector && e.session == sid
    && match e.frame
       case Probe(pos, uid, version, health) =>
         pos == o.pos && uid == o.uid && version == o.resourceVersion && health == o.health
       case Upsert(x) => SameVersion(x, o)
       case Objects(_, xs) => exists i :: 0 <= i < |xs| && SameVersion(xs[i], o)
       case _ => false
  }

  /** The k-th event took the object with this identity away from its position. */
  predicate Removes(log: seq<Event>, k: nat, l: Location)
    requires k < |log|
  {
    var e := log[k];
    && e.Accepted? && e.collector == l.collector
    && match e.frame
       case End(_, _) => l.pos !in Sent(log[..k], e.session)
       case Delete(pos, uid) => pos == l.pos && uid == l.uid
       case _ => false
  }

  /** The k-th event made an occupied position free, by a deletion of its object or a reset of its App. */
  predicate Frees(log: seq<Event>, k: nat, c: string, pos: Position)
    requires k < |log|
  {
    var before := Replayed(log[..k], c);
    pos in before &&
    match log[k]
    case Accepted(_, collector, _, f) => collector == c && f == Delete(pos, before[pos].uid)
    case Cleared(_, app, target) => Leaves(app, target, before[pos].app, before[pos].pos.namespace)
  }

  /** Why a position is free: the last list, the e-th event, lacked it, or a later event made it free. */
  ghost predicate FreeSince(log: seq<Event>, c: string, pos: Position, e: nat)
    requires e < |log| && log[e].Accepted?
  {
    pos !in Sent(log[..e], log[e].session) || exists k: nat :: e < k < |log| && Frees(log, k, c, pos)
  }

  // ---------- Worlds and steps ----------

  /** A binding was matched with exactly one object, when the log had this length. */
  datatype Match = Match(binding: Binding, loc: Location, at: nat)

  datatype World = World(mem: Mem, log: seq<Event>, matches: set<Match>, clock: Time)

  ghost function Start(station: string, configs: seq<Config>, clock: Time): World
    requires ValidConfigs(configs)
  {
    World(Initial(station, configs), [], {}, clock)
  }

  datatype Act =
    | OpenAct(collector: string, sid: SessionId)
    | CloseAct(sid: SessionId)
    | FrameAct(sid: SessionId, frame: Frame)
    | ReadAct(bindings: seq<Binding>)
    | ExpireAct
    | ResetAct(app: string, target: string)

  /** One call under the mutex. The clock it reads never goes back. */
  datatype Step = Step(now: Time, act: Act)

  predicate Enabled(w: World, s: Step) {
    && w.clock <= s.now
    && (s.act.OpenAct? ==> s.act.sid !in w.mem.sessions)
    && (s.act.CloseAct? || s.act.FrameAct? ==> s.act.sid in w.mem.sessions)
  }

  /** The one object with this identity is the one at the binding's location. */
  predicate Matched(m: Mem, b: Record) {
    && b.loc.Some? && Held(m, b).Some?
    && Candidates(m, b.binding) == {Candidate(b.loc.value.collector, b.loc.value.pos)}
  }

  function MatchesOf(m: Mem, length: nat): set<Match> {
    set id | id in m.bindings && Matched(m, m.bindings[id]) :: Match(m.bindings[id].binding, m.bindings[id].loc.value, length)
  }

  ghost function NextMem(m: Mem, s: Step): Mem {
    match s.act
    case OpenAct(collector, sid) => (match Open(m, collector, sid, s.now) case Ok(next) => next case Err(_) => m)
    case CloseAct(sid) => CloseSession(m, sid)
    case FrameAct(sid, f) => Apply(m, sid, f, s.now).0
    case ReadAct(bindings) => Read(m, bindings, s.now).0
    case ExpireAct => Expire(m, s.now)
    case ResetAct(app, target) => Reset(m, app, target, s.now)
  }

  ghost function Accepts(m: Mem, s: Step): bool {
    s.act.FrameAct? && Apply(m, s.act.sid, s.act.frame, s.now).1.None?
  }

  ghost function Logged(m: Mem, s: Step): seq<Event> {
    if Accepts(m, s) && Has(m, s.act.sid) then [Accepted(s.now, m.sessions[s.act.sid].collector, s.act.sid, s.act.frame)]
    else if s.act.ResetAct? && s.act.app != "" then [Cleared(s.now, s.act.app, s.act.target)]
    else []
  }

  ghost function Next(w: World, s: Step): World
    requires Enabled(w, s)
  {
    var m, log := NextMem(w.mem, s), w.log + Logged(w.mem, s);
    World(m, log, w.matches + MatchesOf(m, |log|), s.now)
  }

  ghost predicate IsRun(w: World, steps: seq<Step>)
    decreases |steps|
  {
    steps == [] || (Enabled(w, steps[0]) && IsRun(Next(w, steps[0]), steps[1..]))
  }

  ghost function After(w: World, steps: seq<Step>): World
    requires IsRun(w, steps)
    decreases |steps|
  {
    if steps == [] then w else After(Next(w, steps[0]), steps[1..])
  }
}
