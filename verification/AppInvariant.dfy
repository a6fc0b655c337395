/** What every call on the cache keeps: evidence first, then bindings. */
module AppInvariant {
  import opened Common
  import opened Observations
  import opened AppMemory
  import opened AppHistory

  // ---------- Evidence ----------

  ghost predicate CarriedSince(log: seq<Event>, c: string, sid: SessionId, from: Time, r: Resource) {
    exists k :: 0 <= k < |log| && Carries(log[k], c, sid, r.o) && from <= log[k].time <= r.received
                && (r.received == log[k].time || r.received < from + FULL_SYNC)
  }

  ghost predicate Probed(log: seq<Event>, c: string, sid: SessionId, r: Resource) {
    exists k :: 0 <= k < |log| && Probes(log[k], c, sid, r.o) && r.healthExpires == log[k].time + TTL
  }

  /** Where a resource comes from: facts carried since `from` and a probe, both by frames of one session. */
  ghost predicate Sound(log: seq<Event>, c: string, sid: SessionId, from: Time, r: Resource) {
    && r.expires == r.received + TTL
    && CarriedSince(log, c, sid, from, r)
    && (r.o.health != NotChecked ==> Probed(log, c, sid, r))
  }

  ghost predicate ResourceOk(log: seq<Event>, clock: Time, config: Config, c: string, sid: SessionId, from: Time,
                             p: Position, r: Resource)
  {
    && p.namespace in config.namespaces && r.o.pos == p && !r.o.deleted && r.received <= clock
    && Sound(log, c, sid, from, r)
  }

  ghost predicate CompletedSince(log: seq<Event>, c: string, from: Time) {
    exists e: nat :: Completed(log, c, from, e)
  }

  /** The list is confirmed by having been begun, or by a heartbeat of its session within a minute of that. */
  ghost predicate Confirms(log: seq<Event>, c: string, sid: SessionId, from: Time, at: Time) {
    from <= at && (at == from || (at < from + FULL_SYNC && exists k :: 0 <= k < |log| && Beats(log[k], c, sid, at)))
  }

  predicate Beats(e: Event, c: string, sid: SessionId, at: Time) {
    e.Accepted? && e.collector == c && e.session == sid && e.frame.Heartbeat? && e.time == at
  }

  ghost predicate InventoryOk(log: seq<Event>, clock: Time, c: string, inv: Inventory) {
    && inv.config.id == c && inv.lastFull <= clock && |inv.objects| <= MAX_INVENTORY
    && Facts(inv.objects) == Replayed(log, c)
    && (Author(log, c).None? ==> inv.objects == map[] && inv.listed.None?)
    && (inv.listed.Some? ==> inv.listed.value == Since(inv.listed.value.at) && inv.listed.value.at <= clock)
    && (Author(log, c).Some? ==> CompletedSince(log, c, inv.lastFull))
    && (inv.listed.Some? ==> Confirms(log, c, Author(log, c).value, inv.lastFull, inv.listed.value.at))
    && (Author(log, c).Some? ==> forall p :: p in inv.objects ==>
          ResourceOk(log, clock, inv.config, c, Author(log, c).value, inv.lastFull, p, inv.objects[p]))
  }

  ghost predicate StagingOk(log: seq<Event>, clock: Time, config: Config, sid: SessionId, s: Session,
                            staging: map<Position, Resource>)
  {
    && OpenList(log, sid) == Some(Listing(s.syncId, s.started)) && |staging| <= MAX_INVENTORY && Facts(staging) == Sent(log, sid)
    && forall p :: p in staging ==> ResourceOk(log, clock, config, s.collector, sid, s.started, p, staging[p])
  }

  ghost predicate SessionOk(log: seq<Event>, clock: Time, inv: Inventory, sid: SessionId, s: Session) {
    && s.lastFrame <= clock && s.started <= clock
    && (s.closed ==> s.staging.None?)
    && (!s.closed ==> inv.active == Some(sid))
    && (!s.closed ==> (s.synced <==> Author(log, s.collector) == Some(sid)))
    && (!s.closed && s.staging.None? ==> OpenList(log, sid).None?)
    && (s.staging.Some? ==> StagingOk(log, clock, inv.config, sid, s, s.staging.value))
  }

  ghost predicate ActiveIsOpen(m: Mem) {
    forall c :: c in m.collectors && m.collectors[c].active.Some? ==>
      var sid := m.collectors[c].active.value;
      sid in m.sessions && m.sessions[sid].collector == c && !m.sessions[sid].closed
  }

  ghost predicate DisjointNamespaces(m: Mem) {
    forall c, d, ns | c in m.collectors && d in m.collectors && ns in m.collectors[c].config.namespaces
      :: ns in m.collectors[d].config.namespaces ==> c == d
  }

  ghost predicate InventoriesOk(m: Mem, log: seq<Event>, clock: Time) {
    forall c :: c in m.collectors ==> InventoryOk(log, clock, c, m.collectors[c])
  }

  ghost predicate SessionsOk(m: Mem, log: seq<Event>, clock: Time) {
    forall sid :: sid in m.sessions ==>
      m.sessions[sid].collector in m.collectors
      && SessionOk(log, clock, m.collectors[m.sessions[sid].collector], sid, m.sessions[sid])
  }

  ghost predicate LogOk(log: seq<Event>, clock: Time) {
    forall k :: 0 <= k < |log| ==> log[k].time <= clock
  }

  /** Frames are only accepted from sessions. */
  ghost predicate SpeakersKnown(m: Mem, log: seq<Event>) {
    forall k :: 0 <= k < |log| && log[k].Accepted? ==> log[k].session in m.sessions
  }

  ghost predicate EvidenceOk(m: Mem, log: seq<Event>, clock: Time) {
    && DisjointNamespaces(m) && ActiveIsOpen(m) && LogOk(log, clock) && SpeakersKnown(m, log)
    && InventoriesOk(m, log, clock) && SessionsOk(m, log, clock)
  }

  // ---------- Bindings ----------

  ghost predicate Removed(log: seq<Event>, since: nat, l: Location) {
    exists k: nat :: since <= k < |log| && Removes(log, k, l)
  }

  /** The last match of the binding, and no other at the same time. */
  predicate LastMatch(matches: set<Match>, b: Binding, loc: Location, at: nat) {
    && Match(b, loc, at) in matches
    && forall x :: x in matches && x.binding == b ==> x.at < at || x == Match(b, loc, at)
  }

  /** A binding has a location only from its last match, and absence evidence only from a removal after it. */
  ghost predicate Traced(b: Binding, loc: Location, absent: bool, log: seq<Event>, matches: set<Match>, since: nat) {
    LastMatch(matches, b, loc, since) && since <= |log| && (absent ==> Removed(log, since, loc))
  }

  ghost predicate BindingOk(id: string, b: Record, log: seq<Event>, matches: set<Match>, clock: Time) {
    && b.binding.installation == id
    && (b.absent.Some? ==> b.loc.Some? && b.absent.value == Since(b.absent.value.at) && b.absent.value.at <= clock)
    && (b.loc.Some? ==> exists since :: Traced(b.binding, b.loc.value, b.absent.Some?, log, matches, since))
  }

  /** The match still stands: the binding's one object is the one it was matched with. */
  ghost predicate Stands(m: Mem, x: Match) {
    && Candidates(m, x.binding) == {Candidate(x.loc.collector, x.loc.pos)} && Occupied(m, x.loc)
    && m.collectors[x.loc.collector].objects[x.loc.pos].o.uid == x.loc.uid
  }

  /** Matches are of the past, and those made since the last event still stand. */
  ghost predicate MatchesOk(m: Mem, log: seq<Event>, matches: set<Match>) {
    forall x :: x in matches ==> x.at <= |log| && (x.at == |log| ==> Stands(m, x))
  }

  ghost predicate BindingsOk(bindings: map<string, Record>, log: seq<Event>, matches: set<Match>, clock: Time) {
    forall id :: id in bindings ==> BindingOk(id, bindings[id], log, matches, clock)
  }

  /** The stored semantics are those of the stored views, and nothing that is matched is thought absent. */
  ghost predicate Current(m: Mem) {
    forall id :: id in m.bindings ==>
      m.bindings[id].semantic == Some(SemanticOf(m, m.bindings[id])) && (Matched(m, m.bindings[id]) ==> m.bindings[id].absent.None?)
  }

  ghost predicate Inv(w: World) {
    && 0 <= w.clock && EvidenceOk(w.mem, w.log, w.clock)
    && BindingsOk(w.mem.bindings, w.log, w.matches, w.clock)
    && |w.mem.bindings| <= MAX_BINDINGS && Current(w.mem) && MatchesOk(w.mem, w.log, w.matches)
  }
}
