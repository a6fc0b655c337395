/** The projection of evidence onto bindings: a function of little, idempotent, and blind to confirmations. */
module AppProjection {
  import opened Common
  import opened Observations
  import opened AppMemory
  import opened AppHistory
  import opened AppInvariant

  lemma SingletonIs<T>(xs: set<T>, x: T)
    requires |xs| == 1 && x in xs
    ensures xs == {x}
  {
    assert |xs - {x}| == 0;
    assert xs == {x} + (xs - {x});
  }

  lemma SettleUnique(m: Mem, b: Record, x: Candidate, now: Time)
    requires Candidates(m, b.binding) == {x}
    ensures x.collector in m.collectors && x.pos in m.collectors[x.collector].objects
    ensures Identifies(m.station, m.collectors[x.collector].objects[x.pos].o, b.binding)
    ensures Settle(m, b, now) == SettleOn(m, b, x, now)
  {
    hide SettleOn, Identifies;
    assert x in Candidates(m, b.binding);
  }

  lemma SettleCases(m: Mem, b: Record, now: Time) returns (x: Candidate)
    ensures var xs := Candidates(m, b.binding);
      || (|xs| > 1 && Settle(m, b, now) == Settled(b.loc, b.absent, CONFLICT))
      || (xs == {} && Settle(m, b, now) == SettleAlone(m, b, now))
      || (xs == {x} && x.collector in m.collectors && x.pos in m.collectors[x.collector].objects
          && Identifies(m.station, m.collectors[x.collector].objects[x.pos].o, b.binding)
          && Settle(m, b, now) == SettleOn(m, b, x, now))
  {
    hide SettleOn, SettleAlone, Identifies;
    var xs := Candidates(m, b.binding);
    if |xs| == 1 {
      x :| x in xs;
      SingletonIs(xs, x);
      SettleUnique(m, b, x, now);
    } else {
      x := Candidate("", Position("", ""));
    }
  }

  /** A projection moves a binding only onto its one object, and then drops the evidence of its absence. */
  lemma ProjectedPlace(m: Mem, b: Record, now: Time)
    ensures var b' := Projected(m, b, now);
      && b'.binding == b.binding && b'.semantic == Some(SemanticOf(m, b'))
      && ((b'.loc == b.loc && b'.absent == b.absent) || Matched(m, b'))
      && (Matched(m, b') ==> b'.absent.None?)
  {
    hide Settle, Candidates, Evaluate, RuntimeView;
    var x := SettleCases(m, b, now);
  }

  // ---------- Idempotence ----------

  lemma ProjectedTwice(m: Mem, b: Record, now: Time)
    ensures Projected(m, Projected(m, b, now), now) == Projected(m, b, now)
  {
    hide Settle, Candidates, Evaluate, RuntimeView, Identifies;
    var b' := Projected(m, b, now);
    var x := SettleCases(m, b, now);
    var x' := SettleCases(m, b', now);
    assert Settle(m, b', now) == Settle(m, b, now);
  }

  lemma NothingAdvanced(scopes: map<string, nat>, bindings: map<string, Record>)
    ensures Advanced(scopes, bindings, {}) == scopes
  {
    forall org | org in scopes ensures InOrganization(bindings, {}, org) == {} {
    }
  }

  /** Projecting again at the same instant changes nothing, neither a view nor a revision. */
  lemma ProjectAllIsIdempotent(m: Mem, now: Time)
    ensures ProjectAll(ProjectAll(m, now), now) == ProjectAll(m, now)
  {
    hide Projected, Advanced;
    var m' := ProjectAll(m, now);
    forall id | id in m'.bindings ensures Projected(m', m'.bindings[id], now) == m'.bindings[id] {
      ProjectedTwice(m, m.bindings[id], now);
      SameEvidence(m, m', m'.bindings[id], now);
    }
    assert Moved(m', now) == {};
    NothingAdvanced(m'.scopes, m'.bindings);
    assert ProjectAll(m', now).bindings == m'.bindings;
  }

  // ---------- Locality ----------

  lemma SameEvidence(m: Mem, m': Mem, b: Record, now: Time)
    requires m'.station == m.station && m'.collectors == m.collectors
    ensures Projected(m', b, now) == Projected(m, b, now)
    ensures Candidates(m', b.binding) == Candidates(m, b.binding) && SemanticOf(m', b) == SemanticOf(m, b)
    ensures Matched(m', b) <==> Matched(m, b)
  {
    hide Evaluate, RuntimeView, Identifies;
    assert Candidates(m', b.binding) == Candidates(m, b.binding);
    var x := SettleCases(m, b, now);
    var x' := SettleCases(m', b, now);
    hide Candidates, Settle;
  }

  /** The two caches agree on an object at a place, or both have none there. */
  predicate SameAt(m: Mem, m': Mem, collector: string, pos: Position) {
    && (Occupied(m, Location(collector, pos, "")) <==> Occupied(m', Location(collector, pos, "")))
    && (Occupied(m, Location(collector, pos, "")) ==> m'.collectors[collector].objects[pos] == m.collectors[collector].objects[pos])
  }

  /**
   * What a projection makes of a binding depends on nothing but its record, the
   * configuration, the objects that carry its identity and the object at its last position.
   */
  lemma ProjectionIsLocal(m: Mem, m': Mem, b: Record, now: Time)
    requires m'.station == m.station && m'.collectors.Keys == m.collectors.Keys
    requires forall c :: c in m.collectors ==> m'.collectors[c].config == m.collectors[c].config
    requires Candidates(m', b.binding) == Candidates(m, b.binding)
    requires forall x :: x in Candidates(m, b.binding) ==> SameAt(m, m', x.collector, x.pos)
    requires b.loc.Some? ==> SameAt(m, m', b.loc.value.collector, b.loc.value.pos)
    ensures Projected(m', b, now) == Projected(m, b, now)
  {
    hide Settle, Candidates, Evaluate, RuntimeView, Identifies;
    var x := SettleCases(m, b, now);
    var x' := SettleCases(m', b, now);
  }

  // ---------- Confirmations ----------

  /** Everything the collector reports is still believed at this instant. */
  ghost predicate AllFresh(m: Mem, c: string, now: Time)
    requires c in m.collectors
  {
    && (forall p :: p in m.collectors[c].objects ==> var r := m.collectors[c].objects[p];
          r.received <= now < r.expires && r.expires == r.received + TTL)
    && (forall id :: id in m.bindings && m.bindings[id].absent.Some? ==>
          m.bindings[id].absent.value.at <= now < m.bindings[id].absent.value.expires)
  }

  /** The cache as it is after a heartbeat of the session, before the projection. */
  ghost predicate IsHeartbeat(m: Mem, m': Mem, c: string, now: Time)
    requires c in m.collectors
  {
    && m'.station == m.station && m'.scopes == m.scopes && m'.collectors.Keys == m.collectors.Keys
    && (forall d :: d in m.collectors && d != c ==> m'.collectors[d] == m.collectors[d])
    && m'.collectors[c] == m.collectors[c].(objects := Confirmed(m.collectors[c].objects, now), listed := m'.collectors[c].listed)
    && m'.bindings == Missing(m.bindings, KnownAbsent(m.bindings, c), now)
  }

  lemma HeartbeatCandidates(m: Mem, m': Mem, c: string, now: Time, b: Binding)
    requires c in m.collectors && IsHeartbeat(m, m', c, now)
    ensures Candidates(m', b) == Candidates(m, b)
  {
    hide Missing, KnownAbsent;
  }

  /** Two views that differ in nothing but when their evidence was received. */
  predicate SameMeaning(v: Runtime, v': Runtime) {
    v' == v.(observedAt := v'.observedAt, expiresAt := v'.expiresAt)
  }

  /** A heartbeat leaves every place occupied or free, by the same object. */
  lemma HeartbeatPlaces(m: Mem, m': Mem, c: string, now: Time, l: Location)
    requires c in m.collectors && IsHeartbeat(m, m', c, now) && AllFresh(m, c, now)
    ensures Occupied(m, l) <==> Occupied(m', l)
    ensures Occupied(m, l) ==>
      var r, r' := m.collectors[l.collector].objects[l.pos], m'.collectors[l.collector].objects[l.pos];
      r'.o == r.o && Fact(r', now) == Fact(r, now) && m'.collectors[l.collector].config == m.collectors[l.collector].config
      && (r' == r || (r.received <= now < r.expires && r.expires > r.received && r'.received <= now < r'.expires
                      && r'.expires > r'.received))
  {
    hide Missing, KnownAbsent;
  }

  lemma HeartbeatSettlesOn(m: Mem, m': Mem, c: string, now: Time, b: Record, b': Record, x: Candidate)
    requires c in m.collectors && IsHeartbeat(m, m', c, now) && AllFresh(m, c, now)
    requires x.collector in m.collectors && x.pos in m.collectors[x.collector].objects
    requires x.collector in m'.collectors && x.pos in m'.collectors[x.collector].objects
    requires b' == b.(absent := b'.absent)
    ensures var s, s' := SettleOn(m, b, x, now), SettleOn(m', b', x, now);
      s'.loc == s.loc && SameMeaning(s.view, s'.view)
  {
    HeartbeatPlaces(m, m', c, now, Location(x.collector, x.pos, ""));
    if b.loc.Some? { HeartbeatPlaces(m, m', c, now, b.loc.value); }
    hide IsHeartbeat, AllFresh, Evaluate, Fact;
  }

  lemma HeartbeatSettlesAlone(m: Mem, m': Mem, c: string, now: Time, b: Record, b': Record)
    requires c in m.collectors && IsHeartbeat(m, m', c, now) && AllFresh(m, c, now)
    requires b.absent.Some? ==> b.absent.value.at <= now < b.absent.value.expires
    requires b' == b || (b.absent.Some? && b' == b.(absent := Some(Since(now))))
    ensures var s, s' := SettleAlone(m, b, now), SettleAlone(m', b', now);
      s'.loc == s.loc && SameMeaning(s.view, s'.view)
  {
    hide AllFresh, Missing, KnownAbsent;
    if b.loc.Some? { HeartbeatPlaces(m, m', c, now, b.loc.value); }
  }

  lemma HeartbeatSettles(m: Mem, m': Mem, c: string, now: Time, b: Record, b': Record)
    requires c in m.collectors && IsHeartbeat(m, m', c, now) && AllFresh(m, c, now)
    requires b.absent.Some? ==> b.absent.value.at <= now < b.absent.value.expires
    requires b' == b || (b.absent.Some? && b' == b.(absent := Some(Since(now))))
    ensures var s, s' := Settle(m, b, now), Settle(m', b', now);
      s'.loc == s.loc && SameMeaning(s.view, s'.view)
  {
    hide AllFresh, Settle, SettleOn, SettleAlone, IsHeartbeat, Candidates, Identifies;
    HeartbeatCandidates(m, m', c, now, b.binding);
    var x := SettleCases(m, b, now);
    var x' := SettleCases(m', b', now);
    if Candidates(m, b.binding) == {x} {
      assert x in Candidates(m', b'.binding) && x == x';
      HeartbeatSettlesOn(m, m', c, now, b, b', x);
    } else if Candidates(m, b.binding) == {} {
      HeartbeatSettlesAlone(m, m', c, now, b, b');
    }
  }

  lemma HeartbeatProjects(m: Mem, m': Mem, c: string, now: Time, b: Record, b': Record)
    requires c in m.collectors && IsHeartbeat(m, m', c, now) && AllFresh(m, c, now)
    requires b.absent.Some? ==> b.absent.value.at <= now < b.absent.value.expires
    requires b' == b || (b.absent.Some? && b' == b.(absent := Some(Since(now))))
    requires Projected(m, b, now) == b
    ensures var after := Projected(m', b', now);
      after.revision == b.revision && after.semantic == b.semantic && SameMeaning(b.view, after.view)
  {
    hide AllFresh, Missing, KnownAbsent, Identifies;
    HeartbeatSettles(m, m', c, now, b, b');
    hide Settle;
  }

  /**
   * A heartbeat accepted when nothing has expired and the projection is current
   * confirms evidence and advances no revision, of an installation or a scope.
   */
  lemma QuietHeartbeat(m: Mem, sid: SessionId, now: Time)
    requires Has(m, sid) && Apply(m, sid, Heartbeat, now).1.None? && ProjectAll(m, now) == m
    requires AllFresh(m, m.sessions[sid].collector, now)
    ensures var m' := Apply(m, sid, Heartbeat, now).0;
      && m'.scopes == m.scopes && m'.bindings.Keys == m.bindings.Keys
      && forall id :: id in m.bindings ==>
           m'.bindings[id].revision == m.bindings[id].revision && SameMeaning(m.bindings[id].view, m'.bindings[id].view)
  {
    hide Projected, Advanced, AllFresh;
    var c := m.sessions[sid].collector;
    var beaten := Heard(HandleHeartbeat(m, sid, now).value, sid, now);
    assert IsHeartbeat(m, beaten, c, now);
    forall id | id in m.bindings
      ensures var after := Projected(beaten, beaten.bindings[id], now);
        && after.revision == m.bindings[id].revision && after.semantic == m.bindings[id].semantic
        && SameMeaning(m.bindings[id].view, after.view)
      ensures beaten.bindings[id].semantic == m.bindings[id].semantic
    {
      assert ProjectAll(m, now).bindings[id] == Projected(m, m.bindings[id], now);
      if m.bindings[id].absent.Some? { FreshAbsence(m, c, now, id); }
      HeartbeatProjects(m, beaten, c, now, m.bindings[id], beaten.bindings[id]);
    }
    assert Moved(beaten, now) == {};
    NothingAdvanced(beaten.scopes, beaten.bindings);
  }

  lemma FreshAbsence(m: Mem, c: string, now: Time, id: string)
    requires c in m.collectors && AllFresh(m, c, now) && id in m.bindings && m.bindings[id].absent.Some?
    ensures m.bindings[id].absent.value.at <= now < m.bindings[id].absent.value.expires
  {
  }
}
