/** Every call on the cache keeps the whole invariant. */
module AppSteps {
  import opened Common
  import opened Observations
  import opened AppMemory
  import opened AppHistory
  import opened AppInvariant
  import opened AppEvidence
  import opened AppProjection

  // ---------- One binding ----------

  lemma RemovesStays(log: seq<Event>, log': seq<Event>, k: nat, l: Location)
    requires log <= log' && k < |log|
    ensures Removes(log', k, l) == Removes(log, k, l)
  {
    assert log'[..k] == log[..k] && log'[k] == log[k];
  }

  lemma RemovedStays(log: seq<Event>, log': seq<Event>, since: nat, l: Location)
    requires log <= log' && Removed(log, since, l)
    ensures Removed(log', since, l)
  {
    hide Removes;
    var k: nat :| since <= k < |log| && Removes(log, k, l);
    RemovesStays(log, log', k, l);
  }

  lemma BindingStays(id: string, b: Record, log: seq<Event>, log': seq<Event>, matches: set<Match>, clock: Time, now: Time)
    requires BindingOk(id, b, log, matches, clock) && log <= log' && clock <= now
    ensures BindingOk(id, b, log', matches, now)
  {
    hide Removed, LastMatch;
    if b.loc.Some? {
      var since :| Traced(b.binding, b.loc.value, b.absent.Some?, log, matches, since);
      if b.absent.Some? { RemovedStays(log, log', since, b.loc.value); }
      assert Traced(b.binding, b.loc.value, b.absent.Some?, log', matches, since);
    }
  }

  /** A binding that is told its object is missing, by a removal now or by one before. */
  lemma BindingMissing(id: string, b: Record, log: seq<Event>, e: Event, matches: set<Match>, clock: Time)
    requires BindingOk(id, b, log, matches, clock) && clock <= e.time && b.loc.Some?
    requires b.absent.Some? || Removes(log + [e], |log|, b.loc.value)
    ensures BindingOk(id, b.(absent := Some(Since(e.time))), log + [e], matches, e.time)
  {
    hide Removes, LastMatch;
    var since :| Traced(b.binding, b.loc.value, b.absent.Some?, log, matches, since);
    if b.absent.Some? {
      RemovedStays(log, log + [e], since, b.loc.value);
    }
    assert Removed(log + [e], since, b.loc.value);
    assert Traced(b.binding, b.loc.value, true, log + [e], matches, since);
  }

  // ---------- Frames ----------

  lemma MissingKeeps(bindings: map<string, Record>, gone: set<string>, log: seq<Event>, e: Event, matches: set<Match>, clock: Time)
    requires BindingsOk(bindings, log, matches, clock) && clock <= e.time
    requires forall id :: id in gone && id in bindings ==>
      bindings[id].loc.Some? && (bindings[id].absent.Some? || Removes(log + [e], |log|, bindings[id].loc.value))
    ensures BindingsOk(Missing(bindings, gone, e.time), log + [e], matches, e.time)
  {
    hide BindingOk, Removes;
    var after := Missing(bindings, gone, e.time);
    forall id | id in after ensures BindingOk(id, after[id], log + [e], matches, e.time) {
      if id in gone {
        BindingMissing(id, bindings[id], log, e, matches, clock);
      } else {
        BindingStays(id, bindings[id], log, log + [e], matches, clock, e.time);
      }
    }
  }

  /** A completed list removes every position it does not have. */
  lemma EndRemoves(log: seq<Event>, clock: Time, e: Event, inv: Inventory, s: Session, l: Location)
    requires e.Accepted? && e.frame.End? && s.staging.Some? && SessionOk(log, clock, inv, e.session, s)
    requires l.collector == e.collector && l.pos !in s.staging.value
    ensures Removes(log + [e], |log|, l)
  {
    hide ResourceOk;
    assert (log + [e])[..|log|] == log;
    assert Facts(s.staging.value).Keys == s.staging.value.Keys;
  }

  lemma FrameKeepsBindings(m: Mem, log: seq<Event>, matches: set<Match>, clock: Time, sid: SessionId, f: Frame, now: Time)
    requires EvidenceOk(m, log, clock) && BindingsOk(m.bindings, log, matches, clock) && clock <= now
    requires Has(m, sid) && Handle(m, sid, f, now).Ok?
    ensures BindingsOk(Handle(m, sid, f, now).value.bindings, log + [Accepted(now, m.sessions[sid].collector, sid, f)], matches, now)
  {
    hide BindingOk, SessionOk, InventoriesOk, PutAll, ChunkOk, ValidResource, ValidLocation, Sample, Missing, Confirmed, IsId;
    var e := Accepted(now, m.sessions[sid].collector, sid, f);
    var s := m.sessions[sid];
    match f {
      case End(_, _) =>
        var gone := Unlisted(m.bindings, s.collector, s.staging.value);
        forall id | id in gone ensures Removes(log + [e], |log|, m.bindings[id].loc.value) {
          EndRemoves(log, clock, e, m.collectors[s.collector], s, m.bindings[id].loc.value);
        }
        hide Removes;
        MissingKeeps(m.bindings, gone, log, e, matches, clock);
      case Delete(pos, uid) =>
        var l := Location(s.collector, pos, uid);
        assert Removes(log + [e], |log|, l);
        hide Removes;
        MissingKeeps(m.bindings, BoundTo(m.bindings, l), log, e, matches, clock);
        UnchangedKeeps(m.bindings, log, e, matches, clock);
      case Heartbeat =>
        hide Removes;
        MissingKeeps(m.bindings, KnownAbsent(m.bindings, s.collector), log, e, matches, clock);
      case _ =>
        hide Removes;
        UnchangedKeeps(m.bindings, log, e, matches, clock);
    }
  }

  lemma UnchangedKeeps(bindings: map<string, Record>, log: seq<Event>, e: Event, matches: set<Match>, clock: Time)
    requires BindingsOk(bindings, log, matches, clock) && clock <= e.time
    ensures BindingsOk(bindings, log + [e], matches, e.time)
  {
    hide Removes;
    MissingKeeps(bindings, {}, log, e, matches, clock);
    assert Missing(bindings, {}, e.time) == bindings;
  }

  // ---------- Projection ----------

  lemma EvidenceOfTables(m: Mem, m': Mem, log: seq<Event>, clock: Time)
    requires EvidenceOk(m, log, clock) && m'.collectors == m.collectors && m'.sessions == m.sessions
    ensures EvidenceOk(m', log, clock)
  {
    hide InventoryOk, SessionOk;
  }

  /** A match stands as long as the objects it can see are the same. */
  lemma StandsStays(m: Mem, m': Mem, x: Match)
    requires Stands(m, x) && m'.station == m.station && m'.collectors.Keys == m.collectors.Keys
    requires forall c :: c in m.collectors ==> m'.collectors[c].objects == m.collectors[c].objects
    ensures Stands(m', x)
  {
    hide Identifies;
    assert Candidates(m', x.binding) == Candidates(m, x.binding);
  }

  lemma MatchesStay(m: Mem, m': Mem, log: seq<Event>, matches: set<Match>)
    requires MatchesOk(m, log, matches) && m'.station == m.station && m'.collectors.Keys == m.collectors.Keys
    requires forall c :: c in m.collectors ==> m'.collectors[c].objects == m.collectors[c].objects
    ensures MatchesOk(m', log, matches)
  {
    hide Stands;
    forall x | x in matches && x.at == |log| ensures Stands(m', x) {
      StandsStays(m, m', x);
    }
  }

  /** An event is news to every match made before it. */
  lemma MatchesAge(m: Mem, m': Mem, log: seq<Event>, e: Event, matches: set<Match>)
    requires MatchesOk(m, log, matches)
    ensures MatchesOk(m', log + [e], matches)
  {
    hide Stands;
  }

  lemma MatchedStands(m: Mem, b: Record, at: nat)
    requires Matched(m, b)
    ensures b.loc.Some? && Stands(m, Match(b.binding, b.loc.value, at))
  {
    hide Candidates, Identifies;
  }

  lemma MatchOf(m: Mem, length: nat, x: Match) returns (id: string)
    requires x in MatchesOf(m, length)
    ensures id in m.bindings && Matched(m, m.bindings[id]) && x == Match(m.bindings[id].binding, m.bindings[id].loc.value, length)
  {
    hide Candidates, Held;
    id :| id in m.bindings && Matched(m, m.bindings[id]) && Match(m.bindings[id].binding, m.bindings[id].loc.value, length) == x;
  }

  lemma NewMatchesOk(m: Mem, log: seq<Event>, matches: set<Match>)
    requires MatchesOk(m, log, matches)
    ensures MatchesOk(m, log, matches + MatchesOf(m, |log|))
  {
    hide Stands, Matched, MatchesOf;
    forall x | x in MatchesOf(m, |log|) ensures x.at == |log| && Stands(m, x) {
      var id := MatchOf(m, |log|, x);
      MatchedStands(m, m.bindings[id], |log|);
    }
  }

  /** Two standing matches of one binding are one. */
  lemma OneStands(m: Mem, x: Match, y: Match)
    requires Stands(m, x) && Stands(m, y) && x.binding == y.binding && x.at == y.at
    ensures x == y
  {
    hide Candidates;
    assert Candidate(x.loc.collector, x.loc.pos) in Candidates(m, y.binding);
  }

  /** What a binding's matches are after the matches of this world are recorded. */
  lemma BindingRecorded(id: string, m: Mem, log: seq<Event>, matches: set<Match>, now: Time)
    requires id in m.bindings && MatchesOk(m, log, matches) && (forall i :: i in m.bindings ==> m.bindings[i].binding.installation == i)
    requires Matched(m, m.bindings[id]) ==> m.bindings[id].absent.None?
    requires Matched(m, m.bindings[id]) || BindingOk(id, m.bindings[id], log, matches, now)
    ensures BindingOk(id, m.bindings[id], log, matches + MatchesOf(m, |log|), now)
  {
    hide Matched, Removed, Stands;
    var b, matches' := m.bindings[id], matches + MatchesOf(m, |log|);
    if Matched(m, b) {
      MatchedStands(m, b, |log|);
      var own := Match(b.binding, b.loc.value, |log|);
      assert own in matches';
      forall x | x in matches' && x.binding == b.binding ensures x.at < |log| || x == own {
        if x in MatchesOf(m, |log|) {
          var i := MatchOf(m, |log|, x);
          assert i == id;
        } else if x.at == |log| {
          OneStands(m, x, own);
        }
      }
      assert LastMatch(matches', b.binding, b.loc.value, |log|);
      assert Traced(b.binding, b.loc.value, false, log, matches', |log|);
    } else if b.loc.Some? {
      var since :| Traced(b.binding, b.loc.value, b.absent.Some?, log, matches, since);
      forall x | x in MatchesOf(m, |log|) ensures x.binding != b.binding {
        var i := MatchOf(m, |log|, x);
        assert i != id;
      }
      assert LastMatch(matches', b.binding, b.loc.value, since);
      assert Traced(b.binding, b.loc.value, b.absent.Some?, log, matches', since);
    }
  }

  lemma KeyedOf(bindings: map<string, Record>, log: seq<Event>, matches: set<Match>, now: Time)
    requires BindingsOk(bindings, log, matches, now)
    ensures forall id :: id in bindings ==> bindings[id].binding.installation == id
  {
    hide Traced;
  }

  lemma ProjectKeeps(m: Mem, log: seq<Event>, matches: set<Match>, now: Time)
    requires EvidenceOk(m, log, now) && BindingsOk(m.bindings, log, matches, now) && MatchesOk(m, log, matches)
    ensures var m' := ProjectAll(m, now);
      && EvidenceOk(m', log, now) && Current(m') && m'.bindings.Keys == m.bindings.Keys
      && BindingsOk(m'.bindings, log, matches + MatchesOf(m', |log|), now)
      && MatchesOk(m', log, matches + MatchesOf(m', |log|))
  {
    hide InventoriesOk, SessionsOk, DisjointNamespaces, ActiveIsOpen, LogOk, Projected, BindingOk, Advanced, MatchesOk, MatchesOf, Matched;
    var m' := ProjectAll(m, now);
    EvidenceOfTables(m, m', log, now);
    MatchesStay(m, m', log, matches);
    NewMatchesOk(m', log, matches);
    KeyedOf(m.bindings, log, matches, now);
    forall id | id in m'.bindings
      ensures m'.bindings[id].binding == m.bindings[id].binding
      ensures m'.bindings[id].semantic == Some(SemanticOf(m', m'.bindings[id]))
      ensures Matched(m', m'.bindings[id]) ==> m'.bindings[id].absent.None?
      ensures Matched(m', m'.bindings[id]) || BindingOk(id, m'.bindings[id], log, matches, now)
    {
      ProjectedPlace(m, m.bindings[id], now);
      SameEvidence(m, m', m'.bindings[id], now);
      if !Matched(m', m'.bindings[id]) { SamePlaceOk(id, m.bindings[id], m'.bindings[id], log, matches, now); }
    }
    forall id | id in m'.bindings ensures BindingOk(id, m'.bindings[id], log, matches + MatchesOf(m', |log|), now) {
      BindingRecorded(id, m', log, matches, now);
    }
  }

  lemma SamePlaceOk(id: string, b: Record, b': Record, log: seq<Event>, matches: set<Match>, now: Time)
    requires BindingOk(id, b, log, matches, now) && b'.binding == b.binding && b'.loc == b.loc && b'.absent == b.absent
    ensures BindingOk(id, b', log, matches, now)
  {
    hide Traced;
  }

  // ---------- Steps ----------

  /** A call that projects nothing: bindings and objects are as they were. */
  lemma IdleKeeps(w: World, w': World)
    requires Inv(w) && w.clock <= w'.clock && w.log == w'.log && w'.matches == w.matches + MatchesOf(w'.mem, |w'.log|)
    requires EvidenceOk(w'.mem, w'.log, w'.clock) && w'.mem.bindings == w.mem.bindings && w'.mem.station == w.mem.station
    requires w'.mem.collectors.Keys == w.mem.collectors.Keys
    requires forall c :: c in w.mem.collectors ==> w'.mem.collectors[c].objects == w.mem.collectors[c].objects
    ensures Inv(w')
  {
    hide EvidenceOk, BindingOk, MatchesOk, MatchesOf, Matched;
    MatchesStay(w.mem, w'.mem, w.log, w.matches);
    NewMatchesOk(w'.mem, w'.log, w.matches);
    KeyedOf(w.mem.bindings, w.log, w.matches, w.clock);
    forall id | id in w'.mem.bindings
      ensures BindingOk(id, w'.mem.bindings[id], w'.log, w'.matches, w'.clock)
      ensures w'.mem.bindings[id].semantic == Some(SemanticOf(w'.mem, w'.mem.bindings[id]))
      ensures Matched(w'.mem, w'.mem.bindings[id]) ==> w'.mem.bindings[id].absent.None?
    {
      SameObjects(w.mem, w'.mem, w.mem.bindings[id]);
      BindingStays(id, w.mem.bindings[id], w.log, w'.log, w.matches, w.clock, w'.clock);
      BindingRecorded(id, w'.mem, w'.log, w.matches, w'.clock);
    }
  }

  lemma SameObjects(m: Mem, m': Mem, b: Record)
    requires m'.station == m.station && m'.collectors.Keys == m.collectors.Keys
    requires forall c :: c in m.collectors ==> m'.collectors[c].objects == m.collectors[c].objects
    ensures SemanticOf(m', b) == SemanticOf(m, b) && (Matched(m', b) <==> Matched(m, b))
  {
    hide Identifies;
    assert Candidates(m', b.binding) == Candidates(m, b.binding);
  }

  lemma CloseIsIdle(m: Mem, sid: SessionId)
    ensures var m' := CloseSession(m, sid);
      && m'.bindings == m.bindings && m'.station == m.station && m'.scopes == m.scopes
      && m'.collectors.Keys == m.collectors.Keys && m'.sessions.Keys == m.sessions.Keys
      && forall c :: c in m.collectors ==> m'.collectors[c].objects == m.collectors[c].objects
                                           && m'.collectors[c].config == m.collectors[c].config
  {
  }

  lemma OpenIsIdle(m: Mem, collector: string, sid: SessionId, now: Time)
    requires Open(m, collector, sid, now).Ok?
    ensures var m' := Open(m, collector, sid, now).value;
      && m'.bindings == m.bindings && m'.station == m.station && m'.scopes == m.scopes
      && m'.collectors.Keys == m.collectors.Keys
      && forall c :: c in m.collectors ==> m'.collectors[c].objects == m.collectors[c].objects
                                           && m'.collectors[c].config == m.collectors[c].config
  {
    hide CloseSession, Live;
    var prior := m.collectors[collector].active;
    if prior.Some? { CloseIsIdle(m, prior.value); }
  }

  lemma SameLater(m: Mem, log: seq<Event>, clock: Time, now: Time)
    requires EvidenceOk(m, log, clock) && clock <= now
    ensures EvidenceOk(m, log, now)
  {
    hide InventoriesOk, SessionsOk;
    AllOpenActive(m, log, clock);
    QuietKeeps(m, m, log, clock, now);
  }

  lemma BindingsLater(bindings: map<string, Record>, log: seq<Event>, matches: set<Match>, clock: Time, now: Time)
    requires BindingsOk(bindings, log, matches, clock) && clock <= now
    ensures BindingsOk(bindings, log, matches, now)
  {
    hide BindingOk;
    forall id | id in bindings ensures BindingOk(id, bindings[id], log, matches, now) {
      BindingStays(id, bindings[id], log, log, matches, clock, now);
    }
  }

  /** A call that ends with a projection: it is enough to look at the tables before it. */
  lemma ProjectingKeeps(w: World, s: Step, m: Mem)
    requires Inv(w) && Enabled(w, s) && NextMem(w.mem, s) == ProjectAll(m, s.now)
    requires var log := w.log + Logged(w.mem, s);
      EvidenceOk(m, log, s.now) && BindingsOk(m.bindings, log, w.matches, s.now) && |m.bindings| <= MAX_BINDINGS
      && MatchesOk(m, log, w.matches)
    ensures Inv(Next(w, s))
  {
    hide EvidenceOk, BindingsOk, Current, NextMem, Logged, ProjectAll, MatchesOf, MatchesOk;
    ProjectKeeps(m, w.log + Logged(w.mem, s), w.matches, s.now);
    SameSize(ProjectAll(m, s.now).bindings, m.bindings);
  }

  lemma SameSize<K, V>(a: map<K, V>, b: map<K, V>)
    requires a.Keys == b.Keys
    ensures |a| == |b|
  {
    assert |a| == |a.Keys| && |b| == |b.Keys|;
  }

  lemma FrameStepKeeps(w: World, s: Step)
    requires Inv(w) && Enabled(w, s) && s.act.FrameAct?
    ensures Inv(Next(w, s))
  {
    hide EvidenceOk, BindingsOk, Current, ProjectAll, MatchesOf, MatchesOk, Live, CloseSession, Handle, Heard;
    var sid, f := s.act.sid, s.act.frame;
    if Accepts(w.mem, s) {
      LiveHas(w.mem, sid, s.now);
      FrameKeeps(w.mem, w.log, w.clock, sid, f, s.now);
      FrameKeepsBindings(w.mem, w.log, w.matches, w.clock, sid, f, s.now);
      HandleTouches(w.mem, sid, f, s.now);
      var m := Heard(Handle(w.mem, sid, f, s.now).value, sid, s.now);
      HeardBindings(Handle(w.mem, sid, f, s.now).value, sid, s.now);
      SameSize(m.bindings, w.mem.bindings);
      MatchesAge(w.mem, m, w.log, Accepted(s.now, w.mem.sessions[sid].collector, sid, f), w.matches);
      ProjectingKeeps(w, s, m);
    } else {
      assert w.log + Logged(w.mem, s) == w.log;
      CloseKeeps(w.mem, w.log, w.clock, sid, s.now);
      CloseIsIdle(w.mem, sid);
      IdleKeeps(w, Next(w, s));
    }
  }

  lemma LiveHas(m: Mem, sid: SessionId, now: Time)
    requires Live(m, sid, now)
    ensures Has(m, sid) && !m.sessions[sid].closed
  {
  }

  lemma HeardBindings(m: Mem, sid: SessionId, now: Time)
    ensures Heard(m, sid, now).bindings == m.bindings
  {
  }

  lemma FewerKeys<K, V>(m: map<K, V>, wanted: set<K>)
    requires m.Keys <= wanted
    ensures |m| <= |wanted|
  {
    FewerKept(m.Keys, wanted);
  }

  lemma AddedIs(m: Mem, bindings: seq<Binding>)
    requires RequestOk(m, bindings)
    ensures Added(m, bindings).Keys == Ids(bindings) - m.bindings.Keys
    ensures forall id :: id in Added(m, bindings) ==>
      var b := Added(m, bindings)[id]; b == NewRecord(b.binding) && b.binding.installation == id && b.binding in bindings
  {
  }

  lemma Merged<K, V>(a: map<K, V>, dropped: set<K>, b: map<K, V>)
    ensures ((a - dropped) + b).Keys == (a.Keys - dropped) + b.Keys && (a + b).Keys == a.Keys + b.Keys
    ensures forall k :: k in (a - dropped) + b ==> ((a - dropped) + b)[k] == if k in b then b[k] else a[k]
    ensures forall k :: k in a + b ==> (a + b)[k] == if k in b then b[k] else a[k]
  {
  }

  /** Room is made for the request: the bindings never exceed the cap. */
  lemma RegisterCap(m: Mem, bindings: seq<Binding>)
    requires Register(m, bindings).Ok?
    ensures |Register(m, bindings).value.bindings| <= MAX_BINDINGS
  {
    AddedIs(m, bindings);
    hide RequestOk, Added, Advanced, Ids;
    var m', added := Register(m, bindings).value, Added(m, bindings);
    Merged(m.bindings, m.bindings.Keys - Ids(bindings), added);
    if |m.bindings| + |added| > MAX_BINDINGS {
      assert m'.bindings.Keys <= Ids(bindings);
      FewerKeys(m'.bindings, Ids(bindings));
    } else {
      SumOfKeys(m.bindings, added);
    }
  }

  lemma RegisterForm(m: Mem, bindings: seq<Binding>)
    requires Register(m, bindings).Ok?
    ensures RequestOk(m, bindings)
    ensures var m' := Register(m, bindings).value;
      && m' == m.(bindings := m'.bindings, scopes := m'.scopes)
      && (|| (m'.bindings == m.bindings + Added(m, bindings) && m'.scopes == m.scopes)
          || (m'.bindings == (m.bindings - (m.bindings.Keys - Ids(bindings))) + Added(m, bindings)
              && m'.scopes == Advanced(m.scopes, m.bindings, m.bindings.Keys - Ids(bindings))))
  {
    hide RequestOk, Added, Advanced, Ids;
  }

  /** A registered binding is the tracked one or a new one; every requested installation is tracked. */
  lemma RegisterRows(m: Mem, bindings: seq<Binding>)
    requires Register(m, bindings).Ok?
    ensures var m' := Register(m, bindings).value;
      && m'.collectors == m.collectors && m'.sessions == m.sessions && m'.station == m.station
      && Ids(bindings) <= m'.bindings.Keys
      && (forall id :: id in m'.bindings ==>
            if id in m.bindings then m'.bindings[id] == m.bindings[id]
            else m'.bindings[id] == NewRecord(m'.bindings[id].binding) && m'.bindings[id].binding.installation == id)
  {
    RegisterForm(m, bindings);
    AddedIs(m, bindings);
    Merged(m.bindings, m.bindings.Keys - Ids(bindings), Added(m, bindings));
    hide RequestOk, Added, Advanced, Ids, Register;
  }

  /** Every requested installation is tracked under exactly the requested identity. */
  lemma RegisterTracks(m: Mem, bindings: seq<Binding>, b: Binding)
    requires Register(m, bindings).Ok? && b in bindings
    ensures var m' := Register(m, bindings).value; b.installation in m'.bindings && m'.bindings[b.installation].binding == b
  {
    RequestedKnown(m, bindings, b);
    hide RequestOk, Added, Advanced;
    assert b.installation in Ids(bindings);
  }

  lemma RegisterKeeps(m: Mem, bindings: seq<Binding>, log: seq<Event>, matches: set<Match>, clock: Time)
    requires BindingsOk(m.bindings, log, matches, clock) && Register(m, bindings).Ok?
    ensures var m' := Register(m, bindings).value;
      && m'.collectors == m.collectors && m'.sessions == m.sessions && m'.station == m.station
      && BindingsOk(m'.bindings, log, matches, clock) && |m'.bindings| <= MAX_BINDINGS
  {
    hide Traced, Register;
    RegisterRows(m, bindings);
    RegisterCap(m, bindings);
  }

  lemma SumOfKeys<K, V>(a: map<K, V>, b: map<K, V>)
    requires a.Keys !! b.Keys
    ensures |a + b| == |a| + |b|
  {
    assert (a + b).Keys == a.Keys + b.Keys;
  }

  lemma RequestedKnown(m: Mem, bindings: seq<Binding>, b: Binding)
    requires RequestOk(m, bindings) && b in bindings
    ensures if b.installation in m.bindings then m.bindings[b.installation].binding == b
            else b.installation in Added(m, bindings) && Added(m, bindings)[b.installation] == NewRecord(b)
  {
  }

  lemma ForgetKeepsBindings(m: Mem, log: seq<Event>, e: Event, matches: set<Match>, clock: Time)
    requires BindingsOk(m.bindings, log, matches, clock) && clock <= e.time && e.Cleared?
    ensures BindingsOk(Forget(m, e.app, e.target).bindings, log + [e], matches, e.time)
  {
    hide Traced;
    UnchangedKeeps(m.bindings, log, e, matches, clock);
  }

  lemma StepKeepsInvariant(w: World, s: Step)
    requires Inv(w) && Enabled(w, s)
    ensures Inv(Next(w, s))
  {
    hide EvidenceOk, BindingsOk, Current, ProjectAll, MatchesOf, MatchesOk, Open, CloseSession, Apply, Register, CloseStale, Forget;
    var m, now := w.mem, s.now;
    match s.act {
      case OpenAct(collector, sid) =>
        if Open(m, collector, sid, now).Ok? {
          OpenKeeps(m, w.log, w.clock, collector, sid, now);
          OpenIsIdle(m, collector, sid, now);
        } else {
          SameLater(m, w.log, w.clock, now);
        }
        IdleKeeps(w, Next(w, s));
      case CloseAct(sid) =>
        CloseKeeps(m, w.log, w.clock, sid, now);
        CloseIsIdle(m, sid);
        IdleKeeps(w, Next(w, s));
      case FrameAct(_, _) => FrameStepKeeps(w, s);
      case ReadAct(bindings) =>
        SameLater(m, w.log, w.clock, now);
        if Register(m, bindings).Ok? {
          BindingsLater(m.bindings, w.log, w.matches, w.clock, now);
          RegisterKeeps(m, bindings, w.log, w.matches, now);
          EvidenceOfTables(m, Register(m, bindings).value, w.log, now);
          MatchesStay(m, Register(m, bindings).value, w.log, w.matches);
          assert w.log + Logged(m, s) == w.log;
          ProjectingKeeps(w, s, Register(m, bindings).value);
        } else {
          IdleKeeps(w, Next(w, s));
        }
      case ExpireAct =>
        CloseStaleKeeps(m, w.log, w.clock, now);
        BindingsLater(m.bindings, w.log, w.matches, w.clock, now);
        CloseStaleBindings(m, now);
        MatchesStay(m, CloseStale(m, now), w.log, w.matches);
        assert w.log + Logged(m, s) == w.log;
        ProjectingKeeps(w, s, CloseStale(m, now));
      case ResetAct(app, target) =>
        if app == "" {
          SameLater(m, w.log, w.clock, now);
          IdleKeeps(w, Next(w, s));
        } else {
          ForgetKeeps(m, w.log, w.clock, app, target, now);
          ForgetKeepsBindings(m, w.log, Cleared(now, app, target), w.matches, w.clock);
          ForgetBindings(m, app, target);
          MatchesAge(m, Forget(m, app, target), w.log, Cleared(now, app, target), w.matches);
          SameSize(Forget(m, app, target).bindings, m.bindings);
          ProjectingKeeps(w, s, Forget(m, app, target));
        }
    }
  }

  lemma CloseStaleBindings(m: Mem, now: Time)
    ensures var m' := CloseStale(m, now);
      && m'.bindings == m.bindings && m'.station == m.station && m'.collectors.Keys == m.collectors.Keys
      && forall c :: c in m.collectors ==> m'.collectors[c].objects == m.collectors[c].objects
  {
  }

  lemma ForgetBindings(m: Mem, app: string, target: string)
    ensures Forget(m, app, target).bindings.Keys == m.bindings.Keys
  {
  }

  // ---------- Runs ----------

  lemma StartSatisfiesInvariant(station: string, configs: seq<Config>, clock: Time)
    requires ValidConfigs(configs) && 0 <= clock
    ensures Inv(Start(station, configs, clock))
  {
    hide EvidenceOk;
    StartHasEvidence(station, configs, clock);
  }

  lemma {:induction false} RunKeepsInvariant(w: World, steps: seq<Step>)
    requires Inv(w) && IsRun(w, steps)
    ensures Inv(After(w, steps))
    decreases |steps|
  {
    hide Inv, Next;
    if steps != [] {
      StepKeepsInvariant(w, steps[0]);
      RunKeepsInvariant(Next(w, steps[0]), steps[1..]);
    }
  }

  /** A world some run of calls on a new cache reaches. */
  ghost predicate Reachable(w: World) {
    exists station, configs, clock, steps ::
      ValidConfigs(configs) && 0 <= clock && IsRun(Start(station, configs, clock), steps)
      && After(Start(station, configs, clock), steps) == w
  }

  lemma ReachableSatisfiesInvariant(w: World)
    requires Reachable(w)
    ensures Inv(w)
  {
    hide Inv, Start, ValidConfigs;
    var station, configs, clock, steps :|
      ValidConfigs(configs) && 0 <= clock && IsRun(Start(station, configs, clock), steps)
      && After(Start(station, configs, clock), steps) == w;
    StartSatisfiesInvariant(station, configs, clock);
    RunKeepsInvariant(Start(station, configs, clock), steps);
  }
}
