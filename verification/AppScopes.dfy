/** Revision tokens: equal scope revisions of one cache mean equal facts. */
module AppScopes {
  import opened Common
  import opened Observations
  import opened AppMemory
  import opened AppHistory
  import opened AppInvariant
  import opened AppProjection
  import opened AppSteps

  /** What an organization's scope revision stands for: its tracked installations and their facts. */
  ghost function Tracked(m: Mem, organization: string): map<string, (Binding, Option<Semantic>)> {
    map id | id in m.bindings && m.bindings[id].binding.organization == organization
      :: (m.bindings[id].binding, m.bindings[id].semantic)
  }

  /** From `m` to `m'` the scope revision does not go back, and standing still means nothing it stands for changed. */
  ghost predicate Advances(m: Mem, m': Mem, organization: string) {
    && Scope(m.scopes, organization) <= Scope(m'.scopes, organization)
    && (Scope(m'.scopes, organization) == Scope(m.scopes, organization) ==> Tracked(m', organization) == Tracked(m, organization))
  }

  lemma AdvancedScope(scopes: map<string, nat>, bindings: map<string, Record>, ids: set<string>, organization: string)
    requires ids <= bindings.Keys
    ensures Scope(Advanced(scopes, bindings, ids), organization) ==
            Scope(scopes, organization) + |InOrganization(bindings, ids, organization)|
  {
    if organization !in scopes.Keys + (set id | id in ids :: bindings[id].binding.organization) {
      assert InOrganization(bindings, ids, organization) == {};
    }
  }

  lemma ProjectAdvances(m: Mem, now: Time, organization: string)
    ensures Advances(m, ProjectAll(m, now), organization)
    ensures Scope(ProjectAll(m, now).scopes, organization) == Scope(m.scopes, organization) ==>
      forall id :: id in m.bindings && m.bindings[id].binding.organization == organization ==> m.bindings[id].semantic.Some?
  {
    hide Projected, Advanced;
    var m', moved := ProjectAll(m, now), Moved(m, now);
    AdvancedScope(m.scopes, m.bindings, moved, organization);
    forall id | id in m.bindings
      ensures m'.bindings[id].binding == m.bindings[id].binding && m'.bindings[id].semantic.Some?
    {
      ProjectedPlace(m, m.bindings[id], now);
    }
    if Scope(m'.scopes, organization) == Scope(m.scopes, organization) {
      assert InOrganization(m.bindings, moved, organization) == {};
      forall id | id in m.bindings && m.bindings[id].binding.organization == organization
        ensures m'.bindings[id].semantic == m.bindings[id].semantic
      {
        assert id !in InOrganization(m.bindings, moved, organization);
      }
    }
  }

  /** A call that changes no binding's identity or stored facts, and no scope revision. */
  lemma SameFactsAdvance(m: Mem, m': Mem, organization: string)
    requires m'.scopes == m.scopes && m'.bindings.Keys == m.bindings.Keys
    requires forall id :: id in m.bindings ==>
      m'.bindings[id].binding == m.bindings[id].binding && m'.bindings[id].semantic == m.bindings[id].semantic
    ensures Scope(m'.scopes, organization) == Scope(m.scopes, organization)
    ensures Tracked(m', organization) == Tracked(m, organization)
  {
  }

  /** A registration that drops none of the organization's bindings keeps them all. */
  lemma RegisterKeepsScope(m: Mem, bindings: seq<Binding>, organization: string)
    requires Register(m, bindings).Ok?
    ensures var m' := Register(m, bindings).value;
      && Scope(m.scopes, organization) <= Scope(m'.scopes, organization)
      && (Scope(m'.scopes, organization) == Scope(m.scopes, organization) ==>
            forall id :: id in m.bindings && m.bindings[id].binding.organization == organization ==> id in m'.bindings)
  {
    RegisterForm(m, bindings);
    var m', dropped := Register(m, bindings).value, m.bindings.Keys - Ids(bindings);
    Merged(m.bindings, dropped, Added(m, bindings));
    AdvancedScope(m.scopes, m.bindings, dropped, organization);
    hide Register, Advanced, RequestOk, Added, Ids;
    if Scope(m'.scopes, organization) == Scope(m.scopes, organization) && m'.bindings != m.bindings + Added(m, bindings) {
      forall id | id in m.bindings && m.bindings[id].binding.organization == organization ensures id !in dropped {
        assert id !in InOrganization(m.bindings, dropped, organization);
      }
    }
  }

  lemma RegisterAdvances(m: Mem, bindings: seq<Binding>, organization: string)
    requires Register(m, bindings).Ok?
    ensures var m' := Register(m, bindings).value;
      && Scope(m.scopes, organization) <= Scope(m'.scopes, organization)
      && (Scope(m'.scopes, organization) == Scope(m.scopes, organization)
          && (forall id :: id in m'.bindings && m'.bindings[id].binding.organization == organization ==>
                m'.bindings[id].semantic.Some?)
          ==> Tracked(m', organization) == Tracked(m, organization))
  {
    RegisterKeepsScope(m, bindings, organization);
    RegisterRows(m, bindings);
    hide Register, Ids;
  }

  lemma HandleKeepsFacts(m: Mem, sid: SessionId, f: Frame, now: Time)
    requires Has(m, sid) && Handle(m, sid, f, now).Ok?
    ensures var m' := Heard(Handle(m, sid, f, now).value, sid, now);
      && m'.scopes == m.scopes && m'.bindings.Keys == m.bindings.Keys
      && forall id :: id in m.bindings ==>
           m'.bindings[id].binding == m.bindings[id].binding && m'.bindings[id].semantic == m.bindings[id].semantic
  {
    hide PutAll, ChunkOk, ValidResource, ValidLocation, Sample, IsId, Confirmed, Unlisted, BoundTo, KnownAbsent;
  }

  lemma ForgetKeepsFacts(m: Mem, app: string, target: string)
    ensures var m' := Forget(m, app, target);
      && m'.scopes == m.scopes && m'.bindings.Keys == m.bindings.Keys
      && forall id :: id in m.bindings ==>
           m'.bindings[id].binding == m.bindings[id].binding && m'.bindings[id].semantic == m.bindings[id].semantic
  {
  }

  lemma StepAdvances(w: World, s: Step, organization: string)
    requires Inv(w) && Enabled(w, s)
    ensures Advances(w.mem, Next(w, s).mem, organization)
  {
    hide Inv, ProjectAll, MatchesOf, Open, CloseSession, Handle, Heard, Live, Register, CloseStale, Forget, Tracked;
    var m, now := w.mem, s.now;
    match s.act {
      case OpenAct(collector, sid) =>
        if Open(m, collector, sid, now).Ok? { OpenIsIdle(m, collector, sid, now); }
        SameFactsAdvance(m, Next(w, s).mem, organization);
      case CloseAct(sid) =>
        CloseIsIdle(m, sid);
        SameFactsAdvance(m, Next(w, s).mem, organization);
      case FrameAct(sid, f) =>
        if Accepts(m, s) {
          LiveHas(m, sid, now);
          HandleKeepsFacts(m, sid, f, now);
          var mid := Heard(Handle(m, sid, f, now).value, sid, now);
          SameFactsAdvance(m, mid, organization);
          ProjectAdvances(mid, now, organization);
        } else {
          CloseIsIdle(m, sid);
          SameFactsAdvance(m, Next(w, s).mem, organization);
        }
      case ReadAct(bindings) =>
        if Register(m, bindings).Ok? {
          RegisterAdvances(m, bindings, organization);
          ProjectAdvances(Register(m, bindings).value, now, organization);
        }
      case ExpireAct =>
        CloseStaleFacts(m, now);
        SameFactsAdvance(m, CloseStale(m, now), organization);
        ProjectAdvances(CloseStale(m, now), now, organization);
      case ResetAct(app, target) =>
        ForgetKeepsFacts(m, app, target);
        SameFactsAdvance(m, Forget(m, app, target), organization);
        ProjectAdvances(Forget(m, app, target), now, organization);
    }
  }

  lemma CloseStaleFacts(m: Mem, now: Time)
    ensures CloseStale(m, now).bindings == m.bindings && CloseStale(m, now).scopes == m.scopes
  {
  }

  lemma {:induction false} RunAdvances(w: World, steps: seq<Step>, organization: string)
    requires Inv(w) && IsRun(w, steps)
    ensures Advances(w.mem, After(w, steps).mem, organization)
    decreases |steps|
  {
    hide Inv, Next, Tracked;
    if steps != [] {
      StepAdvances(w, steps[0], organization);
      StepKeepsInvariant(w, steps[0]);
      RunAdvances(Next(w, steps[0]), steps[1..], organization);
    }
  }

  /** The same uid, state, quality, reason and last known state, and the same metadata of the object, if it is there. */
  predicate SameFacts(m: Mem, b: Record, m': Mem, b': Record) {
    && (b.loc.Some? && b'.loc.Some? ==> b.loc.value.uid == b'.loc.value.uid)
    && b.view.(observedAt := None, expiresAt := None) == b'.view.(observedAt := None, expiresAt := None)
    && match (Held(m, b), Held(m', b'))
       case (None, None) => true
       case (Some(r), Some(r')) => r.o.metadata == r'.o.metadata
       case _ => false
  }

  lemma SemanticsAreFacts(m: Mem, b: Record, m': Mem, b': Record)
    requires SemanticOf(m, b) == SemanticOf(m', b')
    ensures SameFacts(m, b, m', b')
  {
    hide Held;
  }

  /**
   * Two instants of one cache with the same scope revision track the same
   * installations of the organization, with the same facts, however often
   * bindings were forgotten and tracked anew in between.
   */
  lemma ScopeTokenIsSound(w: World, steps: seq<Step>, organization: string)
    requires Reachable(w) && IsRun(w, steps)
    requires Scope(After(w, steps).mem.scopes, organization) == Scope(w.mem.scopes, organization)
    ensures var m, m' := w.mem, After(w, steps).mem;
      forall id :: (id in m.bindings && m.bindings[id].binding.organization == organization)
                   <==> (id in m'.bindings && m'.bindings[id].binding.organization == organization)
    ensures var m, m' := w.mem, After(w, steps).mem;
      forall id :: id in m.bindings && m.bindings[id].binding.organization == organization && id in m'.bindings ==>
        m'.bindings[id].binding == m.bindings[id].binding && SameFacts(m, m.bindings[id], m', m'.bindings[id])
  {
    hide EvidenceOk, BindingsOk, SemanticOf, Next, Reachable, Tracked;
    ReachableSatisfiesInvariant(w);
    RunAdvances(w, steps, organization);
    RunKeepsInvariant(w, steps);
    var m, m' := w.mem, After(w, steps).mem;
    SameTracked(m, m', organization);
    forall id | id in m.bindings && m.bindings[id].binding.organization == organization && id in m'.bindings
      ensures SameFacts(m, m.bindings[id], m', m'.bindings[id])
    {
      SemanticsAreFacts(m, m.bindings[id], m', m'.bindings[id]);
    }
  }

  lemma SameTracked(m: Mem, m': Mem, organization: string)
    requires Tracked(m', organization) == Tracked(m, organization) && Current(m) && Current(m')
    ensures forall id :: (id in m.bindings && m.bindings[id].binding.organization == organization)
                         <==> (id in m'.bindings && m'.bindings[id].binding.organization == organization)
    ensures forall id :: id in m.bindings && m.bindings[id].binding.organization == organization && id in m'.bindings ==>
      m'.bindings[id].binding == m.bindings[id].binding && SemanticOf(m', m'.bindings[id]) == SemanticOf(m, m.bindings[id])
  {
    hide SemanticOf;
    assert Tracked(m, organization).Keys == Tracked(m', organization).Keys;
    forall id ensures (id in m.bindings && m.bindings[id].binding.organization == organization)
                      <==> (id in m'.bindings && m'.bindings[id].binding.organization == organization)
    {
      assert id in Tracked(m, organization).Keys <==> id in Tracked(m', organization).Keys;
    }
    forall id | id in m.bindings && m.bindings[id].binding.organization == organization && id in m'.bindings
      ensures m'.bindings[id].binding == m.bindings[id].binding && m'.bindings[id].semantic == m.bindings[id].semantic
    {
      assert Tracked(m, organization)[id] == Tracked(m', organization)[id];
    }
  }

  /** The organization's bindings of `m'` whose facts are new or not those of `m`. */
  function Changed(m: Mem, m': Mem, organization: string): set<string> {
    set id | id in m'.bindings && m'.bindings[id].binding.organization == organization
             && (id in m.bindings ==> m'.bindings[id].semantic != m.bindings[id].semantic)
  }

  /** Each changed binding counts once: in its own revision, and in that of its organization. */
  ghost predicate Counts(m: Mem, m': Mem, organization: string) {
    && Scope(m'.scopes, organization) == Scope(m.scopes, organization) + |Changed(m, m', organization)|
    && forall id :: id in m'.bindings && m'.bindings[id].binding.organization == organization ==>
         m'.bindings[id].revision == (if id in m.bindings then m.bindings[id].revision else 0)
                                     + (if id in Changed(m, m', organization) then 1 else 0)
  }

  lemma ProjectedRevision(m: Mem, b: Record, now: Time)
    ensures var b' := Projected(m, b, now);
      b'.binding == b.binding && b'.revision == if b'.semantic == b.semantic then b.revision else b.revision + 1
  {
    hide Settle, SemanticOf;
  }

  lemma ProjectCounts(m: Mem, now: Time, organization: string)
    ensures Counts(m, ProjectAll(m, now), organization)
    ensures forall id :: id in m.bindings ==> ProjectAll(m, now).bindings[id].semantic.Some?
  {
    hide Projected, Advanced;
    var m', moved := ProjectAll(m, now), Moved(m, now);
    AdvancedScope(m.scopes, m.bindings, moved, organization);
    forall id | id in m.bindings
      ensures m'.bindings[id].binding == m.bindings[id].binding && m'.bindings[id].semantic.Some?
      ensures m'.bindings[id].revision
              == if m'.bindings[id].semantic == m.bindings[id].semantic then m.bindings[id].revision else m.bindings[id].revision + 1
    {
      ProjectedRevision(m, m.bindings[id], now);
      ProjectedPlace(m, m.bindings[id], now);
    }
    assert InOrganization(m.bindings, moved, organization) == Changed(m, m', organization);
  }

  /** What a call changes before it projects is counted with what the projection changes. */
  lemma CountsFrom(m: Mem, mid: Mem, m': Mem, organization: string)
    requires Counts(mid, m', organization) && mid.scopes == m.scopes && mid.bindings.Keys == m'.bindings.Keys
    requires m.bindings.Keys <= mid.bindings.Keys
    requires forall id :: id in m.bindings ==>
      mid.bindings[id].semantic == m.bindings[id].semantic && mid.bindings[id].revision == m.bindings[id].revision
    requires forall id :: id in mid.bindings && id !in m.bindings ==> mid.bindings[id].semantic.None? && mid.bindings[id].revision == 0
    requires forall id :: id in m'.bindings && id !in m.bindings ==> m'.bindings[id].semantic.Some?
    ensures Counts(m, m', organization)
  {
    assert Changed(m, m', organization) == Changed(mid, m', organization);
  }

  lemma NothingChanged(m: Mem, m': Mem, organization: string)
    requires m'.scopes == m.scopes && m'.bindings == m.bindings
    ensures Counts(m, m', organization)
  {
    assert Changed(m, m', organization) == {};
  }

  lemma HandleKeepsCounts(m: Mem, sid: SessionId, f: Frame, now: Time)
    requires Has(m, sid) && Handle(m, sid, f, now).Ok?
    ensures var m' := Heard(Handle(m, sid, f, now).value, sid, now);
      && m'.scopes == m.scopes && m'.bindings.Keys == m.bindings.Keys
      && forall id :: id in m.bindings ==>
           m'.bindings[id].semantic == m.bindings[id].semantic && m'.bindings[id].revision == m.bindings[id].revision
  {
    hide PutAll, ChunkOk, ValidResource, ValidLocation, Sample, IsId, Confirmed, Unlisted, BoundTo, KnownAbsent;
  }

  /** Unless a read makes room by forgetting bindings, every revision counts the changes of facts, no more and no less. */
  lemma RevisionsCount(w: World, s: Step, organization: string)
    requires Enabled(w, s) && w.mem.bindings.Keys <= Next(w, s).mem.bindings.Keys
    ensures Counts(w.mem, Next(w, s).mem, organization)
  {
    hide ProjectAll, MatchesOf, Open, CloseSession, Handle, Heard, Live, Register, CloseStale, Forget, Counts;
    var m, now := w.mem, s.now;
    match s.act {
      case OpenAct(collector, sid) =>
        if Open(m, collector, sid, now).Ok? { OpenIsIdle(m, collector, sid, now); }
        NothingChanged(m, Next(w, s).mem, organization);
      case CloseAct(sid) =>
        CloseIsIdle(m, sid);
        NothingChanged(m, Next(w, s).mem, organization);
      case FrameAct(sid, f) =>
        if Accepts(m, s) {
          LiveHas(m, sid, now);
          HandleKeepsCounts(m, sid, f, now);
          CountProjected(m, Heard(Handle(m, sid, f, now).value, sid, now), now, organization);
        } else {
          CloseIsIdle(m, sid);
          NothingChanged(m, Next(w, s).mem, organization);
        }
      case ReadAct(bindings) =>
        if Register(m, bindings).Ok? {
          ProjectedKeys(Register(m, bindings).value, now);
          RegisterCounts(m, bindings);
          CountProjected(m, Register(m, bindings).value, now, organization);
        } else {
          NothingChanged(m, Next(w, s).mem, organization);
        }
      case ExpireAct =>
        CloseStaleFacts(m, now);
        CountProjected(m, CloseStale(m, now), now, organization);
      case ResetAct(app, target) =>
        if app == "" {
          NothingChanged(m, Next(w, s).mem, organization);
        } else {
          ForgetKeepsCounts(m, app, target);
          CountProjected(m, Forget(m, app, target), now, organization);
        }
    }
  }

  lemma ProjectedKeys(m: Mem, now: Time)
    ensures ProjectAll(m, now).bindings.Keys == m.bindings.Keys
  {
    hide Projected, Advanced;
  }

  lemma CountProjected(m: Mem, mid: Mem, now: Time, organization: string)
    requires mid.scopes == m.scopes && m.bindings.Keys <= mid.bindings.Keys
    requires forall id :: id in m.bindings ==>
      mid.bindings[id].semantic == m.bindings[id].semantic && mid.bindings[id].revision == m.bindings[id].revision
    requires forall id :: id in mid.bindings && id !in m.bindings ==> mid.bindings[id].semantic.None? && mid.bindings[id].revision == 0
    ensures Counts(m, ProjectAll(mid, now), organization)
  {
    ProjectCounts(mid, now, organization);
    ProjectedKeys(mid, now);
    hide ProjectAll, Counts;
    CountsFrom(m, mid, ProjectAll(mid, now), organization);
  }

  lemma ForgetKeepsCounts(m: Mem, app: string, target: string)
    ensures var m' := Forget(m, app, target);
      && m'.scopes == m.scopes && m'.bindings.Keys == m.bindings.Keys
      && forall id :: id in m.bindings ==>
           m'.bindings[id].semantic == m.bindings[id].semantic && m'.bindings[id].revision == m.bindings[id].revision
  {
  }

  lemma RegisterCounts(m: Mem, bindings: seq<Binding>)
    requires Register(m, bindings).Ok? && m.bindings.Keys <= Register(m, bindings).value.bindings.Keys
    ensures var m' := Register(m, bindings).value;
      && m'.scopes == m.scopes && (forall id :: id in m.bindings ==> m'.bindings[id] == m.bindings[id])
      && forall id :: id in m'.bindings && id !in m.bindings ==> m'.bindings[id].semantic.None? && m'.bindings[id].revision == 0
  {
    RegisterForm(m, bindings);
    AddedIs(m, bindings);
    var m', dropped := Register(m, bindings).value, m.bindings.Keys - Ids(bindings);
    Merged(m.bindings, dropped, Added(m, bindings));
    hide Register, RequestOk, Added, Ids, Advanced;
    if m'.bindings != m.bindings + Added(m, bindings) {
      assert dropped == {};
      NoneDropped(m);
    }
  }

  lemma NoneDropped(m: Mem)
    ensures Advanced(m.scopes, m.bindings, {}) == m.scopes
  {
    NothingAdvanced(m.scopes, m.bindings);
  }

  /** The bindings never exceed the cap. */
  lemma BindingsAreCapped(w: World)
    requires Reachable(w)
    ensures |w.mem.bindings| <= MAX_BINDINGS
  {
    hide Reachable, EvidenceOk, BindingsOk, Current;
    ReachableSatisfiesInvariant(w);
  }
}
