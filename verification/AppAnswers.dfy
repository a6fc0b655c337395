/** What readers are told, in terms of the objects that collectors reported; and what a reset and a read leave behind. */
module AppAnswers {
  import opened Common
  import opened Releases
  import opened Observations
  import opened AppMemory
  import opened AppHistory
  import opened AppInvariant
  import opened AppEvidence
  import opened AppProjection
  import opened AppSteps
  import opened AppTheorems
  import AppFrames

  // ---------- One object and its evaluation ----------

  /** The object at this place names the installation, its organization, its App and this Station, and is no worker. */
  predicate Names(m: Mem, x: Candidate, b: Binding) {
    && x.collector in m.collectors && x.pos in m.collectors[x.collector].objects
    && var o := m.collectors[x.collector].objects[x.pos].o;
       && o.station == m.station && o.organization == b.organization && o.installation == b.installation != ""
       && o.app == b.app && o.instance == ""
  }

  lemma CandidatesAreNamed(m: Mem, b: Binding)
    ensures forall x :: x in Candidates(m, b) <==> Names(m, x, b)
  {
    forall x ensures x in Candidates(m, b) <==> Names(m, x, b) {
      if Names(m, x, b) { assert Candidate(x.collector, x.pos) in Candidates(m, b); }
    }
  }

  /** The facts of a resource at this instant: a probe result counts until it expires. */
  predicate FactsAt(r: Resource, now: Time, o: Observation) {
    if now < r.healthExpires then o == r.o else o == r.o.(health := NotChecked)
  }

  /** Evidence of an object, before and after it expires. */
  ghost predicate Evaluated(r: Resource, required: bool, now: Time, v: Runtime) {
    && v.observedAt == Some(r.received) && v.expiresAt == Some(r.expires)
    && if now < r.expires then
         && (v.quality == Known <==> v.state != Unknown)
         && (v.state != Unknown ==> v.lastKnown == Some(v.state)) && (v.reason == InvalidObservation ==> v.lastKnown.None?)
         && exists o :: FactsAt(r, now, o) && Means(o, required, v.state, v.reason)
       else
         && v.state == Unknown && v.quality == Unsure && v.reason == ObservationExpired
         && exists state, reason ::
              Means(r.o, required, state, reason) && v.lastKnown == if state == Unknown then None else Some(state)
  }

  lemma ViewIsEvaluated(r: Resource, required: bool, now: Time)
    requires r.received <= now && r.received < r.expires
    ensures var e := Evaluate(Fact(r, now), required);
      Evaluated(r, required, now, RuntimeView(now, Some(e.0), Some(e.1), Some(r.received), Some(r.expires), false))
  {
    var e := Evaluate(Fact(r, now), required);
    EvaluatesExactly(Fact(r, now), required, e.0, e.1);
    if now < r.expires {
      assert FactsAt(r, now, Fact(r, now));
      InvalidIsUnknown(Fact(r, now), required);
    } else {
      assert Means(r.o, required, e.0, e.1);
    }
    hide Evaluate, Means;
  }

  lemma InvalidIsUnknown(o: Observation, required: bool)
    ensures forall state :: Means(o, required, state, InvalidObservation) ==> state == Unknown
  {
  }

  // ---------- Every answer ----------

  const NOT_KNOWN := Runtime(Unknown, Unsure, NotSynced, None, None, None)

  /** No object carries the identity: what its last place says. */
  predicate AnsweredAlone(m: Mem, row: Record, now: Time, v: Runtime) {
    if row.loc.None? then v == NOT_KNOWN
    else
      var l := row.loc.value;
      if l.collector !in m.collectors || l.pos.namespace !in m.collectors[l.collector].config.namespaces then
        v == NOT_KNOWN.(reason := CollectorScopeChanged)
      else if l.pos in m.collectors[l.collector].objects then
        && v.state == Unknown && v.quality == Unsure
        && v.reason == if now < m.collectors[l.collector].objects[l.pos].expires then IdentityConflict else ObservationExpired
      else if row.absent.Some? && now < row.absent.value.at + TTL then
        v == Runtime(Absent, Known, ResourceAbsent, Some(row.absent.value.at), Some(row.absent.value.at + TTL), Some(Absent))
      else if row.absent.Some? then v.state == Unknown && v.quality == Unsure && v.reason == ObservationExpired
      else v == NOT_KNOWN
  }

  /** What a read answers of a tracked installation, from nothing but the objects and the record's own place. */
  ghost predicate Answered(m: Mem, row: Record, now: Time, v: View) {
    var b := row.binding;
    if exists x, y :: x != y && Names(m, x, b) && Names(m, y, b) then
      v.runtime == NOT_KNOWN.(reason := IdentityConflict) && v.resource.None?
    else if exists x :: Names(m, x, b) then
      forall x :: Names(m, x, b) ==>
        var inv := m.collectors[x.collector];
        if row.loc.Some? && row.loc.value.collector == x.collector && row.loc.value.pos == x.pos then
          && row.loc.value.uid == inv.objects[x.pos].o.uid && row.absent.None?
          && Evaluated(inv.objects[x.pos], b.app in inv.config.healthRequired, now, v.runtime)
          && v.resource == Some(inv.objects[x.pos].o)
        else
          // the object it was matched with before is still there, under another identity
          && row.loc.Some? && Occupied(m, row.loc.value)
          && v.runtime == NOT_KNOWN.(reason := IdentityConflict) && v.resource.None?
    else AnsweredAlone(m, row, now, v.runtime) && v.resource.None?
  }

  lemma TwoCandidates(m: Mem, b: Binding)
    ensures |Candidates(m, b)| > 1 <==> exists x, y :: x != y && Names(m, x, b) && Names(m, y, b)
    ensures Candidates(m, b) == {} <==> !exists x :: Names(m, x, b)
  {
    CandidatesAreNamed(m, b);
    hide Candidates, Names;
    var xs := Candidates(m, b);
    if |xs| > 1 {
      var x :| x in xs;
      assert |xs - {x}| == |xs| - 1;
      var y :| y in xs - {x};
      assert x != y && Names(m, x, b) && Names(m, y, b);
    }
    if x, y :| x != y && Names(m, x, b) && Names(m, y, b) {
      assert {x, y} <= xs && |{x, y}| == 2;
      assert xs == {x, y} + (xs - {x, y}) && |xs| == 2 + |xs - {x, y}|;
    }
  }

  /**
   * Where a projection leaves a binding: on the one object that carries its
   * identity, unless its old place is still occupied; and otherwise where it was.
   */
  lemma PlaceIsExactly(m: Mem, b: Record, now: Time)
    ensures var b' := Projected(m, b, now);
      && b'.binding == b.binding
      && (forall x :: Names(m, x, b.binding) && (forall y :: Names(m, y, b.binding) ==> y == x) ==>
            var here := b.loc.Some? && b.loc.value.collector == x.collector && b.loc.value.pos == x.pos;
            if here || b.loc.None? || !Occupied(m, b.loc.value)
            then b'.loc == Some(Location(x.collector, x.pos, m.collectors[x.collector].objects[x.pos].o.uid)) && b'.absent.None?
            else b'.loc == b.loc && b'.absent == b.absent)
      && ((!exists x :: Names(m, x, b.binding)) || (exists x, y :: x != y && Names(m, x, b.binding) && Names(m, y, b.binding))
          ==> b'.loc == b.loc && b'.absent == b.absent)
  {
    hide Candidates, Names, SettleAlone, Identifies, Evaluate, RuntimeView, SemanticOf;
    CandidatesAreNamed(m, b.binding);
    TwoCandidates(m, b.binding);
    var x := SettleCases(m, b, now);
    hide Settle;
    SettleAlonePlace(m, b, now);
  }

  lemma SettleAlonePlace(m: Mem, b: Record, now: Time)
    ensures SettleAlone(m, b, now).loc == b.loc && SettleAlone(m, b, now).absent == b.absent
  {
  }

  /** While the health that its App requires is not observed, an installation's last known state is what it was. */
  lemma LastKnownSurvives(m: Mem, b: Record, now: Time)
    requires Projected(m, b, now).view.reason == HealthNotObserved
    ensures Projected(m, b, now).view.lastKnown == b.view.lastKnown
  {
    hide Candidates, Identifies, Evaluate, Settle, SemanticOf;
    var x := SettleCases(m, b, now);
    if Candidates(m, b.binding) == {x} && x.collector in m.collectors && x.pos in m.collectors[x.collector].objects {
      var r, required := m.collectors[x.collector].objects[x.pos], b.binding.app in m.collectors[x.collector].config.healthRequired;
      var e := Evaluate(Fact(r, now), required);
      EvaluatesExactly(Fact(r, now), required, e.0, e.1);
    }
  }

  /** A projected record, and what it was settled to: projecting it again changes nothing. */
  lemma SettledRow(m: Mem, row: Record, now: Time)
    requires Projected(m, row, now) == row
    ensures var s := Settle(m, row, now);
      s.loc == row.loc && s.absent == row.absent
      && (row.view == s.view || (s.view.reason == HealthNotObserved && row.view == s.view.(lastKnown := row.view.lastKnown)))
  {
    hide Settle, SemanticOf;
  }

  lemma AnsweredRow(w: World, id: string, now: Time)
    requires Inv(w) && w.clock <= now && id in w.mem.bindings && Projected(w.mem, w.mem.bindings[id], now) == w.mem.bindings[id]
    ensures Answered(w.mem, w.mem.bindings[id], now, ViewOf(w.mem, w.mem.bindings[id]))
  {
    hide Inv, Projected, Candidates, Names, Settle, SettleOn, SettleAlone, AnsweredAlone, Identifies, Held, Evaluated;
    var m, row := w.mem, w.mem.bindings[id];
    TwoCandidates(m, row.binding);
    CandidatesAreNamed(m, row.binding);
    SettledRow(m, row, now);
    var x := SettleCases(m, row, now);
    if |Candidates(m, row.binding)| > 1 {
    } else if Candidates(m, row.binding) == {} {
      AloneRow(w, id, now);
    } else {
      assert forall y :: Names(m, y, row.binding) <==> y == x;
      OneRow(w, id, x, now);
    }
  }

  lemma AloneRow(w: World, id: string, now: Time)
    requires Inv(w) && w.clock <= now && id in w.mem.bindings && Candidates(w.mem, w.mem.bindings[id].binding) == {}
    requires w.mem.bindings[id].view == SettleAlone(w.mem, w.mem.bindings[id], now).view
             || (SettleAlone(w.mem, w.mem.bindings[id], now).view.reason == HealthNotObserved)
    ensures var row := w.mem.bindings[id]; AnsweredAlone(w.mem, row, now, row.view) && Held(w.mem, row).None?
  {
    hide Inv;
    if w.mem.bindings[id].absent.Some? { AbsenceTimes(w, id); AbsenceIsPast(w, id); }
    CandidatesAreNamed(w.mem, w.mem.bindings[id].binding);
    var row := w.mem.bindings[id];
    if row.loc.Some? {
      var place := Candidate(row.loc.value.collector, row.loc.value.pos);
      if Occupied(w.mem, row.loc.value) { ResourceIsPast(w, place); }
      assert !Names(w.mem, place, row.binding);
    }
  }

  lemma AbsenceIsPast(w: World, id: string)
    requires Inv(w) && id in w.mem.bindings && w.mem.bindings[id].absent.Some?
    ensures w.mem.bindings[id].absent.value.at <= w.clock
  {
    hide EvidenceOk, Current, Traced, MatchesOk;
    assert BindingOk(id, w.mem.bindings[id], w.log, w.matches, w.clock);
  }

  lemma OneRow(w: World, id: string, x: Candidate, now: Time)
    requires Inv(w) && w.clock <= now && id in w.mem.bindings && Candidates(w.mem, w.mem.bindings[id].binding) == {x}
    requires x.collector in w.mem.collectors && x.pos in w.mem.collectors[x.collector].objects
    requires var s := SettleOn(w.mem, w.mem.bindings[id], x, now); var row := w.mem.bindings[id];
      s.loc == row.loc && s.absent == row.absent
      && (row.view == s.view || (s.view.reason == HealthNotObserved && row.view == s.view.(lastKnown := row.view.lastKnown)))
    ensures var m, row := w.mem, w.mem.bindings[id];
      var inv, v := m.collectors[x.collector], ViewOf(m, row);
      if row.loc.Some? && row.loc.value.collector == x.collector && row.loc.value.pos == x.pos then
        && row.loc.value.uid == inv.objects[x.pos].o.uid && row.absent.None?
        && Evaluated(inv.objects[x.pos], row.binding.app in inv.config.healthRequired, now, v.runtime)
        && v.resource == Some(inv.objects[x.pos].o)
      else
        && row.loc.Some? && Occupied(m, row.loc.value)
        && v.runtime == NOT_KNOWN.(reason := IdentityConflict) && v.resource.None?
  {
    var m, row := w.mem, w.mem.bindings[id];
    var inv := m.collectors[x.collector];
    CandidatesAreNamed(m, row.binding);
    assert Names(m, x, row.binding);
    ResourceIsPast(w, x);
    ViewIsEvaluated(inv.objects[x.pos], row.binding.app in inv.config.healthRequired, now);
    hide Inv, Candidates, Evaluate, Fact, Evaluated, RuntimeView;
    EvaluatedLater(inv.objects[x.pos], row.binding.app in inv.config.healthRequired, now);
    NoConflictInReports(inv.objects[x.pos], row.binding.app in inv.config.healthRequired, now);
  }

  lemma ResourceIsPast(w: World, x: Candidate)
    requires Inv(w) && x.collector in w.mem.collectors && x.pos in w.mem.collectors[x.collector].objects
    ensures var r := w.mem.collectors[x.collector].objects[x.pos]; r.received <= w.clock && r.expires == r.received + TTL
  {
    ResourceAt(w, x);
    hide Inv;
  }

  /** While the health that an App requires is not observed, what was known before is still the last known. */
  lemma EvaluatedLater(r: Resource, required: bool, now: Time)
    ensures forall v: Runtime, last :: v.reason == HealthNotObserved && Evaluated(r, required, now, v) ==>
      Evaluated(r, required, now, v.(lastKnown := last))
  {
    hide Means;
    forall v: Runtime, last | v.reason == HealthNotObserved && Evaluated(r, required, now, v)
      ensures Evaluated(r, required, now, v.(lastKnown := last))
    {
      HealthNotObservedIsUnknown(r, required, now, v);
    }
  }

  lemma HealthNotObservedIsUnknown(r: Resource, required: bool, now: Time, v: Runtime)
    requires v.reason == HealthNotObserved && Evaluated(r, required, now, v)
    ensures v.state == Unknown
  {
  }

  lemma NoConflictInReports(r: Resource, required: bool, now: Time)
    ensures forall v :: Evaluated(r, required, now, v) ==> v.reason != IdentityConflict
  {
  }

  /**
   * Every read of every reachable world answers exactly this: the evaluation of
   * the one object that names the installation until it expires, a conflict when
   * several do, and otherwise what is known of its last place.
   */
  lemma ReadAnswersExactly(w: World, s: Step, b: Binding)
    requires Reachable(w) && Enabled(w, s) && s.act.ReadAct? && b in s.act.bindings && Read(w.mem, s.act.bindings, s.now).1.Ok?
    ensures var m, views := Next(w, s).mem, Read(w.mem, s.act.bindings, s.now).1.value.views;
      && b.installation in views && b.installation in m.bindings && m.bindings[b.installation].binding == b
      && Answered(m, m.bindings[b.installation], s.now, views[b.installation])
  {
    hide Reachable, Inv, Answered, Next, Read, Projected, Held, Enabled;
    ReadServesProjection(w, s, b);
    ReachableSatisfiesInvariant(w);
    StepKeepsInvariant(w, s);
    AnsweredRow(Next(w, s), b.installation, s.now) by { ClockIsNow(w, s); }
  }

  lemma ClockIsNow(w: World, s: Step)
    requires Enabled(w, s)
    ensures Next(w, s).clock == s.now
  {
    hide NextMem, Logged;
  }

  /**
   * A known ready answer hands out an object with every one of its replicas
   * updated, ready and available, at least one of them, no failure reported and
   * its latest specification at work.
   */
  lemma ReadyIsServing(w: World, s: Step, b: Binding)
    requires Reachable(w) && Enabled(w, s) && s.act.ReadAct? && b in s.act.bindings && Read(w.mem, s.act.bindings, s.now).1.Ok?
    requires var v := Read(w.mem, s.act.bindings, s.now).1.value.views;
      b.installation in v && v[b.installation].runtime.quality == Known && v[b.installation].runtime.state == Ready
    ensures var v := Read(w.mem, s.act.bindings, s.now).1.value.views[b.installation];
      v.resource.Some? && var o := v.resource.value;
      && o.desired == o.replicas == o.updated == o.ready == o.available > 0
      && 1 <= o.generation == o.observedGeneration
      && !o.deleted && !o.terminating && !o.progressFailed && !o.replicaFailed
      && o.station == w.mem.station && o.organization == b.organization && o.installation == b.installation && o.app == b.app
  {
    hide Reachable, Inv, Answered, Next, Read, Projected, Held, Enabled;
    ReadAnswersExactly(w, s, b);
    ReadServesProjection(w, s, b);
    AppFrames.ReachableIsOnlyValid(w);
    AppFrames.StepKeepsOnlyValid(w, s);
    SameStation(w, s);
    ServingRow(Next(w, s).mem, Next(w, s).mem.bindings[b.installation], s.now, Read(w.mem, s.act.bindings, s.now).1.value.views[b.installation]);
  }

  lemma SameStation(w: World, s: Step)
    requires Enabled(w, s) && s.act.ReadAct?
    ensures Next(w, s).mem.station == w.mem.station
  {
    hide Projected, Moved, Advanced, MatchesOf, Added, RequestOk;
  }

  lemma ServingRow(m: Mem, row: Record, now: Time, v: View)
    requires Answered(m, row, now, v) && v.runtime.quality == Known && v.runtime.state == Ready && AppFrames.OnlyValid(m)
    ensures v.resource.Some? && var o := v.resource.value;
      && o.desired == o.replicas == o.updated == o.ready == o.available > 0
      && 1 <= o.generation == o.observedGeneration
      && !o.deleted && !o.terminating && !o.progressFailed && !o.replicaFailed
      && o.station == m.station && o.organization == row.binding.organization && o.installation == row.binding.installation
      && o.app == row.binding.app
  {
    hide ValidLocation, ValidMetadata;
    if x :| Names(m, x, row.binding) {
      assert ValidResource(m.collectors[x.collector].objects[x.pos].o, m.collectors[x.collector].config);
    }
  }

  // ---------- Legacy workloads ----------

  /** The registered object, which nobody has claimed since. */
  predicate Registered(o: Observation, uid: string) {
    && o.uid == uid && o.station == o.organization == o.installation == o.instance == o.app == ""
    && o.metadata.Some? && !o.metadata.value.ownershipMarked
  }

  /** A legacy workload is answered by its place alone, on the same evidence as the others. */
  lemma LegacyAnswersExactly(w: World, c: string, b: Legacy, now: Time)
    requires Reachable(w) && w.clock <= now && c in w.mem.collectors
    ensures var inv := w.mem.collectors[c]; var v := LegacyOf(inv, b, now);
      if b.pos in inv.objects then
        if Registered(inv.objects[b.pos].o, b.uid)
        then Evaluated(inv.objects[b.pos], b.app in inv.config.healthRequired, now, v)
        else v == NOT_KNOWN.(reason := IdentityConflict)
      else if inv.listed.None? then v == NOT_KNOWN
      else if now < inv.listed.value.at + TTL then
        v == Runtime(Absent, Known, ResourceAbsent, Some(inv.listed.value.at), Some(inv.listed.value.at + TTL), Some(Absent))
      else v.state == Unknown && v.quality == Unsure && v.reason == ObservationExpired
  {
    hide Reachable, Inv, Evaluate, Fact, Evaluated;
    ReachableSatisfiesInvariant(w);
    var inv := w.mem.collectors[c];
    if b.pos in inv.objects {
      ResourceIsPast(w, Candidate(c, b.pos));
      ViewIsEvaluated(inv.objects[b.pos], b.app in inv.config.healthRequired, now);
    } else if inv.listed.Some? {
      ListedAt(w, c);
    }
  }

  // ---------- Reset ----------

  /** Of this App, and outside the namespace it moves to; anywhere when it moves to none. */
  predicate LeftBehind(app: string, target: string, subject: string, namespace: Option<string>) {
    subject == app && (target != "" ==> namespace != Some(target))
  }

  /**
   * A reset takes exactly the App's objects outside the target namespace from
   * every inventory, and the places and absences of exactly its bindings there;
   * such a binding finds a place again only on the one object left with its identity.
   */
  lemma ResetLeaves(w: World, s: Step)
    requires Reachable(w) && Enabled(w, s) && s.act.ResetAct?
    ensures var m, m', app, target := w.mem, Next(w, s).mem, s.act.app, s.act.target;
      if app == "" then m' == m
      else
        && m'.collectors.Keys == m.collectors.Keys && m'.bindings.Keys == m.bindings.Keys && m'.sessions == m.sessions
        && (forall c :: c in m.collectors ==>
              var inv, inv' := m.collectors[c], m'.collectors[c];
              && inv' == inv.(objects := inv'.objects)
              && forall p :: (p in inv'.objects <==> p in inv.objects && !LeftBehind(app, target, inv.objects[p].o.app, Some(p.namespace)))
                             && (p in inv'.objects ==> inv'.objects[p] == inv.objects[p]))
        && forall id :: id in m.bindings ==>
             var row, row' := m.bindings[id], m'.bindings[id];
             && row'.binding == row.binding
             && (Matched(m', row')
                 || (row'.loc, row'.absent) ==
                    if LeftBehind(app, target, row.binding.app, if row.loc.Some? then Some(row.loc.value.pos.namespace) else None)
                    then (None, None) else (row.loc, row.absent))
  {
    hide Reachable, Inv, Projected, Matched, MatchesOf, Moved;
    ReachableSatisfiesInvariant(w);
    if s.act.app != "" {
      var forgot := Forget(w.mem, s.act.app, s.act.target);
      forall c, p | c in w.mem.collectors && p in w.mem.collectors[c].objects ensures w.mem.collectors[c].objects[p].o.pos == p {
        ResourcePlace(w, Candidate(c, p));
      }
      forall id | id in w.mem.bindings
        ensures var b' := Projected(forgot, forgot.bindings[id], s.now);
          && b'.binding == forgot.bindings[id].binding && (Matched(Next(w, s).mem, b') <==> Matched(forgot, b'))
          && ((b'.loc == forgot.bindings[id].loc && b'.absent == forgot.bindings[id].absent) || Matched(forgot, b'))
      {
        ProjectedPlace(forgot, forgot.bindings[id], s.now);
        MatchedByObjects(forgot, Next(w, s).mem, Projected(forgot, forgot.bindings[id], s.now));
      }
    }
  }

  lemma ResourcePlace(w: World, x: Candidate)
    requires Inv(w) && x.collector in w.mem.collectors && x.pos in w.mem.collectors[x.collector].objects
    ensures w.mem.collectors[x.collector].objects[x.pos].o.pos == x.pos
  {
    ResourceAt(w, x);
    hide Inv;
  }

  lemma MatchedByObjects(m: Mem, m': Mem, b: Record)
    requires m'.collectors == m.collectors && m'.station == m.station
    ensures Matched(m', b) <==> Matched(m, b)
  {
    hide Identifies;
    assert Candidates(m', b.binding) == Candidates(m, b.binding);
  }

  // ---------- Which installations a read tracks ----------

  /** A read of at most a thousand installations, each under one well-formed identity, is served; any other changes nothing. */
  lemma ReadTracksExactly(w: World, s: Step)
    requires Reachable(w) && Enabled(w, s) && s.act.ReadAct?
    ensures var m, m', bs, r := w.mem, Next(w, s).mem, s.act.bindings, Read(w.mem, s.act.bindings, s.now).1;
      && (r.Ok? <==>
            && (forall b :: b in bs ==> IsId(b.installation) && IsId(b.organization) && IsName(b.app))
            && (forall b :: b in bs && b.installation in m.bindings ==> b == m.bindings[b.installation].binding)
            && (forall a, b | a in bs && b in bs :: a != b ==> a.installation != b.installation)
            && |Ids(bs)| <= 1000)
      && (r.Err? ==> m' == m)
      && (r.Ok? ==> m'.bindings.Keys == if |m.bindings.Keys + Ids(bs)| <= 1000 then m.bindings.Keys + Ids(bs) else Ids(bs))
  {
    hide Reachable, Inv, IsId, IsName, Projected, MatchesOf, Moved, Advanced, RequestOk, Added, Ids;
    RequestIs(w.mem, s.act.bindings);
    if Register(w.mem, s.act.bindings).Ok? { RegisterTracksExactly(w.mem, s.act.bindings); }
  }

  lemma RequestIs(m: Mem, bs: seq<Binding>)
    ensures RequestOk(m, bs) <==>
      && (forall b :: b in bs ==> IsId(b.installation) && IsId(b.organization) && IsName(b.app))
      && (forall b :: b in bs && b.installation in m.bindings ==> b == m.bindings[b.installation].binding)
      && (forall a, b | a in bs && b in bs :: a != b ==> a.installation != b.installation)
  {
    hide IsId, IsName;
  }

  lemma RegisterTracksExactly(m: Mem, bs: seq<Binding>)
    requires Register(m, bs).Ok?
    ensures Register(m, bs).value.bindings.Keys ==
      if |m.bindings.Keys + Ids(bs)| <= MAX_BINDINGS then m.bindings.Keys + Ids(bs) else Ids(bs)
  {
    AddedIs(m, bs);
    hide RequestOk, Added, Advanced, Ids;
    var added := Added(m, bs);
    var all := m.bindings.Keys + Ids(bs);
    MergedKeys(m.bindings, added, Ids(bs), all);
    MergedSize(m.bindings, added, all);
  }

  lemma MergedKeys<K, V>(tracked: map<K, V>, added: map<K, V>, ids: set<K>, all: set<K>)
    requires added.Keys == ids - tracked.Keys && all == tracked.Keys + ids
    ensures (tracked + added).Keys == all && tracked.Keys !! added.Keys
    ensures ((tracked - (tracked.Keys - ids)) + added).Keys == ids
  {
  }

  lemma MergedSize<K, V>(tracked: map<K, V>, added: map<K, V>, all: set<K>)
    requires (tracked + added).Keys == all && tracked.Keys !! added.Keys
    ensures |all| == |tracked| + |added|
  {
    SumOfKeys(tracked, added);
    assert |all| == |tracked + added|;
  }
}
