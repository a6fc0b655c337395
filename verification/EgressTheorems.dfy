/** What a stored probe and an active status mean, over every interleaving of edits and probes. */
module EgressTheorems {
  import opened Common
  import opened Egress

  // ---------- The invariant ----------

  /** The stored result of a row is that of a run against exactly what the row's current revision describes. */
  ghost predicate ProbeIsCurrent(ran: seq<Ran>, id: Id, row: Row) {
    row.probe.Some? ==> exists k :: 0 <= k < |ran| && ran[k] == Ran(ran[k].token, id, row.revision, row.target, row.probe.value)
  }

  ghost predicate RowOk(w: World, id: Id, row: Row) {
    && id in w.used && 1 <= row.revision <= MAX_INT64
    && (row.status == Active <==> row.probe.Some? && row.probe.value.passed)
    && (row.status == Off ==> row.probe.None?)
    && (row.token.Some? <==> row.until.Some?)
    && (row.token.Some? ==> id in w.latest && w.latest[id] == row.token.value)
    && ProbeIsCurrent(w.ran, id, row)
  }

  /** A row a test has read is an earlier revision of the row, or the row as it still describes itself. */
  ghost predicate FlightOk(w: World, t: Token, f: Flight) {
    && t in w.tokens && f.id in w.used
    && (f.id in w.rows ==>
          f.seen.org == w.rows[f.id].org && f.seen.revision <= w.rows[f.id].revision
          && (f.seen.revision == w.rows[f.id].revision ==> f.seen.target == w.rows[f.id].target))
  }

  ghost predicate UniqueEndpoints(rows: map<Id, Row>) {
    forall i, j | i in rows && j in rows && i != j :: !SameEndpoint(rows[i], rows[j])
  }

  ghost predicate RowsOk(w: World) {
    forall id :: id in w.rows ==> RowOk(w, id, w.rows[id])
  }

  ghost predicate FlightsOk(w: World) {
    forall t :: t in w.flights ==> FlightOk(w, t, w.flights[t])
  }

  ghost predicate Inv(w: World) {
    && RowsOk(w) && FlightsOk(w) && UniqueEndpoints(w.rows) && |w.flights| <= SLOTS
    && forall id :: id in w.latest ==> w.latest[id] in w.tokens
  }

  /** An allowed save writes a row that was never probed, under the next revision. */
  lemma SaveWrites(rows: map<Id, Row>, allowed: bool, org: string, id: Option<Id>, newId: Id, i: Input)
    requires Save(rows, allowed, org, id, newId, i).Ok?
    ensures var (at, row) := Save(rows, allowed, org, id, newId, i).value;
      && row.probe.None? && row.token.None? && row.until.None? && row.status != Active && row.org == org
      && !Duplicate(rows, at, row)
      && (if id.None? then at == newId && row.revision == 1
          else at == id.value && at in rows && rows[at].org == org && row.revision == rows[at].revision + 1 <= MAX_INT64)
  {
    hide Duplicate, ValidCredentials, Edited;
  }

  lemma SaveKeeps(w: World, s: Step)
    requires Inv(w) && Enabled(w, s) && s.SaveStep?
    ensures Inv(Next(w, s))
  {
    hide ProbeIsCurrent, SameEndpoint;
    if Save(w.rows, s.allowed, s.org, s.edited, s.newId, s.input).Ok? {
      SaveWrites(w.rows, s.allowed, s.org, s.edited, s.newId, s.input);
      hide Save;
      var (at, row) := Save(w.rows, s.allowed, s.org, s.edited, s.newId, s.input).value;
      NeverProbed(w.ran, at, row);
      SameEndpointSymmetric(row);
    }
  }

  lemma NeverProbed(ran: seq<Ran>, id: Id, row: Row)
    requires row.probe.None?
    ensures ProbeIsCurrent(ran, id, row)
  {
  }

  lemma SameEndpointSymmetric(row: Row)
    ensures forall other :: SameEndpoint(row, other) <==> SameEndpoint(other, row)
  {
  }

  /** A step that changes no description of a row leaves endpoints unique. */
  lemma EndpointsKept(rows: map<Id, Row>, rows': map<Id, Row>)
    requires UniqueEndpoints(rows) && rows'.Keys <= rows.Keys
    requires forall id :: id in rows' ==> rows'[id].org == rows[id].org && rows'[id].target == rows[id].target
    ensures UniqueEndpoints(rows')
  {
    forall i, j | i in rows' && j in rows' && i != j ensures !SameEndpoint(rows'[i], rows'[j]) {
      assert !SameEndpoint(rows[i], rows[j]);
    }
  }

  lemma ProbeStaysCurrent(ran: seq<Ran>, r: Ran, id: Id, row: Row)
    requires ProbeIsCurrent(ran, id, row)
    ensures ProbeIsCurrent(ran + [r], id, row)
  {
    if row.probe.Some? {
      var k :| 0 <= k < |ran| && ran[k] == Ran(ran[k].token, id, row.revision, row.target, row.probe.value);
      assert (ran + [r])[k] == ran[k];
    }
  }

  lemma LandKeeps(w: World, s: Step)
    requires Inv(w) && Enabled(w, s) && s.LandStep?
    ensures Inv(Next(w, s))
  {
    hide ProbeIsCurrent, UniqueEndpoints;
    var w', f := Next(w, s), w.flights[s.token];
    EndpointsKept(w.rows, w'.rows);
    assert w'.flights.Keys == w.flights.Keys;
    assert |w'.flights| == |w'.flights.Keys|;
    forall id | id in w'.rows ensures RowOk(w', id, w'.rows[id]) {
      assert RowOk(w, id, w.rows[id]);
      if Lands(w.rows, s.token, f) && id == f.id {
        LandedIsCurrent(w'.ran, |w.ran|, s.token, id, w'.rows[id]) by { assert FlightOk(w, s.token, f); }
      } else {
        ProbeStaysCurrent(w.ran, w'.ran[|w.ran|], id, w.rows[id]);
      }
    }
    forall t | t in w'.flights ensures FlightOk(w', t, w'.flights[t]) {
      assert FlightOk(w, t, w.flights[t]);
    }
  }

  lemma LandedIsCurrent(ran: seq<Ran>, k: nat, t: Token, id: Id, row: Row)
    requires k < |ran| && row.probe.Some? && ran[k] == Ran(t, id, row.revision, row.target, row.probe.value)
    ensures ProbeIsCurrent(ran, id, row)
  {
  }

  /** Steps that leave descriptions, revisions and runs alone. */
  ghost predicate Gentle(s: Step) {
    !s.SaveStep? && !s.LandStep?
  }

  /** A row keeps its description, revision and result; its claim stays, is dropped, or is the latest. */
  ghost predicate SameRow(w: World, w': World, id: Id, row: Row, row': Row) {
    && row' == row.(apps := row'.apps, token := row'.token, until := row'.until)
    && ((row'.token == row.token && row'.until == row.until && (id in w.latest ==> id in w'.latest && w'.latest[id] == w.latest[id]))
        || (row'.token.None? && row'.until.None?)
        || (row'.token.Some? && row'.until.Some? && id in w'.latest && w'.latest[id] == row'.token.value))
  }

  lemma SameRowOk(w: World, w': World, id: Id, row: Row, row': Row)
    requires RowOk(w, id, row) && SameRow(w, w', id, row, row') && w'.used == w.used && w'.ran == w.ran
    ensures RowOk(w', id, row')
  {
  }

  lemma GentleShape(w: World, s: Step)
    requires Enabled(w, s) && Gentle(s)
    ensures var w' := Next(w, s);
      w'.rows.Keys <= w.rows.Keys && w'.ran == w.ran && w'.used == w.used
      && forall id :: id in w'.rows ==> SameRow(w, w', id, w.rows[id], w'.rows[id])
  {
    hide Testing, Save;
  }

  lemma GentleRows(w: World, s: Step)
    requires Inv(w) && Enabled(w, s) && Gentle(s)
    ensures var w' := Next(w, s);
      w'.rows.Keys <= w.rows.Keys && w'.ran == w.ran && w'.used == w.used
      && forall id :: id in w'.rows ==>
           RowOk(w', id, w'.rows[id]) && w'.rows[id].org == w.rows[id].org && w'.rows[id].target == w.rows[id].target
           && w'.rows[id].revision == w.rows[id].revision
  {
    hide Next, UniqueEndpoints, FlightsOk, RowOk;
    GentleShape(w, s);
    forall id | id in Next(w, s).rows ensures RowOk(Next(w, s), id, Next(w, s).rows[id]) {
      SameRowOk(w, Next(w, s), id, w.rows[id], Next(w, s).rows[id]);
    }
  }

  lemma GentleFlights(w: World, s: Step)
    requires Inv(w) && Enabled(w, s) && Gentle(s)
    requires var w' := Next(w, s);
      w'.rows.Keys <= w.rows.Keys && w'.used == w.used
      && forall id :: id in w'.rows ==> w'.rows[id].org == w.rows[id].org && w'.rows[id].target == w.rows[id].target
                                        && w'.rows[id].revision == w.rows[id].revision
    ensures FlightsOk(Next(w, s)) && w.tokens <= Next(w, s).tokens
    ensures forall id :: id in Next(w, s).latest ==> Next(w, s).latest[id] in Next(w, s).tokens
  {
    hide ProbeIsCurrent, UniqueEndpoints, Testing, Claimable, Cleaned, Save;
    var w' := Next(w, s);
    forall t | t in w'.flights ensures FlightOk(w', t, w'.flights[t]) {
      if t in w.flights { assert FlightOk(w, t, w.flights[t]); }
    }
  }

  lemma GentleKeeps(w: World, s: Step)
    requires Inv(w) && Enabled(w, s) && Gentle(s)
    ensures Inv(Next(w, s))
  {
    GentleRows(w, s);
    GentleFlights(w, s);
    FewerFlights(w, s);
    hide Next, RowOk, FlightOk, UniqueEndpoints;
    EndpointsKept(w.rows, Next(w, s).rows);
  }

  /** A test takes a slot when it begins and gives it back when it ends. */
  lemma FewerFlights(w: World, s: Step)
    requires |w.flights| <= SLOTS && Enabled(w, s)
    ensures |Next(w, s).flights| <= SLOTS
  {
    hide Save, Delete, Claimable, Lands, Landed, Cleaned;
    var keys := Next(w, s).flights.Keys;
    assert |Next(w, s).flights| == |keys| && |w.flights| == |w.flights.Keys|;
    if s.BeginStep? && BeginTest(w, s.allowed, s.org, s.id, s.expired).Ok? {
      assert keys == w.flights.Keys + {s.token};
    } else {
      assert keys <= w.flights.Keys;
      FewerTokens(keys, w.flights.Keys);
    }
  }

  lemma FewerTokens(a: set<Token>, b: set<Token>)
    requires a <= b
    ensures |a| <= |b|
  {
    assert b == a + (b - a) && |a + (b - a)| == |a| + |b - a|;
  }

  lemma StepKeepsInvariant(w: World, s: Step)
    requires Inv(w) && Enabled(w, s)
    ensures Inv(Next(w, s))
  {
    hide Inv, Next;
    if s.SaveStep? { SaveKeeps(w, s); } else if s.LandStep? { LandKeeps(w, s); } else { GentleKeeps(w, s); }
  }

  lemma {:induction false} RunKeepsInvariant(w: World, steps: seq<Step>)
    requires Inv(w) && IsRun(w, steps)
    ensures Inv(After(w, steps))
    decreases |steps|
  {
    hide Inv, Next;
    if steps != [] {
      StepKeepsInvariant(w, steps[0]);
      RunKeepsInvariant(Next(w, steps[0]), steps[1..]);
    }
  }

  ghost predicate Reachable(w: World) {
    exists steps :: IsRun(INITIAL, steps) && After(INITIAL, steps) == w
  }

  lemma ReachableSatisfiesInvariant(w: World)
    requires Reachable(w)
    ensures Inv(w)
  {
    var steps :| IsRun(INITIAL, steps) && After(INITIAL, steps) == w;
    RunKeepsInvariant(INITIAL, steps);
  }

  // ---------- Main results ----------

  /**
   * A stored probe ran against exactly the endpoint and credentials of the row's
   * current revision, and a row is active exactly when that probe passed.
   */
  lemma StoredProbeIsCurrent(w: World, id: Id)
    requires Reachable(w) && id in w.rows
    ensures w.rows[id].probe.Some? ==>
      exists k :: 0 <= k < |w.ran| && w.ran[k].id == id && w.ran[k].revision == w.rows[id].revision
                  && w.ran[k].target == w.rows[id].target && w.ran[k].result == w.rows[id].probe.value
    ensures w.rows[id].status == Active <==> w.rows[id].probe.Some? && w.rows[id].probe.value.passed
  {
    ReachableSatisfiesInvariant(w);
    hide FlightsOk, UniqueEndpoints, Reachable;
    assert RowOk(w, id, w.rows[id]);
    if w.rows[id].probe.Some? {
      var k :| 0 <= k < |w.ran| && w.ran[k] == Ran(w.ran[k].token, id, w.rows[id].revision, w.rows[id].target, w.rows[id].probe.value);
    }
  }

  /** Endpoints are unique within an organization, and no more than four probes run at once. */
  lemma EndpointsAreUnique(w: World)
    requires Reachable(w)
    ensures UniqueEndpoints(w.rows) && |w.flights| <= SLOTS
  {
    ReachableSatisfiesInvariant(w);
    hide RowsOk, FlightsOk, UniqueEndpoints, Reachable;
  }

  /**
   * A result is stored only by the probe that claimed the row last, only while the
   * row is at the revision that probe read, and then exactly that row changes.
   */
  lemma OnlyTheLatestClaimLands(w: World, s: Step)
    requires Reachable(w) && Enabled(w, s) && s.LandStep?
    ensures var f := w.flights[s.token];
      Next(w, s).rows != w.rows ==>
        && f.id in w.rows && f.id in w.latest && w.latest[f.id] == s.token
        && w.rows[f.id].revision == f.seen.revision && w.rows[f.id].target == f.seen.target
        && Next(w, s).rows == w.rows[f.id := Landed(w.rows[f.id], s.result)]
  {
    ReachableSatisfiesInvariant(w);
    hide UniqueEndpoints, Reachable, ProbeIsCurrent;
    assert FlightOk(w, s.token, w.flights[s.token]);
  }

  /** A finished, refused or abandoned test releases its own claim and never another's. */
  lemma CleanupReleasesOwnClaim(w: World, s: Step, id: Id)
    requires Reachable(w) && Enabled(w, s) && s.EndStep? && id in w.rows && w.rows[id].token.Some?
    ensures id in Next(w, s).rows
    ensures Next(w, s).rows[id] != w.rows[id] ==> id in w.latest && w.latest[id] == s.token
    ensures w.rows[id].token == Some(s.token) && id == w.flights[s.token].id ==> Next(w, s).rows[id].token.None?
  {
    ReachableSatisfiesInvariant(w);
    hide FlightsOk, UniqueEndpoints, Reachable, ProbeIsCurrent;
    assert RowOk(w, id, w.rows[id]);
  }

  /** While a claim lasts no other probe can claim the row and nobody can delete it. */
  lemma ClaimExcludes(w: World, s: Step, id: Id)
    requires Reachable(w) && Enabled(w, s) && id in w.rows
    requires (s.ClaimStep? || s.DeleteStep?) && w.rows[id].until.Some? && s.now < w.rows[id].until.value
    ensures id in Next(w, s).rows && Next(w, s).rows[id] == w.rows[id]
  {
  }

  /** A step that is not an edit of the row nor an end of this test, and comes before the claim runs out. */
  predicate Harmless(s: Step, id: Id, t: Token, until: Time) {
    match s
    case SaveStep(_, _, edited, _, _) => edited != Some(id)
    case DeleteStep(_, _, _, now) => now < until
    case ClaimStep(_, now) => now < until
    case LandStep(token, _) => token != t
    case EndStep(token) => token != t
    case _ => true
  }

  /** The test `t` holds its claim on the row it read. */
  ghost predicate Holds(w: World, t: Token, f: Flight, until: Time) {
    && t in w.tokens && f.id in w.used && t in w.flights && w.flights[t] == f && f.stage == Claimed
    && Lands(w.rows, t, f) && w.rows[f.id].until == Some(until)
  }

  lemma HarmlessKeepsTheClaim(w: World, s: Step, t: Token, f: Flight, until: Time)
    requires Enabled(w, s) && Holds(w, t, f, until) && Harmless(s, f.id, t, until)
    ensures Holds(Next(w, s), t, f, until)
  {
    if s.SaveStep? && Save(w.rows, s.allowed, s.org, s.edited, s.newId, s.input).Ok? {
      SaveWrites(w.rows, s.allowed, s.org, s.edited, s.newId, s.input);
    }
    hide Save;
  }

  lemma {:induction false} ClaimOutlastsOthers(w: World, steps: seq<Step>, t: Token, f: Flight, until: Time)
    requires IsRun(w, steps) && Holds(w, t, f, until)
    requires forall i :: 0 <= i < |steps| ==> Harmless(steps[i], f.id, t, until)
    ensures Holds(After(w, steps), t, f, until)
    decreases |steps|
  {
    hide Next, Holds, Harmless;
    if steps != [] {
      HarmlessKeepsTheClaim(w, steps[0], t, f, until);
      forall i | 0 <= i < |steps[1..]| ensures Harmless(steps[1..][i], f.id, t, until) {
        assert steps[1..][i] == steps[i + 1];
      }
      ClaimOutlastsOthers(Next(w, steps[0]), steps[1..], t, f, until);
    }
  }

  /**
   * A probe that claims its row and comes back in time lands: whatever other
   * probes, deletions and edits of other rows do within the 65 seconds, nobody
   * takes the claim or the row away, and the result is stored on it.
   */
  lemma ProbeInTimeLands(w: World, t: Token, now: Time, steps: seq<Step>, r: ProbeResult)
    requires Reachable(w) && Enabled(w, ClaimStep(t, now)) && Claimable(w.rows, w.flights[t], now)
    requires IsRun(Next(w, ClaimStep(t, now)), steps)
    requires forall i :: 0 <= i < |steps| ==> Harmless(steps[i], w.flights[t].id, t, now + CLAIM)
    ensures var last, id := After(Next(w, ClaimStep(t, now)), steps), w.flights[t].id;
      && Enabled(last, LandStep(t, r)) && id in last.rows
      && Next(last, LandStep(t, r)).rows == last.rows[id := Landed(last.rows[id], r)]
      && last.rows[id].revision == w.rows[id].revision
  {
    ReachableSatisfiesInvariant(w);
    hide Reachable, UniqueEndpoints, ProbeIsCurrent, RowsOk;
    assert FlightOk(w, t, w.flights[t]);
    ClaimOutlastsOthers(Next(w, ClaimStep(t, now)), steps, t, w.flights[t].(stage := Claimed), now + CLAIM);
    hide IsRun, After, Inv;
  }

  /** A test is overtaken when the row it read is gone or has been edited since. */
  ghost predicate Overtaken(w: World, id: Id, revision: int) {
    id in w.used && (id in w.rows ==> w.rows[id].revision > revision)
  }

  lemma OvertakenStep(w: World, s: Step, id: Id, revision: int)
    requires Enabled(w, s) && Overtaken(w, id, revision)
    ensures Overtaken(Next(w, s), id, revision)
  {
    if s.SaveStep? && Save(w.rows, s.allowed, s.org, s.edited, s.newId, s.input).Ok? {
      SaveWrites(w.rows, s.allowed, s.org, s.edited, s.newId, s.input);
      hide Save;
    } else {
      hide Save, Claimable, Lands;
    }
  }

  /** Once an edit or a deletion has overtaken a test, nothing that happens later lets its result land. */
  lemma {:induction false} OvertakenNeverLands(w: World, steps: seq<Step>, t: Token, f: Flight)
    requires IsRun(w, steps) && Overtaken(w, f.id, f.seen.revision)
    ensures !Lands(After(w, steps).rows, t, f) && forall now :: !Claimable(After(w, steps).rows, f, now)
    decreases |steps|
  {
    hide Next;
    if steps != [] {
      OvertakenStep(w, steps[0], f.id, f.seen.revision);
      OvertakenNeverLands(Next(w, steps[0]), steps[1..], t, f);
    }
  }

  /** Every successful edit overtakes every test that had read the row before it. */
  lemma EditOvertakes(w: World, s: Step, t: Token)
    requires Reachable(w) && Enabled(w, s) && s.SaveStep? && t in w.flights && s.edited == Some(w.flights[t].id)
    requires Save(w.rows, s.allowed, s.org, s.edited, s.newId, s.input).Ok?
    ensures Overtaken(Next(w, s), w.flights[t].id, w.flights[t].seen.revision)
  {
    ReachableSatisfiesInvariant(w);
    hide UniqueEndpoints, Reachable, ProbeIsCurrent;
    SaveWrites(w.rows, s.allowed, s.org, s.edited, s.newId, s.input);
    hide Save;
    assert FlightOk(w, t, w.flights[t]);
  }
}
