/** What each call on an egress endpoint stores, column by column, and exactly when it is refused. */
module EgressAnswers {
  import opened Common
  import opened Egress
  import opened EgressTheorems

  // ---------- Save ----------

  /** What may be asked for at all. Only a probe makes a row active; credentials are cleared or given, not both. */
  predicate WellFormed(i: Input) {
    i.wellFormed && i.status in {None, Some(Pending), Some(Off)} && (i.clearAuth ==> i.username.None? && i.password.None?)
  }

  /** A credential field: the given value, or else the one there was, unless there is none or it is cleared. */
  predicate Field(given: Option<string>, before: Option<string>, clear: bool, stored: string) {
    match given
    case Some(text) => stored == text
    case None => stored == if clear || before.None? then "" else before.value
  }

  /** The credentials that a save stores over these. */
  predicate Stores(prior: Option<Row>, i: Input, c: Credentials) {
    && Field(i.username, if prior.None? then None else Some(prior.value.target.credentials.username), i.clearAuth, c.username)
    && Field(i.password, if prior.None? then None else Some(prior.value.target.credentials.password), i.clearAuth, c.password)
  }

  predicate Usable(c: Credentials) {
    && |c.username| < 256 && |c.password| < 256 && (c.password != "" ==> c.username != "")
    && forall x :: x in c.username + c.password ==> x != '\0' && x != '\r' && x != '\n'
  }

  /** Another row of the organization with this endpoint. */
  predicate Taken(rows: map<Id, Row>, org: string, at: Id, i: Input, username: string) {
    exists id :: id in rows && id != at && rows[id].org == org && rows[id].target.protocol == i.protocol
      && rows[id].target.host == i.host && rows[id].target.port == i.port && rows[id].target.credentials.username == username
  }

  /** Every column of a saved row. */
  predicate Saved(prior: Option<Row>, org: string, i: Input, row: Row) {
    && row.org == org && row.info == i.info
    && row.target == Target(i.protocol, i.host, i.port, row.target.credentials) && Stores(prior, i, row.target.credentials)
    && row.status == (if i.status.Some? then i.status.value else if prior.Some? && prior.value.status == Off then Off else Pending)
    && row.apps == (if prior.Some? then prior.value.apps else {})
    && row.revision == (if prior.Some? then prior.value.revision + 1 else 1)
    && row.probe.None? && row.token.None? && row.until.None?
  }

  lemma EditedStores(prior: Option<Row>, i: Input)
    ensures Stores(prior, i, Edited(if prior.Some? then prior.value.target.credentials else Credentials("", ""), i))
    ensures forall c, d :: Stores(prior, i, c) && Stores(prior, i, d) ==> c == d
  {
  }

  lemma UsableIsValid(c: Credentials)
    ensures Usable(c) <==> ValidCredentials(c)
  {
    if ValidCredentials(c) {
      forall x | x in c.username + c.password ensures x != '\0' && x != '\r' && x != '\n' {
        assert x in c.username || x in c.password;
      }
    }
    if Usable(c) {
      forall x | x in c.username || x in c.password ensures x in c.username + c.password { }
    }
  }

  lemma TakenIsDuplicate(rows: map<Id, Row>, at: Id, i: Input, row: Row)
    requires row.target == Target(i.protocol, i.host, i.port, row.target.credentials)
    ensures Taken(rows, row.org, at, i, row.target.credentials.username) <==> Duplicate(rows, at, row)
  {
  }

  /** What a save answers, given the row it edits and the credentials it would store; the first refusal counts. */
  predicate SaveAnswer(w: World, s: Step, prior: Option<Row>, at: Id, c: Credentials, r: Result<(Id, Row), EgressError>)
    requires s.SaveStep?
  {
    if !s.allowed then r == Err(Denied)
    else if !WellFormed(s.input) then r == Err(Invalid)
    else if s.edited.Some? && prior.None? then r == Err(NotFound)
    else if prior.Some? && s.input.revision != prior.value.revision then r == Err(Conflict)
    else if prior.None? && s.input.revision != 0 then r == Err(Invalid)
    else if !Usable(c) then r == Err(Invalid)
    else if prior.Some? && prior.value.revision == MAX_INT64 then r == Err(OutOfRange)
    else if Taken(w.rows, s.org, at, s.input, c.username) then r == Err(Conflict)
    else r.Ok? && r.value.0 == at && Saved(prior, s.org, s.input, r.value.1) && r.value.1.target.credentials == c
  }

  /** The row an edit names, when it is one of the organization's. */
  function Prior(w: World, s: Step): Option<Row>
    requires s.SaveStep?
  {
    match s.edited
    case None => None
    case Some(id) => if id in w.rows && w.rows[id].org == s.org then Some(w.rows[id]) else None
  }

  /**
   * A save stores exactly what it was given, keeps exactly what it was not given,
   * and is refused exactly for the reasons of the source, in their order. It
   * writes one row or none.
   */
  lemma SaveLeaves(w: World, s: Step)
    requires Reachable(w) && Enabled(w, s) && s.SaveStep?
    ensures var r := Save(w.rows, s.allowed, s.org, s.edited, s.newId, s.input);
      && (exists c :: Stores(Prior(w, s), s.input, c))
      && (forall c :: Stores(Prior(w, s), s.input, c) ==>
            SaveAnswer(w, s, Prior(w, s), if s.edited.Some? then s.edited.value else s.newId, c, r))
      && Next(w, s).rows == (if r.Ok? then w.rows[r.value.0 := r.value.1] else w.rows)
  {
    hide Reachable, Stores, Usable, Taken, ValidCredentials, Duplicate, Edited;
    ReachableSatisfiesInvariant(w);
    var prior := Prior(w, s);
    EditedStores(prior, s.input);
    var c := Edited(if prior.Some? then prior.value.target.credentials else Credentials("", ""), s.input);
    UsableIsValid(c);
    if prior.Some? { RevisionFits(w, s.edited.value); }
    var r := Save(w.rows, s.allowed, s.org, s.edited, s.newId, s.input);
    var at := if s.edited.Some? then s.edited.value else s.newId;
    var written := Written(prior, s.org, s.input, c);
    TakenIsDuplicate(w.rows, at, s.input, written);
    hide Inv;
    WrittenIsSaved(prior, s.org, s.input, c);
    if s.edited.None? {
      InsertAnswers(w.rows, s.org, at, s.input);
    } else if prior.Some? {
      UpdateAnswers(w.rows, s.org, at, s.input);
    }
    hide Insert, Update, Saved, Written;
  }

  lemma WrittenIsSaved(prior: Option<Row>, org: string, i: Input, c: Credentials)
    requires Stores(prior, i, c)
    ensures Saved(prior, org, i, Written(prior, org, i, c))
  {
  }

  lemma InsertAnswers(rows: map<Id, Row>, org: string, id: Id, i: Input)
    ensures var c := Edited(Credentials("", ""), i);
      Insert(rows, org, id, i) ==
        if i.revision != 0 || !ValidCredentials(c) then Err(Invalid)
        else if Duplicate(rows, id, Written(None, org, i, c)) then Err(Conflict) else Ok(Written(None, org, i, c))
  {
    hide ValidCredentials, Edited, Duplicate;
  }

  lemma UpdateAnswers(rows: map<Id, Row>, org: string, id: Id, i: Input)
    requires id in rows && rows[id].org == org && rows[id].revision <= MAX_INT64
    ensures var c := Edited(rows[id].target.credentials, i); var row := Written(Some(rows[id]), org, i, c);
      Update(rows, id, i) ==
        if i.revision != rows[id].revision then Err(Conflict)
        else if !ValidCredentials(c) then Err(Invalid)
        else if rows[id].revision == MAX_INT64 then Err(OutOfRange)
        else if Duplicate(rows, id, row) then Err(Conflict) else Ok(row)
  {
    hide ValidCredentials, Edited, Duplicate;
    assert Update(rows, id, i).Ok? ==> Update(rows, id, i).value == Written(Some(rows[id]), org, i, Edited(rows[id].target.credentials, i));
  }

  /** The row that is checked for duplicates and then written. */
  function Written(prior: Option<Row>, org: string, i: Input, c: Credentials): Row {
    Row(org, i.info, Target(i.protocol, i.host, i.port, c),
        if i.status.Some? then i.status.value else if prior.Some? && prior.value.status == Off then Off else Pending,
        if prior.Some? then prior.value.apps else {}, if prior.Some? then prior.value.revision + 1 else 1, None, None, None)
  }

  lemma RevisionFits(w: World, id: Id)
    requires Inv(w) && id in w.rows
    ensures w.rows[id].revision <= MAX_INT64
  {
    hide FlightsOk, UniqueEndpoints, ProbeIsCurrent;
    assert RowOk(w, id, w.rows[id]);
  }

  // ---------- Delete and Test ----------

  /** A row is deleted exactly when it is the organization's, no App uses it and no claim lasts; nothing else goes. */
  lemma DeleteLeaves(w: World, s: Step)
    requires Enabled(w, s) && s.DeleteStep?
    ensures var mine := s.id in w.rows && w.rows[s.id].org == s.org;
      var r := Delete(w.rows, s.allowed, s.org, s.id, s.now);
      if !s.allowed then r == Err(Denied) && Next(w, s) == w
      else if !mine then r == Err(NotFound) && Next(w, s) == w
      else if w.rows[s.id].apps != {} || (w.rows[s.id].until.Some? && s.now < w.rows[s.id].until.value)
        then r == Err(Conflict) && Next(w, s) == w
      else r.Ok? && Next(w, s) == w.(rows := map id | id in w.rows && id != s.id :: w.rows[id])
  {
    assert (map id | id in w.rows && id != s.id :: w.rows[id]) == w.rows - {s.id};
  }

  /** A test begins exactly on an enabled, unexpired row of the organization, while fewer than four run. */
  lemma TestBegins(w: World, s: Step)
    requires Reachable(w) && Enabled(w, s) && s.BeginStep?
    ensures var mine := s.id in w.rows && w.rows[s.id].org == s.org;
      var r := BeginTest(w, s.allowed, s.org, s.id, s.expired);
      if !s.allowed then r == Err(Denied) && Next(w, s) == w
      else if !mine then r == Err(NotFound) && Next(w, s) == w
      else if w.rows[s.id].status == Off || (s.expired && w.rows[s.id].info.expiresAt.Some?)
        then r == Err(Disabled) && Next(w, s) == w
      else if |w.flights| == 4 then r == Err(Busy) && Next(w, s) == w
      else r == Ok(w.rows[s.id]) && Next(w, s) == w.(
             flights := w.flights[s.token := Flight(s.id, w.rows[s.id], Reading)], tokens := w.tokens + {s.token})
  {
    ReachableSatisfiesInvariant(w);
    hide RowsOk, FlightsOk, UniqueEndpoints, Reachable;
  }

  /** A claim is granted exactly on the row as it was read, enabled, with no claim or one that has run out; it lasts 65 seconds. */
  lemma ClaimLeaves(w: World, s: Step)
    requires Enabled(w, s) && s.ClaimStep?
    ensures var f := w.flights[s.token];
      var granted := f.id in w.rows && w.rows[f.id].org == f.seen.org && w.rows[f.id].revision == f.seen.revision
                     && w.rows[f.id].status != Off && (w.rows[f.id].until.Some? ==> w.rows[f.id].until.value < s.now);
      if granted then
        && Next(w, s).rows == w.rows[f.id := w.rows[f.id].(token := Some(s.token), until := Some(s.now + 65))]
        && s.token in Next(w, s).flights && Next(w, s).flights[s.token] == f.(stage := Claimed)
      else Next(w, s).rows == w.rows && s.token !in Next(w, s).flights
  {
  }

  /** A result lands exactly on the row that still carries its claim; it passes the row or leaves it pending. */
  lemma LandingLeaves(w: World, s: Step)
    requires Enabled(w, s) && s.LandStep?
    ensures var f := w.flights[s.token];
      Next(w, s).rows ==
        if f.id in w.rows && w.rows[f.id].org == f.seen.org && w.rows[f.id].token == Some(s.token)
           && w.rows[f.id].revision == f.seen.revision && w.rows[f.id].status != Off
        then w.rows[f.id := w.rows[f.id].(probe := Some(s.result), status := if s.result.passed then Active else Pending,
                                          token := None, until := None)]
        else w.rows
    ensures var f := w.flights[s.token]; Next(w, s).ran == w.ran + [Ran(s.token, f.id, f.seen.revision, f.seen.target, s.result)]
  {
  }

  // ---------- A disabled endpoint ----------

  /** Switched off, or gone. */
  predicate SwitchedOff(w: World, id: Id) {
    id in w.used && (id in w.rows ==> w.rows[id].status == Off && w.rows[id].probe.None?)
  }

  lemma OffStep(w: World, s: Step, id: Id)
    requires Enabled(w, s) && SwitchedOff(w, id) && !(s.SaveStep? && s.edited == Some(id))
    ensures SwitchedOff(Next(w, s), id)
  {
    if s.SaveStep? && Save(w.rows, s.allowed, s.org, s.edited, s.newId, s.input).Ok? {
      SaveWrites(w.rows, s.allowed, s.org, s.edited, s.newId, s.input);
    }
    hide Save;
  }

  /** What was switched off stays off, with no result stored on it, until somebody edits it: no probe turns it on. */
  lemma {:induction false} OffUntilEdited(w: World, steps: seq<Step>, id: Id)
    requires IsRun(w, steps) && SwitchedOff(w, id)
    requires forall i :: 0 <= i < |steps| ==> !(steps[i].SaveStep? && steps[i].edited == Some(id))
    ensures SwitchedOff(After(w, steps), id)
    decreases |steps|
  {
    hide Next, SwitchedOff;
    if steps != [] {
      OffStep(w, steps[0], id);
      forall i | 0 <= i < |steps[1..]| ensures !(steps[1..][i].SaveStep? && steps[1..][i].edited == Some(id)) {
        assert steps[1..][i] == steps[i + 1];
      }
      OffUntilEdited(Next(w, steps[0]), steps[1..], id);
    }
  }
}
