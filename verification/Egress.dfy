/**
 * Egress endpoints and their probes. A probe takes many seconds outside any
 * transaction: it reads a row, claims it for 65 seconds, connects, and then
 * tries to store what it found, while rows are edited, deleted and claimed by
 * other probes. One statement or transaction is one step.
 */
module Egress {
  import opened Common

  type Id = nat
  type Token = nat
  type Time = int

  const CLAIM: Time := 65
  const SLOTS: nat := 4

  datatype Status = Pending | Active | Off

  datatype Credentials = Credentials(username: string, password: string)

  /** What a probe connects through. */
  datatype Target = Target(protocol: string, host: string, port: int, credentials: Credentials)

  /** The columns a user describes an endpoint with. */
  datatype Info = Info(name: string, tag: string, note: string, expiresAt: Option<Time>)

  datatype ProbeResult = ProbeResult(passed: bool, detail: string)

  datatype Row = Row(org: string, info: Info, target: Target, status: Status, apps: set<string>, revision: int,
                     probe: Option<ProbeResult>, token: Option<Token>, until: Option<Time>)

  datatype EgressError = Denied | Invalid | NotFound | Conflict | Busy | Disabled | OutOfRange

  /** A normalized request; `wellFormed` is the verdict of the name, host and port checks. */
  datatype Input = Input(wellFormed: bool, info: Info, protocol: string, host: string, port: int,
                         username: Option<string>, password: Option<string>, clearAuth: bool,
                         status: Option<Status>, revision: int)

  datatype Stage = Reading | Claimed | Finished

  /** A probe in progress, and the row it read before it claimed it. */
  datatype Flight = Flight(id: Id, seen: Row, stage: Stage)

  /** What each probe ran against, in the order the probes finished. */
  datatype Ran = Ran(token: Token, id: Id, revision: int, target: Target, result: ProbeResult)

  /** The rows, the probes in progress, and what the proofs remember: identifiers, claims and runs so far. */
  datatype World = World(rows: map<Id, Row>, flights: map<Token, Flight>, used: set<Id>, tokens: set<Token>,
                         latest: map<Id, Token>, ran: seq<Ran>)

  const INITIAL := World(map[], map[], {}, {}, map[], [])

  // ---------- Save and Delete ----------

  predicate ValidInput(i: Input) {
    i.wellFormed && i.status != Some(Active) && !(i.clearAuth && (i.username.Some? || i.password.Some?))
  }

  predicate Printable(s: string) {
    '\0' !in s && '\r' !in s && '\n' !in s
  }

  predicate ValidCredentials(c: Credentials) {
    |c.username| <= 255 && |c.password| <= 255 && Printable(c.username) && Printable(c.password)
    && (c.username != "" || c.password == "")
  }

  /** The credentials after an edit: cleared or kept, then overwritten field by field. */
  function Edited(prior: Credentials, i: Input): Credentials {
    var base := if i.clearAuth then Credentials("", "") else prior;
    Credentials(if i.username.Some? then i.username.value else base.username,
                if i.password.Some? then i.password.value else base.password)
  }

  /** UNIQUE(station_id, organization_id, endpoint_key). The key covers the user name, not the password. */
  predicate SameEndpoint(a: Row, b: Row) {
    a.org == b.org && a.target.protocol == b.target.protocol && a.target.host == b.target.host
    && a.target.port == b.target.port && a.target.credentials.username == b.target.credentials.username
  }

  predicate Duplicate(rows: map<Id, Row>, id: Id, row: Row) {
    exists other :: other in rows && other != id && SameEndpoint(rows[other], row)
  }

  predicate Owns(rows: map<Id, Row>, org: string, id: Id) {
    id in rows && rows[id].org == org
  }

  function Insert(rows: map<Id, Row>, org: string, id: Id, i: Input): Result<Row, EgressError> {
    var credentials := Edited(Credentials("", ""), i);
    var row := Row(org, i.info, Target(i.protocol, i.host, i.port, credentials),
                   if i.status.Some? then i.status.value else Pending, {}, 1, None, None, None);
    if i.revision != 0 || !ValidCredentials(credentials) then Err(Invalid)
    else if Duplicate(rows, id, row) then Err(Conflict)
    else Ok(row)
  }

  function Update(rows: map<Id, Row>, id: Id, i: Input): Result<Row, EgressError>
    requires id in rows
  {
    var prior := rows[id];
    var credentials := Edited(prior.target.credentials, i);
    var status := if i.status.Some? then i.status.value else if prior.status == Off then Off else Pending;
    var row := prior.(info := i.info, target := Target(i.protocol, i.host, i.port, credentials), status := status,
                      revision := prior.revision + 1, probe := None, token := None, until := None);
    if i.revision != prior.revision then Err(Conflict)
    else if !ValidCredentials(credentials) then Err(Invalid)
    else if prior.revision >= MAX_INT64 then Err(OutOfRange)
    else if Duplicate(rows, id, row) then Err(Conflict)
    else Ok(row)
  }

  /** Save: create when no identifier is given, otherwise update; the row it wrote. */
  function Save(rows: map<Id, Row>, allowed: bool, org: string, id: Option<Id>, newId: Id, i: Input): Result<(Id, Row), EgressError> {
    if !allowed then Err(Denied)
    else if !ValidInput(i) then Err(Invalid)
    else
      match id
      case None =>
        var row :- Insert(rows, org, newId, i);
        Ok((newId, row))
      case Some(known) =>
        if !Owns(rows, org, known) then Err(NotFound)
        else
          var row :- Update(rows, known, i);
          Ok((known, row))
  }

  predicate Testing(row: Row, now: Time) {
    row.until.Some? && row.until.value > now
  }

  function Delete(rows: map<Id, Row>, allowed: bool, org: string, id: Id, now: Time): Result<map<Id, Row>, EgressError> {
    if !allowed then Err(Denied)
    else if !Owns(rows, org, id) then Err(NotFound)
    else if rows[id].apps != {} || Testing(rows[id], now) then Err(Conflict)
    else Ok(rows - {id})
  }

  // ---------- Test ----------

  /** The read, the checks on it, and the slot of a test; `expired` is the verdict of the server's own clock. */
  function BeginTest(w: World, allowed: bool, org: string, id: Id, expired: bool): Result<Row, EgressError> {
    if !allowed then Err(Denied)
    else if !Owns(w.rows, org, id) then Err(NotFound)
    else if w.rows[id].status == Off || (w.rows[id].info.expiresAt.Some? && expired) then Err(Disabled)
    else if |w.flights| >= SLOTS then Err(Busy)
    else Ok(w.rows[id])
  }

  /** The claim's WHERE clause. */
  predicate Claimable(rows: map<Id, Row>, f: Flight, now: Time) {
    && Owns(rows, f.seen.org, f.id) && rows[f.id].revision == f.seen.revision && rows[f.id].status != Off
    && (rows[f.id].until.None? || rows[f.id].until.value < now)
  }

  /** The WHERE clause of the statement that stores a result. */
  predicate Lands(rows: map<Id, Row>, t: Token, f: Flight) {
    && Owns(rows, f.seen.org, f.id) && rows[f.id].token == Some(t) && rows[f.id].revision == f.seen.revision
    && rows[f.id].status != Off
  }

  function Landed(row: Row, r: ProbeResult): Row {
    row.(probe := Some(r), status := if r.passed then Active else Pending, token := None, until := None)
  }

  /** The statement that ends every test, whatever happened to it. */
  function Cleaned(rows: map<Id, Row>, t: Token, id: Id): map<Id, Row> {
    if id in rows && rows[id].token == Some(t) then rows[id := rows[id].(token := None, until := None)] else rows
  }

  // ---------- Steps ----------

  datatype Step =
    | SaveStep(allowed: bool, org: string, edited: Option<Id>, newId: Id, input: Input)
    | DeleteStep(allowed: bool, org: string, id: Id, now: Time)
    | AssignStep(id: Id, apps: set<string>)                 // another writer of assigned_apps
    | BeginStep(allowed: bool, org: string, id: Id, expired: bool, token: Token)
    | ClaimStep(token: Token, now: Time)
    | LandStep(token: Token, result: ProbeResult)           // the probe ran; its result is stored or refused
    | EndStep(token: Token)                                 // cleanup, at any point after the slot was taken

  predicate Enabled(w: World, s: Step) {
    match s
    case SaveStep(_, _, _, newId, _) => newId !in w.used
    case DeleteStep(_, _, _, _) => true
    case AssignStep(id, _) => id in w.rows
    case BeginStep(_, _, _, _, token) => token !in w.tokens
    case ClaimStep(token, _) => token in w.flights && w.flights[token].stage == Reading
    case LandStep(token, _) => token in w.flights && w.flights[token].stage == Claimed
    case EndStep(token) => token in w.flights
  }

  function Claim(w: World, t: Token, f: Flight, now: Time): World
    requires f.id in w.rows
  {
    w.(rows := w.rows[f.id := w.rows[f.id].(token := Some(t), until := Some(now + CLAIM))],
       flights := w.flights[t := f.(stage := Claimed)], latest := w.latest[f.id := t])
  }

  function Next(w: World, s: Step): World
    requires Enabled(w, s)
  {
    match s
    case SaveStep(allowed, org, id, newId, i) =>
      (match Save(w.rows, allowed, org, id, newId, i)
       case Err(_) => w
       case Ok(saved) => w.(rows := w.rows[saved.0 := saved.1], used := w.used + {saved.0}))
    case DeleteStep(allowed, org, id, now) =>
      (match Delete(w.rows, allowed, org, id, now) case Err(_) => w case Ok(rows) => w.(rows := rows))
    case AssignStep(id, apps) => w.(rows := w.rows[id := w.rows[id].(apps := apps)])
    case BeginStep(allowed, org, id, expired, token) =>
      (match BeginTest(w, allowed, org, id, expired)
       case Err(_) => w
       case Ok(row) => w.(flights := w.flights[token := Flight(id, row, Reading)], tokens := w.tokens + {token}))
    case ClaimStep(token, now) =>
      var f := w.flights[token];
      if Claimable(w.rows, f, now) then Claim(w, token, f, now) else w.(flights := w.flights - {token})
    case LandStep(token, r) =>
      var f := w.flights[token];
      var ran := w.ran + [Ran(token, f.id, f.seen.revision, f.seen.target, r)];
      var rows := if Lands(w.rows, token, f) then w.rows[f.id := Landed(w.rows[f.id], r)] else w.rows;
      w.(rows := rows, ran := ran, flights := w.flights[token := f.(stage := Finished)])
    case EndStep(token) =>
      w.(rows := Cleaned(w.rows, token, w.flights[token].id), flights := w.flights - {token})
  }

  predicate IsRun(w: World, steps: seq<Step>)
    decreases |steps|
  {
    steps == [] || (Enabled(w, steps[0]) && IsRun(Next(w, steps[0]), steps[1..]))
  }

  function After(w: World, steps: seq<Step>): World
    requires IsRun(w, steps)
    decreases |steps|
  {
    if steps == [] then w else After(Next(w, steps[0]), steps[1..])
  }
}
