/** The egress service as an object: each method is one transaction or statement, and one step of the model. */
module EgressService {
  import opened Common
  import opened Egress

  class Service {
    var rows: map<Id, Row>
    var flights: map<Token, Flight>
    ghost var used: set<Id>
    ghost var tokens: set<Token>
    ghost var latest: map<Id, Token>
    ghost var ran: seq<Ran>

    ghost function State(): World
      reads this
    {
      World(rows, flights, used, tokens, latest, ran)
    }

    constructor ()
      ensures State() == INITIAL
    {
      rows, flights := map[], map[];
      used, tokens, latest, ran := {}, {}, map[], [];
    }

    method SaveEndpoint(allowed: bool, org: string, id: Option<Id>, newId: Id, i: Input) returns (r: Result<(Id, Row), EgressError>)
      requires newId !in used
      modifies this`rows, this`used
      ensures State() == Next(old(State()), SaveStep(allowed, org, id, newId, i))
      ensures r == Save(old(rows), allowed, org, id, newId, i)
    {
      hide Duplicate, ValidCredentials, Printable;
      if !allowed {
        return Err(Denied);
      }
      if !ValidInput(i) {
        return Err(Invalid);
      }
      var at, org', credentials, status, revision, apps := newId, org, Credentials("", ""), Pending, 1, {};
      if id.Some? {
        if id.value !in rows || rows[id.value].org != org {
          return Err(NotFound);
        }
        var prior := rows[id.value];
        if i.revision != prior.revision {
          return Err(Conflict);
        }
        at, credentials, revision, apps := id.value, prior.target.credentials, prior.revision + 1, prior.apps;
        if prior.status == Off {
          status := Off;
        }
      } else if i.revision != 0 {
        return Err(Invalid);
      }
      if i.clearAuth {
        credentials := Credentials("", "");
      }
      if i.username.Some? {
        credentials := credentials.(username := i.username.value);
      }
      if i.password.Some? {
        credentials := credentials.(password := i.password.value);
      }
      if !ValidCredentials(credentials) {
        return Err(Invalid);
      }
      if i.status.Some? {
        status := i.status.value;
      }
      var row := Row(org, i.info, Target(i.protocol, i.host, i.port, credentials), status, apps, revision, None, None, None);
      if id.Some? && revision > MAX_INT64 {
        return Err(OutOfRange);
      }
      if Duplicate(rows, at, row) {
        return Err(Conflict);
      }
      rows := rows[at := row];
      used := used + {at};
      return Ok((at, row));
    }

    method DeleteEndpoint(allowed: bool, org: string, id: Id, now: Time) returns (error: Option<EgressError>)
      modifies this`rows
      ensures State() == Next(old(State()), DeleteStep(allowed, org, id, now))
      ensures error == match Delete(old(rows), allowed, org, id, now) case Ok(_) => None case Err(e) => Some(e)
    {
      if !allowed {
        return Some(Denied);
      }
      if id !in rows || rows[id].org != org {
        return Some(NotFound);
      }
      var p := rows[id];
      if p.apps != {} || (p.until.Some? && p.until.value > now) {
        return Some(Conflict);
      }
      rows := rows - {id};
      return None;
    }

    /** The first half of Test: read the endpoint, refuse a disabled or expired one, take a slot. */
    method StartTest(allowed: bool, org: string, id: Id, expired: bool, token: Token) returns (r: Result<Row, EgressError>)
      requires token !in tokens
      modifies this`flights, this`tokens
      ensures State() == Next(old(State()), BeginStep(allowed, org, id, expired, token))
      ensures r == BeginTest(old(State()), allowed, org, id, expired)
    {
      if !allowed {
        return Err(Denied);
      }
      if id !in rows || rows[id].org != org {
        return Err(NotFound);
      }
      var p := rows[id];
      if p.status == Off || (p.info.expiresAt.Some? && expired) {
        return Err(Disabled);
      }
      if |flights| >= SLOTS {
        return Err(Busy);
      }
      flights := flights[token := Flight(id, p, Reading)];
      tokens := tokens + {token};
      return Ok(p);
    }

    /** The conditional UPDATE that claims the row; a test that claims no row is over. */
    method ClaimRow(token: Token, now: Time) returns (claimed: bool)
      requires token in flights && flights[token].stage == Reading
      modifies this`rows, this`flights, this`latest
      ensures State() == Next(old(State()), ClaimStep(token, now))
      ensures claimed <==> Claimable(old(rows), old(flights)[token], now)
    {
      var f := flights[token];
      if f.id in rows && rows[f.id].org == f.seen.org && rows[f.id].revision == f.seen.revision && rows[f.id].status != Off
         && (rows[f.id].until.None? || rows[f.id].until.value < now) {
        rows := rows[f.id := rows[f.id].(token := Some(token), until := Some(now + CLAIM))];
        flights := flights[token := f.(stage := Claimed)];
        latest := latest[f.id := token];
        return true;
      }
      flights := flights - {token};
      return false;
    }

    /** The conditional UPDATE that stores a result. */
    method StoreResult(token: Token, result: ProbeResult) returns (stored: bool)
      requires token in flights && flights[token].stage == Claimed
      modifies this`rows, this`flights, this`ran
      ensures State() == Next(old(State()), LandStep(token, result))
      ensures stored <==> Lands(old(rows), token, old(flights)[token])
    {
      var f := flights[token];
      ran := ran + [Ran(token, f.id, f.seen.revision, f.seen.target, result)];
      flights := flights[token := f.(stage := Finished)];
      stored := f.id in rows && rows[f.id].org == f.seen.org && rows[f.id].token == Some(token)
                && rows[f.id].revision == f.seen.revision && rows[f.id].status != Off;
      if stored {
        var status := Pending;
        if result.passed {
          status := Active;
        }
        rows := rows[f.id := rows[f.id].(probe := Some(result), status := status, token := None, until := None)];
      }
    }

    /** The deferred statement of every test that claimed, and its slot. */
    method FinishTest(token: Token)
      requires token in flights
      modifies this`rows, this`flights
      ensures State() == Next(old(State()), EndStep(token))
    {
      var id := flights[token].id;
      flights := flights - {token};
      if id in rows && rows[id].token == Some(token) {
        rows := rows[id := rows[id].(token := None, until := None)];
      }
    }
  }
}
