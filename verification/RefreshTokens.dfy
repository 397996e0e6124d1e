/** The refresh-token table and the session service that rotates, replays and revokes tokens. */
module RefreshTokens {
  import opened Wrappers

  type Hash(==, !new)
  type Family(==, !new)
  type User(==, !new)

  /** Unix seconds. */
  type Time = int

  const REFRESH_LIFETIME: Time := 30 * 24 * 3600

  datatype Token = Token(
    family: Family, user: User, issued: Time, expires: Time,
    revoked: Option<Time>, replacedBy: Option<Hash>)

  type Table = map<Hash, Token>

  datatype Error = NotFound | Reuse | Mismatch | Duplicate

  // ---------------------------------------------------------------------------------------
  // What each statement does to the table
  // ---------------------------------------------------------------------------------------

  function Revoked(t: Token, now: Time): Token {
    if t.revoked.None? then t.(revoked := Some(now)) else t
  }

  function RevokeFamily(tokens: Table, family: Family, now: Time): Table {
    map h | h in tokens :: if tokens[h].family == family then Revoked(tokens[h], now) else tokens[h]
  }

  function RevokeUser(tokens: Table, user: User, now: Time): Table {
    map h | h in tokens :: if tokens[h].user == user then Revoked(tokens[h], now) else tokens[h]
  }

  function RevokeOne(tokens: Table, h: Hash, now: Time): Table {
    if h in tokens then tokens[h := Revoked(tokens[h], now)] else tokens
  }

  /** The primary key on the hash refuses a second insert. */
  function Insert(tokens: Table, h: Hash, t: Token): Result<Table, Error> {
    if h in tokens then Err(Duplicate) else Ok(tokens[h := t])
  }

  /** The row an insert without revocation columns stores. */
  function FreshToken(family: Family, user: User, issued: Time, expires: Time): Token {
    Token(family, user, issued, expires, None, None)
  }

  /** The rotation transaction: its table afterwards and its error, if any. */
  function Rotate(tokens: Table, presented: Hash, nextHash: Hash, next: Token, now: Time): (Table, Option<Error>) {
    if presented !in tokens then (tokens, Some(NotFound))
    else
      var t := tokens[presented];
      if t.expires <= now then (tokens, Some(NotFound))
      else if t.replacedBy.Some? then (RevokeFamily(tokens, t.family, now), Some(Reuse))
      else if t.revoked.Some? then (tokens, Some(NotFound))
      else if next.family != t.family || next.user != t.user then (tokens, Some(Mismatch))
      else
        var marked := tokens[presented := t.(revoked := Some(now), replacedBy := Some(nextHash))];
        match Insert(marked, nextHash, FreshToken(next.family, next.user, next.issued, next.expires))
        case Ok(inserted) => (inserted, None)
        case Err(e) => (tokens, Some(e))
  }

  class TokenStore {
    var tokens: Table

    constructor ()
      ensures tokens == map[]
    {
      tokens := map[];
    }

    method Create(h: Hash, t: Token) returns (error: Option<Error>)
      modifies this
      ensures Insert(old(tokens), h, t) == (if error.None? then Ok(tokens) else Err(error.value))
      ensures error.Some? ==> tokens == old(tokens)
    {
      if h in tokens {
        return Some(Duplicate);
      }
      tokens := tokens[h := t];
      return None;
    }

    method RotateToken(presented: Hash, nextHash: Hash, next: Token, now: Time) returns (error: Option<Error>)
      modifies this
      ensures (tokens, error) == Rotate(old(tokens), presented, nextHash, next, now)
    {
      if presented !in tokens {
        return Some(NotFound);
      }
      var t := tokens[presented];
      if t.expires <= now {
        return Some(NotFound);
      }
      if t.replacedBy.Some? {
        tokens := map h | h in tokens ::
          if tokens[h].family == t.family then Revoked(tokens[h], now) else tokens[h];
        return Some(Reuse);
      }
      if t.revoked.Some? {
        return Some(NotFound);
      }
      if next.family != t.family || next.user != t.user {
        return Some(Mismatch);
      }
      var saved := tokens;
      tokens := tokens[presented := t.(revoked := Some(now), replacedBy := Some(nextHash))];
      error := Create(nextHash, FreshToken(next.family, next.user, next.issued, next.expires));
      if error.Some? {
        tokens := saved;
      }
    }

    method Revoke(h: Hash, now: Time)
      modifies this
      ensures tokens == RevokeOne(old(tokens), h, now)
    {
      if h in tokens {
        tokens := tokens[h := Revoked(tokens[h], now)];
      }
    }

    method RevokeAll(user: User, now: Time)
      modifies this
      ensures tokens == RevokeUser(old(tokens), user, now)
    {
      tokens := map h | h in tokens :: if tokens[h].user == user then Revoked(tokens[h], now) else tokens[h];
    }
  }

  // ---------------------------------------------------------------------------------------
  // The session service over the table, requests in flight
  // ---------------------------------------------------------------------------------------

  /** A refresh request between its steps: it has read its token, and, once stamped, the clock. */
  datatype Request = Request(hash: Hash, found: Token, stamp: Option<Time>)

  /** The clock is the latest time a refresh has read. */
  datatype State = State(tokens: Table, requests: map<nat, Request>, clock: Time)

  /** A refresh is three events, the others one; their time was read at any earlier moment. */
  datatype Event =
    | Login(user: User, hash: Hash, family: Family, now: Time)
    | BeginRefresh(id: nat, hash: Hash)
    | StampRefresh(id: nat, userFound: bool, now: Time)
    | FinishRefresh(id: nat, nextHash: Hash)
    | Logout(hash: Hash, now: Time)
    | LogoutAll(user: User, now: Time)

  datatype Reaction =
    | LoggedIn(family: Family)
    | Reading
    | Refreshed(family: Family)
    | Refused
    | LoggedOut
    | NotEnabled

  ghost predicate HasFamily(tokens: Table, family: Family) {
    exists h :: h in tokens && tokens[h].family == family
  }

  /** The clock never runs back, and a login draws a family id no stored token carries. */
  ghost predicate Enabled(s: State, e: Event) {
    match e
    case Login(_, _, family, _) => !HasFamily(s.tokens, family)
    case StampRefresh(id, _, now) => id in s.requests && s.requests[id].stamp.None? && s.clock <= now
    case FinishRefresh(id, _) => id in s.requests && s.requests[id].stamp.Some?
    case _ => true
  }

  /** The row a stamped request asks to store. */
  function NextToken(r: Request, stamp: Time): Token {
    FreshToken(r.found.family, r.found.user, stamp, r.found.expires)
  }

  ghost function Step(s: State, e: Event): (State, Reaction) {
    if !Enabled(s, e) then (s, NotEnabled)
    else
      match e
      case Login(user, hash, family, now) =>
        (match Insert(s.tokens, hash, FreshToken(family, user, now, now + REFRESH_LIFETIME))
         case Ok(tokens) => (s.(tokens := tokens), LoggedIn(family))
         case Err(_) => (s, Refused))
      case BeginRefresh(id, hash) =>
        if hash in s.tokens then (s.(requests := s.requests[id := Request(hash, s.tokens[hash], None)]), Reading)
        else (s, Refused)
      case StampRefresh(id, userFound, now) =>
        if userFound then
          (State(s.tokens, s.requests[id := s.requests[id].(stamp := Some(now))], now), Reading)
        else (State(s.tokens, s.requests - {id}, now), Refused)
      case FinishRefresh(id, nextHash) =>
        var r := s.requests[id];
        var (tokens, error) := Rotate(s.tokens, r.hash, nextHash, NextToken(r, r.stamp.value), r.stamp.value);
        (State(tokens, s.requests - {id}, s.clock), if error.None? then Refreshed(r.found.family) else Refused)
      case Logout(hash, now) => (s.(tokens := RevokeOne(s.tokens, hash, now)), LoggedOut)
      case LogoutAll(user, now) => (s.(tokens := RevokeUser(s.tokens, user, now)), LoggedOut)
  }

  ghost function Run(s: State, events: seq<Event>): State
    decreases |events|
  {
    if events == [] then s else Run(Step(s, events[0]).0, events[1..])
  }

  ghost function Reactions(s: State, events: seq<Event>): seq<Reaction>
    decreases |events|
  {
    if events == [] then [] else [Step(s, events[0]).1] + Reactions(Step(s, events[0]).0, events[1..])
  }

  /** `Refresh` run by a caller nothing interleaves with. */
  method Refresh(store: TokenStore, raw: Option<Hash>, userFound: bool, nextHash: Hash, now: Time)
    returns (ok: bool)
    modifies store
    ensures raw.None? ==> !ok && store.tokens == old(store.tokens)
    ensures raw.Some? && raw.value !in old(store.tokens) ==> !ok && store.tokens == old(store.tokens)
    ensures raw.Some? && raw.value in old(store.tokens) ==>
              var read := Step(State(old(store.tokens), map[], now), BeginRefresh(0, raw.value)).0;
              var stamped := Step(read, StampRefresh(0, userFound, now)).0;
              var (after, reaction) := Step(stamped, FinishRefresh(0, nextHash));
              store.tokens == after.tokens && ok == reaction.Refreshed?
  {
    if raw.None? {
      return false;
    }
    if raw.value !in store.tokens {
      return false;
    }
    var found := store.tokens[raw.value];
    if !userFound {
      return false;
    }
    var next := FreshToken(found.family, found.user, now, found.expires);
    var error := store.RotateToken(raw.value, nextHash, next, now);
    ok := error.None?;
  }
}
