/** The account and session protocol of Auth/AuthEndpoints.cs: register,
    login, refresh (api/accessToken) and logout, as methods over the user
    store, the session store and an uninterpreted JWT codec. Each handler is
    a chain of early-return guards followed by the store updates; the HTTP
    result is collapsed to a Reply value that also says what happens to the
    RefreshToken cookie. */
module Auth {
  import opened Common
  import opened Sessions

  /** Auth/Model/PlatformRoles.cs */
  const Admin: string := "Admin"
  const PlatformUser: string := "PlatformUser"

  /** Sessions, refresh tokens and their cookie live three days. */
  const SessionLifetime: int := 3 * TicksPerDay

  const NameTaken: string := "User name already taken."
  const BadCredentials: string := "Username or password is incorrect."

  /** The e-mail is stored as the request gives it, null included. */
  datatype User = User(id: string, userName: string, email: Option<string>, passwordHash: string)

  /** The user and role tables behind ASP.NET Identity's UserManager. The
      password hasher, the password check, the validators CreateAsync runs
      (password policy, allowed user-name characters) and the lookup
      normaliser are left uninterpreted. Identity finds users and keeps
      their names unique by the normalised name (by default the name in
      upper case, invariant culture), so "alice" finds "Alice". */
  class UserManager {
    const normalize: string -> string
    const hashPassword: string -> string
    const checkPassword: (string, string) -> bool          // (stored hash, attempt)
    const createAllowed: (string, Option<string>, string) -> bool  // (user name, email, password)
    var users: map<string, User>
    var roles: map<string, set<string>>

    ghost predicate Valid()
      reads this
    {
      && (forall id | id in users :: users[id].id == id)
      && (forall a, b | a in users && b in users && normalize(users[a].userName) == normalize(users[b].userName) :: a == b)
      && roles.Keys <= users.Keys
    }

    constructor (normalize: string -> string, hashPassword: string -> string,
                 checkPassword: (string, string) -> bool, createAllowed: (string, Option<string>, string) -> bool)
      ensures Valid()
      ensures this.normalize == normalize && this.hashPassword == hashPassword && this.checkPassword == checkPassword
      ensures this.createAllowed == createAllowed
      ensures users == map[] && roles == map[]
    {
      this.normalize := normalize;
      this.hashPassword := hashPassword;
      this.checkPassword := checkPassword;
      this.createAllowed := createAllowed;
      users := map[];
      roles := map[];
    }

    /** Some stored user's name normalises as `name` does. */
    ghost predicate HasUserNamed(name: string)
      reads this
    {
      exists id | id in users :: normalize(users[id].userName) == normalize(name)
    }

    /** The one user whose name normalises as `name` does (normalised names
        are unique). */
    ghost function UserNamed(name: string): (u: User)
      reads this
      requires Valid() && HasUserNamed(name)
      ensures u.id in users && users[u.id] == u && normalize(u.userName) == normalize(name)
      ensures forall id | id in users && normalize(users[id].userName) == normalize(name) :: id == u.id
    {
      var id :| id in users && normalize(users[id].userName) == normalize(name);
      users[id]
    }

    /** A name whose normalised form is a stored user's finds that user:
        lookups, and the name-taken test of registration, see through the
        differences the normaliser erases (letter case, by default). */
    lemma NormalizedNameFindsUser(id: string, name: string)
      requires Valid() && id in users
      requires normalize(name) == normalize(users[id].userName)
      ensures HasUserNamed(name) && UserNamed(name) == users[id]
    {
    }

    /** GetRolesAsync. */
    function RolesOf(id: string): set<string>
      reads this
    {
      if id in roles then roles[id] else {}
    }

    /** FindByNameAsync. */
    method FindByName(name: string) returns (u: Option<User>)
      requires Valid()
      ensures u.None? <==> !HasUserNamed(name)
      ensures u.Some? ==> u.value == UserNamed(name)
    {
      if exists id | id in users :: normalize(users[id].userName) == normalize(name) {
        var id :| id in users && normalize(users[id].userName) == normalize(name);
        u := Some(users[id]);
      } else {
        u := None;
      }
    }

    /** CreateAsync: stores the user with the hash of its password, unless
        Identity's validators refuse it. */
    method Create(id: string, userName: string, email: Option<string>, password: string) returns (succeeded: bool)
      requires Valid()
      requires id !in users && !HasUserNamed(userName)
      modifies this
      ensures Valid()
      ensures succeeded == createAllowed(userName, email, password)
      ensures users == if succeeded then old(users)[id := User(id, userName, email, hashPassword(password))]
                       else old(users)
      ensures roles == old(roles)
    {
      succeeded := createAllowed(userName, email, password);
      if succeeded {
        users := users[id := User(id, userName, email, hashPassword(password))];
      }
    }

    /** AddToRoleAsync. */
    method AddToRole(id: string, role: string)
      requires Valid()
      requires id in users
      modifies this
      ensures Valid()
      ensures users == old(users)
      ensures roles == old(roles)[id := old(RolesOf(id)) + {role}]
    {
      roles := roles[id := RolesOf(id) + {role}];
    }
  }

  // ---------------------------------------------------------------------
  // The JWT service, left uninterpreted

  /** The claims the handlers read from a refresh token ("SessionId" and
      "sub"); a missing claim reads as null. */
  datatype Claims = Claims(sessionId: Option<string>, sub: Option<string>)

  /** TryParseRefreshToken's result and its `out` claims (null when absent). */
  datatype ParseResult = ParseResult(ok: bool, claims: Option<Claims>)

  datatype TokenCodec = TokenCodec(
    createAccessToken: (string, string, set<string>) -> string,  // (user name, user id, roles)
    createRefreshToken: (SessionId, string, int) -> string,      // (session id, user id, expiry)
    tryParseRefreshToken: (string, int) -> ParseResult)          // (raw token, now)

  /** What a sound codec promises: a refresh token it issued parses, before
      its expiry, to the session id and user id it was issued for. */
  ghost predicate RoundTrips(jwt: TokenCodec)
  {
    forall sid, uid, exp, now | now < exp ::
      jwt.tryParseRefreshToken(jwt.createRefreshToken(sid, uid, exp), now)
        == ParseResult(true, Some(Claims(Some(sid), Some(uid))))
  }

  /** The usual TryParse convention: the out value is null on failure. */
  ghost predicate NullClaimsOnFailure(jwt: TokenCodec)
  {
    forall raw, now :: !jwt.tryParseRefreshToken(raw, now).ok ==> jwt.tryParseRefreshToken(raw, now).claims.None?
  }

  // ---------------------------------------------------------------------
  // Replies

  /** What the reply does to the RefreshToken cookie. */
  datatype CookieChange = Unchanged | Append(token: string, expires: int) | Delete

  datatype Body =
    | Empty
    | Message(text: string)
    | AccessToken(token: string)
    | NewUser(userId: string, userName: string, email: Option<string>)

  datatype Reply = Reply(status: Status, body: Body, cookie: CookieChange)

  const Rejected: Reply := Reply(UnprocessableEntity, Empty, Unchanged)

  /** The reply to an unhandled exception (a null dereference, or
      Guid.Parse of a text that is not a Guid). */
  const Crashed: Reply := Reply(ServerError, Empty, Unchanged)

  /** Guid.Parse, left uninterpreted: the Guid a text denotes, in the
      canonical form session ids are stored under, or None where .NET throws
      a FormatException. */
  type GuidParser = string -> Option<SessionId>

  // ---------------------------------------------------------------------
  // Register (api/accounts)

  /** Registers a user; `newUserId` is the id Identity generates. The body's
      fields are null when the JSON leaves them out (binding does not enforce
      the DTO's non-nullable annotations): FindByNameAsync throws on a null
      name and CreateAsync on a null password, while a null e-mail is stored
      as given. */
  method Register(users: UserManager, username: Option<string>, email: Option<string>, password: Option<string>,
                  newUserId: string) returns (reply: Reply)
    requires users.Valid()
    requires newUserId !in users.users
    modifies users
    ensures users.Valid()
    ensures username.None? ==>
      reply == Crashed && users.users == old(users.users) && users.roles == old(users.roles)
    ensures username.Some? && old(users.HasUserNamed(username.value)) ==>
      && reply == Reply(UnprocessableEntity, Message(NameTaken), Unchanged)
      && users.users == old(users.users) && users.roles == old(users.roles)
    ensures username.Some? && !old(users.HasUserNamed(username.value)) && password.None? ==>
      reply == Crashed && users.users == old(users.users) && users.roles == old(users.roles)
    ensures username.Some? && !old(users.HasUserNamed(username.value)) && password.Some?
            && !users.createAllowed(username.value, email, password.value) ==>
      && reply == Rejected
      && users.users == old(users.users) && users.roles == old(users.roles)
    ensures username.Some? && !old(users.HasUserNamed(username.value)) && password.Some?
            && users.createAllowed(username.value, email, password.value) ==>
      && reply == Reply(Created, NewUser(newUserId, username.value, email), Unchanged)
      && users.users == old(users.users)[newUserId := User(newUserId, username.value, email,
                                                           users.hashPassword(password.value))]
      && users.roles == old(users.roles)[newUserId := {PlatformUser}]
  {
    assert newUserId !in users.roles;
    if username.None? {
      return Crashed;
    }
    var existing := users.FindByName(username.value);
    if existing.Some? {
      return Reply(UnprocessableEntity, Message(NameTaken), Unchanged);
    }
    if password.None? {
      return Crashed;
    }
    var succeeded := users.Create(newUserId, username.value, email, password.value);
    if !succeeded {
      return Rejected;
    }
    assert users.RolesOf(newUserId) == {};
    users.AddToRole(newUserId, PlatformUser);
    assert {} + {PlatformUser} == {PlatformUser};
    reply := Reply(Created, NewUser(newUserId, username.value, email), Unchanged);
  }

  // ---------------------------------------------------------------------
  // Login (api/login)

  /** The credentials name an existing user and its password checks. */
  ghost predicate LoginAccepted(users: UserManager, username: string, password: string)
    reads users
    requires users.Valid()
  {
    users.HasUserNamed(username) && users.checkPassword(users.UserNamed(username).passwordHash, password)
  }

  /** Logs in; `newSessionId` is the Guid the handler generates. As in
      Register, a field the JSON leaves out is null: FindByNameAsync throws
      on a null name, and CheckPasswordAsync, through the password hasher, on
      a null password for a user that exists. */
  method Login(users: UserManager, jwt: TokenCodec, store: SessionService,
               username: Option<string>, password: Option<string>, newSessionId: SessionId, now: int)
    returns (reply: Reply)
    requires users.Valid() && store.Valid()
    requires newSessionId !in store.sessions
    modifies store
    ensures store.Valid()
    ensures username.None? ==> reply == Crashed && store.sessions == old(store.sessions)
    // An unknown name gets the same reply as a wrong password, and no session.
    ensures username.Some? && !users.HasUserNamed(username.value) ==>
      && reply == Reply(UnprocessableEntity, Message(BadCredentials), Unchanged)
      && store.sessions == old(store.sessions)
    ensures username.Some? && users.HasUserNamed(username.value) && password.None? ==>
      reply == Crashed && store.sessions == old(store.sessions)
    ensures username.Some? && password.Some? && !LoginAccepted(users, username.value, password.value) ==>
      && reply == Reply(UnprocessableEntity, Message(BadCredentials), Unchanged)
      && store.sessions == old(store.sessions)
    // Success: one new session for that user, expiring in three days, bound
    // to the refresh token that the cookie carries until the same instant.
    ensures username.Some? && password.Some? && LoginAccepted(users, username.value, password.value) ==>
      var u := users.UserNamed(username.value);
      var expiresAt := now + SessionLifetime;
      var token := jwt.createRefreshToken(newSessionId, u.id, expiresAt);
      && store.sessions == Inserted(old(store.sessions), store.hash, newSessionId, u.id, token, expiresAt, now)
      && reply == Reply(Ok, AccessToken(jwt.createAccessToken(u.userName, u.id, users.RolesOf(u.id))),
                        Append(token, expiresAt))
  {
    if username.None? {
      return Crashed;
    }
    var user := users.FindByName(username.value);
    if user.None? {
      return Reply(UnprocessableEntity, Message(BadCredentials), Unchanged);
    }
    if password.None? {
      return Crashed;
    }
    var isPasswordValid := users.checkPassword(user.value.passwordHash, password.value);
    if !isPasswordValid {
      return Reply(UnprocessableEntity, Message(BadCredentials), Unchanged);
    }
    var u := user.value;
    var roles := users.RolesOf(u.id);
    var expiresAt := now + SessionLifetime;
    var accessToken := jwt.createAccessToken(u.userName, u.id, roles);
    var refreshToken := jwt.createRefreshToken(newSessionId, u.id, expiresAt);
    store.CreateSession(newSessionId, u.id, refreshToken, expiresAt, now);
    reply := Reply(Ok, AccessToken(accessToken), Append(refreshToken, expiresAt));
  }

  // ---------------------------------------------------------------------
  // Refresh (api/accessToken) and logout (api/logout)

  /** The parse guard as written at lines 93 and 148: it rejects when the
      token parses. */
  predicate RejectedAsWritten(p: ParseResult)
  {
    p.ok
  }

  /** The guard its comment describes: reject a token that does not parse. */
  predicate RejectedAsIntended(p: ParseResult)
  {
    !p.ok
  }

  /** The checks after the Guid parse that a refresh must pass: the session
      is valid for this token, and the sub claim names an existing user. */
  ghost predicate RefreshGranted(users: UserManager, t: Table, hash: Hasher, token: string,
                                 sid: SessionId, sub: Option<string>, now: int)
    reads users
  {
    SessionValid(t, hash, sid, token, now) && sub.Some? && sub.value in users.users
  }

  /** What the refresh handler does once past the guard, from table `t` to
      table `t'`. Null claims are dereferenced and a SessionId claim that is
      not a Guid makes Guid.Parse throw (both unhandled exceptions); a blank
      claim or a refused check changes nothing; a granted refresh rotates
      that same session to a new token expiring in three days. */
  ghost predicate RefreshFromClaims(users: UserManager, jwt: TokenCodec, parseGuid: GuidParser, hash: Hasher,
                                    t: Table, t': Table, token: string, claims: Option<Claims>, now: int,
                                    reply: Reply)
    reads users
  {
    if claims.None? then
      reply == Crashed && t' == t
    else if IsNullOrWhiteSpace(claims.value.sessionId) then
      reply == Rejected && t' == t
    else if parseGuid(claims.value.sessionId.value).None? then
      reply == Crashed && t' == t
    else if !RefreshGranted(users, t, hash, token, parseGuid(claims.value.sessionId.value).value,
                            claims.value.sub, now) then
      reply == Rejected && t' == t
    else
      var sid := parseGuid(claims.value.sessionId.value).value;
      var user := users.users[claims.value.sub.value];
      var expiresAt := now + SessionLifetime;
      var newToken := jwt.createRefreshToken(sid, user.id, expiresAt);
      && t' == Extended(t, hash, sid, newToken, expiresAt)
      && reply == Reply(Ok, AccessToken(jwt.createAccessToken(user.userName, user.id, users.RolesOf(user.id))),
                        Append(newToken, expiresAt))
  }

  /** The refresh handler from line 95 on, shared by the as-written and the
      corrected guard. */
  method RefreshWithClaims(users: UserManager, jwt: TokenCodec, parseGuid: GuidParser, store: SessionService,
                           token: string, claims: Option<Claims>, now: int) returns (reply: Reply)
    requires users.Valid() && store.Valid()
    modifies store
    ensures store.Valid()
    ensures RefreshFromClaims(users, jwt, parseGuid, store.hash, old(store.sessions), store.sessions,
                              token, claims, now, reply)
  {
    if claims.None? {
      return Crashed;
    }
    var sessionId := claims.value.sessionId;
    if IsNullOrWhiteSpace(sessionId) {
      return Rejected;
    }
    var sessionIdAsGuid := parseGuid(sessionId.value);
    if sessionIdAsGuid.None? {
      return Crashed;
    }
    var valid := store.IsSessionValid(sessionIdAsGuid.value, token, now);
    if !valid {
      return Rejected;
    }
    var userId := claims.value.sub;
    if userId.None? || userId.value !in users.users {
      return Rejected;
    }
    var user := users.users[userId.value];
    var roles := users.RolesOf(user.id);
    var expiresAt := now + SessionLifetime;
    var accessToken := jwt.createAccessToken(user.userName, user.id, roles);
    var newRefreshToken := jwt.createRefreshToken(sessionIdAsGuid.value, user.id, expiresAt);
    reply := Reply(Ok, AccessToken(accessToken), Append(newRefreshToken, expiresAt));
    store.ExtendSession(sessionIdAsGuid.value, newRefreshToken, expiresAt);
  }

  /** The refresh handler as written: the guard rejects every token that
      parses, so a refresh can succeed only for a token that did not parse. */
  method Refresh(users: UserManager, jwt: TokenCodec, parseGuid: GuidParser, store: SessionService,
                 cookie: Option<string>, now: int) returns (reply: Reply)
    requires users.Valid() && store.Valid()
    modifies store
    ensures store.Valid()
    ensures cookie.None? ==> reply == Rejected && store.sessions == old(store.sessions)
    ensures cookie.Some? ==>
      var p := jwt.tryParseRefreshToken(cookie.value, now);
      if RejectedAsWritten(p) then reply == Rejected && store.sessions == old(store.sessions)
      else RefreshFromClaims(users, jwt, parseGuid, store.hash, old(store.sessions), store.sessions,
                             cookie.value, p.claims, now, reply)
    // Consequences: every refusal leaves the store alone, and success needs
    // a token that failed to parse and yet came with claims.
    ensures reply.status != Ok ==> store.sessions == old(store.sessions) && reply.cookie == Unchanged
    ensures reply.status == Ok ==>
      && cookie.Some?
      && !jwt.tryParseRefreshToken(cookie.value, now).ok
      && jwt.tryParseRefreshToken(cookie.value, now).claims.Some?
    ensures NullClaimsOnFailure(jwt) ==> reply.status != Ok
  {
    if cookie.None? {
      return Rejected;
    }
    var p := jwt.tryParseRefreshToken(cookie.value, now);
    if RejectedAsWritten(p) {
      return Rejected;
    }
    reply := RefreshWithClaims(users, jwt, parseGuid, store, cookie.value, p.claims, now);
  }

  /** The refresh handler with the guard its comment describes. */
  method RefreshIntended(users: UserManager, jwt: TokenCodec, parseGuid: GuidParser, store: SessionService,
                         cookie: Option<string>, now: int) returns (reply: Reply)
    requires users.Valid() && store.Valid()
    modifies store
    ensures store.Valid()
    ensures cookie.None? ==> reply == Rejected && store.sessions == old(store.sessions)
    ensures cookie.Some? ==>
      var p := jwt.tryParseRefreshToken(cookie.value, now);
      if RejectedAsIntended(p) then reply == Rejected && store.sessions == old(store.sessions)
      else RefreshFromClaims(users, jwt, parseGuid, store.hash, old(store.sessions), store.sessions,
                             cookie.value, p.claims, now, reply)
    ensures reply.status != Ok ==> store.sessions == old(store.sessions) && reply.cookie == Unchanged
    ensures reply.status == Ok ==>
      && cookie.Some?
      && var claims := jwt.tryParseRefreshToken(cookie.value, now).claims.value;
         SessionValid(old(store.sessions), store.hash, parseGuid(claims.sessionId.value).value, cookie.value, now)
  {
    if cookie.None? {
      return Rejected;
    }
    var p := jwt.tryParseRefreshToken(cookie.value, now);
    if RejectedAsIntended(p) {
      return Rejected;
    }
    reply := RefreshWithClaims(users, jwt, parseGuid, store, cookie.value, p.claims, now);
  }

  /** What the logout handler does once past the guard: it revokes the
      claimed session without checking that it is valid. Null claims and a
      SessionId claim that is not a Guid end in an unhandled exception before
      anything is revoked or the cookie is deleted. */
  ghost predicate LogoutFromClaims(parseGuid: GuidParser, t: Table, t': Table, claims: Option<Claims>, reply: Reply)
  {
    if claims.None? then
      reply == Crashed && t' == t
    else if IsNullOrWhiteSpace(claims.value.sessionId) then
      reply == Rejected && t' == t
    else if parseGuid(claims.value.sessionId.value).None? then
      reply == Crashed && t' == t
    else
      t' == Invalidated(t, parseGuid(claims.value.sessionId.value).value) && reply == Reply(Ok, Empty, Delete)
  }

  /** The logout handler from line 153 on. */
  method LogoutWithClaims(parseGuid: GuidParser, store: SessionService, claims: Option<Claims>) returns (reply: Reply)
    requires store.Valid()
    modifies store
    ensures store.Valid()
    ensures LogoutFromClaims(parseGuid, old(store.sessions), store.sessions, claims, reply)
  {
    if claims.None? {
      return Crashed;
    }
    var sessionId := claims.value.sessionId;
    if IsNullOrWhiteSpace(sessionId) {
      return Rejected;
    }
    var sessionIdAsGuid := parseGuid(sessionId.value);
    if sessionIdAsGuid.None? {
      return Crashed;
    }
    store.InvalidateSession(sessionIdAsGuid.value);
    reply := Reply(Ok, Empty, Delete);
  }

  /** The logout handler as written. */
  method Logout(jwt: TokenCodec, parseGuid: GuidParser, store: SessionService, cookie: Option<string>, now: int)
    returns (reply: Reply)
    requires store.Valid()
    modifies store
    ensures store.Valid()
    ensures cookie.None? ==> reply == Rejected && store.sessions == old(store.sessions)
    ensures cookie.Some? ==>
      var p := jwt.tryParseRefreshToken(cookie.value, now);
      if RejectedAsWritten(p) then reply == Rejected && store.sessions == old(store.sessions)
      else LogoutFromClaims(parseGuid, old(store.sessions), store.sessions, p.claims, reply)
    ensures reply.status != Ok ==> store.sessions == old(store.sessions)
    ensures reply.status == Ok ==> cookie.Some? && !jwt.tryParseRefreshToken(cookie.value, now).ok
    ensures NullClaimsOnFailure(jwt) ==> reply.status != Ok && store.sessions == old(store.sessions)
  {
    if cookie.None? {
      return Rejected;
    }
    var p := jwt.tryParseRefreshToken(cookie.value, now);
    if RejectedAsWritten(p) {
      return Rejected;
    }
    reply := LogoutWithClaims(parseGuid, store, p.claims);
  }

  /** The logout handler with the guard its comment describes. */
  method LogoutIntended(jwt: TokenCodec, parseGuid: GuidParser, store: SessionService, cookie: Option<string>, now: int)
    returns (reply: Reply)
    requires store.Valid()
    modifies store
    ensures store.Valid()
    ensures cookie.None? ==> reply == Rejected && store.sessions == old(store.sessions)
    ensures cookie.Some? ==>
      var p := jwt.tryParseRefreshToken(cookie.value, now);
      if RejectedAsIntended(p) then reply == Rejected && store.sessions == old(store.sessions)
      else LogoutFromClaims(parseGuid, old(store.sessions), store.sessions, p.claims, reply)
    ensures reply.status != Ok ==> store.sessions == old(store.sessions)
  {
    if cookie.None? {
      return Rejected;
    }
    var p := jwt.tryParseRefreshToken(cookie.value, now);
    if RejectedAsIntended(p) {
      return Rejected;
    }
    reply := LogoutWithClaims(parseGuid, store, p.claims);
  }

  // ---------------------------------------------------------------------
  // The guard and the tokens the handlers themselves issue

  /** A refresh token the service issued, presented before it expires,
      parses; so the guard as written turns it away, and the intended guard
      lets it through with the claims it was issued with. */
  lemma IssuedTokenPassesOnlyIntendedGuard(jwt: TokenCodec, sid: SessionId, uid: string, expiresAt: int, now: int)
    requires RoundTrips(jwt)
    requires now < expiresAt
    ensures var p := jwt.tryParseRefreshToken(jwt.createRefreshToken(sid, uid, expiresAt), now);
      && RejectedAsWritten(p)
      && !RejectedAsIntended(p)
      && p.claims == Some(Claims(Some(sid), Some(uid)))
  {
  }

  /** As written, the token a login issues is refused by both refresh and
      logout, and the session stays valid: it can be neither renewed nor
      ended through the API. */
  method AsWrittenScenario(users: UserManager, jwt: TokenCodec, parseGuid: GuidParser, store: SessionService,
                           username: string, password: string, sid: SessionId, now: int, later: int)
    returns (login: Reply, refresh: Reply, logout: Reply)
    requires users.Valid() && store.Valid() && sid !in store.sessions
    requires RoundTrips(jwt)
    requires LoginAccepted(users, username, password)
    requires now <= later < now + SessionLifetime
    modifies store
    ensures login.status == Ok && login.cookie.Append?
    ensures refresh == Rejected && logout == Rejected
    ensures SessionValid(store.sessions, store.hash, sid, login.cookie.token, later)
  {
    login := Login(users, jwt, store, Some(username), Some(password), sid, now);
    var issued := login.cookie.token;
    IssuedTokenPassesOnlyIntendedGuard(jwt, sid, users.UserNamed(username).id, now + SessionLifetime, later);
    refresh := Refresh(users, jwt, parseGuid, store, Some(issued), later);
    logout := Logout(jwt, parseGuid, store, Some(issued), later);
  }

  /** With the intended guard: a login's token refreshes once; the refresh
      rotates the session to the new token, and replaying the superseded
      token is refused. */
  method RotationScenario(users: UserManager, jwt: TokenCodec, parseGuid: GuidParser, store: SessionService,
                          username: string, password: string, sid: SessionId, now: int, later: int)
    returns (login: Reply, first: Reply, replay: Reply)
    requires users.Valid() && store.Valid() && sid !in store.sessions
    requires RoundTrips(jwt) && !IsNullOrWhiteSpace(Some(sid)) && parseGuid(sid) == Some(sid)
    requires LoginAccepted(users, username, password)
    requires now <= later < now + SessionLifetime
    requires var uid := users.UserNamed(username).id;
      store.hash(jwt.createRefreshToken(sid, uid, now + SessionLifetime))
        != store.hash(jwt.createRefreshToken(sid, uid, later + SessionLifetime))
    modifies store
    ensures login.status == Ok && login.cookie.Append?
    ensures first.status == Ok && first.cookie.Append?
    ensures replay == Rejected
    ensures SessionValid(store.sessions, store.hash, sid, first.cookie.token, later)
    ensures !SessionValid(store.sessions, store.hash, sid, login.cookie.token, later)
  {
    var u := users.UserNamed(username);
    login := Login(users, jwt, store, Some(username), Some(password), sid, now);
    var issued := login.cookie.token;
    IssuedTokenPassesOnlyIntendedGuard(jwt, sid, u.id, now + SessionLifetime, later);
    first := RefreshIntended(users, jwt, parseGuid, store, Some(issued), later);
    assert RefreshGranted(users, old(store.sessions)[sid := store.sessions[sid].(expiresAt := now + SessionLifetime,
      lastRefreshToken := store.hash(issued))], store.hash, issued, sid, Some(u.id), later) by {
      assert u.id in users.users;
    }
    replay := RefreshIntended(users, jwt, parseGuid, store, Some(issued), later);
  }

  /** With the intended guard: after logout, the session refuses even the
      last token issued for it, though that token has not expired. */
  method LogoutScenario(users: UserManager, jwt: TokenCodec, parseGuid: GuidParser, store: SessionService,
                        username: string, password: string, sid: SessionId, now: int, later: int)
    returns (login: Reply, logout: Reply, refresh: Reply)
    requires users.Valid() && store.Valid() && sid !in store.sessions
    requires RoundTrips(jwt) && !IsNullOrWhiteSpace(Some(sid)) && parseGuid(sid) == Some(sid)
    requires LoginAccepted(users, username, password)
    requires now <= later < now + SessionLifetime
    modifies store
    ensures login.status == Ok && login.cookie.Append?
    ensures logout == Reply(Ok, Empty, Delete)
    ensures refresh == Rejected
    ensures sid in store.sessions && store.sessions[sid].isRevoked
  {
    var u := users.UserNamed(username);
    login := Login(users, jwt, store, Some(username), Some(password), sid, now);
    var issued := login.cookie.token;
    IssuedTokenPassesOnlyIntendedGuard(jwt, sid, u.id, now + SessionLifetime, later);
    logout := LogoutIntended(jwt, parseGuid, store, Some(issued), later);
    refresh := RefreshIntended(users, jwt, parseGuid, store, Some(issued), later);
  }
}
