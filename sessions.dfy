/** The refresh-session store (Auth/SessionService.cs): one record per login,
    keyed by a server-generated session id, pinned to the hash of the last
    refresh token issued for it, and revocable. */
module Sessions {
  import opened Common

  /** A Guid; the model only needs its identity. */
  type SessionId = string

  /** The one-way hash applied to refresh tokens before they are stored
      (ToSHA256). It is left uninterpreted: every property below holds for
      any hash function. */
  type Hasher = string -> string

  datatype Session = Session(
    id: SessionId,
    userId: string,
    initiatedAt: int,       // ticks
    expiresAt: int,         // ticks
    lastRefreshToken: string,  // hash of the last refresh token issued
    isRevoked: bool)

  /** The Sessions table. */
  type Table = map<SessionId, Session>

  /** Every record is stored under its own id (the primary key). */
  ghost predicate Keyed(t: Table)
  {
    forall id | id in t :: t[id].id == id
  }

  /** The test of IsSessionValidAsync: the session exists, has not expired
      (its expiry is strictly later than now), is not revoked, and is pinned
      to the hash of the presented token. */
  predicate SessionValid(t: Table, hash: Hasher, id: SessionId, token: string, now: int)
  {
    && id in t
    && t[id].expiresAt > now
    && !t[id].isRevoked
    && t[id].lastRefreshToken == hash(token)
  }

  /** The table after CreateSessionAsync: a new record, not revoked,
      initiated now. */
  function Inserted(t: Table, hash: Hasher, id: SessionId, userId: string, token: string,
                   expiresAt: int, now: int): Table
  {
    t[id := Session(id, userId, now, expiresAt, hash(token), false)]
  }

  /** The table after ExtendedSessionAsync: the record's expiry and token
      hash are replaced. */
  function Extended(t: Table, hash: Hasher, id: SessionId, token: string, expiresAt: int): Table
    requires id in t
  {
    t[id := t[id].(expiresAt := expiresAt, lastRefreshToken := hash(token))]
  }

  /** The table after InvalidateSessionAsync: the record, if any, is revoked. */
  function Invalidated(t: Table, id: SessionId): Table
  {
    if id in t then t[id := t[id].(isRevoked := true)] else t
  }

  class SessionService {
    const hash: Hasher
    var sessions: Table

    /** The class invariant: every record is stored under its own id, as the
        Sessions table's primary key is the session's Id. The constructor
        establishes it and every method keeps it. */
    ghost predicate Valid()
      reads this
    {
      Keyed(sessions)
    }

    constructor (hash: Hasher)
      ensures Valid()
      ensures this.hash == hash && sessions == map[]
    {
      this.hash := hash;
      sessions := map[];
    }

    /** Adds the record. The id is a freshly generated Guid; adding a second
        row with the same primary key would make the save fail. */
    method CreateSession(sessionId: SessionId, userId: string, refreshToken: string,
                         expiresAt: int, now: int)
      requires Valid()
      requires sessionId !in sessions
      modifies this
      ensures Valid()
      ensures sessions == Inserted(old(sessions), hash, sessionId, userId, refreshToken, expiresAt, now)
    {
      var session := Session(sessionId, userId, now, expiresAt, hash(refreshToken), false);
      sessions := sessions[sessionId := session];
    }

    /** Rotates the session. The fetched record is dereferenced without a
        null check, so the session must exist. */
    method ExtendSession(sessionId: SessionId, refreshToken: string, expiresAt: int)
      requires Valid()
      requires sessionId in sessions
      modifies this
      ensures Valid()
      ensures sessions == Extended(old(sessions), hash, sessionId, refreshToken, expiresAt)
    {
      var session := sessions[sessionId];
      session := session.(expiresAt := expiresAt);
      session := session.(lastRefreshToken := hash(refreshToken));
      sessions := sessions[sessionId := session];
    }

    /** Revokes the session; a missing session is ignored. */
    method InvalidateSession(sessionId: SessionId)
      requires Valid()
      modifies this
      ensures Valid()
      ensures sessions == Invalidated(old(sessions), sessionId)
    {
      if sessionId !in sessions {
        return;
      }
      var session := sessions[sessionId];
      session := session.(isRevoked := true);
      sessions := sessions[sessionId := session];
    }

    method IsSessionValid(sessionId: SessionId, refreshToken: string, now: int) returns (valid: bool)
      requires Valid()
      ensures valid <==> SessionValid(sessions, hash, sessionId, refreshToken, now)
      // the record that the lookup by key finds is the session asked for
      ensures valid ==> sessions[sessionId].id == sessionId
    {
      if sessionId !in sessions {
        return false;
      }
      var session := sessions[sessionId];
      valid := session.expiresAt > now && !session.isRevoked
               && session.lastRefreshToken == hash(refreshToken);
    }
  }

  // ---------------------------------------------------------------------
  // Properties of the store's operations

  /** A session just created with an expiry in the future is valid for the
      token it was created with, until it expires; nothing else changes. */
  lemma CreatedSessionIsValid(t: Table, hash: Hasher, id: SessionId, userId: string, token: string,
                              expiresAt: int, now: int, later: int)
    requires now <= later < expiresAt
    ensures var t' := Inserted(t, hash, id, userId, token, expiresAt, now);
      && SessionValid(t', hash, id, token, later)
      && t'[id] == Session(id, userId, now, expiresAt, hash(token), false)
      && t'.Keys == t.Keys + {id}
      && forall k | k in t && k != id :: t'[k] == t[k]
  {
  }

  /** Creating keeps every record under its own key. */
  lemma InsertedKeepsKeys(t: Table, hash: Hasher, id: SessionId, userId: string, token: string,
                         expiresAt: int, now: int)
    requires Keyed(t)
    ensures Keyed(Inserted(t, hash, id, userId, token, expiresAt, now))
  {
  }

  /** Extending changes only the expiry and the token hash of that one record. */
  lemma ExtendChangesOnlyExpiryAndToken(t: Table, hash: Hasher, id: SessionId, token: string, expiresAt: int)
    requires id in t
    ensures var t' := Extended(t, hash, id, token, expiresAt);
      && t'.Keys == t.Keys
      && t'[id].id == t[id].id
      && t'[id].userId == t[id].userId
      && t'[id].initiatedAt == t[id].initiatedAt
      && t'[id].isRevoked == t[id].isRevoked
      && t'[id].expiresAt == expiresAt
      && t'[id].lastRefreshToken == hash(token)
      && forall k | k in t && k != id :: t'[k] == t[k]
  {
  }

  /** Rotation: after an extension with a new token, any token whose hash
      differs from the new token's is refused. */
  lemma RotationRejectsOldToken(t: Table, hash: Hasher, id: SessionId, oldToken: string,
                                newToken: string, expiresAt: int, now: int)
    requires id in t
    requires hash(oldToken) != hash(newToken)
    ensures !SessionValid(Extended(t, hash, id, newToken, expiresAt), hash, id, oldToken, now)
  {
  }

  /** Rotation: the new token is accepted while the new expiry lies ahead,
      provided the session was not revoked. */
  lemma RotationAcceptsNewToken(t: Table, hash: Hasher, id: SessionId, newToken: string,
                                expiresAt: int, now: int)
    requires id in t && !t[id].isRevoked
    requires now < expiresAt
    ensures SessionValid(Extended(t, hash, id, newToken, expiresAt), hash, id, newToken, now)
  {
  }

  /** Extending a revoked session does not revive it. */
  lemma ExtendKeepsRevoked(t: Table, hash: Hasher, id: SessionId, token: string, expiresAt: int,
                           anyToken: string, now: int)
    requires id in t && t[id].isRevoked
    ensures !SessionValid(Extended(t, hash, id, token, expiresAt), hash, id, anyToken, now)
  {
  }

  /** After invalidation, no token is accepted at any time. */
  lemma InvalidatedRejectsEveryToken(t: Table, hash: Hasher, id: SessionId, token: string, now: int)
    ensures !SessionValid(Invalidated(t, id), hash, id, token, now)
  {
  }

  /** Invalidation sets only the revoked flag of that record, ignores a
      missing id, and is idempotent. */
  lemma InvalidateProperties(t: Table, id: SessionId)
    ensures id !in t ==> Invalidated(t, id) == t
    ensures id in t ==> Invalidated(t, id)[id] == t[id].(isRevoked := true)
    ensures Invalidated(t, id).Keys == t.Keys
    ensures forall k | k in t && k != id :: Invalidated(t, id)[k] == t[k]
    ensures Invalidated(Invalidated(t, id), id) == Invalidated(t, id)
  {
  }

  /** Expiry is detected lazily and is final: a session valid at some time
      was valid at every earlier time, so once expired it stays expired. */
  lemma ExpiryIsFinal(t: Table, hash: Hasher, id: SessionId, token: string, now: int, later: int)
    requires now <= later
    requires SessionValid(t, hash, id, token, later)
    ensures SessionValid(t, hash, id, token, now)
  {
  }

  // ---------------------------------------------------------------------
  // The life of one session: Active, rotated on every refresh, then
  // Revoked (logout) or Expired (time).

  datatype SessionOp = Rotate(token: string, expiresAt: int) | Revoke

  /** The table after a sequence of refreshes and logouts on session `id`. */
  function Run(t: Table, hash: Hasher, id: SessionId, ops: seq<SessionOp>): (t': Table)
    requires id in t
    ensures t'.Keys == t.Keys
    ensures Keyed(t) ==> Keyed(t')
    ensures t'[id].id == t[id].id && t'[id].userId == t[id].userId && t'[id].initiatedAt == t[id].initiatedAt
    decreases |ops|
  {
    if ops == [] then t
    else
      var next := match ops[0]
        case Rotate(token, expiresAt) => Extended(t, hash, id, token, expiresAt)
        case Revoke => Invalidated(t, id);
      Run(next, hash, id, ops[1..])
  }

  /** Revocation is terminal: once revoked, no later refresh or logout makes
      any token valid again. */
  lemma {:induction false} RevocationIsTerminal(t: Table, hash: Hasher, id: SessionId,
                                                ops: seq<SessionOp>, token: string, now: int)
    requires id in t && t[id].isRevoked
    ensures Run(t, hash, id, ops)[id].isRevoked
    ensures !SessionValid(Run(t, hash, id, ops), hash, id, token, now)
    decreases |ops|
  {
    if ops != [] {
      var next := match ops[0]
        case Rotate(tk, e) => Extended(t, hash, id, tk, e)
        case Revoke => Invalidated(t, id);
      assert next[id].isRevoked;
      RevocationIsTerminal(next, hash, id, ops[1..], token, now);
    }
  }

  /** The hash of the token of the last rotation in `ops`, if any. */
  function LastRotation(ops: seq<SessionOp>): Option<string>
    decreases |ops|
  {
    if ops == [] then None
    else match LastRotation(ops[1..])
      case Some(tk) => Some(tk)
      case None => if ops[0].Rotate? then Some(ops[0].token) else None
  }

  /** At most one token per session is usable: after any history that
      rotated at least once, a token that is still accepted hashes like the
      token of the last rotation. (That other sessions are untouched is
      RunTouchesOnlyItsSession.) */
  lemma {:induction false} OnlyLastRotationIsUsable(t: Table, hash: Hasher, id: SessionId,
                                                    ops: seq<SessionOp>, token: string, now: int)
    requires id in t
    requires LastRotation(ops).Some?
    requires SessionValid(Run(t, hash, id, ops), hash, id, token, now)
    ensures hash(token) == hash(LastRotation(ops).value)
    decreases |ops|
  {
    var next := match ops[0]
      case Rotate(tk, e) => Extended(t, hash, id, tk, e)
      case Revoke => Invalidated(t, id);
    assert Run(t, hash, id, ops) == Run(next, hash, id, ops[1..]);
    if LastRotation(ops[1..]).Some? {
      OnlyLastRotationIsUsable(next, hash, id, ops[1..], token, now);
    } else {
      NoRotationKeepsToken(next, hash, id, ops[1..]);
    }
  }

  /** A history without rotations leaves the token hash alone. */
  lemma {:induction false} NoRotationKeepsToken(t: Table, hash: Hasher, id: SessionId, ops: seq<SessionOp>)
    requires id in t
    requires LastRotation(ops).None?
    ensures Run(t, hash, id, ops)[id].lastRefreshToken == t[id].lastRefreshToken
    decreases |ops|
  {
    if ops != [] {
      assert ops[0].Revoke?;
      NoRotationKeepsToken(Invalidated(t, id), hash, id, ops[1..]);
    }
  }

  /** A session's history touches no other session. */
  lemma {:induction false} RunTouchesOnlyItsSession(t: Table, hash: Hasher, id: SessionId,
                                                    ops: seq<SessionOp>, other: SessionId)
    requires id in t && other != id
    ensures Run(t, hash, id, ops).Keys == t.Keys
    ensures other in t ==> Run(t, hash, id, ops)[other] == t[other]
    decreases |ops|
  {
    if ops != [] {
      var next := match ops[0]
        case Rotate(tk, e) => Extended(t, hash, id, tk, e)
        case Revoke => Invalidated(t, id);
      RunTouchesOnlyItsSession(next, hash, id, ops[1..], other);
    }
  }
}
