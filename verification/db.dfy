/** src/lib/server/db.js as operations over an immutable store.

    Each exported function opens its own PostgreSQL connection; here the whole
    round trip is one `Conn` value: `Up` when connect and query succeed, `Down`
    when either throws. Functions that rethrow (`verifyUserCredentials`,
    `createSession`, `destroySession`, `getUserFromSession`) answer `Thrown`;
    the ones that swallow the error (`insertUser`, `getUserByEmail`,
    `getUserByUsername`) answer `None`, the model of `null`. */
module Db {
  import opened Wrappers
  import Hex

  type UserId = int
  type SessionId = string

  /** A row of the `users` table (the `User` type of src/lib/types.d.ts). The
      avatar is computed per request and never stored. */
  datatype User = User(
    id: UserId,
    username: string,
    email: string,
    passwordHash: string,
    createdAt: string,
    updatedAt: string,
    isAdmin: bool)

  /** The database: `users` rows in table order, and the `sessions` table keyed
      by `session_id`. A `user_id` of SQL NULL is `None`. Sessions carry no IP
      address and no expiry time. */
  datatype Store = Store(users: seq<User>, sessions: map<SessionId, Option<UserId>>)

  /** Whether one PostgreSQL round trip succeeds. */
  datatype Conn = Up | Down

  /** The result of a db.js function that rethrows store errors. */
  datatype Fetch<+T> = Done(value: T) | Thrown

  /** The constraints of the `users` table: a positive serial id, and unique ids,
      usernames and emails. */
  predicate WellFormed(st: Store) {
    && (forall i :: 0 <= i < |st.users| ==> st.users[i].id >= 1)
    && (forall i, j :: 0 <= i < j < |st.users| ==> st.users[i].id != st.users[j].id)
    && (forall i, j :: 0 <= i < j < |st.users| ==> st.users[i].username != st.users[j].username)
    && (forall i, j :: 0 <= i < j < |st.users| ==> st.users[i].email != st.users[j].email)
  }

  // ---------------------------------------------------------------------------
  // Queries over the `users` table

  /** The WHERE clauses db.js uses. A query parameter of `None` binds SQL NULL,
      and `column = NULL` holds of no row. */
  datatype Where =
    | UsernameIs(username: string)
    | EmailIs(email: string)
    | IdIs(id: UserId)
    | CredentialsAre(name: Option<string>, password: Option<string>)

  predicate Satisfies(u: User, w: Where) {
    match w
    case UsernameIs(n) => u.username == n
    case EmailIs(e) => u.email == e
    case IdIs(id) => u.id == id
    case CredentialsAre(n, p) => n == Some(u.username) && p == Some(u.passwordHash)
  }

  /** A query on the `users` table followed by taking its first row: the
      first row, in table order, that satisfies the clause; `None` when no row
      does. */
  function Select(users: seq<User>, w: Where): (r: Option<User>)
    ensures r.Some? ==> r.value in users && Satisfies(r.value, w)
    ensures r.None? <==> forall i :: 0 <= i < |users| ==> !Satisfies(users[i], w)
    ensures r.Some? ==> exists i :: 0 <= i < |users| && users[i] == r.value
                                    && forall j :: 0 <= j < i ==> !Satisfies(users[j], w)
  {
    if users == [] then None
    else if Satisfies(users[0], w) then Some(users[0])
    else
      var r := Select(users[1..], w);
      assert r.Some? ==> exists i :: 0 <= i < |users| && users[i] == r.value
                                    && forall j :: 0 <= j < i ==> !Satisfies(users[j], w) by {
        if r.Some? {
          var k :| 0 <= k < |users[1..]| && users[1..][k] == r.value
                   && forall j :: 0 <= j < k ==> !Satisfies(users[1..][j], w);
          assert forall j :: 0 <= j < k + 1 ==> !Satisfies(users[j], w) by {
            forall j | 0 <= j < k + 1
              ensures !Satisfies(users[j], w)
            {
              if j > 0 { assert users[j] == users[1..][j - 1]; }
            }
          }
        }
      }
      r
  }

  /** When the table's uniqueness constraints hold, a query on id, username or
      email finds exactly the row that has it. */
  lemma {:induction false} SelectUnique(st: Store, u: User, w: Where)
    requires WellFormed(st)
    requires u in st.users
    requires w == IdIs(u.id) || w == UsernameIs(u.username) || w == EmailIs(u.email)
    ensures Select(st.users, w) == Some(u)
  {
    var r := Select(st.users, w);
    var k :| 0 <= k < |st.users| && st.users[k] == u;
    assert r.Some?;
    var i :| 0 <= i < |st.users| && st.users[i] == r.value
             && forall j :: 0 <= j < i ==> !Satisfies(st.users[j], w);
    if i < k {
      assert Satisfies(st.users[i], w) && Satisfies(st.users[k], w);
    } else if k < i {
      assert Satisfies(st.users[k], w);
    }
  }

  /** The largest id in the table, 0 for an empty table. */
  function MaxId(users: seq<User>): (m: int)
    ensures m >= 0
    ensures forall i :: 0 <= i < |users| ==> users[i].id <= m
  {
    if users == [] then 0
    else
      var rest := MaxId(users[1..]);
      assert forall i :: 1 <= i < |users| ==> users[i] == users[1..][i - 1];
      if users[0].id > rest then users[0].id else rest
  }

  // ---------------------------------------------------------------------------
  // generateSessionId (db.js:8-10)

  /** Sixteen random bytes written as lower-case hex; the random bytes are
      supplied by the caller. */
  function GenerateSessionId(random: seq<Hex.Byte>): (id: SessionId)
    requires |random| == 16
    ensures |id| == 32
    ensures Hex.IsLowerHex(id)
    ensures Hex.Decode(id) == random
  {
    Hex.DecodeEncode(random);
    Hex.Encode(random)
  }

  /** The caller-supplied random bytes yield an id not yet in the table. */
  predicate FreshEntropy(st: Store, random: seq<Hex.Byte>) {
    |random| == 16 && GenerateSessionId(random) !in st.sessions
  }

  /** Distinct random bytes give distinct session ids. */
  lemma SessionIdsDistinct(a: seq<Hex.Byte>, b: seq<Hex.Byte>)
    requires |a| == 16 && |b| == 16 && a != b
    ensures GenerateSessionId(a) != GenerateSessionId(b)
  {
    if Hex.Encode(a) == Hex.Encode(b) {
      Hex.EncodeInjective(a, b);
    }
  }

  // ---------------------------------------------------------------------------
  // insertUser (db.js:14-31)

  datatype Inserted = Inserted(row: Option<User>, store: Store)

  /** Inserting a row from username, email and password hash, and answering
      the stored row. The table assigns the next serial id, stamps both timestamps with `now` and
      leaves `is_admin` false; a duplicate username or email violates the
      table's constraints. Every failure is caught and answered with `null`. */
  function InsertUser(st: Store, db: Conn, username: string, email: string, passwordHash: string,
                      now: string): (r: Inserted)
    ensures r.row.None? ==> r.store == st
    ensures r.row.Some? <==> db.Up? && Select(st.users, UsernameIs(username)).None?
                                     && Select(st.users, EmailIs(email)).None?
    ensures r.row.Some? ==> r.store == st.(users := st.users + [r.row.value])
    ensures r.row.Some? ==> && r.row.value.username == username
                            && r.row.value.email == email
                            && r.row.value.passwordHash == passwordHash
                            && !r.row.value.isAdmin
    ensures r.row.Some? ==> forall i :: 0 <= i < |st.users| ==> st.users[i].id < r.row.value.id
  {
    if db.Down? || Select(st.users, UsernameIs(username)).Some? || Select(st.users, EmailIs(email)).Some? then
      Inserted(None, st)
    else
      var row := User(MaxId(st.users) + 1, username, email, passwordHash, now, now, false);
      Inserted(Some(row), st.(users := st.users + [row]))
  }

  /** Inserting a user keeps the table's constraints. */
  lemma InsertKeepsWellFormed(st: Store, db: Conn, username: string, email: string,
                              passwordHash: string, now: string)
    requires WellFormed(st)
    ensures WellFormed(InsertUser(st, db, username, email, passwordHash, now).store)
  {
    var r := InsertUser(st, db, username, email, passwordHash, now);
    if r.row.Some? {
      var users := r.store.users;
      forall i, j | 0 <= i < j < |users|
        ensures users[i].username != users[j].username && users[i].email != users[j].email
      {
        if j == |st.users| {
          assert users[i] == st.users[i];
        }
      }
    }
  }

  /** Round trip: the inserted row is what a lookup by its username or email
      then returns. */
  lemma InsertThenLookup(st: Store, username: string, email: string, passwordHash: string, now: string)
    requires InsertUser(st, Up, username, email, passwordHash, now).row.Some?
    ensures var r := InsertUser(st, Up, username, email, passwordHash, now);
            && GetUserByUsername(r.store, Up, username) == r.row
            && GetUserByEmail(r.store, Up, email) == r.row
  {
    var r := InsertUser(st, Up, username, email, passwordHash, now);
    SelectAppend(st.users, r.row.value, UsernameIs(username));
    SelectAppend(st.users, r.row.value, EmailIs(email));
  }

  /** A row appended after rows that do not match is the first match. */
  lemma {:induction false} SelectAppend(users: seq<User>, u: User, w: Where)
    requires Select(users, w).None? && Satisfies(u, w)
    ensures Select(users + [u], w) == Some(u)
  {
    if users != [] {
      assert (users + [u])[1..] == users[1..] + [u];
      SelectAppend(users[1..], u, w);
    }
  }

  // ---------------------------------------------------------------------------
  // verifyUserCredentials (db.js:33-53)

  /** A lookup on username and password hash together: the given password is
      compared verbatim with the stored hash; nothing is hashed. */
  function VerifyUserCredentials(st: Store, db: Conn, username: Option<string>, password: Option<string>)
    : (r: Fetch<Option<User>>)
    ensures r.Done? <==> db.Up?
    ensures r.Done? && r.value.Some? ==> && r.value.value in st.users
                                         && username == Some(r.value.value.username)
                                         && password == Some(r.value.value.passwordHash)
    ensures r.Done? && r.value.None? ==>
              forall i :: 0 <= i < |st.users| ==>
                !(username == Some(st.users[i].username) && password == Some(st.users[i].passwordHash))
  {
    if db.Down? then Thrown else Done(Select(st.users, CredentialsAre(username, password)))
  }

  // ---------------------------------------------------------------------------
  // createSession (db.js:55-72)

  /** The JavaScript value a caller hands to `createSession` as its `user`
      argument. src/lib/server/session.js passes the user record; both login
      routes pass `user.id`, a bare number. */
  datatype Owner = UserObject(user: User) | BareNumber(n: int)

  /** `user.id` as db.js:62 reads it: a number has no `id` property, so the
      read gives `undefined`, which the driver binds as NULL. */
  function IdProperty(o: Owner): Option<UserId> {
    match o
    case UserObject(u) => Some(u.id)
    case BareNumber(_) => None
  }

  datatype Created = Created(sessionId: SessionId, store: Store)

  /** A new `sessions` row under a fresh id, as db.js writes it: the stored
      owner is `user.id` of the argument. The freshness of the random id is a precondition. */
  function CreateSession(st: Store, db: Conn, random: seq<Hex.Byte>, owner: Owner): (r: Fetch<Created>)
    requires FreshEntropy(st, random)
    ensures r.Done? <==> db.Up?
    ensures r.Done? ==> && r.value.sessionId == GenerateSessionId(random)
                        && r.value.sessionId !in st.sessions
                        && r.value.store.users == st.users
                        && r.value.sessionId in r.value.store.sessions
                        && r.value.store.sessions[r.value.sessionId] == IdProperty(owner)
                        && r.value.store.sessions - {r.value.sessionId} == st.sessions
                        && |r.value.store.sessions| == |st.sessions| + 1
  {
    if db.Down? then Thrown
    else
      var sid := GenerateSessionId(random);
      Done(Created(sid, st.(sessions := st.sessions[sid := IdProperty(owner)])))
  }

  /** `createSession` over a user id, the form the login routes evidently
      intend when they pass `user.id`. The rest of the model uses this one. */
  function CreateSessionFor(st: Store, db: Conn, random: seq<Hex.Byte>, userId: UserId): (r: Fetch<Created>)
    requires FreshEntropy(st, random)
    ensures r.Done? <==> db.Up?
    ensures r.Done? ==> && r.value.sessionId == GenerateSessionId(random)
                        && r.value.sessionId !in st.sessions
                        && r.value.store.users == st.users
                        && r.value.sessionId in r.value.store.sessions
                        && r.value.store.sessions[r.value.sessionId] == Some(userId)
                        && r.value.store.sessions - {r.value.sessionId} == st.sessions
                        && |r.value.store.sessions| == |st.sessions| + 1
  {
    if db.Down? then Thrown
    else
      var sid := GenerateSessionId(random);
      Done(Created(sid, st.(sessions := st.sessions[sid := Some(userId)])))
  }

  /** Handing `createSession` the user record, as session.js does, is the
      same as creating the session for that user's id. */
  lemma CreateSessionForRecord(st: Store, db: Conn, random: seq<Hex.Byte>, u: User)
    requires FreshEntropy(st, random)
    ensures CreateSession(st, db, random, UserObject(u)) == CreateSessionFor(st, db, random, u.id)
  {
  }

  /** As written, the login routes' call `createSession(user.id, …)` stores a
      NULL owner, so the new session never resolves to a user. */
  lemma BareNumberSessionNeverResolves(st: Store, random: seq<Hex.Byte>, n: int)
    requires FreshEntropy(st, random)
    ensures var r := CreateSession(st, Up, random, BareNumber(n));
            r.Done? && Resolve(r.value.store, r.value.sessionId).None?
  {
  }

  /** A session created for a stored user resolves to that user. */
  lemma CreatedSessionResolves(st: Store, db: Conn, random: seq<Hex.Byte>, u: User)
    requires WellFormed(st) && u in st.users
    requires FreshEntropy(st, random)
    ensures var r := CreateSessionFor(st, db, random, u.id);
            r.Done? ==> Resolve(r.value.store, r.value.sessionId) == Some(u)
  {
    var r := CreateSessionFor(st, db, random, u.id);
    if r.Done? {
      SelectUnique(st, u, IdIs(u.id));
    }
  }

  // ---------------------------------------------------------------------------
  // destroySession (db.js:74-88)

  /** Deleting the `sessions` row with the given id; an unknown id deletes
      nothing. */
  function DestroySession(st: Store, db: Conn, sessionId: SessionId): (r: Fetch<Store>)
    ensures r.Done? <==> db.Up?
    ensures r.Done? ==> && r.value.users == st.users
                        && sessionId !in r.value.sessions
                        && forall s :: s != sessionId ==>
                             (s in r.value.sessions <==> s in st.sessions)
                             && (s in st.sessions ==> r.value.sessions[s] == st.sessions[s])
    ensures r.Done? && sessionId !in st.sessions ==> r.value == st
  {
    if db.Down? then Thrown else Done(st.(sessions := st.sessions - {sessionId}))
  }

  /** After the delete the id resolves to no user, and deleting again changes
      nothing. */
  lemma DestroyThenResolve(st: Store, sessionId: SessionId)
    ensures var r := DestroySession(st, Up, sessionId);
            && r.Done?
            && Resolve(r.value, sessionId).None?
            && DestroySession(r.value, Up, sessionId) == r
  {
  }

  // ---------------------------------------------------------------------------
  // getUserFromSession (db.js:90-115)

  /** The join of `sessions` with `users` on the owner id, first row: the user
      whose id is the session's owner. A NULL owner joins no user. */
  function Resolve(st: Store, sessionId: SessionId): (r: Option<User>)
    ensures r.Some? ==> && sessionId in st.sessions
                        && st.sessions[sessionId] == Some(r.value.id)
                        && r.value in st.users
    ensures r.None? <==> || sessionId !in st.sessions
                         || st.sessions[sessionId].None?
                         || forall i :: 0 <= i < |st.users| ==> st.users[i].id != st.sessions[sessionId].value
  {
    if sessionId in st.sessions && st.sessions[sessionId].Some? then
      Select(st.users, IdIs(st.sessions[sessionId].value))
    else None
  }

  /** The db.js function: the join above, rethrowing store errors. */
  function GetUserFromSession(st: Store, db: Conn, sessionId: SessionId): (r: Fetch<Option<User>>)
    ensures r.Done? <==> db.Up?
    ensures r.Done? ==> r.value == Resolve(st, sessionId)
  {
    if db.Down? then Thrown else Done(Resolve(st, sessionId))
  }

  // ---------------------------------------------------------------------------
  // getUserByEmail, getUserByUsername (db.js:118-160)

  /** The first row with the given email; errors answer `null`. */
  function GetUserByEmail(st: Store, db: Conn, email: string): (r: Option<User>)
    ensures r.Some? ==> db.Up? && r.value in st.users && r.value.email == email
    ensures r.None? <==> db.Down? || forall i :: 0 <= i < |st.users| ==> st.users[i].email != email
  {
    if db.Down? then None else Select(st.users, EmailIs(email))
  }

  /** The first row with the given username; errors answer `null`. The
      comparison is exact (case-sensitive). */
  function GetUserByUsername(st: Store, db: Conn, username: string): (r: Option<User>)
    ensures r.Some? ==> db.Up? && r.value in st.users && r.value.username == username
    ensures r.None? <==> db.Down? || forall i :: 0 <= i < |st.users| ==> st.users[i].username != username
  {
    if db.Down? then None else Select(st.users, UsernameIs(username))
  }
}
