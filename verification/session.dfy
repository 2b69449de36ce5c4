/** src/lib/server/session.js: login, logout and cookie lookup on top of db.js. */
module Session {
  import opened Wrappers
  import Hex
  import opened Db

  datatype LoginResult =
    | LoggedIn(sessionId: SessionId, user: User)  // `{ sessionId, user }`
    | InvalidCredentials                          // `throw new Error("Invalid credentials")`
    | StoreError                                  // an error rethrown by db.js

  datatype Login = Login(result: LoginResult, store: Store)

  /** `loginUser(username, password)`: verify the credentials and, for the user
      found, create a session. This caller hands `createSession` the user
      record, which is what db.js:62 reads `id` from. */
  function LoginUser(st: Store, db: Conn, random: seq<Hex.Byte>, username: string, password: string)
    : (r: Login)
    requires FreshEntropy(st, random)
    ensures r.result.LoggedIn? <==> db.Up? && Select(st.users, CredentialsAre(Some(username), Some(password))).Some?
    ensures r.result.LoggedIn? ==>
              Select(st.users, CredentialsAre(Some(username), Some(password))) == Some(r.result.user)
    ensures r.result.InvalidCredentials? <==>
              db.Up? && forall i :: 0 <= i < |st.users| ==>
                          !(st.users[i].username == username && st.users[i].passwordHash == password)
    ensures r.result.StoreError? <==> db.Down?
    ensures !r.result.LoggedIn? ==> r.store == st
    ensures r.result.LoggedIn? ==> && r.store.users == st.users
                                   && r.result.sessionId !in st.sessions
                                   && r.store.sessions == st.sessions[r.result.sessionId := Some(r.result.user.id)]
  {
    match VerifyUserCredentials(st, db, Some(username), Some(password))
    case Thrown => Login(StoreError, st)
    case Done(None) => Login(InvalidCredentials, st)
    case Done(Some(user)) =>
      match CreateSession(st, db, random, UserObject(user))
      case Thrown => Login(StoreError, st)
      case Done(c) => Login(LoggedIn(c.sessionId, user), c.store)
  }

  /** `logoutUser(sessionId)`: destroy the session. */
  function LogoutUser(st: Store, db: Conn, sessionId: SessionId): (r: Fetch<Store>)
    ensures r.Done? <==> db.Up?
    ensures r.Done? ==> r.value.users == st.users && sessionId !in r.value.sessions
    ensures r.Done? ==> r.value.sessions == st.sessions - {sessionId}
  {
    DestroySession(st, db, sessionId)
  }

  /** `getUserFromCookie(cookieValue)`: the user of the session the cookie names. */
  function GetUserFromCookie(st: Store, db: Conn, cookieValue: SessionId): (r: Fetch<Option<User>>)
    ensures r.Done? <==> db.Up?
    ensures r.Done? ==> r.value == Resolve(st, cookieValue)
    ensures r.Done? && r.value.Some? ==> && cookieValue in st.sessions
                                         && st.sessions[cookieValue] == Some(r.value.value.id)
                                         && r.value.value in st.users
  {
    GetUserFromSession(st, db, cookieValue)
  }

  /** Round trip: right after a successful login, the cookie holding the new
      session id yields the logged-in user; with the table's constraints it is
      that very record. */
  lemma LoginThenCookie(st: Store, random: seq<Hex.Byte>, username: string, password: string)
    requires FreshEntropy(st, random)
    ensures var r := LoginUser(st, Up, random, username, password);
            r.result.LoggedIn? ==>
              && GetUserFromCookie(r.store, Up, r.result.sessionId).Done?
              && GetUserFromCookie(r.store, Up, r.result.sessionId).value.Some?
              && GetUserFromCookie(r.store, Up, r.result.sessionId).value.value.id == r.result.user.id
              && (WellFormed(st) ==> GetUserFromCookie(r.store, Up, r.result.sessionId).value == Some(r.result.user))
  {
    var r := LoginUser(st, Up, random, username, password);
    if r.result.LoggedIn? {
      var u := r.result.user;
      assert u in st.users;
      var k :| 0 <= k < |st.users| && st.users[k] == u;
      assert r.store.sessions[r.result.sessionId] == Some(u.id);
      assert Select(r.store.users, IdIs(u.id)).Some?;
      if WellFormed(st) {
        SelectUnique(st, u, IdIs(u.id));
      }
    }
  }

  /** After a logout the cookie no longer yields a user. */
  lemma LogoutThenCookie(st: Store, sessionId: SessionId)
    ensures var r := LogoutUser(st, Up, sessionId);
            r.Done? && GetUserFromCookie(r.value, Up, sessionId) == Done(None)
  {
  }

  /** Logging out twice leaves the same store as logging out once. */
  lemma LogoutIdempotent(st: Store, db: Conn, sessionId: SessionId)
    ensures var r := LogoutUser(st, db, sessionId);
            r.Done? ==> LogoutUser(r.value, db, sessionId) == r
  {
  }
}
