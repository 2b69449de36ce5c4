/** src/routes/api/auth/session/+server.js: `GET` returns the session's user
    without its password hash; `DELETE` clears the cookie only. */
module SessionApi {
  import opened Wrappers
  import opened Db
  import opened Http
  import opened RouteGuard

  /** The `user` object of the `GET` response (lines 23-31). It has no field
      for the password hash. */
  datatype PublicUser = PublicUser(
    id: UserId,
    username: string,
    email: string,
    isAdmin: bool,
    avatar: string,
    createdAt: string,
    updatedAt: string)

  /** Copies the seven public fields of a user row, with the avatar computed
      for the request. */
  function Project(u: User, avatar: string): (p: PublicUser)
    ensures p.id == u.id && p.username == u.username && p.email == u.email && p.isAdmin == u.isAdmin
    ensures p.createdAt == u.createdAt && p.updatedAt == u.updatedAt && p.avatar == avatar
  {
    PublicUser(u.id, u.username, u.email, u.isAdmin, avatar, u.createdAt, u.updatedAt)
  }

  /** Two rows that differ only in their password hash project alike: the
      response reveals nothing about the hash. */
  lemma ProjectionHidesHash(u: User, hash: string, avatar: string)
    ensures Project(u.(passwordHash := hash), avatar) == Project(u, avatar)
  {
  }

  datatype GetOutcome =
    | GetHttpError(status: int, message: string)
    | Json(user: PublicUser)
    | GetServerError      // a TypeError or a rethrown store error

  /** `GET`. `gravatar` is `Utils.gravatar`, which is not defined in the files
      modelled here. The store is only read: the result carries none. */
  function Get(st: Store, db: Conn, cookie: Option<string>, gravatar: string -> string): (r: GetOutcome)
    ensures r.GetHttpError? ==> r == GetHttpError(401, "Unauthorized")
    ensures r.GetHttpError? <==> !Truthy(cookie) || SessionGate(st, db, cookie).FalsyId?
    ensures r.Json? <==> SessionGate(st, db, cookie).Admitted?
    ensures r.Json? ==> && Resolve(st, cookie.value).Some?
                        && var u := Resolve(st, cookie.value).value;
                           r.user == Project(u, gravatar(u.email))
  {
    match SessionGate(st, db, cookie)
    case NoCookie => GetHttpError(401, "Unauthorized")
    case StoreThrew => GetServerError
    case NullUser => GetServerError
    case FalsyId => GetHttpError(401, "Unauthorized")
    case Admitted(_, u) => Json(Project(u, gravatar(u.email)))
  }

  datatype DeleteOutcome =
    | DeleteHttpError(status: int, message: string)
    | LoggedOut           // `json({ message: "Logged out successfully." })`
    | DeleteServerError

  datatype DeleteResult = DeleteResult(outcome: DeleteOutcome, cookies: seq<CookieEffect>)

  /** `DELETE`: needs a session that resolves, then deletes the cookie and
      nothing else. The result carries no store: the session row is kept. */
  function Delete(st: Store, db: Conn, cookie: Option<string>): (r: DeleteResult)
    ensures r.outcome.LoggedOut? <==> SessionGate(st, db, cookie).Admitted?
    ensures r.outcome.LoggedOut? ==> r.cookies == [DeleteCookie(SessionCookieName, "/")]
    ensures !r.outcome.LoggedOut? ==> r.cookies == []
    ensures r.outcome.DeleteHttpError? <==> !Truthy(cookie) || SessionGate(st, db, cookie).FalsyId?
    ensures r.outcome.DeleteHttpError? ==> r.outcome == DeleteHttpError(401, "Unauthorized")
  {
    match SessionGate(st, db, cookie)
    case NoCookie => DeleteResult(DeleteHttpError(401, "Unauthorized"), [])
    case StoreThrew => DeleteResult(DeleteServerError, [])
    case NullUser => DeleteResult(DeleteServerError, [])
    case FalsyId => DeleteResult(DeleteHttpError(401, "Unauthorized"), [])
    case Admitted(_, _) => DeleteResult(LoggedOut, [DeleteCookie(SessionCookieName, "/")])
  }

  /** After a `DELETE` the session still resolves: a client that kept the id
      can still use it, and `GET` still answers with the same user. */
  lemma DeleteLeavesSessionUsable(st: Store, cookie: Option<string>, gravatar: string -> string)
    requires Delete(st, Up, cookie).outcome.LoggedOut?
    ensures Resolve(st, cookie.value).Some?
    ensures Get(st, Up, cookie, gravatar).Json?
  {
  }
}
