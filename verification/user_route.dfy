/** src/routes/user/+server.js: `GET /user` sends a visitor to the profile
    page or to the login page. */
module UserRoute {
  import opened Wrappers
  import opened Db
  import opened Http
  import opened RouteGuard

  const LoginLocation: string := "/auth/login"
  const ProfileLocation: string := "/user/profile"

  datatype Outcome =
    | Redirect(status: int, location: string)
    | ServerError     // a TypeError on a session without user, or a rethrown store error

  /** The store is only read: the result carries none. */
  function Get(st: Store, db: Conn, cookie: Option<string>): (r: Outcome)
    ensures r.Redirect? ==> r.status == 302
    ensures r == Redirect(302, ProfileLocation) <==> SessionGate(st, db, cookie).Admitted?
    ensures r == Redirect(302, LoginLocation) <==> !Truthy(cookie) || SessionGate(st, db, cookie).FalsyId?
    ensures r.ServerError? <==> Truthy(cookie) && (db.Down? || Resolve(st, cookie.value).None?)
  {
    match SessionGate(st, db, cookie)
    case NoCookie => Redirect(302, LoginLocation)
    case StoreThrew => ServerError
    case NullUser => ServerError
    case FalsyId => Redirect(302, LoginLocation)
    case Admitted(_, _) => Redirect(302, ProfileLocation)
  }

  /** In a store with serial ids the handler always redirects when the store
      answers and the cookie's session resolves, and it picks the profile page
      exactly for a live session. */
  lemma LiveSessionReachesProfile(st: Store, cookie: Option<string>)
    requires WellFormed(st)
    ensures Get(st, Up, cookie) == Redirect(302, ProfileLocation) <==> Truthy(cookie) && Resolve(st, cookie.value).Some?
    ensures !Truthy(cookie) ==> Get(st, Up, cookie) == Redirect(302, LoginLocation)
  {
    if Truthy(cookie) && Resolve(st, cookie.value).Some? {
      SerialIdsAdmit(st, cookie);
    }
  }
}
