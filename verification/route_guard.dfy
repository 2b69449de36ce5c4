/** The opening shared by the session-protected handlers (src/routes/auth/logout,
    src/routes/api/auth/session, src/routes/user): read the `sessionid` cookie,
    fetch the session's user, and test `user.id`. */
module RouteGuard {
  import opened Wrappers
  import opened Db
  import opened Http

  datatype Gate =
    | NoCookie                                    // `!sessionId`
    | StoreThrew                                  // getUserFromSession rethrew
    | NullUser                                    // `user.id` read on `null`: a TypeError
    | FalsyId                                     // `!user.id`: the id is 0
    | Admitted(sessionId: SessionId, user: User)

  function SessionGate(st: Store, db: Conn, cookie: Option<string>): (g: Gate)
    ensures g.NoCookie? <==> !Truthy(cookie)
    ensures g.StoreThrew? <==> Truthy(cookie) && db.Down?
    ensures g.NullUser? <==> Truthy(cookie) && db.Up? && Resolve(st, cookie.value).None?
    ensures g.FalsyId? <==> && Truthy(cookie) && db.Up? && Resolve(st, cookie.value).Some?
                            && Resolve(st, cookie.value).value.id == 0
    ensures g.Admitted? ==> && cookie == Some(g.sessionId)
                            && Resolve(st, g.sessionId) == Some(g.user)
                            && g.user.id != 0
  {
    if !Truthy(cookie) then NoCookie
    else match GetUserFromSession(st, db, cookie.value)
      case Thrown => StoreThrew
      case Done(None) => NullUser
      case Done(Some(user)) => if user.id == 0 then FalsyId else Admitted(cookie.value, user)
  }

  /** Every session that resolves passes the gate in a store whose ids are
      serial: the falsy-id branch is unreachable there. */
  lemma SerialIdsAdmit(st: Store, cookie: Option<string>)
    requires WellFormed(st)
    requires Truthy(cookie) && Resolve(st, cookie.value).Some?
    ensures SessionGate(st, Up, cookie) == Admitted(cookie.value, Resolve(st, cookie.value).value)
  {
    var u := Resolve(st, cookie.value).value;
    var k :| 0 <= k < |st.users| && st.users[k] == u;
  }
}
