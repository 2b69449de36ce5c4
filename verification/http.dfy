/** The SvelteKit request surface the handlers touch: the `sessionid` cookie,
    cookie writes, and JavaScript truthiness of form and cookie values. */
module Http {
  import opened Wrappers

  const SessionCookieName: string := "sessionid"

  /** JavaScript truthiness of a value that is a string, `null` or `undefined`:
      the empty string is falsy too. */
  predicate Truthy(v: Option<string>) {
    v.Some? && v.value != ""
  }

  /** The options object given to `cookies.set`; `None` is an option left out. */
  datatype CookieOptions = CookieOptions(
    path: string,
    httpOnly: Option<bool>,
    sameSite: Option<string>,
    secure: Option<bool>,
    maxAge: Option<int>)

  /** A cookie write a handler performs on the response. */
  datatype CookieEffect =
    | SetCookie(name: string, value: string, options: CookieOptions)  // `cookies.set`
    | DeleteCookie(name: string, path: string)                         // `cookies.delete`
}
