/** The guard in front of every authenticated route: navigation goes on
    when the router context holds a signed-in session store, and is
    otherwise redirected to the login page, which is told where the user
    was going. */
module AuthRoute {
  import opened AuthStore

  const LoginPath: string := "/login"

  /** What `beforeLoad` does: let the navigation proceed, or throw a
      redirect to `to` carrying `search.redirect`. */
  datatype Decision = Proceed | Redirect(to: string, redirectSearch: string)

  /** `beforeLoad({ context, location })`. The context's `auth` is the
      session store, or `null` for the `undefined` the router starts with;
      `href` is `location.href`. As a function it can only read the
      store. */
  function BeforeLoad(auth: Store?, href: string, decode: Decoder, nowMs: int): (d: Decision)
    reads auth
    ensures d.Proceed? <==> auth != null && IsTokenValid(auth.token, decode, nowMs)
    ensures d.Redirect? ==> d == Redirect(LoginPath, href)
  {
    if auth != null && auth.IsLogged(decode, nowMs) then Proceed
    else Redirect(LoginPath, href)
  }

  /** Before the application installs its store the context is
      `undefined`, and every guarded navigation is sent to `/login`. */
  lemma UndefinedContextRedirects(href: string, decode: Decoder, nowMs: int)
    ensures BeforeLoad(null, href, decode, nowMs) == Redirect(LoginPath, href)
  {
  }
}
