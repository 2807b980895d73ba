/** The route middleware (proxy.ts and middle.ts): the same three ordered
    checks, differing only in the role literal required for `/admin` pages. */
module Middleware {
  import opened Common
  import opened Text
  import opened Session

  datatype Decision = Redirect(target: string) | Proceed

  /** The `matcher` list: `/`, `/report`, and `/admin` and `/auth` with any sub-path. */
  predicate Matched(path: string) {
    path == "/" || path == "/report"
    || path == "/admin" || StartsWith(path, "/admin/")
    || path == "/auth" || StartsWith(path, "/auth/")
  }

  /** No path is both an `/auth` page and an `/admin` page. */
  lemma AuthAdminDisjoint(path: string)
    ensures !(StartsWith(path, "/auth") && StartsWith(path, "/admin"))
  {
    if StartsWith(path, "/auth") {
      assert path[2] == 'u';
    }
  }

  /** The middleware body for a matched request, with `adminRole` the literal the file compares to. */
  function Decide(path: string, token: Option<Token>, adminRole: string): (d: Decision)
    ensures StartsWith(path, "/auth") && token.Some? ==> d == Redirect("/")
    ensures !StartsWith(path, "/auth") && token.None? ==> d == Redirect("/auth/signin")
    ensures d.Redirect? ==> d.target in {"/", "/auth/signin", "/unauthorized"}
    ensures d == Redirect("/unauthorized") <==>
      token.Some? && !StartsWith(path, "/auth") && StartsWith(path, "/admin") && token.value.role != Some(adminRole)
  {
    AuthAdminDisjoint(path);
    var isAuth := token.Some?;
    var isAuthPage := StartsWith(path, "/auth");
    var isAdminPage := StartsWith(path, "/admin");
    if isAuthPage && isAuth then Redirect("/")
    else if !isAuthPage && !isAuth then Redirect("/auth/signin")
    else if isAdminPage && (token.None? || token.value.role != Some(adminRole)) then Redirect("/unauthorized")
    else Proceed
  }

  /** A request passes exactly when it is an anonymous visit to an `/auth` page,
      or a signed-in visit elsewhere that is not an `/admin` page or carries the role. */
  lemma ProceedIff(path: string, token: Option<Token>, adminRole: string)
    ensures Decide(path, token, adminRole) == Proceed <==>
      (StartsWith(path, "/auth") && token.None?)
      || (!StartsWith(path, "/auth") && token.Some?
          && (!StartsWith(path, "/admin") || token.value.role == Some(adminRole)))
  {
  }

  /** The checks run in order: an anonymous `/admin` request is sent to sign-in, not to `/unauthorized`. */
  lemma AnonymousAdminGoesToSignIn(path: string, adminRole: string)
    requires StartsWith(path, "/admin")
    ensures Decide(path, None, adminRole) == Redirect("/auth/signin")
  {
    AuthAdminDisjoint(path);
  }

  /** proxy.ts: `/admin` requires the role `'admin'`; unmatched paths are not intercepted. */
  function Proxy(path: string, token: Option<Token>): (d: Decision)
    ensures !Matched(path) ==> d == Proceed
    ensures Matched(path) ==> d == Decide(path, token, "admin")
  {
    if Matched(path) then Decide(path, token, "admin") else Proceed
  }

  /** middle.ts: `/admin` requires the role `'system-admin'`. */
  function Middle(path: string, token: Option<Token>): (d: Decision)
    ensures !Matched(path) ==> d == Proceed
    ensures Matched(path) ==> d == Decide(path, token, "system-admin")
  {
    if Matched(path) then Decide(path, token, "system-admin") else Proceed
  }

  /** The two files disagree only on `/admin` pages, and no token role gets past both. */
  lemma ProxyAndMiddleDiffer(path: string, token: Option<Token>)
    ensures Proxy(path, token) != Middle(path, token) ==> Matched(path) && StartsWith(path, "/admin")
    ensures StartsWith(path, "/admin") && Matched(path) && token.Some? ==>
      !(Proxy(path, token) == Proceed && Middle(path, token) == Proceed)
  {
    AuthAdminDisjoint(path);
  }
}

/** The client-side admin guard (components/AuthGuard.tsx). */
module AdminGuard {
  import opened Common
  import opened Session

  datatype SessionStatus = Loading | Authenticated | Unauthenticated

  datatype Render = Spinner | Nothing | Children

  /** `session?.user?.role === 'system-admin'`. */
  predicate IsAuthorized(session: Option<SessionUser>) {
    session.Some? && session.value.role == Some("system-admin")
  }

  /** The effect's navigation, if any. */
  function Navigate(status: SessionStatus, session: Option<SessionUser>): (nav: Option<string>)
    ensures status.Unauthenticated? ==> nav == Some("/auth/signin")
    ensures status.Authenticated? && !IsAuthorized(session) ==> nav == Some("/")
    ensures nav.None? <==> status.Loading? || (status.Authenticated? && IsAuthorized(session))
  {
    if status.Unauthenticated? then Some("/auth/signin")
    else if status.Authenticated? && !IsAuthorized(session) then Some("/")
    else None
  }

  /** What the guard renders. */
  function View(status: SessionStatus, session: Option<SessionUser>): (r: Render)
    ensures status.Loading? ==> r == Spinner
    ensures r == Children <==> !status.Loading? && IsAuthorized(session)
  {
    if status.Loading? then Spinner
    else if session.None? || !IsAuthorized(session) then Nothing
    else Children
  }

  /** Whenever the children are shown, the guard navigates nowhere, and whenever
      it navigates away, the children are not shown. */
  lemma ChildrenOnlyWithoutRedirect(status: SessionStatus, session: Option<SessionUser>)
    ensures View(status, session) == Children ==> Navigate(status, session).None? || status.Unauthenticated?
    ensures Navigate(status, session) == Some("/") ==> View(status, session) == Nothing
  {
  }
}
