/**
 * The route guard of middleware.ts: decides, from the request path and the authentication cookie,
 * whether a request passes through or is redirected.
 */
module Middleware {

  const AuthCookieName := "tunnelvision_auth"
  const LoginPrefix := "/login"
  const DashboardPrefix := "/dashboard"

  /** What the guard answers: let the request through, or redirect it to a path. */
  datatype Decision = Next | Redirect(target: string)

  /** The request's cookies, by name. */
  type Cookies = map<string, string>

  /**
   * A request is authenticated when the auth cookie is present with a non-empty value
   * (`!!` of a string is false only for the empty string).
   */
  predicate IsAuthenticated(cookies: Cookies): (b: bool)
    ensures b ==> AuthCookieName in cookies && cookies[AuthCookieName] != ""
  {
    AuthCookieName in cookies && cookies[AuthCookieName] != ""
  }

  /** Only the auth cookie counts: any other cookie can be set or dropped without changing the answer. */
  lemma OtherCookiesIgnored(cookies: Cookies, name: string, value: string)
    requires name != AuthCookieName
    ensures IsAuthenticated(cookies[name := value]) == IsAuthenticated(cookies)
    ensures IsAuthenticated(cookies - {name}) == IsAuthenticated(cookies)
  {
  }

  /** `middleware`: the prefix tests are `startsWith`, so `/login-x` counts as a login page. */
  function Route(pathname: string, cookies: Cookies): (d: Decision)
    ensures d.Redirect? ==> (d.target == DashboardPrefix <==> IsAuthenticated(cookies))
    ensures d.Redirect? ==> d.target == DashboardPrefix || d.target == LoginPrefix
  {
    if LoginPrefix <= pathname then
      if IsAuthenticated(cookies) then Redirect(DashboardPrefix) else Next
    else if DashboardPrefix <= pathname then
      if !IsAuthenticated(cookies) then Redirect(LoginPrefix) else Next
    // the redirect of other unauthenticated paths to the login page is disabled in the source
    else Next
  }

  /** Login pages: signed-in users are sent to the dashboard, everyone else may see the page. */
  lemma LoginPageRule(pathname: string, cookies: Cookies)
    requires LoginPrefix <= pathname
    ensures Route(pathname, cookies) == (if IsAuthenticated(cookies) then Redirect(DashboardPrefix) else Next)
  {
  }

  /** Dashboard pages: anonymous users are sent to the login page, signed-in users pass. */
  lemma DashboardPageRule(pathname: string, cookies: Cookies)
    requires DashboardPrefix <= pathname
    ensures Route(pathname, cookies) == (if IsAuthenticated(cookies) then Next else Redirect(LoginPrefix))
  {
    LoginIsNotDashboard(pathname);
  }

  /** No path has both prefixes: they differ at their second character. */
  lemma LoginIsNotDashboard(pathname: string)
    requires DashboardPrefix <= pathname
    ensures !(LoginPrefix <= pathname)
  {
    assert pathname[1] == 'd';
  }

  /** A request carrying a non-empty auth cookie reaches the dashboard and is sent away from the login page. */
  lemma SignedInRouting(pathname: string, cookies: Cookies)
    requires AuthCookieName in cookies && cookies[AuthCookieName] != ""
    ensures DashboardPrefix <= pathname ==> Route(pathname, cookies) == Next
    ensures LoginPrefix <= pathname ==> Route(pathname, cookies) == Redirect(DashboardPrefix)
  {
    if DashboardPrefix <= pathname {
      DashboardPageRule(pathname, cookies);
    }
  }

  /** A request without the auth cookie, or with an empty one, reaches the login page and not the dashboard. */
  lemma AnonymousRouting(pathname: string, cookies: Cookies)
    requires AuthCookieName !in cookies || cookies[AuthCookieName] == ""
    ensures DashboardPrefix <= pathname ==> Route(pathname, cookies) == Redirect(LoginPrefix)
    ensures LoginPrefix <= pathname ==> Route(pathname, cookies) == Next
  {
    if DashboardPrefix <= pathname {
      DashboardPageRule(pathname, cookies);
    }
  }

  /** Every other path passes, whatever the cookie says. */
  lemma OtherPathsPass(pathname: string, cookies: Cookies)
    requires !(LoginPrefix <= pathname) && !(DashboardPrefix <= pathname)
    ensures Route(pathname, cookies) == Next
  {
  }

  /**
   * The guard's promise: an anonymous request never passes to a dashboard page, and a signed-in one
   * never passes to a login page.
   */
  lemma GuardSeparatesAudiences(pathname: string, cookies: Cookies)
    ensures DashboardPrefix <= pathname && Route(pathname, cookies) == Next ==> IsAuthenticated(cookies)
    ensures LoginPrefix <= pathname && Route(pathname, cookies) == Next ==> !IsAuthenticated(cookies)
  {
    if DashboardPrefix <= pathname {
      DashboardPageRule(pathname, cookies);
    }
  }

  /** An empty auth cookie value counts as no auth cookie at all. */
  lemma EmptyCookieIsAnonymous(pathname: string, cookies: Cookies)
    ensures Route(pathname, cookies[AuthCookieName := ""]) == Route(pathname, cookies - {AuthCookieName})
  {
  }
}
