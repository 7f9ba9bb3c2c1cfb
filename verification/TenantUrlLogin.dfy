/**
 Who is sent to log in, and whom an API token acts as: the cookie check comes after
 the token check and does not look at what that attached.
 */
module TenantUrlLogin {
  import opened Wrappers
  import opened TenantUrl
  import opened TenantUrlTheorems

  predicate SentToLogin(r: Response) {
    r.ToLogin? || r.ToChoice?
  }

  /** The request meets the auth chain: below a slug always, elsewhere on a guarded route. */
  predicate Asks(server: Server, req: Request) {
    || Prefixed(req.path)
    || (&& !Slashless(req.path) && !(req.verb == Get && req.path == "/")
        && server.routes(req.verb, req.path) in {Page, Guarded})
  }

  /** The chain sends to log in when there is no token or a good one, browser login is
      configured and finds no session, and nothing was attached before. */
  lemma ChainSends(server: Server, req: Request, path: string)
    ensures var auth := Authenticate(server, req, path, None);
      && (auth.Failure? && SentToLogin(auth.error) <==>
          TokenPasses(server, req) && server.webauth && !Valid(req.session))
      && (auth.Failure? && SentToLogin(auth.error) ==> auth.error.returnTo == path)
      && (auth.Failure? && auth.error.ToChoice? ==> req.session.Some? && req.session.value.tenants != [])
  {
  }

  lemma InnermostSends(server: Server, dir: Directory, req: Request, path: string, viaPrefix: bool, rc: Option<string>)
    requires WellFormed(dir) && !Prefixed(path)
    ensures var r, auth := Dispatch(server, dir, req, path, viaPrefix, rc), Authenticate(server, req, path, rc);
      if Asks(server, req.(path := path)) && auth.Failure? then r == auth.error else !SentToLogin(r)
  {
  }

  lemma PrefixedSends(server: Server, dir: Directory, req: Request, path: string, viaPrefix: bool, rc: Option<string>)
    requires WellFormed(dir) && Prefixed(path)
    ensures var r, auth := Dispatch(server, dir, req, path, viaPrefix, rc), Authenticate(server, req, path, rc);
      if auth.Failure? then r == auth.error
      else !SentToLogin(r) || r == Dispatch(server, dir, req, Rest(path), true, Some(auth.value))
  {
  }

  /** Past the chain once, nothing further in sends to the login page. */
  lemma {:induction false} OnceIsEnough(server: Server, dir: Directory, req: Request, path: string, tenant: string)
    requires WellFormed(dir) && Identity(server, req) == Some(tenant)
    ensures !SentToLogin(Dispatch(server, dir, req, path, true, Some(tenant)))
    decreases |path|
  {
    SameOnEveryPass(server, req, path, Some(tenant));
    if Prefixed(path) {
      PrefixedSends(server, dir, req, path, true, Some(tenant));
      OnceIsEnough(server, dir, req, Rest(path), tenant);
    } else {
      InnermostSends(server, dir, req, path, true, Some(tenant));
    }
  }

  /** A request is sent to log in, or to choose a tenant, exactly when it meets the chain
      with no token or a good one, and browser login finds no session; it is to come
      back to where it was going. */
  lemma SentToLoginExactlyWhen(server: Server, dir: Directory, req: Request)
    requires WellFormed(dir)
    ensures var r := Respond(server, dir, req);
      && (SentToLogin(r) <==>
          Asks(server, req) && TokenPasses(server, req) && server.webauth && !Valid(req.session))
      && (SentToLogin(r) ==> r.returnTo == req.path)
      && (r.ToChoice? ==> req.session.Some? && req.session.value.tenants != [])
  {
    ChainSends(server, req, req.path);
    if Prefixed(req.path) {
      PrefixedSends(server, dir, req, req.path, false, None);
      SameOnEveryPass(server, req, req.path, None);
      if Identity(server, req).Some? {
        OnceIsEnough(server, dir, req, Rest(req.path), Identity(server, req).value);
      }
    } else {
      InnermostSends(server, dir, req, req.path, false, None);
    }
  }

  /** A request that carries an API token is meant to be refused, never redirected to
      log in. That holds exactly when the token is bad, or browser login is not
      configured, or there is a session too. */
  lemma TokenIsNeverRedirectedExactlyWhen(server: Server, dir: Directory, req: Request)
    requires WellFormed(dir) && Asks(server, req) && server.svcauth && !req.bearer.NoToken?
    ensures !SentToLogin(Respond(server, dir, req)) <==> !req.bearer.Token? || !server.webauth || Valid(req.session)
  {
    SentToLoginExactlyWhen(server, dir, req);
  }

  /** What is served to a token is served for the token's tenant exactly when no login
      says otherwise. The landing page does not look at the token at all: there the
      cookie must name that tenant, or without one the development headers. */
  lemma TokenActsForItsTenantExactlyWhen(server: Server, dir: Directory, req: Request, t: string, p: string)
    requires WellFormed(dir) && Respond(server, dir, req) == Served(t, p) && server.svcauth && req.bearer.Token?
    ensures t == req.bearer.tenant <==>
              if IsRoot(req) && server.webauth && Valid(req.session) then req.session.value.active == req.bearer.tenant
              else if IsRoot(req) then server.devAuth && req.dev == Some(req.bearer.tenant)
              else !server.webauth || (req.session.Some? && req.session.value.active == req.bearer.tenant)
  {
    if IsRoot(req) {
      RootServedExactlyWhen(server, dir, req, t, p);
    } else {
      ServedExactlyWhen(server, dir, req, t, p);
    }
  }

  /** Tenants A and B, with their slugs. */
  function TwoTenants(): Directory {
    Directory(map["a" := "A", "b" := "B"], true)
  }

  function Guards(webauth: bool, devAuth: bool): Server {
    Server(webauth, true, devAuth, true, (verb, path) => Guarded)
  }

  lemma PlainPath()
    ensures SlugOf("/crm") == "" && !Prefixed("/crm") && !Slashless("/crm")
  {
    assert "/crm"[..3][1] == 'c';
  }

  /** A token for A, no cookie, browser login configured: the login page. */
  lemma TokenIsSentToLogin()
    ensures WellFormed(TwoTenants())
    ensures var req := Request(Get, "/crm", false, false, "", Token("A"), None, None);
      Respond(Guards(true, false), TwoTenants(), req) == ToLogin("/crm")
  {
    PlainPath();
  }

  /** And so under A's own slug. */
  lemma TokenIsSentToLoginUnderItsSlug()
    ensures WellFormed(TwoTenants())
    ensures var req := Request(Get, "/t/a/crm", false, false, "", Token("A"), None, None);
      Respond(Guards(true, false), TwoTenants(), req) == ToLogin("/t/a/crm")
  {
    PrefixThenStrip("a", "/crm");
    assert "/t/" + "a" + "/crm" == "/t/a/crm";
  }

  /** A token for A and a cookie for B: the page is B's. */
  lemma TokenIsOverruled()
    ensures WellFormed(TwoTenants())
    ensures var req := Request(Get, "/crm", false, false, "", Token("A"), Some(Session("B", [])), None);
      Respond(Guards(true, false), TwoTenants(), req) == Served("B", "/crm")
  {
    PlainPath();
  }

  /** A's landing page, with a token for A and development headers for B: B's. */
  lemma SlugShowsAnotherTenant()
    ensures WellFormed(TwoTenants())
    ensures var req := Request(Get, "/t/a/", false, false, "", Token("A"), None, Some("B"));
      Slugs(req.path) == ["a"] && Respond(Guards(false, true), TwoTenants(), req) == Served("B", "/")
  {
    PrefixThenStrip("a", "/");
    assert "/t/" + "a" + "/" == "/t/a/";
  }

  /** A landing page stamped for B is served for A. */
  lemma StampIsNotChecked()
    ensures WellFormed(TwoTenants())
    ensures var req := Request(Get, "/", false, false, "B", NoToken, None, Some("A"));
      Respond(Guards(false, true), TwoTenants(), req) == Served("A", "/")
  {
  }

  /** A rejected token beside a valid cookie: redirected to the slug first, refused there. */
  lemma RejectedTokenIsNoticedLate()
    ensures WellFormed(TwoTenants())
    ensures var req := Request(Get, "/", false, false, "", Rejected, Some(Session("A", [])), None);
      && Respond(Guards(true, false), TwoTenants(), req) == Canonical("/t/a/")
      && Respond(Guards(true, false), TwoTenants(), req.(path := "/t/a/")) == Unauthorized
  {
    var req := Request(Get, "/", false, false, "", Rejected, Some(Session("A", [])), None);
    assert TwoTenants().bySlug["a"] == "A" && HasSlug(TwoTenants(), "A");
    assert SlugFor(TwoTenants(), "A") == "a";
    assert "/t/" + "a" + "/" == "/t/a/";
    CanonicalServesThePage(Guards(true, false), TwoTenants(), req, "/t/a/");
    PrefixThenStrip("a", "/");
  }
}
