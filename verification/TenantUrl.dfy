/**
 Tenant-prefixed URLs. /t/{slug}/... is checked against the tenant the request
 resolves to, stripped and dispatched again; un-prefixed pages redirect to their
 prefixed form; a page's tenant stamp is checked on every guarded route.
 */
module TenantUrl {
  import opened Wrappers

  datatype Verb = Get | Other(name: string)

  /** A sealed, unexpired login: the active tenant, empty while the choice is
      pending, and the accessible ones, empty when that is just the active one. */
  datatype Session = Session(active: string, tenants: seq<string>)

  datatype Bearer = NoToken | Rejected | Failing | Token(tenant: string)

  /** `dev` is the tenant of well-formed development headers, `claim` the page's
      stamp, `switched` the marker an automatic switch leaves in the query. */
  datatype Request = Request(verb: Verb, path: string, switched: bool, htmx: bool, claim: string,
                             bearer: Bearer, session: Option<Session>, dev: Option<string>)

  datatype Route = Page | Guarded | Public | Missing

  /** Which auth backends are configured, whether a directory is wired, and the other routes. */
  datatype Server = Server(webauth: bool, svcauth: bool, devAuth: bool, wired: bool, routes: (Verb, string) -> Route)

  datatype Directory = Directory(bySlug: map<string, string>, up: bool)

  datatype Response =
    | Served(tenant: string, path: string)
    | Welcome
    | Asset(path: string)
    | NotFound
    | Conflict
    | Unauthorized
    | Broken
    | ToLogin(returnTo: string)
    | ToChoice(returnTo: string)
    | Switch(path: string, session: Session)
    | Canonical(path: string)
    | AddSlash(path: string)

  // ------------------------------------------------------------- the path

  function UntilSlash(s: string): (r: string)
    ensures |r| <= |s| && r == s[..|r|]
    ensures '/' !in r
    ensures |r| < |s| ==> s[|r|] == '/'
  {
    if s == "" || s[0] == '/' then "" else [s[0]] + UntilSlash(s[1..])
  }

  function SlugOf(path: string): string {
    if |path| >= 3 && path[..3] == "/t/" then UntilSlash(path[3..]) else ""
  }

  /** /t/{slug}/ and everything below it. */
  predicate Prefixed(path: string) {
    SlugOf(path) != "" && |path| > 3 + |SlugOf(path)|
  }

  predicate Slashless(path: string) {
    SlugOf(path) != "" && |path| == 3 + |SlugOf(path)|
  }

  function Rest(path: string): (r: string)
    requires Prefixed(path)
    ensures |r| < |path| && r != "" && r[0] == '/'
    ensures path == "/t/" + SlugOf(path) + r
  {
    var n := 3 + |SlugOf(path)|;
    assert path[..n] == "/t/" + SlugOf(path) && path[3..][n - 3] == path[n];
    assert path == path[..n] + path[n..];
    path[n..]
  }

  // ------------------------------------------------------------- identity

  predicate Valid(s: Option<Session>) {
    s.Some? && s.value.active != ""
  }

  function Accessible(s: Session): seq<string> {
    if s.tenants != [] then s.tenants else if s.active != "" then [s.active] else []
  }

  predicate CanAccess(s: Session, tenant: string) {
    tenant != "" && tenant in Accessible(s)
  }

  function ByToken(server: Server, req: Request, rc: Option<string>): Result<Option<string>, Response> {
    if !server.svcauth || rc.Some? then Success(rc)
    else
      match req.bearer
      case NoToken => Success(None)
      case Rejected => Failure(Unauthorized)
      case Failing => Failure(Broken)
      case Token(t) => Success(Some(t))
  }

  /** With browser login configured the cookie decides, whatever came before. */
  function BySession(server: Server, req: Request, path: string, rc: Option<string>): Result<Option<string>, Response> {
    if !server.webauth then Success(rc)
    else if Valid(req.session) then Success(Some(req.session.value.active))
    else if req.session.Some? && req.session.value.tenants != [] then Failure(ToChoice(path))
    else Failure(ToLogin(path))
  }

  function ByHeaders(server: Server, req: Request, rc: Option<string>): Result<string, Response> {
    if rc.Some? then Success(rc.value)
    else if server.devAuth && req.dev.Some? then Success(req.dev.value)
    else Failure(Unauthorized)
  }

  /** The chain in front of every authenticated route; rc is what an outer pass attached. */
  function Authenticate(server: Server, req: Request, path: string, rc: Option<string>): Result<string, Response> {
    var token := ByToken(server, req, rc);
    if token.Failure? then Failure(token.error)
    else
      var session := BySession(server, req, path, token.value);
      if session.Failure? then Failure(session.error) else ByHeaders(server, req, session.value)
  }

  /** The optional check of the landing page, which looks at cookie and headers only. */
  function Visitor(server: Server, req: Request): Option<string> {
    if server.webauth && Valid(req.session) then Some(req.session.value.active)
    else if server.devAuth then req.dev
    else None
  }

  // ------------------------------------------------------------- dispatch

  predicate HasSlug(dir: Directory, tenant: string) {
    dir.up && exists slug | slug in dir.bySlug :: dir.bySlug[slug] == tenant
  }

  function SlugFor(dir: Directory, tenant: string): (slug: string)
    requires WellFormed(dir) && HasSlug(dir, tenant)
    ensures slug in dir.bySlug && dir.bySlug[slug] == tenant
  {
    var slug :| slug in dir.bySlug && dir.bySlug[slug] == tenant;
    slug
  }

  /** Slugs are non-empty and hold no slash; slug and tenant determine each other. */
  predicate WellFormed(dir: Directory) {
    && (forall slug | slug in dir.bySlug :: slug != "" && '/' !in slug && dir.bySlug[slug] != "")
    && (forall x, y | x in dir.bySlug && y in dir.bySlug && dir.bySlug[x] == dir.bySlug[y] :: x == y)
  }

  /** An un-prefixed full page load of a browser session whose tenant has a slug. */
  predicate Canonicalizes(server: Server, dir: Directory, req: Request, viaPrefix: bool) {
    && !viaPrefix && server.wired && server.webauth
    && Valid(req.session) && HasSlug(dir, req.session.value.active)
  }

  function RenderRoot(server: Server, dir: Directory, req: Request, path: string, viaPrefix: bool): Response
    requires WellFormed(dir)
  {
    var rc := Visitor(server, req);
    if rc.None? then Welcome
    else if Canonicalizes(server, dir, req, viaPrefix) then
      Canonical("/t/" + SlugFor(dir, req.session.value.active) + path)
    else Served(rc.value, path)
  }

  function GuardTenantHeader(server: Server, dir: Directory, req: Request, path: string, viaPrefix: bool,
                             page: bool, tenant: string): Response
    requires WellFormed(dir)
  {
    if req.claim != "" && req.claim != tenant then Conflict
    else if page && req.verb == Get && !req.htmx && Canonicalizes(server, dir, req, viaPrefix) then
      Canonical("/t/" + SlugFor(dir, req.session.value.active) + path)
    else Served(tenant, path)
  }

  function Mismatch(req: Request): Response {
    if req.verb == Get then NotFound else Conflict
  }

  function Dispatch(server: Server, dir: Directory, req: Request, path: string, viaPrefix: bool,
                    rc: Option<string>): Response
    requires WellFormed(dir)
    decreases |path|
  {
    if Prefixed(path) then
      var auth := Authenticate(server, req, path, rc);
      if auth.Failure? then auth.error
      else TenantPrefixed(server, dir, req, path, auth.value)
    else if Slashless(path) then AddSlash(path + "/")
    else if req.verb == Get && path == "/" then RenderRoot(server, dir, req, path, viaPrefix)
    else
      match server.routes(req.verb, path)
      case Missing => NotFound
      case Public => Asset(path)
      case _ =>
        var auth := Authenticate(server, req, path, rc);
        if auth.Failure? then auth.error
        else GuardTenantHeader(server, dir, req, path, viaPrefix, server.routes(req.verb, path) == Page, auth.value)
  }

  /** What a request acting as `tenant` gets for stating this slug: None if it is the
      tenant's own and dispatch goes on below it. */
  function StoppedAt(server: Server, dir: Directory, req: Request, path: string, tenant: string): Option<Response> {
    var slug := SlugOf(path);
    if !server.wired then Some(NotFound)
    else if !dir.up then Some(Broken)
    else if slug !in dir.bySlug then Some(Mismatch(req))
    else if dir.bySlug[slug] == tenant then None
    else if req.verb == Get && !req.switched && server.webauth && req.session.Some?
            && CanAccess(req.session.value, dir.bySlug[slug]) then
      Some(Switch(path, req.session.value.(active := dir.bySlug[slug])))
    else Some(Mismatch(req))
  }

  function TenantPrefixed(server: Server, dir: Directory, req: Request, path: string, tenant: string): Response
    requires WellFormed(dir) && Prefixed(path)
    decreases |path|, 0
  {
    var stop := StoppedAt(server, dir, req, path, tenant);
    if stop.Some? then stop.value else Dispatch(server, dir, req, Rest(path), true, Some(tenant))
  }

  function Respond(server: Server, dir: Directory, req: Request): Response
    requires WellFormed(dir)
  {
    Dispatch(server, dir, req, req.path, false, None)
  }
}
