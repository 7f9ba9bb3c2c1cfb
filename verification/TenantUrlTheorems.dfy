/**
 What the URL scheme promises: what runs, runs for the tenant the URL names;
 redirects come to an end; and nobody can tell apart tenants beyond their reach.
 */
module TenantUrlTheorems {
  import opened Wrappers
  import opened TenantUrl

  // ----------------------------------------- what a request is served as

  /** The slugs a URL states, outermost first, and what is left below them. */
  function Slugs(path: string): seq<string>
    decreases |path|
  {
    if Prefixed(path) then [SlugOf(path)] + Slugs(Rest(path)) else []
  }

  function Below(path: string): (r: string)
    ensures !Prefixed(r)
    decreases |path|
  {
    if Prefixed(path) then Below(Rest(path)) else path
  }

  /** The tenant the auth chain arrives at; it is the same on every pass. */
  function Identity(server: Server, req: Request): Option<string> {
    var auth := Authenticate(server, req, "/", None);
    if auth.Success? then Some(auth.value) else None
  }

  predicate Carries(server: Server, req: Request, rc: Option<string>) {
    rc == None || rc == Identity(server, req)
  }

  lemma SameOnEveryPass(server: Server, req: Request, path: string, rc: Option<string>)
    requires Carries(server, req, rc)
    ensures var auth := Authenticate(server, req, path, rc);
      if Identity(server, req).Some? then auth == Success(Identity(server, req).value) else auth.Failure?
  {
  }

  /** Every stated slug is that of this tenant. */
  predicate AllName(server: Server, dir: Directory, slugs: seq<string>, tenant: Option<string>) {
    slugs != [] ==>
      && server.wired && dir.up && tenant.Some?
      && forall s | s in slugs :: s in dir.bySlug && dir.bySlug[s] == tenant.value
  }

  predicate IsRoot(req: Request) {
    req.verb == Get && Below(req.path) == "/"
  }

  lemma PeelOne(server: Server, dir: Directory, req: Request, path: string, viaPrefix: bool, rc: Option<string>)
    requires WellFormed(dir) && Carries(server, req, rc) && Prefixed(path)
    ensures var r := Dispatch(server, dir, req, path, viaPrefix, rc);
      if AllName(server, dir, [SlugOf(path)], Identity(server, req)) then
        r == Dispatch(server, dir, req, Rest(path), true, Identity(server, req))
      else !r.Served?
  {
    SameOnEveryPass(server, req, path, rc);
  }

  /** Peeling the slugs off: the innermost dispatch happens if all of them agree,
      and otherwise nothing is served. */
  lemma {:induction false} Peel(server: Server, dir: Directory, req: Request, path: string, viaPrefix: bool,
                                rc: Option<string>)
    requires WellFormed(dir) && Carries(server, req, rc)
    ensures var r := Dispatch(server, dir, req, path, viaPrefix, rc);
      if Slugs(path) == [] then Below(path) == path
      else if AllName(server, dir, Slugs(path), Identity(server, req)) then
        r == Dispatch(server, dir, req, Below(path), true, Identity(server, req))
      else !r.Served?
    decreases |path|
  {
    if Prefixed(path) {
      PeelOne(server, dir, req, path, viaPrefix, rc);
      Peel(server, dir, req, Rest(path), true, Identity(server, req));
      AllNameSplit(server, dir, SlugOf(path), Slugs(Rest(path)), Identity(server, req));
    }
  }

  lemma AllNameSplit(server: Server, dir: Directory, slug: string, slugs: seq<string>, tenant: Option<string>)
    ensures AllName(server, dir, [slug] + slugs, tenant) <==>
              AllName(server, dir, [slug], tenant) && AllName(server, dir, slugs, tenant)
  {
    assert forall s :: s in [slug] + slugs <==> s == slug || s in slugs;
  }

  /** Below the slugs: a guarded route runs unless the stamp or a redirect stops it. */
  predicate Runs(server: Server, dir: Directory, req: Request, path: string, viaPrefix: bool, t: string) {
    var route := server.routes(req.verb, path);
    && !Slashless(path) && (route == Page || route == Guarded)
    && Identity(server, req) == Some(t)
    && (req.claim == "" || req.claim == t)
    && !(route == Page && req.verb == Get && !req.htmx && Canonicalizes(server, dir, req, viaPrefix))
  }

  lemma InnermostRuns(server: Server, dir: Directory, req: Request, path: string, viaPrefix: bool, rc: Option<string>,
                      t: string, p: string)
    requires WellFormed(dir) && Carries(server, req, rc)
    requires !Prefixed(path) && !(req.verb == Get && path == "/")
    ensures Dispatch(server, dir, req, path, viaPrefix, rc) == Served(t, p) <==>
              p == path && Runs(server, dir, req, path, viaPrefix, t)
  {
    SameOnEveryPass(server, req, path, rc);
  }

  /** A guarded route runs for tenant t exactly when the request resolves to t, every
      slug in its URL is t's, its stamp if any says t, and no redirect is due. */
  lemma ServedExactlyWhen(server: Server, dir: Directory, req: Request, t: string, p: string)
    requires WellFormed(dir) && !IsRoot(req)
    ensures Respond(server, dir, req) == Served(t, p) <==>
              && p == Below(req.path) && AllName(server, dir, Slugs(req.path), Some(t))
              && Runs(server, dir, req, p, Slugs(req.path) != [], t)
  {
    Peel(server, dir, req, req.path, false, None);
    var below := Below(req.path);
    if Slugs(req.path) == [] {
      InnermostRuns(server, dir, req, below, false, None, t, p);
    } else {
      InnermostRuns(server, dir, req, below, true, Identity(server, req), t, p);
    }
  }

  /** The landing page looks for itself: at the cookie, then at development headers. */
  lemma RootServedExactlyWhen(server: Server, dir: Directory, req: Request, t: string, p: string)
    requires WellFormed(dir) && IsRoot(req)
    ensures Respond(server, dir, req) == Served(t, p) <==>
              && p == "/" && Visitor(server, req) == Some(t)
              && AllName(server, dir, Slugs(req.path), Identity(server, req))
              && !Canonicalizes(server, dir, req, Slugs(req.path) != [])
  {
    Peel(server, dir, req, req.path, false, None);
  }

  /** Every slug in the URL is this tenant's. */
  predicate UrlNames(dir: Directory, path: string, t: string) {
    forall s | s in Slugs(path) :: s in dir.bySlug && dir.bySlug[s] == t
  }

  lemma RootUrlNamesExactlyWhen(server: Server, dir: Directory, req: Request, t: string, p: string)
    requires WellFormed(dir) && IsRoot(req) && Respond(server, dir, req) == Served(t, p) && Slugs(req.path) != []
    ensures UrlNames(dir, req.path, t) <==> Identity(server, req) == Some(t)
  {
    RootServedExactlyWhen(server, dir, req, t, p);
    assert Slugs(req.path)[0] in Slugs(req.path);
  }

  lemma VisitorIsTheIdentityExactlyWhen(server: Server, req: Request, t: string)
    requires Visitor(server, req) == Some(t) && Identity(server, req).Some?
    ensures Identity(server, req) == Some(t)
            <==> !(!server.webauth && server.svcauth && req.bearer.Token? && Some(req.bearer.tenant) != req.dev)
  {
  }

  /** A page shown under a slug is that tenant's, except for a landing page reached
      by an API token that also carries another tenant's development headers. */
  lemma UrlNamesTheTenantExactlyWhen(server: Server, dir: Directory, req: Request, t: string, p: string)
    requires WellFormed(dir) && Respond(server, dir, req) == Served(t, p) && Slugs(req.path) != []
    ensures UrlNames(dir, req.path, t) <==>
              !(&& IsRoot(req) && !server.webauth && server.svcauth
                && req.bearer.Token? && Some(req.bearer.tenant) != req.dev)
  {
    if IsRoot(req) {
      RootServedExactlyWhen(server, dir, req, t, p);
      RootUrlNamesExactlyWhen(server, dir, req, t, p);
      VisitorIsTheIdentityExactlyWhen(server, req, t);
    } else {
      ServedExactlyWhen(server, dir, req, t, p);
    }
  }

  /** The one route on which the stamp is not looked at. */
  lemma LandingPageIgnoresTheStamp(server: Server, dir: Directory, req: Request, claim: string)
    requires WellFormed(dir) && IsRoot(req)
    ensures forall t, p ::
              Respond(server, dir, req.(claim := claim)) == Served(t, p) <==> Respond(server, dir, req) == Served(t, p)
  {
    assert Identity(server, req.(claim := claim)) == Identity(server, req);
    forall t, p
      ensures Respond(server, dir, req.(claim := claim)) == Served(t, p) <==> Respond(server, dir, req) == Served(t, p)
    {
      RootServedExactlyWhen(server, dir, req, t, p);
      RootServedExactlyWhen(server, dir, req.(claim := claim), t, p);
    }
  }

  // ------------------------------------------- following the redirects

  /** What a browser asks for next; `kept` says whether it keeps the switch cookie. */
  function Next(req: Request, r: Response, kept: bool): Option<Request> {
    match r
    case Switch(path, session) =>
      Some(req.(path := path, switched := true, session := if kept then Some(session) else req.session))
    case Canonical(path) => Some(req.(path := path))
    case AddSlash(path) => Some(req.(path := path))
    case _ => None
  }

  function Follow(server: Server, dir: Directory, req: Request, kept: bool, hops: nat): (rs: seq<Response>)
    requires WellFormed(dir)
    ensures 1 <= |rs| <= hops + 1 && rs[0] == Respond(server, dir, req)
    decreases hops
  {
    var r := Respond(server, dir, req);
    var next := Next(req, r, kept);
    if hops == 0 || next.None? then [r] else [r] + Follow(server, dir, next.value, kept, hops - 1)
  }

  predicate Redirects(r: Response) {
    r.Switch? || r.Canonical? || r.AddSlash?
  }

  lemma {:induction false} UntilSlashFinds(slug: string, rest: string)
    requires '/' !in slug && rest != "" && rest[0] == '/'
    ensures UntilSlash(slug + rest) == slug
  {
    if slug == "" {
      assert slug + rest == rest;
    } else {
      assert (slug + rest)[1..] == slug[1..] + rest;
      UntilSlashFinds(slug[1..], rest);
      assert slug == [slug[0]] + slug[1..];
    }
  }

  /** Prefixing undoes stripping. */
  lemma PrefixThenStrip(slug: string, path: string)
    requires slug != "" && '/' !in slug && path != "" && path[0] == '/'
    ensures var full := "/t/" + slug + path; Prefixed(full) && SlugOf(full) == slug && Rest(full) == path
  {
    var full := "/t/" + slug + path;
    assert full[..3] == "/t/" && full[3..] == slug + path;
    UntilSlashFinds(slug, path);
    assert full[3 + |slug|..] == path;
  }

  lemma SlashCompletes(path: string)
    requires Slashless(path)
    ensures Prefixed(path + "/") && Rest(path + "/") == "/"
  {
    var slug := SlugOf(path);
    assert path == "/t/" + slug by {
      assert path == path[..3] + path[3..];
    }
    PrefixThenStrip(slug, "/");
    assert path + "/" == "/t/" + slug + "/";
  }

  /** Where redirects come from and lead to. */
  predicate Shaped(req: Request, path: string, viaPrefix: bool, r: Response) {
    match r
    case Switch(to, _) =>
      req.verb == Get && !req.switched && Prefixed(path) && Prefixed(to) && (Rest(path) == "/" ==> to == path)
    case Canonical(_) => !viaPrefix && !Prefixed(path) && !Slashless(path)
    case AddSlash(to) => Prefixed(to) && Rest(to) == "/" && path != "/" && !(Prefixed(path) && Rest(path) == "/")
    case _ => true
  }

  lemma InnermostShaped(server: Server, dir: Directory, req: Request, path: string, viaPrefix: bool, rc: Option<string>)
    requires WellFormed(dir) && !Prefixed(path)
    ensures Shaped(req, path, viaPrefix, Dispatch(server, dir, req, path, viaPrefix, rc))
  {
    if Slashless(path) {
      SlashCompletes(path);
    }
  }

  /** One slug: either dispatch goes on below it, or it ends here. */
  lemma PrefixedStep(server: Server, dir: Directory, req: Request, path: string, viaPrefix: bool, rc: Option<string>)
    returns (t: Option<string>)
    requires WellFormed(dir) && Prefixed(path)
    ensures var r := Dispatch(server, dir, req, path, viaPrefix, rc);
      if t.Some? then r == Dispatch(server, dir, req, Rest(path), true, t)
      else Redirects(r) ==> r.Switch? && r.path == path && req.verb == Get && !req.switched
  {
    var auth := Authenticate(server, req, path, rc);
    t := if auth.Success? && StoppedAt(server, dir, req, path, auth.value).None? then Some(auth.value) else None;
  }

  lemma ShapedBelow(req: Request, path: string, viaPrefix: bool, r: Response)
    requires Prefixed(path) && Shaped(req, Rest(path), true, r)
    ensures Shaped(req, path, viaPrefix, r)
  {
  }

  lemma {:induction false} RedirectShapes(server: Server, dir: Directory, req: Request, path: string, viaPrefix: bool,
                                          rc: Option<string>)
    requires WellFormed(dir)
    ensures Shaped(req, path, viaPrefix, Dispatch(server, dir, req, path, viaPrefix, rc))
    decreases |path|
  {
    if Prefixed(path) {
      var t := PrefixedStep(server, dir, req, path, viaPrefix, rc);
      if t.Some? {
        RedirectShapes(server, dir, req, Rest(path), true, t);
        ShapedBelow(req, path, viaPrefix, Dispatch(server, dir, req, Rest(path), true, t));
      }
    } else {
      InnermostShaped(server, dir, req, path, viaPrefix, rc);
    }
  }

  /** No API token, or one that resolves; the landing page redirects without looking. */
  predicate TokenPasses(server: Server, req: Request) {
    !server.svcauth || req.bearer.NoToken? || req.bearer.Token?
  }

  /** Before the redirect and after it: the same route, reached through the slug. */
  lemma CanonicalThenServed(server: Server, dir: Directory, req: Request, path: string, to: string)
    requires WellFormed(dir) && !Prefixed(path) && Dispatch(server, dir, req, path, false, None).Canonical?
    ensures Canonicalizes(server, dir, req, false)
    ensures Identity(server, req) == if TokenPasses(server, req) then Some(req.session.value.active) else None
    ensures Dispatch(server, dir, req, path, false, None) ==
              Canonical("/t/" + SlugFor(dir, req.session.value.active) + path)
    ensures TokenPasses(server, req) ==>
              Dispatch(server, dir, req.(path := to), path, true, Identity(server, req)) ==
              Served(req.session.value.active, path)
  {
  }

  /** Canonicalizing changes where a page is, not what it is: the redirect leads to
      the same page of the same tenant, and no further. */
  lemma CanonicalServesThePage(server: Server, dir: Directory, req: Request, to: string)
    requires WellFormed(dir) && Respond(server, dir, req) == Canonical(to) && req.path != "" && req.path[0] == '/'
    ensures req.session.Some?
    ensures var next := Respond(server, dir, req.(path := to));
      if TokenPasses(server, req) then next == Served(req.session.value.active, req.path)
      else next == Unauthorized || next == Broken
  {
    RedirectShapes(server, dir, req, req.path, false, None);
    CanonicalThenServed(server, dir, req, req.path, to);
    var slug := SlugFor(dir, req.session.value.active);
    PrefixThenStrip(slug, req.path);
    var next := req.(path := to);
    assert Identity(server, next) == Identity(server, req);
    assert SlugOf(to) == slug && Rest(to) == req.path;
    if TokenPasses(server, req) {
      PeelOne(server, dir, next, to, false, None);
    }
  }

  lemma AfterSlash(server: Server, dir: Directory, req: Request)
    requires WellFormed(dir) && Prefixed(req.path) && Rest(req.path) == "/"
    ensures var r := Respond(server, dir, req); Redirects(r) ==> r.Switch? && r.path == req.path && !req.switched
  {
    RedirectShapes(server, dir, req, req.path, false, None);
  }

  lemma AfterSwitch(server: Server, dir: Directory, req: Request)
    requires WellFormed(dir) && Prefixed(req.path) && req.switched
    ensures var r := Respond(server, dir, req); Redirects(r) ==> r.AddSlash? && Prefixed(r.path) && Rest(r.path) == "/"
  {
    RedirectShapes(server, dir, req, req.path, false, None);
  }

  lemma FollowStep(server: Server, dir: Directory, req: Request, kept: bool, hops: nat, r: Response)
    requires WellFormed(dir) && r == Respond(server, dir, req) && Redirects(r) && hops > 0
    ensures Follow(server, dir, req, kept, hops) == [r] + Follow(server, dir, Next(req, r, kept).value, kept, hops - 1)
  {
  }

  lemma FollowStops(server: Server, dir: Directory, req: Request, kept: bool, hops: nat)
    requires WellFormed(dir) && (hops == 0 || !Redirects(Respond(server, dir, req)))
    ensures Follow(server, dir, req, kept, hops) == [Respond(server, dir, req)]
  {
  }

  /** A browser that came through a switch or a slash is redirected once more at most. */
  lemma SecondHop(server: Server, dir: Directory, req: Request, kept: bool, hops: nat)
    requires WellFormed(dir) && Prefixed(req.path) && (req.switched || Rest(req.path) == "/")
    ensures var rs := Follow(server, dir, req, kept, hops);
      && |rs| <= 2 && (hops >= 1 ==> !Redirects(rs[|rs| - 1]))
      && (|rs| == 2 ==> rs[0] == Respond(server, dir, req) && Redirects(rs[0]))
  {
    var r := Respond(server, dir, req);
    if hops == 0 || !Redirects(r) {
      FollowStops(server, dir, req, kept, hops);
    } else {
      var next := Next(req, r, kept).value;
      ThenNoFurther(server, dir, req, r, kept);
      FollowStep(server, dir, req, kept, hops, r);
      FollowStops(server, dir, next, kept, hops - 1);
    }
  }

  lemma ThenNoFurther(server: Server, dir: Directory, req: Request, r: Response, kept: bool)
    requires WellFormed(dir) && Prefixed(req.path) && (req.switched || Rest(req.path) == "/")
    requires r == Respond(server, dir, req) && Redirects(r)
    ensures !Redirects(Respond(server, dir, Next(req, r, kept).value))
  {
    if req.switched {
      AfterSwitch(server, dir, req);
    } else {
      AfterSlash(server, dir, req);
    }
    var next := Next(req, r, kept).value;
    AfterSlash(server, dir, next);
    if next.switched {
      AfterSwitch(server, dir, next);
    }
  }

  lemma AfterFirstHop(server: Server, dir: Directory, req: Request, r: Response, kept: bool)
    requires WellFormed(dir) && Shaped(req, req.path, false, r) && (r.Switch? || r.AddSlash?)
    ensures var next := Next(req, r, kept).value;
      && Prefixed(next.path) && (next.switched || Rest(next.path) == "/")
      && (var r' := Respond(server, dir, next);
          Redirects(r') ==> (r.Switch? && r'.AddSlash?) || (r.AddSlash? && r'.Switch?))
  {
    var next := Next(req, r, kept).value;
    if r.Switch? {
      AfterSwitch(server, dir, next);
    } else {
      AfterSlash(server, dir, next);
    }
  }

  /** A chain that has come to its end within two redirects: one to canonicalize, or
      one for a slash and one to switch, in either order. */
  predicate EndsSoon(rs: seq<Response>, hops: nat)
    requires rs != []
  {
    && |rs| <= 3
    && (hops >= 2 ==> !Redirects(rs[|rs| - 1]))
    && (rs[0].Canonical? && hops >= 1 ==> |rs| == 2)
    && (|rs| == 3 ==> (rs[0].Switch? && rs[1].AddSlash?) || (rs[0].AddSlash? && rs[1].Switch?))
  }

  lemma CanonicalEnds(server: Server, dir: Directory, req: Request, kept: bool, hops: nat)
    requires WellFormed(dir) && req.path != "" && req.path[0] == '/' && hops > 0
    requires Respond(server, dir, req).Canonical?
    ensures EndsSoon(Follow(server, dir, req, kept, hops), hops)
  {
    var r := Respond(server, dir, req);
    var next := req.(path := r.path);
    CanonicalServesThePage(server, dir, req, r.path);
    assert Next(req, r, kept) == Some(next);
    var r' := Respond(server, dir, next);
    assert Next(next, r', kept) == None;
    assert Follow(server, dir, next, kept, hops - 1) == [r'];
  }

  lemma Chained(r: Response, tail: seq<Response>, hops: nat)
    requires hops > 0 && (r.Switch? || r.AddSlash?) && 1 <= |tail| <= 2
    requires hops >= 2 ==> !Redirects(tail[|tail| - 1])
    requires |tail| == 2 ==> Redirects(tail[0])
    requires Redirects(tail[0]) ==> (r.Switch? && tail[0].AddSlash?) || (r.AddSlash? && tail[0].Switch?)
    ensures EndsSoon([r] + tail, hops)
  {
  }

  lemma OthersEnd(server: Server, dir: Directory, req: Request, kept: bool, hops: nat, r: Response)
    requires WellFormed(dir) && r == Respond(server, dir, req) && (r.Switch? || r.AddSlash?) && hops > 0
    ensures EndsSoon(Follow(server, dir, req, kept, hops), hops)
  {
    RedirectShapes(server, dir, req, req.path, false, None);
    AfterFirstHop(server, dir, req, r, kept);
    var next := Next(req, r, kept).value;
    SecondHop(server, dir, next, kept, hops - 1);
    FollowStep(server, dir, req, kept, hops, r);
    Chained(r, Follow(server, dir, next, kept, hops - 1), hops);
  }

  /** However the cookie fares, every chain of redirects ends soon. */
  lemma RedirectsEnd(server: Server, dir: Directory, req: Request, kept: bool, hops: nat)
    requires WellFormed(dir) && req.path != "" && req.path[0] == '/'
    ensures EndsSoon(Follow(server, dir, req, kept, hops), hops)
  {
    var r := Respond(server, dir, req);
    if hops > 0 && r.Canonical? {
      CanonicalEnds(server, dir, req, kept, hops);
    } else if hops > 0 && Redirects(r) {
      OthersEnd(server, dir, req, kept, hops, r);
    }
  }
}
