/**
 The URL space tells nobody which other tenants exist: responses depend on the
 directory only through the tenants the requester can already reach.
 */
module TenantUrlReach {
  import opened Wrappers
  import opened TenantUrl
  import opened TenantUrlTheorems

  /** Two directories that say the same about these tenants. */
  predicate Agree(x: Directory, y: Directory, reach: set<string>) {
    && x.up == y.up
    && (forall s | s in x.bySlug && x.bySlug[s] in reach :: s in y.bySlug && y.bySlug[s] == x.bySlug[s])
    && (forall s | s in y.bySlug && y.bySlug[s] in reach :: s in x.bySlug && x.bySlug[s] == y.bySlug[s])
  }

  predicate SessionWithin(session: Option<Session>, reach: set<string>) {
    session.Some? ==>
      && (session.value.active != "" ==> session.value.active in reach)
      && forall t | t in session.value.tenants :: t in reach
  }

  /** Everything the request may act as: its session's tenants, its token's, its headers'. */
  predicate Within(req: Request, reach: set<string>) {
    && SessionWithin(req.session, reach)
    && (req.bearer.Token? ==> req.bearer.tenant in reach)
    && (req.dev.Some? ==> req.dev.value in reach)
  }

  lemma SameSlugs(x: Directory, y: Directory, reach: set<string>, tenant: string)
    requires WellFormed(x) && WellFormed(y) && Agree(x, y, reach) && tenant in reach
    ensures HasSlug(x, tenant) <==> HasSlug(y, tenant)
    ensures HasSlug(x, tenant) ==> SlugFor(x, tenant) == SlugFor(y, tenant)
  {
  }

  lemma SameInnermost(server: Server, x: Directory, y: Directory, reach: set<string>, req: Request,
                      path: string, viaPrefix: bool, rc: Option<string>)
    requires WellFormed(x) && WellFormed(y) && Agree(x, y, reach) && Within(req, reach) && !Prefixed(path)
    ensures Dispatch(server, x, req, path, viaPrefix, rc) == Dispatch(server, y, req, path, viaPrefix, rc)
  {
    if Valid(req.session) {
      SameSlugs(x, y, reach, req.session.value.active);
    }
  }

  lemma SameStop(server: Server, x: Directory, y: Directory, reach: set<string>, req: Request, path: string,
                 rc: Option<string>)
    requires WellFormed(x) && WellFormed(y) && Agree(x, y, reach)
    requires Within(req, reach) && (rc.Some? ==> rc.value in reach)
    ensures var auth := Authenticate(server, req, path, rc);
      auth.Success? ==>
        && auth.value in reach
        && StoppedAt(server, x, req, path, auth.value) == StoppedAt(server, y, req, path, auth.value)
  {
  }

  lemma {:induction false} SameDispatch(server: Server, x: Directory, y: Directory, reach: set<string>, req: Request,
                                        path: string, viaPrefix: bool, rc: Option<string>)
    requires WellFormed(x) && WellFormed(y) && Agree(x, y, reach) && Within(req, reach)
    requires rc.Some? ==> rc.value in reach
    ensures Dispatch(server, x, req, path, viaPrefix, rc) == Dispatch(server, y, req, path, viaPrefix, rc)
    decreases |path|
  {
    if Prefixed(path) {
      var auth := Authenticate(server, req, path, rc);
      if auth.Success? {
        SameStop(server, x, y, reach, req, path, rc);
        SameDispatch(server, x, y, reach, req, Rest(path), true, Some(auth.value));
      }
    } else {
      SameInnermost(server, x, y, reach, req, path, viaPrefix, rc);
    }
  }

  /** A browser's clicks, one after the other; a switch changes its cookie. */
  function Visit(server: Server, dir: Directory, jar: Option<Session>, clicks: seq<Request>): seq<Response>
    requires WellFormed(dir)
    decreases |clicks|
  {
    if clicks == [] then []
    else
      var r := Respond(server, dir, clicks[0].(session := jar));
      [r] + Visit(server, dir, if r.Switch? then Some(r.session) else jar, clicks[1..])
  }

  /** However many requests of whatever kind are made, they look the same over any
      two directories that agree on what their sender can reach. */
  lemma {:induction false} BeyondReachIsInvisible(server: Server, x: Directory, y: Directory, reach: set<string>,
                                                  jar: Option<Session>, clicks: seq<Request>)
    requires WellFormed(x) && WellFormed(y) && Agree(x, y, reach) && SessionWithin(jar, reach)
    requires forall i | 0 <= i < |clicks| :: Within(clicks[i].(session := jar), reach)
    ensures Visit(server, x, jar, clicks) == Visit(server, y, jar, clicks)
    decreases |clicks|
  {
    if clicks != [] {
      var req := clicks[0].(session := jar);
      assert Within(req, reach);
      SameDispatch(server, x, y, reach, req, req.path, false, None);
      var r := Respond(server, x, req);
      SwitchShape(server, x, req, req.path, false, None);
      var jar' := if r.Switch? then Some(r.session) else jar;
      forall i | 0 <= i < |clicks[1..]|
        ensures Within(clicks[1..][i].(session := jar'), reach)
      {
        assert Within(clicks[i + 1].(session := jar), reach);
      }
      BeyondReachIsInvisible(server, x, y, reach, jar', clicks[1..]);
    }
  }

  /** A switch is to the tenant of a slug on the way, which the session can access
      and is not already acting as. */
  predicate ProperSwitch(server: Server, dir: Directory, req: Request, path: string, session: Session) {
    && Prefixed(path) && req.session.Some? && server.webauth && Identity(server, req).Some?
    && var at := StoppedAt(server, dir, req, path, Identity(server, req).value);
       at == Some(Switch(path, session)) && SlugOf(path) in dir.bySlug
       && CanAccess(req.session.value, dir.bySlug[SlugOf(path)])
       && session == req.session.value.(active := dir.bySlug[SlugOf(path)])
  }

  lemma StopsProperly(server: Server, dir: Directory, req: Request, path: string, rc: Option<string>)
    requires WellFormed(dir) && Carries(server, req, rc) && Prefixed(path)
    ensures var auth := Authenticate(server, req, path, rc);
      if auth.Success? then
        && Identity(server, req) == Some(auth.value)
        && (var at := StoppedAt(server, dir, req, path, auth.value);
            at.Some? && at.value.Switch? ==> ProperSwitch(server, dir, req, at.value.path, at.value.session))
      else !auth.error.Switch?
  {
    SameOnEveryPass(server, req, path, rc);
  }

  lemma {:induction false} SwitchShape(server: Server, dir: Directory, req: Request, path: string, viaPrefix: bool,
                                       rc: Option<string>)
    requires WellFormed(dir) && Carries(server, req, rc)
    ensures var r := Dispatch(server, dir, req, path, viaPrefix, rc);
      r.Switch? ==> ProperSwitch(server, dir, req, r.path, r.session)
    decreases |path|
  {
    if Prefixed(path) {
      StopsProperly(server, dir, req, path, rc);
      if Identity(server, req).Some? {
        SwitchShape(server, dir, req, Rest(path), true, Identity(server, req));
      }
    } else {
      InnermostShaped(server, dir, req, path, viaPrefix, rc);
    }
  }

  /** After a switch the slug is the session's own, and dispatch goes on below it; if
      the cookie did not come back the page is not found, rather than switched again. */
  lemma SwitchLands(server: Server, dir: Directory, req: Request, r: Response, kept: bool)
    requires WellFormed(dir) && r == Respond(server, dir, req) && r.Switch?
    ensures Prefixed(r.path)
    ensures var next := Next(req, r, kept).value;
      Respond(server, dir, next) ==
        if kept then Dispatch(server, dir, next, Rest(r.path), true, Some(r.session.active)) else NotFound
  {
    SwitchShape(server, dir, req, req.path, false, None);
    RedirectShapes(server, dir, req, req.path, false, None);
    LandsAt(server, dir, req, r.path, r.session, kept);
  }

  lemma LandsAt(server: Server, dir: Directory, req: Request, path: string, session: Session, kept: bool)
    requires WellFormed(dir) && ProperSwitch(server, dir, req, path, session) && req.verb == Get
    ensures var next := Next(req, Switch(path, session), kept).value;
      Respond(server, dir, next) ==
        if kept then Dispatch(server, dir, next, Rest(path), true, Some(session.active)) else NotFound
  {
    var next := Next(req, Switch(path, session), kept).value;
    SameOnEveryPass(server, next, path, None);
    assert Identity(server, next) == if kept then Some(session.active) else Identity(server, req);
    var t := Identity(server, next).value;
    assert Authenticate(server, next, path, None) == Success(t);
    assert StoppedAt(server, dir, next, path, t) == if kept then None else Some(NotFound);
    assert Respond(server, dir, next) == TenantPrefixed(server, dir, next, path, t);
  }

  /** A slug of a tenant out of reach and a slug of none are answered alike. */
  lemma InaccessibleLooksUnknown(server: Server, dir: Directory, slug: string, reach: set<string>,
                                 jar: Option<Session>, clicks: seq<Request>)
    requires WellFormed(dir) && slug in dir.bySlug && dir.bySlug[slug] !in reach && SessionWithin(jar, reach)
    requires forall i | 0 <= i < |clicks| :: Within(clicks[i].(session := jar), reach)
    ensures WellFormed(dir.(bySlug := dir.bySlug - {slug}))
    ensures Visit(server, dir, jar, clicks) == Visit(server, dir.(bySlug := dir.bySlug - {slug}), jar, clicks)
  {
    BeyondReachIsInvisible(server, dir, dir.(bySlug := dir.bySlug - {slug}), reach, jar, clicks);
  }

  /** What a slug that is not the requester's own is answered with, unknown or not: a
      read is not found and a write is a conflict, unless the read may switch. */
  lemma ForeignSlugIsRefused(server: Server, dir: Directory, req: Request, t: string)
    requires WellFormed(dir) && Prefixed(req.path) && server.wired && dir.up && Identity(server, req) == Some(t)
    requires var slug := SlugOf(req.path); slug in dir.bySlug ==> dir.bySlug[slug] != t
    ensures var r, slug := Respond(server, dir, req), SlugOf(req.path);
      if req.verb == Get && !req.switched && server.webauth
         && slug in dir.bySlug && CanAccess(req.session.value, dir.bySlug[slug])
      then r == Switch(req.path, req.session.value.(active := dir.bySlug[slug]))
      else r == if req.verb == Get then NotFound else Conflict
  {
    SameOnEveryPass(server, req, req.path, None);
    assert Authenticate(server, req, req.path, None) == Success(t);
    assert StoppedAt(server, dir, req, req.path, t).Some?;
    assert Respond(server, dir, req) == TenantPrefixed(server, dir, req, req.path, t);
  }
}
