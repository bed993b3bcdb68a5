/** A validated configuration routes by path segment: the routers Traefik is given refine a
    function that names the owner of each path. */
module Routing {
  import opened Urls
  import opened PublicUrls
  import opened Rules
  import opened Traefik
  import DenyPattern

  // ----- who owns a path -----

  predicate Within(path: string, prefix: string) { prefix == "" || Under(path, prefix) }

  /** The services with a hostname or prefix rule of their own above the web client's. */
  predicate IsService(l: Layout, k: UrlKey)
  {
    k in l.urls && k != Web && (k == Cms ==> !l.sharedHost)
  }

  function EntryOf(l: Layout, k: UrlKey): EntryPointName
  {
    if k == Workflows && l.monitorEntrypoint then MonitorEntry else l.Public()
  }

  /** The request reached the entrypoint and host that carry `k`. */
  predicate Reaches(l: Layout, q: Request, k: UrlKey)
  {
    k in l.urls && q.entrypoint == EntryOf(l, k) && q.host == l.urls[k].host
  }

  predicate Owns(l: Layout, q: Request, k: UrlKey) { Reaches(l, q, k) && Within(q.path, l.urls[k].path) }

  predicate OnWebHost(l: Layout, q: Request)
  {
    l.sharedHost && Web in l.urls && q.entrypoint == l.Public() && q.host == l.urls[Web].host
  }

  predicate CoreOwns(l: Layout, q: Request) { OnWebHost(l, q) && exists c :: c in CORE_PREFIXES && Under(q.path, c) }

  /** A POST that Express would hand to a worker route of the engine. */
  predicate WorkerCall(l: Layout, q: Request)
  {
    && Engine in l.urls && q.entrypoint == l.Public() && q.host == l.urls[Engine].host && q.verb == POST
    && l.urls[Engine].path <= q.path && DenyPattern.ExpressWorker(q.path[|l.urls[Engine].path|..])
  }

  datatype Owner = Nobody | WorkerDeny | Core | Owned(key: UrlKey)

  /** Deny, then a core prefix, then the service whose URL contains the path, then the web client. */
  ghost function OwnerOf(l: Layout, q: Request): Owner
  {
    if WorkerCall(l, q) then WorkerDeny
    else if CoreOwns(l, q) then Core
    else if exists k :: IsService(l, k) && Owns(l, q, k) then
      var k :| IsService(l, k) && Owns(l, q, k);
      Owned(k)
    else if Owns(l, q, Web) then Owned(Web)
    else Nobody
  }

  function ServiceOf(k: UrlKey): Service
  {
    match k
    case Web => WebService
    case Cms => CmsService
    case Engine => EngineService
    case Workflows => MonitorService
    case Keycloak => KeycloakService
    case Grafana => GrafanaService
  }

  function CmsServes(path: string): Served
  {
    if path in CORE_DIRECTORY_PREFIXES then RedirectedTo(path + "/") else Delivered(CmsService, path)
  }

  /** What the owner makes of the request. */
  function OwnerServes(l: Layout, q: Request, owner: Owner): Served
    requires owner != Nobody && (owner.Owned? ==> owner.key in l.urls)
  {
    match owner
    case WorkerDeny => Refused
    case Core => CmsServes(q.path)
    case Owned(k) =>
      if k == Cms then CmsServes(q.path)
      else if k == Engine || k == Workflows then Delivered(ServiceOf(k), StripPath(l.urls[k].path, q.path))
      else Delivered(ServiceOf(k), q.path)
  }

  /** Traefik's choice is unique and is the owner's. */
  ghost predicate RoutedToOwner(l: Layout, q: Request)
    requires l.Complete()
  {
    match OwnerOf(l, q)
    case Nobody => Winners(Routers(l), q) == {}
    case owner => exists r :: Winners(Routers(l), q) == {r} && Serve(r, q) == OwnerServes(l, q, owner)
  }

  // ----- where string prefixes and path segments disagree -----

  /** `prefix` continues into `path` in the middle of a segment: /engine and /engineX. */
  predicate Straddles(path: string, prefix: string) { prefix <= path && !Within(path, prefix) }

  predicate ServiceStraddles(l: Layout, q: Request, k: UrlKey)
  {
    Reaches(l, q, k) && Straddles(q.path, l.urls[k].path)
  }

  predicate CoreStraddles(l: Layout, q: Request)
  {
    OnWebHost(l, q) && exists c :: c in CORE_PREFIXES && Straddles(q.path, c)
  }

  /** Nothing of higher rank owns the path by segment, and some rule claims it by string prefix only. */
  predicate Overreached(l: Layout, q: Request)
  {
    && !WorkerCall(l, q) && !CoreOwns(l, q)
    && (|| CoreStraddles(l, q)
        || (exists k :: IsService(l, k) && ServiceStraddles(l, q, k))
        || (ServiceStraddles(l, q, Web) && !exists k :: IsService(l, k) && Owns(l, q, k)))
  }

  // ----- what validation establishes -----

  /** The consequences of an empty problem list that routing rests on. */
  predicate Validated(l: Layout)
  {
    && l.Complete() && (forall k :: k in l.urls ==> WellFormed(l.urls[k]))
    && l.urls[Cms].path == ""
    && (l.monitorEntrypoint ==> l.sharedHost && l.urls[Workflows].host == l.urls[Web].host)
    // one scheme and one port on the public entrypoint
    && (forall j, k :: j in l.urls && k in l.urls && EntryOf(l, j) == l.Public() == EntryOf(l, k) ==>
          l.urls[j].scheme == l.urls[k].scheme && l.urls[j].port == l.urls[k].port)
    // hostname mode has no paths, and the CMS is not on the web client's host
    && (!l.sharedHost ==> forall k :: k in l.urls ==> l.urls[k].path == "")
    && (!l.sharedHost ==> !SameOrigin(l.urls[Cms], l.urls[Web]))
    // on the web client's origin every prefixed service has a path
    && (forall k :: k in PREFIXED_URLS && k in l.urls && SameOrigin(l.urls[k], l.urls[Web]) ==> l.urls[k].path != "")
    && (forall k :: k in PREFIXED_URLS && Prefixed(l.urls, k) ==> !Reserved(l.urls[k].path))
    && (forall j, k :: j in PREFIXED_URLS && k in PREFIXED_URLS && j != k ==> !Overlaps(l.urls, j, k))
  }

  /** One host of one entrypoint. */
  predicate SameHost(l: Layout, j: UrlKey, k: UrlKey)
  {
    j in l.urls && k in l.urls && EntryOf(l, j) == EntryOf(l, k) && l.urls[j].host == l.urls[k].host
  }

  /** Two services share a host of an entrypoint only if both carry a path. */
  predicate Separated(l: Layout)
  {
    forall j, k :: IsService(l, j) && IsService(l, k) && j != k && SameHost(l, j, k) ==> l.urls[j].path != ""
  }

  // ----- segments -----

  lemma UnderIsPrefix(p: string, a: string)
    requires Under(p, a)
    ensures a <= p && (p != a ==> p[|a|] == '/')
  {
    if p != a {
      assert a == (a + "/")[..|a|] && p[|a|] == (a + "/")[|a|];
    }
  }

  lemma ShorterContains(p: string, a: string, b: string)
    requires Under(p, a) && Under(p, b) && |a| <= |b|
    ensures Under(b, a)
  {
    UnderIsPrefix(p, a);
    UnderIsPrefix(p, b);
    assert a == p[..|a|] == b[..|a|];
    if |a| < |b| {
      assert b[..|a| + 1] == a + "/";
    }
  }

  lemma UnderChain(p: string, a: string, b: string)
    requires Under(p, a) && Under(p, b)
    ensures Under(a, b) || Under(b, a)
  {
    if |a| <= |b| {
      ShorterContains(p, a, b);
    } else {
      ShorterContains(p, b, a);
    }
  }

  lemma CorePrefixesDiffer(i: nat, j: nat)
    requires i < |CORE_PREFIXES| && j < |CORE_PREFIXES| && CORE_PREFIXES[i] <= CORE_PREFIXES[j]
    ensures i == j
  {
    var a, b := CORE_PREFIXES[i], CORE_PREFIXES[j];
    assert a[1] == b[1] && a[2] == b[2];
    assert |a| > 6 ==> a[6] == b[6];
    assert |a| > 14 ==> a[11] == b[11] && a[14] == b[14];
  }

  /** No core prefix continues another, so at most one of their routers matches a path. */
  lemma CorePrefixesApart(p: string, i: nat, j: nat)
    requires i < |CORE_PREFIXES| && j < |CORE_PREFIXES| && CORE_PREFIXES[i] <= p && CORE_PREFIXES[j] <= p
    ensures i == j
  {
    var a, b := CORE_PREFIXES[i], CORE_PREFIXES[j];
    if |a| <= |b| {
      assert a == p[..|a|] == b[..|a|];
      CorePrefixesDiffer(i, j);
    } else {
      assert b == p[..|b|] == a[..|b|];
      CorePrefixesDiffer(j, i);
    }
  }

  // ----- the routers by key -----

  function RouterOf(l: Layout, k: UrlKey): Router
    requires l.Complete() && k in l.urls
  {
    match k
    case Web => WebRouter(l)
    case Cms => CmsHostRouter(l)
    case Engine => EngineRouter(l)
    case Workflows => MonitorRouter(l)
    case _ => l.MakeRouter(HostRuleOf(l.urls[k]), l.Public(), ServiceOf(k), 10, [])
  }

  /** The router of `k` matches: by string prefix, not by segment. */
  predicate Claims(l: Layout, q: Request, k: UrlKey) { Reaches(l, q, k) && l.urls[k].path <= q.path }

  lemma RouterOfMatches(l: Layout, q: Request, k: UrlKey)
    requires l.Complete() && k in l.urls
    ensures Matches(RouterOf(l, k), q) <==> Claims(l, q, k)
    ensures RouterOf(l, k).priority == if k == Web then 1 else 10
    ensures RouterOf(l, k).service == ServiceOf(k)
    ensures Serve(RouterOf(l, k), q) == OwnerServes(l, q, Owned(k))
  {}

  predicate IsCoreRouter(l: Layout, r: Router)
    requires l.Complete()
  {
    l.sharedHost && exists i :: 0 <= i < |CORE_PREFIXES| && r == CorePrefixRouter(l, CORE_PREFIXES[i])
  }

  ghost predicate IsServiceRouter(l: Layout, r: Router)
    requires l.Complete()
  {
    exists k :: IsService(l, k) && r == RouterOf(l, k)
  }

  lemma CmsRouterClasses(l: Layout, r: Router)
    requires l.Complete()
    ensures r in CmsRouters(l) <==> if l.sharedHost then IsCoreRouter(l, r) else r == CmsHostRouter(l)
  {
    hide CORE_PREFIXES, CorePrefixRouter, CmsHostRouter;
    var routers := CmsRouters(l);
    if l.sharedHost {
      assert |routers| == |CORE_PREFIXES|;
      assert forall i :: 0 <= i < |routers| ==> routers[i] == CorePrefixRouter(l, CORE_PREFIXES[i]);
    }
  }

  lemma ServiceRouterClasses(l: Layout, r: Router)
    requires l.Complete() && r in ServiceRouters(l)
    ensures IsServiceRouter(l, r)
  {
    var k := if r.service == KeycloakService then Keycloak else Grafana;
    assert IsService(l, k) && r == RouterOf(l, k);
  }

  lemma RouterClasses(l: Layout, r: Router)
    requires l.Complete()
    ensures r in Routers(l) <==>
      r == WebRouter(l) || r == DenyRouter(l) || IsCoreRouter(l, r) || IsServiceRouter(l, r)
  {
    CmsRouterClasses(l, r);
    hide CmsRouters, ServiceRouters, IsCoreRouter, CORE_PREFIXES;
    if r in ServiceRouters(l) {
      ServiceRouterClasses(l, r);
    } else if r == EngineRouter(l) {
      assert IsService(l, Engine) && r == RouterOf(l, Engine);
    } else if r == MonitorRouter(l) {
      assert IsService(l, Workflows) && r == RouterOf(l, Workflows);
    } else if !l.sharedHost && r == CmsHostRouter(l) {
      assert IsService(l, Cms) && r == RouterOf(l, Cms);
    }
    if IsServiceRouter(l, r) {
      var k :| IsService(l, k) && r == RouterOf(l, k);
      ServiceRouterListed(l, k);
    }
    CoreRoutersNeedSharedHost(l, r);
  }

  lemma CoreRoutersNeedSharedHost(l: Layout, r: Router)
    requires l.Complete()
    ensures IsCoreRouter(l, r) ==> l.sharedHost
  {}

  lemma ServiceRouterListed(l: Layout, k: UrlKey)
    requires l.Complete() && IsService(l, k)
    ensures RouterOf(l, k) in Routers(l)
  {
    assert k in {Keycloak, Grafana} ==> RouterOf(l, k) in ServiceRouters(l);
    assert k == Cms ==> RouterOf(l, k) in CmsRouters(l);
  }

  lemma DenyMatches(l: Layout, q: Request)
    requires l.Complete() && '\n' !in q.path
    ensures Matches(DenyRouter(l), q) <==> WorkerCall(l, q)
  {
    hide DenyPattern.Accepts, DenyPattern.ExpressWorker;
    DenyPattern.PatternIsExpress(l.urls[Engine].path, q.path);
  }

  // ----- who wins -----

  ghost predicate CoreClaimed(l: Layout, q: Request)
  {
    OnWebHost(l, q) && exists c :: c in CORE_PREFIXES && c <= q.path
  }

  /** The matching routers, class by class, with their priorities. */
  lemma Candidates(l: Layout, q: Request, r: Router)
    requires l.Complete() && '\n' !in q.path && r in Routers(l) && Matches(r, q)
    ensures
      || (r == DenyRouter(l) && r.priority == 1000 && WorkerCall(l, q))
      || (IsCoreRouter(l, r) && r.priority == 100 && CoreClaimed(l, q) && exists i: nat :: CoreClaims(l, q, r, i))
      || (r.priority == 10 && exists k :: ServiceClaims(l, q, r, k))
      || (r == RouterOf(l, Web) && r.priority == 1 && Claims(l, q, Web))
  {
    hide DenyPattern.Accepts, WorkerCall;
    RouterClasses(l, r);
    DenyMatches(l, q);
    if IsCoreRouter(l, r) {
      var i :| 0 <= i < |CORE_PREFIXES| && r == CorePrefixRouter(l, CORE_PREFIXES[i]);
      assert CoreClaims(l, q, r, i) && CORE_PREFIXES[i] in CORE_PREFIXES;
    } else if IsServiceRouter(l, r) {
      var k :| IsService(l, k) && r == RouterOf(l, k);
      RouterOfMatches(l, q, k);
      assert ServiceClaims(l, q, r, k);
    } else if r == WebRouter(l) {
      RouterOfMatches(l, q, Web);
    }
  }

  predicate CoreClaims(l: Layout, q: Request, r: Router, i: nat)
    requires l.Complete()
  {
    l.sharedHost && i < |CORE_PREFIXES| && CORE_PREFIXES[i] <= q.path && r == CorePrefixRouter(l, CORE_PREFIXES[i])
  }

  predicate ServiceClaims(l: Layout, q: Request, r: Router, k: UrlKey)
    requires l.Complete()
  {
    IsService(l, k) && Claims(l, q, k) && r == RouterOf(l, k)
  }

  lemma DenyWins(l: Layout, q: Request)
    requires l.Complete() && '\n' !in q.path && WorkerCall(l, q)
    ensures Winners(Routers(l), q) == {DenyRouter(l)}
  {
    hide Matches, WorkerCall, Routers;
    RouterClasses(l, DenyRouter(l));
    DenyMatches(l, q);
    forall r | r in Routers(l) && Matches(r, q) ensures r == DenyRouter(l) || r.priority <= 100 {
      Candidates(l, q, r);
    }
  }

  lemma CoreWins(l: Layout, q: Request, i: nat)
    requires l.Complete() && '\n' !in q.path && !WorkerCall(l, q)
    requires OnWebHost(l, q) && i < |CORE_PREFIXES| && CORE_PREFIXES[i] <= q.path
    ensures Winners(Routers(l), q) == {CorePrefixRouter(l, CORE_PREFIXES[i])}
  {
    hide WorkerCall, Routers;
    var c := CorePrefixRouter(l, CORE_PREFIXES[i]);
    RouterClasses(l, c);
    forall r | r in Routers(l) && Matches(r, q) ensures r == c || r.priority <= 10 {
      Candidates(l, q, r);
      if j: nat :| CoreClaims(l, q, r, j) {
        CorePrefixesApart(q.path, i, j);
      }
    }
  }

  /** Below deny and core, the services that claim the path share the highest priority. */
  lemma ServicesWin(l: Layout, q: Request, k: UrlKey, r: Router)
    requires l.Complete() && '\n' !in q.path && !WorkerCall(l, q) && !CoreClaimed(l, q)
    requires IsService(l, k) && Claims(l, q, k)
    ensures r in Winners(Routers(l), q) <==> exists j :: ServiceClaims(l, q, r, j)
  {
    hide WorkerCall, Routers, Matches, CORE_PREFIXES;
    forall o | o in Routers(l) && Matches(o, q) ensures o.priority <= 10 {
      Candidates(l, q, o);
    }
    RouterOfMatches(l, q, k);
    RouterClasses(l, RouterOf(l, k));
    if r in Winners(Routers(l), q) {
      Candidates(l, q, r);
    }
    if j :| ServiceClaims(l, q, r, j) {
      RouterOfMatches(l, q, j);
      RouterClasses(l, r);
    }
  }

  lemma WebWins(l: Layout, q: Request)
    requires l.Complete() && '\n' !in q.path && !WorkerCall(l, q) && !CoreClaimed(l, q)
    requires forall k :: IsService(l, k) ==> !Claims(l, q, k)
    ensures Winners(Routers(l), q) == if Claims(l, q, Web) then {RouterOf(l, Web)} else {}
  {
    hide WorkerCall, Routers, Matches, CORE_PREFIXES;
    RouterOfMatches(l, q, Web);
    RouterClasses(l, RouterOf(l, Web));
    forall r | r in Routers(l) && Matches(r, q) ensures r == RouterOf(l, Web) {
      Candidates(l, q, r);
    }
  }

  // ----- the owner is unique -----

  lemma OwnersUnique(l: Layout, q: Request, j: UrlKey, k: UrlKey)
    requires Validated(l) && Separated(l)
    requires IsService(l, j) && IsService(l, k) && Owns(l, q, j) && Owns(l, q, k)
    ensures j == k
  {
    hide Reserved, Origin, CORE_PREFIXES, WEB_RESERVED_PATHS, Under, WellFormed;
    if j != k {
      var a, b := l.urls[j], l.urls[k];
      assert SameHost(l, j, k) && SameHost(l, k, j);
      assert a.path != "" && b.path != "";
      assert !Overlaps(l.urls, j, k);
      UnderChain(q.path, a.path, b.path);
      SameOriginIffTripleEqual(a, b);
      assert false;
    }
  }

  // ----- the theorem -----

  lemma ClaimsIsOwnsOrStraddles(l: Layout, q: Request, k: UrlKey)
    requires k in l.urls
    ensures Claims(l, q, k) <==> Owns(l, q, k) || ServiceStraddles(l, q, k)
  {
    if Owns(l, q, k) && l.urls[k].path != "" {
      UnderIsPrefix(q.path, l.urls[k].path);
    }
  }

  lemma CoreClaimIsOwnOrStraddle(l: Layout, q: Request)
    ensures CoreClaimed(l, q) <==> CoreOwns(l, q) || CoreStraddles(l, q)
  {
    hide CORE_PREFIXES;
    if c :| CoreOwns(l, q) && c in CORE_PREFIXES && Under(q.path, c) {
      UnderIsPrefix(q.path, c);
    }
    if c :| CoreClaimed(l, q) && c in CORE_PREFIXES && c <= q.path {
      assert Under(q.path, c) || Straddles(q.path, c) || c == "";
      CorePrefixesNonEmpty(c);
    }
  }

  lemma CorePrefixesNonEmpty(c: string)
    requires c in CORE_PREFIXES
    ensures c != ""
  {}

  lemma OneWinner(l: Layout, q: Request, r: Router)
    requires l.Complete() && Winners(Routers(l), q) == {r}
    ensures RoutedToOwner(l, q) <==>
      OwnerOf(l, q) != Nobody && Serve(r, q) == OwnerServes(l, q, OwnerOf(l, q))
  {
    hide OwnerOf, OwnerServes, Serve, Winners, Routers;
    OwnerIsPresent(l, q);
    if RoutedToOwner(l, q) && OwnerOf(l, q) != Nobody {
      var o :| Winners(Routers(l), q) == {o} && Serve(o, q) == OwnerServes(l, q, OwnerOf(l, q));
      assert o in {r};
    }
    assert r in Winners(Routers(l), q);
  }

  /** The owner when neither deny nor core owns the path. */
  lemma OwnerIsPresent(l: Layout, q: Request)
    ensures var o := OwnerOf(l, q);
      && (o.WorkerDeny? <==> WorkerCall(l, q))
      && (o.Core? <==> !WorkerCall(l, q) && CoreOwns(l, q))
      && (o.Owned? ==> o.key in l.urls && Owns(l, q, o.key) && (o.key == Web || IsService(l, o.key)))
      && (o == Owned(Web) ==> forall k :: IsService(l, k) ==> !Owns(l, q, k))
      && (o == Nobody ==> !Owns(l, q, Web) && forall k :: IsService(l, k) ==> !Owns(l, q, k))
  {
    hide WorkerCall, CoreOwns;
  }

  lemma CoreRouterServes(l: Layout, q: Request, c: string)
    requires l.Complete() && l.sharedHost
    ensures Serve(CorePrefixRouter(l, c), q) == CmsServes(q.path)
    ensures forall k :: k in l.urls && k != Cms ==> OwnerServes(l, q, Owned(k)) != CmsServes(q.path)
  {}

  lemma CoreCase(l: Layout, q: Request)
    requires Validated(l) && '\n' !in q.path && !WorkerCall(l, q) && CoreClaimed(l, q)
    ensures RoutedToOwner(l, q) <==> CoreOwns(l, q)
  {
    hide WorkerCall, CoreOwns, Owns, RoutedToOwner, OwnerOf, Routers, Winners, Serve, CORE_PREFIXES;
    var c :| c in CORE_PREFIXES && c <= q.path;
    var i :| 0 <= i < |CORE_PREFIXES| && CORE_PREFIXES[i] == c;
    CoreWins(l, q, i);
    OneWinner(l, q, CorePrefixRouter(l, c));
    OwnerIsPresent(l, q);
    CoreRouterServes(l, q, c);
  }

  lemma KeysServeDifferently(l: Layout, q: Request, j: UrlKey, k: UrlKey)
    requires j in l.urls && k in l.urls && j != k
    ensures OwnerServes(l, q, Owned(j)) != OwnerServes(l, q, Owned(k))
  {
    hide StripPath;
  }

  /** A service that claims the path by string prefix only is among the winners and is not the owner. */
  lemma StraddlerWins(l: Layout, q: Request, j: UrlKey)
    requires l.Complete() && !WorkerCall(l, q) && !CoreOwns(l, q)
    requires IsService(l, j) && ServiceStraddles(l, q, j)
    requires RouterOf(l, j) in Winners(Routers(l), q)
    ensures !RoutedToOwner(l, q)
  {
    OwnerIsPresent(l, q);
    StraddleIsNotOwn(l, q, j);
    RouterOfMatches(l, q, j);
    hide WorkerCall, CoreOwns, OwnerOf, Routers, Winners, Serve, RouterOf, OwnerServes, Owns, ServiceStraddles;
    assert RouterOf(l, j) in Winners(Routers(l), q);
    var o := OwnerOf(l, q);
    if o.Owned? {
      KeysServeDifferently(l, q, j, o.key);
    }
  }

  /** No service straddles: the one that claims the path is its only owner. */
  lemma OnlyServiceWins(l: Layout, q: Request, k: UrlKey)
    requires Validated(l) && Separated(l) && '\n' !in q.path && !WorkerCall(l, q) && !CoreClaimed(l, q)
    requires IsService(l, k) && Claims(l, q, k)
    requires forall j :: IsService(l, j) ==> !ServiceStraddles(l, q, j)
    ensures Owns(l, q, k) && forall j :: IsService(l, j) && Owns(l, q, j) ==> j == k
    ensures Winners(Routers(l), q) == {RouterOf(l, k)}
  {
    assert l.Complete();
    hide WorkerCall, CoreClaimed, Routers, Winners, RouterOf, Separated, Validated, Owns, ServiceStraddles, Claims;
    ClaimsIsOwnsOrStraddles(l, q, k);
    forall j | IsService(l, j) && (Owns(l, q, j) || Claims(l, q, j)) ensures j == k {
      ClaimsIsOwnsOrStraddles(l, q, j);
      OwnersUnique(l, q, j, k);
    }
    var w := RouterOf(l, k);
    assert ServiceClaims(l, q, w, k);
    forall r ensures r in Winners(Routers(l), q) <==> r == w {
      ServicesWin(l, q, k, r);
    }
  }

  lemma ServiceCase(l: Layout, q: Request, k: UrlKey)
    requires Validated(l) && Separated(l) && '\n' !in q.path && !WorkerCall(l, q) && !CoreClaimed(l, q)
    requires IsService(l, k) && Claims(l, q, k)
    ensures RoutedToOwner(l, q) <==> !exists j :: IsService(l, j) && ServiceStraddles(l, q, j)
  {
    assert l.Complete();
    hide WorkerCall, CoreOwns, CoreClaimed, RoutedToOwner, OwnerOf, Routers, Winners, Serve, RouterOf, Separated, Owns;
    CoreClaimIsOwnOrStraddle(l, q);
    if j :| IsService(l, j) && ServiceStraddles(l, q, j) {
      ClaimsIsOwnsOrStraddles(l, q, j);
      assert ServiceClaims(l, q, RouterOf(l, j), j);
      ServicesWin(l, q, k, RouterOf(l, j));
      StraddlerWins(l, q, j);
    } else {
      OnlyServiceWins(l, q, k);
      OwnerIsPresent(l, q);
      RouterOfMatches(l, q, k);
      OneWinner(l, q, RouterOf(l, k));
    }
  }

  lemma WebCase(l: Layout, q: Request)
    requires Validated(l) && '\n' !in q.path && !WorkerCall(l, q) && !CoreClaimed(l, q)
    requires forall k :: IsService(l, k) ==> !Claims(l, q, k)
    ensures RoutedToOwner(l, q) <==> !ServiceStraddles(l, q, Web)
  {
    assert l.Complete();
    hide WorkerCall, CoreOwns, CoreClaimed, OwnerOf, Routers, Winners, Serve, RouterOf, Validated, Owns, Claims;
    CoreClaimIsOwnOrStraddle(l, q);
    OwnerIsPresent(l, q);
    WebWins(l, q);
    ClaimsIsOwnsOrStraddles(l, q, Web);
    forall k | IsService(l, k) ensures !Owns(l, q, k) {
      ClaimsIsOwnsOrStraddles(l, q, k);
    }
    RouterOfMatches(l, q, Web);
    if Claims(l, q, Web) {
      OneWinner(l, q, RouterOf(l, Web));
      StraddleIsNotOwn(l, q, Web);
    }
  }

  lemma StraddleIsNotOwn(l: Layout, q: Request, k: UrlKey)
    ensures ServiceStraddles(l, q, k) ==> !Owns(l, q, k)
  {}

  /** In a validated configuration whose path-less services have hosts of their own, Traefik's choice is
      unique and is the owner's for every request, except exactly where a rule claims the path in the
      middle of a segment and nothing of higher rank owns it. */
  lemma RoutingRefinesOwner(l: Layout, q: Request)
    requires Validated(l) && Separated(l) && '\n' !in q.path
    ensures RoutedToOwner(l, q) <==> !Overreached(l, q)
  {
    hide WorkerCall, CoreOwns, CoreClaimed, CoreStraddles, RoutedToOwner, Routers, Owns, Claims, ServiceStraddles;
    hide Separated;
    CoreClaimIsOwnOrStraddle(l, q);
    if WorkerCall(l, q) {
      DenyCase(l, q);
    } else if CoreClaimed(l, q) {
      CoreCase(l, q);
    } else if k :| IsService(l, k) && Claims(l, q, k) {
      ServiceCase(l, q, k);
      ClaimsIsOwnsOrStraddles(l, q, k);
    } else {
      WebCase(l, q);
      forall k | IsService(l, k) ensures !Owns(l, q, k) && !ServiceStraddles(l, q, k) {
        ClaimsIsOwnsOrStraddles(l, q, k);
      }
    }
  }

  lemma DenyCase(l: Layout, q: Request)
    requires Validated(l) && '\n' !in q.path && WorkerCall(l, q)
    ensures RoutedToOwner(l, q)
  {
    hide WorkerCall, Routers, Winners, OwnerOf;
    DenyWins(l, q);
    OwnerIsPresent(l, q);
    OneWinner(l, q, DenyRouter(l));
  }
}

/** Requests under a service's public URL, from the published host port to the service. */
module EndToEnd {
  import opened Wrappers
  import opened Text
  import opened EnvValues
  import opened Scenarios
  import opened Urls
  import opened PublicUrls
  import opened Rules
  import opened Traefik
  import opened Routing
  import DenyPattern

  // ----- validation -----

  lemma AcceptedParses(env: Vals, s: Scenario, host: Host)
    requires Accepted(env, s, host)
    ensures forall k :: k in WantedKeys(env, s) ==> Parses(env, k)
    ensures PublicUrlsOf(env, s) == Some(ParsedUrls(env, s)) && HasBase(ParsedUrls(env, s))
  {
    hide Parse, OverlayProblem, UrlProblem, TlsTerminatedUpstream, TrustedProxies, ReadPorts, FileOf;
    forall k | k in WantedKeys(env, s) ensures Parses(env, k) {
      assert !Reported(UrlRequired(k), env, s, host) && !Reported(UrlBad(k), env, s, host);
    }
    assert Web in BASE_URLS && Cms in BASE_URLS && Engine in BASE_URLS && Workflows in BASE_URLS;
  }

  /** No reported problem: every URL parses, the ports are numbers and no URL rule is broken. */
  lemma AcceptedUnpacks(env: Vals, s: Scenario, host: Host)
    requires Accepted(env, s, host)
    ensures PublicUrlsOf(env, s) == Some(ParsedUrls(env, s)) && HasBase(ParsedUrls(env, s))
    ensures ReadPorts(env).Some? && BuildTraefik(env, s).Some?
    ensures forall p ::
      !UrlProblem(p, ParsedUrls(env, s), ParsedKeys(env, s), s, ReadPorts(env).value, TlsTerminatedUpstream(env, s))
  {
    hide Parse, OverlayProblem, ParseProblem, UrlProblem, TlsTerminatedUpstream, TrustedProxies, PyInt, WantedKeys;
    hide PublicUrlsOf, ParsedUrls, ParsedKeys, Routers, FileOf;
    AcceptedParses(env, s, host);
    assert !Reported(BadPorts, env, s, host);
    forall p
      ensures !UrlProblem(
        p, ParsedUrls(env, s), ParsedKeys(env, s), s, ReadPorts(env).value, TlsTerminatedUpstream(env, s))
    {
      assert !Reported(p, env, s, host);
    }
  }

  /** What Traefik's own host ports are wired to: compose.traefik.yaml, the TLS overlays and ports.yaml. */
  function Published(l: Layout, ports: Ports): seq<(int, int)>
  {
    [(ports.http, 80)] + (if l.secure then [(ports.https, 443)] else [])
      + (if l.monitorEntrypoint then [(ports.monitor, 8443)] else [])
  }

  /** The routing preconditions of `Routing`, and the port each URL uses. */
  predicate PortsFit(l: Layout, s: Scenario, ports: Ports)
  {
    forall k :: k in l.urls ==>
      l.urls[k].port == if EntryOf(l, k) == MonitorEntry then ports.monitor else ports.Public(s)
  }

  lemma AcceptedIsValidated(env: Vals, s: Scenario, host: Host)
    requires Accepted(env, s, host) && s.Has(TraefikProxy) && !TlsTerminatedUpstream(env, s)
    ensures PublicUrlsOf(env, s).Some? && ReadPorts(env).Some?
    ensures var l := LayoutOf(PublicUrlsOf(env, s).value, s);
      Validated(l) && PortsFit(l, s, ReadPorts(env).value)
  {
    hide Parse, TrustedProxies, PyInt, Reserved, Origin, ReadPorts, FileOf, WellFormed;
    AcceptedUnpacks(env, s, host);
    var urls, ports, keys := ParsedUrls(env, s), ReadPorts(env).value, ParsedKeys(env, s);
    NoProblemMeansFit(urls, keys, s, ports);
    assert forall k :: k in urls ==> WellFormed(urls[k]);
    NoProblemMeansValidated(urls, keys, s, ports);
  }

  lemma NoProblemMeansScheme(urls: UrlMap, keys: seq<UrlKey>, s: Scenario, ports: Ports)
    requires HasBase(urls) && (forall k :: k in urls <==> k in keys) && s.Has(TraefikProxy)
    requires forall p :: !UrlProblem(p, urls, keys, s, ports, false)
    ensures forall k :: k in urls ==> urls[k].scheme == ExpectedScheme(s)
  {
    hide FileOf, Scenario.Has, CmsProblem, PathProblem, Overlaps, UpstreamProblem, MonitorPortProblem, ExpectedScheme;
    forall k | k in urls ensures urls[k].scheme == ExpectedScheme(s) {
      assert !UrlProblem(WrongScheme(k), urls, keys, s, ports, false);
    }
  }

  lemma NoProblemMeansPublicPort(urls: UrlMap, keys: seq<UrlKey>, s: Scenario, ports: Ports)
    requires HasBase(urls) && (forall k :: k in urls <==> k in keys) && s.Has(TraefikProxy)
    requires forall p :: !UrlProblem(p, urls, keys, s, ports, false)
    ensures forall k :: k in urls && !(k == Workflows && MonitorEntrypointWanted(urls, s)) ==>
      urls[k].port == ports.Public(s)
  {
    hide FileOf, Scenario.Has, CmsProblem, PathProblem, Overlaps, UpstreamProblem, MonitorPortProblem, ExpectedScheme;
    hide Ports.Public, MonitorEntrypointWanted;
    forall k | k in urls && !(k == Workflows && MonitorEntrypointWanted(urls, s))
      ensures urls[k].port == ports.Public(s)
    {
      assert !UrlProblem(WrongPort(k), urls, keys, s, ports, false);
    }
  }

  lemma NoProblemMeansMonitorPort(urls: UrlMap, keys: seq<UrlKey>, s: Scenario, ports: Ports)
    requires HasBase(urls) && s.Has(TraefikProxy)
    requires forall p :: !UrlProblem(p, urls, keys, s, ports, false)
    ensures MonitorEntrypointWanted(urls, s) ==> urls[Workflows].port == ports.monitor
  {
    hide FileOf, Scenario.Has, CmsProblem, PathProblem, Overlaps, UpstreamProblem, TraefikProblem, SameOrigin;
    hide Ports.Public;
    assert !UrlProblem(MonitorPortIsPublic, urls, keys, s, ports, false);
    assert !UrlProblem(MonitorPortMismatch, urls, keys, s, ports, false);
  }

  lemma NoProblemMeansFit(urls: UrlMap, keys: seq<UrlKey>, s: Scenario, ports: Ports)
    requires HasBase(urls) && (forall k :: k in urls <==> k in keys) && s.Has(TraefikProxy)
    requires forall p :: !UrlProblem(p, urls, keys, s, ports, false)
    ensures PortsFit(LayoutOf(urls, s), s, ports)
    ensures forall k :: k in urls ==> urls[k].scheme == ExpectedScheme(s)
  {
    hide FileOf, Scenario.Has, UrlProblem, MonitorEntrypointWanted, Ports.Public, ExpectedScheme, Scenario.Tls;
    NoProblemMeansScheme(urls, keys, s, ports);
    NoProblemMeansPublicPort(urls, keys, s, ports);
    NoProblemMeansMonitorPort(urls, keys, s, ports);
  }

  lemma NoProblemMeansPrefixes(urls: UrlMap, keys: seq<UrlKey>, s: Scenario, ports: Ports)
    requires HasBase(urls) && (forall k :: k in urls <==> k in keys) && s.Has(TraefikProxy)
    requires forall p :: !UrlProblem(p, urls, keys, s, ports, false)
    ensures forall k :: k in PREFIXED_URLS && k in urls && SameOrigin(urls[k], urls[Web]) ==> urls[k].path != ""
    ensures forall k :: k in PREFIXED_URLS && Prefixed(urls, k) ==> !Reserved(urls[k].path)
    ensures forall j, k :: j in PREFIXED_URLS && k in PREFIXED_URLS && j != k ==> !Overlaps(urls, j, k)
  {
    hide Reserved, SameOrigin, FileOf, CmsProblem, TraefikProblem, MonitorPortProblem;
    forall k | k in PREFIXED_URLS && k in urls
      ensures SameOrigin(urls[k], urls[Web]) ==> urls[k].path != ""
      ensures Prefixed(urls, k) ==> !Reserved(urls[k].path)
    {
      assert !UrlProblem(NeedsPrefix(k), urls, keys, s, ports, false);
      assert !UrlProblem(ReservedPath(k), urls, keys, s, ports, false);
    }
    forall j, k | j in PREFIXED_URLS && k in PREFIXED_URLS && j != k ensures !Overlaps(urls, j, k) {
      OverlapsSymmetric(urls, j, k);
      hide Overlaps;
      assert !UrlProblem(Overlap(j, k), urls, keys, s, ports, false);
      assert !UrlProblem(Overlap(k, j), urls, keys, s, ports, false);
    }
  }

  lemma OverlapsSymmetric(urls: UrlMap, j: UrlKey, k: UrlKey)
    ensures Overlaps(urls, j, k) <==> Overlaps(urls, k, j)
  {
    hide Under, Origin;
  }

  lemma NoProblemMeansValidated(urls: UrlMap, keys: seq<UrlKey>, s: Scenario, ports: Ports)
    requires HasBase(urls) && (forall k :: k in urls <==> k in keys) && s.Has(TraefikProxy)
    requires forall k :: k in urls ==> WellFormed(urls[k])
    requires forall p :: !UrlProblem(p, urls, keys, s, ports, false)
    ensures Validated(LayoutOf(urls, s))
  {
    hide Reserved, Origin, FileOf, WellFormed, Overlaps, Scenario.Has;
    NoProblemMeansFit(urls, keys, s, ports);
    NoProblemMeansPrefixes(urls, keys, s, ports);
    assert !UrlProblem(CmsPath, urls, keys, s, ports, false);
    assert !UrlProblem(CmsNeedsSharedHost, urls, keys, s, ports, false);
    if !s.Has(SharedHost) {
      forall k | k in urls ensures urls[k].path == "" {
        assert !UrlProblem(PathNeedsSharedHost(k), urls, keys, s, ports, false);
      }
    }
  }

  // ----- a service whose prefix is shadowed -----

  /** A prefix on the same host of the same entrypoint ends in the middle of a segment of the service's own. */
  ghost predicate Shadowed(l: Layout, k: UrlKey)
    requires l.Complete() && k in l.urls
  {
    || (l.sharedHost && EntryOf(l, k) == l.Public() && l.urls[k].host == l.urls[Web].host
        && exists c :: c in CORE_PREFIXES && Straddles(l.urls[k].path, c))
    || (exists j :: IsService(l, j) && SameHost(l, j, k) && Straddles(l.urls[k].path, l.urls[j].path))
  }

  /** Below a prefix `p`, only what straddles `p` itself or lies below it can straddle. */
  lemma StraddleTransfers(path: string, p: string, c: string)
    requires Under(path, p) && p != "" && c != ""
    ensures Straddles(p, c) ==> Straddles(path, c)
    ensures Straddles(path, c) ==> Straddles(p, c) || Under(c, p)
  {
    UnderIsPrefix(path, p);
    if Straddles(p, c) && Under(path, c) {
      UnderIsPrefix(path, c);
      ShorterContains(path, c, p);
    }
    if Straddles(path, c) {
      if |c| <= |p| {
        assert c == path[..|c|] == p[..|c|];
        if Under(p, c) {
          UnderIsPrefix(p, c);
          UnderTransitive(path, p, c);
        }
      } else {
        assert p == path[..|p|] == c[..|p|];
        assert c[|p|] == path[|p|] == '/';
        assert c[..|p| + 1] == p + "/";
      }
    }
  }

  lemma UnderTransitive(a: string, b: string, c: string)
    requires Under(a, b) && Under(b, c)
    ensures Under(a, c)
  {
    if b != c {
      UnderIsPrefix(a, b);
      assert c + "/" == b[..|c| + 1] == a[..|c| + 1];
    }
  }

  /** No prefix that validation lets through contains a core prefix. */
  lemma CoreUnderIsReserved(c: string, p: string)
    requires c in CORE_PREFIXES && Under(c, p) && p != ""
    ensures Reserved(p)
  {
    if c == p {
      SelfReserved(c);
    } else {
      UnderIsPrefix(c, p);
      assert c[|p|] == '/';
      SecondSlash(c, |p|);
      assert p == c[..5];
      AuthReserved(c, p);
    }
  }

  lemma SelfReserved(c: string)
    requires c in CORE_PREFIXES
    ensures Reserved(c)
  {
    hide CORE_PREFIXES, WEB_RESERVED_PATHS;
    assert c in CORE_PREFIXES + WEB_RESERVED_PATHS && Under(c, c);
  }

  lemma SecondSlash(c: string, i: nat)
    requires c in CORE_PREFIXES && 0 < i < |c| && c[i] == '/'
    ensures i == 5 && c[..5] == "/auth"
  {
    var n :| 0 <= n < |CORE_PREFIXES| && CORE_PREFIXES[n] == c;
  }

  lemma AuthReserved(c: string, p: string)
    requires p == "/auth"
    ensures Reserved(p)
  {
    assert "/auth" == WEB_RESERVED_PATHS[0];
    assert "/auth" in WEB_RESERVED_PATHS;
    assert p in CORE_PREFIXES + WEB_RESERVED_PATHS && Under(p, p);
  }

  /** Core never owns a path under a service's URL. */
  lemma CoreStaysOut(l: Layout, q: Request, k: UrlKey)
    requires Validated(l) && k in PREFIXED_URLS && Owns(l, q, k)
    ensures OnWebHost(l, q) && EntryOf(l, k) == l.Public() ==> l.urls[k].path != "" && !Reserved(l.urls[k].path)
    ensures !CoreOwns(l, q)
  {
    hide CORE_PREFIXES, WEB_RESERVED_PATHS, Reserved, Origin;
    var u := l.urls[k];
    if OnWebHost(l, q) {
      assert EntryOf(l, k) == l.Public() == EntryOf(l, Web);
      SameOriginIffTripleEqual(u, l.urls[Web]);
      assert u.path != "" && !Reserved(u.path);
      forall c | c in CORE_PREFIXES && Under(q.path, c) ensures false {
        UnderChain(q.path, c, u.path);
        CoreAndService(c, u.path);
      }
    }
  }

  lemma CoreAndService(c: string, p: string)
    requires c in CORE_PREFIXES && p != "" && (Under(c, p) || Under(p, c))
    ensures Reserved(p)
  {
    hide CORE_PREFIXES, WEB_RESERVED_PATHS;
    if Under(c, p) {
      CoreUnderIsReserved(c, p);
    } else {
      assert c in CORE_PREFIXES + WEB_RESERVED_PATHS;
    }
  }

  /** For requests under a service's URL the exception of the routing theorem is a property of the configuration. */
  lemma OverreachedIsShadowed(l: Layout, q: Request, k: UrlKey)
    requires Validated(l) && Separated(l) && k in PREFIXED_URLS && IsService(l, k) && Owns(l, q, k) && !WorkerCall(l, q)
    ensures Overreached(l, q) <==> Shadowed(l, k)
  {
    hide WorkerCall, CORE_PREFIXES, WEB_RESERVED_PATHS, Reserved, Straddles, CoreOwns, Validated;
    CoreStaysOut(l, q, k);
    CoreStraddlesIff(l, q, k);
    forall j | IsService(l, j) && Reaches(l, q, j)
      ensures Straddles(q.path, l.urls[j].path) <==> Straddles(l.urls[k].path, l.urls[j].path)
    {
      ServiceStraddlesIff(l, q, k, j);
    }
  }

  lemma CoreStraddlesIff(l: Layout, q: Request, k: UrlKey)
    requires Validated(l) && k in PREFIXED_URLS && Owns(l, q, k)
    ensures CoreStraddles(l, q) <==>
      (l.sharedHost && EntryOf(l, k) == l.Public() && l.urls[k].host == l.urls[Web].host
       && exists c :: c in CORE_PREFIXES && Straddles(l.urls[k].path, c))
  {
    hide CORE_PREFIXES, WEB_RESERVED_PATHS, Reserved, Straddles, Under;
    CoreStaysOut(l, q, k);
    var p := l.urls[k].path;
    if OnWebHost(l, q) {
      forall c | c in CORE_PREFIXES ensures Straddles(q.path, c) <==> Straddles(p, c) {
        CorePrefixesNonEmpty(c);
        StraddleTransfers(q.path, p, c);
        if Under(c, p) {
          CoreUnderIsReserved(c, p);
        }
      }
    }
  }

  lemma ServiceStraddlesIff(l: Layout, q: Request, k: UrlKey, j: UrlKey)
    requires Validated(l) && Separated(l) && k in PREFIXED_URLS && IsService(l, k) && Owns(l, q, k)
    requires IsService(l, j) && Reaches(l, q, j)
    ensures Straddles(q.path, l.urls[j].path) <==> Straddles(l.urls[k].path, l.urls[j].path)
  {
    var a, b := l.urls[k], l.urls[j];
    if j != k {
      assert SameHost(l, j, k) && SameHost(l, k, j);
      StraddleTransfers(q.path, a.path, b.path);
      SameOriginIffTripleEqual(a, b);
      assert !Overlaps(l.urls, j, k);
    }
  }

  // ----- from the host port to the service -----

  /** A connection to the host's `port` is handed to entrypoint `e`. */
  ghost predicate Listens(l: Layout, ports: Ports, port: int, e: EntryPointName)
  {
    exists p, ep :: p in Published(l, ports) && ep in Entrypoints(l.secure, ports.https, l.monitorEntrypoint)
                    && p.0 == port && p.1 == ep.containerPort && ep.name == e
  }

  /** A request under `k`'s public URL: it arrives at the URL's port, names its host and stays under its path. */
  ghost predicate UnderUrl(l: Layout, ports: Ports, q: Request, k: UrlKey)
    requires k in l.urls
  {
    Listens(l, ports, l.urls[k].port, q.entrypoint) && q.host == l.urls[k].host && Within(q.path, l.urls[k].path)
  }

  predicate DistinctHostPorts(l: Layout, ports: Ports)
  {
    && (l.secure ==> ports.http != ports.https)
    && (l.monitorEntrypoint ==> ports.monitor != ports.http && (l.secure ==> ports.monitor != ports.https))
  }

  /** The host port of each entrypoint. */
  predicate Opens(l: Layout, ports: Ports, port: int, e: EntryPointName)
  {
    match e
    case WebEntry => port == ports.http
    case WebSecureEntry => l.secure && port == ports.https
    case MonitorEntry => l.monitorEntrypoint && port == ports.monitor
  }

  function ContainerPort(e: EntryPointName): int
  {
    match e
    case WebEntry => 80
    case WebSecureEntry => 443
    case MonitorEntry => 8443
  }

  lemma PublishedPorts(l: Layout, ports: Ports, port: int, e: EntryPointName)
    ensures (port, ContainerPort(e)) in Published(l, ports) <==> Opens(l, ports, port, e)
  {}

  lemma EntrypointPorts(l: Layout, https: int, e: EntryPointName)
    ensures forall ep :: ep in Entrypoints(l.secure, https, l.monitorEntrypoint) ==>
      ep.containerPort == ContainerPort(ep.name)
    ensures (e == WebEntry || (e == WebSecureEntry && l.secure) || (e == MonitorEntry && l.monitorEntrypoint))
      <==> exists ep :: ep in Entrypoints(l.secure, https, l.monitorEntrypoint) && ep.name == e
  {
    var eps := Entrypoints(l.secure, https, l.monitorEntrypoint);
    assert EntryPoint(WebEntry, 80, if l.secure then Some(https) else None) in eps;
    assert l.secure ==> EntryPoint(WebSecureEntry, 443, None) in eps;
    assert l.monitorEntrypoint ==> EntryPoint(MonitorEntry, 8443, None) in eps;
  }

  lemma ListensIff(l: Layout, ports: Ports, port: int, e: EntryPointName)
    ensures Listens(l, ports, port, e) <==> Opens(l, ports, port, e)
  {
    PublishedPorts(l, ports, port, e);
    EntrypointPorts(l, ports.https, e);
    hide Published, Entrypoints;
    if Opens(l, ports, port, e) {
      var ep :| ep in Entrypoints(l.secure, ports.https, l.monitorEntrypoint) && ep.name == e;
      var p := (port, ContainerPort(e));
      assert p in Published(l, ports) && p.0 == port && p.1 == ep.containerPort;
    }
    if p, ep :| p in Published(l, ports) && ep in Entrypoints(l.secure, ports.https, l.monitorEntrypoint)
                && p.0 == port && p.1 == ep.containerPort && ep.name == e {
      assert p == (port, ContainerPort(e));
    }
  }

  /** The port of every URL is published, and leads to the one entrypoint that carries its router. */
  lemma PortLeadsToEntrypoint(l: Layout, s: Scenario, ports: Ports, k: UrlKey, e: EntryPointName)
    requires l.Complete() && l.secure == s.Tls() && PortsFit(l, s, ports) && DistinctHostPorts(l, ports) && k in l.urls
    ensures Listens(l, ports, l.urls[k].port, e) <==> e == EntryOf(l, k)
  {
    hide FileOf, Scenario.Has, Scenario.Tls, Listens;
    ListensIff(l, ports, l.urls[k].port, e);
  }

  lemma UnshadowedOwner(l: Layout, q: Request, k: UrlKey)
    requires Validated(l) && Separated(l) && k in PREFIXED_URLS && IsService(l, k) && Owns(l, q, k) && !WorkerCall(l, q)
    ensures OwnerOf(l, q) == Owned(k)
  {
    hide WorkerCall, CoreOwns, Validated, Separated, Owns, OwnerOf;
    OwnerIsPresent(l, q);
    CoreStaysOut(l, q, k);
    if OwnerOf(l, q).Owned? && OwnerOf(l, q).key != Web {
      OwnersUnique(l, q, k, OwnerOf(l, q).key);
    }
  }

  /** Re-prefixing what the monitor is handed with MONITOR_BASE_PATH gives the public path back. */
  lemma MonitorPathRestored(env: Vals, s: Scenario, q: Request)
    requires PublicUrlsOf(env, s).Some?
    requires Within(q.path, PublicUrlsOf(env, s).value[Workflows].path)
    ensures var served := OwnerServes(LayoutOf(PublicUrlsOf(env, s).value, s), q, Owned(Workflows));
      MonitorBasePath(env).Some? && served.Delivered? && MonitorBasePath(env).value + served.path == q.path
  {
    hide Parse, FileOf, Origin;
    var p := PublicUrlsOf(env, s).value[Workflows].path;
    assert Workflows in BASE_URLS;
    assert MonitorBasePath(env) == Some(p);
    hide MonitorBasePath, PublicUrlsOf;
    if p != "" {
      UnderIsPrefix(q.path, p);
    }
  }

  /** The routing half of the theorem below, on the layout. */
  lemma ServiceReached(l: Layout, q: Request, k: UrlKey)
    requires Validated(l) && Separated(l) && k in PREFIXED_URLS && k in l.urls && Owns(l, q, k)
    requires !WorkerCall(l, q) && '\n' !in q.path
    ensures DeliveredTo(Routers(l), l, q, k) <==> !Shadowed(l, k)
  {
    assert IsService(l, k);
    hide WorkerCall, Separated, Shadowed, Validated, Winners, Owns, OwnerOf, Routers, OwnerServes, Serve, Overreached;
    RoutingRefinesOwner(l, q);
    OverreachedIsShadowed(l, q, k);
    UnshadowedOwner(l, q, k);
  }

  /** One router wins, and it serves the request as `k`'s service does. */
  ghost predicate DeliveredTo(routers: seq<Router>, l: Layout, q: Request, k: UrlKey)
    requires k in l.urls
  {
    exists r :: Winners(routers, q) == {r} && Serve(r, q) == OwnerServes(l, q, Owned(k))
  }

  lemma PortIsReserved(env: Vals, s: Scenario, ports: Ports, k: UrlKey)
    requires PublicUrlsOf(env, s).Some? && s.Has(TraefikProxy) && k in PublicUrlsOf(env, s).value
    requires PortsFit(LayoutOf(PublicUrlsOf(env, s).value, s), s, ports)
    ensures RequiredPorts(env, s, ports).Some? ==>
      (Get(env, "NEOPS_PROXY_BIND_ADDRESS", "0.0.0.0"), PublicUrlsOf(env, s).value[k].port as int)
      in RequiredPorts(env, s, ports).value
  {
    hide PublicUrlsOf, FileOf, Origin, PyInt;
    assert (Get(env, "NEOPS_PROXY_BIND_ADDRESS", "0.0.0.0"), PublicUrlsOf(env, s).value[k].port as int)
      in ProxyPorts(env, s, ports);
  }

  /** What preflight reserves for the proxy is exactly what the proxy publishes. */
  lemma ReservedIffPublished(env: Vals, s: Scenario, ports: Ports, address: string, port: int)
    requires PublicUrlsOf(env, s).Some? && s.Has(TraefikProxy)
    ensures (address, port) in ProxyPorts(env, s, ports) <==>
      && address == Get(env, "NEOPS_PROXY_BIND_ADDRESS", "0.0.0.0")
      && exists c :: (port, c) in Published(LayoutOf(PublicUrlsOf(env, s).value, s), ports)
  {
    hide PublicUrlsOf, FileOf, Origin, Scenario.Has, Scenario.Tls, MonitorEntrypointWanted;
    var l := LayoutOf(PublicUrlsOf(env, s).value, s);
    if (address, port) in ProxyPorts(env, s, ports) {
      var published := Published(l, ports);
      assert (port, 80) in published || (port, 443) in published || (port, 8443) in published;
    }
  }

  /** And beside it exactly the ports of Keycloak and Grafana, where they run. */
  lemma RequiredIff(env: Vals, s: Scenario, ports: Ports, address: string, port: int)
    requires s.Has(TraefikProxy) && RequiredPorts(env, s, ports).Some?
    ensures (address, port) in RequiredPorts(env, s, ports).value <==>
      || (address, port) in ProxyPorts(env, s, ports)
      || (address == Get(env, "NEOPS_BIND_ADDRESS", "127.0.0.1")
          && ((s.Has(KeycloakIdp) && PyInt(Get(env, "NEOPS_KEYCLOAK_PORT", "8180")) == Some(port))
              || (s.RunsGrafana() && PyInt(Get(env, "NEOPS_GRAFANA_PORT", "3000")) == Some(port))))
  {
    hide ProxyPorts, PyInt, Scenario.Has;
  }

  /** Every request under the public URL of the engine, the monitor, Keycloak or Grafana, worker POSTs excepted,
      is delivered to that service alone, with its prefix stripped where the service asks for it, exactly when no
      other prefix on the host ends inside a segment of the service's own. Its port is one that preflight reserves. */
  lemma PublicUrlReachesService(env: Vals, s: Scenario, host: Host, q: Request, k: UrlKey)
    requires Accepted(env, s, host) && s.Has(TraefikProxy) && !TlsTerminatedUpstream(env, s)
    requires PublicUrlsOf(env, s).Some? && ReadPorts(env).Some?
    requires var l := LayoutOf(PublicUrlsOf(env, s).value, s);
      && DistinctHostPorts(l, ReadPorts(env).value) && Separated(l)
      && k in PREFIXED_URLS && k in l.urls && UnderUrl(l, ReadPorts(env).value, q, k)
      && !WorkerCall(l, q) && '\n' !in q.path
    ensures var l := LayoutOf(PublicUrlsOf(env, s).value, s);
      BuildTraefik(env, s).Some? && (DeliveredTo(BuildTraefik(env, s).value.routers, l, q, k) <==> !Shadowed(l, k))
    ensures RequiredPorts(env, s, ReadPorts(env).value).Some? ==>
      (Get(env, "NEOPS_PROXY_BIND_ADDRESS", "0.0.0.0"), PublicUrlsOf(env, s).value[k].port as int)
      in RequiredPorts(env, s, ReadPorts(env).value).value
  {
    hide PublicUrlsOf, RequiredPorts, TrustedProxies, ReadPorts, Routers, FileOf, WorkerCall, Separated, Shadowed;
    hide Listens, Validated, DeliveredTo, Accepted;
    AcceptedUnpacks(env, s, host);
    AcceptedIsValidated(env, s, host);
    var l, ports := LayoutOf(PublicUrlsOf(env, s).value, s), ReadPorts(env).value;
    assert l.Complete() && l.secure == s.Tls();
    PortIsReserved(env, s, ports, k);
    PortLeadsToEntrypoint(l, s, ports, k, q.entrypoint);
    ServiceReached(l, q, k);
  }

  /** On the engine's host, a POST that continues the prefix into what Express matches as a worker route is
      answered by the deny router alone, and nothing else is. */
  lemma WorkerRoutesRefused(l: Layout, q: Request, rest: string)
    requires l.Complete() && q.entrypoint == l.Public() && q.host == l.urls[Engine].host
    requires q.path == l.urls[Engine].path + rest && '\n' !in q.path
    ensures q.verb == POST && DenyPattern.ExpressWorker(rest) <==> Winners(Routers(l), q) == {DenyRouter(l)}
    ensures Serve(DenyRouter(l), q) == Refused
  {
    hide DenyPattern.ExpressWorker, Routers, DenyPattern.Accepts;
    var prefix := l.urls[Engine].path;
    assert prefix <= q.path && q.path[|prefix|..] == rest;
    if WorkerCall(l, q) {
      DenyWins(l, q);
    }
    DenyMatches(l, q);
    if Winners(Routers(l), q) == {DenyRouter(l)} {
      assert DenyRouter(l) in Winners(Routers(l), q);
    }
  }

  /** Every other request under the engine's URL reaches the engine with exactly the prefix taken off. */
  lemma EngineSeesTheRest(l: Layout, q: Request, rest: string)
    requires Validated(l) && Separated(l) && q.entrypoint == l.Public() && q.host == l.urls[Engine].host
    requires q.path == l.urls[Engine].path + rest && rest != "" && rest[0] == '/' && '\n' !in q.path
    requires !(q.verb == POST && DenyPattern.ExpressWorker(rest)) && !Shadowed(l, Engine)
    ensures exists r :: Winners(Routers(l), q) == {r} && Serve(r, q) == Delivered(EngineService, rest)
  {
    hide DenyPattern.ExpressWorker, Routers, Shadowed, Winners, Separated, Serve;
    var prefix := l.urls[Engine].path;
    assert q.path[|prefix|..] == rest && prefix <= q.path;
    if prefix != "" {
      assert q.path == (prefix + "/") + rest[1..];
    }
    ServiceReached(l, q, Engine);
  }

  // ----- ties -----

  predicate Tied(l: Layout, q: Request, j: UrlKey, k: UrlKey)
  {
    j != k && IsService(l, j) && IsService(l, k) && Owns(l, q, j) && Owns(l, q, k)
  }

  /** Validation alone does not make the owner unique: two services own one request, and both their routers win it,
      exactly when a service without a path shares its host. */
  lemma TiesIffNotSeparated(l: Layout)
    requires Validated(l)
    ensures Separated(l) <==> !exists q, j, k :: Tied(l, q, j, k)
    ensures !Separated(l) ==>
      exists q, j, k :: Tied(l, q, j, k) && {RouterOf(l, j), RouterOf(l, k)} <= Winners(Routers(l), q)
  {
    hide Validated, Winners, Routers, RouterOf;
    if Separated(l) {
      forall q, j, k | Tied(l, q, j, k) ensures false {
        OwnersUnique(l, q, j, k);
      }
    } else {
      var j, k :| IsService(l, j) && IsService(l, k) && j != k && SameHost(l, j, k) && l.urls[j].path == "";
      var q := TieWitness(l, j, k);
    }
  }

  /** The request for the service's own URL. */
  function OwnRequest(l: Layout, k: UrlKey): Request
    requires k in l.urls
  {
    Request(EntryOf(l, k), l.urls[k].host, Other, if l.urls[k].path == "" then "/" else l.urls[k].path)
  }

  lemma TieWitness(l: Layout, j: UrlKey, k: UrlKey) returns (q: Request)
    requires Validated(l) && IsService(l, j) && IsService(l, k) && j != k && SameHost(l, j, k) && l.urls[j].path == ""
    ensures Tied(l, q, j, k) && {RouterOf(l, j), RouterOf(l, k)} <= Winners(Routers(l), q)
    ensures RouterOf(l, j) != RouterOf(l, k)
  {
    assert l.Complete() && WellFormed(l.urls[k]);
    hide Validated, Winners, Routers, RouterOf, Rivals, WellFormed, Owns, Under;
    PathlessIsRival(l, j, k);
    q := OwnRequest(l, k);
    RivalsTie(l, j, k);
    OwnRequestIsOwned(l, j, k);
  }

  lemma OwnRequestIsOwned(l: Layout, j: UrlKey, k: UrlKey)
    requires SameHost(l, j, k) && l.urls[j].path == ""
    ensures Owns(l, OwnRequest(l, k), j) && Owns(l, OwnRequest(l, k), k)
  {}

  lemma WellFormedPathIsPlain(u: PublicUrl)
    requires WellFormed(u)
    ensures '\n' !in u.path
  {}

  /** A core prefix claims the whole of the service's URL. */
  ghost predicate CoreTakes(l: Layout, k: UrlKey)
    requires l.Complete() && k in l.urls
  {
    && l.sharedHost && EntryOf(l, k) == l.Public() && l.urls[k].host == l.urls[Web].host
    && exists c :: c in CORE_PREFIXES && c <= l.urls[k].path
  }

  /** Two services on one host, the second's path a continuation of the first's as text, and free of core prefixes. */
  ghost predicate Rivals(l: Layout, j: UrlKey, k: UrlKey)
    requires l.Complete()
  {
    && IsService(l, j) && IsService(l, k) && j != k && SameHost(l, j, k)
    && l.urls[j].path <= l.urls[k].path && !CoreTakes(l, k)
  }

  /** Of those, the ones that continue in the middle of a segment. */
  ghost predicate Straddling(l: Layout, j: UrlKey, k: UrlKey)
    requires l.Complete()
  {
    && IsService(l, j) && IsService(l, k) && j != k && SameHost(l, j, k)
    && Straddles(l.urls[k].path, l.urls[j].path) && !CoreTakes(l, k)
  }

  ghost predicate OneWinnerAtMost(l: Layout, q: Request)
    requires l.Complete()
  {
    forall a, b :: a in Winners(Routers(l), q) && b in Winners(Routers(l), q) ==> a == b
  }

  lemma CoreClaimsWithTaker(l: Layout, q: Request, k: UrlKey)
    requires l.Complete() && Reaches(l, q, k) && l.urls[k].path <= q.path && CoreTakes(l, k)
    ensures CoreClaimed(l, q)
  {
    hide CORE_PREFIXES;
    var c :| c in CORE_PREFIXES && c <= l.urls[k].path;
    assert c <= q.path;
  }

  /** Two services that claim one request below core are rivals. */
  lemma ClaimantsAreRivals(l: Layout, q: Request, j: UrlKey, k: UrlKey)
    requires l.Complete() && !CoreClaimed(l, q) && j != k
    requires IsService(l, j) && Claims(l, q, j) && IsService(l, k) && Claims(l, q, k)
    ensures Rivals(l, j, k) || Rivals(l, k, j)
  {
    var a, b := l.urls[j].path, l.urls[k].path;
    if CoreTakes(l, j) { CoreClaimsWithTaker(l, q, j); }
    if CoreTakes(l, k) { CoreClaimsWithTaker(l, q, k); }
    hide CoreTakes, CoreClaimed;
    if |a| <= |b| {
      assert a == q.path[..|a|] == b[..|a|];
    } else {
      assert b == q.path[..|b|] == a[..|b|];
    }
  }

  lemma NoRivalsOneWinner(l: Layout, q: Request)
    requires l.Complete() && '\n' !in q.path && forall j, k :: !Rivals(l, j, k)
    ensures OneWinnerAtMost(l, q)
  {
    hide WorkerCall, Routers, Winners, CORE_PREFIXES, RouterOf, Rivals, Claims;
    if WorkerCall(l, q) {
      DenyWins(l, q);
    } else if CoreClaimed(l, q) {
      var c :| c in CORE_PREFIXES && c <= q.path;
      var i: nat :| i < |CORE_PREFIXES| && CORE_PREFIXES[i] == c;
      CoreWins(l, q, i);
    } else if k :| IsService(l, k) && Claims(l, q, k) {
      forall r | r in Winners(Routers(l), q) ensures r == RouterOf(l, k) {
        ServicesWin(l, q, k, r);
        var j :| ServiceClaims(l, q, r, j);
        if j != k { ClaimantsAreRivals(l, q, j, k); }
      }
    } else {
      WebWins(l, q);
    }
  }

  lemma SlashIsNoCorePrefix(c: string)
    requires c in CORE_PREFIXES
    ensures |c| > 1
  {}

  lemma BothWin(l: Layout, q: Request, j: UrlKey, k: UrlKey)
    requires l.Complete() && '\n' !in q.path && !WorkerCall(l, q) && !CoreClaimed(l, q) && j != k
    requires IsService(l, j) && Claims(l, q, j) && IsService(l, k) && Claims(l, q, k)
    ensures {RouterOf(l, j), RouterOf(l, k)} <= Winners(Routers(l), q) && RouterOf(l, j) != RouterOf(l, k)
  {
    RouterOfMatches(l, q, j);
    RouterOfMatches(l, q, k);
    hide Winners, Routers, RouterOf, CORE_PREFIXES, WorkerCall, CoreClaimed;
    ServicesWin(l, q, j, RouterOf(l, j));
    ServicesWin(l, q, j, RouterOf(l, k));
    assert ServiceClaims(l, q, RouterOf(l, j), j) && ServiceClaims(l, q, RouterOf(l, k), k);
  }

  lemma RivalsTie(l: Layout, j: UrlKey, k: UrlKey)
    requires l.Complete() && Rivals(l, j, k) && WellFormed(l.urls[k])
    ensures var q := OwnRequest(l, k);
      && '\n' !in q.path
      && {RouterOf(l, j), RouterOf(l, k)} <= Winners(Routers(l), q) && RouterOf(l, j) != RouterOf(l, k)
  {
    WellFormedPathIsPlain(l.urls[k]);
    var q := OwnRequest(l, k);
    hide Winners, Routers, RouterOf, CORE_PREFIXES, WellFormed, DenyPattern.ExpressWorker;
    assert Claims(l, q, j) && Claims(l, q, k);
    if c :| OnWebHost(l, q) && c in CORE_PREFIXES && c <= q.path {
      SlashIsNoCorePrefix(c);
      assert false;
    }
    BothWin(l, q, j, k);
  }

  lemma RivalsAreServices(l: Layout, j: UrlKey, k: UrlKey)
    requires l.Complete() && Rivals(l, j, k)
    ensures IsService(l, j) && IsService(l, k)
  {}

  lemma UniqueIffNoRivals(l: Layout)
    requires l.Complete() && forall k :: k in l.urls ==> WellFormed(l.urls[k])
    ensures (forall q: Request :: '\n' !in q.path ==> OneWinnerAtMost(l, q)) <==> forall j, k :: !Rivals(l, j, k)
  {
    hide Rivals, Winners, Routers, WellFormed;
    if forall j, k :: !Rivals(l, j, k) {
      forall q: Request | '\n' !in q.path ensures OneWinnerAtMost(l, q) { NoRivalsOneWinner(l, q); }
    } else {
      var j, k :| Rivals(l, j, k);
      RivalsAreServices(l, j, k);
      RivalsTie(l, j, k);
      var q := OwnRequest(l, k);
      assert RouterOf(l, j) in Winners(Routers(l), q) && RouterOf(l, k) in Winners(Routers(l), q);
    }
  }

  lemma RivalsApart(l: Layout, j: UrlKey, k: UrlKey)
    requires Validated(l) && Separated(l) && Rivals(l, j, k)
    ensures Straddling(l, j, k)
  {
    if Within(l.urls[k].path, l.urls[j].path) {
      var q := Request(EntryOf(l, k), l.urls[k].host, Other, l.urls[k].path);
      hide Validated, CoreTakes;
      assert Owns(l, q, j) && Owns(l, q, k);
      OwnersUnique(l, q, j, k);
    }
  }

  lemma PathlessIsRival(l: Layout, j: UrlKey, k: UrlKey)
    requires Validated(l) && IsService(l, j) && IsService(l, k) && j != k && SameHost(l, j, k)
    ensures l.urls[j].path == "" ==> Rivals(l, j, k)
  {
    hide Reserved, Origin, CORE_PREFIXES, Overlaps;
    if l.urls[j].path == "" && CoreTakes(l, k) {
      SameOriginIffTripleEqual(l.urls[j], l.urls[Web]);
      assert false;
    }
  }

  /** In a validated layout the winner of every request is unique exactly when no service without a path shares its host
      with another, and no service's path continues another's in the middle of a segment on one host, unless a core
      prefix claims the longer one. */
  lemma WinnersUniqueIff(l: Layout)
    requires Validated(l)
    ensures (forall q: Request :: '\n' !in q.path ==> OneWinnerAtMost(l, q))
      <==> Separated(l) && forall j, k :: !Straddling(l, j, k)
  {
    UniqueIffNoRivals(l);
    hide Validated, CoreTakes, OneWinnerAtMost;
    if Separated(l) && forall j, k :: !Straddling(l, j, k) {
      forall j, k ensures !Rivals(l, j, k) {
        if Rivals(l, j, k) { RivalsApart(l, j, k); }
      }
    }
    if forall j, k :: !Rivals(l, j, k) {
      forall j, k | IsService(l, j) && IsService(l, k) && j != k && SameHost(l, j, k) ensures l.urls[j].path != "" {
        PathlessIsRival(l, j, k);
      }
      forall j, k ensures !Straddling(l, j, k) {
        assert !Rivals(l, j, k);
      }
    }
  }
}
