/** What the compiled configuration does beside picking a router: TLS, the redirect of plain HTTP, and the path each
    service is handed (neops_compose/traefik_model.py:83-134 and 208-228). */
module Serving {
  import opened Wrappers
  import opened Text
  import opened EnvValues
  import opened Scenarios
  import opened Urls
  import opened PublicUrls
  import opened Rules
  import opened Traefik
  import opened Routing
  import EndToEnd

  lemma RoutersAreSecureAlike(l: Layout, r: Router)
    requires l.Complete() && r in Routers(l)
    ensures r.tls == l.secure && (l.secure ==> r.entrypoint != WebEntry)
    ensures r.entrypoint == if r == MonitorRouter(l) && l.monitorEntrypoint then MonitorEntry else l.Public()
  {
    RouterClasses(l, r);
  }

  /** In an accepted configuration every router ends TLS exactly when the public URLs are https, plain HTTP then has no
      router at all, and its entrypoint redirects to the port every https URL on the public entrypoint carries. */
  lemma PlainHttpRedirects(env: Vals, s: Scenario, host: Host, k: UrlKey)
    requires Accepted(env, s, host) && s.Has(TraefikProxy) && !TlsTerminatedUpstream(env, s)
    requires PublicUrlsOf(env, s).Some? && ReadPorts(env).Some? && BuildTraefik(env, s).Some?
    requires k in PublicUrlsOf(env, s).value
    ensures var u, cfg := PublicUrlsOf(env, s).value[k], BuildTraefik(env, s).value;
      && (forall r :: r in cfg.routers ==> (r.tls <==> u.scheme == Https) && (r.tls ==> r.entrypoint != WebEntry))
      && (forall ep :: ep in cfg.entrypoints && ep.redirectToPort.Some? ==>
           ep.name == WebEntry && u.scheme == Https && ep.redirectToPort.value == ReadPorts(env).value.https)
      && (u.scheme == Https ==> exists ep :: ep in cfg.entrypoints && ep.name == WebEntry && ep.redirectToPort.Some?)
      && (u.scheme == Https && EntryOf(LayoutOf(PublicUrlsOf(env, s).value, s), k) != MonitorEntry ==>
           u.port == ReadPorts(env).value.https)
  {
    hide Parse, TrustedProxies, PyInt, FileOf, WellFormed, Routers, Accepted, Scenario.Has, Origin;
    hide MonitorEntrypointWanted;
    var urls, ports := PublicUrlsOf(env, s).value, ReadPorts(env).value;
    var l := LayoutOf(urls, s);
    SchemeFits(env, s, host);
    forall r | r in Routers(l) ensures r.tls == l.secure && (l.secure ==> r.entrypoint != WebEntry) {
      RoutersAreSecureAlike(l, r);
    }
    HttpsPort(env);
    hide ReadPorts, PublicUrlsOf;
    RedirectOf(l.secure, ports.https, l.monitorEntrypoint);
  }

  lemma RedirectOf(secure: bool, https: int, monitor: bool)
    ensures var eps := Entrypoints(secure, https, monitor);
      && (forall ep :: ep in eps && ep.redirectToPort.Some? ==>
           ep.name == WebEntry && secure && ep.redirectToPort.value == https)
      && (secure ==> exists ep :: ep in eps && ep.name == WebEntry && ep.redirectToPort.Some?)
  {
    assert EntryPoint(WebEntry, 80, if secure then Some(https) else None) in Entrypoints(secure, https, monitor);
  }

  lemma HttpsPort(env: Vals)
    requires ReadPorts(env).Some?
    ensures PyInt(Get(env, "NEOPS_HTTPS_PORT", "443")) == Some(ReadPorts(env).value.https)
  {
    hide PyInt;
  }

  lemma SchemeFits(env: Vals, s: Scenario, host: Host)
    requires Accepted(env, s, host) && s.Has(TraefikProxy) && !TlsTerminatedUpstream(env, s)
    requires PublicUrlsOf(env, s).Some? && ReadPorts(env).Some?
    ensures var urls := PublicUrlsOf(env, s).value;
      && (forall k :: k in urls ==> (urls[k].scheme == Https <==> s.Tls()))
      && EndToEnd.PortsFit(LayoutOf(urls, s), s, ReadPorts(env).value)
  {
    hide Parse, TrustedProxies, PyInt, FileOf, WellFormed, ReadPorts, Reserved, Origin;
    EndToEnd.AcceptedUnpacks(env, s, host);
    EndToEnd.NoProblemMeansFit(ParsedUrls(env, s), ParsedKeys(env, s), s, ReadPorts(env).value);
  }

  // ----- what each service is handed -----

  /** The engine and the monitor are handed the path behind their prefix, Keycloak, Grafana and the web client the
      whole path, and the CMS the whole path but for the bare /admin and /accounts, which are redirected. */
  lemma HandedOver(l: Layout, q: Request, k: UrlKey)
    requires l.Complete() && k in l.urls && Owns(l, q, k)
    ensures var served := Serve(RouterOf(l, k), q);
      match k
      case Cms =>
        if q.path in {"/admin", "/accounts"} then served == RedirectedTo(q.path + "/")
        else served == Delivered(CmsService, q.path)
      case Web => served == Delivered(WebService, q.path)
      case Engine => served.Delivered? && served.service == EngineService && l.urls[k].path + served.path == q.path
      case Workflows => served.Delivered? && served.service == MonitorService && l.urls[k].path + served.path == q.path
      case Keycloak => served == Delivered(KeycloakService, q.path)
      case Grafana => served == Delivered(GrafanaService, q.path)
  {
    if l.urls[k].path != "" {
      UnderIsPrefix(q.path, l.urls[k].path);
      assert q.path == l.urls[k].path + q.path[|l.urls[k].path|..];
    }
  }

  /** So is what stands under a core prefix on the web client's host. */
  lemma CoreHandedOver(l: Layout, q: Request, prefix: string)
    requires l.Complete()
    ensures Serve(CorePrefixRouter(l, prefix), q)
      == if q.path in {"/admin", "/accounts"} then RedirectedTo(q.path + "/") else Delivered(CmsService, q.path)
  {}

  // ----- the ports and lists an operator writes -----

  /** Each port is the one of its own key. */
  lemma PortsAreRead(env: Vals, http: nat, https: nat, monitor: nat)
    requires "NEOPS_HTTP_PORT" in env && env["NEOPS_HTTP_PORT"] == Decimal(http)
    requires "NEOPS_HTTPS_PORT" in env && env["NEOPS_HTTPS_PORT"] == Decimal(https)
    requires "NEOPS_MONITOR_PORT" in env && env["NEOPS_MONITOR_PORT"] == Decimal(monitor)
    ensures ReadPorts(env) == Some(Ports(http, https, monitor, true))
  {
    hide PyInt, Decimal;
    DecimalReads(http);
    DecimalReads(https);
    DecimalReads(monitor);
  }

  lemma DecimalReads(n: nat)
    ensures PyInt(Decimal(n)) == Some(n)
  {
    hide PyInt, Decimal;
    PyIntReads("", "", n, "");
    assert "" + ("" + Decimal(n)) + "" == Decimal(n);
  }

  /** Overlays, separated by the operator's own character or a colon, are read by name, trusted proxies by entry. */
  lemma ListsAreRead(env: Vals, files: seq<Padded>, sep: char, proxies: seq<Padded>)
    requires files != [] && forall p :: p in files ==> p.Valid(sep)
    requires proxies != [] && forall p :: p in proxies ==> p.Valid(',')
    requires IsSet(env, "COMPOSE_FILE") && env["COMPOSE_FILE"] == Join(Texts(files), [sep])
    requires Get(env, "COMPOSE_PATH_SEPARATOR", ":") == [sep]
    requires Get(env, "NEOPS_TRUSTED_PROXY_IPS", "") == Join(Texts(proxies), ",")
    ensures FromEnv(env).files == Names(files) && TrustedProxies(env) == Names(proxies)
  {
    hide Join, Parts, Texts, Names;
    PartsOfPadded(files, sep);
    PartsOfPadded(proxies, ',');
  }
}
