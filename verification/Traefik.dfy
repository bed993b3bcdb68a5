/** The Traefik routers rendered from the public URLs, and how Traefik picks among them
    (neops_compose/traefik_model.py). */
module Traefik {
  import opened Wrappers
  import opened Text
  import opened EnvValues
  import opened Scenarios
  import opened Urls
  import opened PublicUrls
  import opened Rules
  import DenyPattern

  datatype EntryPointName = WebEntry | WebSecureEntry | MonitorEntry

  datatype EntryPoint = EntryPoint(name: EntryPointName, containerPort: int, redirectToPort: Option<int>)

  datatype Service = WebService | CmsService | EngineService | MonitorService | KeycloakService | GrafanaService

  datatype Rule =
    | HostRule(host: string, prefix: string)  // Host(h), with PathPrefix(prefix) unless it is ""
    | DenyRule(host: string, prefix: string)  // Host(h) && Method(POST) && PathRegexp(...)

  datatype Middleware = StripPrefix(prefix: string) | DenyWorkerApi | CmsSlash

  datatype Router = Router(
    rule: Rule, entrypoint: EntryPointName, service: Service, priority: int, middlewares: seq<Middleware>, tls: bool)

  datatype Layout = Layout(urls: UrlMap, sharedHost: bool, secure: bool, monitorEntrypoint: bool)
  {
    predicate Complete() { HasBase(urls) }

    function Public(): EntryPointName { if secure then WebSecureEntry else WebEntry }

    function MakeRouter(rule: Rule, entrypoint: EntryPointName, service: Service, priority: int,
      mws: seq<Middleware>): Router
    {
      Router(rule, entrypoint, service, priority, mws, secure)
    }
  }

  const CORE_DIRECTORY_PREFIXES: set<string> := {"/admin", "/accounts"}

  function HostRuleOf(u: PublicUrl): Rule { HostRule(u.host, u.path) }

  /** A service under a path prefix serves from its root: the prefix is stripped on the way in. */
  function Strips(u: PublicUrl): seq<Middleware> { if u.path == "" then [] else [StripPrefix(u.path)] }

  function WebRouter(l: Layout): Router
    requires l.Complete()
  {
    l.MakeRouter(HostRuleOf(l.urls[Web]), l.Public(), WebService, 1, [])
  }

  function CorePrefixRouter(l: Layout, prefix: string): Router
    requires l.Complete()
  {
    l.MakeRouter(HostRule(l.urls[Web].host, prefix), l.Public(), CmsService, 100, [CmsSlash])
  }

  function CmsHostRouter(l: Layout): Router
    requires l.Complete()
  {
    l.MakeRouter(HostRuleOf(l.urls[Cms]), l.Public(), CmsService, 10, [CmsSlash])
  }

  function CmsRouters(l: Layout): seq<Router>
    requires l.Complete()
  {
    if !l.sharedHost then [CmsHostRouter(l)]
    else seq(|CORE_PREFIXES|, i requires 0 <= i < |CORE_PREFIXES| => CorePrefixRouter(l, CORE_PREFIXES[i]))
  }

  function EngineRouter(l: Layout): Router
    requires l.Complete()
  {
    l.MakeRouter(HostRuleOf(l.urls[Engine]), l.Public(), EngineService, 10, Strips(l.urls[Engine]))
  }

  function DenyRouter(l: Layout): Router
    requires l.Complete()
  {
    l.MakeRouter(DenyRule(l.urls[Engine].host, l.urls[Engine].path), l.Public(), EngineService, 1000, [DenyWorkerApi])
  }

  function MonitorRouter(l: Layout): Router
    requires l.Complete()
  {
    var entrypoint := if l.monitorEntrypoint then MonitorEntry else l.Public();
    l.MakeRouter(HostRuleOf(l.urls[Workflows]), entrypoint, MonitorService, 10, Strips(l.urls[Workflows]))
  }

  /** Keycloak and Grafana, routed only when their URL is there. */
  function ServiceRouters(l: Layout): seq<Router>
    requires l.Complete()
  {
    (if Keycloak in l.urls then [l.MakeRouter(HostRuleOf(l.urls[Keycloak]), l.Public(), KeycloakService, 10, [])]
      else [])
    + (if Grafana in l.urls then [l.MakeRouter(HostRuleOf(l.urls[Grafana]), l.Public(), GrafanaService, 10, [])]
      else [])
  }

  function Routers(l: Layout): seq<Router>
    requires l.Complete()
  {
    [WebRouter(l)] + CmsRouters(l) + [EngineRouter(l), DenyRouter(l)] + [MonitorRouter(l)] + ServiceRouters(l)
  }

  function Entrypoints(secure: bool, httpsPort: int, monitor: bool): seq<EntryPoint>
  {
    [EntryPoint(WebEntry, 80, if secure then Some(httpsPort) else None)]
    + (if secure then [EntryPoint(WebSecureEntry, 443, None)] else [])
    + (if monitor then [EntryPoint(MonitorEntry, 8443, None)] else [])
  }

  function LayoutOf(urls: UrlMap, s: Scenario): Layout
    requires HasBase(urls)
  {
    Layout(urls, s.Has(SharedHost), s.Tls(), MonitorEntrypointWanted(urls, s))
  }

  datatype TraefikConfig = TraefikConfig(entrypoints: seq<EntryPoint>, routers: seq<Router>)

  /** build_traefik: None stands for the exception of a missing or malformed URL or port. */
  function BuildTraefik(env: Vals, s: Scenario): Option<TraefikConfig>
  {
    var urls, https := PublicUrlsOf(env, s), PyInt(Get(env, "NEOPS_HTTPS_PORT", "443"));
    if urls.None? || https.None? then None
    else
      var l := LayoutOf(urls.value, s);
      Some(TraefikConfig(Entrypoints(l.secure, https.value, l.monitorEntrypoint), Routers(l)))
  }

  // ----- how Traefik serves a request -----

  datatype Verb = POST | Other

  datatype Request = Request(entrypoint: EntryPointName, host: string, verb: Verb, path: string)

  /** PathPrefix is a plain string prefix in Traefik. */
  ghost predicate RuleMatches(rule: Rule, q: Request)
  {
    q.host == rule.host &&
    match rule
    case HostRule(_, prefix) => prefix <= q.path
    case DenyRule(_, prefix) => q.verb == POST && DenyPattern.Accepts(DenyPattern.Pattern(prefix), q.path)
  }

  ghost predicate Matches(r: Router, q: Request) { r.entrypoint == q.entrypoint && RuleMatches(r.rule, q) }

  /** The matching routers of the highest priority; Traefik's choice is defined when there is at most one. */
  ghost function Winners(routers: seq<Router>, q: Request): set<Router>
  {
    set r | r in routers && Matches(r, q) && forall o :: o in routers && Matches(o, q) ==> o.priority <= r.priority
  }

  datatype Served = Refused | RedirectedTo(path: string) | Delivered(service: Service, path: string)

  function StripPath(prefix: string, path: string): string { if prefix <= path then path[|prefix|..] else path }

  /** What the router's middlewares and service make of the request. */
  function Serve(r: Router, q: Request): Served
  {
    if DenyWorkerApi in r.middlewares then Refused
    else if CmsSlash in r.middlewares && q.path in CORE_DIRECTORY_PREFIXES then RedirectedTo(q.path + "/")
    else if r.middlewares != [] && r.middlewares[0].StripPrefix? then
      Delivered(r.service, StripPath(r.middlewares[0].prefix, q.path))
    else Delivered(r.service, q.path)
  }
}
