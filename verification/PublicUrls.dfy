/** The browser-facing URLs of a scenario and the host ports behind them
    (neops_compose/urls.py, ports.py and preflight.py). */
module PublicUrls {
  import opened Wrappers
  import opened Text
  import opened EnvValues
  import opened Scenarios
  import opened Urls

  datatype UrlKey = Web | Cms | Engine | Workflows | Keycloak | Grafana

  function EnvKey(k: UrlKey): string
  {
    match k
    case Web => "NEOPS_WEB_URL"
    case Cms => "NEOPS_CMS_URL"
    case Engine => "NEOPS_ENGINE_URL"
    case Workflows => "NEOPS_WORKFLOWS_URL"
    case Keycloak => "NEOPS_KEYCLOAK_URL"
    case Grafana => "NEOPS_GRAFANA_URL"
  }

  const BASE_URLS := [Web, Cms, Engine, Workflows]

  type UrlMap = map<UrlKey, PublicUrl>

  predicate HasBase(urls: UrlMap) { Web in urls && Cms in urls && Engine in urls && Workflows in urls }

  /** The URLs the scenario has, base first, in the order the source visits them. */
  function WantedKeys(env: Vals, scenario: Scenario): (keys: seq<UrlKey>)
    ensures forall k :: k in keys <==>
      k in BASE_URLS || (k == Keycloak && scenario.Has(KeycloakIdp))
      || (k == Grafana && scenario.RunsGrafana() && IsSet(env, EnvKey(Grafana)))
  {
    BASE_URLS
    + (if scenario.Has(KeycloakIdp) then [Keycloak] else [])
    + (if scenario.RunsGrafana() && IsSet(env, EnvKey(Grafana)) then [Grafana] else [])
  }

  predicate Parses(env: Vals, k: UrlKey) { IsSet(env, EnvKey(k)) && Parse(env[EnvKey(k)]).Success? }

  /** The URLs among the wanted ones that are set and parse. */
  function ParsedUrls(env: Vals, scenario: Scenario): (urls: UrlMap)
    ensures forall k :: k in urls <==> k in WantedKeys(env, scenario) && Parses(env, k)
    ensures forall k :: k in urls ==> WellFormed(urls[k])
  {
    map k | k in WantedKeys(env, scenario) && Parses(env, k) :: Parse(env[EnvKey(k)]).value
  }

  /** public_urls: None stands for the MissingEnv or BadUrl it raises. */
  function PublicUrlsOf(env: Vals, scenario: Scenario): (r: Option<UrlMap>)
    ensures r.Some? ==> HasBase(r.value) && forall k :: k in r.value ==> WellFormed(r.value[k])
  {
    var keys := WantedKeys(env, scenario);
    if forall k :: k in keys ==> Parses(env, k) then
      assert Web in BASE_URLS && Cms in BASE_URLS && Engine in BASE_URLS && Workflows in BASE_URLS;
      Some(ParsedUrls(env, scenario))
    else None
  }

  // ----- where the monitor lives -----

  datatype Placement = WebPath | WebPort | OwnHost

  function MonitorPlacement(urls: UrlMap): Placement
    requires HasBase(urls)
  {
    if SameOrigin(urls[Workflows], urls[Web]) then WebPath
    else if urls[Workflows].host == urls[Web].host then WebPort
    else OwnHost
  }

  predicate MonitorEntrypointWanted(urls: UrlMap, scenario: Scenario)
    requires HasBase(urls)
  {
    scenario.Has(SharedHost) && MonitorPlacement(urls) == WebPort
  }

  // ----- ports -----

  datatype Ports = Ports(http: int, https: int, monitor: int, monitorDeclared: bool)
  {
    /** The one port every URL uses behind Traefik. */
    function Public(scenario: Scenario): int { if scenario.Tls() then https else http }
  }

  /** None is the BadPorts of a port that is no integer. */
  function ReadPorts(env: Vals): Option<Ports>
  {
    var http, https, monitor :=
      PyInt(Get(env, "NEOPS_HTTP_PORT", "80")),
      PyInt(Get(env, "NEOPS_HTTPS_PORT", "443")),
      PyInt(Get(env, "NEOPS_MONITOR_PORT", "8443"));
    if http.Some? && https.Some? && monitor.Some? then
      Some(Ports(http.value, https.value, monitor.value, IsSet(env, "NEOPS_MONITOR_PORT")))
    else None
  }

  /** _proxy_ports in Traefik mode, with the proxy's ports readable. */
  function ProxyPorts(env: Vals, scenario: Scenario, ports: Ports): seq<(string, int)>
    requires scenario.Has(TraefikProxy)
  {
    var bind := Get(env, "NEOPS_PROXY_BIND_ADDRESS", "0.0.0.0");
    var urls := PublicUrlsOf(env, scenario);
    var monitor := if urls.Some? then MonitorEntrypointWanted(urls.value, scenario) else scenario.Has(SharedHost);
    [(bind, ports.http)]
    + (if scenario.Tls() then [(bind, ports.https)] else [])
    + (if monitor then [(bind, ports.monitor)] else [])
  }

  /** required_ports in Traefik mode: the (address, port) pairs to reserve; None is the ValueError of a port that is no
      integer. Keycloak and Grafana publish theirs beside the proxy. */
  function RequiredPorts(env: Vals, scenario: Scenario, ports: Ports): Option<seq<(string, int)>>
    requires scenario.Has(TraefikProxy)
  {
    var bind := Get(env, "NEOPS_BIND_ADDRESS", "127.0.0.1");
    var keycloak := PyInt(Get(env, "NEOPS_KEYCLOAK_PORT", "8180"));
    var grafana := PyInt(Get(env, "NEOPS_GRAFANA_PORT", "3000"));
    if (scenario.Has(KeycloakIdp) && keycloak.None?) || (scenario.RunsGrafana() && grafana.None?) then None
    else
      Some(ProxyPorts(env, scenario, ports)
        + (if scenario.Has(KeycloakIdp) then [(bind, keycloak.value)] else [])
        + (if scenario.RunsGrafana() then [(bind, grafana.value)] else []))
  }

  /** The upstream proxies named in .env, blank entries dropped. */
  function TrustedProxies(env: Vals): seq<string> { Parts(Get(env, "NEOPS_TRUSTED_PROXY_IPS", ""), ",") }

  /** MONITOR_BASE_PATH as monitor_env renders it; None stands for the exception of a missing or malformed URL. */
  function MonitorBasePath(env: Vals): Option<string>
  {
    if Parses(env, Workflows) then Some(Parse(env[EnvKey(Workflows)]).value.path) else None
  }
}
