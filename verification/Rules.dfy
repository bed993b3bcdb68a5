/** The consistency rules `check` applies to an operator's URLs, overlays and ports, and the whole list of problems
    (neops_compose/rules.py). Every loop is proved to report exactly the problems of a predicate. */
module Rules {
  import opened EnvValues
  import opened Scenarios
  import opened Urls
  import opened PublicUrls
  import Settings

  const CORE_PREFIXES := [
    "/graphql", "/graphiql", "/admin", "/djstatic", "/.well-known", "/accounts",
    "/auth/oidc-login", "/auth/oidc-complete", "/auth/oidc-logout", "/webhook"]

  const WEB_RESERVED_PATHS := ["/auth", "/login", "/monitor"]

  /** The URLs that may carry a path prefix. */
  const PREFIXED_URLS := [Engine, Workflows, Keycloak, Grafana]

  datatype Problem =
    | NotBaseFirst | MissingFile(file: string) | UnknownFile(file: string)
    | NoProxy | BothProxies | BothTls | NeedsTraefik(overlay: Overlay) | NeedsOidc | NeedsGrafana
    | UrlRequired(key: UrlKey) | UrlBad(key: UrlKey) | AcmeHttpPort | TrustedNeedsTraefik | BadPorts
    | CmsPath | CmsNeedsSharedHost | SharedHostNeedsWebOrigin
    | ReservedPath(key: UrlKey) | NeedsPrefix(key: UrlKey) | Overlap(a: UrlKey, b: UrlKey)
    | PathNeedsSharedHost(key: UrlKey)
    | WrongScheme(key: UrlKey) | WrongPort(key: UrlKey)
    | MonitorPortIsPublic | MonitorPortMismatch | MonitorPortUnused | MonitorBehindProxy
    | Setting(issue: Settings.Issue)

  /** What the rules read beside the .env: the files of the checkout, and how addresses are written. */
  datatype Host = Host(files: set<string>, net: Settings.Addresses)

  /** Containment by path segment. */
  predicate Under(path: string, prefix: string) { path == prefix || prefix + "/" <= path }

  predicate Reserved(path: string) { exists r :: r in CORE_PREFIXES + WEB_RESERVED_PATHS && Under(path, r) }

  // ----- overlays -----

  const NEED_TRAEFIK := [TlsFiles, TlsAcme, SharedHost]

  predicate OverlayProblem(p: Problem, s: Scenario, files: seq<string>, disk: set<string>)
  {
    match p
    case NotBaseFirst => s.files == [] || s.files[0] != BASE_FILE
    case MissingFile(f) => f in files && f !in disk
    case UnknownFile(f) => f in files && f in disk && !s.Known(f)
    case NoProxy => !s.Has(TraefikProxy) && !s.Has(Expose)
    case BothProxies => s.Has(Expose) && s.Has(TraefikProxy)
    case BothTls => s.Has(TlsFiles) && s.Has(TlsAcme)
    case NeedsTraefik(o) => o in NEED_TRAEFIK && s.Has(o) && !s.Has(TraefikProxy)
    case NeedsOidc => s.Has(KeycloakIdp) && !s.Has(Oidc)
    case NeedsGrafana => s.Has(Logs) && !s.Has(GrafanaUi)
    case _ => false
  }

  method FileProblems(s: Scenario, disk: set<string>) returns (out: seq<Problem>)
    ensures forall p :: p in out <==> (p.MissingFile? || p.UnknownFile?) && OverlayProblem(p, s, s.files, disk)
  {
    out := [];
    for i := 0 to |s.files|
      invariant forall p :: p in out <==> p.MissingFile? && OverlayProblem(p, s, s.files[..i], disk)
    {
      assert s.files[..i + 1] == s.files[..i] + [s.files[i]];
      if s.files[i] !in disk { out := out + [MissingFile(s.files[i])]; }
    }
    assert s.files[..|s.files|] == s.files;
    for i := 0 to |s.files|
      invariant forall p :: p in out <==>
        (p.MissingFile? && OverlayProblem(p, s, s.files, disk))
          || (p.UnknownFile? && OverlayProblem(p, s, s.files[..i], disk))
    {
      assert s.files[..i + 1] == s.files[..i] + [s.files[i]];
      if !s.Known(s.files[i]) && s.files[i] in disk { out := out + [UnknownFile(s.files[i])]; }
    }
  }

  method DependentProblems(s: Scenario, disk: set<string>) returns (out: seq<Problem>)
    ensures forall p :: p in out <==> p.NeedsTraefik? && OverlayProblem(p, s, s.files, disk)
  {
    hide Scenario.Has;
    out := [];
    for i := 0 to |NEED_TRAEFIK|
      invariant forall p :: p in out <==>
        p.NeedsTraefik? && p.overlay in NEED_TRAEFIK[..i] && s.Has(p.overlay) && !s.Has(TraefikProxy)
    {
      assert NEED_TRAEFIK[..i + 1] == NEED_TRAEFIK[..i] + [NEED_TRAEFIK[i]];
      if s.Has(NEED_TRAEFIK[i]) && !s.Has(TraefikProxy) { out := out + [NeedsTraefik(NEED_TRAEFIK[i])]; }
    }
  }

  /** At most one problem of a kind. */
  function When(c: bool, p: Problem): (r: seq<Problem>)
    ensures forall q :: q in r <==> c && q == p
  {
    if c then [p] else []
  }

  method ScenarioProblems(s: Scenario, disk: set<string>) returns (out: seq<Problem>)
    ensures forall p :: p in out <==>
      !p.MissingFile? && !p.UnknownFile? && !p.NeedsTraefik? && OverlayProblem(p, s, s.files, disk)
  {
    hide Scenario.Has, When;
    var proxies :=
      When(!s.Has(TraefikProxy) && !s.Has(Expose), NoProxy)
      + When(s.Has(Expose) && s.Has(TraefikProxy), BothProxies);
    var pairs :=
      When(s.Has(KeycloakIdp) && !s.Has(Oidc), NeedsOidc)
      + When(s.Has(Logs) && !s.Has(GrafanaUi), NeedsGrafana);
    var others :=
      When(s.files == [] || s.files[0] != BASE_FILE, NotBaseFirst)
      + When(s.Has(TlsFiles) && s.Has(TlsAcme), BothTls);
    out := proxies + pairs + others;
  }

  method OverlayProblems(s: Scenario, disk: set<string>) returns (out: seq<Problem>)
    ensures forall p :: p in out <==> OverlayProblem(p, s, s.files, disk)
  {
    hide OverlayProblem;
    var files := FileProblems(s, disk);
    var dependents := DependentProblems(s, disk);
    var singles := ScenarioProblems(s, disk);
    out := files + dependents + singles;
  }

  // ----- URLs one by one -----

  predicate ParseProblem(p: Problem, env: Vals, keys: seq<UrlKey>)
  {
    match p
    case UrlRequired(k) => k in keys && !IsSet(env, EnvKey(k))
    case UrlBad(k) => k in keys && IsSet(env, EnvKey(k)) && !Parses(env, k)
    case _ => false
  }

  method ParseUrls(env: Vals, keys: seq<UrlKey>) returns (urls: UrlMap, out: seq<Problem>)
    ensures forall p :: p in out <==> ParseProblem(p, env, keys)
    ensures forall k :: k in urls <==> k in keys && Parses(env, k)
    ensures forall k :: k in urls ==> Parses(env, k) && urls[k] == Parse(env[EnvKey(k)]).value
  {
    hide Parse;
    urls, out := map[], [];
    for i := 0 to |keys|
      invariant forall p :: p in out <==> ParseProblem(p, env, keys[..i])
      invariant forall k :: k in urls <==> k in keys[..i] && Parses(env, k)
      invariant forall k :: k in urls ==> Parses(env, k) && urls[k] == Parse(env[EnvKey(k)]).value
    {
      var k := keys[i];
      assert keys[..i + 1] == keys[..i] + [k];
      if !IsSet(env, EnvKey(k)) {
        out := out + [UrlRequired(k)];
      } else {
        match Parse(env[EnvKey(k)])
        case Success(u) => urls := urls[k := u];
        case Failure(_) => out := out + [UrlBad(k)];
      }
    }
    assert keys[..|keys|] == keys;
  }

  // ----- URLs against each other -----

  predicate CmsProblem(p: Problem, urls: UrlMap, s: Scenario)
    requires HasBase(urls)
  {
    var web, cms := urls[Web], urls[Cms];
    match p
    case CmsPath => cms.path != ""
    case CmsNeedsSharedHost =>
      cms.path == "" && SameOrigin(cms, web) && !s.Has(SharedHost) && s.Has(TraefikProxy)
    case SharedHostNeedsWebOrigin => cms.path == "" && !SameOrigin(cms, web) && s.Has(SharedHost)
    case _ => false
  }

  method CmsRules(urls: UrlMap, s: Scenario) returns (out: seq<Problem>)
    requires HasBase(urls)
    ensures forall p :: p in out <==> CmsProblem(p, urls, s)
  {
    var web, cms := urls[Web], urls[Cms];
    if cms.path != "" { return [CmsPath]; }
    out := [];
    if SameOrigin(cms, web) && !s.Has(SharedHost) && s.Has(TraefikProxy) { out := out + [CmsNeedsSharedHost]; }
    if !SameOrigin(cms, web) && s.Has(SharedHost) { out := out + [SharedHostNeedsWebOrigin]; }
  }

  predicate Prefixed(urls: UrlMap, k: UrlKey) { k in urls && urls[k].path != "" }

  predicate Overlaps(urls: UrlMap, a: UrlKey, b: UrlKey)
  {
    && Prefixed(urls, a) && Prefixed(urls, b) && SameOrigin(urls[a], urls[b])
    && (Under(urls[a].path, urls[b].path) || Under(urls[b].path, urls[a].path))
  }

  /** The position in PREFIXED_URLS. */
  function Rank(k: UrlKey): (i: nat)
    ensures i < |PREFIXED_URLS| <==> k in PREFIXED_URLS
    ensures i < |PREFIXED_URLS| ==> PREFIXED_URLS[i] == k
  {
    match k
    case Engine => 0
    case Workflows => 1
    case Keycloak => 2
    case Grafana => 3
    case _ => 4
  }

  /** `a` stands before `b` among the prefixed URLs: at index below `i`, or at `i` with `b` below `j`. */
  predicate PairBefore(a: UrlKey, b: UrlKey, i: int, j: int)
  {
    Rank(a) < Rank(b) < |PREFIXED_URLS| && (Rank(a) < i || (Rank(a) == i && Rank(b) < j))
  }

  method PrefixCollisions(urls: UrlMap) returns (out: seq<Problem>)
    ensures forall p :: p in out <==> p.Overlap? && PairBefore(p.a, p.b, |PREFIXED_URLS|, 0) && Overlaps(urls, p.a, p.b)
  {
    out := [];
    var n := |PREFIXED_URLS|;
    for i := 0 to n
      invariant forall p :: p in out <==> p.Overlap? && PairBefore(p.a, p.b, i, i + 1) && Overlaps(urls, p.a, p.b)
    {
      for j := i + 1 to n
        invariant forall p :: p in out <==> p.Overlap? && PairBefore(p.a, p.b, i, j) && Overlaps(urls, p.a, p.b)
      {
        var a, b := PREFIXED_URLS[i], PREFIXED_URLS[j];
        assert Rank(a) == i && Rank(b) == j;
        if Overlaps(urls, a, b) { out := out + [Overlap(a, b)]; }
      }
    }
  }

  predicate PathProblem(p: Problem, urls: UrlMap, s: Scenario, prefixed: seq<UrlKey>, all: seq<UrlKey>)
    requires HasBase(urls)
  {
    match p
    case ReservedPath(k) => k in prefixed && Prefixed(urls, k) && Reserved(urls[k].path)
    case NeedsPrefix(k) => k in prefixed && k in urls && SameOrigin(urls[k], urls[Web]) && urls[k].path == ""
    case PathNeedsSharedHost(k) =>
      k in all && Prefixed(urls, k) && k != Cms && s.Has(TraefikProxy) && !s.Has(SharedHost)
    case _ => false
  }

  method PrefixRules(urls: UrlMap, s: Scenario) returns (out: seq<Problem>)
    requires HasBase(urls)
    ensures forall p :: p in out <==> PathProblem(p, urls, s, PREFIXED_URLS, [])
  {
    hide Scenario.Has;
    out := [];
    for i := 0 to |PREFIXED_URLS|
      invariant forall p :: p in out <==> PathProblem(p, urls, s, PREFIXED_URLS[..i], [])
    {
      var k := PREFIXED_URLS[i];
      assert PREFIXED_URLS[..i + 1] == PREFIXED_URLS[..i] + [k];
      if k in urls {
        if urls[k].path != "" && Reserved(urls[k].path) { out := out + [ReservedPath(k)]; }
        if SameOrigin(urls[k], urls[Web]) && urls[k].path == "" { out := out + [NeedsPrefix(k)]; }
      }
    }
    assert PREFIXED_URLS[..|PREFIXED_URLS|] == PREFIXED_URLS;
  }

  method HostnamePathRules(urls: UrlMap, keys: seq<UrlKey>, s: Scenario) returns (out: seq<Problem>)
    requires HasBase(urls) && forall k :: k in urls <==> k in keys
    ensures forall p :: p in out <==> PathProblem(p, urls, s, [], keys)
  {
    hide Scenario.Has;
    out := [];
    if s.Has(TraefikProxy) && !s.Has(SharedHost) {
      for i := 0 to |keys|
        invariant forall p :: p in out <==> PathProblem(p, urls, s, [], keys[..i])
      {
        assert keys[..i + 1] == keys[..i] + [keys[i]];
        if keys[i] != Cms && urls[keys[i]].path != "" { out := out + [PathNeedsSharedHost(keys[i])]; }
      }
      assert keys[..|keys|] == keys;
    }
  }

  method PathRules(urls: UrlMap, keys: seq<UrlKey>, s: Scenario) returns (out: seq<Problem>)
    requires HasBase(urls) && forall k :: k in urls <==> k in keys
    ensures forall p :: p in out <==>
      PathProblem(p, urls, s, PREFIXED_URLS, keys)
      || (p.Overlap? && PairBefore(p.a, p.b, |PREFIXED_URLS|, 0) && Overlaps(urls, p.a, p.b))
  {
    var prefixes := PrefixRules(urls, s);
    var collisions := PrefixCollisions(urls);
    var paths := HostnamePathRules(urls, keys, s);
    out := prefixes + collisions + paths;
  }

  predicate TraefikProblem(p: Problem, urls: UrlMap, s: Scenario, ports: Ports, schemes: seq<UrlKey>,
      hosts: seq<UrlKey>)
    requires HasBase(urls)
  {
    s.Has(TraefikProxy) &&
    match p
    case WrongScheme(k) => k in schemes && k in urls && urls[k].scheme != ExpectedScheme(s)
    case WrongPort(k) =>
      k in hosts && k in urls && !(k == Workflows && MonitorEntrypointWanted(urls, s))
        && urls[k].port != ports.Public(s)
    case _ => false
  }

  function ExpectedScheme(s: Scenario): Scheme { if s.Tls() then Https else Http }

  predicate MonitorPortProblem(p: Problem, urls: UrlMap, s: Scenario, ports: Ports)
    requires HasBase(urls)
  {
    var webPort := MonitorPlacement(urls) == WebPort;
    match p
    case MonitorPortIsPublic => webPort && ports.monitor == ports.Public(s)
    case MonitorPortMismatch => webPort && ports.monitor != ports.Public(s) && urls[Workflows].port != ports.monitor
    case MonitorPortUnused => !webPort && ports.monitorDeclared
    case _ => false
  }

  method MonitorPortRules(urls: UrlMap, s: Scenario, ports: Ports) returns (out: seq<Problem>)
    requires HasBase(urls)
    ensures forall p :: p in out <==> MonitorPortProblem(p, urls, s, ports)
  {
    if MonitorPlacement(urls) == WebPort {
      if ports.monitor == ports.Public(s) { return [MonitorPortIsPublic]; }
      if urls[Workflows].port != ports.monitor { return [MonitorPortMismatch]; }
    } else if ports.monitorDeclared {
      return [MonitorPortUnused];
    }
    return [];
  }

  method TraefikRules(urls: UrlMap, keys: seq<UrlKey>, s: Scenario, ports: Ports) returns (out: seq<Problem>)
    requires HasBase(urls) && forall k :: k in urls <==> k in keys
    ensures forall p :: p in out <==>
      TraefikProblem(p, urls, s, ports, keys, keys)
      || (s.Has(TraefikProxy) && s.Has(SharedHost) && MonitorPortProblem(p, urls, s, ports))
  {
    hide Scenario.Has;
    out := [];
    if !s.Has(TraefikProxy) { return; }
    for i := 0 to |keys|
      invariant forall p :: p in out <==> TraefikProblem(p, urls, s, ports, keys[..i], [])
    {
      assert keys[..i + 1] == keys[..i] + [keys[i]];
      if urls[keys[i]].scheme != ExpectedScheme(s) { out := out + [WrongScheme(keys[i])]; }
    }
    assert keys[..|keys|] == keys;
    for i := 0 to |keys|
      invariant forall p :: p in out <==> TraefikProblem(p, urls, s, ports, keys, keys[..i])
    {
      assert keys[..i + 1] == keys[..i] + [keys[i]];
      if !(keys[i] == Workflows && MonitorEntrypointWanted(urls, s)) && urls[keys[i]].port != ports.Public(s) {
        out := out + [WrongPort(keys[i])];
      }
    }
    if s.Has(SharedHost) {
      var monitor := MonitorPortRules(urls, s, ports);
      out := out + monitor;
    }
  }

  predicate UpstreamProblem(p: Problem, urls: UrlMap, s: Scenario, ports: Ports, keys: seq<UrlKey>)
    requires HasBase(urls)
  {
    match p
    case WrongScheme(k) => k in keys && k in urls && urls[k].scheme != urls[Web].scheme
    case MonitorBehindProxy => MonitorEntrypointWanted(urls, s)
    case MonitorPortUnused => !MonitorEntrypointWanted(urls, s) && ports.monitorDeclared
    case _ => false
  }

  method UpstreamProxyRules(urls: UrlMap, keys: seq<UrlKey>, s: Scenario, ports: Ports) returns (out: seq<Problem>)
    requires HasBase(urls) && forall k :: k in urls <==> k in keys
    ensures forall p :: p in out <==> UpstreamProblem(p, urls, s, ports, keys)
  {
    hide Scenario.Has;
    out := [];
    for i := 0 to |keys|
      invariant forall p :: p in out <==> p.WrongScheme? && UpstreamProblem(p, urls, s, ports, keys[..i])
    {
      assert keys[..i + 1] == keys[..i] + [keys[i]];
      if urls[keys[i]].scheme != urls[Web].scheme { out := out + [WrongScheme(keys[i])]; }
    }
    assert keys[..|keys|] == keys;
    if MonitorEntrypointWanted(urls, s) {
      out := out + [MonitorBehindProxy];
    } else if ports.monitorDeclared {
      out := out + [MonitorPortUnused];
    }
  }

  // ----- all of them -----

  /** Without a TLS overlay, trusted proxies mean that TLS ends upstream. */
  predicate TlsTerminatedUpstream(env: Vals, s: Scenario) { TrustedProxies(env) != [] && !s.Tls() }

  predicate UrlProblem(p: Problem, urls: UrlMap, keys: seq<UrlKey>, s: Scenario, ports: Ports, upstream: bool)
    requires HasBase(urls)
  {
    || CmsProblem(p, urls, s)
    || PathProblem(p, urls, s, PREFIXED_URLS, keys)
    || (p.Overlap? && PairBefore(p.a, p.b, |PREFIXED_URLS|, 0) && Overlaps(urls, p.a, p.b))
    || (upstream && UpstreamProblem(p, urls, s, ports, keys))
    || (!upstream && TraefikProblem(p, urls, s, ports, keys, keys))
    || (!upstream && s.Has(TraefikProxy) && s.Has(SharedHost) && MonitorPortProblem(p, urls, s, ports))
  }

  method UrlRules(urls: UrlMap, keys: seq<UrlKey>, s: Scenario, ports: Ports, upstream: bool)
      returns (out: seq<Problem>)
    requires HasBase(urls) && forall k :: k in urls <==> k in keys
    ensures forall p :: p in out <==> UrlProblem(p, urls, keys, s, ports, upstream)
  {
    var cms := CmsRules(urls, s);
    var paths := PathRules(urls, keys, s);
    var rest;
    if upstream {
      rest := UpstreamProxyRules(urls, keys, s, ports);
    } else {
      rest := TraefikRules(urls, keys, s, ports);
    }
    out := cms + paths + rest;
  }

  /** The problems of the .env as a whole; URL rules apply once the base URLs parse and ports are numbers. */
  predicate Reported(p: Problem, env: Vals, s: Scenario, host: Host)
  {
    var keys := WantedKeys(env, s);
    var parsed := ParsedUrls(env, s);
    || OverlayProblem(p, s, s.files, host.files)
    || (p.Setting? && Settings.Faulty(p.issue, env, s, host.net))
    || ParseProblem(p, env, keys)
    || (p == AcmeHttpPort && s.Has(TlsAcme) && !s.Has(TlsFiles) && Get(env, "NEOPS_HTTP_PORT", "80") != "80")
    || (p == TrustedNeedsTraefik && TrustedProxies(env) != [] && !s.Has(TraefikProxy))
    || (p == BadPorts && HasBase(parsed) && ReadPorts(env).None?)
    || (HasBase(parsed) && ReadPorts(env).Some?
        && UrlProblem(p, parsed, ParsedKeys(env, s), s, ReadPorts(env).value, TlsTerminatedUpstream(env, s)))
  }

  function ParsedKeys(env: Vals, s: Scenario): seq<UrlKey> { OnlyParsed(env, WantedKeys(env, s)) }

  function OnlyParsed(env: Vals, keys: seq<UrlKey>): (r: seq<UrlKey>)
    ensures forall k :: k in r <==> k in keys && Parses(env, k)
  {
    if keys == [] then []
    else (if Parses(env, keys[0]) then [keys[0]] else []) + OnlyParsed(env, keys[1..])
  }

  /** `check` finds nothing to complain about. */
  ghost predicate Accepted(env: Vals, s: Scenario, host: Host) { forall p :: !Reported(p, env, s, host) }

  method SettingProblems(env: Vals, s: Scenario, host: Host) returns (out: seq<Problem>)
    ensures forall p :: p in out <==> p.Setting? && Settings.Faulty(p.issue, env, s, host.net)
  {
    hide Settings.Faulty;
    var issues := Settings.Issues(env, s, host.net);
    out := seq(|issues|, i requires 0 <= i < |issues| => Setting(issues[i]));
    forall p ensures p in out <==> p.Setting? && p.issue in issues {
      if p.Setting? && p.issue in issues {
        var i :| 0 <= i < |issues| && issues[i] == p.issue;
        assert out[i] == p;
      }
    }
  }

  method UnconditionalProblems(env: Vals, s: Scenario, host: Host) returns (out: seq<Problem>)
    ensures forall p :: p in out <==>
      OverlayProblem(p, s, s.files, host.files) || (p.Setting? && Settings.Faulty(p.issue, env, s, host.net))
  {
    hide OverlayProblem, Settings.Faulty;
    var overlays := OverlayProblems(s, host.files);
    var settings := SettingProblems(env, s, host);
    out := overlays + settings;
  }

  method Problems(env: Vals, s: Scenario, host: Host) returns (out: seq<Problem>)
    ensures forall p :: p in out <==> Reported(p, env, s, host)
    ensures out == [] <==> Accepted(env, s, host)
  {
    hide Parse, OverlayProblem, ParseProblem, UrlProblem, TrustedProxies, ReadPorts, WantedKeys, Settings.Faulty;
    out := UnconditionalProblems(env, s, host);
    var keys := WantedKeys(env, s);
    var urls, unparsed := ParseUrls(env, keys);
    out := out + unparsed;
    if s.Has(TlsAcme) && !s.Has(TlsFiles) && Get(env, "NEOPS_HTTP_PORT", "80") != "80" { out := out + [AcmeHttpPort]; }
    if TrustedProxies(env) != [] && !s.Has(TraefikProxy) { out := out + [TrustedNeedsTraefik]; }
    assert urls == ParsedUrls(env, s);
    if HasBase(urls) {
      match ReadPorts(env)
      case None => out := out + [BadPorts];
      case Some(ports) =>
        var rest := UrlRules(urls, ParsedKeys(env, s), s, ports, TlsTerminatedUpstream(env, s));
        out := out + rest;
    }
    NothingReportedIff(out, env, s, host);
  }

  lemma NothingReportedIff(out: seq<Problem>, env: Vals, s: Scenario, host: Host)
    requires forall p :: p in out <==> Reported(p, env, s, host)
    ensures out == [] <==> Accepted(env, s, host)
  {
    hide Reported;
    if out != [] { assert out[0] in out; }
  }
}
