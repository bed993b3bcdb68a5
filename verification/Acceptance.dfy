/** What a configuration must be for `check` to find no problem in it, said of the configuration rather than of the
    problems (neops_compose/rules.py:74-444). */
module Acceptance {
  import opened Wrappers
  import opened Text
  import opened EnvValues
  import opened Scenarios
  import opened Urls
  import opened PublicUrls
  import opened Rules
  import Settings

  // ----- overlays -----

  predicate SoundOverlays(s: Scenario, files: set<string>)
  {
    && s.files != [] && s.files[0] == BASE_FILE
    && (forall f :: f in s.files ==>
      f in files && (f in {BASE_FILE, OVERRIDE_FILE} || exists o: Overlay :: f == FileOf(o)))
    && (s.Has(Expose) <==> !s.Has(TraefikProxy))
    && !(s.Has(TlsFiles) && s.Has(TlsAcme))
    && (s.Has(TlsFiles) || s.Has(TlsAcme) || s.Has(SharedHost) ==> s.Has(TraefikProxy))
    && (s.Has(KeycloakIdp) ==> s.Has(Oidc))
    && (s.Has(Logs) ==> s.Has(GrafanaUi))
  }

  ghost predicate NoOverlayProblem(s: Scenario, files: set<string>)
  {
    forall p :: !OverlayProblem(p, s, s.files, files)
  }

  lemma OverlaysIff(s: Scenario, files: set<string>)
    ensures NoOverlayProblem(s, files) <==> SoundOverlays(s, files)
  {
    if NoOverlayProblem(s, files) { OverlaysAreSound(s, files); }
    if SoundOverlays(s, files) { SoundOverlaysPass(s, files); }
  }

  lemma OverlaysAreSound(s: Scenario, files: set<string>)
    requires NoOverlayProblem(s, files)
    ensures SoundOverlays(s, files)
  {
    FilesAreSound(s, files);
    hide Scenario.Has, FileOf, BASE_FILE, OVERRIDE_FILE;
    assert !OverlayProblem(NotBaseFirst, s, s.files, files) && !OverlayProblem(NoProxy, s, s.files, files);
    assert !OverlayProblem(BothProxies, s, s.files, files) && !OverlayProblem(BothTls, s, s.files, files);
    assert !OverlayProblem(NeedsOidc, s, s.files, files) && !OverlayProblem(NeedsGrafana, s, s.files, files);
    assert TlsFiles in NEED_TRAEFIK && TlsAcme in NEED_TRAEFIK && SharedHost in NEED_TRAEFIK;
    assert !OverlayProblem(NeedsTraefik(TlsFiles), s, s.files, files);
    assert !OverlayProblem(NeedsTraefik(TlsAcme), s, s.files, files);
    assert !OverlayProblem(NeedsTraefik(SharedHost), s, s.files, files);
  }

  lemma FilesAreSound(s: Scenario, files: set<string>)
    requires NoOverlayProblem(s, files)
    ensures forall f :: f in s.files ==>
      f in files && (f in {BASE_FILE, OVERRIDE_FILE} || exists o: Overlay :: f == FileOf(o))
  {
    hide FileOf, BASE_FILE, OVERRIDE_FILE;
    forall f | f in s.files
      ensures f in files && (f in {BASE_FILE, OVERRIDE_FILE} || exists o: Overlay :: f == FileOf(o))
    {
      assert !OverlayProblem(MissingFile(f), s, s.files, files) && !OverlayProblem(UnknownFile(f), s, s.files, files);
    }
  }

  lemma SoundOverlaysPass(s: Scenario, files: set<string>)
    requires SoundOverlays(s, files)
    ensures NoOverlayProblem(s, files)
  {
    hide Scenario.Has, FileOf, BASE_FILE, OVERRIDE_FILE;
    forall p ensures !OverlayProblem(p, s, s.files, files) {}
  }

  // ----- single keys -----

  /** Set, and unless strength checks are off no placeholder and long enough. */
  predicate Strong(env: Vals, key: string, length: nat)
  {
    IsSet(env, key) &&
    (Settings.Flag(env, "NEOPS_DISABLE_SECURITY_CHECKS")
      || (|Strip(env[key])| >= length && Lower(Strip(env[key])) !in Settings.PLACEHOLDERS))
  }

  predicate AllStrong(env: Vals, keys: seq<string>) { forall k :: k in keys ==> Strong(env, k, 16) }

  predicate AllSet(env: Vals, keys: seq<string>) { forall k :: k in keys ==> IsSet(env, k) }

  predicate SoundSecrets(env: Vals, s: Scenario)
  {
    && AllStrong(env, Settings.BASE_SECRETS)
    && (s.Has(KeycloakIdp) ==> AllStrong(env, Settings.KEYCLOAK_SECRETS))
    && (s.Has(GrafanaUi) || s.Has(Metrics) ==> Strong(env, Settings.GRAFANA_ADMIN_PASSWORD, 16))
  }

  predicate SoundTls(env: Vals, s: Scenario)
  {
    && (s.Has(TlsFiles) ==> Settings.Flag(env, "NEOPS_TLS_SELF_SIGNED") || AllSet(env, Settings.TLS_FILES))
    && (s.Has(TlsAcme) && !s.Has(TlsFiles) ==> AllSet(env, Settings.ACME_EMAIL))
  }

  predicate SoundProvider(env: Vals, s: Scenario)
  {
    s.Has(Oidc) && !s.Has(KeycloakIdp) ==>
      AllSet(env, Settings.OIDC_KEYS) && forall k :: k in Settings.OIDC_CLIENT_SECRET ==> Strong(env, k, 0)
  }

  predicate SoundAddresses(env: Vals, s: Scenario, net: Settings.Addresses)
  {
    && (IsSet(env, Settings.PROXY_BIND_ADDRESS) ==> net.address(env[Settings.PROXY_BIND_ADDRESS]))
    && (s.Has(TraefikProxy) ==> forall e :: e in TrustedProxies(env) ==> net.network(e))
  }

  predicate SoundLogs(env: Vals, s: Scenario)
  {
    var backend := Get(env, Settings.LOG_BACKEND, "");
    && backend in {"", "victorialogs", "loki", "db"}
    && (backend in {"victorialogs", "loki"} ==> s.Has(Logs) || IsSet(env, Settings.LOG_URL))
    && (IsSet(env, Settings.LOG_RETENTION) ==> Settings.IsHorizon(env[Settings.LOG_RETENTION]))
  }

  predicate SoundSettings(env: Vals, s: Scenario, net: Settings.Addresses)
  {
    && SoundSecrets(env, s) && SoundTls(env, s) && SoundProvider(env, s)
    && SoundAddresses(env, s, net) && SoundLogs(env, s)
  }

  ghost predicate NoFault(env: Vals, s: Scenario, net: Settings.Addresses)
  {
    forall i :: !Settings.Faulty(i, env, s, net)
  }

  ghost predicate Clean(env: Vals, keys: seq<string>, demand: Settings.Demand)
  {
    forall i :: !Settings.RequiredFault(i, env, keys, demand)
  }

  ghost predicate AddressesClean(env: Vals, s: Scenario, net: Settings.Addresses)
  {
    forall i :: !Settings.AddressFault(i, env, s, net)
  }

  ghost predicate LogsClean(env: Vals, s: Scenario) { forall i :: !Settings.LogFault(i, env, s) }

  lemma RequiredIff(env: Vals, keys: seq<string>, length: nat)
    ensures Clean(env, keys, Settings.Presence) <==> AllSet(env, keys)
    ensures Clean(env, keys, Settings.Secret(length)) <==> forall k :: k in keys ==> Strong(env, k, length)
  {
    hide Strip, Lower, Settings.Flag, Settings.PLACEHOLDERS;
    if Clean(env, keys, Settings.Presence) {
      forall k | k in keys ensures IsSet(env, k) {
        assert !Settings.RequiredFault(Settings.Issue(k, Settings.Unset), env, keys, Settings.Presence);
      }
    }
    if Clean(env, keys, Settings.Secret(length)) {
      forall k | k in keys ensures Strong(env, k, length) {
        assert !Settings.RequiredFault(Settings.Issue(k, Settings.Unset), env, keys, Settings.Secret(length));
        assert !Settings.RequiredFault(Settings.Issue(k, Settings.Placeholder), env, keys, Settings.Secret(length));
        assert !Settings.RequiredFault(Settings.Issue(k, Settings.TooShort), env, keys, Settings.Secret(length));
      }
    }
  }

  lemma AddressesIff(env: Vals, s: Scenario, net: Settings.Addresses)
    ensures AddressesClean(env, s, net) <==> SoundAddresses(env, s, net)
  {
    hide Scenario.Has, TrustedProxies, Settings.PROXY_BIND_ADDRESS, Settings.TRUSTED_PROXY_IPS;
    if AddressesClean(env, s, net) {
      assert !Settings.AddressFault(Settings.Issue(Settings.PROXY_BIND_ADDRESS, Settings.Malformed), env, s, net);
      assert !Settings.AddressFault(Settings.Issue(Settings.TRUSTED_PROXY_IPS, Settings.Malformed), env, s, net);
    }
  }

  lemma LogsIff(env: Vals, s: Scenario)
    ensures LogsClean(env, s) <==> SoundLogs(env, s)
  {
    hide Scenario.Has, Settings.IsHorizon, Settings.LOG_BACKEND, Settings.LOG_URL, Settings.LOG_RETENTION;
    if LogsClean(env, s) {
      assert !Settings.LogFault(Settings.Issue(Settings.LOG_BACKEND, Settings.Unknown), env, s);
      assert !Settings.LogFault(Settings.Issue(Settings.LOG_URL, Settings.Unset), env, s);
      assert !Settings.LogFault(Settings.Issue(Settings.LOG_RETENTION, Settings.Malformed), env, s);
    }
  }

  lemma SecretsIff(env: Vals, s: Scenario)
    ensures AllStrong(env, Settings.GeneratedSecrets(s)) <==> SoundSecrets(env, s)
  {
    hide Strong, Settings.BASE_SECRETS, Settings.KEYCLOAK_SECRETS, Settings.GRAFANA_ADMIN_PASSWORD, Scenario.Has;
    var base := Settings.BASE_SECRETS;
    var keycloak := if s.Has(KeycloakIdp) then Settings.KEYCLOAK_SECRETS else [];
    var grafana := if s.RunsGrafana() then [Settings.GRAFANA_ADMIN_PASSWORD] else [];
    assert Settings.GeneratedSecrets(s) == base + keycloak + grafana;
    assert forall k :: k in base + keycloak + grafana <==> k in base || k in keycloak || k in grafana;
  }

  /** Each rule under its own guard. */
  ghost predicate PartsClean(env: Vals, s: Scenario, net: Settings.Addresses)
  {
    && Clean(env, Settings.GeneratedSecrets(s), Settings.Secret(16))
    && (s.Has(TlsFiles) && !Settings.Flag(env, "NEOPS_TLS_SELF_SIGNED") ==>
        Clean(env, Settings.TLS_FILES, Settings.Presence))
    && (s.Has(TlsAcme) && !s.Has(TlsFiles) ==> Clean(env, Settings.ACME_EMAIL, Settings.Presence))
    && (s.Has(Oidc) && !s.Has(KeycloakIdp) ==>
        && Clean(env, Settings.OIDC_KEYS, Settings.Presence)
        && Clean(env, Settings.OIDC_CLIENT_SECRET, Settings.Secret(0)))
    && AddressesClean(env, s, net) && LogsClean(env, s)
  }

  lemma FaultlessIff(env: Vals, s: Scenario, net: Settings.Addresses)
    ensures NoFault(env, s, net) <==> PartsClean(env, s, net)
  {
    hide Settings.RequiredFault, Settings.AddressFault, Settings.LogFault, Settings.GeneratedSecrets, Settings.Flag;
    hide Scenario.Has;
    assert Settings.GENERATED_MIN_LENGTH == 16;
    if NoFault(env, s, net) {
      forall i
        ensures !Settings.RequiredFault(i, env, Settings.GeneratedSecrets(s), Settings.Secret(16))
        ensures !Settings.AddressFault(i, env, s, net) && !Settings.LogFault(i, env, s)
      {
        assert !Settings.Faulty(i, env, s, net);
      }
      forall i | s.Has(TlsFiles) && !Settings.Flag(env, "NEOPS_TLS_SELF_SIGNED")
        ensures !Settings.RequiredFault(i, env, Settings.TLS_FILES, Settings.Presence)
      {
        assert !Settings.Faulty(i, env, s, net);
      }
      forall i | s.Has(TlsAcme) && !s.Has(TlsFiles)
        ensures !Settings.RequiredFault(i, env, Settings.ACME_EMAIL, Settings.Presence)
      {
        assert !Settings.Faulty(i, env, s, net);
      }
      forall i | s.Has(Oidc) && !s.Has(KeycloakIdp)
        ensures !Settings.RequiredFault(i, env, Settings.OIDC_KEYS, Settings.Presence)
        ensures !Settings.RequiredFault(i, env, Settings.OIDC_CLIENT_SECRET, Settings.Secret(0))
      {
        assert !Settings.Faulty(i, env, s, net);
      }
    }
  }

  lemma SettingsIff(env: Vals, s: Scenario, net: Settings.Addresses)
    ensures NoFault(env, s, net) <==> SoundSettings(env, s, net)
  {
    hide Clean, AddressesClean, LogsClean, Strong, NoFault, Settings.Flag, Settings.GeneratedSecrets, Scenario.Has;
    hide SoundAddresses, SoundLogs, SoundSecrets, AllSet;
    FaultlessIff(env, s, net);
    RequiredIff(env, Settings.GeneratedSecrets(s), 16);
    SecretsIff(env, s);
    RequiredIff(env, Settings.TLS_FILES, 0);
    RequiredIff(env, Settings.ACME_EMAIL, 0);
    RequiredIff(env, Settings.OIDC_KEYS, 0);
    RequiredIff(env, Settings.OIDC_CLIENT_SECRET, 0);
    AddressesIff(env, s, net);
    LogsIff(env, s);
  }

  // ----- URLs against each other -----

  predicate SameTriple(u: PublicUrl, v: PublicUrl) { u.scheme == v.scheme && u.host == v.host && u.port == v.port }

  /** The segments of one path begin with those of another. */
  predicate Continues(path: string, prefix: string) { Split(prefix, "/") <= Split(path, "/") }

  lemma UnderIsContinues(path: string, prefix: string)
    ensures Under(path, prefix) <==> Continues(path, prefix)
  {
    hide Split, Join;
    if path != prefix && prefix + "/" <= path {
      var rest := path[|prefix| + 1..];
      assert path == prefix + ['/'] + rest;
      SplitConcat(prefix, rest, '/');
    }
    if Continues(path, prefix) {
      var a, b := Split(prefix, "/"), Split(path, "/")[|Split(prefix, "/")|..];
      assert Split(path, "/") == a + b;
      JoinSplit(path, '/');
      JoinSplit(prefix, '/');
      JoinInTwo(a, b, "/");
      if b != [] { assert path == prefix + "/" + Join(b, "/"); }
    }
  }

  lemma {:induction false} JoinInTwo(a: seq<string>, b: seq<string>, sep: string)
    requires a != []
    ensures Join(a + b, sep) == if b == [] then Join(a, sep) else Join(a, sep) + sep + Join(b, sep)
  {
    if b == [] {
      assert a + b == a;
    } else if |a| == 1 {
      assert (a + b)[1..] == b;
    } else {
      assert (a + b)[1..] == a[1..] + b;
      JoinInTwo(a[1..], b, sep);
    }
  }

  /** The monitor on the web client's host, at an origin of its own. */
  predicate OwnPort(urls: UrlMap)
    requires HasBase(urls)
  {
    urls[Workflows].host == urls[Web].host && !SameTriple(urls[Workflows], urls[Web])
  }

  predicate SoundCms(urls: UrlMap, s: Scenario)
    requires HasBase(urls)
  {
    && urls[Cms].path == ""
    && (s.Has(SharedHost) ==> SameTriple(urls[Cms], urls[Web]))
    && (SameTriple(urls[Cms], urls[Web]) && s.Has(TraefikProxy) ==> s.Has(SharedHost))
  }

  predicate SoundPath(urls: UrlMap, k: UrlKey)
    requires HasBase(urls) && k in urls
  {
    && (forall r :: r in CORE_PREFIXES + WEB_RESERVED_PATHS ==> urls[k].path == "" || !Continues(urls[k].path, r))
    && (SameTriple(urls[k], urls[Web]) ==> urls[k].path != "")
  }

  predicate Contained(urls: UrlMap, j: UrlKey, k: UrlKey)
    requires j in urls && k in urls
  {
    && urls[j].path != "" && urls[k].path != "" && SameTriple(urls[j], urls[k])
    && Continues(urls[j].path, urls[k].path)
  }

  predicate SoundPaths(urls: UrlMap, s: Scenario)
    requires HasBase(urls)
  {
    && (forall k :: k in PREFIXED_URLS && k in urls ==> SoundPath(urls, k))
    && (forall j, k :: j in PREFIXED_URLS && k in PREFIXED_URLS && j != k && j in urls && k in urls ==>
      !Contained(urls, j, k))
    && (s.Has(TraefikProxy) && !s.Has(SharedHost) ==> BareUrls(urls))
  }

  /** Behind a proxy that ends TLS: one scheme, and a monitor that port forwarding reaches. */
  predicate SoundUpstream(urls: UrlMap, s: Scenario, ports: Ports)
    requires HasBase(urls)
  {
    && (forall k :: k in urls ==> urls[k].scheme == urls[Web].scheme)
    && !(s.Has(SharedHost) && OwnPort(urls)) && !ports.monitorDeclared
  }

  /** Behind the bundled Traefik: the scheme of the TLS mode and its port, the monitor's own excepted. */
  predicate SoundTraefik(urls: UrlMap, s: Scenario, ports: Ports)
    requires HasBase(urls)
  {
    var port := if s.Tls() then ports.https else ports.http;
    SoundPorts(urls, s, port) && (s.Has(SharedHost) ==> SoundMonitorPort(urls, ports, port))
  }

  predicate SoundUrls(urls: UrlMap, s: Scenario, ports: Ports, upstream: bool)
    requires HasBase(urls)
  {
    && SoundCms(urls, s) && SoundPaths(urls, s)
    && (upstream ==> SoundUpstream(urls, s, ports))
    && (!upstream && s.Has(TraefikProxy) ==> SoundTraefik(urls, s, ports))
  }

  predicate AllWellFormed(urls: UrlMap) { forall k :: k in urls ==> WellFormed(urls[k]) }

  lemma SameOriginIff(urls: UrlMap, j: UrlKey, k: UrlKey)
    requires AllWellFormed(urls) && j in urls && k in urls
    ensures SameOrigin(urls[j], urls[k]) <==> SameTriple(urls[j], urls[k])
  {
    SameOriginIffTripleEqual(urls[j], urls[k]);
  }

  lemma PlacementIff(urls: UrlMap)
    requires HasBase(urls) && AllWellFormed(urls)
    ensures MonitorPlacement(urls) == WebPort <==> OwnPort(urls)
  {
    SameOriginIff(urls, Workflows, Web);
    hide SameOrigin, WellFormed;
  }

  lemma CmsIff(urls: UrlMap, s: Scenario)
    requires HasBase(urls) && AllWellFormed(urls)
    ensures (forall p :: !CmsProblem(p, urls, s)) <==> SoundCms(urls, s)
  {
    SameOriginIff(urls, Cms, Web);
    hide SameOrigin, WellFormed, FileOf, Scenario.Has, SameTriple;
    if forall p :: !CmsProblem(p, urls, s) {
      assert !CmsProblem(CmsPath, urls, s) && !CmsProblem(CmsNeedsSharedHost, urls, s);
      assert !CmsProblem(SharedHostNeedsWebOrigin, urls, s);
    }
  }

  lemma ReservedIff(path: string)
    ensures Reserved(path) <==> exists r :: r in CORE_PREFIXES + WEB_RESERVED_PATHS && Continues(path, r)
  {
    hide CORE_PREFIXES, WEB_RESERVED_PATHS, Under, Continues;
    forall r: string ensures Under(path, r) <==> Continues(path, r) { UnderIsContinues(path, r); }
  }

  ghost predicate PathsClean(urls: UrlMap, s: Scenario, keys: seq<UrlKey>)
    requires HasBase(urls)
  {
    forall p :: !PathProblem(p, urls, s, PREFIXED_URLS, keys)
  }

  ghost predicate PairsClean(urls: UrlMap)
  {
    forall a, b :: PairBefore(a, b, |PREFIXED_URLS|, 0) ==> !Overlaps(urls, a, b)
  }

  ghost predicate PathClean(urls: UrlMap, k: UrlKey)
    requires HasBase(urls) && k in urls
  {
    && !(urls[k].path != "" && Reserved(urls[k].path))
    && !(SameOrigin(urls[k], urls[Web]) && urls[k].path == "")
  }

  lemma PathIff(urls: UrlMap, k: UrlKey)
    requires HasBase(urls) && AllWellFormed(urls) && k in urls
    ensures PathClean(urls, k) <==> SoundPath(urls, k)
  {
    SameOriginIff(urls, k, Web);
    ReservedIff(urls[k].path);
    hide SameOrigin, SameTriple, Reserved, Continues, WellFormed, CORE_PREFIXES, WEB_RESERVED_PATHS;
  }

  predicate BareUrls(urls: UrlMap) { forall k :: k in urls && k != Cms ==> urls[k].path == "" }

  lemma PathsCleanIff(urls: UrlMap, s: Scenario, keys: seq<UrlKey>)
    requires HasBase(urls) && forall k :: k in urls <==> k in keys
    ensures PathsClean(urls, s, keys) <==>
      && (forall k :: k in PREFIXED_URLS && k in urls ==> PathClean(urls, k))
      && (s.Has(TraefikProxy) && !s.Has(SharedHost) ==> BareUrls(urls))
  {
    hide SameOrigin, Reserved, FileOf, Scenario.Has;
    if PathsClean(urls, s, keys) {
      forall k | k in PREFIXED_URLS && k in urls ensures PathClean(urls, k) {
        assert !PathProblem(ReservedPath(k), urls, s, PREFIXED_URLS, keys);
        assert !PathProblem(NeedsPrefix(k), urls, s, PREFIXED_URLS, keys);
      }
      forall k | k in urls && k != Cms && s.Has(TraefikProxy) && !s.Has(SharedHost) ensures urls[k].path == "" {
        assert !PathProblem(PathNeedsSharedHost(k), urls, s, PREFIXED_URLS, keys);
      }
    }
  }

  lemma PathsIff(urls: UrlMap, s: Scenario, keys: seq<UrlKey>)
    requires HasBase(urls) && AllWellFormed(urls) && forall k :: k in urls <==> k in keys
    ensures PathsClean(urls, s, keys) <==>
      && (forall k :: k in PREFIXED_URLS && k in urls ==> SoundPath(urls, k))
      && (s.Has(TraefikProxy) && !s.Has(SharedHost) ==> BareUrls(urls))
  {
    hide PathClean, SoundPath, PathsClean, WellFormed, Scenario.Has;
    PathsCleanIff(urls, s, keys);
    forall k | k in urls ensures PathClean(urls, k) <==> SoundPath(urls, k) { PathIff(urls, k); }
  }

  lemma OverlapsIff(urls: UrlMap, j: UrlKey, k: UrlKey)
    requires AllWellFormed(urls) && j in urls && k in urls
    ensures Overlaps(urls, j, k) <==> Contained(urls, j, k) || Contained(urls, k, j)
  {
    SameOriginIff(urls, j, k);
    UnderIsContinues(urls[j].path, urls[k].path);
    UnderIsContinues(urls[k].path, urls[j].path);
    hide SameOrigin, Under, Continues, WellFormed;
  }

  lemma PairsIff(urls: UrlMap)
    requires AllWellFormed(urls)
    ensures PairsClean(urls) <==>
      forall j, k :: j in PREFIXED_URLS && k in PREFIXED_URLS && j != k && j in urls && k in urls ==>
        !Contained(urls, j, k)
  {
    forall j, k | j in urls && k in urls
      ensures Overlaps(urls, j, k) <==> Contained(urls, j, k) || Contained(urls, k, j)
    {
      OverlapsIff(urls, j, k);
    }
    forall j, k ensures Overlaps(urls, j, k) ==> j in urls && k in urls {}
    hide Overlaps, Contained, WellFormed;
    if PairsClean(urls) {
      forall j, k | j in PREFIXED_URLS && k in PREFIXED_URLS && j != k && j in urls && k in urls
        ensures !Contained(urls, j, k)
      {
        assert Rank(j) != Rank(k);
        if Rank(j) < Rank(k) {
          assert PairBefore(j, k, |PREFIXED_URLS|, 0);
        } else {
          assert PairBefore(k, j, |PREFIXED_URLS|, 0);
        }
      }
    }
  }

  ghost predicate UpstreamClean(urls: UrlMap, s: Scenario, ports: Ports, keys: seq<UrlKey>)
    requires HasBase(urls)
  {
    forall p :: !UpstreamProblem(p, urls, s, ports, keys)
  }

  lemma UpstreamIff(urls: UrlMap, s: Scenario, ports: Ports, keys: seq<UrlKey>)
    requires HasBase(urls) && AllWellFormed(urls) && forall k :: k in urls <==> k in keys
    ensures UpstreamClean(urls, s, ports, keys) <==> SoundUpstream(urls, s, ports)
  {
    PlacementIff(urls);
    hide MonitorPlacement, OwnPort, WellFormed, FileOf, Scenario.Has;
    if UpstreamClean(urls, s, ports, keys) {
      forall k | k in urls ensures urls[k].scheme == urls[Web].scheme {
        assert !UpstreamProblem(WrongScheme(k), urls, s, ports, keys);
      }
      assert !UpstreamProblem(MonitorBehindProxy, urls, s, ports, keys);
      assert !UpstreamProblem(MonitorPortUnused, urls, s, ports, keys);
    }
  }

  ghost predicate TraefikClean(urls: UrlMap, s: Scenario, ports: Ports, keys: seq<UrlKey>)
    requires HasBase(urls)
  {
    && (forall p :: !TraefikProblem(p, urls, s, ports, keys, keys))
    && (s.Has(SharedHost) ==> forall p :: !MonitorPortProblem(p, urls, s, ports))
  }

  predicate SoundPorts(urls: UrlMap, s: Scenario, port: int)
    requires HasBase(urls)
  {
    && (forall k :: k in urls ==> urls[k].scheme == if s.Tls() then Https else Http)
    && (forall k :: k in urls ==> (k == Workflows && s.Has(SharedHost) && OwnPort(urls)) || urls[k].port == port)
  }

  predicate SoundMonitorPort(urls: UrlMap, ports: Ports, port: int)
    requires HasBase(urls)
  {
    if OwnPort(urls) then ports.monitor != port && urls[Workflows].port == ports.monitor else !ports.monitorDeclared
  }

  lemma PortsIff(urls: UrlMap, s: Scenario, ports: Ports, keys: seq<UrlKey>)
    requires HasBase(urls) && AllWellFormed(urls) && s.Has(TraefikProxy) && forall k :: k in urls <==> k in keys
    ensures (forall p :: !TraefikProblem(p, urls, s, ports, keys, keys)) <==> SoundPorts(urls, s, ports.Public(s))
  {
    PlacementIff(urls);
    hide MonitorPlacement, OwnPort, WellFormed, FileOf, Scenario.Has, Scenario.Tls, Ports.Public;
    if forall p :: !TraefikProblem(p, urls, s, ports, keys, keys) {
      forall k | k in urls
        ensures urls[k].scheme == ExpectedScheme(s)
        ensures (k == Workflows && MonitorEntrypointWanted(urls, s)) || urls[k].port == ports.Public(s)
      {
        assert !TraefikProblem(WrongScheme(k), urls, s, ports, keys, keys);
        assert !TraefikProblem(WrongPort(k), urls, s, ports, keys, keys);
      }
    }
  }

  lemma MonitorPortIff(urls: UrlMap, s: Scenario, ports: Ports)
    requires HasBase(urls) && AllWellFormed(urls)
    ensures (forall p :: !MonitorPortProblem(p, urls, s, ports)) <==> SoundMonitorPort(urls, ports, ports.Public(s))
  {
    PlacementIff(urls);
    hide MonitorPlacement, OwnPort, WellFormed, FileOf, Scenario.Has, Ports.Public;
    if forall p :: !MonitorPortProblem(p, urls, s, ports) {
      assert !MonitorPortProblem(MonitorPortIsPublic, urls, s, ports);
      assert !MonitorPortProblem(MonitorPortMismatch, urls, s, ports);
      assert !MonitorPortProblem(MonitorPortUnused, urls, s, ports);
    }
  }

  lemma TraefikIff(urls: UrlMap, s: Scenario, ports: Ports, keys: seq<UrlKey>)
    requires HasBase(urls) && AllWellFormed(urls) && s.Has(TraefikProxy) && forall k :: k in urls <==> k in keys
    ensures TraefikClean(urls, s, ports, keys) <==> SoundTraefik(urls, s, ports)
  {
    hide TraefikProblem, MonitorPortProblem, SoundPorts, SoundMonitorPort, Scenario.Has, WellFormed;
    PortsIff(urls, s, ports, keys);
    MonitorPortIff(urls, s, ports);
  }

  ghost predicate UrlsClean(urls: UrlMap, keys: seq<UrlKey>, s: Scenario, ports: Ports, upstream: bool)
    requires HasBase(urls)
  {
    forall p :: !UrlProblem(p, urls, keys, s, ports, upstream)
  }

  lemma UrlsCleanIff(urls: UrlMap, keys: seq<UrlKey>, s: Scenario, ports: Ports, upstream: bool)
    requires HasBase(urls)
    ensures UrlsClean(urls, keys, s, ports, upstream) <==>
      && (forall p :: !CmsProblem(p, urls, s)) && PathsClean(urls, s, keys) && PairsClean(urls)
      && (upstream ==> UpstreamClean(urls, s, ports, keys))
      && (!upstream && s.Has(TraefikProxy) ==> TraefikClean(urls, s, ports, keys))
  {
    hide CmsProblem, PathProblem, Overlaps, UpstreamProblem, MonitorPortProblem, PairBefore, Scenario.Has;
    if UrlsClean(urls, keys, s, ports, upstream) {
      forall p
        ensures !CmsProblem(p, urls, s) && !PathProblem(p, urls, s, PREFIXED_URLS, keys)
        ensures upstream ==> !UpstreamProblem(p, urls, s, ports, keys)
        ensures !upstream ==> !TraefikProblem(p, urls, s, ports, keys, keys)
        ensures !upstream && s.Has(TraefikProxy) && s.Has(SharedHost) ==> !MonitorPortProblem(p, urls, s, ports)
      {
        assert !UrlProblem(p, urls, keys, s, ports, upstream);
      }
      forall a, b | PairBefore(a, b, |PREFIXED_URLS|, 0) ensures !Overlaps(urls, a, b) {
        assert !UrlProblem(Overlap(a, b), urls, keys, s, ports, upstream);
      }
    }
  }

  lemma UrlsIff(urls: UrlMap, keys: seq<UrlKey>, s: Scenario, ports: Ports, upstream: bool)
    requires HasBase(urls) && AllWellFormed(urls) && forall k :: k in urls <==> k in keys
    ensures UrlsClean(urls, keys, s, ports, upstream) <==> SoundUrls(urls, s, ports, upstream)
  {
    hide UrlsClean, PathsClean, PairsClean, UpstreamClean, TraefikClean, CmsProblem, WellFormed, Scenario.Has;
    hide SoundPath;
    hide Contained, SoundCms, SoundUpstream, SoundTraefik;
    UrlsCleanIff(urls, keys, s, ports, upstream);
    CmsIff(urls, s);
    PathsIff(urls, s, keys);
    PairsIff(urls);
    UpstreamIff(urls, s, ports, keys);
    if s.Has(TraefikProxy) { TraefikIff(urls, s, ports, keys); }
  }

  // ----- the whole configuration -----

  /** Every URL the scenario needs is set and can be read. */
  predicate UrlsRead(env: Vals, s: Scenario)
  {
    && (forall k :: k in BASE_URLS ==> Parses(env, k))
    && (s.Has(KeycloakIdp) ==> Parses(env, Keycloak))
    && ((s.Has(GrafanaUi) || s.Has(Metrics)) && IsSet(env, EnvKey(Grafana)) ==> Parses(env, Grafana))
  }

  predicate Sound(env: Vals, s: Scenario, host: Host)
  {
    && SoundOverlays(s, host.files)
    && SoundSettings(env, s, host.net)
    && UrlsRead(env, s)
    && (s.Has(TlsAcme) && !s.Has(TlsFiles) && IsSet(env, "NEOPS_HTTP_PORT") ==> env["NEOPS_HTTP_PORT"] == "80")
    && (TrustedProxies(env) != [] ==> s.Has(TraefikProxy))
    && ReadPorts(env).Some? && HasBase(ParsedUrls(env, s))
    && SoundUrls(ParsedUrls(env, s), s, ReadPorts(env).value, TrustedProxies(env) != [] && !s.Tls())
  }

  ghost predicate ParsesClean(env: Vals, keys: seq<UrlKey>) { forall p :: !ParseProblem(p, env, keys) }

  lemma ParsesIff(env: Vals, s: Scenario)
    ensures ParsesClean(env, WantedKeys(env, s)) <==> UrlsRead(env, s)
    ensures UrlsRead(env, s) ==> HasBase(ParsedUrls(env, s))
  {
    hide Parses, Scenario.Has, EnvKey, IsSet;
    ParsesCleanIff(env, WantedKeys(env, s));
    assert forall k :: k in BASE_URLS ==> k in WantedKeys(env, s);
    assert s.Has(KeycloakIdp) ==> Keycloak in WantedKeys(env, s);
    assert s.RunsGrafana() && IsSet(env, EnvKey(Grafana)) ==> Grafana in WantedKeys(env, s);
    assert Web in BASE_URLS && Cms in BASE_URLS && Engine in BASE_URLS && Workflows in BASE_URLS;
  }

  lemma ParsesCleanIff(env: Vals, keys: seq<UrlKey>)
    ensures ParsesClean(env, keys) <==> forall k :: k in keys ==> Parses(env, k)
  {
    hide Parse, EnvKey;
    if ParsesClean(env, keys) {
      forall k | k in keys ensures Parses(env, k) {
        assert !ParseProblem(UrlRequired(k), env, keys) && !ParseProblem(UrlBad(k), env, keys);
      }
    }
  }

  /** The parts of an accepted configuration. */
  ghost predicate AllClean(env: Vals, s: Scenario, host: Host)
  {
    && NoOverlayProblem(s, host.files) && NoFault(env, s, host.net) && ParsesClean(env, WantedKeys(env, s))
    && !(s.Has(TlsAcme) && !s.Has(TlsFiles) && Get(env, "NEOPS_HTTP_PORT", "80") != "80")
    && !(TrustedProxies(env) != [] && !s.Has(TraefikProxy))
    && UrlPartClean(env, s)
  }

  ghost predicate UrlPartClean(env: Vals, s: Scenario)
  {
    HasBase(ParsedUrls(env, s)) ==>
      && ReadPorts(env).Some?
      && UrlsClean(ParsedUrls(env, s), ParsedKeys(env, s), s, ReadPorts(env).value, TlsTerminatedUpstream(env, s))
  }

  lemma AcceptedUrlPart(env: Vals, s: Scenario, host: Host)
    requires Accepted(env, s, host)
    ensures UrlPartClean(env, s)
  {
    hide OverlayProblem, ParseProblem, UrlProblem, TrustedProxies, ReadPorts, WantedKeys, Settings.Faulty, ParsedUrls;
    hide ParsedKeys, TlsTerminatedUpstream, Scenario.Has, HasBase;
    assert !Reported(BadPorts, env, s, host);
    if HasBase(ParsedUrls(env, s)) {
      forall p
        ensures !UrlProblem(
          p, ParsedUrls(env, s), ParsedKeys(env, s), s, ReadPorts(env).value, TlsTerminatedUpstream(env, s))
      {
        assert !Reported(p, env, s, host);
      }
    }
  }

  lemma AcceptedIsClean(env: Vals, s: Scenario, host: Host)
    requires Accepted(env, s, host)
    ensures AllClean(env, s, host)
  {
    AcceptedUrlPart(env, s, host);
    hide OverlayProblem, ParseProblem, UrlProblem, TrustedProxies, ReadPorts, WantedKeys, Settings.Faulty, ParsedUrls;
    hide ParsedKeys, TlsTerminatedUpstream, Scenario.Has, HasBase, UrlsClean;
    assert !Reported(AcmeHttpPort, env, s, host) && !Reported(TrustedNeedsTraefik, env, s, host);
    forall p ensures !OverlayProblem(p, s, s.files, host.files) && !ParseProblem(p, env, WantedKeys(env, s)) {
      assert !Reported(p, env, s, host);
    }
    forall i ensures !Settings.Faulty(i, env, s, host.net) {
      assert !Reported(Setting(i), env, s, host);
    }
  }

  lemma CleanIsAccepted(env: Vals, s: Scenario, host: Host)
    requires AllClean(env, s, host)
    ensures Accepted(env, s, host)
  {
    hide OverlayProblem, ParseProblem, UrlProblem, TrustedProxies, ReadPorts, WantedKeys, Settings.Faulty, ParsedUrls;
    hide ParsedKeys, TlsTerminatedUpstream, Scenario.Has, HasBase;
    forall p ensures !Reported(p, env, s, host) {}
  }

  lemma AllCleanIff(env: Vals, s: Scenario, host: Host)
    ensures Accepted(env, s, host) <==> AllClean(env, s, host)
  {
    hide Accepted, AllClean;
    if Accepted(env, s, host) { AcceptedIsClean(env, s, host); }
    if AllClean(env, s, host) { CleanIsAccepted(env, s, host); }
  }

  /** `check` finds no problem exactly in the sound configurations. */
  lemma AcceptedIff(env: Vals, s: Scenario, host: Host)
    ensures Accepted(env, s, host) <==> Sound(env, s, host)
  {
    hide Accepted, NoOverlayProblem, NoFault, ParsesClean, UrlsClean, TrustedProxies, ReadPorts, WantedKeys, ParsedUrls;
    hide Scenario.Has, SoundOverlays, SoundSettings, UrlsRead, SoundUrls, WellFormed, Parses, OnlyParsed;
    AllCleanIff(env, s, host);
    OverlaysIff(s, host.files);
    SettingsIff(env, s, host.net);
    ParsesIff(env, s);
    if HasBase(ParsedUrls(env, s)) && ReadPorts(env).Some? {
      UrlsIff(ParsedUrls(env, s), ParsedKeys(env, s), s, ReadPorts(env).value, TlsTerminatedUpstream(env, s));
    }
  }

  // ----- secrets -----

  predicate ChecksOn(env: Vals) { !Settings.Flag(env, "NEOPS_DISABLE_SECURITY_CHECKS") }

  /** Something is reported about the key. */
  ghost predicate Refused(env: Vals, s: Scenario, host: Host, key: string)
  {
    exists f: Settings.Fault :: Reported(Setting(Settings.Issue(key, f)), env, s, host)
  }

  lemma GeneratedAreOwn(s: Scenario, key: string)
    requires key in Settings.GeneratedSecrets(s)
    ensures key !in Settings.TLS_FILES + Settings.ACME_EMAIL + Settings.OIDC_KEYS + Settings.OIDC_CLIENT_SECRET
    ensures key !in {Settings.PROXY_BIND_ADDRESS, Settings.TRUSTED_PROXY_IPS, Settings.LOG_BACKEND}
    ensures key !in {Settings.LOG_URL, Settings.LOG_RETENTION}
  {
    assert key in Settings.BASE_SECRETS + Settings.KEYCLOAK_SECRETS + [Settings.GRAFANA_ADMIN_PASSWORD];
    hide Scenario.Has, Settings.GeneratedSecrets;
  }

  lemma SettingIsNoUrlProblem(
    i: Settings.Issue, urls: UrlMap, keys: seq<UrlKey>, s: Scenario, ports: Ports, upstream: bool)
    requires HasBase(urls)
    ensures !UrlProblem(Setting(i), urls, keys, s, ports, upstream)
  {
    hide Scenario.Has, SameOrigin, Reserved, Overlaps;
  }

  lemma SettingReportedIff(env: Vals, s: Scenario, host: Host, i: Settings.Issue)
    ensures Reported(Setting(i), env, s, host) <==> Settings.Faulty(i, env, s, host.net)
  {
    var urls := ParsedUrls(env, s);
    if HasBase(urls) && ReadPorts(env).Some? {
      SettingIsNoUrlProblem(i, urls, ParsedKeys(env, s), s, ReadPorts(env).value, TlsTerminatedUpstream(env, s));
    }
    assert !OverlayProblem(Setting(i), s, s.files, host.files) && !ParseProblem(Setting(i), env, WantedKeys(env, s));
    hide Settings.Faulty, TrustedProxies, ReadPorts, WantedKeys, ParsedUrls, ParsedKeys, Scenario.Has, UrlProblem;
    hide TlsTerminatedUpstream, OverlayProblem, ParseProblem, HasBase;
  }

  lemma ReportedSecretIff(env: Vals, s: Scenario, host: Host, key: string, f: Settings.Fault)
    requires key in Settings.GeneratedSecrets(s)
    ensures Reported(Setting(Settings.Issue(key, f)), env, s, host)
      <==> Settings.RequiredFault(Settings.Issue(key, f), env, Settings.GeneratedSecrets(s), Settings.Secret(16))
  {
    var i := Settings.Issue(key, f);
    SettingReportedIff(env, s, host, i);
    GeneratedAreOwn(s, key);
    NotRequired(i, env, Settings.TLS_FILES);
    NotRequired(i, env, Settings.ACME_EMAIL);
    NotRequired(i, env, Settings.OIDC_KEYS);
    NotRequired(i, env, Settings.OIDC_CLIENT_SECRET);
    assert Settings.GENERATED_MIN_LENGTH == 16;
    hide Reported, Settings.RequiredFault, Settings.GeneratedSecrets, TrustedProxies, Scenario.Has, Settings.Flag;
    hide Settings.TLS_FILES, Settings.ACME_EMAIL, Settings.OIDC_KEYS, Settings.OIDC_CLIENT_SECRET, Settings.IsHorizon;
    hide Settings.PROXY_BIND_ADDRESS, Settings.TRUSTED_PROXY_IPS, Settings.LOG_BACKEND, Settings.LOG_URL;
    hide Settings.LOG_RETENTION, Settings.REMOTE_LOG_BACKENDS;
  }

  lemma NotRequired(i: Settings.Issue, env: Vals, keys: seq<string>)
    ensures i.name !in keys ==> forall demand :: !Settings.RequiredFault(i, env, keys, demand)
  {}

  /** Whatever else is wrong, a generated secret is refused exactly when it is unset, or checks are on and it is a
      placeholder or has fewer than 16 characters. */
  lemma SecretRefusedIff(env: Vals, s: Scenario, host: Host, key: string)
    requires key in Settings.GeneratedSecrets(s)
    ensures Refused(env, s, host, key) <==>
      || !IsSet(env, key)
      || (ChecksOn(env) && (|Strip(env[key])| < 16 || Lower(Strip(env[key])) in Settings.PLACEHOLDERS))
  {
    var keys := Settings.GeneratedSecrets(s);
    forall f: Settings.Fault
      ensures Reported(Setting(Settings.Issue(key, f)), env, s, host)
        <==> Settings.RequiredFault(Settings.Issue(key, f), env, keys, Settings.Secret(16))
    {
      ReportedSecretIff(env, s, host, key, f);
    }
    Settings.FaultIff(env, keys, Settings.Secret(16), key);
    hide Strip, Lower, Settings.Flag, Settings.PLACEHOLDERS, Reported, Settings.RequiredFault;
    hide Settings.GeneratedSecrets;
    if i: Settings.Issue :| i.name == key && Settings.RequiredFault(i, env, keys, Settings.Secret(16)) {
      assert i == Settings.Issue(key, i.fault);
      assert Reported(Setting(Settings.Issue(key, i.fault)), env, s, host);
    }
  }

  /** With checks on, a secret of n characters, none of them blank, that is no placeholder is refused iff n < 16. */
  lemma LengthDecides(env: Vals, s: Scenario, host: Host, key: string, n: nat)
    requires key in Settings.GeneratedSecrets(s) && ChecksOn(env) && key in env && |env[key]| == n > 0
    requires (forall i :: 0 <= i < n ==> !IsSpace(env[key][i])) && Lower(env[key]) !in Settings.PLACEHOLDERS
    ensures Refused(env, s, host, key) <==> n < 16
  {
    SecretRefusedIff(env, s, host, key);
    StripIdentity(env[key]);
  }

  /** No capitals and no blanks around make a placeholder pass. */
  lemma PlaceholderInAnySpelling(env: Vals, s: Scenario, host: Host, key: string, left: string, word: string,
      right: string)
    requires key in Settings.GeneratedSecrets(s) && ChecksOn(env) && key in env && env[key] == left + word + right
    requires Blank(left) && Blank(right) && Stripped(word)
    requires Lower(word) in {"changeme", "change_me", "unsafe", "password", "secret", "xxx"}
    ensures Refused(env, s, host, key)
  {
    SecretRefusedIff(env, s, host, key);
    StripPadded(left, word, right);
    hide Strip, Lower, Refused, ChecksOn, Settings.GeneratedSecrets, Blank, Stripped;
  }

  lemma ChecksStay(env: Vals, key: string, value: string)
    requires key != "NEOPS_DISABLE_SECURITY_CHECKS"
    ensures ChecksOn(env[key := value]) == ChecksOn(env)
  {
    hide Strip, Lower;
  }

  /** A longer secret is never refused where a shorter one passed, placeholders aside. */
  lemma LongerStaysStrong(env: Vals, s: Scenario, host: Host, key: string, longer: string)
    requires key in Settings.GeneratedSecrets(s) && IsSet(env, key) && !Refused(env, s, host, key)
    requires |Strip(longer)| >= |Strip(env[key])| && longer != "" && Lower(Strip(longer)) !in Settings.PLACEHOLDERS
    requires key != "NEOPS_DISABLE_SECURITY_CHECKS"
    ensures !Refused(env[key := longer], s, host, key)
  {
    hide Strip, Lower, Settings.PLACEHOLDERS, Settings.GeneratedSecrets, Refused, ChecksOn;
    SecretRefusedIff(env, s, host, key);
    SecretRefusedIff(env[key := longer], s, host, key);
    ChecksStay(env, key, longer);
  }

  /** Accepted: every generated secret is set and, with checks on, strong. */
  lemma AcceptedSecretsAreStrong(env: Vals, s: Scenario, host: Host, key: string)
    requires Accepted(env, s, host) && key in Settings.GeneratedSecrets(s)
    ensures IsSet(env, key)
    ensures ChecksOn(env) ==> |Strip(env[key])| >= 16 && Lower(Strip(env[key])) !in Settings.PLACEHOLDERS
  {
    hide Reported, Strip, Lower, Settings.PLACEHOLDERS, Settings.GeneratedSecrets, Settings.Flag;
    SecretRefusedIff(env, s, host, key);
  }
}
