/** Three complete .env files in which `check` finds no problem although Traefik then serves a service's URL wrongly. */
module RoutingExamples {
  import opened Wrappers
  import opened Text
  import opened EnvValues
  import opened Scenarios
  import opened Urls
  import opened PublicUrls
  import opened Rules
  import opened Traefik
  import opened Routing
  import EndToEnd
  import Settings

  const PLAIN := Ports(80, 443, 8443, false)

  const SECRET := "0123456789abcdef"

  function UrlsOf(urls: UrlMap): Vals
    requires HasBase(urls)
  {
    map["NEOPS_WEB_URL" := Print(urls[Web]), "NEOPS_CMS_URL" := Print(urls[Cms]),
        "NEOPS_ENGINE_URL" := Print(urls[Engine]), "NEOPS_WORKFLOWS_URL" := Print(urls[Workflows])]
  }

  function Secrets(): Vals { map k | k in Settings.BASE_SECRETS :: SECRET }

  /** The four URLs and the four secrets every scenario needs. */
  function EnvOf(urls: UrlMap): Vals
    requires HasBase(urls)
  {
    Secrets() + UrlsOf(urls)
  }

  function FourUrls(web: PublicUrl, cms: PublicUrl, engine: PublicUrl, workflows: PublicUrl): UrlMap
  {
    map[Web := web, Cms := cms, Engine := engine, Workflows := workflows]
  }

  lemma PrintNotEmpty(u: PublicUrl)
    ensures Print(u) != ""
  {
    assert |SchemeName(u.scheme)| > 0;
  }

  lemma Int80()
    ensures PyInt("80") == Some(80)
  {
    hide Reads, PyInt;
    DigitsOf('8');
    AppendDigit(['8'], 8, '0');
    assert ['8'] + ['0'] == "80";
    DigitsRead("80", 80);
  }

  lemma Int443()
    ensures PyInt("443") == Some(443)
  {
    hide Reads, PyInt;
    DigitsOf('4');
    AppendDigit(['4'], 4, '4');
    AppendDigit(['4'] + ['4'], 44, '3');
    assert ['4'] + ['4'] + ['3'] == "443";
    DigitsRead("443", 443);
  }

  lemma Int8443()
    ensures PyInt("8443") == Some(8443)
  {
    hide Reads, PyInt;
    DigitsOf('8');
    AppendDigit(['8'], 8, '4');
    AppendDigit(['8'] + ['4'], 84, '4');
    AppendDigit(['8'] + ['4'] + ['4'], 844, '3');
    assert ['8'] + ['4'] + ['4'] + ['3'] == "8443";
    DigitsRead("8443", 8443);
  }

  lemma DefaultPorts(env: Vals)
    requires "NEOPS_HTTP_PORT" !in env && "NEOPS_HTTPS_PORT" !in env && "NEOPS_MONITOR_PORT" !in env
    ensures ReadPorts(env) == Some(PLAIN)
  {
    hide PyInt;
    Int80();
    Int443();
    Int8443();
  }

  lemma EnvHolds(urls: UrlMap, k: UrlKey)
    requires HasBase(urls) && k in BASE_URLS
    ensures EnvKey(k) in EnvOf(urls) && EnvOf(urls)[EnvKey(k)] == Print(urls[k])
    ensures "NEOPS_GRAFANA_URL" !in EnvOf(urls) && "NEOPS_TRUSTED_PROXY_IPS" !in EnvOf(urls)
  {
    hide Print;
  }

  const UNUSED: set<string> := {
    "NEOPS_DISABLE_SECURITY_CHECKS", Settings.PROXY_BIND_ADDRESS, Settings.LOG_BACKEND, Settings.LOG_RETENTION,
    "NEOPS_HTTP_PORT", "NEOPS_HTTPS_PORT", "NEOPS_MONITOR_PORT"}

  lemma EnvHasSecrets(urls: UrlMap)
    requires HasBase(urls)
    ensures forall k :: k in Settings.BASE_SECRETS ==> k in EnvOf(urls) && EnvOf(urls)[k] == SECRET
    ensures forall k :: k in UNUSED ==> k !in EnvOf(urls)
  {
    hide Print;
    forall k | k in Settings.BASE_SECRETS ensures k !in UrlsOf(urls) { SecretIsNoUrl(k); }
    forall k | k in UNUSED ensures k !in UrlsOf(urls) && k !in Secrets() { UnusedIsAbsent(urls, k); }
  }

  lemma UnusedIsAbsent(urls: UrlMap, k: string)
    requires HasBase(urls) && k in UNUSED
    ensures k !in UrlsOf(urls) && k !in Secrets()
  {
    hide Print;
  }

  lemma SecretIsNoUrl(k: string)
    requires k in Settings.BASE_SECRETS
    ensures |k| > 7 && k[|k| - 1] != 'L'
  {}

  lemma SecretIsLong()
    ensures SECRET != "" && Strip(SECRET) == SECRET && |SECRET| == Settings.GENERATED_MIN_LENGTH
    ensures Lower(SECRET) !in Settings.PLACEHOLDERS
  {
    StripIdentity(SECRET);
    assert forall p :: p in Settings.PLACEHOLDERS ==> |p| < 16;
  }

  /** The secrets are in order and nothing else is asked for. */
  lemma SettingsFine(env: Vals, s: Scenario, net: Settings.Addresses)
    requires forall k :: k in Settings.BASE_SECRETS ==> k in env && env[k] == SECRET
    requires forall k :: k in UNUSED ==> k !in env
    requires TrustedProxies(env) == [] && Bare(s) && !s.Tls()
    ensures forall i :: !Settings.Faulty(i, env, s, net)
  {
    SecretIsLong();
    hide Strip, Lower, SECRET, Settings.PLACEHOLDERS, Scenario.Has, Settings.BASE_SECRETS;
    assert Settings.GeneratedSecrets(s) == Settings.BASE_SECRETS;
    forall i
      ensures !Settings.RequiredFault(i, env, Settings.BASE_SECRETS, Settings.Secret(Settings.GENERATED_MIN_LENGTH))
    {
      assert i.name in Settings.BASE_SECRETS ==> IsSet(env, i.name);
    }
    forall i ensures !Settings.AddressFault(i, env, s, net) && !Settings.LogFault(i, env, s) {
      assert Settings.LOG_BACKEND in UNUSED && Settings.LOG_RETENTION in UNUSED
        && Settings.PROXY_BIND_ADDRESS in UNUSED;
    }
  }

  lemma NoTrustedProxies(env: Vals)
    requires "NEOPS_TRUSTED_PROXY_IPS" !in env
    ensures TrustedProxies(env) == []
  {
    assert Split("", ",") == [""];
    assert Strip("") == "";
    hide Split, Strip;
    assert NonBlank([""]) == [];
  }

  lemma EnvParses(urls: UrlMap, s: Scenario)
    requires HasBase(urls) && (forall k :: k in urls <==> k in BASE_URLS)
    requires forall k :: k in urls ==> WellFormed(urls[k])
    requires !s.Has(KeycloakIdp)
    ensures var env := EnvOf(urls);
      && WantedKeys(env, s) == BASE_URLS && (forall k :: k in BASE_URLS ==> Parses(env, k))
        && ParsedUrls(env, s) == urls
      && TrustedProxies(env) == []
  {
    hide Parse, Print, FileOf, WellFormed, EnvOf, TrustedProxies;
    var env := EnvOf(urls);
    forall k | k in BASE_URLS ensures EnvKey(k) in env && Parses(env, k) && Parse(env[EnvKey(k)]) == Success(urls[k]) {
      EnvHolds(urls, k);
      PrintNotEmpty(urls[k]);
      PrintParses(urls[k]);
    }
    EnvHolds(urls, Web);
    NoTrustedProxies(env);
    assert WantedKeys(env, s) == BASE_URLS;
    hide WantedKeys, EnvKey;
    assert ParsedUrls(env, s) == urls;
  }

  /** Four URLs that break no rule make an .env that `check` accepts. */
  lemma RulesSuffice(urls: UrlMap, s: Scenario)
    requires HasBase(urls) && (forall k :: k in urls <==> k in BASE_URLS)
    requires forall k :: k in urls ==> WellFormed(urls[k])
    requires forall p :: !OverlayProblem(p, s, s.files, Shipped(s).files)
    requires Bare(s) && !s.Tls()
    requires forall p :: !UrlProblem(p, urls, BASE_URLS, s, PLAIN, false)
    ensures Accepted(EnvOf(urls), s, Shipped(s))
  {
    hide UrlProblem, OverlayProblem, Parse, FileOf, ReadPorts, Print, TrustedProxies, ParsedUrls, Accepted, EnvKey;
    hide WellFormed, Parses, Scenario.Has;
    hide EnvOf, Settings.Faulty, Settings.BASE_SECRETS;
    var env := EnvOf(urls);
    EnvParses(urls, s);
    EnvHasSecrets(urls);
    DefaultPorts(env);
    SettingsFine(env, s, Shipped(s).net);
    ParsedAll(env, BASE_URLS);
    NothingReported(env, s, urls);
  }

  lemma NothingReported(env: Vals, s: Scenario, urls: UrlMap)
    requires WantedKeys(env, s) == BASE_URLS == ParsedKeys(env, s) && (forall k :: k in BASE_URLS ==> Parses(env, k))
    requires ParsedUrls(env, s) == urls && HasBase(urls) && TrustedProxies(env) == [] && ReadPorts(env) == Some(PLAIN)
    requires forall p :: !OverlayProblem(p, s, s.files, Shipped(s).files)
    requires forall i :: !Settings.Faulty(i, env, s, Shipped(s).net)
    requires !s.Tls()
    requires forall p :: !UrlProblem(p, urls, BASE_URLS, s, PLAIN, false)
    ensures Accepted(env, s, Shipped(s))
  {
    hide UrlProblem, OverlayProblem, Parse, FileOf, ReadPorts, TrustedProxies, WantedKeys, ParsedKeys, ParsedUrls;
    hide Settings.Faulty;
    assert !TlsTerminatedUpstream(env, s);
    forall p ensures !Reported(p, env, s, Shipped(s)) {
      assert !OverlayProblem(p, s, s.files, Shipped(s).files) && !UrlProblem(p, urls, BASE_URLS, s, PLAIN, false);
    }
  }

  lemma {:induction false} ParsedAll(env: Vals, keys: seq<UrlKey>)
    requires forall k :: k in keys ==> Parses(env, k)
    ensures OnlyParsed(env, keys) == keys
  {
    hide Parses;
    if keys != [] {
      assert keys[0] in keys;
      ParsedAll(env, keys[1..]);
    }
  }

  /** The files named are the files present; no address is written in them. */
  function Shipped(s: Scenario): Host { Host((set f | f in s.files), Settings.Addresses(_ => false, _ => false)) }

  const HOSTNAMES := Scenario([BASE_FILE, FileOf(TraefikProxy)])

  const SHARED := Scenario([BASE_FILE, FileOf(TraefikProxy), FileOf(SharedHost)])

  /** No identity provider and no Grafana. */
  predicate Bare(s: Scenario) { !s.Has(KeycloakIdp) && !s.Has(Oidc) && !s.RunsGrafana() }

  lemma OverlaysFine()
    ensures forall p :: !OverlayProblem(p, HOSTNAMES, HOSTNAMES.files, Shipped(HOSTNAMES).files)
    ensures forall p :: !OverlayProblem(p, SHARED, SHARED.files, Shipped(SHARED).files)
    ensures HOSTNAMES.Has(TraefikProxy) && !HOSTNAMES.Has(SharedHost) && !HOSTNAMES.Tls() && Bare(HOSTNAMES)
    ensures SHARED.Has(TraefikProxy) && SHARED.Has(SharedHost) && !SHARED.Tls() && Bare(SHARED)
  {
    HasOnly();
    hide Scenario.Has, FileOf;
  }

  lemma HasOnly()
    ensures forall o: Overlay :: HOSTNAMES.Has(o) <==> o == TraefikProxy
    ensures forall o: Overlay :: SHARED.Has(o) <==> o == TraefikProxy || o == SharedHost
  {}

  function At(host: string, path: string): PublicUrl { PublicUrl(Http, host, 80, path) }

  /** `check` reports nothing, and two routers win the request. */
  ghost predicate AcceptedButTied(env: Vals, s: Scenario, q: Request)
  {
    && Accepted(env, s, Shipped(s)) && BuildTraefik(env, s).Some?
    && exists a, b :: a != b && {a, b} <= Winners(BuildTraefik(env, s).value.routers, q)
  }

  /** Path-less URLs on the default port, all on hosts other than the web client's. */
  lemma HostnamesFine(urls: UrlMap)
    requires HasBase(urls) && forall k :: k in urls ==> WellFormed(urls[k]) && urls[k] == At(urls[k].host, "")
    requires forall k :: k in urls && k != Web ==> urls[k].host != urls[Web].host
    ensures forall p :: !UrlProblem(p, urls, BASE_URLS, HOSTNAMES, PLAIN, false)
  {
    OverlaysFine();
    hide FileOf, Scenario.Has, HOSTNAMES, Reserved;
    forall k | k in urls && k != Web ensures !SameOrigin(urls[k], urls[Web]) {
      SameOriginIffTripleEqual(urls[k], urls[Web]);
    }
    hide Origin;
  }

  const ONE_HOST := FourUrls(At("w", ""), At("c", ""), At("x", ""), At("x", ""))

  /** Hostname mode with the engine and the monitor on one host: a request there has two winners. */
  lemma OneHostForTwoServices() returns (q: Request)
    ensures q.host == "x" && AcceptedButTied(EnvOf(ONE_HOST), HOSTNAMES, q)
  {
    OverlaysFine();
    OneHostShape();
    HostnamesFine(ONE_HOST);
    hide FileOf, Scenario.Has, UrlProblem, OverlayProblem, Winners, Routers, Accepted, EnvOf, WellFormed, Parse;
    hide Validated, RouterOf, BuildTraefik, PublicUrlsOf, HOSTNAMES, ONE_HOST;
    RulesSuffice(ONE_HOST, HOSTNAMES);
    AcceptedShape(ONE_HOST, HOSTNAMES);
    q := EndToEnd.TieWitness(LayoutOf(ONE_HOST, HOSTNAMES), Engine, Workflows);
  }

  lemma OneHostShape()
    ensures HasBase(ONE_HOST) && (forall k :: k in ONE_HOST <==> k in BASE_URLS)
    ensures forall k :: k in ONE_HOST ==> WellFormed(ONE_HOST[k]) && ONE_HOST[k] == At(ONE_HOST[k].host, "")
    ensures forall k :: k in ONE_HOST && k != Web ==> ONE_HOST[k].host != ONE_HOST[Web].host
    ensures ONE_HOST[Engine] == ONE_HOST[Workflows] == At("x", "") && ONE_HOST[Web] == At("w", "")
  {}

  lemma AcceptedShape(urls: UrlMap, s: Scenario)
    requires HasBase(urls) && (forall k :: k in urls <==> k in BASE_URLS)
    requires forall k :: k in urls ==> WellFormed(urls[k])
    requires !s.Has(KeycloakIdp) && !s.Tls() && s.Has(TraefikProxy)
    requires Accepted(EnvOf(urls), s, Shipped(s))
    ensures PublicUrlsOf(EnvOf(urls), s) == Some(urls) && Validated(LayoutOf(urls, s))
    ensures BuildTraefik(EnvOf(urls), s).Some?
      && BuildTraefik(EnvOf(urls), s).value.routers == Routers(LayoutOf(urls, s))
  {
    hide Parse, EnvOf, Accepted, Validated, ReadPorts, TrustedProxies, Scenario.Has, Routers, Reported, Parses;
    hide WellFormed;
    hide ParsedUrls, WantedKeys;
    EnvParses(urls, s);
    EndToEnd.AcceptedUnpacks(EnvOf(urls), s, Shipped(s));
    EndToEnd.AcceptedIsValidated(EnvOf(urls), s, Shipped(s));
  }

  const ADMINISTRATOR := FourUrls(At("w", ""), At("w", ""), At("w", "/administrator"), At("m", ""))

  lemma AdministratorNotReserved()
    ensures !Reserved("/administrator")
    ensures Straddles("/administrator", "/admin") && "/admin" in CORE_PREFIXES
    ensures WellFormed(At("w", "/administrator"))
  {
    var p := "/administrator";
    assert CORE_PREFIXES[2] == "/admin";
    assert p[..6] == "/admin" && p[6] == 'i';
    forall r | r in CORE_PREFIXES + WEB_RESERVED_PATHS ensures !Under(p, r) {
      if Under(p, r) {
        UnderIsPrefix(p, r);
        OnlyAdmin(p, r);
        assert false;
      }
    }
  }

  lemma OnlyAdmin(p: string, r: string)
    requires |p| > 2 && p[1] == 'a' && p[2] == 'd' && r <= p && r in CORE_PREFIXES + WEB_RESERVED_PATHS
    ensures r == "/admin"
  {
    assert |r| > 2 && r[1] == p[1] && r[2] == p[2];
  }

  lemma SharedHostFine(urls: UrlMap)
    requires HasBase(urls) && forall k :: k in urls ==> WellFormed(urls[k]) && urls[k] == At(urls[k].host, urls[k].path)
    requires forall k :: k in urls <==> k in BASE_URLS
    requires urls[Cms] == urls[Web] && urls[Web].path == "" && urls[Engine].path != "" && !Reserved(urls[Engine].path)
    requires urls[Workflows].host != urls[Web].host && urls[Workflows].path == ""
    ensures forall p :: !UrlProblem(p, urls, BASE_URLS, SHARED, PLAIN, false)
  {
    OverlaysFine();
    hide FileOf, Scenario.Has, SHARED, Reserved;
    SameOriginIffTripleEqual(urls[Workflows], urls[Web]);
    hide Origin;
  }

  lemma AdministratorUrls()
    ensures HasBase(ADMINISTRATOR) && (forall k :: k in ADMINISTRATOR <==> k in BASE_URLS)
    ensures forall k :: k in ADMINISTRATOR ==>
      WellFormed(ADMINISTRATOR[k]) && ADMINISTRATOR[k] == At(ADMINISTRATOR[k].host, ADMINISTRATOR[k].path)
    ensures ADMINISTRATOR[Cms] == ADMINISTRATOR[Web] == At("w", "")
    ensures ADMINISTRATOR[Engine] == At("w", "/administrator") && ADMINISTRATOR[Workflows] == At("m", "")
  {
    AdministratorNotReserved();
    assert WellFormed(At("w", "")) && WellFormed(At("m", ""));
    hide WellFormed;
  }

  lemma AdministratorAccepted()
    ensures Accepted(EnvOf(ADMINISTRATOR), SHARED, Shipped(SHARED))
    ensures var l := LayoutOf(ADMINISTRATOR, SHARED);
      && Validated(l) && BuildTraefik(EnvOf(ADMINISTRATOR), SHARED).Some?
      && BuildTraefik(EnvOf(ADMINISTRATOR), SHARED).value.routers == Routers(l)
  {
    AdministratorUrls();
    AdministratorNotReserved();
    OverlaysFine();
    hide CORE_PREFIXES, WEB_RESERVED_PATHS, Reserved, PathOk, WellFormed, ADMINISTRATOR, SHARED;
    SharedHostFine(ADMINISTRATOR);
    hide FileOf, Scenario.Has, UrlProblem, OverlayProblem, Routers, Accepted, EnvOf, Parse, Validated, BuildTraefik;
    RulesSuffice(ADMINISTRATOR, SHARED);
    AcceptedShape(ADMINISTRATOR, SHARED);
  }

  lemma AdministratorShape()
    ensures var l := LayoutOf(ADMINISTRATOR, SHARED);
      Separated(l) && l.sharedHost && !l.secure && !l.monitorEntrypoint
  {
    OverlaysFine();
    hide FileOf, Scenario.Has, SHARED, Origin;
  }

  /** Shared-host mode with the engine under /administrator: the core prefix /admin ends inside its first
      segment, and no request under the engine's URL reaches the engine alone. */
  lemma EngineUnderAdministrator(q: Request)
    requires q.entrypoint == WebEntry && q.host == "w" && Within(q.path, "/administrator") && '\n' !in q.path
    ensures Accepted(EnvOf(ADMINISTRATOR), SHARED, Shipped(SHARED))
    ensures var l := LayoutOf(ADMINISTRATOR, SHARED);
      var cfg := BuildTraefik(EnvOf(ADMINISTRATOR), SHARED);
      cfg.Some? && !EndToEnd.DeliveredTo(cfg.value.routers, l, q, Engine)
  {
    AdministratorAccepted();
    AdministratorShape();
    AdministratorNotReserved();
    hide CORE_PREFIXES, FileOf, Accepted, EnvOf, Validated, Straddles, Routers, Separated, EndToEnd.DeliveredTo;
    hide BuildTraefik, Scenario.Has, MonitorEntrypointWanted, WorkerCall;
    var l := LayoutOf(ADMINISTRATOR, SHARED);
    assert l.Complete() && l.urls[Engine] == At("w", "/administrator") && l.urls[Web] == At("w", "");
    if WorkerCall(l, q) {
      DeniedIsNotDelivered(l, q);
    } else {
      assert EndToEnd.Shadowed(l, Engine);
      EndToEnd.ServiceReached(l, q, Engine);
    }
  }

  lemma DeniedIsNotDelivered(l: Layout, q: Request)
    requires l.Complete() && '\n' !in q.path && WorkerCall(l, q)
    ensures !EndToEnd.DeliveredTo(Routers(l), l, q, Engine)
  {
    hide Routers, WorkerCall;
    DenyWins(l, q);
    forall r | Winners(Routers(l), q) == {r} ensures Serve(r, q) == Refused {
      assert r in {DenyRouter(l)};
    }
  }

  // ----- two prefixes, one inside the other's first segment -----

  const TWO_PREFIXES := FourUrls(At("w", ""), At("w", ""), At("w", "/neops"), At("w", "/neops2"))

  lemma NeopsPaths()
    ensures !Reserved("/neops") && !Reserved("/neops2")
    ensures Straddles("/neops2", "/neops") && !Under("/neops2", "/neops") && !Under("/neops", "/neops2")
    ensures forall c :: c in CORE_PREFIXES ==> !(c <= "/neops2")
    ensures WellFormed(At("w", "/neops")) && WellFormed(At("w", "/neops2"))
  {
    assert "/neops2"[..6] == "/neops" && "/neops2"[6] == '2' && "/neops2"[1] == 'n';
    NeopsIsFree("/neops");
    NeopsIsFree("/neops2");
    if Under("/neops2", "/neops") { UnderIsPrefix("/neops2", "/neops"); assert false; }
  }

  lemma NeopsIsFree(p: string)
    requires |p| > 1 && p[1] == 'n'
    ensures !Reserved(p) && forall c :: c in CORE_PREFIXES ==> !(c <= p)
  {
    forall r | r in CORE_PREFIXES + WEB_RESERVED_PATHS ensures !(r <= p) && !Under(p, r) {
      assert |r| > 1 && r[1] != 'n';
      if Under(p, r) { UnderIsPrefix(p, r); assert false; }
    }
  }

  lemma TwoPrefixUrls()
    ensures HasBase(TWO_PREFIXES) && (forall k :: k in TWO_PREFIXES <==> k in BASE_URLS)
    ensures forall k :: k in TWO_PREFIXES ==>
      WellFormed(TWO_PREFIXES[k]) && TWO_PREFIXES[k] == At("w", TWO_PREFIXES[k].path)
    ensures TWO_PREFIXES[Cms] == TWO_PREFIXES[Web] == At("w", "")
    ensures TWO_PREFIXES[Engine] == At("w", "/neops") && TWO_PREFIXES[Workflows] == At("w", "/neops2")
  {
    NeopsPaths();
    assert WellFormed(At("w", ""));
    hide WellFormed, Reserved, Straddles, Under;
  }

  /** One host, the engine and the monitor under paths that are not reserved and do not contain each other. */
  lemma SharedPathsFine(urls: UrlMap)
    requires HasBase(urls) && (forall k :: k in urls ==> urls[k] == At("w", urls[k].path))
    requires forall k :: k in urls <==> k in BASE_URLS
    requires urls[Cms] == urls[Web] && urls[Web].path == ""
    requires urls[Engine].path != "" && !Reserved(urls[Engine].path)
    requires urls[Workflows].path != "" && !Reserved(urls[Workflows].path)
    requires !Under(urls[Engine].path, urls[Workflows].path) && !Under(urls[Workflows].path, urls[Engine].path)
    ensures forall p :: !UrlProblem(p, urls, BASE_URLS, SHARED, PLAIN, false)
  {
    OverlaysFine();
    hide FileOf, Scenario.Has, SHARED, Reserved, Under;
    assert SameOrigin(urls[Workflows], urls[Web]);
    hide SameOrigin;
  }

  lemma TwoPrefixesAccepted()
    ensures Accepted(EnvOf(TWO_PREFIXES), SHARED, Shipped(SHARED))
    ensures var l := LayoutOf(TWO_PREFIXES, SHARED);
      && Validated(l) && BuildTraefik(EnvOf(TWO_PREFIXES), SHARED).Some?
      && BuildTraefik(EnvOf(TWO_PREFIXES), SHARED).value.routers == Routers(l)
  {
    TwoPrefixUrls();
    NeopsPaths();
    OverlaysFine();
    hide CORE_PREFIXES, WEB_RESERVED_PATHS, Reserved, PathOk, WellFormed, TWO_PREFIXES, SHARED, Under, Straddles;
    SharedPathsFine(TWO_PREFIXES);
    hide FileOf, Scenario.Has, UrlProblem, OverlayProblem, Routers, Accepted, EnvOf, Parse, Validated, BuildTraefik;
    RulesSuffice(TWO_PREFIXES, SHARED);
    AcceptedShape(TWO_PREFIXES, SHARED);
  }

  lemma TwoPrefixesShape()
    ensures var l := LayoutOf(TWO_PREFIXES, SHARED);
      && l.Complete() && l.urls == TWO_PREFIXES && l.sharedHost && !l.secure && !l.monitorEntrypoint
  {
    OverlaysFine();
    TwoPrefixUrls();
    assert SameOrigin(TWO_PREFIXES[Workflows], TWO_PREFIXES[Web]);
    hide FileOf, Scenario.Has, SHARED, TWO_PREFIXES, SameOrigin;
  }

  lemma TwoPrefixesStraddle()
    ensures var l := LayoutOf(TWO_PREFIXES, SHARED);
      l.Complete() && Separated(l) && EndToEnd.Straddling(l, Engine, Workflows) && EndToEnd.Rivals(l, Engine, Workflows)
  {
    TwoPrefixesShape();
    TwoPrefixUrls();
    NeopsPaths();
    hide TWO_PREFIXES, SHARED, WellFormed, Reserved, CORE_PREFIXES, LayoutOf;
    var l := LayoutOf(TWO_PREFIXES, SHARED);
    assert !EndToEnd.CoreTakes(l, Workflows);
    hide EndToEnd.CoreTakes;
    assert l.urls[Engine].path <= l.urls[Workflows].path;
  }

  /** Shared-host mode with the engine under /neops and the monitor under /neops2: every service carries a path, and
      the request for the monitor's own URL has two winners. */
  lemma OnePrefixInsideAnother() returns (q: Request)
    ensures q.host == "w" && q.path == "/neops2" && Separated(LayoutOf(TWO_PREFIXES, SHARED))
    ensures AcceptedButTied(EnvOf(TWO_PREFIXES), SHARED, q)
  {
    TwoPrefixesAccepted();
    TwoPrefixesStraddle();
    TwoPrefixesShape();
    TwoPrefixUrls();
    hide FileOf, Winners, Routers, Accepted, EnvOf, Parse, Validated, RouterOf, BuildTraefik, TWO_PREFIXES, SHARED;
    hide EndToEnd.Rivals, EndToEnd.Straddling, Separated, LayoutOf, WellFormed;
    var l := LayoutOf(TWO_PREFIXES, SHARED);
    EndToEnd.RivalsTie(l, Engine, Workflows);
    q := EndToEnd.OwnRequest(l, Workflows);
  }
}
