/** The rules `check` applies to single keys: secrets, TLS files, OIDC, addresses and logging
    (neops_compose/rules.py:74-83 and 188-303). Every loop is proved to report exactly the issues of a predicate. */
module Settings {
  import opened Wrappers
  import opened Text
  import opened EnvValues
  import opened Scenarios
  import opened PublicUrls

  datatype Fault = Unset | Placeholder | TooShort | Malformed | Unknown

  datatype Issue = Issue(name: string, fault: Fault)

  /** Python's ipaddress: what reads as an address, and what reads as a network. */
  datatype Addresses = Addresses(address: string -> bool, network: string -> bool)

  const PLACEHOLDERS: set<string> := {"changeme", "change_me", "unsafe", "password", "secret", "xxx"}
  const ON: set<string> := {"1", "true", "yes", "on"}

  const BASE_SECRETS := ["NEOPS_CMS_DB_PASSWORD", "NEOPS_ENGINE_DB_PASSWORD", "DJANGO_SECRET_KEY",
    "NEOPS_ADMIN_PASSWORD"]
  const KEYCLOAK_SECRETS := ["NEOPS_KEYCLOAK_ADMIN_PASSWORD", "NEOPS_KEYCLOAK_DB_PASSWORD"]
  const GRAFANA_ADMIN_PASSWORD := "NEOPS_GRAFANA_ADMIN_PASSWORD"
  const GENERATED_MIN_LENGTH := 16
  const TLS_FILES := ["NEOPS_TLS_CERT_FILE", "NEOPS_TLS_KEY_FILE"]
  const ACME_EMAIL := ["NEOPS_ACME_EMAIL"]
  const OIDC_KEYS := ["NEOPS_OIDC_PROVIDER_ID", "NEOPS_OIDC_NAME", "NEOPS_OIDC_CLIENT_ID", "NEOPS_OIDC_DISCOVERY_URL"]
  const OIDC_CLIENT_SECRET := ["NEOPS_OIDC_CLIENT_SECRET"]
  const PROXY_BIND_ADDRESS := "NEOPS_PROXY_BIND_ADDRESS"
  const TRUSTED_PROXY_IPS := "NEOPS_TRUSTED_PROXY_IPS"
  const LOG_BACKEND := "NEOPS_LOG_BACKEND"
  const LOG_URL := "NEOPS_LOG_URL"
  const LOG_RETENTION := "NEOPS_LOG_RETENTION"
  const REMOTE_LOG_BACKENDS: set<string> := {"victorialogs", "loki"}

  predicate Flag(env: Vals, key: string) { Lower(Strip(Get(env, key, ""))) in ON }

  /** A flag is on for four words, in any case and with blanks around, and off for anything else. */
  lemma FlagReads(env: Vals, key: string, left: string, word: string, right: string)
    requires Blank(left) && Blank(right) && Stripped(word) && word != ""
    ensures Flag(env[key := left + word + right], key) <==> Lower(word) in {"1", "true", "yes", "on"}
  {
    var raw := left + word + right;
    StripPadded(left, word, right);
    hide Strip, Blank, Stripped, Lower, ON;
    assert |raw| > 0;
    assert Get(env[key := raw], key, "") == raw;
    OnWords(Lower(word));
  }

  lemma OnWords(word: string)
    ensures word in ON <==> word in {"1", "true", "yes", "on"}
  {}

  lemma UnsetFlagIsOff(env: Vals, key: string)
    requires !IsSet(env, key)
    ensures !Flag(env, key)
  {
    StripPadded("", "", "");
    assert Strip("") == "" && Lower("") == "";
    hide Strip, Lower;
  }

  function GeneratedSecrets(s: Scenario): seq<string>
  {
    BASE_SECRETS
    + (if s.Has(KeycloakIdp) then KEYCLOAK_SECRETS else [])
    + (if s.RunsGrafana() then [GRAFANA_ADMIN_PASSWORD] else [])
  }

  // ----- required keys -----

  /** How a required key is judged: by presence, or as a secret of some length unless the operator relaxed that. */
  datatype Demand = Presence | Secret(minLength: nat)

  predicate Judged(env: Vals, demand: Demand) { demand.Secret? && !Flag(env, "NEOPS_DISABLE_SECURITY_CHECKS") }

  predicate RequiredFault(i: Issue, env: Vals, keys: seq<string>, demand: Demand)
  {
    i.name in keys &&
    match i.fault
    case Unset => !IsSet(env, i.name)
    case Placeholder => IsSet(env, i.name) && Judged(env, demand) && Lower(Strip(env[i.name])) in PLACEHOLDERS
    case TooShort =>
      && IsSet(env, i.name) && Judged(env, demand)
      && Lower(Strip(env[i.name])) !in PLACEHOLDERS && |Strip(env[i.name])| < demand.minLength
    case _ => false
  }

  /** The key is set and, where strength is asked for and checks are on, is no placeholder and long enough. */
  predicate Meets(env: Vals, key: string, demand: Demand)
  {
    IsSet(env, key) &&
    (demand.Secret? && !Flag(env, "NEOPS_DISABLE_SECURITY_CHECKS") ==>
      |Strip(env[key])| >= demand.minLength && Lower(Strip(env[key])) !in PLACEHOLDERS)
  }

  lemma FaultIff(env: Vals, keys: seq<string>, demand: Demand, key: string)
    requires key in keys
    ensures (exists i: Issue :: i.name == key && RequiredFault(i, env, keys, demand)) <==> !Meets(env, key, demand)
  {
    hide Strip, Lower, Flag, PLACEHOLDERS;
    var unset, placeholder, short := Issue(key, Unset), Issue(key, Placeholder), Issue(key, TooShort);
    if !Meets(env, key, demand) {
      assert RequiredFault(unset, env, keys, demand) || RequiredFault(placeholder, env, keys, demand)
        || RequiredFault(short, env, keys, demand);
    }
  }

  /** One issue for exactly the keys that do not meet the demand, and it says why. */
  method Required(env: Vals, keys: seq<string>, demand: Demand) returns (out: seq<Issue>)
    ensures forall i :: i in out <==> RequiredFault(i, env, keys, demand)
    ensures forall i :: i in out ==> i.name in keys
    ensures forall key :: key in keys ==> ((exists i: Issue :: i in out && i.name == key) <==> !Meets(env, key, demand))
  {
    out := RequiredIssues(env, keys, demand);
    forall key | key in keys ensures (exists i: Issue :: i in out && i.name == key) <==> !Meets(env, key, demand) {
      FaultIff(env, keys, demand, key);
    }
  }

  method RequiredIssues(env: Vals, keys: seq<string>, demand: Demand) returns (out: seq<Issue>)
    ensures forall i :: i in out <==> RequiredFault(i, env, keys, demand)
  {
    hide Strip, Flag, PLACEHOLDERS;
    out := [];
    for n := 0 to |keys|
      invariant forall i :: i in out <==> RequiredFault(i, env, keys[..n], demand)
    {
      var key := keys[n];
      assert keys[..n + 1] == keys[..n] + [key];
      if !IsSet(env, key) {
        out := out + [Issue(key, Unset)];
      } else if Judged(env, demand) {
        var value := Strip(env[key]);
        if Lower(value) in PLACEHOLDERS {
          out := out + [Issue(key, Placeholder)];
        } else if |value| < demand.minLength {
          out := out + [Issue(key, TooShort)];
        }
      }
    }
    assert keys[..|keys|] == keys;
  }

  // ----- addresses -----

  predicate AddressFault(i: Issue, env: Vals, s: Scenario, net: Addresses)
  {
    || (i == Issue(PROXY_BIND_ADDRESS, Malformed) && IsSet(env, PROXY_BIND_ADDRESS)
      && !net.address(env[PROXY_BIND_ADDRESS]))
    || (i == Issue(TRUSTED_PROXY_IPS, Malformed) && s.Has(TraefikProxy)
        && exists e :: e in TrustedProxies(env) && !net.network(e))
  }

  method AddressIssues(env: Vals, s: Scenario, net: Addresses) returns (out: seq<Issue>)
    ensures forall i :: i in out <==> AddressFault(i, env, s, net)
  {
    hide Scenario.Has, TrustedProxies, PROXY_BIND_ADDRESS, TRUSTED_PROXY_IPS;
    out := [];
    if s.Has(TraefikProxy) {
      var bad := false;
      var entries := TrustedProxies(env);
      for n := 0 to |entries|
        invariant bad <==> exists e :: e in entries[..n] && !net.network(e)
      {
        assert entries[..n + 1] == entries[..n] + [entries[n]];
        if !net.network(entries[n]) { bad := true; }
      }
      assert entries[..|entries|] == entries;
      if bad { out := out + [Issue(TRUSTED_PROXY_IPS, Malformed)]; }
    }
    if IsSet(env, PROXY_BIND_ADDRESS) && !net.address(env[PROXY_BIND_ADDRESS]) {
      out := out + [Issue(PROXY_BIND_ADDRESS, Malformed)];
    }
  }

  // ----- logging -----

  /** `$` lets a final line feed pass. */
  function HorizonText(value: string): string
  {
    if value != "" && value[|value| - 1] == '\n' then value[..|value| - 1] else value
  }

  /** ^([1-9][0-9]*)([dw])$ */
  predicate IsHorizon(value: string)
  {
    var text := HorizonText(value);
    |text| > 1 && text[|text| - 1] in "dw" && text[0] != '0' && AllDigits(text[..|text| - 1])
  }

  /** The horizon in days, where one can be read. */
  function HorizonDays(value: string): Option<int>
  {
    if !IsHorizon(value) then None
    else
      var text := HorizonText(value);
      var n := DecimalValue(text[..|text| - 1]);
      Some(if text[|text| - 1] == 'w' then 7 * n else n)
  }

  predicate LogFault(i: Issue, env: Vals, s: Scenario)
  {
    var backend := Get(env, LOG_BACKEND, "");
    || (i == Issue(LOG_BACKEND, Unknown) && backend != "" && backend !in REMOTE_LOG_BACKENDS + {"db"})
    || (i == Issue(LOG_URL, Unset) && !s.Has(Logs) && backend in REMOTE_LOG_BACKENDS && !IsSet(env, LOG_URL))
    || (i == Issue(LOG_RETENTION, Malformed) && IsSet(env, LOG_RETENTION) && !IsHorizon(env[LOG_RETENTION]))
  }

  method LogIssues(env: Vals, s: Scenario) returns (out: seq<Issue>)
    ensures forall i :: i in out <==> LogFault(i, env, s)
  {
    hide Scenario.Has, IsHorizon, LOG_BACKEND, LOG_URL, LOG_RETENTION;
    out := [];
    var backend := Get(env, LOG_BACKEND, "");
    if backend != "" && backend !in REMOTE_LOG_BACKENDS + {"db"} {
      out := out + [Issue(LOG_BACKEND, Unknown)];
    } else if !(s.Has(Logs) || backend !in REMOTE_LOG_BACKENDS || IsSet(env, LOG_URL)) {
      out := out + [Issue(LOG_URL, Unset)];
    }
    if IsSet(env, LOG_RETENTION) && !IsHorizon(env[LOG_RETENTION]) { out := out + [Issue(LOG_RETENTION, Malformed)]; }
  }

  // ----- all of them -----

  predicate OwnProvider(s: Scenario) { s.Has(Oidc) && !s.Has(KeycloakIdp) }

  predicate Faulty(i: Issue, env: Vals, s: Scenario, net: Addresses)
  {
    || RequiredFault(i, env, GeneratedSecrets(s), Secret(GENERATED_MIN_LENGTH))
    || (s.Has(TlsFiles) && !Flag(env, "NEOPS_TLS_SELF_SIGNED") && RequiredFault(i, env, TLS_FILES, Presence))
    || (s.Has(TlsAcme) && !s.Has(TlsFiles) && RequiredFault(i, env, ACME_EMAIL, Presence))
    || (OwnProvider(s) && RequiredFault(i, env, OIDC_KEYS, Presence))
    || (OwnProvider(s) && RequiredFault(i, env, OIDC_CLIENT_SECRET, Secret(0)))
    || AddressFault(i, env, s, net)
    || LogFault(i, env, s)
  }

  method Issues(env: Vals, s: Scenario, net: Addresses) returns (out: seq<Issue>)
    ensures forall i :: i in out <==> Faulty(i, env, s, net)
  {
    hide Scenario.Has, RequiredFault, AddressFault, LogFault, GeneratedSecrets, Flag;
    out := Required(env, GeneratedSecrets(s), Secret(GENERATED_MIN_LENGTH));
    if s.Has(TlsFiles) && !Flag(env, "NEOPS_TLS_SELF_SIGNED") {
      var files := Required(env, TLS_FILES, Presence);
      out := out + files;
    }
    if s.Has(TlsAcme) && !s.Has(TlsFiles) {
      var email := Required(env, ACME_EMAIL, Presence);
      out := out + email;
    }
    if OwnProvider(s) {
      var keys := Required(env, OIDC_KEYS, Presence);
      var secret := Required(env, OIDC_CLIENT_SECRET, Secret(0));
      out := out + keys + secret;
    }
    var addresses := AddressIssues(env, s, net);
    var logs := LogIssues(env, s);
    out := out + addresses + logs;
  }
}
