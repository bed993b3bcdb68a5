/** Reading .env values; a blank value counts as unset (neops_compose/env.py). */
module EnvValues {
  type Vals = map<string, string>

  predicate IsSet(env: Vals, key: string) { key in env && env[key] != "" }

  function Get(env: Vals, key: string, fallback: string): string
  {
    if IsSet(env, key) then env[key] else fallback
  }
}

/** The compose files an .env selects (neops_compose/scenario.py). */
module Scenarios {
  import opened EnvValues
  import opened Text

  const BASE_FILE := "compose.yaml"
  const OVERRIDE_FILE := "compose.override.yaml"

  datatype Overlay =
    | Expose | TraefikProxy | SharedHost | TlsFiles | TlsAcme | Oidc | KeycloakIdp | GrafanaUi | Metrics | Logs

  function FileOf(o: Overlay): string
  {
    match o
    case Expose => "compose.expose.yaml"
    case TraefikProxy => "compose.traefik.yaml"
    case SharedHost => "compose.traefik-shared-host.yaml"
    case TlsFiles => "compose.tls-files.yaml"
    case TlsAcme => "compose.tls-acme.yaml"
    case Oidc => "compose.oidc.yaml"
    case KeycloakIdp => "compose.keycloak.yaml"
    case GrafanaUi => "compose.grafana.yaml"
    case Metrics => "compose.metrics.yaml"
    case Logs => "compose.logs.yaml"
  }

  /** The stripped, non-empty parts of `raw`. */
  function Parts(raw: string, sep: string): seq<string>
    requires sep != ""
  {
    NonBlank(Split(raw, sep))
  }

  function NonBlank(parts: seq<string>): seq<string>
  {
    if parts == [] then []
    else (if Strip(parts[0]) == "" then [] else [Strip(parts[0])]) + NonBlank(parts[1..])
  }

  datatype Scenario = Scenario(files: seq<string>)
  {
    predicate Has(o: Overlay) { FileOf(o) in files }

    predicate Tls() { Has(TlsFiles) || Has(TlsAcme) }

    predicate RunsGrafana() { Has(GrafanaUi) || Has(Metrics) }

    predicate Known(file: string)
    {
      file == BASE_FILE || file == OVERRIDE_FILE || exists o: Overlay :: file == FileOf(o)
    }
  }

  function FromEnv(env: Vals): Scenario
  {
    Scenario(Parts(Get(env, "COMPOSE_FILE", BASE_FILE), Get(env, "COMPOSE_PATH_SEPARATOR", ":")))
  }

  predicate PlainParts(parts: seq<string>, sep: char)
  {
    forall p :: p in parts ==> p != "" && Stripped(p) && sep !in p
  }

  lemma {:induction false} NonBlankKeeps(parts: seq<string>, sep: char)
    requires PlainParts(parts, sep)
    ensures NonBlank(parts) == parts
  {
    if parts != [] {
      assert parts[0] in parts;
      StripIdentity(parts[0]);
      NonBlankKeeps(parts[1..], sep);
    }
  }

  lemma {:induction false} NonBlankIsPlain(parts: seq<string>, sep: char)
    requires forall p :: p in parts ==> sep !in p
    ensures PlainParts(NonBlank(parts), sep)
  {
    if parts != [] {
      assert parts[0] in parts;
      NonBlankIsPlain(parts[1..], sep);
      StripOnlyDrops(parts[0]);
    }
  }

  /** A file list survives being written back with its own separator. */
  lemma PartsRoundTrip(parts: seq<string>, sep: char)
    requires parts != [] && PlainParts(parts, sep)
    ensures Parts(Join(parts, [sep]), [sep]) == parts
  {
    SplitJoin(parts, sep);
    NonBlankKeeps(parts, sep);
  }

  /** A name with the white space around it. */
  datatype Padded = Padded(left: string, name: string, right: string)
  {
    predicate Valid(sep: char)
    {
      Blank(left) && Blank(right) && Stripped(name) && sep !in left && sep !in name && sep !in right
    }
  }

  function Texts(parts: seq<Padded>): seq<string>
  {
    seq(|parts|, i requires 0 <= i < |parts| => parts[i].left + parts[i].name + parts[i].right)
  }

  function Names(parts: seq<Padded>): seq<string>
  {
    if parts == [] then []
    else if parts[0].name == "" then Names(parts[1..])
    else [parts[0].name] + Names(parts[1..])
  }

  lemma {:induction false} NonBlankTrims(parts: seq<Padded>, sep: char)
    requires forall p :: p in parts ==> p.Valid(sep)
    ensures NonBlank(Texts(parts)) == Names(parts)
  {
    hide Strip, Stripped, Blank;
    if parts != [] {
      assert parts[0] in parts;
      StripPadded(parts[0].left, parts[0].name, parts[0].right);
      assert Texts(parts)[1..] == Texts(parts[1..]);
      NonBlankTrims(parts[1..], sep);
    }
  }

  /** A list written by hand reads as its names, without the white space around them and without blank entries. */
  lemma PartsOfPadded(parts: seq<Padded>, sep: char)
    requires parts != [] && forall p :: p in parts ==> p.Valid(sep)
    ensures Parts(Join(Texts(parts), [sep]), [sep]) == Names(parts)
  {
    NonBlankTrims(parts, sep);
    forall t | t in Texts(parts) ensures sep !in t {
      var i :| 0 <= i < |parts| && t == parts[i].left + parts[i].name + parts[i].right;
      assert parts[i] in parts;
    }
    hide Split, Join, NonBlank;
    SplitJoin(Texts(parts), sep);
  }
}
