/** Public URLs: parsing, printing and origins (neops_compose/urls.py). */
module Urls {
  import opened Wrappers
  import opened Text

  datatype Scheme = Http | Https

  function SchemeName(s: Scheme): string
  {
    match s
    case Http => "http"
    case Https => "https"
  }

  function DefaultPort(s: Scheme): nat
  {
    match s
    case Http => 80
    case Https => 443
  }

  /** `path` is "" or "/a/b", never with a trailing slash. */
  datatype PublicUrl = PublicUrl(scheme: Scheme, host: string, port: nat, path: string)

  datatype BadUrl = ControlCharacter | BadScheme | UserInfo | QueryOrFragment | BadHost | BadPath | BadPort

  predicate IsAlnum(c: char) { 'a' <= c <= 'z' || 'A' <= c <= 'Z' || IsDigit(c) }

  predicate HostChar(c: char) { IsAlnum(c) || c in ".-" }

  predicate PathChar(c: char) { IsAlnum(c) || c in "._~-" }

  /** ^(/[A-Za-z0-9._~-]+)*$ */
  predicate PathOk(p: string)
  {
    p != "" ==>
      && p[0] == '/' && p[|p| - 1] != '/'
      && (forall i :: 0 <= i < |p| ==> p[i] == '/' || PathChar(p[i]))
      && (forall i :: 0 < i < |p| ==> p[i - 1] == '/' ==> p[i] != '/')
  }

  /** What `Parse` returns and everything downstream relies on. */
  predicate WellFormed(u: PublicUrl)
  {
    && u.host != "" && (forall i :: 0 <= i < |u.host| ==> HostChar(u.host[i]) && LowerChar(u.host[i]) == u.host[i])
    && 0 < u.port < 0x1_0000
    && PathOk(u.path)
  }

  /** The index just after the last '@', or 0: urlsplit's rpartition. */
  function AfterUserInfo(netloc: string): (i: nat)
    ensures i <= |netloc|
    ensures '@' !in netloc ==> i == 0
  {
    if netloc == "" then 0
    else if netloc[|netloc| - 1] == '@' then |netloc|
    else AfterUserInfo(netloc[..|netloc| - 1])
  }

  function ParseScheme(s: string): Option<Scheme>
  {
    if Lower(s) == "http" then Some(Http) else if Lower(s) == "https" then Some(Https) else None
  }

  /** None is "invalid port", for text that is no number, is above 65535 or is 0. */
  function ParsePort(text: string, scheme: Scheme): Option<nat>
  {
    if text == "" then Some(DefaultPort(scheme))
    else if !AllDigits(text) then None
    else
      var port := DecimalValue(text);
      if 0 < port < 0x1_0000 then Some(port) else None
  }

  /** host[:port], with the user info already cut off. */
  function ParseAuthority(scheme: Scheme, hostinfo: string, path: string): (r: Result<PublicUrl, BadUrl>)
    ensures r.Success? ==> WellFormed(r.value)
  {
    var colon := Find(hostinfo, ":");
    var host := Lower(hostinfo[..colon]);
    if host == "" || exists i :: 0 <= i < |host| && !HostChar(host[i]) then Failure(BadHost)
    else if !PathOk(path) then Failure(BadPath)
    else
      match ParsePort(if colon < |hostinfo| then hostinfo[colon + 1..] else "", scheme)
      case None => Failure(BadPort)
      case Some(port) => Success(PublicUrl(scheme, host, port, path))
  }

  /** The authority, and the path with whatever follows it. */
  function ParseParts(scheme: Scheme, netloc: string, tail: string): (r: Result<PublicUrl, BadUrl>)
    ensures r.Success? ==> WellFormed(r.value)
  {
    var userEnd := AfterUserInfo(netloc);
    if userEnd > 0 && netloc[..userEnd - 1] !in {"", ":"} then Failure(UserInfo)
    else if Find(tail, "?#") < |tail| then Failure(QueryOrFragment)
    else ParseAuthority(scheme, netloc[userEnd..], StripRight(tail, "/"))
  }

  /** What follows "scheme://". */
  function ParseNetloc(scheme: Scheme, rest: string): (r: Result<PublicUrl, BadUrl>)
    ensures r.Success? ==> WellFormed(r.value)
  {
    var end := Find(rest, "/?#");
    ParseParts(scheme, rest[..end], rest[end..])
  }

  /** urlsplit on stripped text: the scheme ends at the first colon, an authority must follow. */
  function ParseStripped(t: string): (r: Result<PublicUrl, BadUrl>)
    ensures r.Success? ==> WellFormed(r.value)
  {
    var colon := Find(t, ":");
    if colon == |t| || ParseScheme(t[..colon]).None? then Failure(BadScheme)
    else if |t| < colon + 3 || t[colon + 1] != '/' || t[colon + 2] != '/' then Failure(BadHost)
    else ParseNetloc(ParseScheme(t[..colon]).value, t[colon + 3..])
  }

  /** PublicUrl.parse */
  function Parse(raw: string): (r: Result<PublicUrl, BadUrl>)
    ensures r.Success? ==> WellFormed(r.value)
  {
    if Free(raw, "\t\r\n") then ParseStripped(Strip(raw)) else Failure(ControlCharacter)
  }

  function Origin(u: PublicUrl): string
  {
    SchemeName(u.scheme) + "://" + u.host + (if u.port == DefaultPort(u.scheme) then "" else ":" + Decimal(u.port))
  }

  predicate SameOrigin(u: PublicUrl, v: PublicUrl) { Origin(u) == Origin(v) }

  function Print(u: PublicUrl): string { Origin(u) + u.path }

  /** The authority part of an origin. */
  function Authority(u: PublicUrl): string
  {
    u.host + (if u.port == DefaultPort(u.scheme) then "" else ":" + Decimal(u.port))
  }

  lemma AuthorityIsPlain(u: PublicUrl)
    requires WellFormed(u)
    ensures Free(u.host, ":") && Free(Authority(u), "/?#@ \t\r\n")
  {
    hide Decimal;
    if u.port != DefaultPort(u.scheme) {
      FreeJoin(":", Decimal(u.port), "/?#@ \t\r\n");
      FreeJoin(u.host, ":" + Decimal(u.port), "/?#@ \t\r\n");
      assert Authority(u) == u.host + (":" + Decimal(u.port));
    } else {
      assert Authority(u) == u.host;
    }
  }

  lemma AuthorityParses(u: PublicUrl)
    requires WellFormed(u)
    ensures ParseAuthority(u.scheme, Authority(u), u.path) == Success(u)
  {
    AuthorityIsPlain(u);
    assert Lower(u.host) == u.host;
    var port := if u.port == DefaultPort(u.scheme) then "" else ":" + Decimal(u.port);
    FindAcross(u.host, port, ":");
    assert Authority(u) == u.host + port && Authority(u)[..|u.host|] == u.host;
    if port != "" {
      assert Authority(u)[|u.host| + 1..] == Decimal(u.port);
    }
  }

  lemma PrintIsPlain(u: PublicUrl)
    requires WellFormed(u)
    ensures Free(Print(u), " \t\r\n")
  {
    AuthorityIsPlain(u);
    var name := SchemeName(u.scheme) + "://";
    FreeJoin(name, Authority(u), " \t\r\n");
    FreeJoin(name + Authority(u), u.path, " \t\r\n");
    assert Print(u) == name + Authority(u) + u.path;
  }

  lemma NetlocParses(u: PublicUrl)
    requires WellFormed(u)
    ensures ParseNetloc(u.scheme, Authority(u) + u.path) == Success(u)
  {
    hide ParseAuthority, Authority;
    var a := Authority(u);
    AuthorityIsPlain(u);
    FindAcross(a, u.path, "/?#");
    assert (a + u.path)[..|a|] == a && (a + u.path)[|a|..] == u.path;
    FindAcross(u.path, "", "?#");
    assert u.path + "" == u.path && a[0..] == a;
    AuthorityParses(u);
  }

  lemma SchemeNameParses(s: Scheme)
    ensures ParseScheme(SchemeName(s)) == Some(s) && Free(SchemeName(s), ":")
  {
    assert Lower(SchemeName(s)) == SchemeName(s);
  }

  lemma SchemeSplits(name: string, scheme: Scheme, rest: string)
    requires ParseScheme(name) == Some(scheme) && Free(name, ":")
    ensures ParseStripped(name + ("://" + rest)) == ParseNetloc(scheme, rest)
  {
    hide ParseNetloc, ParseScheme;
    var t := name + ("://" + rest);
    FindAcross(name, "://" + rest, ":");
    assert t[..|name|] == name && t[|name| + 3..] == rest;
  }

  /** str() of a well-formed URL parses back to the URL itself. */
  lemma PrintParses(u: PublicUrl)
    requires WellFormed(u)
    ensures Parse(Print(u)) == Success(u)
  {
    hide ParseStripped, ParseNetloc, ParseScheme, Strip;
    var name, rest := SchemeName(u.scheme), Authority(u) + u.path;
    assert Print(u) == name + ("://" + rest);
    PrintIsPlain(u);
    StripIdentity(Print(u));
    SchemeNameParses(u.scheme);
    SchemeSplits(name, u.scheme, rest);
    NetlocParses(u);
  }

  /** parse(str(u)) == u for every URL `parse` returns. */
  lemma ParsePrintRoundTrip(raw: string)
    requires Parse(raw).Success?
    ensures Parse(Print(Parse(raw).value)) == Parse(raw)
  {
    PrintParses(Parse(raw).value);
  }

  lemma OriginParses(u: PublicUrl)
    requires WellFormed(u)
    ensures Parse(Origin(u)) == Success(u.(path := ""))
  {
    hide Parse, Decimal;
    var bare := u.(path := "");
    PrintParses(bare);
    assert Print(bare) == Origin(bare) == Origin(u);
  }

  /** Comparing printed origins is comparing (scheme, host, port), section 5 of RFC 6454,
      although the default port is left out of the text. */
  lemma SameOriginIffTripleEqual(u: PublicUrl, v: PublicUrl)
    requires WellFormed(u) && WellFormed(v)
    ensures SameOrigin(u, v) <==> u.scheme == v.scheme && u.host == v.host && u.port == v.port
  {
    OriginParses(u);
    OriginParses(v);
    if SameOrigin(u, v) {
      assert u.(path := "") == v.(path := "");
    }
  }
}
