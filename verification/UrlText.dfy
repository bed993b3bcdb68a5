/** Which texts PublicUrl.parse reads as which URL (neops_compose/urls.py:31-56), without the parser's own steps:
    how a URL may be written, and what is refused. */
module UrlText {
  import opened Wrappers
  import opened Text
  import opened Urls

  /** The freedom in writing a URL: blanks around it, capitals in scheme and host, an empty user info, a port
      that may be left out when it is the default, slashes at the end. */
  datatype Spelling = Spelling(
    left: string, scheme: string, user: string, host: string, port: string, slashes: string, right: string)

  function Written(w: Spelling, path: string): string
  {
    w.left + (w.scheme + ("://" + (Netloc(w) + (path + w.slashes)))) + w.right
  }

  function Netloc(w: Spelling): string { w.user + (w.host + w.port) }

  predicate All(s: string, c: char) { forall i :: 0 <= i < |s| ==> s[i] == c }

  /** Nothing, a colon, or a colon and digits. */
  predicate PortSpells(text: string, port: nat, scheme: Scheme)
  {
    if text in {"", ":"} then port == DefaultPort(scheme)
    else text[0] == ':' && AllDigits(text[1..]) && DecimalValue(text[1..]) == port
  }

  predicate Spells(w: Spelling, u: PublicUrl)
  {
    && All(w.left, ' ') && All(w.right, ' ') && All(w.slashes, '/')
    && Lower(w.scheme) == SchemeName(u.scheme)
    && w.user in {"", "@", ":@"}
    && Lower(w.host) == u.host
    && PortSpells(w.port, u.port, u.scheme)
  }

  // ----- the pieces -----

  lemma HostIsPlain(host: string, u: PublicUrl)
    requires WellFormed(u) && Lower(host) == u.host
    ensures host != "" && Free(host, ":/?#@ \t\r\n") && forall i :: 0 <= i < |host| ==> HostChar(host[i])
  {
    forall i | 0 <= i < |host| ensures HostChar(host[i]) && host[i] !in ":/?#@ \t\r\n" {
      assert HostChar(LowerChar(host[i])) by { assert u.host[i] == LowerChar(host[i]); }
    }
  }

  lemma PortIsPlain(text: string, port: nat, scheme: Scheme)
    requires PortSpells(text, port, scheme)
    ensures Free(text, "/?#@ \t\r\n") && (text != "" ==> text[0] == ':')
  {
    forall i | 0 <= i < |text| ensures text[i] !in "/?#@ \t\r\n" {
      if i > 0 && text != ":" { assert IsDigit(text[1..][i - 1]); }
    }
  }

  lemma PortReads(text: string, port: nat, scheme: Scheme)
    requires text != "" ==> text[0] == ':'
    ensures ParsePort(if text != "" then text[1..] else "", scheme) == Some(port)
      <==> 0 < port < 0x1_0000 && PortSpells(text, port, scheme)
  {
    assert text == ":" <==> text != "" && text[1..] == "";
    hide DecimalValue;
  }

  lemma UserIsEmpty(user: string, rest: string)
    requires '@' !in rest && (user != "" ==> user[|user| - 1] == '@')
    ensures AfterUserInfo(user + rest) == |user|
  {
    if rest == "" {
      assert user + rest == user;
    } else {
      assert (user + rest)[..|user + rest| - 1] == user + rest[..|rest| - 1];
      UserIsEmpty(user, rest[..|rest| - 1]);
    }
  }

  lemma {:induction false} UserInfoEnds(netloc: string)
    ensures var i := AfterUserInfo(netloc); (i > 0 ==> netloc[i - 1] == '@') && '@' !in netloc[i..]
  {
    if netloc != "" && netloc[|netloc| - 1] != '@' {
      var less := netloc[..|netloc| - 1];
      UserInfoEnds(less);
      assert netloc[AfterUserInfo(less)..] == less[AfterUserInfo(less)..] + [netloc[|netloc| - 1]];
    }
  }

  lemma SchemeReads(name: string, scheme: Scheme)
    ensures ParseScheme(name) == Some(scheme) <==> Lower(name) == SchemeName(scheme)
    ensures Lower(name) == SchemeName(scheme) ==> Free(name, ": \t\r\n") && name != ""
  {
    assert |"http"| != |"https"|;
    if Lower(name) == SchemeName(scheme) {
      forall i | 0 <= i < |name| ensures name[i] !in ": \t\r\n" {
        assert LowerChar(name[i]) == SchemeName(scheme)[i];
      }
    }
  }

  // ----- the authority and the path -----

  lemma AuthorityReads(scheme: Scheme, host: string, port: string, path: string, u: PublicUrl)
    requires Free(host, ":") && (port != "" ==> port[0] == ':')
    ensures ParseAuthority(scheme, host + port, path) == Success(u) <==>
      WellFormed(u) && u.scheme == scheme && u.host == Lower(host) && u.path == path && PortSpells(port, u.port, scheme)
  {
    FindAcross(host, port, ":");
    var text := host + port;
    assert text[..|host|] == host && (port != "" ==> text[|host| + 1..] == port[1..]);
    PortReads(port, u.port, scheme);
    LowerIsLower(host);
    hide ParsePort, PortSpells, PathOk;
  }

  lemma LowerIsLower(s: string)
    ensures forall i :: 0 <= i < |s| ==> LowerChar(Lower(s)[i]) == Lower(s)[i]
  {}

  lemma PathIsPlain(path: string, slashes: string)
    requires PathOk(path) && All(slashes, '/')
    ensures Free(path + slashes, "?# \t\r\n@") && (path + slashes != "" ==> (path + slashes)[0] == '/')
    ensures StripRight(path + slashes, "/") == path
  {
    StripRightPadded(path, slashes, "/");
    assert forall i :: 0 <= i < |path| ==> path[i] == '/' || PathChar(path[i]);
    hide PathOk;
    forall i | 0 <= i < |path + slashes| ensures (path + slashes)[i] !in "?# \t\r\n@" {
      if i < |path| { assert path[i] == '/' || PathChar(path[i]); }
    }
  }

  lemma NetlocEnds(scheme: Scheme, netloc: string, tail: string)
    requires Free(netloc, "/?#") && (tail != "" ==> tail[0] in "/?#")
    ensures ParseNetloc(scheme, netloc + tail) == ParseParts(scheme, netloc, tail)
  {
    hide ParseParts, Free;
    FindAcross(netloc, tail, "/?#");
    var rest := netloc + tail;
    assert rest[..|netloc|] == netloc && rest[|netloc|..] == tail;
  }

  /** User info is refused unless it is empty, a query or a fragment always. */
  lemma PartsRead(scheme: Scheme, user: string, hostinfo: string, tail: string)
    requires '@' !in hostinfo && (user != "" ==> user[|user| - 1] == '@')
    ensures ParseParts(scheme, user + hostinfo, tail)
      == if user !in {"", "@", ":@"} then Failure(UserInfo)
         else if !Free(tail, "?#") then Failure(QueryOrFragment)
         else ParseAuthority(scheme, hostinfo, StripRight(tail, "/"))
  {
    UserIsEmpty(user, hostinfo);
    hide ParseAuthority, AfterUserInfo, StripRight;
    var netloc := user + hostinfo;
    assert netloc[|user|..] == hostinfo;
    if user != "" {
      assert netloc[..|user| - 1] == user[..|user| - 1] && user == user[..|user| - 1] + "@";
      AtAfter(user[..|user| - 1]);
    }
    MarkFound(tail);
    hide Free, Find;
  }

  lemma AtAfter(user: string)
    ensures user + "@" in {"@", ":@"} <==> user in {"", ":"}
  {
    var t := user + "@";
    assert |t| == |user| + 1 && (|user| == 1 ==> t[0] == user[0]);
    assert t == ":@" ==> |user| == 1 && user[0] == ':' && user == ":";
    assert user == ":" ==> t == ":@";
    assert user == "" <==> t == "@" by { assert |user| == 0 ==> user == "" && t == "@"; }
  }

  lemma MarkFound(tail: string)
    ensures Find(tail, "?#") < |tail| <==> !Free(tail, "?#")
  {}

  // ----- what is spelled is read -----

  lemma NetlocIsPlain(w: Spelling, u: PublicUrl)
    requires WellFormed(u) && Spells(w, u)
    ensures Free(Netloc(w), "/?# \t\r\n") && '@' !in w.host + w.port && Free(w.host, ":")
    ensures w.port != "" ==> w.port[0] == ':'
  {
    HostIsPlain(w.host, u);
    PortIsPlain(w.port, u.port, u.scheme);
    hide PortSpells, Lower, WellFormed;
    FreeJoin(w.host, w.port, "/?# \t\r\n");
    FreeJoin(w.user, w.host + w.port, "/?# \t\r\n");
    forall i | 0 <= i < |w.host + w.port| ensures (w.host + w.port)[i] != '@' {}
  }

  lemma SpelledParts(w: Spelling, u: PublicUrl)
    requires Spells(w, u)
    ensures All(w.left, ' ') && All(w.right, ' ') && All(w.slashes, '/') && w.user in {"", "@", ":@"}
    ensures Lower(w.scheme) == SchemeName(u.scheme) && Lower(w.host) == u.host && PortSpells(w.port, u.port, u.scheme)
  {}

  lemma SpelledNetlocReads(w: Spelling, u: PublicUrl)
    requires WellFormed(u) && Spells(w, u)
    ensures ParseNetloc(u.scheme, Netloc(w) + (u.path + w.slashes)) == Success(u)
  {
    NetlocIsPlain(w, u);
    SpelledParts(w, u);
    PathIsPlain(u.path, w.slashes);
    AuthorityReads(u.scheme, w.host, w.port, u.path, u);
    hide PortSpells, Lower, WellFormed, PathOk, ParseAuthority, ParseNetloc, ParseParts, StripRight, Spells, All;
    var tail := u.path + w.slashes;
    NetlocEnds(u.scheme, Netloc(w), tail);
    PartsRead(u.scheme, w.user, w.host + w.port, tail);
  }

  lemma BlanksAreBlank(s: string)
    requires All(s, ' ')
    ensures Blank(s) && Free(s, "\t\r\n")
  {}

  lemma TextReads(left: string, scheme: string, rest: string, right: string)
    requires All(left, ' ') && All(right, ' ') && ParseScheme(scheme).Some? && Free(scheme, ":")
    requires Free(scheme + ("://" + rest), "\t\r\n") && Stripped(scheme + ("://" + rest))
    ensures Parse(left + (scheme + ("://" + rest)) + right) == ParseNetloc(ParseScheme(scheme).value, rest)
  {
    BlanksAreBlank(left);
    BlanksAreBlank(right);
    hide ParseNetloc, ParseScheme, Strip, ParseStripped, All, Blank, Stripped, Free;
    var t := scheme + ("://" + rest);
    SchemeSplits(scheme, ParseScheme(scheme).value, rest);
    StripPadded(left, t, right);
    FreeJoin(left, t, "\t\r\n");
    FreeJoin(left + t, right, "\t\r\n");
  }

  lemma SpelledIsRead(w: Spelling, u: PublicUrl)
    requires WellFormed(u) && Spells(w, u)
    ensures Parse(Written(w, u.path)) == Success(u)
  {
    SpelledNetlocReads(w, u);
    SpelledParts(w, u);
    SchemeReads(w.scheme, u.scheme);
    NetlocIsPlain(w, u);
    PathIsPlain(u.path, w.slashes);
    hide PortSpells, Lower, WellFormed, PathOk, ParseNetloc, ParseScheme, Netloc, Spells, All, Free, Parse;
    var tail := u.path + w.slashes;
    SchemeIsPlain(w.scheme);
    TextIsPlain(w.scheme, Netloc(w), tail);
    TextReads(w.left, w.scheme, Netloc(w) + tail, w.right);
  }

  lemma SchemeIsPlain(scheme: string)
    requires Free(scheme, ": \t\r\n")
    ensures Free(scheme, ":")
  {}

  lemma TextIsPlain(scheme: string, netloc: string, tail: string)
    requires scheme != "" && Free(scheme, ": \t\r\n") && Free(netloc, "/?# \t\r\n") && Free(tail, "?# \t\r\n@")
    ensures var t := scheme + ("://" + (netloc + tail)); Free(t, "\t\r\n") && Stripped(t)
  {
    var bad := " \t\r\n";
    FreeJoin(netloc, tail, bad);
    FreeJoin("://", netloc + tail, bad);
    FreeJoin(scheme, "://" + (netloc + tail), bad);
    var t := scheme + ("://" + (netloc + tail));
    assert Free(t, bad) && |t| > 0;
    assert t[0] !in bad && t[|t| - 1] !in bad;
  }

  // ----- what is read was spelled -----

  lemma NetlocSplits(rest: string) returns (netloc: string, tail: string)
    ensures rest == netloc + tail && forall scheme :: ParseNetloc(scheme, rest) == ParseParts(scheme, netloc, tail)
  {
    hide ParseParts;
    netloc, tail := rest[..Find(rest, "/?#")], rest[Find(rest, "/?#")..];
  }

  lemma UserSplits(netloc: string) returns (user: string, hostinfo: string)
    ensures netloc == user + hostinfo && '@' !in hostinfo && (user != "" ==> user[|user| - 1] == '@')
  {
    UserInfoEnds(netloc);
    user, hostinfo := netloc[..AfterUserInfo(netloc)], netloc[AfterUserInfo(netloc)..];
  }

  lemma PortSplits(hostinfo: string) returns (host: string, port: string)
    ensures hostinfo == host + port && Free(host, ":") && (port != "" ==> port[0] == ':')
  {
    host, port := hostinfo[..Find(hostinfo, ":")], hostinfo[Find(hostinfo, ":")..];
  }

  lemma ReadNetlocWasSpelled(scheme: Scheme, rest: string, u: PublicUrl)
      returns (user: string, host: string, port: string, slashes: string)
    requires ParseNetloc(scheme, rest) == Success(u)
    ensures rest == (user + (host + port)) + (u.path + slashes) && user in {"", "@", ":@"} && All(slashes, '/')
    ensures WellFormed(u) && u.scheme == scheme && u.host == Lower(host) && PortSpells(port, u.port, scheme)
  {
    hide ParseNetloc, ParseParts, ParseAuthority, WellFormed, PortSpells, StripRight, Lower;
    var netloc, tail := NetlocSplits(rest);
    var hostinfo;
    user, hostinfo := UserSplits(netloc);
    PartsRead(scheme, user, hostinfo, tail);
    host, port := PortSplits(hostinfo);
    AuthorityReads(scheme, host, port, StripRight(tail, "/"), u);
    slashes := StripRightDrops(tail, "/");
  }

  lemma TextSplits(t: string) returns (name: string, rest: string)
    requires ParseStripped(t).Success?
    ensures t == name + ("://" + rest) && ParseScheme(name).Some?
    ensures ParseStripped(t) == ParseNetloc(ParseScheme(name).value, rest)
  {
    hide ParseNetloc, ParseScheme;
    name, rest := t[..Find(t, ":")], t[Find(t, ":") + 3..];
  }

  lemma BlanksAreSpaces(s: string)
    requires Blank(s) && Free(s, "\t\r\n")
    ensures All(s, ' ')
  {}

  lemma FreeParts(a: string, b: string, c: string, bad: string)
    requires Free(a + b + c, bad)
    ensures Free(a, bad) && Free(c, bad)
  {
    var s := a + b + c;
    assert forall i :: 0 <= i < |a| ==> a[i] == s[i];
    assert forall i :: 0 <= i < |c| ==> c[i] == s[|a + b| + i];
  }

  lemma ReadWasSpelled(raw: string, u: PublicUrl) returns (w: Spelling)
    requires Parse(raw) == Success(u)
    ensures WellFormed(u) && Spells(w, u) && raw == Written(w, u.path)
  {
    hide Strip, Free, Blank, PortSpells, Lower, WellFormed, ParseStripped, ParseNetloc, ParseScheme, All, Stripped;
    var left, right := StripDrops(raw);
    FreeParts(left, Strip(raw), right, "\t\r\n");
    BlanksAreSpaces(left);
    BlanksAreSpaces(right);
    var name, rest := TextSplits(Strip(raw));
    var user, host, port, slashes := ReadNetlocWasSpelled(ParseScheme(name).value, rest, u);
    SchemeReads(name, u.scheme);
    w := Spelling(left, name, user, host, port, slashes, right);
  }

  /** The grammar: a text is read as `u` exactly when `u` is well formed and the text is one of its spellings. */
  lemma ParseIff(raw: string, u: PublicUrl)
    ensures Parse(raw) == Success(u) <==> WellFormed(u) && exists w :: Spells(w, u) && raw == Written(w, u.path)
  {
    hide Parse, WellFormed, Spells;
    if Parse(raw) == Success(u) {
      var w := ReadWasSpelled(raw, u);
    }
    if WellFormed(u) {
      if w :| Spells(w, u) && raw == Written(w, u.path) { SpelledIsRead(w, u); }
    }
  }

  // ----- in particular -----

  lemma LowerSpelling(u: PublicUrl, port: string, slashes: string, left: string, right: string)
    requires WellFormed(u) && PortSpells(port, u.port, u.scheme)
    requires All(slashes, '/') && All(left, ' ') && All(right, ' ')
    ensures Spells(Spelling(left, SchemeName(u.scheme), "", u.host, port, slashes, right), u)
  {
    var name := SchemeName(u.scheme);
    assert Lower(name) == name && Lower(u.host) == u.host;
    hide PortSpells, PathOk;
  }

  lemma PortWritten(port: nat, scheme: Scheme)
    ensures PortSpells(":" + Decimal(port), port, scheme)
    ensures PortSpells(if port == DefaultPort(scheme) then "" else ":" + Decimal(port), port, scheme)
  {
    hide Decimal, DecimalValue;
    assert (":" + Decimal(port))[1..] == Decimal(port);
  }

  /** Slashes at the end and blanks around do not matter. */
  lemma LooseSpelling(u: PublicUrl, slashes: string, left: string, right: string)
    requires WellFormed(u) && All(slashes, '/') && All(left, ' ') && All(right, ' ')
    ensures Parse(left + (Print(u) + slashes) + right) == Success(u)
  {
    var port := if u.port == DefaultPort(u.scheme) then "" else ":" + Decimal(u.port);
    PortWritten(u.port, u.scheme);
    LowerSpelling(u, port, slashes, left, right);
    var w := Spelling(left, SchemeName(u.scheme), "", u.host, port, slashes, right);
    hide WellFormed, Decimal, Parse, Spells, All;
    SpelledIsRead(w, u);
    Regroup(SchemeName(u.scheme), u.host, port, u.path, slashes);
  }

  lemma Regroup(name: string, host: string, port: string, path: string, slashes: string)
    ensures name + ("://" + (("" + (host + port)) + (path + slashes))) == name + "://" + host + port + path + slashes
  {}

  /** The port may be written out, the default one too, and scheme and host in capitals. */
  lemma FullSpelling(u: PublicUrl, scheme: string, host: string)
    requires WellFormed(u) && Lower(scheme) == SchemeName(u.scheme) && Lower(host) == u.host
    ensures Parse(scheme + "://" + host + (":" + Decimal(u.port)) + u.path) == Success(u)
  {
    PortWritten(u.port, u.scheme);
    var port := ":" + Decimal(u.port);
    var w := Spelling("", scheme, "", host, port, "", "");
    hide WellFormed, Decimal, Parse, PortSpells, Lower;
    SpelledIsRead(w, u);
    Regroup(scheme, host, port, u.path, "");
    var t := scheme + ("://" + (("" + (host + port)) + (u.path + "")));
    assert Written(w, u.path) == "" + t + "" == t;
    assert scheme + "://" + host + port + u.path + "" == scheme + "://" + host + port + u.path;
  }

  /** A query, a fragment, a tab or a line break is refused wherever it stands. */
  lemma MarksAreRefused(raw: string)
    requires !Free(raw, MARKS)
    ensures Parse(raw).Failure?
  {
    if Parse(raw).Success? {
      var u := Parse(raw).value;
      hide Parse, WellFormed, Spells;
      var w := ReadWasSpelled(raw, u);
      MarksAreNowhere(w, u);
      assert false;
    }
  }

  const MARKS := "?#\t\r\n"

  lemma PiecesHaveNoMarks(w: Spelling, u: PublicUrl)
    requires WellFormed(u) && Spells(w, u)
    ensures Free(Netloc(w), MARKS) && Free(u.path + w.slashes, MARKS) && Free("://", MARKS)
    ensures Free(w.left, MARKS) && Free(w.right, MARKS) && Free(w.scheme, MARKS)
  {
    SpelledParts(w, u);
    NetlocIsPlain(w, u);
    PathIsPlain(u.path, w.slashes);
    SchemeHasNoMarks(w.scheme, u.scheme);
    hide Netloc, WellFormed, Spells, PathOk, PortSpells, Lower;
  }

  lemma MarksAreNowhere(w: Spelling, u: PublicUrl)
    requires WellFormed(u) && Spells(w, u)
    ensures Free(Written(w, u.path), MARKS)
  {
    PiecesHaveNoMarks(w, u);
    hide Netloc, WellFormed, Spells, Free, All, PathOk, PortSpells, MARKS;
    var netloc, tail := Netloc(w), u.path + w.slashes;
    FreeJoin(netloc, tail, MARKS);
    FreeJoin("://", netloc + tail, MARKS);
    FreeJoin(w.scheme, "://" + (netloc + tail), MARKS);
    FreeJoin(w.left, w.scheme + ("://" + (netloc + tail)), MARKS);
    FreeJoin(w.left + (w.scheme + ("://" + (netloc + tail))), w.right, MARKS);
  }

  lemma SchemeHasNoMarks(name: string, scheme: Scheme)
    requires Lower(name) == SchemeName(scheme)
    ensures Free(name, MARKS)
  {
    forall i | 0 <= i < |name| ensures name[i] !in MARKS {
      assert LowerChar(name[i]) == SchemeName(scheme)[i];
    }
  }

  lemma UserIsNotEmpty(user: string)
    requires user !in {"", ":"}
    ensures user + "@" !in {"", "@", ":@"} && (user + "@")[|user + "@"| - 1] == '@'
  {
    AtAfter(user);
  }

  /** Behind a scheme and before a path, user info is refused unless it is empty. */
  lemma UserInfoIsRefused(scheme: Scheme, user: string, hostinfo: string, tail: string)
    requires Free(user + "@" + hostinfo, "/?#") && '@' !in hostinfo && (tail != "" ==> tail[0] == '/')
    requires user !in {"", ":"}
    ensures ParseNetloc(scheme, user + "@" + hostinfo + tail).Failure?
  {
    hide ParseParts, ParseNetloc, Free, Find, ParseAuthority, StripRight;
    UserIsNotEmpty(user);
    NetlocEnds(scheme, user + "@" + hostinfo, tail);
    PartsRead(scheme, user + "@", hostinfo, tail);
  }

  lemma PortTextIsPlain(port: nat)
    ensures var text := ":" + Decimal(port); text[1..] == Decimal(port) && Free(text, "/?#") && '@' !in text
  {
    hide Decimal, DecimalValue;
  }

  lemma PortIsExact(port: nat, other: nat, scheme: Scheme)
    requires PortSpells(":" + Decimal(port), other, scheme)
    ensures other == port
  {
    var text := ":" + Decimal(port);
    hide Decimal, DecimalValue;
    assert text[1..] == Decimal(port) && text != ":" && text != "";
  }

  lemma BadAuthority(scheme: Scheme, host: string, port: nat, path: string)
    requires Free(host, ":") && !(0 < port < 0x1_0000)
    ensures ParseAuthority(scheme, host + (":" + Decimal(port)), path).Failure?
  {
    hide ParseAuthority, Decimal;
    var text := ":" + Decimal(port);
    var r := ParseAuthority(scheme, host + text, path);
    if r.Success? {
      AuthorityReads(scheme, host, text, path, r.value);
      PortIsExact(port, r.value.port, scheme);
      assert false;
    }
  }

  /** Port 0 and ports above 65535 are refused. */
  lemma BadPortIsRefused(scheme: Scheme, host: string, port: nat, tail: string)
    requires Free(host, "/?#") && Free(host, ":") && '@' !in host && (tail != "" ==> tail[0] == '/')
    requires !(0 < port < 0x1_0000)
    ensures ParseNetloc(scheme, host + (":" + Decimal(port)) + tail).Failure?
  {
    var text := ":" + Decimal(port);
    PortTextIsPlain(port);
    BadAuthority(scheme, host, port, StripRight(tail, "/"));
    FreeJoin(host, text, "/?#");
    assert '@' !in host + text && "" + (host + text) == host + text;
    hide Decimal, ParseNetloc, ParseParts, ParseAuthority, StripRight, Free, Find;
    NetlocEnds(scheme, host + text, tail);
    PartsRead(scheme, "", host + text, tail);
  }
}
