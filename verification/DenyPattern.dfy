/** The worker deny pattern as a regular expression, and the routes Express would match
    (neops_compose/traefik_model.py:61-66, neops_compose/routes.py:11-46). */
module DenyPattern {
  import opened Text

  datatype Re =
    | Exact(text: string)    // re.escape'd text
    | Fold(text: string)     // a literal under (?i:...)
    | AnyChar                // `.`: everything but a line feed
    | NotSlash               // `[^/]`
    | Then(first: Re, second: Re)
    | Or(left: Re, right: Re)
    | Maybe(re: Re)
    | Many(re: Re)

  /** The whole of `s` is in the language of `re`: what ^...$ asks for. */
  ghost predicate Accepts(re: Re, s: string)
    decreases re, |s|
  {
    match re
    case Exact(t) => s == t
    case Fold(t) => Lower(s) == Lower(t)
    case AnyChar => |s| == 1 && s[0] != '\n'
    case NotSlash => |s| == 1 && s[0] != '/'
    case Then(a, b) => exists i :: 0 <= i <= |s| && Accepts(a, s[..i]) && Accepts(b, s[i..])
    case Or(a, b) => Accepts(a, s) || Accepts(b, s)
    case Maybe(a) => s == "" || Accepts(a, s)
    case Many(a) => s == "" || exists i :: 0 < i <= |s| && Accepts(a, s[..i]) && Accepts(re, s[i..])
  }

  // The fragments of ENGINE_PUBLIC_WORKER_ROUTES.
  const JOB := Then(Fold("blackboard/job"), Maybe(Then(Fold("/"), Many(AnyChar))))
  const REGISTER := Fold("workers/register")
  const WORKER_ACTION :=
    Then(Fold("workers/"),
      Then(Then(NotSlash, Many(NotSlash)), Then(Fold("/"), Or(Fold("ping"), Or(Fold("unregister"), Fold("logs"))))))
  const BLOCKS := Fold("function-blocks/register")
  const ROUTES := Or(JOB, Or(REGISTER, Or(WORKER_ACTION, BLOCKS)))

  /** ^<prefix>(?i:/(<routes>)/?)$ */
  function Pattern(prefix: string): Re
  {
    Then(Exact(prefix), Then(Fold("/"), Then(ROUTES, Maybe(Fold("/")))))
  }

  // ----- what Express matches -----

  const ACTIONS: set<string> := {"ping", "unregister", "logs"}

  predicate ActionRoute(g: seq<string>) { |g| == 3 && g[0] == "workers" && g[1] != "" && g[2] in ACTIONS }

  predicate WorkerRoute(segments: seq<string>)
  {
    || (|segments| >= 2 && segments[0] == "blackboard" && segments[1] == "job")
    || segments == ["workers", "register"]
    || ActionRoute(segments)
    || segments == ["function-blocks", "register"]
  }

  function DropSlash(s: string): string
  {
    if s != "" && s[|s| - 1] == '/' then s[..|s| - 1] else s
  }

  /** Express on `path`: case-insensitive segments after the leading slash, one trailing slash tolerated. */
  predicate ExpressWorker(path: string)
  {
    path != "" && path[0] == '/' && WorkerRoute(Split(Lower(DropSlash(path[1..])), "/"))
  }

  // ----- the language of each piece -----

  lemma LowerSlices(s: string, i: nat)
    requires i <= |s|
    ensures Lower(s)[..i] == Lower(s[..i]) && Lower(s)[i..] == Lower(s[i..])
  {}

  lemma FoldFirst(t: string, b: Re, s: string)
    ensures Accepts(Then(Fold(t), b), s) <==> |t| <= |s| && Lower(s[..|t|]) == Lower(t) && Accepts(b, s[|t|..])
  {
    if Accepts(Then(Fold(t), b), s) {
      var i :| 0 <= i <= |s| && Accepts(Fold(t), s[..i]) && Accepts(b, s[i..]);
      assert |Lower(s[..i])| == i;
    }
  }

  lemma ExactFirst(t: string, b: Re, s: string)
    ensures Accepts(Then(Exact(t), b), s) <==> t <= s && Accepts(b, s[|t|..])
  {
    if t <= s && Accepts(b, s[|t|..]) {
      assert s[..|t|] == t;
    }
  }

  lemma {:induction false} AnyText(s: string)
    ensures Accepts(Many(AnyChar), s) <==> '\n' !in s
    decreases |s|
  {
    if s != "" {
      AnyText(s[1..]);
      assert s == [s[0]] + s[1..];
      if '\n' !in s {
        assert Accepts(AnyChar, s[..1]);
      }
    }
  }

  lemma {:induction false} NoSlashes(s: string)
    ensures Accepts(Many(NotSlash), s) <==> '/' !in s
    decreases |s|
  {
    if s != "" {
      NoSlashes(s[1..]);
      assert s == [s[0]] + s[1..];
      if '/' !in s {
        assert Accepts(NotSlash, s[..1]);
      }
    }
  }

  lemma OneSegment(s: string)
    ensures Accepts(Then(NotSlash, Many(NotSlash)), s) <==> s != "" && '/' !in s
  {
    if Accepts(Then(NotSlash, Many(NotSlash)), s) {
      var i :| 0 <= i <= |s| && Accepts(NotSlash, s[..i]) && Accepts(Many(NotSlash), s[i..]);
      NoSlashes(s[i..]);
      assert s == s[..i] + s[i..];
    }
    if s != "" && '/' !in s {
      NoSlashes(s[1..]);
      assert Accepts(NotSlash, s[..1]);
    }
  }

  lemma SlashOnly(s: string)
    ensures Accepts(Fold("/"), s) <==> s == "/"
  {
    if Lower(s) == Lower("/") {
      assert |s| == 1 && LowerChar(s[0]) == '/';
    }
  }

  lemma MaybeSlash(s: string)
    ensures Accepts(Maybe(Fold("/")), s) <==> s == "" || s == "/"
  {
    SlashOnly(s);
  }

  /** The optional slash at the end: the pattern accepts the text with or without one. */
  lemma SlashLast(re: Re, s: string)
    ensures Accepts(Then(re, Maybe(Fold("/"))), s) <==>
      Accepts(re, s) || (s != "" && s[|s| - 1] == '/' && Accepts(re, s[..|s| - 1]))
  {
    hide Accepts;
    if Accepts(Then(re, Maybe(Fold("/"))), s) {
      SlashLastOnly(re, s);
    }
    if Accepts(re, s) {
      assert s[..|s|] == s && s[|s|..] == "";
      SplitAccepts(re, s, |s|);
    }
    if s != "" && s[|s| - 1] == '/' && Accepts(re, s[..|s| - 1]) {
      assert s[|s| - 1..] == "/";
      SplitAccepts(re, s, |s| - 1);
    }
  }

  lemma SlashLastOnly(re: Re, s: string)
    requires Accepts(Then(re, Maybe(Fold("/"))), s)
    ensures Accepts(re, s) || (s != "" && s[|s| - 1] == '/' && Accepts(re, s[..|s| - 1]))
  {
    var i :| 0 <= i <= |s| && Accepts(re, s[..i]) && Accepts(Maybe(Fold("/")), s[i..]);
    MaybeSlash(s[i..]);
    hide Accepts;
    if s[i..] == "" {
      assert s[..i] == s;
    } else {
      assert s[i..] == "/" && |s| - i == 1 && s[i] == '/';
      assert s[..i] == s[..|s| - 1];
    }
  }

  lemma SplitAccepts(re: Re, s: string, i: nat)
    requires i <= |s| && Accepts(re, s[..i]) && s[i..] in {"", "/"}
    ensures Accepts(Then(re, Maybe(Fold("/"))), s)
  {
    MaybeSlash(s[i..]);
  }

  // ----- each route, on the text after the leading slash -----

  lemma SegmentsAre(l: string, parts: seq<string>)
    requires parts != [] && forall p :: p in parts ==> '/' !in p
    ensures Split(l, "/") == parts <==> l == Join(parts, "/")
  {
    SplitJoin(parts, '/');
    JoinSplit(l, '/');
  }

  lemma LowerLiterals()
    ensures Lower("blackboard/job") == "blackboard/job"
    ensures Lower("workers/") == "workers/" && Lower("workers/register") == "workers/register"
    ensures Lower("function-blocks/register") == "function-blocks/register"
    ensures Lower("ping") == "ping" && Lower("unregister") == "unregister" && Lower("logs") == "logs"
  {}

  lemma LiteralRoute(text: string, parts: seq<string>, s: string)
    requires Lower(text) == text == Join(parts, "/")
    requires parts != [] && forall p :: p in parts ==> '/' !in p
    ensures Accepts(Fold(text), s) <==> Split(Lower(s), "/") == parts
  {
    SegmentsAre(Lower(s), parts);
  }

  lemma JobTail(r: string)
    ensures Accepts(Maybe(Then(Fold("/"), Many(AnyChar))), r) <==> r == "" || (r[0] == '/' && '\n' !in r[1..])
  {
    FoldFirst("/", Many(AnyChar), r);
    if r != "" {
      SlashOnly(r[..1]);
      AnyText(r[1..]);
    }
  }

  lemma JobText(s: string)
    requires '\n' !in s
    ensures Accepts(JOB, s) <==> (Lower(s) == "blackboard/job" || "blackboard/job/" <= Lower(s))
  {
    var t := "blackboard/job";
    LowerLiterals();
    hide Lower, Accepts;
    FoldFirst(t, Maybe(Then(Fold("/"), Many(AnyChar))), s);
    if |t| <= |s| {
      LowerSlices(s, |t|);
      JobTail(s[|t|..]);
      PrefixAndSlash(Lower(s), t);
    }
  }

  lemma PrefixAndSlash(l: string, t: string)
    requires |t| <= |l|
    ensures l == t || t + "/" <= l <==> l[..|t|] == t && (l[|t|..] == "" || l[|t|] == '/')
  {
    if l[..|t|] == t {
      assert l == t + l[|t|..];
    }
  }

  lemma TwoSegments(a: string, b: string, rest: string)
    requires '/' !in a && '/' !in b
    ensures Split(a + "/" + b, "/") == [a, b]
    ensures Split(a + "/" + (b + "/" + rest), "/") == [a, b] + Split(rest, "/")
  {
    hide Split;
    SegmentsAre(a + "/" + b, [a, b]);
    SplitFirst(b, rest, '/');
    SplitFirst(a, b + "/" + rest, '/');
  }

  lemma TwoSegmentsOnly(g: seq<string>)
    requires |g| >= 2
    ensures Join(g, "/") == if |g| == 2 then g[0] + "/" + g[1] else g[0] + "/" + (g[1] + "/" + Join(g[2..], "/"))
  {
    if |g| > 2 {
      assert g[1..][1..] == g[2..];
    }
  }

  lemma JobSegments(s: string)
    requires '\n' !in s
    ensures Accepts(JOB, s) <==>
      var g := Split(Lower(s), "/"); |g| >= 2 && g[0] == "blackboard" && g[1] == "job"
  {
    hide Split, Lower, Accepts;
    var l, g := Lower(s), Split(Lower(s), "/");
    JobText(s);
    JobWords();
    if Accepts(JOB, s) {
      var rest := if |l| > 15 then l[15..] else "";
      TwoSegments("blackboard", "job", rest);
      assert l == "blackboard/job" || l == "blackboard/job/" + rest;
    }
    if |g| >= 2 && g[0] == "blackboard" && g[1] == "job" {
      JoinSplit(l, '/');
      TwoSegmentsOnly(g);
    }
  }

  lemma JobWords()
    ensures "blackboard" + "/" + "job" == "blackboard/job"
    ensures forall r: string :: "blackboard" + "/" + ("job" + "/" + r) == "blackboard/job/" + r
  {}

  const ACTION := Or(Fold("ping"), Or(Fold("unregister"), Fold("logs")))

  lemma ActionText(y: string)
    ensures Accepts(ACTION, y) <==> Lower(y) in ACTIONS
  {
    hide Lower;
    LowerLiterals();
    assert Accepts(ACTION.right, y) <==> Accepts(Fold("unregister"), y) || Accepts(Fold("logs"), y);
  }

  /** workers/<x>/<action>, cut at the end of x. */
  predicate ActionAt(s: string, i: nat)
  {
    && 8 < i < |s| && Lower(s[..8]) == "workers/" && '/' !in s[8..i]
    && s[i] == '/' && Lower(s[i + 1..]) in ACTIONS
  }

  const NAME := Then(NotSlash, Many(NotSlash))

  lemma ActionFirst(s: string)
    ensures Accepts(WORKER_ACTION, s) <==>
      |s| >= 8 && Lower(s[..8]) == "workers/" && Accepts(Then(NAME, Then(Fold("/"), ACTION)), s[8..])
  {
    hide Lower, Accepts;
    LowerLiterals();
    FoldFirst("workers/", Then(NAME, Then(Fold("/"), ACTION)), s);
  }

  lemma ActionCut(s: string)
    ensures Accepts(WORKER_ACTION, s) <==> exists i: nat :: ActionAt(s, i)
  {
    hide Accepts;
    ActionFirst(s);
    if Accepts(WORKER_ACTION, s) {
      var i := ActionCutAt(s);
    }
    if i: nat :| ActionAt(s, i) {
      ActionAtAccepts(s, i);
    }
  }

  lemma ActionCutAt(s: string) returns (i: nat)
    requires |s| >= 8 && Lower(s[..8]) == "workers/" && Accepts(Then(NAME, Then(Fold("/"), ACTION)), s[8..])
    ensures ActionAt(s, i)
  {
    hide Lower;
    var r := s[8..];
    var k :| 0 <= k <= |r| && Accepts(NAME, r[..k]) && Accepts(Then(Fold("/"), ACTION), r[k..]);
    ActionTail(r, k);
    i := 8 + k;
    assert r[..k] == s[8..i] && r[k + 1..] == s[i + 1..];
  }

  lemma ActionAtAccepts(s: string, i: nat)
    requires ActionAt(s, i)
    ensures Accepts(Then(NAME, Then(Fold("/"), ACTION)), s[8..])
  {
    hide Lower;
    var r := s[8..];
    assert r[..i - 8] == s[8..i] && r[i - 8..] == s[i..] && s[i..][1..] == s[i + 1..] && r[i - 8 + 1..] == s[i + 1..];
    ActionTail(r, i - 8);
  }

  lemma ActionTail(r: string, i: nat)
    requires i <= |r|
    ensures Accepts(Then(NotSlash, Many(NotSlash)), r[..i]) <==> i > 0 && '/' !in r[..i]
    ensures Accepts(Then(Fold("/"), ACTION), r[i..]) <==> i < |r| && r[i] == '/' && Lower(r[i + 1..]) in ACTIONS
  {
    OneSegment(r[..i]);
    FoldFirst("/", ACTION, r[i..]);
    if i < |r| {
      SlashOnly(r[i..][..1]);
      assert r[i..][1..] == r[i + 1..];
      ActionText(r[i + 1..]);
    }
  }

  lemma LowerAround(s: string, i: nat)
    requires 8 <= i < |s| && s[i] == '/'
    ensures Lower(s) == Lower(s[..8]) + (Lower(s[8..i]) + ("/" + Lower(s[i + 1..])))
    ensures '/' in Lower(s[8..i]) ==> '/' in s[8..i]
  {
    var x := Lower(s[8..i]);
    if '/' in x {
      var k :| 0 <= k < |x| && x[k] == '/';
      assert s[8..i][k] == '/';
    }
  }

  lemma ActionCutSplits(s: string, i: nat)
    requires ActionAt(s, i)
    ensures ActionRoute(Split(Lower(s), "/"))
  {
    hide Split, Lower;
    var x, y := Lower(s[8..i]), Lower(s[i + 1..]);
    LowerAround(s, i);
    assert "workers/" == "workers" + "/";
    assert Lower(s) == "workers" + "/" + (x + "/" + y);
    assert '/' !in y by { NoSlashInActions(y); }
    assert Split(y, "/") == [y] by { SegmentsAre(y, [y]); }
    TwoSegments("workers", x, y);
    assert x != "" by { LengthOfLower(s[8..i]); }
  }

  lemma LengthOfLower(s: string)
    ensures |Lower(s)| == |s|
  {}

  lemma NoSlashInActions(y: string)
    requires y in ACTIONS
    ensures '/' !in y
  {}

  lemma SplitIsActionCut(s: string)
    requires ActionRoute(Split(Lower(s), "/"))
    ensures exists i: nat :: ActionAt(s, i)
  {
    var l, g := Lower(s), Split(Lower(s), "/");
    JoinSplit(l, '/');
    TwoSegmentsOnly(g);
    assert Join(g[2..], "/") == g[2];
    assert g[1] in g;
    CutFromText(s, g[1], g[2]);
  }

  lemma CutFromText(s: string, x: string, y: string)
    requires Lower(s) == "workers" + "/" + (x + "/" + y) && x != "" && '/' !in x && y in ACTIONS
    ensures ActionAt(s, 8 + |x|)
  {
    hide Lower;
    var l, i := Lower(s), 8 + |x|;
    assert l[..8] == "workers/" && l[i] == '/' && l[i + 1..] == y;
    LowerSlices(s, 8);
    LowerSlices(s, i + 1);
    forall k | 8 <= k < i ensures s[k] != '/' {
      assert l[k] == x[k - 8] && x[k - 8] in x;
    }
  }

  lemma ActionSegments(s: string)
    ensures Accepts(WORKER_ACTION, s) <==> ActionRoute(Split(Lower(s), "/"))
  {
    hide Accepts;
    ActionCut(s);
    if i: nat :| ActionAt(s, i) {
      ActionCutSplits(s, i);
    }
    if ActionRoute(Split(Lower(s), "/")) {
      SplitIsActionCut(s);
    }
  }

  lemma RegisterSegments(s: string)
    ensures Accepts(REGISTER, s) <==> Split(Lower(s), "/") == ["workers", "register"]
  {
    hide Split, Accepts, Lower;
    LowerLiterals();
    LiteralRoute("workers/register", ["workers", "register"], s);
  }

  lemma BlocksSegments(s: string)
    ensures Accepts(BLOCKS, s) <==> Split(Lower(s), "/") == ["function-blocks", "register"]
  {
    hide Split, Accepts, Lower;
    LowerLiterals();
    LiteralRoute("function-blocks/register", ["function-blocks", "register"], s);
  }

  lemma RouteSegments(s: string)
    requires '\n' !in s
    ensures Accepts(ROUTES, s) <==> WorkerRoute(Split(Lower(s), "/"))
  {
    hide Split;
    JobSegments(s);
    ActionSegments(s);
    RegisterSegments(s);
    BlocksSegments(s);
    assert Accepts(ROUTES.right, s) <==> Accepts(REGISTER, s) || Accepts(ROUTES.right.right, s);
    assert Accepts(ROUTES.right.right, s) <==> Accepts(WORKER_ACTION, s) || Accepts(BLOCKS, s);
  }

  /** The deny pattern is Express: on a path without line breaks it accepts exactly the prefix,
      case-sensitively, followed by a path Express would hand to a worker route. */
  lemma PatternIsExpress(prefix: string, path: string)
    requires '\n' !in path
    ensures Accepts(Pattern(prefix), path) <==> prefix <= path && ExpressWorker(path[|prefix|..])
  {
    hide Accepts;
    ExactFirst(prefix, Then(Fold("/"), Then(ROUTES, Maybe(Fold("/")))), path);
    if prefix <= path {
      SlashThenRoute(path[|prefix|..]);
    }
  }

  lemma SlashThenRoute(rest: string)
    requires '\n' !in rest
    ensures Accepts(Then(Fold("/"), Then(ROUTES, Maybe(Fold("/")))), rest) <==> ExpressWorker(rest)
  {
    hide Split, WorkerRoute, Lower;
    FoldFirst("/", Then(ROUTES, Maybe(Fold("/"))), rest);
    if rest != "" {
      SlashOnly(rest[..1]);
      RouteWithSlash(rest[1..]);
    }
  }

  lemma {:induction false} JoinThenEmpty(g: seq<string>)
    requires g != []
    ensures Join(g + [""], "/") == Join(g, "/") + "/"
  {
    if |g| > 1 {
      JoinThenEmpty(g[1..]);
      assert (g + [""])[1..] == g[1..] + [""];
    }
  }

  lemma SplitWithSlash(l: string)
    ensures Split(l + "/", "/") == Split(l, "/") + [""]
  {
    hide Split;
    var g := Split(l, "/");
    JoinSplit(l, '/');
    JoinThenEmpty(g);
    SegmentsAre(l + "/", g + [""]);
  }

  /** Only the job route accepts a text that ends in a slash, and then it accepts it without. */
  lemma SlashAfterRoute(d: string)
    requires WorkerRoute(Split(Lower(d + "/"), "/"))
    ensures WorkerRoute(Split(Lower(d), "/"))
  {
    hide Split;
    assert Lower(d + "/") == Lower(d) + "/";
    SplitWithSlash(Lower(d));
    var g := Split(Lower(d), "/");
    assert (g + [""])[|g|] == "";
  }

  lemma RouteWithSlash(s: string)
    requires '\n' !in s
    ensures Accepts(Then(ROUTES, Maybe(Fold("/"))), s) <==> WorkerRoute(Split(Lower(DropSlash(s)), "/"))
  {
    hide Accepts, Split, Lower, WorkerRoute;
    SlashLast(ROUTES, s);
    RouteSegments(s);
    if s != "" && s[|s| - 1] == '/' {
      var d := s[..|s| - 1];
      RouteSegments(d);
      assert s == d + "/";
      if WorkerRoute(Split(Lower(s), "/")) {
        SlashAfterRoute(d);
      }
    }
  }
}
