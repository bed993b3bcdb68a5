/** The JSON schema subset log records are checked with (tests/e2e/logrecords.py:216-322), against a
    declarative reading of JSON Schema draft-07. */
module Schema {
  import opened Wrappers

  // ----- values -----

  datatype Json =
    | Null
    | Bool(b: bool)
    | Int(i: int)
    | Float(x: real)
    | Str(s: string)
    | Arr(items: seq<Json>)
    | Obj(fields: map<string, Json>)
  {
    predicate Number() { Int? || Float? }
    function Value(): real
      requires Number()
    {
      if Int? then i as real else x
    }
  }

  /** Python's bool is an int, so True == 1; JSON Schema keeps booleans and numbers apart and calls 1.0 an integer. */
  datatype Reading = Python | Draft07

  function AsNumber(r: Reading, v: Json): Option<real>
  {
    if v.Number() then Some(v.Value())
    else if v.Bool? && r.Python? then Some(if v.b then 1.0 else 0.0)
    else None
  }

  predicate Equal(r: Reading, a: Json, b: Json)
    decreases a
  {
    if AsNumber(r, a).Some? then AsNumber(r, a) == AsNumber(r, b)
    else if a.Arr? && b.Arr? then |a.items| == |b.items| && forall i :: 0 <= i < |a.items| ==>
      Equal(r, a.items[i], b.items[i])
    else if a.Obj? && b.Obj? then a.fields.Keys == b.fields.Keys && forall k :: k in a.fields ==>
      Equal(r, a.fields[k], b.fields[k])
    else a == b
  }

  // ----- schemas -----

  datatype Kind = ObjectKind | StringKind | IntegerKind | BooleanKind | ArrayKind

  /** The keywords that look at one value without descending into it. */
  datatype Limits = Limits(
    only: Option<Json>, choices: Option<seq<Json>>,
    minLength: Option<int>, maxLength: Option<int>, pattern: Option<string>, format: Option<string>,
    minimum: Option<real>)

  /** propertyNames, with what its `not` lists under `enum`. */
  datatype NameRule = NameRule(limits: Limits, reserved: seq<Json>)

  datatype Extra = Allowed | Forbidden | Checked(node: Node)

  datatype Node = Node(
    ref: Option<string>, kind: Option<Kind>, limits: Limits,
    required: seq<string>, maxProperties: Option<int>,
    properties: map<string, Node>, extra: Extra, names: Option<NameRule>)

  datatype Root = Root(node: Node, definitions: map<string, Node>)

  /** The regular expression, UUID and date-time libraries. */
  datatype Library = Library(matches: (string, string) -> bool, uuid: string -> bool, dateTime: string -> bool)

  datatype SchemaError = UnsupportedRef | UnknownDefinition

  const DEFINITIONS := "#/definitions/"

  /** One step: what the reference names, or the node itself. */
  function Resolve(node: Node, root: Root): Result<Node, SchemaError>
  {
    if node.ref.None? then Success(node)
    else if !(DEFINITIONS <= node.ref.value) then Failure(UnsupportedRef)
    else
      var name := node.ref.value[|DEFINITIONS|..];
      if name in root.definitions then Success(root.definitions[name]) else Failure(UnknownDefinition)
  }

  /** draft-07 follows a chain of references to its end, and a circular one has none. */
  function Follow(node: Node, root: Root, left: set<string>): Result<Node, SchemaError>
    decreases left
  {
    var next := Resolve(node, root);
    if node.ref.None? || next.Failure? then next
    else
      var name := node.ref.value[|DEFINITIONS|..];
      if name in left then Follow(next.value, root, left - {name}) else Failure(UnknownDefinition)
  }

  function Deref(r: Reading, node: Node, root: Root): Result<Node, SchemaError>
  {
    if r.Python? then Resolve(node, root) else Follow(node, root, root.definitions.Keys)
  }

  // ----- the declarative reading, one clause a keyword -----

  predicate KindHolds(r: Reading, v: Json, kind: Kind)
  {
    match kind
    case ObjectKind => v.Obj?
    case StringKind => v.Str?
    case IntegerKind => v.Int? || (r.Draft07? && v.Float? && v.x.Floor as real == v.x)
    case BooleanKind => v.Bool?
    case ArrayKind => v.Arr?
  }

  predicate AtLeast(r: Reading, v: Json, minimum: real)
  {
    match r
    case Python => v.Int? || v.Bool? ==> AsNumber(Python, v).value >= minimum
    case Draft07 => v.Number() ==> v.Value() >= minimum
  }

  predicate TextHolds(lib: Library, s: string, n: Limits)
  {
    && (n.minLength.Some? ==> |s| >= n.minLength.value)
    && (n.maxLength.Some? ==> |s| <= n.maxLength.value)
    && (n.pattern.Some? ==> lib.matches(n.pattern.value, s))
    && (n.format == Some("uuid") ==> lib.uuid(s))
    && (n.format == Some("date-time") ==> lib.dateTime(s))
  }

  predicate LimitsHold(lib: Library, r: Reading, v: Json, n: Limits)
  {
    && (n.only.Some? ==> Equal(r, v, n.only.value))
    && (n.choices.Some? ==> exists c :: c in n.choices.value && Equal(r, v, c))
    && (v.Str? ==> TextHolds(lib, v.s, n))
    && (n.minimum.Some? ==> AtLeast(r, v, n.minimum.value))
  }

  predicate NameHolds(lib: Library, r: Reading, name: string, rule: Option<NameRule>)
  {
    rule.Some? ==> LimitsHold(lib, r, Str(name), rule.value.limits)
                   && forall c :: c in rule.value.reserved ==> !Equal(r, Str(name), c)
  }

  predicate MemberHolds(lib: Library, r: Reading, key: string, v: Json, n: Node, root: Root)
    decreases v, 1
  {
    && NameHolds(lib, r, key, n.names)
    && (if key in n.properties then Holds(lib, r, v, n.properties[key], root)
        else !n.extra.Forbidden? && (n.extra.Checked? ==> Holds(lib, r, v, n.extra.node, root)))
  }

  /** The value satisfies the schema node, and every reference that takes resolves. */
  predicate Holds(lib: Library, r: Reading, v: Json, node: Node, root: Root)
    decreases v, 0
  {
    && Deref(r, node, root).Success?
    && var n := Deref(r, node, root).value;
    && (n.kind.Some? ==> KindHolds(r, v, n.kind.value))
    && LimitsHold(lib, r, v, n.limits)
    && (v.Obj? ==>
      && (forall key :: key in n.required ==> key in v.fields)
      && (n.maxProperties.Some? ==> |v.fields| <= n.maxProperties.value)
      && forall key :: key in v.fields ==> MemberHolds(lib, r, key, v.fields[key], n, root))
  }

  // ----- the checker -----

  /** Where in the record, and which keyword. */
  datatype Problem = Problem(path: seq<string>, keyword: string)

  predicate Under(path: seq<string>, out: seq<Problem>) { forall p :: p in out ==> path <= p.path }

  method TextErrors(lib: Library, s: string, n: Limits, path: seq<string>) returns (out: seq<Problem>)
    ensures out == [] <==> TextHolds(lib, s, n)
    ensures forall p :: p in out ==> p.path == path
  {
    out := [];
    if |s| < (if n.minLength.Some? then n.minLength.value else 0) { out := out + [Problem(path, "minLength")]; }
    if n.maxLength.Some? && |s| > n.maxLength.value { out := out + [Problem(path, "maxLength")]; }
    if n.pattern.Some? && !lib.matches(n.pattern.value, s) { out := out + [Problem(path, "pattern")]; }
    if n.format == Some("uuid") && !lib.uuid(s) { out := out + [Problem(path, "format")]; }
    if n.format == Some("date-time") && !lib.dateTime(s) { out := out + [Problem(path, "format")]; }
  }

  method LimitErrors(lib: Library, v: Json, n: Limits, path: seq<string>) returns (out: seq<Problem>)
    ensures out == [] <==> LimitsHold(lib, Python, v, n)
    ensures forall p :: p in out ==> p.path == path
  {
    hide Equal, TextHolds;
    out := [];
    if n.only.Some? && !Equal(Python, v, n.only.value) { out := out + [Problem(path, "const")]; }
    if n.choices.Some? && !(exists c :: c in n.choices.value && Equal(Python, v, c)) {
      out := out + [Problem(path, "enum")];
    }
    if v.Str? {
      var text := TextErrors(lib, v.s, n, path);
      out := out + text;
    }
    if (v.Int? || v.Bool?) && n.minimum.Some? && AsNumber(Python, v).value < n.minimum.value {
      out := out + [Problem(path, "minimum")];
    }
  }

  method NameErrors(lib: Library, name: string, rule: Option<NameRule>, path: seq<string>) returns (out: seq<Problem>)
    ensures out == [] <==> NameHolds(lib, Python, name, rule)
    ensures forall p :: p in out ==> p.path == path
  {
    if rule.None? { return []; }
    out := LimitErrors(lib, Str(name), rule.value.limits, path);
    if exists c :: c in rule.value.reserved && Equal(Python, Str(name), c) { out := out + [Problem(path, "not")]; }
  }

  /** schema_errors is this at the root. An unusable reference raises. */
  method Errors(lib: Library, v: Json, node: Node, root: Root, path: seq<string>)
      returns (r: Result<seq<Problem>, SchemaError>)
    ensures r == Success([]) <==> Holds(lib, Python, v, node, root)
    ensures r.Success? ==> Under(path, r.value)
    ensures AllClosed(root) && Closed(node, root) ==> r.Success?
    decreases v, 1
  {
    var resolved := Resolve(node, root);
    if resolved.Failure? { return Failure(resolved.error); }
    var n := resolved.value;
    if n.kind.Some? && !KindHolds(Python, v, n.kind.value) {
      return Success([Problem(path, "type")]);
    }
    var out := LimitErrors(lib, v, n.limits, path);
    if v.Obj? {
      r := ObjectErrors(lib, v, n, root, path);
      if r.Success? { r := Success(out + r.value); }
      return;
    }
    return Success(out);
  }

  method ObjectErrors(lib: Library, v: Json, n: Node, root: Root, path: seq<string>)
      returns (r: Result<seq<Problem>, SchemaError>)
    requires v.Obj?
    ensures r == Success([]) <==>
      && (forall key :: key in n.required ==> key in v.fields)
      && (n.maxProperties.Some? ==> |v.fields| <= n.maxProperties.value)
      && forall key :: key in v.fields ==> MemberHolds(lib, Python, key, v.fields[key], n, root)
    ensures r.Success? ==> Under(path, r.value)
    ensures AllClosed(root) && ChildrenClosed(n, root) ==> r.Success?
    decreases v, 0
  {
    var out := [];
    for i := 0 to |n.required|
      invariant out == [] <==> forall k :: 0 <= k < i ==> n.required[k] in v.fields
      invariant Under(path, out)
    {
      if n.required[i] !in v.fields { out := out + [Problem(path, "required")]; }
    }
    if n.maxProperties.Some? && |v.fields| > n.maxProperties.value { out := out + [Problem(path, "maxProperties")]; }
    ghost var first := out == [];
    var todo := v.fields.Keys;
    while todo != {}
      invariant todo <= v.fields.Keys && Under(path, out)
      invariant out == []
        <==> first && forall key :: key in v.fields.Keys - todo ==>
          MemberHolds(lib, Python, key, v.fields[key], n, root)
      decreases todo
    {
      var key :| key in todo;
      var item := v.fields[key];
      todo := todo - {key};
      var names := NameErrors(lib, key, n.names, path + [key]);
      out := out + names;
      if key in n.properties {
        r := Errors(lib, item, n.properties[key], root, path + [key]);
        if r.Failure? { return; }
        out := out + r.value;
      } else if n.extra.Forbidden? {
        out := out + [Problem(path, "additionalProperties")];
      } else if n.extra.Checked? {
        r := Errors(lib, item, n.extra.node, root, path + [key]);
        if r.Failure? { return; }
        out := out + r.value;
      }
    }
    return Success(out);
  }

  // ----- references -----

  /** Every reference written in the node resolves. */
  predicate Closed(node: Node, root: Root)
    decreases node, 1
  {
    Resolve(node, root).Success? && ChildrenClosed(node, root)
  }

  predicate ChildrenClosed(node: Node, root: Root)
    decreases node, 0
  {
    && (forall key :: key in node.properties ==> Closed(node.properties[key], root))
    && (node.extra.Checked? ==> Closed(node.extra.node, root))
  }

  predicate AllClosed(root: Root)
  {
    Closed(root.node, root) && forall name :: name in root.definitions ==> Closed(root.definitions[name], root)
  }

  /** What a reference names is not a reference itself. */
  predicate Flat(root: Root) { forall name :: name in root.definitions ==> root.definitions[name].ref.None? }

  lemma {:induction false} FollowEndsPlain(node: Node, root: Root, left: set<string>)
    ensures Follow(node, root, left).Success? ==> Follow(node, root, left).value.ref.None?
    decreases left
  {
    if node.ref.Some? && Resolve(node, root).Success? {
      var name := node.ref.value[|DEFINITIONS|..];
      if name in left { FollowEndsPlain(Resolve(node, root).value, root, left - {name}); }
    }
  }

  /** The checker's one step is the whole chain unless it ends at another reference. */
  lemma ReferenceAgreesIff(node: Node, root: Root)
    ensures Deref(Python, node, root) == Deref(Draft07, node, root)
      <==> node.ref.None? || Resolve(node, root).Failure? || Resolve(node, root).value.ref.None?
  {
    var next := Resolve(node, root);
    if node.ref.Some? && next.Success? {
      var name := node.ref.value[|DEFINITIONS|..];
      var left := root.definitions.Keys - {name};
      assert Deref(Draft07, node, root) == Follow(next.value, root, left);
      FollowEndsPlain(next.value, root, left);
    }
  }

  // ----- where the checker and draft-07 agree -----

  lemma KindAgreesIff(v: Json, kind: Kind)
    ensures (KindHolds(Python, v, kind) <==> KindHolds(Draft07, v, kind))
      <==> !(kind.IntegerKind? && v.Float? && v.x.Floor as real == v.x)
  {
  }

  lemma MinimumAgreesIff(v: Json, minimum: real)
    ensures (AtLeast(Python, v, minimum) <==> AtLeast(Draft07, v, minimum))
      <==> !(v.Float? && v.x < minimum) && !(v.Bool? && AsNumber(Python, v).value < minimum)
  {
  }

  /** Booleans stand against booleans, all the way down. */
  predicate BooleansMeet(a: Json, b: Json)
    decreases a
  {
    && (a.Bool? <==> b.Bool?)
    && (a.Arr? && b.Arr? && |a.items| == |b.items| ==> forall i :: 0 <= i < |a.items| ==>
      BooleansMeet(a.items[i], b.items[i]))
    && (a.Obj? && b.Obj? ==> forall k :: k in a.fields && k in b.fields ==> BooleansMeet(a.fields[k], b.fields[k]))
  }

  /** `const` and `enum` compare as draft-07 does unless Python equates a boolean with a number. */
  lemma {:induction false} EqualAgreesIff(a: Json, b: Json)
    ensures Equal(Draft07, a, b) <==> Equal(Python, a, b) && BooleansMeet(a, b)
    decreases a
  {
    if a.Arr? && b.Arr? && |a.items| == |b.items| {
      forall i | 0 <= i < |a.items|
        ensures Equal(Draft07, a.items[i], b.items[i])
          <==> Equal(Python, a.items[i], b.items[i]) && BooleansMeet(a.items[i], b.items[i])
      {
        EqualAgreesIff(a.items[i], b.items[i]);
      }
    } else if a.Obj? && b.Obj? && a.fields.Keys == b.fields.Keys {
      forall k | k in a.fields
        ensures Equal(Draft07, a.fields[k], b.fields[k])
          <==> Equal(Python, a.fields[k], b.fields[k]) && BooleansMeet(a.fields[k], b.fields[k])
      {
        EqualAgreesIff(a.fields[k], b.fields[k]);
      }
    }
  }

  /** No boolean and no number anywhere in it. */
  predicate Textual(v: Json)
  {
    && !v.Bool? && !v.Number()
    && (v.Arr? ==> forall i :: 0 <= i < |v.items| ==> Textual(v.items[i]))
    && (v.Obj? ==> forall k :: k in v.fields ==> Textual(v.fields[k]))
  }

  lemma {:induction false} TextMeetsBooleans(a: Json, c: Json)
    requires Textual(c) && Equal(Python, a, c)
    ensures BooleansMeet(a, c)
    decreases a
  {
    if a.Arr? && c.Arr? {
      forall i | 0 <= i < |a.items| && |a.items| == |c.items| ensures BooleansMeet(a.items[i], c.items[i]) {
        TextMeetsBooleans(a.items[i], c.items[i]);
      }
    } else if a.Obj? && c.Obj? {
      forall k | k in a.fields && k in c.fields ensures BooleansMeet(a.fields[k], c.fields[k]) {
        TextMeetsBooleans(a.fields[k], c.fields[k]);
      }
    }
  }

  /** A constant that no value of the node's type can be confused with. */
  predicate Distinguished(kind: Option<Kind>, c: Json)
  {
    Textual(c) ||
    match kind
    case None => false
    case Some(StringKind) => true
    case Some(IntegerKind) => !c.Bool?
    case Some(BooleanKind) => !c.Number()
    case Some(ObjectKind) => !c.Obj?
    case Some(ArrayKind) => !c.Arr?
  }

  /** `minimum` wants a type that keeps floats and booleans out of its sight. */
  predicate LimitsTame(kind: Option<Kind>, n: Limits)
  {
    && (n.only.Some? ==> Distinguished(kind, n.only.value))
    && (n.choices.Some? ==> forall c :: c in n.choices.value ==> Distinguished(kind, c))
    && (n.minimum.Some? ==> kind.Some? && !kind.value.BooleanKind?)
  }

  predicate Tame(n: Node)
  {
    && LimitsTame(n.kind, n.limits)
    && (forall key :: key in n.properties ==> Tame(n.properties[key]))
    && (n.extra.Checked? ==> Tame(n.extra.node))
  }

  predicate AllTame(root: Root) { forall name :: name in root.definitions ==> Tame(root.definitions[name]) }

  /** No number written with a fraction that is zero. */
  predicate NoWholeFloats(v: Json)
  {
    && (v.Float? ==> v.x.Floor as real != v.x)
    && (v.Arr? ==> forall i :: 0 <= i < |v.items| ==> NoWholeFloats(v.items[i]))
    && (v.Obj? ==> forall k :: k in v.fields ==> NoWholeFloats(v.fields[k]))
  }

  lemma TameLimitsAgree(lib: Library, v: Json, kind: Option<Kind>, n: Limits)
    requires LimitsTame(kind, n) && (kind.Some? ==> KindHolds(Python, v, kind.value))
    ensures LimitsHold(lib, Python, v, n) <==> LimitsHold(lib, Draft07, v, n)
  {
    forall c | Distinguished(kind, c) ensures Equal(Python, v, c) <==> Equal(Draft07, v, c) {
      EqualAgreesIff(v, c);
      if Textual(c) && Equal(Python, v, c) { TextMeetsBooleans(v, c); }
    }
    hide Equal, Distinguished;
  }

  lemma NamesAgree(lib: Library, name: string, rule: Option<NameRule>)
    ensures NameHolds(lib, Python, name, rule) <==> NameHolds(lib, Draft07, name, rule)
  {
    forall c ensures Equal(Python, Str(name), c) <==> Equal(Draft07, Str(name), c) {}
    hide Equal;
  }

  /** The record holds against the schema as draft-07 reads it exactly when it does as the checker reads it. */
  lemma {:induction false} CheckerReadsDraft07(lib: Library, v: Json, node: Node, root: Root)
    requires Flat(root) && AllTame(root) && Tame(node) && NoWholeFloats(v)
    ensures Holds(lib, Python, v, node, root) <==> Holds(lib, Draft07, v, node, root)
    decreases v
  {
    ReferenceAgreesIff(node, root);
    if Resolve(node, root).Success? {
      var n := Resolve(node, root).value;
      assert Tame(n);
      if n.kind.Some? { KindAgreesIff(v, n.kind.value); }
      if n.kind.Some? ==> KindHolds(Python, v, n.kind.value) { TameLimitsAgree(lib, v, n.kind, n.limits); }
      if v.Obj? {
        forall key | key in v.fields
          ensures MemberHolds(lib, Python, key, v.fields[key], n, root)
            <==> MemberHolds(lib, Draft07, key, v.fields[key], n, root)
        {
          NamesAgree(lib, key, n.names);
          if key in n.properties {
            CheckerReadsDraft07(lib, v.fields[key], n.properties[key], root);
          } else if n.extra.Checked? {
            CheckerReadsDraft07(lib, v.fields[key], n.extra.node, root);
          }
        }
      }
    }
  }

  /** Empty exactly when the record is valid: for every finite record and every schema in the subset. */
  method SchemaErrors(lib: Library, record: Json, root: Root) returns (r: Result<seq<Problem>, SchemaError>)
    ensures r == Success([]) <==> Holds(lib, Python, record, root.node, root)
    ensures AllClosed(root) ==> r.Success?
    ensures Flat(root) && AllTame(root) && Tame(root.node) && NoWholeFloats(record) ==>
      (r == Success([]) <==> Holds(lib, Draft07, record, root.node, root))
  {
    r := Errors(lib, record, root.node, root, ["$"]);
    if Flat(root) && AllTame(root) && Tame(root.node) && NoWholeFloats(record) {
      CheckerReadsDraft07(lib, record, root.node, root);
    }
  }

  // ----- where they part -----

  const NO_LIMITS := Limits(None, None, None, None, None, None, None)
  const ANY_NODE := Node(None, None, NO_LIMITS, [], None, map[], Allowed, None)

  /** A reference to a reference is not followed: the checker lets a number pass for a string. */
  lemma ChainedReferenceIsIgnored(lib: Library)
    ensures var text := ANY_NODE.(kind := Some(StringKind));
      var root := Root(ANY_NODE, map["a" := ANY_NODE.(ref := Some("#/definitions/b")), "b" := text]);
      var node := ANY_NODE.(ref := Some("#/definitions/a"));
      Holds(lib, Python, Int(1), node, root) && !Holds(lib, Draft07, Int(1), node, root)
  {
    var text := ANY_NODE.(kind := Some(StringKind));
    var chained := ANY_NODE.(ref := Some("#/definitions/b"));
    var root := Root(ANY_NODE, map["a" := chained, "b" := text]);
    var node := ANY_NODE.(ref := Some("#/definitions/a"));
    assert "#/definitions/a"[|DEFINITIONS|..] == "a" && "#/definitions/b"[|DEFINITIONS|..] == "b";
    assert "a" != "b";
    assert Resolve(node, root) == Success(chained);
    assert Resolve(chained, root) == Success(text);
    var left := root.definitions.Keys - {"a"};
    assert Follow(text, root, left - {"b"}) == Success(text);
    assert Follow(chained, root, left) == Success(text);
    assert Follow(node, root, root.definitions.Keys) == Success(text);
  }

  /** Python's booleans are numbers to `const` and `minimum`. */
  lemma BooleansPassForNumbers(lib: Library)
    ensures var root := Root(ANY_NODE, map[]);
      && Holds(lib, Python, Bool(true), ANY_NODE.(limits := NO_LIMITS.(only := Some(Int(1)))), root)
      && !Holds(lib, Draft07, Bool(true), ANY_NODE.(limits := NO_LIMITS.(only := Some(Int(1)))), root)
      && !Holds(lib, Python, Bool(false), ANY_NODE.(limits := NO_LIMITS.(minimum := Some(1.0))), root)
      && Holds(lib, Draft07, Bool(false), ANY_NODE.(limits := NO_LIMITS.(minimum := Some(1.0))), root)
  {
  }
}
