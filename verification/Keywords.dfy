/** The supported keywords one by one, as JSON Schema Validation draft-07 words them (its sections 6.1 to 6.5), and the
    whole node as all of its keywords together (tests/e2e/logrecords.py:234-322). */
module Keywords {
  import opened Wrappers
  import opened Schema

  function WithLimits(n: Limits): Node { ANY_NODE.(limits := n) }

  predicate IsWhole(i: int, x: real) { i as real == x }

  // ----- one keyword at a time -----

  /** `type` (section 6.1.1). A boolean is no integer; a number such as 1.0 is one to draft-07 only. */
  lemma TypeMeans(lib: Library, r: Reading, v: Json, root: Root)
    ensures Holds(lib, r, v, ANY_NODE.(kind := Some(ObjectKind)), root) <==> v.Obj?
    ensures Holds(lib, r, v, ANY_NODE.(kind := Some(StringKind)), root) <==> v.Str?
    ensures Holds(lib, r, v, ANY_NODE.(kind := Some(BooleanKind)), root) <==> v.Bool?
    ensures Holds(lib, r, v, ANY_NODE.(kind := Some(ArrayKind)), root) <==> v.Arr?
    ensures Holds(lib, r, v, ANY_NODE.(kind := Some(IntegerKind)), root)
      <==> v.Int? || (r.Draft07? && v.Float? && exists i: int :: IsWhole(i, v.x))
  {
    KindAlone(lib, r, v, Some(ObjectKind), root);
    KindAlone(lib, r, v, Some(StringKind), root);
    KindAlone(lib, r, v, Some(BooleanKind), root);
    KindAlone(lib, r, v, Some(ArrayKind), root);
    KindAlone(lib, r, v, Some(IntegerKind), root);
    hide Holds;
    if v.Float? {
      if i: int :| IsWhole(i, v.x) { assert v.x.Floor == i; }
      assert v.x.Floor as real == v.x ==> IsWhole(v.x.Floor, v.x);
    }
  }

  /** `minLength`, `maxLength` and `pattern` (section 6.3) ask something of strings alone. */
  lemma StringsMean(lib: Library, r: Reading, v: Json, root: Root, n: int, pattern: string)
    ensures Holds(lib, r, v, WithLimits(NO_LIMITS.(minLength := Some(n))), root) <==> (v.Str? ==> n <= |v.s|)
    ensures Holds(lib, r, v, WithLimits(NO_LIMITS.(maxLength := Some(n))), root) <==> (v.Str? ==> |v.s| <= n)
    ensures Holds(lib, r, v, WithLimits(NO_LIMITS.(pattern := Some(pattern))), root)
      <==> (v.Str? ==> lib.matches(pattern, v.s))
  {
    OneLimit(lib, r, v, NO_LIMITS.(minLength := Some(n)), root);
    OneLimit(lib, r, v, NO_LIMITS.(maxLength := Some(n)), root);
    OneLimit(lib, r, v, NO_LIMITS.(pattern := Some(pattern)), root);
    hide Holds;
  }

  /** `format` checks uuid and date-time, on strings; any other format asks nothing. */
  lemma FormatMeans(lib: Library, r: Reading, v: Json, root: Root, other: string)
    requires other !in {"uuid", "date-time"}
    ensures Holds(lib, r, v, WithLimits(NO_LIMITS.(format := Some("uuid"))), root) <==> (v.Str? ==> lib.uuid(v.s))
    ensures Holds(lib, r, v, WithLimits(NO_LIMITS.(format := Some("date-time"))), root) <==>
      (v.Str? ==> lib.dateTime(v.s))
    ensures Holds(lib, r, v, WithLimits(NO_LIMITS.(format := Some(other))), root)
  {
    assert "uuid"[0] != "date-time"[0];
    OneLimit(lib, r, v, NO_LIMITS.(format := Some("uuid")), root);
    OneLimit(lib, r, v, NO_LIMITS.(format := Some("date-time")), root);
    OneLimit(lib, r, v, NO_LIMITS.(format := Some(other)), root);
    hide Holds;
  }

  /** `minimum` (section 6.2.4): no number below it, and for the checker no boolean, but any float. */
  lemma MinimumMeans(lib: Library, v: Json, root: Root, least: real)
    ensures Holds(lib, Draft07, v, WithLimits(NO_LIMITS.(minimum := Some(least))), root)
      <==> (v.Int? ==> v.i as real >= least) && (v.Float? ==> v.x >= least)
    ensures Holds(lib, Python, v, WithLimits(NO_LIMITS.(minimum := Some(least))), root)
      <==> (v.Int? ==> v.i as real >= least) && (v.Bool? ==> (if v.b then 1.0 else 0.0) >= least)
  {
    OneLimit(lib, Draft07, v, NO_LIMITS.(minimum := Some(least)), root);
    OneLimit(lib, Python, v, NO_LIMITS.(minimum := Some(least)), root);
    hide Holds;
  }

  /** `const` and `enum` (sections 6.1.2 and 6.1.3): equal to the value, or to one of them. */
  lemma ValuesMean(lib: Library, r: Reading, v: Json, root: Root, c: Json, cs: seq<Json>)
    ensures Holds(lib, r, v, WithLimits(NO_LIMITS.(only := Some(c))), root) <==> Equal(r, v, c)
    ensures Holds(lib, r, v, WithLimits(NO_LIMITS.(choices := Some(cs))), root)
      <==> exists i :: 0 <= i < |cs| && Equal(r, v, cs[i])
  {
    OneLimit(lib, r, v, NO_LIMITS.(only := Some(c)), root);
    OneLimit(lib, r, v, NO_LIMITS.(choices := Some(cs)), root);
    hide Holds, Equal;
    AmongIff(r, v, cs);
  }

  lemma AmongIff(r: Reading, v: Json, cs: seq<Json>)
    ensures (exists c :: c in cs && Equal(r, v, c)) <==> exists i :: 0 <= i < |cs| && Equal(r, v, cs[i])
  {
    hide Equal;
    if c :| c in cs && Equal(r, v, c) {
      var i :| 0 <= i < |cs| && cs[i] == c;
    }
    if i :| 0 <= i < |cs| && Equal(r, v, cs[i]) {
      assert cs[i] in cs;
    }
  }

  /** Equality: of one kind and the same, numbers by value, arrays item by item, objects member by member. Python also
      equates true with 1 and false with 0. */
  lemma EqualMeans(r: Reading, a: Json, b: Json)
    ensures a.Null? ==> (Equal(r, a, b) <==> b.Null?)
    ensures a.Str? ==> (Equal(r, a, b) <==> b.Str? && a.s == b.s)
    ensures a.Number() && b.Number() ==> (Equal(r, a, b) <==> a.Value() == b.Value())
    ensures a.Bool? && b.Bool? ==> (Equal(r, a, b) <==> a.b == b.b)
    ensures a.Bool? && b.Number() ==> (Equal(r, a, b) <==> r.Python? && b.Value() == if a.b then 1.0 else 0.0)
    ensures a.Number() && b.Bool? ==> (Equal(r, a, b) <==> r.Python? && a.Value() == if b.b then 1.0 else 0.0)
    ensures a.Arr? ==> (Equal(r, a, b)
      <==> b.Arr? && |a.items| == |b.items| && forall i :: 0 <= i < |a.items| ==> Equal(r, a.items[i], b.items[i]))
    ensures a.Obj? ==> (Equal(r, a, b)
      <==> b.Obj? && a.fields.Keys == b.fields.Keys && forall k :: k in a.fields ==> Equal(r, a.fields[k], b.fields[k]))
    ensures (a.Number() || a.Bool?) && !b.Number() && !b.Bool? ==> !Equal(r, a, b)
  {
    if a.Arr? && b.Arr? && a == b {
      forall i | 0 <= i < |a.items| ensures Equal(r, a.items[i], b.items[i]) { EqualIsReflexive(r, a.items[i]); }
    }
    if a.Obj? && b.Obj? && a == b {
      forall k | k in a.fields ensures Equal(r, a.fields[k], b.fields[k]) { EqualIsReflexive(r, a.fields[k]); }
    }
  }

  lemma {:induction false} EqualIsReflexive(r: Reading, a: Json)
    ensures Equal(r, a, a)
    decreases a
  {
    if a.Arr? {
      forall i | 0 <= i < |a.items| ensures Equal(r, a.items[i], a.items[i]) { EqualIsReflexive(r, a.items[i]); }
    } else if a.Obj? {
      forall k | k in a.fields ensures Equal(r, a.fields[k], a.fields[k]) { EqualIsReflexive(r, a.fields[k]); }
    }
  }

  /** `required` and `maxProperties` (sections 6.5.3 and 6.5.1) ask something of objects alone. */
  lemma SizesMean(lib: Library, r: Reading, v: Json, root: Root, required: seq<string>, most: int)
    ensures Holds(lib, r, v, ANY_NODE.(required := required), root)
      <==> (v.Obj? ==> forall i :: 0 <= i < |required| ==> required[i] in v.fields)
    ensures Holds(lib, r, v, ANY_NODE.(maxProperties := Some(most)), root) <==> (v.Obj? ==> |v.fields| <= most)
  {
    SizesAlone(lib, r, v, ANY_NODE.(required := required, maxProperties := Some(most)), root);
    hide Holds;
    assert forall key :: key in required <==> exists i :: 0 <= i < |required| && required[i] == key;
  }

  /** `properties` and `additionalProperties` (sections 6.5.4 and 6.5.6): each member by its own schema if it has one,
      else by the one for the rest, which may refuse it. */
  lemma MembersMean(lib: Library, r: Reading, v: Json, root: Root, properties: map<string, Node>, extra: Extra)
    ensures Holds(lib, r, v, ANY_NODE.(properties := properties, extra := extra), root) <==>
      (v.Obj? ==> forall key :: key in v.fields ==>
        && (key in properties ==> Holds(lib, r, v.fields[key], properties[key], root))
        && (key !in properties && extra.Forbidden? ==> false)
        && (key !in properties && extra.Checked? ==> Holds(lib, r, v.fields[key], extra.node, root)))
  {
    var n := ANY_NODE.(properties := properties, extra := extra);
    if v.Obj? {
      forall key | key in v.fields
        ensures MemberHolds(lib, r, key, v.fields[key], n, root) <==>
          && (key in properties ==> Holds(lib, r, v.fields[key], properties[key], root))
          && (key !in properties && extra.Forbidden? ==> false)
          && (key !in properties && extra.Checked? ==> Holds(lib, r, v.fields[key], extra.node, root))
      {
        hide Holds;
      }
    }
  }

  /** `propertyNames` (section 6.5.8): every name meets the rule's keywords and is none of the reserved ones. */
  lemma NamesMean(lib: Library, r: Reading, v: Json, root: Root, rule: NameRule)
    ensures Holds(lib, r, v, ANY_NODE.(names := Some(rule)), root) <==>
      (v.Obj? ==> forall key :: key in v.fields ==>
        && Holds(lib, r, Str(key), WithLimits(rule.limits), root)
        && forall c :: c in rule.reserved ==> c != Str(key))
  {
    if v.Obj? {
      var n := ANY_NODE.(names := Some(rule));
      forall key | key in v.fields
        ensures MemberHolds(lib, r, key, v.fields[key], n, root) <==>
          && Holds(lib, r, Str(key), WithLimits(rule.limits), root)
          && forall c :: c in rule.reserved ==> c != Str(key)
      {
        assert Holds(lib, r, Str(key), WithLimits(rule.limits), root) <==> LimitsHold(lib, r, Str(key), rule.limits);
        forall c ensures Equal(r, Str(key), c) <==> c == Str(key) {}
        hide Equal, LimitsHold;
      }
    }
  }

  // ----- all of them -----

  /** The node's scalar keywords, each alone. */
  ghost predicate EachLimitHolds(lib: Library, r: Reading, v: Json, n: Limits, root: Root)
  {
    && Holds(lib, r, v, WithLimits(NO_LIMITS.(only := n.only)), root)
    && Holds(lib, r, v, WithLimits(NO_LIMITS.(choices := n.choices)), root)
    && Holds(lib, r, v, WithLimits(NO_LIMITS.(minLength := n.minLength)), root)
    && Holds(lib, r, v, WithLimits(NO_LIMITS.(maxLength := n.maxLength)), root)
    && Holds(lib, r, v, WithLimits(NO_LIMITS.(pattern := n.pattern)), root)
    && Holds(lib, r, v, WithLimits(NO_LIMITS.(format := n.format)), root)
    && Holds(lib, r, v, WithLimits(NO_LIMITS.(minimum := n.minimum)), root)
  }

  lemma LimitsConjoin(lib: Library, r: Reading, v: Json, n: Limits, root: Root)
    ensures LimitsHold(lib, r, v, n) <==> EachLimitHolds(lib, r, v, n, root)
  {
    OneLimit(lib, r, v, NO_LIMITS.(only := n.only), root);
    OneLimit(lib, r, v, NO_LIMITS.(choices := n.choices), root);
    OneLimit(lib, r, v, NO_LIMITS.(minLength := n.minLength), root);
    OneLimit(lib, r, v, NO_LIMITS.(maxLength := n.maxLength), root);
    OneLimit(lib, r, v, NO_LIMITS.(pattern := n.pattern), root);
    OneLimit(lib, r, v, NO_LIMITS.(format := n.format), root);
    OneLimit(lib, r, v, NO_LIMITS.(minimum := n.minimum), root);
    hide Equal, AtLeast, Holds;
  }

  ghost predicate MembersHold(lib: Library, r: Reading, v: Json, n: Node, root: Root)
    requires v.Obj?
  {
    forall key :: key in v.fields ==> MemberHolds(lib, r, key, v.fields[key], n, root)
  }

  predicate HasRequired(v: Json, required: seq<string>)
    requires v.Obj?
  {
    forall key :: key in required ==> key in v.fields
  }

  lemma PlainNode(lib: Library, r: Reading, v: Json, n: Node, root: Root)
    requires n.ref.None?
    ensures Holds(lib, r, v, n, root) <==>
      && (n.kind.Some? ==> KindHolds(r, v, n.kind.value))
      && LimitsHold(lib, r, v, n.limits)
      && (v.Obj? ==>
        && HasRequired(v, n.required)
        && (n.maxProperties.Some? ==> |v.fields| <= n.maxProperties.value)
        && MembersHold(lib, r, v, n, root))
  {
    hide KindHolds, LimitsHold, MemberHolds;
  }

  /** A node that asks nothing of an object's members. */
  lemma FreeMembers(lib: Library, r: Reading, v: Json, n: Node, root: Root)
    requires v.Obj? && n.names.None? && n.properties == map[] && n.extra.Allowed?
    ensures MembersHold(lib, r, v, n, root)
  {
    hide Holds;
  }

  lemma OneLimit(lib: Library, r: Reading, v: Json, one: Limits, root: Root)
    ensures Holds(lib, r, v, WithLimits(one), root) <==> LimitsHold(lib, r, v, one)
  {
    PlainNode(lib, r, v, WithLimits(one), root);
    if v.Obj? { FreeMembers(lib, r, v, WithLimits(one), root); }
    hide LimitsHold, Holds, MembersHold;
  }

  /** A node asks for each of its keywords and nothing else, and a reference for what it names and nothing else. */
  lemma NodeIsItsKeywords(lib: Library, r: Reading, v: Json, n: Node, root: Root)
    requires n.ref.None?
    ensures Holds(lib, r, v, n, root) <==>
      && Holds(lib, r, v, ANY_NODE.(kind := n.kind), root)
      && EachLimitHolds(lib, r, v, n.limits, root)
      && Holds(lib, r, v, ANY_NODE.(required := n.required), root)
      && Holds(lib, r, v, ANY_NODE.(maxProperties := n.maxProperties), root)
      && Holds(lib, r, v, ANY_NODE.(names := n.names), root)
      && Holds(lib, r, v, ANY_NODE.(properties := n.properties, extra := n.extra), root)
  {
    LimitsConjoin(lib, r, v, n.limits, root);
    PlainNode(lib, r, v, n, root);
    KindAlone(lib, r, v, n.kind, root);
    SizesAlone(lib, r, v, n, root);
    MembersAlone(lib, r, v, n, root);
    hide Holds, LimitsHold, EachLimitHolds, MembersHold, KindHolds, HasRequired;
  }

  lemma NoLimitsHold(lib: Library, r: Reading, v: Json)
    ensures LimitsHold(lib, r, v, NO_LIMITS)
  {}

  lemma KindAlone(lib: Library, r: Reading, v: Json, kind: Option<Kind>, root: Root)
    ensures Holds(lib, r, v, ANY_NODE.(kind := kind), root) <==> (kind.Some? ==> KindHolds(r, v, kind.value))
  {
    NoLimitsHold(lib, r, v);
    PlainNode(lib, r, v, ANY_NODE.(kind := kind), root);
    if v.Obj? { FreeMembers(lib, r, v, ANY_NODE.(kind := kind), root); }
    hide LimitsHold, KindHolds, Holds, MembersHold;
  }

  lemma SizesAlone(lib: Library, r: Reading, v: Json, n: Node, root: Root)
    ensures Holds(lib, r, v, ANY_NODE.(required := n.required), root) <==> (v.Obj? ==> HasRequired(v, n.required))
    ensures Holds(lib, r, v, ANY_NODE.(maxProperties := n.maxProperties), root)
      <==> (v.Obj? && n.maxProperties.Some? ==> |v.fields| <= n.maxProperties.value)
  {
    var required, most := ANY_NODE.(required := n.required), ANY_NODE.(maxProperties := n.maxProperties);
    NoLimitsHold(lib, r, v);
    PlainNode(lib, r, v, required, root);
    PlainNode(lib, r, v, most, root);
    if v.Obj? {
      FreeMembers(lib, r, v, required, root);
      FreeMembers(lib, r, v, most, root);
    }
    hide LimitsHold, Holds, MembersHold;
  }

  lemma MembersInTwo(lib: Library, r: Reading, v: Json, n: Node, root: Root)
    requires v.Obj?
    ensures MembersHold(lib, r, v, n, root) <==>
      && MembersHold(lib, r, v, ANY_NODE.(names := n.names), root)
      && MembersHold(lib, r, v, ANY_NODE.(properties := n.properties, extra := n.extra), root)
  {
    var names, members := ANY_NODE.(names := n.names), ANY_NODE.(properties := n.properties, extra := n.extra);
    forall key | key in v.fields
      ensures MemberHolds(lib, r, key, v.fields[key], n, root) <==>
        && MemberHolds(lib, r, key, v.fields[key], names, root)
        && MemberHolds(lib, r, key, v.fields[key], members, root)
    {
      hide NameHolds, Holds;
      assert NameHolds(lib, r, key, None) by { NoRule(lib, r, key); }
    }
    hide MemberHolds;
  }

  lemma NoRule(lib: Library, r: Reading, key: string)
    ensures NameHolds(lib, r, key, None)
  {}

  lemma MembersAlone(lib: Library, r: Reading, v: Json, n: Node, root: Root)
    ensures !v.Obj? ==>
      && Holds(lib, r, v, ANY_NODE.(names := n.names), root)
      && Holds(lib, r, v, ANY_NODE.(properties := n.properties, extra := n.extra), root)
    ensures v.Obj? ==>
      (MembersHold(lib, r, v, n, root) <==>
        && Holds(lib, r, v, ANY_NODE.(names := n.names), root)
        && Holds(lib, r, v, ANY_NODE.(properties := n.properties, extra := n.extra), root))
  {
    NoLimitsHold(lib, r, v);
    PlainNode(lib, r, v, ANY_NODE.(names := n.names), root);
    PlainNode(lib, r, v, ANY_NODE.(properties := n.properties, extra := n.extra), root);
    if v.Obj? { MembersInTwo(lib, r, v, n, root); }
    hide LimitsHold, Holds, MembersHold;
  }

  /** A reference asks for what it names, whatever stands beside it (section 8.3 of JSON Schema Core), where that is not
      itself a reference. */
  lemma ReferenceMeans(lib: Library, r: Reading, v: Json, n: Node, name: string, root: Root)
    requires n.ref == Some("#/definitions/" + name) && name in root.definitions && root.definitions[name].ref.None?
    ensures Holds(lib, r, v, n, root) <==> Holds(lib, r, v, root.definitions[name], root)
  {
    var ref := "#/definitions/" + name;
    assert ref[|DEFINITIONS|..] == name && DEFINITIONS <= ref;
    var named := root.definitions[name];
    assert Resolve(n, root) == Success(named);
    ReferenceAgreesIff(n, root);
    ReferenceAgreesIff(named, root);
    SameTarget(lib, r, v, n, named, root);
  }

  lemma SameTarget(lib: Library, r: Reading, v: Json, n: Node, m: Node, root: Root)
    requires Deref(r, n, root) == Deref(r, m, root)
    ensures Holds(lib, r, v, n, root) <==> Holds(lib, r, v, m, root)
  {
    hide Deref, KindHolds, LimitsHold, MemberHolds;
  }

  /** Any other reference, and one that names nothing, is an error of the schema and never a valid record. */
  lemma BadReferenceFails(lib: Library, v: Json, n: Node, root: Root)
    requires n.ref.Some? && forall name :: name in root.definitions ==> n.ref.value != "#/definitions/" + name
    ensures !Holds(lib, Python, v, n, root) && Resolve(n, root).Failure?
  {
    if DEFINITIONS <= n.ref.value {
      assert n.ref.value == "#/definitions/" + n.ref.value[|DEFINITIONS|..];
    }
  }
}
