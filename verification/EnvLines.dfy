/** What an edit of the .env does to the lines of the file, beside the reading they have: comments, blank lines and the
    assignments of other keys stay as they are and where they are (neops_compose/env.py:39-69). */
module EnvLines {
  import opened Wrappers
  import opened EnvFile

  /** The lines that assign none of `keys`, in their order. */
  function Others(lines: seq<Line>, keys: set<string>): seq<Line>
  {
    if lines == [] then []
    else if lines[0].Assignment? && lines[0].key in keys then Others(lines[1..], keys)
    else [lines[0]] + Others(lines[1..], keys)
  }

  lemma {:induction false} OthersConcat(a: seq<Line>, b: seq<Line>, keys: set<string>)
    ensures Others(a + b, keys) == Others(a, keys) + Others(b, keys)
  {
    if a == [] {
      assert a + b == b;
    } else {
      assert (a + b)[1..] == a[1..] + b;
      OthersConcat(a[1..], b, keys);
    }
  }

  // ----- unset -----

  /** Unset leaves exactly the lines that do not assign the key. */
  lemma {:induction false} UnsetLeavesOthers(lines: seq<Line>, key: string)
    ensures UnsetLines(lines, key) == Others(lines, {key})
  {
    if lines != [] { UnsetLeavesOthers(lines[1..], key); }
  }

  lemma {:induction false} FewerOthers(lines: seq<Line>, fewer: set<string>, keys: set<string>)
    requires fewer <= keys
    ensures Others(Others(lines, fewer), keys) == Others(lines, keys)
  {
    if lines != [] {
      FewerOthers(lines[1..], fewer, keys);
      var first := lines[0];
      if !(first.Assignment? && first.key in fewer) {
        assert ([first] + Others(lines[1..], fewer))[1..] == Others(lines[1..], fewer);
      }
    }
  }

  // ----- set -----

  /** Set rewrites every assignment of the key where it stands, and appends one if there is none. */
  lemma {:induction false} SetRewritesInPlace(lines: seq<Line>, key: string, value: string)
    ensures var new_ := Assignment("", key, false, value);
      var rewritten := seq(|lines|, i requires 0 <= i < |lines| => if Sets(lines[i], key) then new_ else lines[i]);
      SetLines(lines, key, value)
      == if exists i :: 0 <= i < |lines| && Sets(lines[i], key) then rewritten else lines + [new_]
  {
    RewrittenAt(lines, key, value);
    CountIff(lines, key);
    hide Rewritten, Count, Sets;
    var new_ := Assignment("", key, false, value);
    var rewritten := seq(|lines|, i requires 0 <= i < |lines| => if Sets(lines[i], key) then new_ else lines[i]);
    assert Rewritten(lines, key, value) == rewritten;
    if !exists i :: 0 <= i < |lines| && Sets(lines[i], key) {
      assert rewritten == lines;
    } else {
      assert rewritten + [] == rewritten;
    }
  }

  lemma {:induction false} RewrittenAt(lines: seq<Line>, key: string, value: string)
    ensures |Rewritten(lines, key, value)| == |lines|
    ensures forall i :: 0 <= i < |lines| ==>
      Rewritten(lines, key, value)[i] == if Sets(lines[i], key) then Assignment("", key, false, value) else lines[i]
  {
    if lines != [] { RewrittenAt(lines[1..], key, value); }
  }

  lemma {:induction false} CountIff(lines: seq<Line>, key: string)
    ensures Count(lines, key) > 0 <==> exists i :: 0 <= i < |lines| && Sets(lines[i], key)
  {
    if lines != [] {
      CountIff(lines[1..], key);
      if Count(lines[1..], key) > 0 {
        var i :| 0 <= i < |lines[1..]| && Sets(lines[1..][i], key);
        assert Sets(lines[i + 1], key);
      }
      if i :| 0 <= i < |lines| && Sets(lines[i], key) {
        assert i > 0 ==> Sets(lines[1..][i - 1], key);
      }
    }
  }

  lemma {:induction false} OthersOfRewritten(lines: seq<Line>, key: string, value: string, keys: set<string>)
    requires key in keys
    ensures Others(Rewritten(lines, key, value), keys) == Others(lines, keys)
  {
    if lines != [] {
      OthersOfRewritten(lines[1..], key, value, keys);
      assert Rewritten(lines, key, value)[1..] == Rewritten(lines[1..], key, value);
    }
  }

  lemma OthersOfSet(lines: seq<Line>, key: string, value: string, keys: set<string>)
    requires key in keys
    ensures Others(SetLines(lines, key, value), keys) == Others(lines, keys)
  {
    OthersOfRewritten(lines, key, value, keys);
    var last := Assignment("", key, false, value);
    assert Others([last], keys) == [] by { assert [last][1..] == []; }
    hide Rewritten, Others, Count;
    OthersConcat(Rewritten(lines, key, value), [last], keys);
    assert Rewritten(lines, key, value) + [] == Rewritten(lines, key, value);
  }

  // ----- rename -----

  /** The key stands on line `i` alone, written `KEY=`. */
  predicate OnOneLine(lines: seq<Line>, key: string, i: nat)
  {
    && i < |lines| && Sets(lines[i], key) && !lines[i].spaced
    && forall j :: 0 <= j < |lines| && j != i ==> !Sets(lines[j], key)
  }

  lemma {:induction false} OneLineIff(lines: seq<Line>, key: string)
    ensures SingleExact(lines, key) ==> OnOneLine(lines, key, First(lines, key))
    ensures forall i :: OnOneLine(lines, key, i) ==> SingleExact(lines, key) && First(lines, key) == i
    decreases |lines|
  {
    if lines != [] {
      var rest := lines[1..];
      OneLineIff(rest, key);
      CountIff(rest, key);
      forall i: nat | OnOneLine(lines, key, i) ensures SingleExact(lines, key) && First(lines, key) == i {
        if i > 0 {
          assert Sets(rest[i - 1], key) && !Sets(lines[0], key);
          assert OnOneLine(rest, key, i - 1);
        } else {
          assert forall j :: 0 <= j < |rest| ==> !Sets(rest[j], key);
        }
      }
      if SingleExact(lines, key) {
        if Sets(lines[0], key) {
          assert forall j :: 1 <= j < |lines| ==> lines[j] == rest[j - 1];
        } else {
          assert SingleExact(rest, key);
          assert forall j :: 1 <= j < |lines| ==> lines[j] == rest[j - 1];
        }
      }
    }
  }

  /** A key on one `KEY=` line is renamed where it stands, in one write: indentation, `export`, value and all else on
      the line stay, and so does every other line. */
  lemma RenameInOneLine(c: Contents, o: string, n: string, i: nat)
    requires Checked(c, Rename(o, n)).None? && OnOneLine(c.lines, o, i)
    ensures Writes(c, Rename(o, n)) == [c.lines[i := Assignment(c.lines[i].prefix, n, false, c.lines[i].value)]]
  {
    OneLineIff(c.lines, o);
  }

  /** Otherwise the value moves to the end, and every assignment of the old key goes. */
  lemma RenameMovesToEnd(c: Contents, o: string, n: string)
    requires Coherent(c) && Checked(c, Rename(o, n)).None? && forall i :: !OnOneLine(c.lines, o, i)
    ensures Apply(c, Rename(o, n)).lines == Others(c.lines, {o}) + [Assignment("", n, false, c.values[o])]
  {
    OneLineIff(c.lines, o);
    CountIsMembership(c.lines, n);
    CountIff(c.lines, n);
    SetRewritesInPlace(c.lines, n, c.values[o]);
    hide SetLines, UnsetLines, Read, SingleExact, Count;
    var last := Assignment("", n, false, c.values[o]);
    var first := SetLines(c.lines, n, c.values[o]);
    assert first == c.lines + [last];
    UnsetLeavesOthers(first, o);
    OthersConcat(c.lines, [last], {o});
    assert Others([last], {o}) == [last] by { assert [last][1..] == []; }
  }

  lemma OthersOfRenamed(lines: seq<Line>, o: string, n: string, keys: set<string>)
    requires SingleExact(lines, o) && o in keys && n in keys
    ensures Others(RenameInPlace(lines, o, n), keys) == Others(lines, keys)
  {
    var i := First(lines, o);
    var a, b := lines[..i], lines[i + 1..];
    var renamed := lines[i].(key := n);
    OneLineIff(lines, o);
    assert lines == a + [lines[i]] + b && RenameInPlace(lines, o, n) == a + [renamed] + b;
    Without(lines[i], keys);
    Without(renamed, keys);
    hide Others, SingleExact, RenameInPlace, First;
    OthersConcat(a + [lines[i]], b, keys);
    OthersConcat(a, [lines[i]], keys);
    OthersConcat(a + [renamed], b, keys);
    OthersConcat(a, [renamed], keys);
  }

  lemma Without(line: Line, keys: set<string>)
    requires line.Assignment? && line.key in keys
    ensures Others([line], keys) == []
  {
    assert [line][1..] == [];
  }

  // ----- every edit -----

  function KeysOf(e: Edit): set<string>
  {
    match e
    case Set(k, _) => {k}
    case Unset(k) => {k}
    case Rename(o, n) => {o, n}
  }

  /** Every content the file goes through while an edit runs has the lines of the other keys, the comments and the
      blank lines of the file before it, in their order. */
  lemma WritesKeepOthers(c: Contents, e: Edit, keys: set<string>, w: seq<Line>)
    requires KeysOf(e) <= keys && w in Writes(c, e)
    ensures Others(w, keys) == Others(c.lines, keys)
  {
    hide SetLines, UnsetLines, RenameInPlace, SingleExact, Others;
    match e
    case Set(k, v) => OthersOfSet(c.lines, k, v, keys);
    case Unset(k) =>
      UnsetLeavesOthers(c.lines, k);
      FewerOthers(c.lines, {k}, keys);
    case Rename(o, n) =>
      if SingleExact(c.lines, o) {
        OthersOfRenamed(c.lines, o, n, keys);
      } else {
        var first := SetLines(c.lines, n, c.values[o]);
        OthersOfSet(c.lines, n, c.values[o], keys);
        UnsetLeavesOthers(first, o);
        FewerOthers(first, {o}, keys);
      }
  }

  lemma ApplyKeepsOthers(c: Contents, e: Edit, keys: set<string>)
    requires KeysOf(e) <= keys
    ensures Others(Apply(c, e).lines, keys) == Others(c.lines, keys)
  {
    hide Others, Writes, KeysOf;
    var writes := Writes(c, e);
    if writes != [] { WritesKeepOthers(c, e, keys, writes[|writes| - 1]); }
  }

  /** So do any number of edits. */
  lemma {:induction false} EditsKeepOthers(c: Contents, edits: seq<Edit>, keys: set<string>)
    requires forall e :: e in edits ==> KeysOf(e) <= keys
    ensures Others(ApplyAll(c, edits).lines, keys) == Others(c.lines, keys)
    decreases |edits|
  {
    hide Others, Apply, KeysOf;
    if edits != [] {
      assert edits[0] in edits;
      ApplyKeepsOthers(c, edits[0], keys);
      EditsKeepOthers(Apply(c, edits[0]), edits[1..], keys);
    }
  }
}
