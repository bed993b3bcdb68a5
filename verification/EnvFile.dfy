/** The operator's .env file: its lines, the last-wins reading compose makes of them, and the edits
    the CLI applies in place (neops_compose/env.py, over python-dotenv's set_key and unset_key). */
module EnvFile {
  import opened Wrappers
  import opened EnvValues

  /** `prefix` is the indentation and an optional "export "; `spaced` says that blanks stand before the `=`. */
  datatype Line = Assignment(prefix: string, key: string, spaced: bool, value: string) | Text(text: string)

  predicate Sets(line: Line, key: string) { line.Assignment? && line.key == key }

  /** What dotenv_values and compose read: the last assignment of a key wins. */
  function Read(lines: seq<Line>): Vals
  {
    if lines == [] then map[] else ReadLine(lines[0]) + Read(lines[1..])
  }

  function ReadLine(line: Line): Vals { if line.Assignment? then map[line.key := line.value] else map[] }

  /** set_key: every assignment of the key is rewritten, a new one goes to the end. */
  function SetLines(lines: seq<Line>, key: string, value: string): seq<Line>
  {
    Rewritten(lines, key, value) + (if Count(lines, key) == 0 then [Assignment("", key, false, value)] else [])
  }

  function Rewritten(lines: seq<Line>, key: string, value: string): seq<Line>
  {
    if lines == [] then []
    else
      [if Sets(lines[0], key) then Assignment("", key, false, value) else lines[0]]
      + Rewritten(lines[1..], key, value)
  }

  /** unset_key: every assignment of the key goes. */
  function UnsetLines(lines: seq<Line>, key: string): seq<Line>
  {
    if lines == [] then []
    else (if Sets(lines[0], key) then [] else [lines[0]]) + UnsetLines(lines[1..], key)
  }

  function Count(lines: seq<Line>, key: string): nat
  {
    if lines == [] then 0 else (if Sets(lines[0], key) then 1 else 0) + Count(lines[1..], key)
  }

  /** The index of the first assignment of `key`, or |lines|. */
  function First(lines: seq<Line>, key: string): (i: nat)
    ensures i <= |lines|
    ensures i < |lines| <==> Count(lines, key) > 0
    ensures i < |lines| ==> Sets(lines[i], key)
  {
    if lines == [] || Sets(lines[0], key) then 0 else 1 + First(lines[1..], key)
  }

  /** The key sits on exactly one `KEY=` line. */
  predicate SingleExact(lines: seq<Line>, key: string)
  {
    Count(lines, key) == 1 && !lines[First(lines, key)].spaced
  }

  function RenameInPlace(lines: seq<Line>, old_: string, new_: string): seq<Line>
    requires SingleExact(lines, old_)
  {
    var i := First(lines, old_);
    lines[i := lines[i].(key := new_)]
  }

  // ----- what each edit does to the reading -----

  lemma {:induction false} CountIsMembership(lines: seq<Line>, key: string)
    ensures Count(lines, key) > 0 <==> key in Read(lines)
  {
    if lines != [] {
      CountIsMembership(lines[1..], key);
    }
  }

  lemma {:induction false} ReadConcat(a: seq<Line>, b: seq<Line>)
    ensures Read(a + b) == Read(a) + Read(b)
  {
    if a == [] {
      assert a + b == b;
    } else {
      assert (a + b)[1..] == a[1..] + b;
      ReadConcat(a[1..], b);
      hide ReadLine;
      MergeAssociates(ReadLine(a[0]), Read(a[1..]), Read(b));
    }
  }

  lemma MergeAssociates(a: Vals, b: Vals, c: Vals)
    ensures (a + b) + c == a + (b + c)
  {}

  lemma RewriteFirst(line: Line, rest: Vals, key: string, value: string)
    ensures var after := if key in rest then rest[key := value] else rest;
      var all := ReadLine(line) + rest;
      ReadLine(if Sets(line, key) then Assignment("", key, false, value) else line) + after
      == if key in all then all[key := value] else all
  {}

  lemma RewriteUnfolds(lines: seq<Line>, key: string, value: string)
    requires lines != []
    ensures Read(lines) == ReadLine(lines[0]) + Read(lines[1..])
    ensures var first := if Sets(lines[0], key) then Assignment("", key, false, value) else lines[0];
      Read(Rewritten(lines, key, value)) == ReadLine(first) + Read(Rewritten(lines[1..], key, value))
  {
    hide Sets, ReadLine;
    assert Rewritten(lines, key, value)[1..] == Rewritten(lines[1..], key, value);
  }

  lemma {:induction false} ReadRewritten(lines: seq<Line>, key: string, value: string)
    ensures Read(Rewritten(lines, key, value)) == if key in Read(lines) then Read(lines)[key := value] else Read(lines)
  {
    if lines != [] {
      ReadRewritten(lines[1..], key, value);
      RewriteUnfolds(lines, key, value);
      RewriteFirst(lines[0], Read(lines[1..]), key, value);
      hide Read, ReadLine, Rewritten, Sets;
    }
  }

  lemma ReadSet(lines: seq<Line>, key: string, value: string)
    ensures Read(SetLines(lines, key, value)) == Read(lines)[key := value]
  {
    CountIsMembership(lines, key);
    ReadRewritten(lines, key, value);
    var last := Assignment("", key, false, value);
    ReadConcat(Rewritten(lines, key, value), [last]);
    assert Read([last]) == map[key := value] by { assert [last][1..] == []; }
    hide Read, Rewritten, Count;
    assert Rewritten(lines, key, value) + [] == Rewritten(lines, key, value);
  }

  lemma {:induction false} ReadUnset(lines: seq<Line>, key: string)
    ensures Read(UnsetLines(lines, key)) == Read(lines) - {key}
  {
    if lines != [] {
      var rest := UnsetLines(lines[1..], key);
      ReadUnset(lines[1..], key);
      if !Sets(lines[0], key) {
        assert UnsetLines(lines, key) == [lines[0]] + rest && ([lines[0]] + rest)[1..] == rest;
        assert key !in ReadLine(lines[0]);
      } else {
        assert UnsetLines(lines, key) == rest;
      }
    }
  }

  lemma {:induction false} ReadRename(lines: seq<Line>, old_: string, new_: string)
    requires SingleExact(lines, old_) && new_ !in Read(lines) && old_ != new_
    ensures old_ in Read(lines)
    ensures Read(RenameInPlace(lines, old_, new_)) == (Read(lines) - {old_})[new_ := Read(lines)[old_]]
  {
    CountIsMembership(lines, old_);
    CountIsMembership(lines[1..], old_);
    if Sets(lines[0], old_) {
      RenameFirst(lines, old_, new_);
    } else {
      RenameLater(lines, old_, new_);
      ReadRename(lines[1..], old_, new_);
    }
  }

  lemma RenameFirst(lines: seq<Line>, old_: string, new_: string)
    requires lines != [] && Sets(lines[0], old_) && SingleExact(lines, old_) && new_ !in Read(lines) && old_ != new_
    requires old_ !in Read(lines[1..])
    ensures Read(RenameInPlace(lines, old_, new_)) == (Read(lines) - {old_})[new_ := Read(lines)[old_]]
  {
    var rest := Read(lines[1..]);
    assert First(lines, old_) == 0;
    assert RenameInPlace(lines, old_, new_)[1..] == lines[1..];
    assert Read(lines) == map[old_ := lines[0].value] + rest;
    assert Read(RenameInPlace(lines, old_, new_)) == map[new_ := lines[0].value] + rest;
  }

  lemma RenameLater(lines: seq<Line>, old_: string, new_: string)
    requires lines != [] && !Sets(lines[0], old_) && SingleExact(lines, old_) && new_ !in Read(lines)
    ensures SingleExact(lines[1..], old_) && new_ !in Read(lines[1..])
    ensures RenameInPlace(lines, old_, new_) == [lines[0]] + RenameInPlace(lines[1..], old_, new_)
  {
    assert First(lines, old_) == 1 + First(lines[1..], old_);
  }

  // ----- the edits over whole runs -----

  datatype Edit = Set(key: string, value: string) | Unset(key: string) | Rename(old_: string, new_: string)

  datatype RenameError = Missing | AlreadyThere

  datatype Contents = Contents(exists_: bool, lines: seq<Line>, values: Vals)

  /** The reading in memory is the reading of the file. */
  predicate Coherent(c: Contents) { c.values == Read(c.lines) && (!c.exists_ ==> c.lines == []) }

  function Checked(c: Contents, e: Edit): Option<RenameError>
  {
    if !e.Rename? then None
    else if !c.exists_ || e.old_ !in c.values then Some(Missing)
    else if e.new_ in c.values then Some(AlreadyThere)
    else None
  }

  /** The successive contents of the file while an edit runs; each is one atomic write. */
  function Writes(c: Contents, e: Edit): seq<seq<Line>>
  {
    match e
    case Set(k, v) => [SetLines(c.lines, k, v)]
    case Unset(k) => if k in c.values then [UnsetLines(c.lines, k)] else []
    case Rename(o, n) =>
      if Checked(c, e).Some? then []
      else if SingleExact(c.lines, o) then [RenameInPlace(c.lines, o, n)]
      else
        var first := SetLines(c.lines, n, c.values[o]);
        [first, UnsetLines(first, o)]
  }

  /** The reading an edit leaves. */
  function EditedValues(c: Contents, e: Edit): Vals
  {
    match e
    case Set(k, v) => c.values[k := v]
    case Unset(k) => c.values - {k}
    case Rename(o, n) => if Checked(c, e).Some? then c.values else (c.values - {o})[n := c.values[o]]
  }

  function Last(lines: seq<Line>, writes: seq<seq<Line>>): seq<Line>
  {
    if writes == [] then lines else writes[|writes| - 1]
  }

  function Apply(c: Contents, e: Edit): Contents
  {
    var writes := Writes(c, e);
    Contents(c.exists_ || writes != [], Last(c.lines, writes), EditedValues(c, e))
  }

  function ApplyAll(c: Contents, edits: seq<Edit>): Contents
    decreases |edits|
  {
    if edits == [] then c else ApplyAll(Apply(c, edits[0]), edits[1..])
  }

  /** Both ways of renaming leave the same reading. */
  lemma RenameReads(c: Contents, o: string, n: string)
    requires Coherent(c) && Checked(c, Rename(o, n)).None?
    ensures Read(Last(c.lines, Writes(c, Rename(o, n)))) == (c.values - {o})[n := c.values[o]]
  {
    hide SetLines, UnsetLines, Read, RenameInPlace;
    if SingleExact(c.lines, o) {
      ReadRename(c.lines, o, n);
    } else {
      var first := SetLines(c.lines, n, c.values[o]);
      ReadSet(c.lines, n, c.values[o]);
      ReadUnset(first, o);
    }
  }

  lemma ApplyKeepsCoherence(c: Contents, e: Edit)
    requires Coherent(c)
    ensures Coherent(Apply(c, e))
  {
    hide SetLines, UnsetLines, Read, RenameInPlace, SingleExact;
    match e
    case Set(k, v) => ReadSet(c.lines, k, v);
    case Unset(k) => ReadUnset(c.lines, k);
    case Rename(o, n) =>
      if Checked(c, e).None? {
        RenameReads(c, o, n);
      }
  }

  /** After any sequence of edits the values in memory are the last-wins reading of the file. */
  lemma {:induction false} EditsKeepCoherence(c: Contents, edits: seq<Edit>)
    requires Coherent(c)
    ensures Coherent(ApplyAll(c, edits))
    decreases |edits|
  {
    if edits != [] {
      ApplyKeepsCoherence(c, edits[0]);
      EditsKeepCoherence(Apply(c, edits[0]), edits[1..]);
    }
  }

  /** A rename that does not raise carries over the value compose read, and nothing else changes. */
  lemma RenameCarriesValue(c: Contents, o: string, n: string)
    requires Coherent(c) && Checked(c, Rename(o, n)).None?
    ensures var after := Read(Apply(c, Rename(o, n)).lines);
      && o !in after && n in after && after[n] == Read(c.lines)[o]
      && forall k :: k != o && k != n ==>
        (k in after <==> k in Read(c.lines)) && (k in after ==> after[k] == Read(c.lines)[k])
  {
    ApplyKeepsCoherence(c, Rename(o, n));
  }

  // ----- the object the CLI holds -----

  class Env {
    var exists_: bool
    var lines: seq<Line>
    var values: Vals
    /** Every content the file has had since the object was made. */
    ghost var written: seq<seq<Line>>

    ghost function Now(): Contents
      reads this
    {
      Contents(exists_, lines, values)
    }

    constructor (exists_: bool, lines: seq<Line>)
      requires !exists_ ==> lines == []
      ensures Coherent(Now()) && this.exists_ == exists_ && this.lines == lines && written == []
    {
      this.exists_ := exists_;
      this.lines := lines;
      this.values := Read(lines);
      this.written := [];
    }

    method SetKey(key: string, value: string)
      requires Coherent(Now())
      modifies this
      ensures Now() == Apply(old(Now()), Set(key, value)) && Coherent(Now())
      ensures written == old(written) + Writes(old(Now()), Set(key, value))
    {
      ApplyKeepsCoherence(Now(), Set(key, value));
      lines := SetLines(lines, key, value);
      written := written + [lines];
      values := values[key := value];
      exists_ := true;
    }

    method UnsetKey(key: string)
      requires Coherent(Now())
      modifies this
      ensures Now() == Apply(old(Now()), Unset(key)) && Coherent(Now())
      ensures written == old(written) + Writes(old(Now()), Unset(key))
    {
      ApplyKeepsCoherence(Now(), Unset(key));
      if key in values {
        CountIsMembership(lines, key);
        lines := UnsetLines(lines, key);
        written := written + [lines];
        values := values - {key};
      } else {
        assert values - {key} == values;
      }
    }

    method RenameKey(old_: string, new_: string) returns (error: Option<RenameError>)
      requires Coherent(Now())
      modifies this
      ensures error == Checked(old(Now()), Rename(old_, new_))
      ensures Now() == Apply(old(Now()), Rename(old_, new_)) && Coherent(Now())
      ensures written == old(written) + Writes(old(Now()), Rename(old_, new_))
    {
      hide SetLines, UnsetLines, Read;
      ghost var before := Now();
      ApplyKeepsCoherence(before, Rename(old_, new_));
      if !exists_ || old_ !in values { return Some(Missing); }
      if new_ in values { return Some(AlreadyThere); }
      if Count(lines, old_) == 1 && !lines[First(lines, old_)].spaced {
        var i := First(lines, old_);
        lines := lines[i := lines[i].(key := new_)];
        written := written + [lines];
        values := (values - {old_})[new_ := values[old_]];
      } else {
        SetKey(new_, values[old_]);
        UnsetKey(old_);
        assert values == EditedValues(before, Rename(old_, new_));
      }
      return None;
    }
  }
}
