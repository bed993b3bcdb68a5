/** The engine's CMS token: minting, installing, rotating and revoking it one call at a time, any of which may
    fail (neops_compose/token.py). */
module Tokens {
  import opened Wrappers

  /** What engine.env or mint may hold: a key naming its row, or text `key_id` cannot read. */
  datatype Token = Key(id: int, secret: int) | Malformed(text: string)

  /** `cms` are the StaticAPIKey rows, `file` the token in engine.env, `running` the one the engine started with,
      `recorded` the ids in the state file. */
  datatype World = World(cms: map<int, int>, file: Option<Token>, running: Option<Token>, recorded: seq<int>)
  {
    predicate Accepts(t: Token) { t.Key? && t.id in cms && cms[t.id] == t.secret }

    predicate Holds(id: int)
    {
      (file.Some? && file.value.Key? && file.value.id == id)
        || (running.Some? && running.value.Key? && running.value.id == id)
    }

    /** Whatever the file and the engine hold, the CMS accepts. */
    predicate Safe() { (file.Some? ==> Accepts(file.value)) && (running.Some? ==> Accepts(running.value)) }
  }

  // ----- how each call may end -----

  datatype CheckFate = Answers | Unavailable

  /** A mint that fails may have left its row behind. */
  datatype MintFate = Mints(token: Token) | MintFails(row: Option<Token>)

  /** write_secret truncates the file before it writes. */
  datatype WriteFate = Written | WriteFails(truncated: bool)

  datatype EngineAfter = Kept | Gone | Recreated

  /** A failed `up --wait` may have left the old engine, none, or the recreated one. */
  datatype UpFate = UpWorks | UpFails(engine: EngineAfter)

  datatype RevokeFate = Revoked | RevokeFails(deleted: bool)

  datatype Script = Script(check: CheckFate, mint: MintFate, write: WriteFate, saved: bool, up: UpFate,
    revoke: RevokeFate)

  // ----- the worlds each routine goes through -----

  /** The successive worlds, and whether the routine returned. */
  datatype Course = Course(worlds: seq<World>, returned: bool)

  function Last(w: World, worlds: seq<World>): World { if worlds == [] then w else worlds[|worlds| - 1] }

  function WithRow(w: World, t: Token): World { if t.Key? then w.(cms := w.cms[t.id := t.secret]) else w }

  function MintCourse(w: World, fate: MintFate): Course
  {
    match fate
    case Mints(t) => Course([WithRow(w, t)], true)
    case MintFails(row) => Course(if row.Some? then [WithRow(w, row.value)] else [], false)
  }

  function EngineOf(w: World, after: EngineAfter): World
  {
    match after
    case Kept => w
    case Gone => w.(running := None)
    case Recreated => w.(running := w.file)
  }

  /** _install: write the file, record the id, save, recreate the engine. */
  function InstallCourse(w: World, t: Token, s: Script): Course
  {
    if s.write.WriteFails? then Course(if s.write.truncated then [w.(file := None)] else [], false)
    else
      var written := w.(file := Some(t));
      if t.Malformed? || !s.saved then Course([written], false)
      else
        var saved := written.(recorded := written.recorded + [t.id]);
        if s.up.UpFails? then Course([written, saved, EngineOf(saved, s.up.engine)], false)
        else Course([written, saved, EngineOf(saved, Recreated)], true)
  }

  function Minted(w: World, s: Script): Course
  {
    var mint := MintCourse(w, s.mint);
    if !mint.returned then mint
    else
      var install := InstallCourse(Last(w, mint.worlds), s.mint.token, s);
      Course(mint.worlds + install.worlds, install.returned)
  }

  function EnsureCourse(w: World, s: Script): Course
  {
    if w.file.Some? && s.check == Unavailable then Course([], false)
    else if w.file.Some? && w.Accepts(w.file.value) then Course([], true)
    else Minted(w, s)
  }

  function Without(w: World, id: int): World { w.(cms := w.cms - {id}) }

  /** The errors of the revocation are caught: rotate returns all the same. */
  function RevokeCourse(w: World, old_: Option<Token>, s: Script): seq<World>
  {
    if old_.None? || old_.value.Malformed? || s.revoke == RevokeFails(false) then []
    else [Without(w, old_.value.id)]
  }

  function RotateCourse(w: World, s: Script): Course
  {
    var minted := Minted(w, s);
    if !minted.returned then minted
    else Course(minted.worlds + RevokeCourse(Last(w, minted.worlds), w.file, s), true)
  }

  datatype Command = Ensure(script: Script) | Rotate(script: Script)

  function CommandCourse(w: World, c: Command): Course
  {
    match c
    case Ensure(s) => EnsureCourse(w, s)
    case Rotate(s) => RotateCourse(w, s)
  }

  /** Every world a sequence of commands goes through. */
  function History(w: World, commands: seq<Command>): seq<World>
    decreases |commands|
  {
    if commands == [] then []
    else
      var worlds := CommandCourse(w, commands[0]).worlds;
      worlds + History(Last(w, worlds), commands[1..])
  }

  // ----- safety -----

  /** A well-formed key whose id no row has. */
  predicate Fresh(w: World, t: Token) { t.Key? && t.id !in w.cms }

  predicate FreshMint(w: World, fate: MintFate)
  {
    match fate
    case Mints(t) => Fresh(w, t)
    case MintFails(row) => row.Some? ==> Fresh(w, row.value)
  }

  /** Each command's mint is fresh in the world it starts from. */
  predicate AllFresh(w: World, commands: seq<Command>)
    decreases |commands|
  {
    commands == []
    || (FreshMint(w, commands[0].script.mint)
        && AllFresh(Last(w, CommandCourse(w, commands[0]).worlds), commands[1..]))
  }

  /** From one world to the next, keys in use stay accepted, and a row that goes is held by neither side. */
  predicate SafeStep(a: World, b: World)
  {
    b.Safe() && forall id :: id in a.cms && id !in b.cms ==> !a.Holds(id) && !b.Holds(id)
  }

  predicate SafeCourse(w: World, worlds: seq<World>)
    decreases |worlds|
  {
    worlds == [] || (SafeStep(w, worlds[0]) && SafeCourse(worlds[0], worlds[1..]))
  }

  lemma {:induction false} CoursesJoin(w: World, a: seq<World>, b: seq<World>)
    requires SafeCourse(w, a) && SafeCourse(Last(w, a), b)
    ensures SafeCourse(w, a + b) && Last(w, a + b) == Last(Last(w, a), b)
    decreases |a|
  {
    if a == [] {
      assert a + b == b;
    } else {
      assert (a + b)[1..] == a[1..] + b;
      CoursesJoin(a[0], a[1..], b);
    }
  }

  lemma {:induction false} LastIsSafe(w: World, worlds: seq<World>)
    requires w.Safe() && SafeCourse(w, worlds)
    ensures Last(w, worlds).Safe()
    decreases |worlds|
  {
    if worlds != [] {
      LastIsSafe(worlds[0], worlds[1..]);
    }
  }

  lemma OneSafeStep(a: World, b: World)
    ensures SafeCourse(a, [b]) <==> SafeStep(a, b)
  {
    assert [b][1..] == [];
  }

  lemma MintIsSafe(w: World, fate: MintFate)
    requires w.Safe() && FreshMint(w, fate)
    ensures SafeCourse(w, MintCourse(w, fate).worlds)
  {
    var worlds := MintCourse(w, fate).worlds;
    if worlds != [] {
      OneSafeStep(w, worlds[0]);
    }
  }

  lemma InstallIsSafe(w: World, t: Token, s: Script)
    requires w.Safe() && w.Accepts(t)
    ensures SafeCourse(w, InstallCourse(w, t, s).worlds)
    ensures InstallCourse(w, t, s).returned ==>
      var e := Last(w, InstallCourse(w, t, s).worlds); e.file == e.running == Some(t) && e.cms == w.cms
  {
    var written := w.(file := Some(t));
    var saved := if t.Key? then written.(recorded := written.recorded + [t.id]) else written;
    var worlds := InstallCourse(w, t, s).worlds;
    if |worlds| == 3 {
      assert worlds == [written] + ([saved] + [worlds[2]]);
      OneSafeStep(saved, worlds[2]);
      assert SafeCourse(written, [saved] + [worlds[2]]);
    } else if |worlds| == 1 {
      OneSafeStep(w, worlds[0]);
    }
  }

  lemma MintedIsSafe(w: World, s: Script)
    requires w.Safe() && FreshMint(w, s.mint)
    ensures SafeCourse(w, Minted(w, s).worlds)
    ensures Minted(w, s).returned ==>
      var e := Last(w, Minted(w, s).worlds);
      s.mint.Mints? && e.file == e.running == Some(s.mint.token) && e.cms == WithRow(w, s.mint.token).cms
  {
    MintIsSafe(w, s.mint);
    if s.mint.Mints? {
      var w' := WithRow(w, s.mint.token);
      OneSafeStep(w, w');
      InstallIsSafe(w', s.mint.token, s);
      CoursesJoin(w, [w'], InstallCourse(w', s.mint.token, s).worlds);
    }
  }

  /** The revocation removes a row that the file and the engine have already left. */
  lemma CommandIsSafe(w: World, c: Command)
    requires w.Safe() && FreshMint(w, c.script.mint)
    ensures SafeCourse(w, CommandCourse(w, c).worlds)
  {
    MintedIsSafe(w, c.script);
    if c.Rotate? && Minted(w, c.script).returned {
      var minted := Minted(w, c.script).worlds;
      LastIsSafe(w, minted);
      var last, revoked := Last(w, minted), RevokeCourse(Last(w, minted), w.file, c.script);
      if revoked != [] {
        OneSafeStep(last, revoked[0]);
      }
      CoursesJoin(w, minted, RevokeCourse(Last(w, minted), w.file, c.script));
    }
  }

  /** With no revocation from outside and a fresh well-formed key from each mint, at every step of any sequence of
      ensure and rotate calls, each failing anywhere, what engine.env and the running engine hold is accepted by
      the CMS, and a revoke only removes a key neither of them holds. */
  lemma {:induction false} TokensStaySafe(w: World, commands: seq<Command>)
    requires w.Safe() && AllFresh(w, commands)
    ensures SafeCourse(w, History(w, commands))
    decreases |commands|
  {
    if commands != [] {
      var worlds := CommandCourse(w, commands[0]).worlds;
      CommandIsSafe(w, commands[0]);
      LastIsSafe(w, worlds);
      TokensStaySafe(Last(w, worlds), commands[1..]);
      CoursesJoin(w, worlds, History(Last(w, worlds), commands[1..]));
    }
  }

  /** Every call works and the mint hands out a readable key; the revocation is left open. */
  predicate Uninterrupted(s: Script)
  {
    s.check == Answers && s.mint.Mints? && s.mint.token.Key? && s.write == Written && s.saved && s.up == UpWorks
  }

  /** The new key's row, file, engine and record. */
  function WithKey(w: World, t: Token): World
    requires t.Key?
  {
    World(w.cms[t.id := t.secret], Some(t), Some(t), w.recorded + [t.id])
  }

  lemma MintedEnds(w: World, s: Script)
    requires Uninterrupted(s)
    ensures Minted(w, s).returned && Last(w, Minted(w, s).worlds) == WithKey(w, s.mint.token)
  {
    var w' := WithRow(w, s.mint.token);
    var worlds := InstallCourse(w', s.mint.token, s).worlds;
    assert Last(w, [w'] + worlds) == worlds[2];
  }

  /** An uninterrupted ensure ends with an accepted key in engine.env: the one it found, nothing else changed, or a
      new one in the CMS, the file, the engine and the record. Another ensure then does nothing, whatever its check
      answers. */
  lemma EnsureSettles(w: World, s: Script, again: Script)
    requires Uninterrupted(s)
    ensures var course := EnsureCourse(w, s);
      var e := Last(w, course.worlds);
      && course.returned && e.file.Some? && e.Accepts(e.file.value)
      && e == (if w.file.Some? && w.Accepts(w.file.value) then w else WithKey(w, s.mint.token))
      && EnsureCourse(e, again).worlds == []
  {
    MintedEnds(w, s);
  }

  /** An unanswered check raises before anything is changed: no second key is made for one that may be good. */
  lemma UnansweredCheckChangesNothing(w: World, s: Script)
    requires w.file.Some? && s.check == Unavailable
    ensures EnsureCourse(w, s) == Course([], false)
  {}

  function RowsAfter(w: World, s: Script): map<int, int>
    requires s.mint.Mints? && s.mint.token.Key?
  {
    var rows := w.cms[s.mint.token.id := s.mint.token.secret];
    if w.file.Some? && w.file.value.Key? && s.revoke != RevokeFails(false) then rows - {w.file.value.id} else rows
  }

  /** A rotation whose calls work ends with the new key in the CMS, the file, the engine and the record, and without
      the row of the key the file held. A revocation that fails is not fatal: the row may stay. */
  lemma RotateEnds(w: World, s: Script)
    requires Uninterrupted(s)
    ensures var t := s.mint.token;
      && RotateCourse(w, s).returned
      && Last(w, RotateCourse(w, s).worlds) == World(RowsAfter(w, s), Some(t), Some(t), w.recorded + [t.id])
  {
    MintedEnds(w, s);
    var worlds, last := Minted(w, s).worlds, RevokeCourse(Last(w, Minted(w, s).worlds), w.file, s);
    assert worlds + [] == worlds;
    assert last != [] ==> Last(w, worlds + last) == last[0];
  }

  /** Afterwards the old key is accepted exactly when the revocation failed before it reached the row. */
  lemma OldKeySurvivesIff(w: World, s: Script)
    requires Uninterrupted(s) && w.file.Some? && w.Accepts(w.file.value) && w.file.value.id != s.mint.token.id
    ensures Last(w, RotateCourse(w, s).worlds).Accepts(w.file.value) <==> s.revoke == RevokeFails(false)
  {
    RotateEnds(w, s);
  }

  /** Nothing is revoked before the new key is in place: a rotation that raises leaves every row there was, up to the
      one the mint may have written. */
  lemma RaisedRotateRevokesNothing(w: World, s: Script, x: World, id: int)
    requires !RotateCourse(w, s).returned && x in RotateCourse(w, s).worlds && id in w.cms
    requires s.mint.Mints? && s.mint.token.Key? ==> s.mint.token.id != id
    requires s.mint.MintFails? && s.mint.row.Some? && s.mint.row.value.Key? ==> s.mint.row.value.id != id
    ensures id in x.cms && x.cms[id] == w.cms[id]
  {}

  /** It raises exactly when the mint, the write, the key's reading, the save or the start of the engine does. */
  lemma RotateReturnsIff(w: World, s: Script)
    ensures RotateCourse(w, s).returned
      <==> s.mint.Mints? && s.mint.token.Key? && s.write == Written && s.saved && s.up == UpWorks
  {}

  /** Without the invariant: an uninterrupted rotate leaves the CMS accepting the key it installed exactly when the
      token found in engine.env does not carry the id the mint then hands out, as one kept from before the CMS
      database was restored to an older state may. */
  lemma RotateKeepsNewKeyIff(w: World, s: Script)
    requires s.mint.Mints? && Fresh(w, s.mint.token) && s.write == Written && s.saved && s.up == UpWorks
      && s.revoke == Revoked
    ensures RotateCourse(w, s).returned
    ensures var e := Last(w, RotateCourse(w, s).worlds);
      && e.file == e.running == Some(s.mint.token)
      && (e.Accepts(s.mint.token) <==> !(w.file.Some? && w.file.value.Key? && w.file.value.id == s.mint.token.id))
  {
    var t := s.mint.token;
    var w' := WithRow(w, t);
    var worlds := InstallCourse(w', t, s).worlds;
    assert Last(w', worlds) == worlds[2];
    assert Last(w, [w'] + worlds) == worlds[2];
  }

  /** engine.env outlived the CMS's rows: it holds the key of row 1, the CMS has none, and the mint hands out row 1.
      The rotation revokes the very key it installed. */
  lemma ReusedRowIsRevoked()
    ensures var w := World(map[], Some(Key(1, 7)), Some(Key(1, 7)), []);
      var s := Script(Answers, Mints(Key(1, 8)), Written, true, UpWorks, Revoked);
      var e := Last(w, RotateCourse(w, s).worlds);
      RotateCourse(w, s).returned && e.file == e.running == Some(Key(1, 8)) && !e.Accepts(Key(1, 8))
  {
    var w := World(map[], Some(Key(1, 7)), Some(Key(1, 7)), []);
    RotateKeepsNewKeyIff(w, Script(Answers, Mints(Key(1, 8)), Written, true, UpWorks, Revoked));
  }

  // ----- the deployment the CLI drives -----

  class Deployment {
    var cms: map<int, int>
    var file: Option<Token>
    var running: Option<Token>
    var recorded: seq<int>
    ghost var seen: seq<World>

    ghost function Now(): World
      reads this
    {
      World(cms, file, running, recorded)
    }

    constructor (w: World)
      ensures Now() == w && seen == []
    {
      cms, file, running, recorded := w.cms, w.file, w.running, w.recorded;
      seen := [];
    }

    ghost method Note()
      modifies this`seen
      ensures seen == old(seen) + [Now()]
    {
      seen := seen + [Now()];
    }

    method Mint(fate: MintFate) returns (token: Option<Token>)
      modifies this
      ensures var course := MintCourse(old(Now()), fate);
        && Now() == Last(old(Now()), course.worlds) && seen == old(seen) + course.worlds
        && token == if course.returned then Some(fate.token) else None
    {
      var made := if fate.Mints? then Some(fate.token) else fate.row;
      if made.Some? {
        if made.value.Key? { cms := cms[made.value.id := made.value.secret]; }
        Note();
      }
      token := if fate.Mints? then Some(fate.token) else None;
    }

    method Install(t: Token, s: Script) returns (ok: bool)
      modifies this
      ensures var course := InstallCourse(old(Now()), t, s);
        Now() == Last(old(Now()), course.worlds) && seen == old(seen) + course.worlds && ok == course.returned
    {
      if s.write.WriteFails? {
        if s.write.truncated {
          file := None;
          Note();
        }
        return false;
      }
      file := Some(t);
      Note();
      if t.Malformed? || !s.saved { return false; }
      recorded := recorded + [t.id];
      Note();
      var after := if s.up.UpFails? then s.up.engine else Recreated;
      running := if after == Kept then running else if after == Gone then None else file;
      Note();
      return s.up.UpWorks?;
    }

    method MintAndInstall(s: Script) returns (ok: bool)
      modifies this
      ensures var course := Minted(old(Now()), s);
        Now() == Last(old(Now()), course.worlds) && seen == old(seen) + course.worlds && ok == course.returned
    {
      var token := Mint(s.mint);
      if token.None? { return false; }
      ok := Install(token.value, s);
    }

    /** None stands for an exception; Some(true) for a token minted. */
    method EnsureEngineToken(s: Script) returns (minted: Option<bool>)
      modifies this
      ensures var course := EnsureCourse(old(Now()), s);
        && Now() == Last(old(Now()), course.worlds) && seen == old(seen) + course.worlds
        && minted.Some? == course.returned && (minted == Some(false) ==> course.worlds == [])
    {
      if file.Some? {
        if s.check == Unavailable { return None; }
        var t := file.value;
        if t.Key? && t.id in cms && cms[t.id] == t.secret { return Some(false); }
      }
      var ok := MintAndInstall(s);
      minted := if ok then Some(true) else None;
    }

    method RotateEngineToken(s: Script) returns (ok: bool)
      modifies this
      ensures var course := RotateCourse(old(Now()), s);
        Now() == Last(old(Now()), course.worlds) && seen == old(seen) + course.worlds && ok == course.returned
    {
      var old_ := file;
      ok := MintAndInstall(s);
      if ok && old_.Some? && old_.value.Key? && s.revoke != RevokeFails(false) {
        cms := cms - {old_.value.id};
        Note();
      }
    }
  }
}
