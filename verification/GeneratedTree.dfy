/** The generated/ tree: files written in place, stale files removed, then empty directories swept deepest first
    (neops_compose/render.py:39-94). */
module GeneratedTree {
  import opened Wrappers
  import opened Scenarios

  /** The components below generated/; [] is generated/ itself. */
  type Path = seq<string>

  type Files = map<Path, string>

  function Parent(p: Path): Path
    requires p != []
  {
    p[..|p| - 1]
  }

  /** A file system tree: every entry's parent is a directory, and nothing is both file and directory. */
  ghost predicate IsTree(files: Files, dirs: set<Path>)
  {
    && [] in dirs
    && (forall p :: p in dirs ==> p !in files)
    && (forall p :: p in dirs && p != [] ==> Parent(p) in dirs)
    && (forall p :: p in files ==> p != [] && Parent(p) in dirs)
  }

  /** The directories above `p`. */
  function Above(p: Path): set<Path> { set k | 0 <= k < |p| :: p[..k] }

  /** Every directory that holds a file, directly or further down. */
  function Ancestors(files: Files): set<Path> { set p, q | p in files && q in Above(p) :: q }

  predicate Holds(files: Files, d: Path) { exists p :: p in files && d < p }

  // ----- what render emits -----

  /** The files in the order they are written, each with whether the scenario wants it. */
  function Emission(s: Scenario): seq<(Path, bool)>
  {
    var traefik, grafana := s.Has(TraefikProxy), s.Has(GrafanaUi) || s.Has(Metrics);
    [(["cms.env"], true), (["monitor.env"], true),
     (["traefik", "traefik.yml"], traefik), (["traefik", "dynamic.yml"], traefik),
     (["traefik", "ports.yaml"], s.Has(SharedHost)),
     (["keycloak.env"], s.Has(KeycloakIdp)), (["keycloak", "realm.json"], s.Has(KeycloakIdp)),
     (["grafana", "log-datasources.yml"], grafana), (["grafana.env"], grafana),
     (["providers.json"], s.Has(Oidc))]
  }

  function Wanted(emission: seq<(Path, bool)>): seq<Path>
  {
    if emission == [] then []
    else (if emission[0].1 then [emission[0].0] else []) + Wanted(emission[1..])
  }

  function EmittedPaths(s: Scenario): seq<Path> { Wanted(Emission(s)) }

  /** The contents of each file; None when they cannot be built, for want of a URL or a secret. */
  type Contents = Path -> Option<string>

  function FilesOf(paths: seq<Path>, text: Contents): Files { map p | p in paths && text(p).Some? :: text(p).value }

  /** No path is another one or lies below it. */
  predicate Apart(paths: seq<Path>)
  {
    forall i, j :: 0 <= i < |paths| && 0 <= j < |paths| && i != j ==> !(paths[i] <= paths[j])
  }

  predicate RowsApart(emission: seq<(Path, bool)>)
  {
    forall i, j :: 0 <= i < |emission| && 0 <= j < |emission| && i != j ==> !(emission[i].0 <= emission[j].0)
  }

  lemma ApartInFront(p: Path, rest: seq<Path>)
    requires Apart(rest) && forall q :: q in rest ==> !(p <= q) && !(q <= p)
    ensures Apart([p] + rest)
  {
    var all := [p] + rest;
    forall i, j | 0 <= i < |all| && 0 <= j < |all| && i != j ensures !(all[i] <= all[j]) {
      assert i > 0 ==> all[i] == rest[i - 1] && all[i] in rest;
      assert j > 0 ==> all[j] == rest[j - 1] && all[j] in rest;
    }
  }

  predicate Listed(emission: seq<(Path, bool)>, p: Path) { exists i :: 0 <= i < |emission| && emission[i].0 == p }

  lemma {:induction false} WantedAreListed(emission: seq<(Path, bool)>)
    ensures forall p :: p in Wanted(emission) ==> Listed(emission, p)
  {
    if emission != [] {
      WantedAreListed(emission[1..]);
      forall p | p in Wanted(emission) ensures Listed(emission, p) {
        if p in Wanted(emission[1..]) {
          var i :| 0 <= i < |emission[1..]| && emission[1..][i].0 == p;
          assert emission[i + 1].0 == p;
        } else {
          assert emission[0].0 == p;
        }
      }
    }
  }

  lemma {:induction false} WantedApart(emission: seq<(Path, bool)>)
    requires RowsApart(emission)
    ensures Apart(Wanted(emission))
  {
    if emission != [] {
      var tail := emission[1..];
      assert RowsApart(tail) by {
        assert forall i :: 0 <= i < |tail| ==> tail[i] == emission[i + 1];
      }
      WantedApart(tail);
      WantedAreListed(tail);
      var first, rest := emission[0].0, Wanted(tail);
      hide Apart, Wanted;
      forall q | q in rest ensures !(first <= q) && !(q <= first) {
        var i :| 0 <= i < |tail| && tail[i].0 == q;
        assert emission[i + 1].0 == q;
      }
      ApartInFront(first, rest);
      WantedStep(emission);
    } else {
      assert Wanted(emission) == [];
    }
  }

  lemma WantedStep(emission: seq<(Path, bool)>)
    requires emission != []
    ensures Wanted(emission) == if emission[0].1 then [emission[0].0] + Wanted(emission[1..]) else Wanted(emission[1..])
  {
  }

  lemma EmittedPathsApart(s: Scenario)
    ensures Apart(EmittedPaths(s)) && [] !in EmittedPaths(s)
  {
    var rows := EmissionApart(s);
    WantedApart(rows);
    WantedAreListed(rows);
  }

  lemma EmissionApart(s: Scenario) returns (rows: seq<(Path, bool)>)
    ensures rows == Emission(s) && RowsApart(rows)
    ensures forall i :: 0 <= i < |rows| ==> rows[i].0 != []
  {
    hide Scenario.Has;
    rows := Emission(s);
    forall i, j | 0 <= i < |rows| && 0 <= j < |rows| && i != j ensures !(rows[i].0 <= rows[j].0) {
      assert rows[i].0[0] == rows[j].0[0] ==> |rows[i].0| == |rows[j].0| == 2 by {
        assert "traefik"[0] == 't' && "keycloak"[0] == 'k' && "grafana"[0] == 'g';
        assert "cms.env"[0] == 'c' && "monitor.env"[0] == 'm' && "providers.json"[0] == 'p';
        assert |"keycloak.env"| == 12 && |"keycloak"| == 8 && |"grafana.env"| == 11 && |"grafana"| == 7;
      }
      assert "traefik.yml"[0] == 't' && "dynamic.yml"[0] == 'd' && "ports.yaml"[0] == 'p';
      assert "realm.json"[0] == 'r' && "log-datasources.yml"[0] == 'l';
      assert |rows[i].0| == |rows[j].0| == 2 ==> rows[i].0[1][0] != rows[j].0[1][0];
    }
  }

  lemma {:induction false} WantedIff(emission: seq<(Path, bool)>, p: Path)
    ensures p in Wanted(emission) <==> (p, true) in emission
  {
    if emission != [] {
      WantedIff(emission[1..], p);
      assert (p, true) in emission <==> emission[0] == (p, true) || (p, true) in emission[1..];
    }
  }

  /** Which files a scenario has, file by file. */
  lemma EmittedIff(s: Scenario, p: Path)
    ensures p in EmittedPaths(s) <==>
      || p in {["cms.env"], ["monitor.env"]}
      || (p in {["traefik", "traefik.yml"], ["traefik", "dynamic.yml"]} && s.Has(TraefikProxy))
      || (p == ["traefik", "ports.yaml"] && s.Has(SharedHost))
      || (p in {["keycloak.env"], ["keycloak", "realm.json"]} && s.Has(KeycloakIdp))
      || (p in {["grafana", "log-datasources.yml"], ["grafana.env"]} && (s.Has(GrafanaUi) || s.Has(Metrics)))
      || (p == ["providers.json"] && s.Has(Oidc))
  {
    hide Scenario.Has;
    WantedIff(Emission(s), p);
    hide Wanted;
    var rows := Emission(s);
    if (p, true) in rows {
      var i :| 0 <= i < |rows| && rows[i] == (p, true);
    }
    assert rows[0].0 == ["cms.env"] && rows[1].0 == ["monitor.env"] && rows[2].0 == ["traefik", "traefik.yml"];
    assert rows[3].0 == ["traefik", "dynamic.yml"] && rows[4].0 == ["traefik", "ports.yaml"];
    assert rows[5].0 == ["keycloak.env"] && rows[6].0 == ["keycloak", "realm.json"];
    assert rows[7].0 == ["grafana", "log-datasources.yml"] && rows[8].0 == ["grafana.env"];
    assert rows[9].0 == ["providers.json"];
  }

  // ----- one write -----

  datatype WriteError = NotBuilt | AncestorIsFile | IsDirectory

  /** Writing `p` fails: a directory stands there, or a file where one of its directories should. */
  predicate Clashes(files: Files, dirs: set<Path>, p: Path)
  {
    p in dirs || exists q :: q in Above(p) && q in files
  }

  lemma ParentIsAbove(p: Path)
    requires p != []
    ensures Parent(p) in Above(p) && [] in Above(p)
    ensures forall q :: q in Above(p) && q != [] ==> Parent(q) in Above(p)
  {
    assert p[..0] == [];
    forall q | q in Above(p) && q != [] ensures Parent(q) in Above(p) {
      var k :| 0 <= k < |p| && q == p[..k];
      assert Parent(q) == p[..k - 1];
    }
  }

  lemma WriteKeepsTree(files: Files, dirs: set<Path>, p: Path, text: string)
    requires IsTree(files, dirs) && p != [] && !Clashes(files, dirs, p)
    ensures IsTree(files[p := text], dirs + Above(p))
  {
    ParentIsAbove(p);
    assert p !in Above(p);
  }

  // ----- the sweep -----

  predicate IsEmpty(files: Files, dirs: set<Path>, d: Path)
  {
    && (forall p :: p in files && p != [] ==> Parent(p) != d)
    && (forall e :: e in dirs && e != [] ==> Parent(e) != d)
  }

  /** One pass over `order`, removing each directory found empty. */
  function Sweep(files: Files, dirs: set<Path>, order: seq<Path>): set<Path>
  {
    if order == [] then dirs
    else
      var rest := Sweep(files, dirs, order[..|order| - 1]);
      var d := order[|order| - 1];
      if IsEmpty(files, rest, d) then rest - {d} else rest
  }

  predicate DeepestFirst(order: seq<Path>) { forall i, j :: 0 <= i < j < |order| ==> |order[i]| >= |order[j]| }

  /** What the pass has removed so far: exactly the visited directories that hold no file. */
  ghost predicate SweptSoFar(files: Files, dirs: set<Path>, order: seq<Path>, left: set<Path>)
  {
    forall d :: d in left <==> d in dirs && (d in order ==> Holds(files, d))
  }

  lemma HoldsMeansEntry(files: Files, dirs: set<Path>, d: Path)
    requires IsTree(files, dirs) && d in dirs
    ensures Holds(files, d) ==>
      (exists p :: p in files && p != [] && Parent(p) == d)
        || (exists e :: e in dirs && e != [] && Parent(e) == d && Holds(files, e))
  {
    if Holds(files, d) {
      var p :| p in files && d < p;
      var c := p[..|d| + 1];
      assert Parent(c) == d;
      if c == p {
      } else {
        AboveAreDirs(files, dirs, p, |d| + 1);
        assert c < p;
      }
    }
  }

  lemma {:induction false} DirsAboveDirs(files: Files, dirs: set<Path>, d: Path)
    requires IsTree(files, dirs)
    ensures d in dirs ==> forall q :: q in Above(d) ==> q in dirs
    decreases |d|
  {
    if d in dirs && d != [] {
      DirsAboveDirs(files, dirs, Parent(d));
      forall q | q in Above(d) ensures q in dirs {
        var k :| 0 <= k < |d| && q == d[..k];
        if k < |d| - 1 {
          assert q == Parent(d)[..k];
          assert q in Above(Parent(d));
        }
      }
    }
  }

  lemma {:induction false} AboveAreDirs(files: Files, dirs: set<Path>, p: Path, k: nat)
    requires IsTree(files, dirs) && p in files && k < |p|
    ensures p[..k] in dirs
    decreases |p| - k
  {
    if k == |p| - 1 {
    } else {
      AboveAreDirs(files, dirs, p, k + 1);
      assert Parent(p[..k + 1]) == p[..k];
    }
  }

  lemma FileHolds(files: Files, p: Path)
    requires p in files && p != []
    ensures Holds(files, Parent(p))
  {
    assert Parent(p) < p;
  }

  lemma ParentHolds(files: Files, e: Path)
    requires e != []
    ensures Holds(files, e) ==> Holds(files, Parent(e))
  {
    if p :| p in files && e < p {
      assert Parent(e) < p;
    }
  }

  lemma SweepLast(files: Files, dirs: set<Path>, init: seq<Path>, d: Path)
    ensures Sweep(files, dirs, init + [d])
      == var rest := Sweep(files, dirs, init); if IsEmpty(files, rest, d) then rest - {d} else rest
  {
    hide IsEmpty;
    assert (init + [d])[..|init|] == init;
  }

  /** An order of visit: directories, each once, the deepest first, none left out that is deeper than one visited. */
  ghost predicate VisitOrder(dirs: set<Path>, order: seq<Path>)
  {
    && DeepestFirst(order)
    && (forall d :: d in order ==> d in dirs)
    && (forall i, j :: 0 <= i < j < |order| ==> order[i] != order[j])
    && (forall d, e :: d in order && e in dirs && |e| > |d| ==> e in order)
  }

  lemma AllButLast(dirs: set<Path>, init: seq<Path>, d: Path)
    requires VisitOrder(dirs, init + [d])
    ensures VisitOrder(dirs, init) && d in dirs && d !in init
    ensures forall e :: e in dirs && |e| > |d| ==> e in init
  {
    var order := init + [d];
    assert order[|init|] == d && d in order;
    forall i, j | 0 <= i < j < |init| ensures |init[i]| >= |init[j]| && init[i] != init[j] {
      assert order[i] == init[i] && order[j] == init[j];
    }
    forall x | x in init ensures x != d && |x| >= |d| {
      var i :| 0 <= i < |init| && init[i] == x;
      assert order[i] == x;
    }
    assert forall e :: e in order <==> e in init || e == d;
  }

  lemma {:induction false} SweepIsExact(files: Files, dirs: set<Path>, order: seq<Path>)
    requires IsTree(files, dirs) && VisitOrder(dirs, order)
    ensures SweptSoFar(files, dirs, order, Sweep(files, dirs, order))
  {
    hide *;
    if order == [] {
      SweepNone(files, dirs);
    } else {
      var init, d := order[..|order| - 1], order[|order| - 1];
      assert order == init + [d];
      AllButLast(dirs, init, d);
      SweepIsExact(files, dirs, init);
      LastVisit(files, dirs, init, d, Sweep(files, dirs, init));
      SweepLast(files, dirs, init, d);
    }
  }

  lemma SweepNone(files: Files, dirs: set<Path>)
    ensures SweptSoFar(files, dirs, [], Sweep(files, dirs, []))
  {
  }

  lemma LastVisit(files: Files, dirs: set<Path>, init: seq<Path>, d: Path, rest: set<Path>)
    requires IsTree(files, dirs) && d in dirs && d !in init && SweptSoFar(files, dirs, init, rest)
    requires forall e :: e in dirs && |e| > |d| ==> e in init
    ensures IsEmpty(files, rest, d) <==> !Holds(files, d)
    ensures SweptSoFar(files, dirs, init + [d], if IsEmpty(files, rest, d) then rest - {d} else rest)
  {
    HoldsMeansEntry(files, dirs, d);
    if Holds(files, d) {
      assert !IsEmpty(files, rest, d);
    } else {
      forall p | p in files && p != [] ensures Parent(p) != d {
        FileHolds(files, p);
      }
      forall e | e in rest && e != [] ensures Parent(e) != d {
        ParentHolds(files, e);
      }
    }
  }

  /** One pass over all directories, the deepest first, leaves exactly those above a file. */
  lemma DeepestFirstSuffices(files: Files, dirs: set<Path>, order: seq<Path>)
    requires IsTree(files, dirs) && DeepestFirst(order)
    requires forall d :: d in order <==> d in dirs && d != []
    requires forall i, j :: 0 <= i < j < |order| ==> order[i] != order[j]
    ensures Sweep(files, dirs, order) == {[]} + Ancestors(files)
  {
    SweepIsExact(files, dirs, order);
    forall d ensures d in Sweep(files, dirs, order) <==> d in {[]} + Ancestors(files) {
      AncestorsHold(files, dirs, d);
    }
  }

  lemma AncestorsHold(files: Files, dirs: set<Path>, d: Path)
    requires IsTree(files, dirs)
    ensures d in Ancestors(files) <==> Holds(files, d)
    ensures Holds(files, d) ==> d in dirs
  {
    if p :| p in files && d < p {
      assert d == p[..|d|] && d in Above(p);
      AboveAreDirs(files, dirs, p, |d|);
    }
    if d in Ancestors(files) {
      var p, q :| p in files && q in Above(p) && q == d;
      assert d < p;
    }
  }

  /** The order matters: parents first, one pass leaves the parent of a directory it then removes. */
  lemma ShallowFirstLeavesParent()
    ensures IsTree(map[], {[], ["a"], ["a", "b"]})
    ensures Sweep(map[], {[], ["a"], ["a", "b"]}, [["a"], ["a", "b"]]) == {[], ["a"]}
    ensures Ancestors(map[]) == {}
  {
    var dirs: set<Path> := {[], ["a"], ["a", "b"]};
    var order: seq<Path> := [["a"], ["a", "b"]];
    assert Parent(["a", "b"]) == ["a"] && Parent(["a"]) == [];
    assert order[..1] == [["a"]] && order[..1][..0] == [];
    assert Sweep(map[], dirs, []) == dirs;
    assert Sweep(map[], dirs, [["a"]]) == dirs;
    assert IsEmpty(map[], dirs, ["a", "b"]);
  }

  // ----- the tree the CLI rewrites -----

  class Tree {
    var files: Files
    var dirs: set<Path>

    constructor (files: Files, dirs: set<Path>)
      ensures this.files == files && this.dirs == dirs
    {
      this.files, this.dirs := files, dirs;
    }

    method WriteSecret(p: Path, text: string) returns (error: Option<WriteError>)
      requires IsTree(files, dirs) && p != []
      modifies this
      ensures error.None? <==> !Clashes(old(files), old(dirs), p)
      ensures error != Some(NotBuilt)
      ensures error == Some(IsDirectory) <==> p in old(dirs)
      ensures IsTree(files, dirs)
      ensures error.None? ==> files == old(files)[p := text] && dirs == old(dirs) + Above(p)
      ensures error.Some? ==> files == old(files) && dirs == old(dirs)
    {
      if exists q :: q in Above(p) && q in files {
        DirsAboveDirs(files, dirs, p);
        return Some(AncestorIsFile);
      }
      if p in dirs { return Some(IsDirectory); }
      WriteKeepsTree(files, dirs, p, text);
      dirs := dirs + Above(p);
      files := files[p := text];
      return None;
    }

    /** sorted(..., key=depth, reverse=True), in any order among equals. */
    method ByDepth() returns (order: seq<Path>)
      ensures DeepestFirst(order)
      ensures forall d :: d in order <==> d in dirs && d != []
      ensures forall i, j :: 0 <= i < j < |order| ==> order[i] != order[j]
    {
      order := [];
      var todo := dirs - {[]};
      while todo != {}
        invariant DeepestFirst(order) && todo <= dirs - {[]}
        invariant forall d :: d in order <==> d in dirs - {[]} && d !in todo
        invariant forall d, e :: d in todo && e in order ==> |d| <= |e|
        invariant forall i, j :: 0 <= i < j < |order| ==> order[i] != order[j]
        decreases todo
      {
        var d := Deepest(todo);
        order := order + [d];
        todo := todo - {d};
      }
    }

    method Deepest(paths: set<Path>) returns (d: Path)
      requires paths != {}
      ensures d in paths && forall e :: e in paths ==> |e| <= |d|
    {
      d :| d in paths;
      var rest := paths - {d};
      while rest != {}
        invariant d in paths && rest <= paths && forall e :: e in paths && e !in rest ==> |e| <= |d|
        decreases rest
      {
        var e :| e in rest;
        if |e| > |d| { d := e; }
        rest := rest - {e};
      }
    }

    method RemoveStale(written: set<Path>)
      requires IsTree(files, dirs)
      modifies this
      ensures files == map p | p in old(files) && p in written :: old(files)[p]
      ensures dirs == {[]} + Ancestors(files) && IsTree(files, dirs)
    {
      files := map p | p in files && p in written :: files[p];
      var order := ByDepth();
      ghost var before := dirs;
      for i := 0 to |order|
        invariant files == map p | p in old(files) && p in written :: old(files)[p]
        invariant dirs == Sweep(files, before, order[..i])
      {
        assert order[..i + 1][..i] == order[..i];
        if (forall p :: p in files && p != [] ==> Parent(p) != order[i])
          && (forall e :: e in dirs && e != [] ==> Parent(e) != order[i]) {
          dirs := dirs - {order[i]};
        }
      }
      assert order[..|order|] == order;
      DeepestFirstSuffices(files, before, order);
      AncestorsAreTree(files, before);
    }

    /** Rebuild the tree with these contents; an error leaves the writes before it. */
    method Render(s: Scenario, text: Contents) returns (error: Option<WriteError>)
      requires IsTree(files, dirs)
      modifies this
      ensures error.None?
        <==> forall p :: p in EmittedPaths(s) ==> text(p).Some? && !Clashes(old(files), old(dirs), p)
      ensures error.None? ==> files == FilesOf(EmittedPaths(s), text) && dirs == {[]} + Ancestors(files)
      ensures IsTree(files, dirs)
    {
      hide *;
      var paths := EmittedPaths(s);
      EmittedPathsApart(s);
      var written: set<Path> := {};
      NothingWritten(files, dirs, text);
      assert paths[..0] == [];
      for i := 0 to |paths|
        invariant IsTree(files, dirs)
        invariant files == WrittenOver(old(files), paths[..i], text) && dirs == OpenedOver(old(dirs), paths[..i])
        invariant forall k :: 0 <= k < i ==> text(paths[k]).Some? && !Clashes(old(files), old(dirs), paths[k])
        invariant written == set p | p in paths[..i]
      {
        assert paths[..i + 1] == paths[..i] + [paths[i]];
        StillClashes(old(files), old(dirs), paths, i, text);
        assert paths[i] in paths;
        if text(paths[i]).None? { return Some(NotBuilt); }
        OneMore(old(files), old(dirs), paths[..i], paths[i], text);
        error := WriteSecret(paths[i], text(paths[i]).value);
        if error.Some? { return; }
        written := written + {paths[i]};
      }
      assert paths[..|paths|] == paths;
      OnlyWrittenStay(old(files), paths, written, text);
      RemoveStale(written);
      return None;
    }
  }

  function WrittenOver(files: Files, paths: seq<Path>, text: Contents): Files
  {
    files + FilesOf(paths, text)
  }

  function OpenedOver(dirs: set<Path>, paths: seq<Path>): set<Path>
  {
    dirs + set p, q | p in paths && q in Above(p) :: q
  }

  lemma NothingWritten(files: Files, dirs: set<Path>, text: Contents)
    ensures WrittenOver(files, [], text) == files && OpenedOver(dirs, []) == dirs
  {
  }

  lemma OneMore(files: Files, dirs: set<Path>, paths: seq<Path>, p: Path, text: Contents)
    requires text(p).Some?
    ensures WrittenOver(files, paths + [p], text) == WrittenOver(files, paths, text)[p := text(p).value]
    ensures OpenedOver(dirs, paths + [p]) == OpenedOver(dirs, paths) + Above(p)
  {
    hide Above;
    assert forall q :: q in paths + [p] <==> q in paths || q == p;
  }

  lemma OnlyWrittenStay(files: Files, paths: seq<Path>, written: set<Path>, text: Contents)
    requires written == (set p | p in paths) && forall p :: p in paths ==> text(p).Some?
    ensures (map p | p in WrittenOver(files, paths, text) && p in written :: WrittenOver(files, paths, text)[p]) ==
      FilesOf(paths, text)
  {
  }

  /** What earlier writes add never makes a later path clash, nor clears a clash. */
  lemma StillClashes(files: Files, dirs: set<Path>, paths: seq<Path>, i: nat, text: Contents)
    requires i < |paths| && Apart(paths)
    ensures Clashes(WrittenOver(files, paths[..i], text), OpenedOver(dirs, paths[..i]), paths[i])
      <==> Clashes(files, dirs, paths[i])
  {
    var p := paths[i];
    forall w | w in paths[..i] ensures p !in Above(w) && w !in Above(p) {
      assert !(p <= w) && !(w <= p);
    }
    assert forall q :: q in Above(p) && q in WrittenOver(files, paths[..i], text) ==> q in files;
  }

  lemma SameRows(s: Scenario, t: Scenario)
    ensures |Emission(s)| == |Emission(t)|
    ensures forall i :: 0 <= i < |Emission(s)| ==> Emission(s)[i].0 == Emission(t)[i].0
  {
    hide Scenario.Has;
  }

  /** A path of one scenario never stands above or below another path of any scenario. */
  lemma PathsNeverNest(s: Scenario, t: Scenario, p: Path, q: Path)
    requires p in EmittedPaths(s) && q in EmittedPaths(t)
    ensures !(p < q) && !(q < p)
  {
    var rows := EmissionApart(s);
    SameRows(s, t);
    WantedAreListed(Emission(s));
    WantedAreListed(Emission(t));
    hide Emission, Wanted;
    var i :| 0 <= i < |rows| && rows[i].0 == p;
    var j :| 0 <= j < |rows| && Emission(t)[j].0 == q;
    assert rows[j].0 == q;
  }

  /** After a render, rendering the same or any other scenario finds nothing in its way. */
  lemma NextRenderNeverClashes(s: Scenario, t: Scenario, text: Contents, p: Path)
    requires p in EmittedPaths(t)
    ensures var files := FilesOf(EmittedPaths(s), text);
      !Clashes(files, {[]} + Ancestors(files), p)
  {
    var files := FilesOf(EmittedPaths(s), text);
    EmittedPathsApart(t);
    hide EmittedPaths;
    if d, q :| q in files && d in Above(q) && d == p {
      assert p < q;
      PathsNeverNest(t, s, p, q);
      assert false;
    }
    if q :| q in Above(p) && q in files {
      assert q < p;
      PathsNeverNest(t, s, p, q);
      assert false;
    }
    assert p !in Ancestors(files);
  }

  lemma AncestorsAreTree(files: Files, dirs: set<Path>)
    requires IsTree(files, dirs)
    ensures IsTree(files, {[]} + Ancestors(files))
  {
    var left := {[]} + Ancestors(files);
    forall d | d in left ensures d !in files && (d != [] ==> Parent(d) in left) {
      AncestorsHold(files, dirs, d);
      if d != [] && d in Ancestors(files) {
        ParentHolds(files, d);
        AncestorsHold(files, dirs, Parent(d));
      }
    }
    forall p | p in files ensures p != [] && Parent(p) in left {
      ParentIsAbove(p);
    }
  }
}
