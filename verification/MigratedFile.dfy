/** What migration 0003 leaves of a .env beside the retention: the logger class, the backend, the file list and the
    lines it has no business with (migrations/0003_grafana_and_logs_layout.py:28-61). */
module MigratedFile {
  import opened Wrappers
  import opened Text
  import opened EnvValues
  import opened Scenarios
  import opened EnvFile
  import opened EnvLines
  import M3 = Migration0003

  // ----- the logger class -----

  /** The name itself, or a dotted name that ends in it. */
  predicate EndsIn(class_: string, name: string)
  {
    var n := |name|;
    class_ == name || (|class_| > n && class_[|class_| - n..] == name && class_[|class_| - n - 1] == '.')
  }

  predicate NamesOptimized(class_: string) { EndsIn(class_, M3.OPTIMIZED) }

  lemma {:induction false} AfterLastDotIs(a: string, b: string)
    requires '.' !in b
    ensures M3.AfterLastDot(a + "." + b) == b
    decreases |a|
  {
    var s := a + "." + b;
    assert s[|a|] == '.';
    var i := FindText(s, ".");
    FindTextStops(s, '.');
    hide FindText;
    assert forall j :: 0 <= j < i ==> s[j] == s[..i][j] != '.';
    if i == |a| {
      assert s[i + 1..] == b;
    } else {
      assert s[i + 1..] == a[i + 1..] + "." + b;
      AfterLastDotIs(a[i + 1..], b);
    }
  }

  lemma {:induction false} LastDotSplits(s: string) returns (a: string, b: string)
    requires '.' in s
    ensures s == a + "." + b && '.' !in b
  {
    var n := |s| - 1;
    if s[n] == '.' {
      a, b := s[..n], "";
    } else {
      assert s == s[..n] + [s[n]];
      var x, y := LastDotSplits(s[..n]);
      a, b := x, y + [s[n]];
    }
  }

  lemma EndsInSplits(class_: string, a: string, b: string, name: string)
    requires class_ == a + "." + b && '.' !in b && '.' !in name
    ensures EndsIn(class_, name) <==> b == name
  {
    var n := |name|;
    assert class_[|a|] == '.';
    if b == name {
      assert class_[|class_| - n..] == name && class_[|class_| - n - 1] == '.';
    }
    // the dot before the name is the last one
    assert |b| > n ==> b[|b| - n - 1] == class_[|class_| - n - 1];
    assert |b| < n < |class_| ==> class_[|class_| - n..][n - |b| - 1] == '.';
    assert class_[|class_| - |b|..] == b;
    assert class_[|a|] in class_;
  }

  lemma LastNameIff(class_: string, name: string)
    requires '.' !in name
    ensures M3.AfterLastDot(class_) == name <==> EndsIn(class_, name)
  {
    if '.' in class_ {
      hide M3.AfterLastDot, EndsIn;
      var a, b := LastDotSplits(class_);
      AfterLastDotIs(a, b);
      EndsInSplits(class_, a, b, name);
    } else if |class_| > |name| {
      assert class_[|class_| - |name| - 1] in class_;
    }
  }

  lemma OptimizedIff(v: Vals)
    ensures M3.Optimized(v) <==> NamesOptimized(Get(v, M3.OLD_CLASS, ""))
  {
    assert '.' !in M3.OPTIMIZED;
    hide M3.OLD_CLASS, M3.OPTIMIZED, M3.AfterLastDot, EndsIn;
    LastNameIff(Get(v, M3.OLD_CLASS, ""), M3.OPTIMIZED);
  }

  /** After the migration the new key reads as the old one did exactly when it was unset and the old value names the
      optimized logger; in all other cases it keeps its own reading. The backend keeps its own, or becomes db. */
  lemma ClassAndBackendAfter(before: seq<Line>)
    ensures var v, w := Read(before), M3.Migrate(before).values;
      && Get(w, M3.LOG_CLASS, "") ==
         (if !IsSet(v, M3.LOG_CLASS) && NamesOptimized(Get(v, M3.OLD_CLASS, "")) then v[M3.OLD_CLASS]
          else Get(v, M3.LOG_CLASS, ""))
      && Get(w, M3.LOG_BACKEND, "") == (if IsSet(v, M3.LOG_BACKEND) then v[M3.LOG_BACKEND] else "db")
  {
    var v := Read(before);
    OptimizedIff(v);
    MigratedIs(before);
    ClassStep(M3.After(M3.Overlay, v));
    OverlayKeeps(v);
    LastStepsKeep(M3.After(M3.Class, M3.After(M3.Overlay, v)));
    hide Read, M3.After, M3.Optimized, NamesOptimized, M3.OLD_CLASS, M3.LOG_CLASS, M3.LOG_BACKEND, M3.Migrate;
  }

  lemma MigratedIs(before: seq<Line>)
    ensures M3.Migrate(before).values == M3.After(M3.Retention, M3.After(M3.Toggle,
      M3.After(M3.Backend, M3.After(M3.Class, M3.After(M3.Overlay, Read(before))))))
  {
    hide Read, M3.After, M3.STEPS, M3.RunSteps, M3.AfterAll;
    M3.StepsRead(M3.Load(before), M3.STEPS);
    M3.UnfoldSteps(Read(before));
  }

  lemma ClassStep(v: Vals)
    ensures var w := M3.After(M3.Class, v);
      Get(w, M3.LOG_CLASS, "") ==
        (if !IsSet(v, M3.LOG_CLASS) && M3.Optimized(v) then Get(v, M3.OLD_CLASS, "") else Get(v, M3.LOG_CLASS, ""))
    ensures M3.Optimized(v) ==> IsSet(v, M3.OLD_CLASS)
    ensures M3.Agree(v, M3.After(M3.Class, v), M3.LOG_BACKEND)
  {
    M3.KeysDistinct();
    UnsetIsNotOptimized(v);
    M3.OnlyTouchedChange(M3.Class, v, M3.LOG_BACKEND);
    hide M3.OLD_CLASS, M3.LOG_CLASS, M3.LOG_BACKEND, M3.Optimized;
  }

  lemma UnsetIsNotOptimized(v: Vals)
    ensures M3.Optimized(v) ==> IsSet(v, M3.OLD_CLASS)
  {
    hide M3.OLD_CLASS;
  }

  lemma OverlayKeepsKey(v: Vals, key: string)
    requires key != M3.FILES
    ensures M3.Agree(v, M3.After(M3.Overlay, v), key)
  {
    hide M3.FILES, M3.LacksGrafana, M3.WithGrafana, FromEnv, Join;
  }

  lemma OverlayKeeps(v: Vals)
    ensures var w := M3.After(M3.Overlay, v);
      && M3.Agree(v, w, M3.OLD_CLASS) && M3.Agree(v, w, M3.LOG_CLASS) && M3.Agree(v, w, M3.LOG_BACKEND)
      && M3.Optimized(w) == M3.Optimized(v)
  {
    M3.KeysDistinct();
    hide M3.FILES, M3.OLD_CLASS, M3.LOG_CLASS, M3.LOG_BACKEND, M3.After, M3.Optimized, M3.Agree;
    OverlayKeepsKey(v, M3.OLD_CLASS);
    OverlayKeepsKey(v, M3.LOG_CLASS);
    OverlayKeepsKey(v, M3.LOG_BACKEND);
    SameClass(v, M3.After(M3.Overlay, v));
  }

  lemma SameClass(v: Vals, w: Vals)
    requires M3.Agree(v, w, M3.OLD_CLASS)
    ensures M3.Optimized(w) == M3.Optimized(v)
  {
    hide M3.OLD_CLASS, M3.AfterLastDot, M3.OPTIMIZED;
  }

  lemma LastStepsKeep(v: Vals)
    ensures var w := M3.After(M3.Retention, M3.After(M3.Toggle, M3.After(M3.Backend, v)));
      && M3.Agree(v, w, M3.LOG_CLASS)
      && Get(w, M3.LOG_BACKEND, "") == if IsSet(v, M3.LOG_BACKEND) then v[M3.LOG_BACKEND] else "db"
  {
    M3.KeysDistinct();
    var v1 := M3.After(M3.Backend, v);
    var v2 := M3.After(M3.Toggle, v1);
    forall key | key == M3.LOG_CLASS || key == M3.LOG_BACKEND
      ensures M3.Agree(v1, M3.After(M3.Retention, v2), key)
    {
      M3.OnlyTouchedChange(M3.Toggle, v1, key);
      M3.OnlyTouchedChange(M3.Retention, v2, key);
    }
    M3.OnlyTouchedChange(M3.Backend, v, M3.LOG_CLASS);
    BackendStep(v);
    hide M3.After, M3.LOG_CLASS, M3.LOG_BACKEND;
  }

  lemma BackendStep(v: Vals)
    ensures Get(M3.After(M3.Backend, v), M3.LOG_BACKEND, "") ==
      if IsSet(v, M3.LOG_BACKEND) then v[M3.LOG_BACKEND] else "db"
  {
    hide M3.LOG_BACKEND;
  }

  // ----- the file list -----

  /** The inserted overlay stands right before the first metrics overlay; nothing else moves. */
  lemma GrafanaStandsBeforeMetrics(a: seq<string>, b: seq<string>)
    requires FileOf(Metrics) !in a
    ensures M3.WithGrafana(a + [FileOf(Metrics)] + b) == a + [FileOf(GrafanaUi), FileOf(Metrics)] + b
  {
    hide FileOf;
    FirstStands(a, FileOf(Metrics), b);
    var files := a + [FileOf(Metrics)] + b;
    assert files[..|a|] == a && files[|a|..] == [FileOf(Metrics)] + b;
  }

  lemma {:induction false} FirstStands(a: seq<string>, file: string, b: seq<string>)
    requires file !in a
    ensures M3.IndexOf(a + [file] + b, file) == |a|
  {
    if a == [] {
      assert (a + [file] + b)[0] == file;
    } else {
      assert (a + [file] + b)[0] == a[0] && a[0] in a && (a + [file] + b)[1..] == a[1..] + [file] + b;
      FirstStands(a[1..], file, b);
    }
  }

  // ----- the other lines -----

  /** Every key the migration may write or remove. */
  const KEYS: set<string> := {
    M3.FILES, M3.OLD_CLASS, M3.LOG_CLASS, M3.LOG_BACKEND, M3.OLD_ENABLED, M3.ENABLED, M3.OLD_DAYS, M3.RETENTION}

  lemma StepTouchesItsKeys(step: M3.Step, v: Vals)
    ensures forall e :: e in M3.StepEdits(step, v) ==> KeysOf(e) <= KEYS
  {
    hide M3.Optimized, M3.LacksGrafana, M3.PreviousHorizon, M3.WithGrafana, Join, FromEnv;
    hide M3.FILES, M3.OLD_CLASS, M3.LOG_CLASS, M3.LOG_BACKEND, M3.OLD_ENABLED, M3.ENABLED, M3.OLD_DAYS, M3.RETENTION;
  }

  lemma {:induction false} TraceKeepsOthers(c: Contents, edits: seq<Edit>, keys: set<string>, w: seq<Line>)
    requires (forall e :: e in edits ==> KeysOf(e) <= keys) && w in M3.Trace(c, edits)
    ensures Others(w, keys) == Others(c.lines, keys)
    decreases |edits|
  {
    hide Others, Apply, KeysOf, Writes;
    assert edits[0] in edits;
    if w in Writes(c, edits[0]) {
      WritesKeepOthers(c, edits[0], keys, w);
    } else {
      ApplyKeepsOthers(c, edits[0], keys);
      TraceKeepsOthers(Apply(c, edits[0]), edits[1..], keys, w);
    }
  }

  lemma {:induction false} StepsKeepOthers(c: Contents, steps: seq<M3.Step>)
    ensures Others(M3.RunSteps(c, steps).lines, KEYS) == Others(c.lines, KEYS)
    ensures forall w :: w in M3.TraceSteps(c, steps) ==> Others(w, KEYS) == Others(c.lines, KEYS)
    decreases |steps|
  {
    hide Others, ApplyAll, KeysOf, M3.StepEdits, M3.Trace, KEYS;
    if steps != [] {
      var edits := M3.StepEdits(steps[0], c.values);
      StepTouchesItsKeys(steps[0], c.values);
      EditsKeepOthers(c, edits, KEYS);
      StepsKeepOthers(ApplyAll(c, edits), steps[1..]);
      forall w | w in M3.TraceSteps(c, steps) ensures Others(w, KEYS) == Others(c.lines, KEYS) {
        if w in M3.Trace(c, edits) { TraceKeepsOthers(c, edits, KEYS, w); }
      }
    }
  }

  /** Before, after and at every write in between, the file holds the same comments, blank lines and assignments of
      other keys, in the same order. */
  lemma MigrationKeepsOthers(before: seq<Line>)
    ensures Others(M3.Migrate(before).lines, KEYS) == Others(before, KEYS)
    ensures forall w :: w in M3.TraceSteps(M3.Load(before), M3.STEPS) ==> Others(w, KEYS) == Others(before, KEYS)
  {
    hide Others, KEYS, Read;
    StepsKeepOthers(M3.Load(before), M3.STEPS);
  }
}
