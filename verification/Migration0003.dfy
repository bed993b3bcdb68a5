/** Migration 0003: compose.grafana.yaml joins COMPOSE_FILE and the CMS's logging keys take their shared
    names (migrations/0003_grafana_and_logs_layout.py). */
module Migration0003 {
  import opened Text
  import opened EnvValues
  import opened Scenarios
  import opened EnvFile

  const FILES := "COMPOSE_FILE"
  const SEPARATOR := "COMPOSE_PATH_SEPARATOR"
  const OLD_CLASS := "NEOPS_LOGGER_CLASS"
  const LOG_CLASS := "NEOPS_LOG_CLASS"
  const LOG_BACKEND := "NEOPS_LOG_BACKEND"
  const OLD_ENABLED := "EXECUTION_LOG_RETENTION_ENABLED"
  const ENABLED := "NEOPS_LOG_RETENTION_ENABLED"
  const OLD_DAYS := "EXECUTION_LOG_RETENTION_DAYS"
  const RETENTION := "NEOPS_LOG_RETENTION"
  const OPTIMIZED := "OptimizedDbLogger"

  lemma KeysDistinct()
    ensures FILES !in {SEPARATOR, OLD_CLASS, LOG_CLASS, LOG_BACKEND, OLD_ENABLED, ENABLED, OLD_DAYS, RETENTION}
    ensures SEPARATOR !in {OLD_CLASS, LOG_CLASS, LOG_BACKEND, OLD_ENABLED, ENABLED, OLD_DAYS, RETENTION}
    ensures OLD_CLASS !in {LOG_CLASS, LOG_BACKEND, OLD_ENABLED, ENABLED, OLD_DAYS, RETENTION}
    ensures LOG_CLASS !in {LOG_BACKEND, OLD_ENABLED, ENABLED, OLD_DAYS, RETENTION}
    ensures LOG_BACKEND !in {OLD_ENABLED, ENABLED, OLD_DAYS, RETENTION}
    ensures OLD_ENABLED !in {ENABLED, OLD_DAYS, RETENTION} && ENABLED !in {OLD_DAYS, RETENTION} && OLD_DAYS != RETENTION
  {}

  // ----- the pure helpers -----

  /** rsplit(".", 1)[-1] */
  function AfterLastDot(s: string): string
  {
    if '.' !in s then s else AfterLastDot(s[FindText(s, ".") + 1..])
  }

  predicate Optimized(v: Vals) { AfterLastDot(Get(v, OLD_CLASS, "")) == OPTIMIZED }

  const CMS_TRUE_STRINGS: set<string> := {"true", "on", "ok", "y", "yes", "1"}

  predicate CmsReadsAsOn(value: string)
  {
    match PyInt(value)
    case Some(n) => n != 0
    case None => Lower(Strip(value)) in CMS_TRUE_STRINGS
  }

  /** The horizon an install had: its days, or the old default of 90 while retention is on; "" otherwise. */
  function PreviousHorizon(v: Vals): string
  {
    if IsSet(v, OLD_DAYS) then Strip(v[OLD_DAYS]) + "d"
    else if CmsReadsAsOn(Get(v, ENABLED, "")) then "90d"
    else ""
  }

  predicate LacksGrafana(v: Vals)
  {
    var s := FromEnv(v);
    s.Has(Metrics) && !s.Has(GrafanaUi)
  }

  function IndexOf(files: seq<string>, file: string): (i: nat)
    ensures i <= |files|
    ensures i < |files| <==> file in files
    ensures i < |files| ==> files[i] == file
  {
    if files == [] || files[0] == file then 0 else 1 + IndexOf(files[1..], file)
  }

  /** The file list with compose.grafana.yaml before the first compose.metrics.yaml. */
  function WithGrafana(files: seq<string>): seq<string>
  {
    var i := IndexOf(files, FileOf(Metrics));
    files[..i] + [FileOf(GrafanaUi)] + files[i..]
  }

  function Sep(v: Vals): (s: string)
    ensures s != ""
  {
    Get(v, SEPARATOR, ":")
  }

  // ----- the steps, as the edits each one makes of the values it finds -----

  function OverlayEdits(v: Vals): seq<Edit>
  {
    if LacksGrafana(v) then [Set(FILES, Join(WithGrafana(FromEnv(v).files), Sep(v)))] else []
  }

  function MoveEdits(v: Vals, old_: string, new_: string): seq<Edit>
  {
    if IsSet(v, old_) && new_ !in v then [Rename(old_, new_)]
    else (if IsSet(v, old_) && !IsSet(v, new_) then [Set(new_, v[old_])] else []) + [Unset(old_)]
  }

  function ClassEdits(v: Vals): seq<Edit>
  {
    (if Optimized(v) then MoveEdits(v, OLD_CLASS, LOG_CLASS) else []) + [Unset(OLD_CLASS)]
  }

  function BackendEdits(v: Vals): seq<Edit>
  {
    if IsSet(v, LOG_BACKEND) then [] else [Set(LOG_BACKEND, "db")]
  }

  function RetentionEdits(v: Vals): seq<Edit>
  {
    (if PreviousHorizon(v) != "" && !IsSet(v, RETENTION) then [Set(RETENTION, PreviousHorizon(v))] else [])
    + [Unset(OLD_DAYS)]
  }

  datatype Step = Overlay | Class | Backend | Toggle | Retention

  function StepEdits(step: Step, v: Vals): seq<Edit>
  {
    match step
    case Overlay => OverlayEdits(v)
    case Class => ClassEdits(v)
    case Backend => BackendEdits(v)
    case Toggle => MoveEdits(v, OLD_ENABLED, ENABLED)
    case Retention => RetentionEdits(v)
  }

  /** The order of `apply`. */
  const STEPS := [Overlay, Class, Backend, Toggle, Retention]

  function RunSteps(c: Contents, steps: seq<Step>): Contents
    decreases |steps|
  {
    if steps == [] then c else RunSteps(ApplyAll(c, StepEdits(steps[0], c.values)), steps[1..])
  }

  /** The contents the file goes through while edits run. */
  function Trace(c: Contents, edits: seq<Edit>): seq<seq<Line>>
    decreases |edits|
  {
    if edits == [] then [] else Writes(c, edits[0]) + Trace(Apply(c, edits[0]), edits[1..])
  }

  function TraceSteps(c: Contents, steps: seq<Step>): seq<seq<Line>>
    decreases |steps|
  {
    if steps == [] then []
    else Trace(c, StepEdits(steps[0], c.values)) + TraceSteps(ApplyAll(c, StepEdits(steps[0], c.values)), steps[1..])
  }

  /** The .env as a fresh process reads it. */
  function Load(lines: seq<Line>): Contents { Contents(true, lines, Read(lines)) }

  function Migrate(lines: seq<Line>): Contents { RunSteps(Load(lines), STEPS) }

  // ----- what each step means for the values -----

  function Moved(v: Vals, old_: string, new_: string): Vals
  {
    (if IsSet(v, old_) && !IsSet(v, new_) then v[new_ := v[old_]] else v) - {old_}
  }

  function After(step: Step, v: Vals): Vals
  {
    match step
    case Overlay => if LacksGrafana(v) then v[FILES := Join(WithGrafana(FromEnv(v).files), Sep(v))] else v
    case Class => if Optimized(v) then Moved(v, OLD_CLASS, LOG_CLASS) else v - {OLD_CLASS}
    case Backend => if IsSet(v, LOG_BACKEND) then v else v[LOG_BACKEND := "db"]
    case Toggle => Moved(v, OLD_ENABLED, ENABLED)
    case Retention =>
      (if PreviousHorizon(v) != "" && !IsSet(v, RETENTION) then v[RETENTION := PreviousHorizon(v)] else v) - {OLD_DAYS}
  }

  function AfterAll(v: Vals, steps: seq<Step>): Vals
    decreases |steps|
  {
    if steps == [] then v else AfterAll(After(steps[0], v), steps[1..])
  }

  lemma MoveReads(c: Contents, old_: string, new_: string)
    requires Coherent(c) && c.exists_ && old_ != new_
    ensures ApplyAll(c, MoveEdits(c.values, old_, new_)).values == Moved(c.values, old_, new_)
    ensures Coherent(ApplyAll(c, MoveEdits(c.values, old_, new_)))
  {
    hide SetLines, UnsetLines, Read, RenameInPlace, SingleExact;
    EditsKeepCoherence(c, MoveEdits(c.values, old_, new_));
    var v := c.values;
    if IsSet(v, old_) && new_ !in v {
      assert (v - {old_})[new_ := v[old_]] == v[new_ := v[old_]] - {old_};
      OneEdit(c, Rename(old_, new_));
    } else if IsSet(v, old_) && !IsSet(v, new_) {
      TwoEdits(c, Set(new_, v[old_]), Unset(old_));
    } else {
      OneEdit(c, Unset(old_));
    }
  }

  lemma OneEdit(c: Contents, e: Edit)
    ensures ApplyAll(c, [e]) == Apply(c, e) && Trace(c, [e]) == Writes(c, e)
  {
    assert ApplyAll(Apply(c, e), []) == Apply(c, e) && Trace(Apply(c, e), []) == [];
  }

  lemma TwoEdits(c: Contents, e: Edit, f: Edit)
    ensures ApplyAll(c, [e, f]) == Apply(Apply(c, e), f) && Trace(c, [e, f]) == Writes(c, e) + Writes(Apply(c, e), f)
  {
    assert [e, f][1..] == [f];
    OneEdit(Apply(c, e), f);
  }

  lemma {:induction false} EditsInTwo(c: Contents, a: seq<Edit>, b: seq<Edit>)
    ensures ApplyAll(c, a + b) == ApplyAll(ApplyAll(c, a), b)
    ensures Trace(c, a + b) == Trace(c, a) + Trace(ApplyAll(c, a), b)
    decreases |a|
  {
    hide Apply, Writes;
    if a == [] {
      assert a + b == b;
    } else {
      assert (a + b)[1..] == a[1..] + b;
      EditsInTwo(Apply(c, a[0]), a[1..], b);
    }
  }

  lemma StepReads(step: Step, c: Contents)
    requires Coherent(c) && c.exists_
    ensures var d := ApplyAll(c, StepEdits(step, c.values));
      d.values == After(step, c.values) && Coherent(d) && d.exists_
  {
    KeysDistinct();
    hide OLD_CLASS, LOG_CLASS, LOG_BACKEND, OLD_ENABLED, ENABLED, OLD_DAYS, RETENTION, FILES;
    hide SetLines, UnsetLines, Read, RenameInPlace, SingleExact, Optimized, PreviousHorizon, LacksGrafana, WithGrafana;
    hide FromEnv;
    var v, edits := c.values, StepEdits(step, c.values);
    EditsKeepCoherence(c, edits);
    ExistsStays(c, edits);
    match step
    case Overlay => if edits != [] { OneEdit(c, edits[0]); }
    case Class =>
      if Optimized(v) {
        MoveReads(c, OLD_CLASS, LOG_CLASS);
        EditsInTwo(c, MoveEdits(v, OLD_CLASS, LOG_CLASS), [Unset(OLD_CLASS)]);
        OneEdit(ApplyAll(c, MoveEdits(v, OLD_CLASS, LOG_CLASS)), Unset(OLD_CLASS));
      } else {
        OneEdit(c, Unset(OLD_CLASS));
      }
    case Backend => if edits != [] { OneEdit(c, edits[0]); }
    case Toggle => MoveReads(c, OLD_ENABLED, ENABLED);
    case Retention =>
      if |edits| == 2 { TwoEdits(c, edits[0], edits[1]); } else { OneEdit(c, edits[0]); }
  }

  lemma {:induction false} ExistsStays(c: Contents, edits: seq<Edit>)
    requires c.exists_
    ensures ApplyAll(c, edits).exists_
    decreases |edits|
  {
    if edits != [] {
      ExistsStays(Apply(c, edits[0]), edits[1..]);
    }
  }

  // ----- where a crash can leave the file -----

  predicate HasHalf(step: Step, v: Vals)
  {
    match step
    case Class => Optimized(v) && IsSet(v, OLD_CLASS) && !IsSet(v, LOG_CLASS)
    case Toggle => IsSet(v, OLD_ENABLED) && !IsSet(v, ENABLED)
    case Retention => PreviousHorizon(v) != "" && !IsSet(v, RETENTION)
    case _ => false
  }

  /** The key a step takes away. */
  function OldKey(step: Step): string
  {
    match step
    case Class => OLD_CLASS
    case Toggle => OLD_ENABLED
    case _ => OLD_DAYS
  }

  /** The values between the two writes of a step that makes two; otherwise the step's own result. */
  function Half(step: Step, v: Vals): Vals
  {
    if !HasHalf(step, v) then After(step, v)
    else
      match step
      case Class => v[LOG_CLASS := v[OLD_CLASS]]
      case Toggle => v[ENABLED := v[OLD_ENABLED]]
      case _ => v[RETENTION := PreviousHorizon(v)]
  }

  /** `w` is what the edits end in, or one unset of `old_` away from it, with the values `half`. */
  predicate Point(c: Contents, edits: seq<Edit>, w: seq<Line>, old_: string, half: Vals)
  {
    || Load(w) == ApplyAll(c, edits)
    || (Read(w) == half && Apply(Load(w), Unset(old_)) == ApplyAll(c, edits))
  }

  lemma WriteLoads(c: Contents, e: Edit)
    requires Coherent(c) && c.exists_
    ensures !e.Rename? ==> forall w :: w in Writes(c, e) ==> Load(w) == Apply(c, e)
  {
    hide SetLines, UnsetLines, Read, RenameInPlace, SingleExact;
    ApplyKeepsCoherence(c, e);
  }

  lemma RenamePoints(c: Contents, o: string, n: string, w: seq<Line>)
    requires Coherent(c) && c.exists_ && o != n && w in Writes(c, Rename(o, n))
    ensures o in c.values && Point(c, [Rename(o, n)], w, o, c.values[n := c.values[o]])
  {
    hide SetLines, UnsetLines, Read, RenameInPlace, SingleExact;
    var e := Rename(o, n);
    OneEdit(c, e);
    ApplyKeepsCoherence(c, e);
    if !SingleExact(c.lines, o) {
      ReadSet(c.lines, n, c.values[o]);
      ReadUnset(SetLines(c.lines, n, c.values[o]), o);
    }
  }

  lemma MovePoints(c: Contents, old_: string, new_: string, w: seq<Line>)
    requires Coherent(c) && c.exists_ && old_ != new_ && w in Trace(c, MoveEdits(c.values, old_, new_))
    ensures IsSet(c.values, old_) && !IsSet(c.values, new_) ==>
      Point(c, MoveEdits(c.values, old_, new_), w, old_, c.values[new_ := c.values[old_]])
    ensures !(IsSet(c.values, old_) && !IsSet(c.values, new_)) ==>
      Load(w) == ApplyAll(c, MoveEdits(c.values, old_, new_))
  {
    hide SetLines, UnsetLines, Read, RenameInPlace, SingleExact, Writes, Coherent;
    var v, edits := c.values, MoveEdits(c.values, old_, new_);
    if |edits| == 2 {
      TwoPoints(c, edits[0], edits[1], w);
      ApplyKeepsCoherence(c, edits[0]);
      assert Apply(c, edits[0]).values == v[new_ := v[old_]];
    } else if edits[0].Rename? {
      OneEdit(c, edits[0]);
      RenamePoints(c, old_, new_, w);
    } else {
      OneEdit(c, edits[0]);
      WriteLoads(c, edits[0]);
    }
  }

  lemma TwoPoints(c: Contents, e: Edit, f: Edit, w: seq<Line>)
    requires Coherent(c) && c.exists_ && e.Set? && f.Unset? && w in Trace(c, [e, f])
    ensures Point(c, [e, f], w, f.key, Apply(c, e).values)
  {
    hide SetLines, UnsetLines, Read;
    TwoEdits(c, e, f);
    ApplyKeepsCoherence(c, e);
    WriteLoads(c, e);
    WriteLoads(Apply(c, e), f);
  }

  lemma OnePoint(c: Contents, edits: seq<Edit>, w: seq<Line>)
    requires Coherent(c) && c.exists_ && |edits| <= 1 && w in Trace(c, edits) && (edits != [] ==> !edits[0].Rename?)
    ensures Load(w) == ApplyAll(c, edits)
  {
    hide Writes, Read;
    if edits != [] {
      assert edits == [edits[0]];
      OneEdit(c, edits[0]);
      WriteLoads(c, edits[0]);
    }
  }

  lemma ClassPoints(c: Contents, w: seq<Line>)
    requires Coherent(c) && c.exists_ && Optimized(c.values) && w in Trace(c, ClassEdits(c.values))
    ensures HasHalf(Class, c.values) ==> Point(c, ClassEdits(c.values), w, OLD_CLASS, Half(Class, c.values))
    ensures !HasHalf(Class, c.values) ==> Load(w) == ApplyAll(c, ClassEdits(c.values))
  {
    KeysDistinct();
    var move := MoveEdits(c.values, OLD_CLASS, LOG_CLASS);
    var d := ApplyAll(c, move);
    EditsInTwo(c, move, [Unset(OLD_CLASS)]);
    MoveReads(c, OLD_CLASS, LOG_CLASS);
    ExistsStays(c, move);
    OneEdit(d, Unset(OLD_CLASS));
    hide OLD_CLASS, LOG_CLASS, Read, Optimized, SetLines, UnsetLines, RenameInPlace, SingleExact, MoveEdits, ApplyAll;
    hide Trace;
    UnsetAbsent(d, OLD_CLASS);
    MovePoints(c, OLD_CLASS, LOG_CLASS, w);
  }

  lemma UnsetAbsent(c: Contents, key: string)
    requires key !in c.values
    ensures Writes(c, Unset(key)) == [] && Apply(c, Unset(key)) == c
  {
    assert c.values - {key} == c.values;
  }

  lemma StepPoints(step: Step, c: Contents, w: seq<Line>)
    requires Coherent(c) && c.exists_ && w in Trace(c, StepEdits(step, c.values))
    ensures HasHalf(step, c.values) ==> Point(c, StepEdits(step, c.values), w, OldKey(step), Half(step, c.values))
    ensures !HasHalf(step, c.values) ==> Load(w) == ApplyAll(c, StepEdits(step, c.values))
  {
    KeysDistinct();
    hide OLD_CLASS, LOG_CLASS, LOG_BACKEND, OLD_ENABLED, ENABLED, OLD_DAYS, RETENTION, FILES;
    hide Read, Optimized, PreviousHorizon, LacksGrafana, WithGrafana, FromEnv, Writes, ApplyAll, Trace, SetLines;
    var v, edits := c.values, StepEdits(step, c.values);
    match step
    case Overlay => OnePoint(c, edits, w);
    case Backend => OnePoint(c, edits, w);
    case Toggle => MovePoints(c, OLD_ENABLED, ENABLED, w);
    case Class =>
      if Optimized(v) {
        ClassPoints(c, w);
      } else {
        OnePoint(c, edits, w);
      }
    case Retention =>
      if HasHalf(Retention, v) {
        assert edits == [edits[0], edits[1]];
        TwoPoints(c, edits[0], edits[1], w);
      } else {
        OnePoint(c, edits, w);
      }
  }

  // ----- rerunning -----

  predicate Done(step: Step, v: Vals)
  {
    match step
    case Overlay => !LacksGrafana(v)
    case Class => OLD_CLASS !in v
    case Backend => IsSet(v, LOG_BACKEND)
    case Toggle => OLD_ENABLED !in v
    case Retention => OLD_DAYS !in v && (PreviousHorizon(v) != "" ==> IsSet(v, RETENTION))
  }

  /** The file list can be read back after the overlay joined it. */
  predicate Separable(v: Vals) { |Sep(v)| == 1 && (LacksGrafana(v) ==> Sep(v)[0] !in FileOf(GrafanaUi)) }

  function Order(step: Step): nat
  {
    match step
    case Overlay => 0
    case Class => 1
    case Backend => 2
    case Toggle => 3
    case Retention => 4
  }

  lemma NotOptimizedWithoutClass(v: Vals)
    requires OLD_CLASS !in v
    ensures !Optimized(v)
  {}

  predicate Agree(v: Vals, w: Vals, key: string) { (key in v <==> key in w) && (key in v ==> v[key] == w[key]) }

  /** The keys a step may change. */
  function Touched(step: Step): set<string>
  {
    match step
    case Overlay => {FILES}
    case Class => {OLD_CLASS, LOG_CLASS}
    case Backend => {LOG_BACKEND}
    case Toggle => {OLD_ENABLED, ENABLED}
    case Retention => {OLD_DAYS, RETENTION}
  }

  lemma MovedKeeps(v: Vals, old_: string, new_: string, key: string)
    requires key != old_ && key != new_
    ensures Agree(v, Moved(v, old_, new_), key)
  {}

  lemma OnlyTouchedChange(step: Step, v: Vals, key: string)
    requires key !in Touched(step)
    ensures Agree(v, After(step, v), key) && Agree(v, Half(step, v), key)
  {
    hide OLD_CLASS, LOG_CLASS, LOG_BACKEND, OLD_ENABLED, ENABLED, OLD_DAYS, RETENTION, FILES, Optimized;
    hide PreviousHorizon, LacksGrafana, WithGrafana, FromEnv, Moved;
    match step
    case Overlay =>
    case Class => MovedKeeps(v, OLD_CLASS, LOG_CLASS, key);
    case Backend =>
    case Toggle => MovedKeeps(v, OLD_ENABLED, ENABLED, key);
    case Retention =>
  }

  lemma SameFileKeys(v: Vals, w: Vals)
    requires Agree(v, w, FILES) && Agree(v, w, SEPARATOR)
    ensures FromEnv(v) == FromEnv(w) && LacksGrafana(v) == LacksGrafana(w) && Sep(v) == Sep(w)
  {
    hide Parts, FileOf;
  }

  lemma HorizonOfDays(v: Vals)
    ensures IsSet(v, OLD_DAYS) ==> PreviousHorizon(v) != ""
    ensures !IsSet(v, OLD_DAYS) ==> PreviousHorizon(v) == if CmsReadsAsOn(Get(v, ENABLED, "")) then "90d" else ""
  {
    hide CmsReadsAsOn, Strip;
    if IsSet(v, OLD_DAYS) {
      assert |PreviousHorizon(v)| > 0;
    }
  }

  lemma RetentionDone(v: Vals)
    ensures Done(Retention, After(Retention, v))
  {
    KeysDistinct();
    HorizonOfDays(v);
    HorizonOfDays(After(Retention, v));
    hide OLD_DAYS, RETENTION, ENABLED, PreviousHorizon, CmsReadsAsOn;
  }

  lemma AfterIsDone(step: Step, v: Vals)
    requires Separable(v)
    ensures Done(step, After(step, v))
  {
    match step
    case Overlay => OverlayJoins(v);
    case Retention => RetentionDone(v);
    case _ =>
      hide OLD_CLASS, LOG_CLASS, LOG_BACKEND, OLD_ENABLED, ENABLED, Optimized, LacksGrafana;
  }

  /** A later step leaves an earlier one done. */
  lemma EarlierStaysDone(earlier: Step, step: Step, v: Vals)
    requires Order(earlier) < Order(step) && Done(earlier, v)
    ensures Done(earlier, Half(step, v)) && Done(earlier, After(step, v))
  {
    KeysDistinct();
    hide OLD_CLASS, LOG_CLASS, LOG_BACKEND, OLD_ENABLED, ENABLED, OLD_DAYS, RETENTION, FILES, SEPARATOR, LacksGrafana;
    hide After, Half;
    match earlier
    case Overlay =>
      OnlyTouchedChange(step, v, FILES);
      OnlyTouchedChange(step, v, SEPARATOR);
      SameFileKeys(v, After(step, v));
      SameFileKeys(v, Half(step, v));
    case Class => OnlyTouchedChange(step, v, OLD_CLASS);
    case Backend => OnlyTouchedChange(step, v, LOG_BACKEND);
    case Toggle => OnlyTouchedChange(step, v, OLD_ENABLED);
    case Retention =>
  }

  lemma SeparableStays(step: Step, v: Vals)
    requires Separable(v)
    ensures Separable(After(step, v))
  {
    KeysDistinct();
    hide OLD_CLASS, LOG_CLASS, LOG_BACKEND, OLD_ENABLED, ENABLED, OLD_DAYS, RETENTION, FILES, SEPARATOR, LacksGrafana;
    hide After, Half, FileOf;
    OnlyTouchedChange(step, v, SEPARATOR);
    if step == Overlay {
      AfterIsDone(Overlay, v);
    } else {
      OnlyTouchedChange(step, v, FILES);
      SameFileKeys(v, After(step, v));
    }
  }

  lemma WithGrafanaHas(files: seq<string>)
    requires FileOf(Metrics) in files
    ensures FileOf(GrafanaUi) in WithGrafana(files) && FileOf(Metrics) in WithGrafana(files)
    ensures forall f :: f in WithGrafana(files) <==> f in files || f == FileOf(GrafanaUi)
  {
    hide FileOf;
    var i := IndexOf(files, FileOf(Metrics));
    assert WithGrafana(files)[i] == FileOf(GrafanaUi);
    assert files == files[..i] + files[i..];
  }

  /** The overlay stands before the metrics overlay in the list read back. */
  lemma OverlayJoins(v: Vals)
    requires Separable(v)
    ensures FromEnv(After(Overlay, v)).files == if LacksGrafana(v) then WithGrafana(FromEnv(v).files)
      else FromEnv(v).files
    ensures Done(Overlay, After(Overlay, v))
  {
    if LacksGrafana(v) {
      var sep := Sep(v)[0];
      assert [sep] == Sep(v);
      hide Parts, FileOf, Join, Sep;
      var files := FromEnv(v).files;
      FilesRead(v);
      JoinedReadsBack(files, Get(v, FILES, BASE_FILE), sep);
      SepStays(v, Join(WithGrafana(files), Sep(v)));
      FilesRead(After(Overlay, v));
      WithGrafanaHas(files);
    }
  }

  lemma FilesRead(v: Vals)
    ensures FromEnv(v).files == Parts(Get(v, FILES, BASE_FILE), Sep(v))
  {}

  lemma JoinedReadsBack(files: seq<string>, raw: string, sep: char)
    requires files == Parts(raw, [sep]) && FileOf(Metrics) in files && sep !in FileOf(GrafanaUi)
    ensures Join(WithGrafana(files), [sep]) != "" && Parts(Join(WithGrafana(files), [sep]), [sep]) == WithGrafana(files)
  {
    var joined := WithGrafana(files);
    PartsArePlain(raw, sep);
    GrafanaIsPlain(sep);
    WithGrafanaHas(files);
    hide FileOf, WithGrafana, Join, Parts, Stripped;
    assert forall p :: p in joined ==> p != "" && Stripped(p) && sep !in p;
    PartsRoundTrip(joined, sep);
    JoinNotEmpty(joined, sep);
  }

  lemma PartsArePlain(raw: string, sep: char)
    ensures PlainParts(Parts(raw, [sep]), sep)
  {
    NonBlankIsPlain(Split(raw, [sep]), sep);
  }

  lemma SepStays(v: Vals, files: string)
    requires files != ""
    ensures Sep(v[FILES := files]) == Sep(v) && Get(v[FILES := files], FILES, BASE_FILE) == files
  {
    KeysDistinct();
    hide FILES, SEPARATOR;
  }

  lemma GrafanaIsPlain(sep: char)
    requires sep !in FileOf(GrafanaUi)
    ensures FileOf(GrafanaUi) != "" && Stripped(FileOf(GrafanaUi))
  {}

  lemma JoinNotEmpty(parts: seq<string>, sep: char)
    requires parts != [] && PlainParts(parts, sep)
    ensures Join(parts, [sep]) != ""
  {
    assert parts[0] in parts;
  }

  // ----- whole runs of the migration -----

  lemma {:induction false} StepsRead(c: Contents, steps: seq<Step>)
    requires Coherent(c) && c.exists_
    ensures var d := RunSteps(c, steps);
      d.values == AfterAll(c.values, steps) && Coherent(d) && d.exists_
    decreases |steps|
  {
    hide After, StepEdits, ApplyAll;
    if steps != [] {
      StepReads(steps[0], c);
      StepsRead(ApplyAll(c, StepEdits(steps[0], c.values)), steps[1..]);
    }
  }

  predicate AllDone(steps: seq<Step>, v: Vals) { forall s :: s in steps ==> Done(s, v) }

  /** `done` has run, `todo` has not: the steps in order. */
  predicate Splits(done: seq<Step>, todo: seq<Step>)
  {
    forall s, t :: s in done && t in todo ==> Order(s) < Order(t)
  }

  lemma {:induction false} DoneStepsSkip(c: Contents, done: seq<Step>, todo: seq<Step>)
    requires Coherent(c) && c.exists_ && AllDone(done, c.values)
    ensures RunSteps(c, done + todo) == RunSteps(c, todo)
    decreases |done|
  {
    hide Done, StepEdits, Trace, ApplyAll, Read;
    if done == [] {
      assert done + todo == todo;
    } else {
      assert (done + todo)[1..] == done[1..] + todo;
      assert done[0] in done;
      DoneWritesNothing(done[0], c);
      DoneStepsSkip(c, done[1..], todo);
    }
  }

  lemma HorizonStays(v: Vals)
    ensures PreviousHorizon(v[RETENTION := PreviousHorizon(v)]) == PreviousHorizon(v)
  {
    KeysDistinct();
    hide OLD_DAYS, RETENTION, ENABLED, CmsReadsAsOn, Strip;
  }

  /** A step run again from between its writes has one unset left to do. */
  lemma HalfResumes(step: Step, v: Vals, x: Contents)
    requires Coherent(x) && x.exists_ && HasHalf(step, v) && x.values == Half(step, v)
    ensures ApplyAll(x, StepEdits(step, x.values)) == Apply(x, Unset(OldKey(step)))
  {
    KeysDistinct();
    if step == Retention {
      HorizonStays(v);
    }
    hide OLD_CLASS, LOG_CLASS, LOG_BACKEND, OLD_ENABLED, ENABLED, OLD_DAYS, RETENTION, LacksGrafana, PreviousHorizon;
    hide AfterLastDot, Read, UnsetLines, ApplyAll, Apply;
    var old_ := OldKey(step);
    if step == Class {
      assert StepEdits(step, x.values) == [Unset(old_), Unset(old_)];
      TwoEdits(x, Unset(old_), Unset(old_));
      UnsetTwice(x, old_);
    } else {
      assert StepEdits(step, x.values) == [Unset(old_)];
      OneEdit(x, Unset(old_));
    }
  }

  lemma UnsetTwice(c: Contents, key: string)
    ensures Apply(Apply(c, Unset(key)), Unset(key)) == Apply(c, Unset(key))
  {
    UnsetAbsent(Apply(c, Unset(key)), key);
  }

  /** A step run again from any content it goes through ends in the contents it would have ended in. */
  lemma StepResumes(step: Step, c: Contents, w: seq<Line>)
    requires Coherent(c) && c.exists_ && Separable(c.values) && w in Trace(c, StepEdits(step, c.values))
    ensures ApplyAll(Load(w), StepEdits(step, Read(w))) == ApplyAll(c, StepEdits(step, c.values))
    ensures Read(w) == Half(step, c.values) || Read(w) == After(step, c.values)
  {
    hide Read, StepEdits, ApplyAll, Trace, Separable, Done, Half, After, HasHalf, Apply;
    var d := ApplyAll(c, StepEdits(step, c.values));
    StepPoints(step, c, w);
    StepReads(step, c);
    if Load(w) == d {
      AfterIsDone(step, c.values);
      DoneWritesNothing(step, d);
    } else {
      HalfResumes(step, c.values, Load(w));
    }
  }

  /** From any content the file goes through, running everything again leads to the same contents. */
  lemma {:induction false} CrashRejoins(c: Contents, done: seq<Step>, todo: seq<Step>, w: seq<Line>)
    requires Coherent(c) && c.exists_ && Separable(c.values) && AllDone(done, c.values)
    requires Splits(done, todo) && (forall i, j :: 0 <= i < j < |todo| ==> Order(todo[i]) < Order(todo[j]))
    requires w in TraceSteps(c, todo)
    ensures RunSteps(Load(w), done + todo) == RunSteps(c, todo)
    decreases |todo|
  {
    hide After, Half, Done, Separable, StepEdits, ApplyAll, Read, Trace;
    var step, v := todo[0], c.values;
    var d := ApplyAll(c, StepEdits(step, v));
    forall s | s in done ensures Done(s, Half(step, v)) && Done(s, After(step, v)) {
      assert step in todo;
      EarlierStaysDone(s, step, v);
    }
    if w in Trace(c, StepEdits(step, v)) {
      StepResumes(step, c, w);
      DoneStepsSkip(Load(w), done, todo);
    } else {
      StepReads(step, c);
      AfterIsDone(step, v);
      SeparableStays(step, v);
      assert (done + [step]) + todo[1..] == done + todo;
      CrashRejoins(d, done + [step], todo[1..], w);
    }
  }

  /** The contents a hard crash can leave: the old one, or one the file went through. */
  predicate CrashOf(before: seq<Line>, after: seq<Line>)
  {
    after == before || after in TraceSteps(Load(before), STEPS)
  }

  /** Whatever write the migration is interrupted after, running it again ends in the very file, and so in the
      key/value reading, of one uninterrupted run. */
  lemma CrashIdempotent(before: seq<Line>, after: seq<Line>)
    requires Separable(Read(before)) && CrashOf(before, after)
    ensures Migrate(after) == Migrate(before)
    ensures Separable(Read(after))
  {
    StepsOrdered();
    hide AfterAll, TraceSteps, RunSteps, Read, Separable, STEPS;
    if after != before {
      CrashRejoins(Load(before), [], STEPS, after);
      assert [] + STEPS == STEPS;
      CrashSeparable(Load(before), STEPS, after);
    }
  }

  lemma StepsOrdered()
    ensures forall i, j :: 0 <= i < j < |STEPS| ==> Order(STEPS[i]) < Order(STEPS[j])
  {}

  /** A key no step touches reads the same in every content the file goes through. */
  lemma {:induction false} CrashKeepsKey(c: Contents, todo: seq<Step>, w: seq<Line>, key: string)
    requires Coherent(c) && c.exists_ && Separable(c.values) && w in TraceSteps(c, todo)
    requires forall s: Step :: key !in Touched(s)
    ensures Agree(c.values, Read(w), key)
    decreases |todo|
  {
    hide After, Half, Separable, StepEdits, ApplyAll, Read, Trace, Touched;
    var step := todo[0];
    OnlyTouchedChange(step, c.values, key);
    if w in Trace(c, StepEdits(step, c.values)) {
      StepResumes(step, c, w);
    } else {
      SeparableStays(step, c.values);
      StepReads(step, c);
      CrashKeepsKey(ApplyAll(c, StepEdits(step, c.values)), todo[1..], w, key);
    }
  }

  lemma {:induction false} StepsKeepKey(v: Vals, steps: seq<Step>, key: string)
    requires forall s: Step :: key !in Touched(s)
    ensures Agree(v, AfterAll(v, steps), key)
    decreases |steps|
  {
    hide After, Touched;
    if steps != [] {
      OnlyTouchedChange(steps[0], v, key);
      StepsKeepKey(After(steps[0], v), steps[1..], key);
    }
  }

  lemma {:induction false} StepsKeepSeparable(v: Vals, steps: seq<Step>)
    requires Separable(v)
    ensures Separable(AfterAll(v, steps))
    decreases |steps|
  {
    hide After, Separable;
    if steps != [] {
      SeparableStays(steps[0], v);
      StepsKeepSeparable(After(steps[0], v), steps[1..]);
    }
  }

  lemma {:induction false} CrashSeparable(c: Contents, todo: seq<Step>, w: seq<Line>)
    requires Coherent(c) && c.exists_ && Separable(c.values) && w in TraceSteps(c, todo)
    ensures Separable(Read(w))
    decreases |todo|
  {
    hide After, Half, Separable, StepEdits, ApplyAll, Read, Trace;
    var step := todo[0];
    SeparableStays(step, c.values);
    if w in Trace(c, StepEdits(step, c.values)) {
      StepResumes(step, c, w);
      HalfSeparable(step, c.values);
    } else {
      StepReads(step, c);
      CrashSeparable(ApplyAll(c, StepEdits(step, c.values)), todo[1..], w);
    }
  }

  lemma HalfSeparable(step: Step, v: Vals)
    requires Separable(v)
    ensures Separable(Half(step, v))
  {
    SeparableStays(step, v);
    if step != Overlay {
      TouchesNoFileKey(step);
      OnlyTouchedChange(step, v, SEPARATOR);
      OnlyTouchedChange(step, v, FILES);
      hide FILES, SEPARATOR, LacksGrafana, After, Half, FileOf, Sep, Touched;
      SameFileKeys(v, Half(step, v));
    }
  }

  lemma TouchesNoFileKey(step: Step)
    requires step != Overlay
    ensures FILES !in Touched(step) && SEPARATOR !in Touched(step)
  {
    KeysDistinct();
    hide OLD_CLASS, LOG_CLASS, LOG_BACKEND, OLD_ENABLED, ENABLED, OLD_DAYS, RETENTION, FILES, SEPARATOR;
  }

  /** After the migration every step is done: no old key survives, the metrics overlay has its Grafana, and
      running the migration again writes nothing at all. */
  lemma MigratedForGood(before: seq<Line>)
    requires Separable(Read(before))
    ensures var after := Migrate(before);
      && OLD_CLASS !in after.values && OLD_ENABLED !in after.values && OLD_DAYS !in after.values
      && !LacksGrafana(after.values)
      && TraceSteps(after, STEPS) == [] && RunSteps(after, STEPS) == after
  {
    hide StepEdits, Read, Separable, TraceSteps, RunSteps, After, Done, STEPS;
    var after := Migrate(before);
    EveryStepDone(before);
    DoneMeansGone(after.values);
    NothingLeft(after, STEPS);
  }

  lemma EveryStepDone(before: seq<Line>)
    requires Separable(Read(before))
    ensures var after := Migrate(before);
      Coherent(after) && after.exists_ && AllDone(STEPS, after.values)
  {
    hide StepEdits, Read, Separable, After, Done;
    StepsRead(Load(before), STEPS);
    AllStepsDone(Read(before), [], STEPS);
    assert [] + STEPS == STEPS;
  }

  lemma DoneMeansGone(v: Vals)
    requires AllDone(STEPS, v)
    ensures OLD_CLASS !in v && OLD_ENABLED !in v && OLD_DAYS !in v && !LacksGrafana(v)
  {
    hide LacksGrafana, PreviousHorizon, OLD_CLASS, OLD_ENABLED, OLD_DAYS, RETENTION;
    assert Class in STEPS && Toggle in STEPS && Retention in STEPS && Overlay in STEPS;
    assert Done(Class, v) && Done(Toggle, v) && Done(Retention, v) && Done(Overlay, v);
  }

  lemma {:induction false} AllStepsDone(v: Vals, done: seq<Step>, todo: seq<Step>)
    requires Separable(v) && AllDone(done, v) && Splits(done, todo)
    requires forall i, j :: 0 <= i < j < |todo| ==> Order(todo[i]) < Order(todo[j])
    ensures AllDone(done + todo, AfterAll(v, todo))
    decreases |todo|
  {
    hide After, Done, Separable;
    if todo == [] {
      assert done + todo == done;
    } else {
      var step := todo[0];
      forall s | s in done ensures Done(s, After(step, v)) {
        assert step in todo;
        EarlierStaysDone(s, step, v);
      }
      AfterIsDone(step, v);
      SeparableStays(step, v);
      assert (done + [step]) + todo[1..] == done + todo;
      AllStepsDone(After(step, v), done + [step], todo[1..]);
    }
  }

  lemma DoneWritesNothing(step: Step, c: Contents)
    requires Coherent(c) && c.exists_ && Done(step, c.values)
    ensures Trace(c, StepEdits(step, c.values)) == [] && ApplyAll(c, StepEdits(step, c.values)) == c
  {
    hide Read, Optimized, PreviousHorizon, LacksGrafana, SetLines, UnsetLines;
    var edits := StepEdits(step, c.values);
    if step == Class {
      NotOptimizedWithoutClass(c.values);
    }
    if edits != [] {
      assert edits == [edits[0]] && edits[0].Unset?;
      OneEdit(c, edits[0]);
      assert c.values - {edits[0].key} == c.values;
    }
  }

  lemma {:induction false} NothingLeft(c: Contents, steps: seq<Step>)
    requires Coherent(c) && c.exists_ && AllDone(steps, c.values)
    ensures TraceSteps(c, steps) == [] && RunSteps(c, steps) == c
    decreases |steps|
  {
    hide Done, StepEdits, Trace, ApplyAll, Read;
    if steps != [] {
      assert steps[0] in steps;
      DoneWritesNothing(steps[0], c);
      NothingLeft(c, steps[1..]);
    }
  }

  // ----- what the new release reads -----

  /** What the toggle and the horizon are after the migration, in terms of what they were. */
  lemma RetentionAfterAll(v: Vals)
    ensures var w := AfterAll(v, STEPS);
      && Get(w, ENABLED, "") == (if IsSet(v, ENABLED) then v[ENABLED] else Get(v, OLD_ENABLED, ""))
      && Get(w, RETENTION, "30d") ==
         (if IsSet(v, RETENTION) then v[RETENTION]
          else if IsSet(v, OLD_DAYS) then Strip(v[OLD_DAYS]) + "d"
          else if CmsReadsAsOn(Get(w, ENABLED, "")) then "90d" else "30d")
  {
    hide CmsReadsAsOn, Strip, OLD_ENABLED, ENABLED, OLD_DAYS, RETENTION, Optimized, LacksGrafana, Touched;
    var v3 := After(Backend, After(Class, After(Overlay, v)));
    UnfoldSteps(v);
    EarlyStepsKeep(v, OLD_ENABLED);
    EarlyStepsKeep(v, ENABLED);
    EarlyStepsKeep(v, OLD_DAYS);
    EarlyStepsKeep(v, RETENTION);
    hide After;
    RetentionAfterToggle(v3);
  }

  lemma UnfoldSteps(v: Vals)
    ensures AfterAll(v, STEPS) ==
      After(Retention, After(Toggle, After(Backend, After(Class, After(Overlay, v)))))
  {
    hide After;
    assert STEPS[1..] == [Class, Backend, Toggle, Retention] && STEPS[1..][1..] == [Backend, Toggle, Retention];
    assert STEPS[1..][1..][1..] == [Toggle, Retention] && STEPS[1..][1..][1..][1..] == [Retention];
    assert STEPS[1..][1..][1..][1..][1..] == [];
  }

  lemma EarlyStepsKeep(v: Vals, key: string)
    requires key in {OLD_ENABLED, ENABLED, OLD_DAYS, RETENTION}
    ensures Agree(v, After(Backend, After(Class, After(Overlay, v))), key)
  {
    KeysDistinct();
    hide OLD_CLASS, LOG_CLASS, LOG_BACKEND, OLD_ENABLED, ENABLED, OLD_DAYS, RETENTION, FILES, SEPARATOR, After, Half;
    OnlyTouchedChange(Overlay, v, key);
    OnlyTouchedChange(Class, After(Overlay, v), key);
    OnlyTouchedChange(Backend, After(Class, After(Overlay, v)), key);
  }

  lemma RetentionAfterToggle(v: Vals)
    ensures var w := After(Retention, After(Toggle, v));
      && Get(w, ENABLED, "") == (if IsSet(v, ENABLED) then v[ENABLED] else Get(v, OLD_ENABLED, ""))
      && Get(w, RETENTION, "30d") ==
         (if IsSet(v, RETENTION) then v[RETENTION]
          else if IsSet(v, OLD_DAYS) then Strip(v[OLD_DAYS]) + "d"
          else if CmsReadsAsOn(Get(w, ENABLED, "")) then "90d" else "30d")
  {
    KeysDistinct();
    HorizonOfDays(After(Toggle, v));
    hide CmsReadsAsOn, Strip, OLD_ENABLED, ENABLED, OLD_DAYS, RETENTION;
  }

  // ----- the separator -----

  lemma {:induction false} JoinKeepsPart(parts: seq<string>, f: string, sep: char)
    requires f in parts && sep !in f
    ensures f in Split(Join(parts, [sep]), [sep])
  {
    if |parts| == 1 {
      SplitWhole(f, sep);
    } else {
      SplitConcat(parts[0], Join(parts[1..], [sep]), sep);
      if parts[0] == f {
        SplitWhole(f, sep);
      } else {
        assert f in parts[1..];
        JoinKeepsPart(parts[1..], f, sep);
      }
    }
  }

  lemma {:induction false} NonBlankHas(parts: seq<string>, f: string)
    requires f in parts && f != "" && Stripped(f)
    ensures f in NonBlank(parts)
  {
    if parts[0] == f {
      StripIdentity(f);
    } else {
      assert f in parts[1..];
      NonBlankHas(parts[1..], f);
    }
  }

  /** With a single-character separator the overlay step settles exactly when it had nothing to do or the
      separator does not occur in the name it inserts. */
  lemma OverlaySettlesIff(v: Vals)
    requires |Sep(v)| == 1
    ensures Done(Overlay, After(Overlay, v)) <==> !LacksGrafana(v) || Sep(v)[0] !in FileOf(GrafanaUi)
  {
    if LacksGrafana(v) && Sep(v)[0] in FileOf(GrafanaUi) {
      NeverSettles(v, Sep(v)[0]);
    } else {
      AfterIsDone(Overlay, v);
    }
  }

  /** The file after `n` runs of the migration. */
  function Again(before: seq<Line>, n: nat): seq<Line>
  {
    if n == 0 then before else Migrate(Again(before, n - 1)).lines
  }

  lemma LaterStepsKeepFiles(v: Vals)
    ensures Agree(After(Overlay, v), AfterAll(v, STEPS), FILES)
    ensures Agree(After(Overlay, v), AfterAll(v, STEPS), SEPARATOR)
  {
    KeysDistinct();
    UnfoldSteps(v);
    hide OLD_CLASS, LOG_CLASS, LOG_BACKEND, OLD_ENABLED, ENABLED, OLD_DAYS, RETENTION, FILES, SEPARATOR, After, Half;
    hide STEPS, AfterAll;
    var v1 := After(Overlay, v);
    var v2 := After(Class, v1);
    var v3 := After(Backend, v2);
    var v4 := After(Toggle, v3);
    forall key | key == FILES || key == SEPARATOR ensures Agree(v1, After(Retention, v4), key) {
      OnlyTouchedChange(Class, v1, key);
      OnlyTouchedChange(Backend, v2, key);
      OnlyTouchedChange(Toggle, v3, key);
      OnlyTouchedChange(Retention, v4, key);
    }
  }

  lemma MigratedReads(before: seq<Line>)
    ensures Read(Migrate(before).lines) == AfterAll(Read(before), STEPS)
  {
    hide Read, RunSteps, AfterAll, STEPS;
    StepsRead(Load(before), STEPS);
  }

  /** The separator makes the inserted name unreadable. */
  ghost predicate Unsettled(v: Vals, sep: char)
  {
    LacksGrafana(v) && Sep(v) == [sep] && sep in FileOf(GrafanaUi)
  }

  lemma OneMoreRun(v: Vals, sep: char)
    requires Unsettled(v, sep)
    ensures Unsettled(AfterAll(v, STEPS), sep)
  {
    hide After, LacksGrafana, FileOf, Sep, STEPS, AfterAll;
    LaterStepsKeepFiles(v);
    NeverSettles(v, sep);
    SameFileKeys(After(Overlay, v), AfterAll(v, STEPS));
    OverlayKeepsSep(v);
  }

  /** Where it does not settle, every further run of the whole migration inserts the overlay again. */
  lemma {:induction false} OverlayEveryRun(before: seq<Line>, sep: char, n: nat)
    requires Unsettled(Read(before), sep)
    ensures Unsettled(Read(Again(before, n)), sep) && OverlayEdits(Read(Again(before, n))) != []
  {
    hide Read, Migrate, STEPS, AfterAll, Unsettled, OverlayEdits;
    if n > 0 {
      OverlayEveryRun(before, sep, n - 1);
      MigratedReads(Again(before, n - 1));
      OneMoreRun(Read(Again(before, n - 1)), sep);
    }
    UnsettledInserts(Read(Again(before, n)), sep);
  }

  lemma UnsettledInserts(v: Vals, sep: char)
    requires Unsettled(v, sep)
    ensures OverlayEdits(v) != []
  {
    hide LacksGrafana, FileOf, Sep;
  }

  lemma OverlayKeepsSep(v: Vals)
    ensures Sep(After(Overlay, v)) == Sep(v)
  {
    KeysDistinct();
    hide FILES, SEPARATOR, LacksGrafana, FromEnv, Join, WithGrafana;
  }

  const ODD_SEPARATOR := [
    Assignment("", SEPARATOR, false, "g"), Assignment("", FILES, false, "compose.yamlgcompose.metrics.yaml")]

  lemma OddSeparatorReads()
    ensures Read(ODD_SEPARATOR) == map[SEPARATOR := "g", FILES := "compose.yamlgcompose.metrics.yaml"]
  {
    KeysDistinct();
    hide SEPARATOR, FILES;
    var rest := ODD_SEPARATOR[1..];
    assert rest == [Assignment("", FILES, false, "compose.yamlgcompose.metrics.yaml")] && rest[1..] == [];
    assert Read(rest[1..]) == map[];
    assert Read(rest) == map[FILES := "compose.yamlgcompose.metrics.yaml"];
    assert Read(ODD_SEPARATOR) == map[SEPARATOR := "g"] + Read(rest);
  }

  lemma OddNames()
    ensures 'g' !in BASE_FILE && 'g' !in FileOf(Metrics) && 'g' in FileOf(GrafanaUi)
    ensures BASE_FILE != "" && Stripped(BASE_FILE) && FileOf(GrafanaUi) !in {BASE_FILE, FileOf(Metrics)}
    ensures BASE_FILE + ['g'] + FileOf(Metrics) == "compose.yamlgcompose.metrics.yaml"
  {
    assert FileOf(GrafanaUi)[8] == 'g';
    assert |FileOf(GrafanaUi)| != |BASE_FILE| && FileOf(Metrics)[8] == 'm';
  }

  /** A base and a metrics file joined by "g", which neither name contains and compose.grafana.yaml does: the overlay
      is inserted on every run. */
  lemma OddSeparatorNeverSettles(n: nat)
    ensures var v := Read(Again(ODD_SEPARATOR, n)); LacksGrafana(v) && OverlayEdits(v) != []
  {
    OddSeparatorReads();
    OddNames();
    MetricsIsPlain();
    KeysDistinct();
    hide Read, ODD_SEPARATOR, FILES, SEPARATOR, FileOf, BASE_FILE, Split, Join, OverlayEdits, Again, NonBlank, Strip;
    var v := Read(ODD_SEPARATOR);
    var names := [BASE_FILE, FileOf(Metrics)];
    assert Sep(v) == "g" && Get(v, FILES, BASE_FILE) == "compose.yamlgcompose.metrics.yaml";
    JoinOfTwo(BASE_FILE, FileOf(Metrics), "g");
    PartsRoundTrip(names, 'g');
    FilesRead(v);
    assert FromEnv(v).files == names;
    assert FileOf(Metrics) in names && FileOf(GrafanaUi) !in names;
    OverlayEveryRun(ODD_SEPARATOR, 'g', n);
  }

  lemma JoinOfTwo(a: string, b: string, sep: string)
    ensures Join([a, b], sep) == a + sep + b
  {
    assert [a, b][1..] == [b];
  }

  lemma NeverSettles(v: Vals, sep: char)
    requires LacksGrafana(v) && Sep(v) == [sep] && sep in FileOf(GrafanaUi)
    ensures LacksGrafana(After(Overlay, v))
  {
    var raw, files := Get(v, FILES, BASE_FILE), FromEnv(v).files;
    var joined := Join(WithGrafana(files), [sep]);
    MetricsIsPlain();
    hide FileOf, Split, Join, NonBlank;
    FilesRead(v);
    WithGrafanaHas(files);
    assert sep !in FileOf(Metrics) by {
      NonBlankIsPlain(Split(raw, [sep]), sep);
    }
    JoinKeepsPart(WithGrafana(files), FileOf(Metrics), sep);
    NonBlankHas(Split(joined, [sep]), FileOf(Metrics));
    NonBlankIsPlain(Split(joined, [sep]), sep);
    JoinWithPart(joined, sep);
    SepStays(v, joined);
    FilesRead(After(Overlay, v));
  }

  lemma JoinWithPart(joined: string, sep: char)
    requires FileOf(Metrics) in Split(joined, [sep])
    ensures joined != ""
  {
    MetricsIsPlain();
    SplitWhole("", sep);
    hide FileOf, Split;
  }

  lemma MetricsIsPlain()
    ensures FileOf(Metrics) != "" && Stripped(FileOf(Metrics))
  {}

  // ----- the migration on the .env object -----

  method Move(env: Env, old_: string, new_: string)
    requires Coherent(env.Now()) && env.exists_ && old_ != new_
    modifies env
    ensures env.Now() == ApplyAll(old(env.Now()), MoveEdits(old(env.values), old_, new_))
    ensures env.written == old(env.written) + Trace(old(env.Now()), MoveEdits(old(env.values), old_, new_))
    ensures Coherent(env.Now()) && env.exists_
  {
    hide Writes, Read, Apply, Coherent;
    ghost var c, edits := env.Now(), MoveEdits(env.values, old_, new_);
    EditsKeepCoherence(c, edits);
    ExistsStays(c, edits);
    if IsSet(env.values, old_) && new_ !in env.values {
      OneEdit(c, edits[0]);
      var _ := env.RenameKey(old_, new_);
      return;
    }
    if IsSet(env.values, old_) && !IsSet(env.values, new_) {
      TwoEdits(c, edits[0], edits[1]);
      env.SetKey(new_, env.values[old_]);
    } else {
      OneEdit(c, edits[0]);
    }
    env.UnsetKey(old_);
  }

  method MoveLoggerClass(env: Env)
    requires Coherent(env.Now()) && env.exists_
    modifies env
    ensures env.Now() == RunSteps(old(env.Now()), [Class, Backend])
    ensures env.written == old(env.written) + TraceSteps(old(env.Now()), [Class, Backend])
    ensures Coherent(env.Now()) && env.exists_
  {
    hide Writes, Read, Apply, Coherent, MoveEdits, Trace, ApplyAll, After, Optimized;
    ghost var c := env.Now();
    TwoSteps(c, Class, Backend);
    StepReads(Class, c);
    if Optimized(env.values) {
      KeysDistinct();
      EditsInTwo(c, MoveEdits(c.values, OLD_CLASS, LOG_CLASS), [Unset(OLD_CLASS)]);
      Move(env, OLD_CLASS, LOG_CLASS);
    } else {
      assert ClassEdits(c.values) == [Unset(OLD_CLASS)];
    }
    OneEdit(env.Now(), Unset(OLD_CLASS));
    env.UnsetKey(OLD_CLASS);
    ghost var d := env.Now();
    assert d == ApplyAll(c, ClassEdits(c.values));
    StepReads(Backend, d);
    if !IsSet(env.values, LOG_BACKEND) {
      OneEdit(d, Set(LOG_BACKEND, "db"));
      env.SetKey(LOG_BACKEND, "db");
    } else {
      NoEdits(d);
    }
  }

  lemma NoEdits(c: Contents)
    ensures ApplyAll(c, []) == c && Trace(c, []) == []
  {}

  lemma TwoSteps(c: Contents, s: Step, t: Step)
    ensures var d := ApplyAll(c, StepEdits(s, c.values));
      && RunSteps(c, [s, t]) == ApplyAll(d, StepEdits(t, d.values))
      && TraceSteps(c, [s, t]) == Trace(c, StepEdits(s, c.values)) + Trace(d, StepEdits(t, d.values))
  {
    hide StepEdits, ApplyAll, Trace;
    var d := ApplyAll(c, StepEdits(s, c.values));
    assert [s, t][1..] == [t];
    OneStep(d, t);
  }

  lemma OneStep(c: Contents, s: Step)
    ensures RunSteps(c, [s]) == ApplyAll(c, StepEdits(s, c.values))
      && TraceSteps(c, [s]) == Trace(c, StepEdits(s, c.values))
  {
    hide StepEdits, ApplyAll, Trace;
    assert [s][1..] == [];
  }

  lemma {:induction false} StepsInTwo(c: Contents, a: seq<Step>, b: seq<Step>)
    ensures RunSteps(c, a + b) == RunSteps(RunSteps(c, a), b)
    ensures TraceSteps(c, a + b) == TraceSteps(c, a) + TraceSteps(RunSteps(c, a), b)
    decreases |a|
  {
    hide StepEdits, ApplyAll, Trace;
    if a == [] {
      assert a + b == b;
    } else {
      assert (a + b)[1..] == a[1..] + b;
      StepsInTwo(ApplyAll(c, StepEdits(a[0], c.values)), a[1..], b);
    }
  }

  method AddGrafanaOverlay(env: Env)
    requires Coherent(env.Now()) && env.exists_
    modifies env
    ensures env.Now() == RunSteps(old(env.Now()), [Overlay])
    ensures env.written == old(env.written) + TraceSteps(old(env.Now()), [Overlay])
    ensures Coherent(env.Now()) && env.exists_
  {
    hide Writes, Read, Apply, Coherent, Trace, ApplyAll, After;
    ghost var c := env.Now();
    OneStep(c, Overlay);
    StepReads(Overlay, c);
    NoEdits(c);
    var files := FromEnv(env.values).files;
    if FileOf(Metrics) !in files || FileOf(GrafanaUi) in files { return; }
    var joined := Join(WithGrafana(files), Sep(env.values));
    OneEdit(c, Set(FILES, joined));
    env.SetKey(FILES, joined);
  }

  method CarryRetentionOver(env: Env)
    requires Coherent(env.Now()) && env.exists_
    modifies env
    ensures env.Now() == RunSteps(old(env.Now()), [Retention])
    ensures env.written == old(env.written) + TraceSteps(old(env.Now()), [Retention])
    ensures Coherent(env.Now()) && env.exists_
  {
    hide Writes, Read, Apply, Coherent, Trace, ApplyAll, After, PreviousHorizon;
    ghost var c := env.Now();
    OneStep(c, Retention);
    StepReads(Retention, c);
    var horizon := PreviousHorizon(env.values);
    if horizon != "" && !IsSet(env.values, RETENTION) {
      assert RetentionEdits(c.values) == [Set(RETENTION, horizon), Unset(OLD_DAYS)];
      TwoEdits(c, Set(RETENTION, horizon), Unset(OLD_DAYS));
      env.SetKey(RETENTION, horizon);
    } else {
      assert RetentionEdits(c.values) == [Unset(OLD_DAYS)];
      OneEdit(c, Unset(OLD_DAYS));
    }
    env.UnsetKey(OLD_DAYS);
  }

  lemma StepsChain(c: Contents)
    ensures var d := RunSteps(RunSteps(c, [Overlay]), [Class, Backend]);
      var e := RunSteps(d, [Toggle]);
      && RunSteps(c, STEPS) == RunSteps(e, [Retention])
      && TraceSteps(c, STEPS) ==
         TraceSteps(c, [Overlay]) + TraceSteps(RunSteps(c, [Overlay]), [Class, Backend])
         + TraceSteps(d, [Toggle]) + TraceSteps(e, [Retention])
  {
    hide RunSteps, TraceSteps;
    var d := RunSteps(RunSteps(c, [Overlay]), [Class, Backend]);
    StepsInTwo(c, [Overlay], [Class, Backend]);
    StepsInTwo(d, [Toggle], [Retention]);
    StepsInTwo(c, [Overlay] + [Class, Backend], [Toggle] + [Retention]);
    assert [Overlay] + [Class, Backend] + ([Toggle] + [Retention]) == STEPS;
  }

  /** apply, after the data directories: the object ends in the contents of `Migrate`, through the writes of
      `TraceSteps`, which is what the crash lemmas range over. */
  method ApplyToEnv(env: Env)
    requires env.exists_ && Coherent(env.Now())
    modifies env
    ensures env.Now() == Migrate(old(env.lines)) && Coherent(env.Now())
    ensures env.written == old(env.written) + TraceSteps(Load(old(env.lines)), STEPS)
  {
    ghost var c := env.Now();
    assert c == Load(env.lines) && Migrate(env.lines) == RunSteps(c, STEPS);
    RunEverything(env);
  }

  method RunEverything(env: Env)
    requires env.exists_ && Coherent(env.Now())
    modifies env
    ensures env.Now() == RunSteps(old(env.Now()), STEPS) && Coherent(env.Now())
    ensures env.written == old(env.written) + TraceSteps(old(env.Now()), STEPS)
  {
    hide *;
    ghost var c := env.Now();
    ghost var w0, t1 := env.written, TraceSteps(c, [Overlay]);
    AddGrafanaOverlay(env);
    ghost var t2 := TraceSteps(env.Now(), [Class, Backend]);
    MoveLoggerClass(env);
    ghost var t3 := TraceSteps(env.Now(), [Toggle]);
    assert env.written == w0 + (t1 + t2);
    MoveToggle(env);
    assert env.written == w0 + (t1 + t2 + t3);
    CarryRetentionOver(env);
    StepsChain(c);
  }

  method MoveToggle(env: Env)
    requires Coherent(env.Now()) && env.exists_
    modifies env
    ensures env.Now() == RunSteps(old(env.Now()), [Toggle])
    ensures env.written == old(env.written) + TraceSteps(old(env.Now()), [Toggle])
    ensures Coherent(env.Now()) && env.exists_
  {
    hide Writes, Read, Apply, Coherent, Trace, ApplyAll, MoveEdits;
    OneStep(env.Now(), Toggle);
    KeysDistinct();
    Move(env, OLD_ENABLED, ENABLED);
  }
}
