/** The migration runner: pending migrations in order, failure markers, one saved record per migration, and a
    process that may raise or be killed between any two writes (neops_compose/migrate.py, state.py). */
module Migrate {
  import opened Wrappers

  /** `full` is what one uninterrupted apply makes of the world; `partial(w, x)` says that an interrupted one
      may leave `x`. */
  datatype Migration<!W> = Migration(name: string, idempotent: bool, full: W -> W, partial: (W, W) -> bool)

  /** What survives the process. The state file is replaced atomically. */
  datatype Disk<W> = Disk(world: W, applied: seq<string>, faked: seq<string>, markers: set<string>)

  /** How the run goes for one pending migration. */
  datatype Fate<W> =
    | Completes
    | Raises(left: W)        // apply raises, the marker is written
    | KilledInApply(left: W) // killed inside apply, or after it raised and before the marker
    | KilledBeforeUnlink     // after apply, an old marker still there
    | KilledBeforeSave       // the marker gone, the record not yet saved
    | KilledAfterSave

  datatype Outcome = Finished | Failed(name: string) | Blocked(name: string) | Killed

  /** An apply that was started, and the disk it started on. */
  datatype Event<W> = Executed(name: string, idempotent: bool, before: Disk<W>)

  datatype Ran<W> = Ran(disk: Disk<W>, outcome: Outcome, events: seq<Event<W>>)

  function Names<W>(ms: seq<Migration<W>>): (names: seq<string>)
    ensures |names| == |ms| && forall i :: 0 <= i < |ms| ==> names[i] == ms[i].name
  {
    seq(|ms|, i requires 0 <= i < |ms| => ms[i].name)
  }

  function NameSet<W>(ms: seq<Migration<W>>): set<string> { set m | m in Names(ms) }

  predicate Distinct(names: seq<string>) { forall i, j :: 0 <= i < j < |names| ==> names[i] != names[j] }

  function Pending<W>(ms: seq<Migration<W>>, applied: seq<string>): seq<Migration<W>>
  {
    if ms == [] then []
    else (if ms[0].name in applied then [] else [ms[0]]) + Pending(ms[1..], applied)
  }

  function Completed<W>(d: Disk<W>, m: Migration<W>): Disk<W>
  {
    Disk(m.full(d.world), d.applied + [m.name], d.faked, d.markers - {m.name})
  }

  predicate IsBlocked<W>(d: Disk<W>, m: Migration<W>) { m.name in d.markers && !m.idempotent }

  /** What a fate other than completion leaves. */
  function Interrupted<W>(d: Disk<W>, m: Migration<W>, fate: Fate<W>): Disk<W>
    requires fate != Completes
  {
    match fate
    case Raises(left) => d.(world := left, markers := d.markers + {m.name})
    case KilledInApply(left) => d.(world := left)
    case KilledBeforeUnlink => d.(world := m.full(d.world))
    case KilledBeforeSave => d.(world := m.full(d.world), markers := d.markers - {m.name})
    case KilledAfterSave => Completed(d, m)
  }

  /** apply_all over the pending migrations. */
  function Run<W>(d: Disk<W>, todo: seq<Migration<W>>, fates: seq<Fate<W>>): Ran<W>
    requires |fates| == |todo|
    decreases |todo|
  {
    if todo == [] then Ran(d, Finished, [])
    else if IsBlocked(d, todo[0]) then Ran(d, Blocked(todo[0].name), [])
    else
      var started := Executed(todo[0].name, todo[0].idempotent, d);
      if fates[0] == Completes then
        var rest := Run(Completed(d, todo[0]), todo[1..], fates[1..]);
        Ran(rest.disk, rest.outcome, [started] + rest.events)
      else
        Ran(Interrupted(d, todo[0], fates[0]), if fates[0].Raises? then Failed(todo[0].name) else Killed, [started])
  }

  lemma RunNothing<W>(d: Disk<W>, todo: seq<Migration<W>>, fates: seq<Fate<W>>)
    requires todo == [] && fates == []
    ensures Run(d, todo, fates) == Ran(d, Finished, [])
  {}

  /** One turn of the loop in apply_all. */
  lemma RunUnrolls<W>(d: Disk<W>, todo: seq<Migration<W>>, fates: seq<Fate<W>>, i: nat)
    requires |fates| == |todo| && i < |todo|
    ensures var m, fate, ran := todo[i], fates[i], Run(d, todo[i..], fates[i..]);
      if IsBlocked(d, m) then ran == Ran(d, Blocked(m.name), [])
      else if fate == Completes then
        var rest := Run(Completed(d, m), todo[i + 1..], fates[i + 1..]);
        ran == Ran(rest.disk, rest.outcome, [Executed(m.name, m.idempotent, d)] + rest.events)
      else
        var outcome := if fate.Raises? then Failed(m.name) else Killed;
        ran == Ran(Interrupted(d, m, fate), outcome, [Executed(m.name, m.idempotent, d)])
  {
    assert todo[i..][1..] == todo[i + 1..] && fates[i..][1..] == fates[i + 1..];
  }

  /** fake: None stands for the error it raises. */
  function Faked<W>(ms: seq<Migration<W>>, d: Disk<W>, name: string): Option<Disk<W>>
  {
    if name in Names(ms) && name !in d.applied then
      Some(d.(applied := d.applied + [name], faked := d.faked + [name]))
    else None
  }

  // ----- the runner as the CLI holds it -----

  class Installation<W(==)> {
    var world: W
    var applied: seq<string>
    var faked: seq<string>
    var markers: set<string>
    ghost var events: seq<Event<W>>

    ghost function OnDisk(): Disk<W>
      reads this
    {
      Disk(world, applied, faked, markers)
    }

    constructor (d: Disk<W>)
      ensures OnDisk() == d && events == []
    {
      world, applied, faked, markers := d.world, d.applied, d.faked, d.markers;
      events := [];
    }

    /** The adversary's `fates` say how each pending migration ends. */
    method ApplyAll(ms: seq<Migration<W>>, fates: seq<Fate<W>>) returns (outcome: Outcome)
      requires |fates| == |Pending(ms, applied)|
      modifies this
      ensures var ran := Run(old(OnDisk()), Pending(ms, old(applied)), fates);
        OnDisk() == ran.disk && outcome == ran.outcome && events == old(events) + ran.events
    {
      hide Run, Pending;
      ghost var e0 := events;
      var todo := Pending(ms, applied);
      assert todo[0..] == todo && fates[0..] == fates;
      ghost var ran := Run(OnDisk(), todo, fates);
      for i := 0 to |todo|
        invariant var rest := Run(OnDisk(), todo[i..], fates[i..]);
          rest.disk == ran.disk && rest.outcome == ran.outcome && events + rest.events == e0 + ran.events
      {
        var m := todo[i];
        RunUnrolls(OnDisk(), todo, fates, i);
        if m.name in markers && !m.idempotent { return Blocked(m.name); }
        events := events + [Executed(m.name, m.idempotent, OnDisk())];
        var fate := fates[i];
        if fate.Raises? {
          world := fate.left;
          markers := markers + {m.name};
          return Failed(m.name);
        }
        if fate.KilledInApply? {
          world := fate.left;
          return Killed;
        }
        world := m.full(world);
        if fate.KilledBeforeUnlink? { return Killed; }
        markers := markers - {m.name};
        if fate.KilledBeforeSave? { return Killed; }
        applied := applied + [m.name];
        if fate.KilledAfterSave? { return Killed; }
      }
      RunNothing(OnDisk(), todo[|todo|..], fates[|todo|..]);
      return Finished;
    }

    method Fake(ms: seq<Migration<W>>, name: string) returns (ok: bool)
      modifies this
      ensures var faked_ := Faked(ms, old(OnDisk()), name);
        ok == faked_.Some? && OnDisk() == (if ok then faked_.value else old(OnDisk())) && events == old(events)
    {
      ok := name in Names(ms) && name !in applied;
      if ok {
        applied := applied + [name];
        faked := faked + [name];
      }
    }
  }

  // ----- crash tolerance -----

  /** On worlds in `ok`, any interrupted apply followed by a full one equals one full apply, and a full one may
      itself be repeated; neither leaves `ok`. */
  ghost predicate Resumable<W(!new)>(m: Migration<W>, ok: W -> bool)
  {
    && m.idempotent
    && (forall w, x :: ok(w) && m.partial(w, x) ==> ok(x) && m.full(x) == m.full(w))
    && (forall w :: ok(w) ==> ok(m.full(w)) && m.full(m.full(w)) == m.full(w))
  }

  /** The fates only leave what an interrupted apply can leave. */
  ghost predicate Honest<W>(d: Disk<W>, todo: seq<Migration<W>>, fates: seq<Fate<W>>)
    requires |fates| == |todo|
    decreases |todo|
  {
    todo == [] || IsBlocked(d, todo[0]) ||
    match fates[0]
    case Completes => Honest(Completed(d, todo[0]), todo[1..], fates[1..])
    case Raises(left) => todo[0].partial(d.world, left)
    case KilledInApply(left) => todo[0].partial(d.world, left)
    case _ => true
  }

  function FullRun<W>(w: W, ms: seq<Migration<W>>): W
    decreases |ms|
  {
    if ms == [] then w else FullRun(ms[0].full(w), ms[1..])
  }

  /** The disk one uninterrupted run leaves. */
  function CleanRun<W>(ms: seq<Migration<W>>, d: Disk<W>): Disk<W>
  {
    var todo := Pending(ms, d.applied);
    Disk(FullRun(d.world, todo), d.applied + Names(todo), d.faked, d.markers - NameSet(todo))
  }

  lemma {:induction false} PendingDrops<W>(ms: seq<Migration<W>>, applied: seq<string>, name: string)
    requires name !in Names(ms)
    ensures Pending(ms, applied + [name]) == Pending(ms, applied)
  {
    if ms != [] {
      assert ms[0].name == Names(ms)[0];
      assert Names(ms[1..]) == Names(ms)[1..];
      PendingDrops(ms[1..], applied, name);
    }
  }

  lemma {:induction false} PendingTail<W>(ms: seq<Migration<W>>, applied: seq<string>)
    requires Distinct(Names(ms)) && Pending(ms, applied) != []
    ensures var todo := Pending(ms, applied);
      todo[0].name in Names(ms) && todo[0].name !in applied && Pending(ms, applied + [todo[0].name]) == todo[1..]
  {
    assert Names(ms[1..]) == Names(ms)[1..] && ms[0].name == Names(ms)[0];
    if ms[0].name in applied {
      PendingTail(ms[1..], applied);
    } else {
      var todo := Pending(ms, applied);
      assert todo[0] == ms[0] && todo[1..] == Pending(ms[1..], applied);
      PendingDrops(ms[1..], applied, ms[0].name);
    }
  }

  /** Completing the first pending migration is the first step of the clean run. */
  lemma CompletedOnTheWay<W>(ms: seq<Migration<W>>, d: Disk<W>)
    requires Distinct(Names(ms)) && Pending(ms, d.applied) != []
    ensures CleanRun(ms, Completed(d, Pending(ms, d.applied)[0])) == CleanRun(ms, d)
  {
    var todo := Pending(ms, d.applied);
    PendingTail(ms, d.applied);
    hide Pending, FullRun, Names, NameSet;
    NamesOfTail(todo);
    FullRunStep(d.world, todo);
    Regroup(d.applied, todo[0].name, Names(todo[1..]), d.markers, NameSet(todo[1..]));
  }

  lemma Regroup(a: seq<string>, n: string, rest: seq<string>, s: set<string>, t: set<string>)
    ensures a + [n] + rest == a + ([n] + rest) && s - {n} - t == s - ({n} + t)
  {}

  lemma FullRunStep<W>(w: W, ms: seq<Migration<W>>)
    requires ms != []
    ensures FullRun(w, ms) == FullRun(ms[0].full(w), ms[1..])
  {}

  lemma NamesOfTail<W>(ms: seq<Migration<W>>)
    requires ms != []
    ensures Names(ms) == [ms[0].name] + Names(ms[1..])
    ensures NameSet(ms) == {ms[0].name} + NameSet(ms[1..])
  {
    assert Names(ms) == [ms[0].name] + Names(ms[1..]);
  }

  lemma ResumedReaches<W(!new)>(ms: seq<Migration<W>>, ok: W -> bool, d: Disk<W>, fate: Fate<W>)
    requires Distinct(Names(ms)) && Pending(ms, d.applied) != [] && ok(d.world)
    requires var m := Pending(ms, d.applied)[0];
      Resumable(m, ok) && fate != Completes && (fate.Raises? || fate.KilledInApply? ==> m.partial(d.world, fate.left))
    ensures CleanRun(ms, Interrupted(d, Pending(ms, d.applied)[0], fate)) == CleanRun(ms, d)
    ensures ok(Interrupted(d, Pending(ms, d.applied)[0], fate).world)
  {
    var todo := Pending(ms, d.applied);
    if fate.KilledAfterSave? {
      CompletedOnTheWay(ms, d);
    } else {
      assert todo[0].name in NameSet(todo) by { assert Names(todo)[0] == todo[0].name; }
      var left := Interrupted(d, todo[0], fate);
      assert todo[0].full(left.world) == todo[0].full(d.world);
      assert left.markers - NameSet(todo) == d.markers - NameSet(todo);
    }
  }

  /** However a run ends, the disk it leaves is one a clean run turns into the same disk. */
  lemma {:induction false} RunKeepsDestination<W(!new)>(ms: seq<Migration<W>>, ok: W -> bool, d: Disk<W>,
      fates: seq<Fate<W>>)
    requires Distinct(Names(ms)) && ok(d.world) && forall m :: m in ms ==> Resumable(m, ok)
    requires |fates| == |Pending(ms, d.applied)| && Honest(d, Pending(ms, d.applied), fates)
    ensures var ran := Run(d, Pending(ms, d.applied), fates);
      && ok(ran.disk.world) && CleanRun(ms, ran.disk) == CleanRun(ms, d)
      && (ran.outcome == Finished ==> ran.disk == CleanRun(ms, d))
    decreases |fates|
  {
    var todo := Pending(ms, d.applied);
    if todo == [] {
      assert d.applied + Names(todo) == d.applied && d.markers - NameSet(todo) == d.markers;
    } else {
      PendingIsMember(ms, d.applied, todo[0]);
      PendingTail(ms, d.applied);
      if fates[0] == Completes {
        CompletedOnTheWay(ms, d);
        RunKeepsDestination(ms, ok, Completed(d, todo[0]), fates[1..]);
      } else {
        ResumedReaches(ms, ok, d, fates[0]);
      }
    }
  }

  lemma {:induction false} PendingIsMember<W>(ms: seq<Migration<W>>, applied: seq<string>, m: Migration<W>)
    requires m in Pending(ms, applied)
    ensures m in ms
  {
    if m in Pending(ms[1..], applied) {
      PendingIsMember(ms[1..], applied, m);
    }
  }

  /** A history of runs, each with its own fates. */
  function Runs<W>(ms: seq<Migration<W>>, d: Disk<W>, history: seq<seq<Fate<W>>>): Ran<W>
    requires Fits(ms, d, history)
    decreases |history|
  {
    if history == [] then Ran(d, Killed, [])
    else
      var ran := Run(d, Pending(ms, d.applied), history[0]);
      if |history| == 1 then ran else Runs(ms, ran.disk, history[1..])
  }

  predicate Fits<W>(ms: seq<Migration<W>>, d: Disk<W>, history: seq<seq<Fate<W>>>)
    decreases |history|
  {
    history == [] ||
    (|history[0]| == |Pending(ms, d.applied)|
      && Fits(ms, Run(d, Pending(ms, d.applied), history[0]).disk, history[1..]))
  }

  ghost predicate AllHonest<W>(ms: seq<Migration<W>>, d: Disk<W>, history: seq<seq<Fate<W>>>)
    requires Fits(ms, d, history)
    decreases |history|
  {
    history == [] ||
    (Honest(d, Pending(ms, d.applied), history[0])
     && AllHonest(ms, Run(d, Pending(ms, d.applied), history[0]).disk, history[1..]))
  }

  /** Any number of runs interrupted anywhere, followed by one that completes, leave the .env, the data, the
      applied record and the markers as one clean run would. */
  lemma {:induction false} InterruptedThenCompleted<W(!new)>(
    ms: seq<Migration<W>>, ok: W -> bool, d: Disk<W>, history: seq<seq<Fate<W>>>)
    requires Distinct(Names(ms)) && ok(d.world) && forall m :: m in ms ==> Resumable(m, ok)
    requires history != [] && Fits(ms, d, history) && AllHonest(ms, d, history)
    requires Runs(ms, d, history).outcome == Finished
    ensures Runs(ms, d, history).disk == CleanRun(ms, d)
    decreases |history|
  {
    RunKeepsDestination(ms, ok, d, history[0]);
    if |history| > 1 {
      InterruptedThenCompleted(ms, ok, Run(d, Pending(ms, d.applied), history[0]).disk, history[1..]);
    }
  }

  // ----- history safety -----

  datatype Op<W> = Migrate(fates: seq<Fate<W>>) | Fake(name: string) | RemoveMarker(name: string)

  /** One command; a run whose fates do not fit the pending list is none. */
  function Step<W>(ms: seq<Migration<W>>, d: Disk<W>, op: Op<W>): Ran<W>
  {
    match op
    case Migrate(fates) =>
      if |fates| == |Pending(ms, d.applied)| then Run(d, Pending(ms, d.applied), fates) else Ran(d, Killed, [])
    case Fake(name) =>
      (match Faked(ms, d, name)
       case Some(e) => Ran(e, Finished, [])
       case None => Ran(d, Failed(name), []))
    case RemoveMarker(name) => Ran(d.(markers := d.markers - {name}), Finished, [])
  }

  function History<W>(ms: seq<Migration<W>>, d: Disk<W>, ops: seq<Op<W>>): Ran<W>
    decreases |ops|
  {
    if ops == [] then Ran(d, Finished, [])
    else
      var first := Step(ms, d, ops[0]);
      var rest := History(ms, first.disk, ops[1..]);
      Ran(rest.disk, rest.outcome, first.events + rest.events)
  }

  predicate Sound<W>(d: Disk<W>) { Distinct(d.applied) && forall n :: n in d.faked ==> n in d.applied }

  /** The apply was due: it is not applied, everything discovered before it is, and if an earlier attempt
      raised, the migration may be repeated. */
  predicate Due<W>(ms: seq<Migration<W>>, e: Event<W>)
  {
    && (exists i :: 0 <= i < |ms| && ms[i].name == e.name && ms[i].idempotent == e.idempotent
          && forall j :: 0 <= j < i ==> ms[j].name in e.before.applied)
    && e.name !in e.before.applied && (e.name in e.before.markers ==> e.idempotent)
  }

  lemma {:induction false} FirstPendingIsDue<W>(ms: seq<Migration<W>>, applied: seq<string>) returns (i: nat)
    requires Pending(ms, applied) != []
    ensures i < |ms| && ms[i] == Pending(ms, applied)[0] && ms[i].name !in applied
    ensures forall j :: 0 <= j < i ==> ms[j].name in applied
  {
    if ms[0].name in applied {
      var k := FirstPendingIsDue(ms[1..], applied);
      i := k + 1;
      assert forall j :: 0 < j < i ==> ms[j] == ms[1..][j - 1];
    } else {
      i := 0;
    }
  }

  lemma {:induction false} RunIsSafe<W>(ms: seq<Migration<W>>, d: Disk<W>, fates: seq<Fate<W>>)
    requires Distinct(Names(ms)) && Sound(d) && |fates| == |Pending(ms, d.applied)|
    ensures var ran := Run(d, Pending(ms, d.applied), fates);
      Sound(ran.disk) && forall e :: e in ran.events ==> Due(ms, e)
    decreases |fates|
  {
    var todo := Pending(ms, d.applied);
    if todo != [] && !IsBlocked(d, todo[0]) {
      var i := FirstPendingIsDue(ms, d.applied);
      PendingTail(ms, d.applied);
      assert Due(ms, Executed(todo[0].name, todo[0].idempotent, d));
      assert Sound(Completed(d, todo[0]));
      if fates[0] == Completes {
        RunIsSafe(ms, Completed(d, todo[0]), fates[1..]);
      }
    }
  }

  /** Over any interleaving of runs that complete, raise or are killed, of fakes and of markers removed by hand:
      applied names never repeat, faked names are applied, and every apply that started was due. */
  lemma {:induction false} HistoryIsSafe<W>(ms: seq<Migration<W>>, d: Disk<W>, ops: seq<Op<W>>)
    requires Distinct(Names(ms)) && Sound(d)
    ensures Sound(History(ms, d, ops).disk) && forall e :: e in History(ms, d, ops).events ==> Due(ms, e)
    decreases |ops|
  {
    if ops != [] {
      var first := Step(ms, d, ops[0]);
      assert Sound(first.disk) && forall e :: e in first.events ==> Due(ms, e) by {
        if ops[0].Migrate? && |ops[0].fates| == |Pending(ms, d.applied)| {
          RunIsSafe(ms, d, ops[0].fates);
        }
      }
      HistoryIsSafe(ms, first.disk, ops[1..]);
    }
  }

  /** A run that ends in a raised error leaves the marker of the migration it names. */
  lemma {:induction false} RaisedIsMarked<W>(d: Disk<W>, todo: seq<Migration<W>>, fates: seq<Fate<W>>)
    requires |fates| == |todo| && Run(d, todo, fates).outcome.Failed?
    ensures Run(d, todo, fates).outcome.name in Run(d, todo, fates).disk.markers
    decreases |todo|
  {
    if fates[0] == Completes {
      RaisedIsMarked(Completed(d, todo[0]), todo[1..], fates[1..]);
    }
  }

  lemma {:induction false} RunKeepsMarker<W>(ms: seq<Migration<W>>, d: Disk<W>, fates: seq<Fate<W>>, name: string)
    requires |fates| == |Pending(ms, d.applied)| && Distinct(Names(ms)) && name in d.markers
    requires forall m :: m in ms && m.name == name ==> !m.idempotent
    ensures var ran := Run(d, Pending(ms, d.applied), fates);
      name in ran.disk.markers && forall e :: e in ran.events ==> e.name != name
    decreases |fates|
  {
    var todo := Pending(ms, d.applied);
    if todo != [] && !IsBlocked(d, todo[0]) {
      PendingIsMember(ms, d.applied, todo[0]);
      PendingTail(ms, d.applied);
      if fates[0] == Completes {
        RunKeepsMarker(ms, Completed(d, todo[0]), fates[1..], name);
      }
    }
  }

  /** A non-idempotent migration with a marker never starts again until someone removes that marker. */
  lemma {:induction false} MarkedNeverRuns<W>(ms: seq<Migration<W>>, d: Disk<W>, ops: seq<Op<W>>, name: string)
    requires Distinct(Names(ms)) && name in d.markers
    requires forall m :: m in ms && m.name == name ==> !m.idempotent
    requires RemoveMarker(name) !in ops
    ensures name in History(ms, d, ops).disk.markers
    ensures forall e :: e in History(ms, d, ops).events ==> e.name != name
    decreases |ops|
  {
    if ops != [] {
      var first := Step(ms, d, ops[0]);
      assert ops[0] in ops;
      if ops[0].Migrate? && |ops[0].fates| == |Pending(ms, d.applied)| {
        RunKeepsMarker(ms, d, ops[0].fates, name);
      }
      MarkedNeverRuns(ms, first.disk, ops[1..], name);
    }
  }

  // ----- which endings start a migration again -----

  /** The next run, however it goes, starts with this migration. */
  ghost predicate StartsNext<W(!new)>(ms: seq<Migration<W>>, d: Disk<W>, name: string)
  {
    forall fates: seq<Fate<W>> :: |fates| == |Pending(ms, d.applied)| ==>
      var started := Run(d, Pending(ms, d.applied), fates).events;
      started != [] && started[0].name == name
  }

  /** The next run, however it goes, does not start it at all. */
  ghost predicate NotStarted<W(!new)>(ms: seq<Migration<W>>, d: Disk<W>, name: string)
  {
    forall fates: seq<Fate<W>> :: |fates| == |Pending(ms, d.applied)| ==>
      forall e :: e in Run(d, Pending(ms, d.applied), fates).events ==> e.name != name
  }

  lemma {:induction false} RunKeepsApplied<W>(d: Disk<W>, todo: seq<Migration<W>>, fates: seq<Fate<W>>)
    requires |fates| == |todo|
    ensures d.applied <= Run(d, todo, fates).disk.applied
    decreases |todo|
  {
    if todo != [] && fates[0] == Completes {
      RunKeepsApplied(Completed(d, todo[0]), todo[1..], fates[1..]);
    }
  }

  lemma {:induction false} StartedWerePending<W>(ms: seq<Migration<W>>, d: Disk<W>, fates: seq<Fate<W>>, name: string)
    requires Distinct(Names(ms)) && |fates| == |Pending(ms, d.applied)| && name in d.applied
    ensures forall e :: e in Run(d, Pending(ms, d.applied), fates).events ==> e.name != name
    decreases |fates|
  {
    var todo := Pending(ms, d.applied);
    if todo != [] && !IsBlocked(d, todo[0]) {
      PendingTail(ms, d.applied);
      if fates[0] == Completes {
        StartedWerePending(ms, Completed(d, todo[0]), fates[1..], name);
      }
    }
  }

  lemma AppliedIsNotStarted<W(!new)>(ms: seq<Migration<W>>, d: Disk<W>, name: string)
    requires Distinct(Names(ms)) && name in d.applied
    ensures NotStarted(ms, d, name)
  {
    forall fates: seq<Fate<W>> | |fates| == |Pending(ms, d.applied)|
      ensures forall e :: e in Run(d, Pending(ms, d.applied), fates).events ==> e.name != name
    {
      StartedWerePending(ms, d, fates, name);
    }
  }

  lemma UnblockedStartsNext<W(!new)>(ms: seq<Migration<W>>, d: Disk<W>)
    requires Pending(ms, d.applied) != [] && !IsBlocked(d, Pending(ms, d.applied)[0])
    ensures StartsNext(ms, d, Pending(ms, d.applied)[0].name)
  {
  }

  lemma BlockedIsNotStarted<W(!new)>(ms: seq<Migration<W>>, d: Disk<W>, name: string)
    requires Pending(ms, d.applied) != [] && IsBlocked(d, Pending(ms, d.applied)[0])
    ensures NotStarted(ms, d, name)
  {
  }

  /** Killed before its record was saved, or raised where a repeat is allowed. */
  predicate LeftUnrecorded<W>(m: Migration<W>, fate: Fate<W>)
  {
    fate.KilledInApply? || fate.KilledBeforeUnlink? || fate.KilledBeforeSave? || (fate.Raises? && m.idempotent)
  }

  lemma InterruptedStartsAgainIff<W(!new)>(ms: seq<Migration<W>>, d: Disk<W>, fate: Fate<W>)
    requires Distinct(Names(ms)) && fate != Completes
    requires Pending(ms, d.applied) != [] && !IsBlocked(d, Pending(ms, d.applied)[0])
    ensures var m := Pending(ms, d.applied)[0];
      var left := Interrupted(d, m, fate);
      if LeftUnrecorded(m, fate) then StartsNext(ms, left, m.name) else NotStarted(ms, left, m.name)
  {
    hide Run, Pending, StartsNext, NotStarted, Names, Distinct;
    var m := Pending(ms, d.applied)[0];
    var left := Interrupted(d, m, fate);
    if fate.KilledAfterSave? {
      AppliedIsNotStarted(ms, left, m.name);
    } else if LeftUnrecorded(m, fate) {
      UnblockedStartsNext(ms, left);
    } else {
      BlockedIsNotStarted(ms, left, m.name);
    }
  }

  lemma RunLeaves<W>(d: Disk<W>, todo: seq<Migration<W>>, fates: seq<Fate<W>>)
    requires |fates| == |todo| && todo != [] && !IsBlocked(d, todo[0])
    ensures fates[0] != Completes ==> Run(d, todo, fates).disk == Interrupted(d, todo[0], fates[0])
    ensures fates[0] == Completes ==> todo[0].name in Run(d, todo, fates).disk.applied
  {
    if fates[0] == Completes {
      RunKeepsApplied(Completed(d, todo[0]), todo[1..], fates[1..]);
      assert todo[0].name in Completed(d, todo[0]).applied;
    }
  }

  /** However a started migration ends, the next run starts it again exactly when a kill left it unrecorded, even
      completed and even not idempotent, or it raised and is idempotent; otherwise the next run does not start it. */
  lemma StartsAgainIff<W(!new)>(ms: seq<Migration<W>>, d: Disk<W>, fates: seq<Fate<W>>)
    requires Distinct(Names(ms)) && |fates| == |Pending(ms, d.applied)|
    requires Pending(ms, d.applied) != [] && !IsBlocked(d, Pending(ms, d.applied)[0])
    ensures var m := Pending(ms, d.applied)[0];
      var left := Run(d, Pending(ms, d.applied), fates).disk;
      && (StartsNext(ms, left, m.name) <==> LeftUnrecorded(m, fates[0]))
      && (NotStarted(ms, left, m.name) <==> !LeftUnrecorded(m, fates[0]))
  {
    hide Run, Pending, StartsNext, NotStarted, Names, Distinct, Interrupted;
    var todo := Pending(ms, d.applied);
    var left := Run(d, todo, fates).disk;
    RunLeaves(d, todo, fates);
    NotBoth(ms, left, todo[0].name);
    if fates[0] == Completes {
      AppliedIsNotStarted(ms, left, todo[0].name);
    } else {
      InterruptedStartsAgainIff(ms, d, fates[0]);
    }
  }

  lemma NotBoth<W(!new)>(ms: seq<Migration<W>>, d: Disk<W>, name: string)
    ensures !(StartsNext(ms, d, name) && NotStarted(ms, d, name))
  {
    var fates: seq<Fate<W>> := seq(|Pending(ms, d.applied)|, _ => KilledAfterSave);
    assert |fates| == |Pending(ms, d.applied)|;
    var started := Run(d, Pending(ms, d.applied), fates).events;
    assert started != [] ==> started[0] in started;
  }
}
