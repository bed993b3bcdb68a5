/** What a run of the migrations does, seen from outside: which ones start, in which order, on which world, and what the
    record says afterwards (neops_compose/migrate.py:99-165). */
module Ledger {
  import opened Wrappers
  import opened Migrate

  // ----- what is pending -----

  /** The discovered migrations that are not applied, in their order. */
  function NotApplied<W>(ms: seq<Migration<W>>, applied: seq<string>): seq<Migration<W>>
  {
    if ms == [] then []
    else
      var last := ms[|ms| - 1];
      NotApplied(ms[..|ms| - 1], applied) + if last.name in applied then [] else [last]
  }

  lemma {:induction false} PendingConcat<W>(a: seq<Migration<W>>, b: seq<Migration<W>>, applied: seq<string>)
    ensures Pending(a + b, applied) == Pending(a, applied) + Pending(b, applied)
  {
    if a == [] {
      assert a + b == b;
    } else {
      assert (a + b)[1..] == a[1..] + b;
      PendingConcat(a[1..], b, applied);
    }
  }

  lemma {:induction false} PendingIsNotApplied<W>(ms: seq<Migration<W>>, applied: seq<string>)
    ensures Pending(ms, applied) == NotApplied(ms, applied)
  {
    if ms != [] {
      var init, last := ms[..|ms| - 1], [ms[|ms| - 1]];
      assert ms == init + last;
      PendingIsNotApplied(init, applied);
      PendingConcat(init, last, applied);
      assert last[1..] == [];
    }
  }

  lemma {:induction false} NotAppliedIff<W>(ms: seq<Migration<W>>, applied: seq<string>)
    ensures forall m :: m in NotApplied(ms, applied) <==> m in ms && m.name !in applied
  {
    if ms != [] {
      var init, last := ms[..|ms| - 1], ms[|ms| - 1];
      NotAppliedIff(init, applied);
      assert forall m :: m in ms <==> m in init || m == last;
    }
  }

  // ----- one run -----

  /** The world after these migrations, each applied to what the one before it left. */
  function AppliedInTurn<W>(ms: seq<Migration<W>>, w: W): W
  {
    if ms == [] then w else ms[|ms| - 1].full(AppliedInTurn(ms[..|ms| - 1], w))
  }

  lemma {:induction false} FirstInTurn<W>(ms: seq<Migration<W>>, w: W)
    requires ms != []
    ensures AppliedInTurn(ms, w) == AppliedInTurn(ms[1..], ms[0].full(w))
  {
    if |ms| > 1 {
      var init := ms[..|ms| - 1];
      FirstInTurn(init, w);
      assert ms[1..][..|ms[1..]| - 1] == init[1..];
    } else {
      assert ms[..0] == [] && ms[1..] == [];
    }
  }

  /** The event is the start of the `i`th migration, on the world and the record the ones before it left. */
  ghost predicate StartAt<W>(d: Disk<W>, todo: seq<Migration<W>>, e: Event<W>, i: nat)
    requires i < |todo|
  {
    && e.name == todo[i].name && e.idempotent == todo[i].idempotent
    && e.before.world == AppliedInTurn(todo[..i], d.world)
    && e.before.applied == d.applied + Names(todo)[..i]
  }

  ghost predicate StartsInOrder<W>(d: Disk<W>, todo: seq<Migration<W>>, events: seq<Event<W>>)
  {
    |events| <= |todo| && forall i :: 0 <= i < |events| ==> StartAt(d, todo, events[i], i)
  }

  lemma FirstStart<W>(d: Disk<W>, todo: seq<Migration<W>>)
    requires todo != []
    ensures StartAt(d, todo, Executed(todo[0].name, todo[0].idempotent, d), 0)
  {
    assert todo[..0] == [] && Names(todo)[..0] == [];
  }

  lemma LaterStart<W>(d: Disk<W>, todo: seq<Migration<W>>, e: Event<W>, i: nat)
    requires 0 < i < |todo| && StartAt(Completed(d, todo[0]), todo[1..], e, i - 1)
    ensures StartAt(d, todo, e, i)
  {
    assert todo[i] == todo[1..][i - 1] && todo[..i][1..] == todo[1..][..i - 1];
    FirstInTurn(todo[..i], d.world);
    NamesOfTail(todo);
    hide AppliedInTurn, Names;
    assert Names(todo)[..i] == [todo[0].name] + Names(todo[1..])[..i - 1];
  }

  lemma PrependStart<W>(d: Disk<W>, todo: seq<Migration<W>>, rest: seq<Event<W>>)
    requires todo != [] && StartsInOrder(Completed(d, todo[0]), todo[1..], rest)
    ensures StartsInOrder(d, todo, [Executed(todo[0].name, todo[0].idempotent, d)] + rest)
  {
    hide StartAt, Completed;
    var events := [Executed(todo[0].name, todo[0].idempotent, d)] + rest;
    FirstStart(d, todo);
    forall i | 0 < i < |events| ensures StartAt(d, todo, events[i], i) {
      assert events[i] == rest[i - 1];
      LaterStart(d, todo, events[i], i);
    }
  }

  lemma Turn<W>(d: Disk<W>, todo: seq<Migration<W>>, fates: seq<Fate<W>>)
    requires |fates| == |todo| && todo != [] && !IsBlocked(d, todo[0])
    ensures var ran, started := Run(d, todo, fates), Executed(todo[0].name, todo[0].idempotent, d);
      if fates[0] == Completes then
        var rest := Run(Completed(d, todo[0]), todo[1..], fates[1..]);
        ran == Ran(rest.disk, rest.outcome, [started] + rest.events)
      else ran.disk == Interrupted(d, todo[0], fates[0]) && ran.events == [started] && !ran.outcome.Finished?
  {}

  lemma InterruptedRecord<W>(d: Disk<W>, m: Migration<W>, fate: Fate<W>)
    requires fate != Completes
    ensures var left := Interrupted(d, m, fate);
      left.faked == d.faked && left.applied == d.applied + if fate.KilledAfterSave? then [m.name] else []
  {
    assert d.applied + [] == d.applied;
  }

  /** What a run starts and records: `k` migrations completed and recorded, at most one more started. */
  ghost predicate Recorded<W>(d: Disk<W>, todo: seq<Migration<W>>, fates: seq<Fate<W>>, k: nat)
    requires |fates| == |todo|
  {
    var ran := Run(d, todo, fates);
    && StartsInOrder(d, todo, ran.events) && k <= |ran.events| <= k + 1 && k <= |todo|
    && ran.disk.applied == d.applied + Names(todo)[..k] && ran.disk.faked == d.faked
    && forall i :: 0 <= i < k ==> fates[i] == Completes || fates[i] == KilledAfterSave
  }

  lemma RecordedNone<W>(d: Disk<W>, todo: seq<Migration<W>>, fates: seq<Fate<W>>)
    requires |fates| == |todo| && (todo == [] || IsBlocked(d, todo[0]))
    ensures Recorded(d, todo, fates, 0)
  {
    assert d.applied + Names(todo)[..0] == d.applied;
  }

  lemma RecordedLast<W>(d: Disk<W>, todo: seq<Migration<W>>, fates: seq<Fate<W>>)
    requires |fates| == |todo| && todo != [] && !IsBlocked(d, todo[0]) && fates[0] != Completes
    ensures Recorded(d, todo, fates, if fates[0].KilledAfterSave? then 1 else 0)
  {
    Turn(d, todo, fates);
    FirstStart(d, todo);
    InterruptedRecord(d, todo[0], fates[0]);
    hide Run, StartAt, Interrupted, IsBlocked;
    assert Names(todo)[..0] == [] && Names(todo)[..1] == [todo[0].name];
  }

  lemma RecordedMore<W>(d: Disk<W>, todo: seq<Migration<W>>, fates: seq<Fate<W>>, less: nat)
    requires |fates| == |todo| && todo != [] && !IsBlocked(d, todo[0]) && fates[0] == Completes
    requires Recorded(Completed(d, todo[0]), todo[1..], fates[1..], less)
    ensures Recorded(d, todo, fates, less + 1)
  {
    Turn(d, todo, fates);
    PrependStart(d, todo, Run(Completed(d, todo[0]), todo[1..], fates[1..]).events);
    MoreNames(d, todo, less);
    MoreFates(fates, less);
    assert Completed(d, todo[0]).faked == d.faked;
    hide Run, StartsInOrder, Names, IsBlocked, Completed;
  }

  lemma MoreNames<W>(d: Disk<W>, todo: seq<Migration<W>>, less: nat)
    requires todo != [] && less <= |todo[1..]|
    ensures Completed(d, todo[0]).applied + Names(todo[1..])[..less] == d.applied + Names(todo)[..less + 1]
  {
    NamesOfTail(todo);
    hide Names, NameSet;
    var names := Names(todo[1..])[..less];
    assert Names(todo)[..less + 1] == [todo[0].name] + names;
    assert d.applied + [todo[0].name] + names == d.applied + ([todo[0].name] + names);
  }

  lemma MoreFates<W>(fates: seq<Fate<W>>, less: nat)
    requires fates != [] && less <= |fates[1..]|
    requires forall i :: 0 <= i < less ==> fates[1..][i] == Completes || fates[1..][i] == KilledAfterSave
    ensures forall i :: 0 < i < less + 1 ==> fates[i] == Completes || fates[i] == KilledAfterSave
  {
    assert forall i :: 0 < i < less + 1 ==> fates[i] == fates[1..][i - 1];
  }

  /** A run starts the pending migrations in order and records the first `k` of them, the ones that completed; it never
      touches the record of what was faked. */
  lemma {:induction false} RunInOrder<W>(d: Disk<W>, todo: seq<Migration<W>>, fates: seq<Fate<W>>) returns (k: nat)
    requires |fates| == |todo|
    ensures Recorded(d, todo, fates, k)
    decreases |todo|
  {
    hide Recorded, Run;
    if todo == [] || IsBlocked(d, todo[0]) {
      k := 0;
      RecordedNone(d, todo, fates);
    } else if fates[0] == Completes {
      var less := RunInOrder(Completed(d, todo[0]), todo[1..], fates[1..]);
      RecordedMore(d, todo, fates, less);
      k := less + 1;
    } else {
      RecordedLast(d, todo, fates);
      k := if fates[0].KilledAfterSave? then 1 else 0;
    }
  }

  /** Nothing that is pending raised before without leave to be repeated. */
  ghost predicate Unblocked<W>(d: Disk<W>, todo: seq<Migration<W>>)
  {
    forall m :: m in todo ==> m.name !in d.markers || m.idempotent
  }

  lemma CompletedKeepsOthers<W>(d: Disk<W>, todo: seq<Migration<W>>)
    requires todo != [] && Distinct(Names(todo))
    ensures Distinct(Names(todo[1..])) && (Unblocked(Completed(d, todo[0]), todo[1..]) <==> Unblocked(d, todo[1..]))
  {
    var rest := todo[1..];
    assert Names(rest) == Names(todo)[1..];
    forall m | m in rest ensures m.name != todo[0].name {
      var i :| 0 <= i < |rest| && rest[i] == m;
      assert Names(todo)[i + 1] == m.name && Names(todo)[0] == todo[0].name;
    }
  }

  lemma UnblockedTail<W>(d: Disk<W>, todo: seq<Migration<W>>)
    requires todo != []
    ensures Unblocked(d, todo) <==> !IsBlocked(d, todo[0]) && Unblocked(d, todo[1..])
  {
    assert forall m :: m in todo <==> m == todo[0] || m in todo[1..];
  }

  ghost predicate AllComplete<W>(fates: seq<Fate<W>>) { forall i :: 0 <= i < |fates| ==> fates[i] == Completes }

  lemma AllCompleteTail<W>(fates: seq<Fate<W>>)
    requires fates != []
    ensures AllComplete(fates) <==> fates[0] == Completes && AllComplete(fates[1..])
  {
    assert forall i :: 0 < i < |fates| ==> fates[i] == fates[1..][i - 1];
  }

  /** A run finishes exactly when every apply completes and no pending migration is held back by its marker. */
  lemma {:induction false} FinishesIff<W>(d: Disk<W>, todo: seq<Migration<W>>, fates: seq<Fate<W>>)
    requires |fates| == |todo| && Distinct(Names(todo))
    ensures Run(d, todo, fates).outcome == Finished <==> AllComplete(fates) && Unblocked(d, todo)
    decreases |todo|
  {
    if todo != [] {
      UnblockedTail(d, todo);
      AllCompleteTail(fates);
      CompletedKeepsOthers(d, todo);
      if !IsBlocked(d, todo[0]) {
        Turn(d, todo, fates);
        hide Run, Unblocked, AllComplete, Names;
        if fates[0] == Completes { FinishesIff(Completed(d, todo[0]), todo[1..], fates[1..]); }
      }
    }
  }

  /** A run that finishes has started every migration that was not applied, in order, each on what the one before it
      left, and recorded them all. */
  lemma FinishedRun<W>(ms: seq<Migration<W>>, d: Disk<W>, fates: seq<Fate<W>>)
    requires |fates| == |Pending(ms, d.applied)| && Run(d, Pending(ms, d.applied), fates).outcome == Finished
    ensures var todo, ran := NotApplied(ms, d.applied), Run(d, Pending(ms, d.applied), fates);
      StartsInOrder(d, todo, ran.events) && LeftBy(d, todo, ran) && ran.disk.faked == d.faked
  {
    hide Run, Pending, NotApplied, StartsInOrder, AppliedInTurn, Names, LeftBy;
    PendingIsNotApplied(ms, d.applied);
    var k := RunInOrder(d, Pending(ms, d.applied), fates);
    FinishedLeaves(d, Pending(ms, d.applied), fates);
  }

  /** What a run that finished leaves. */
  ghost predicate LeftBy<W>(d: Disk<W>, todo: seq<Migration<W>>, ran: Ran<W>)
  {
    && |ran.events| == |todo| && ran.disk.world == AppliedInTurn(todo, d.world)
    && ran.disk.applied == d.applied + Names(todo)
    && forall n :: n in ran.disk.markers <==> n in d.markers && n !in Names(todo)
  }

  lemma LeftByMore<W>(d: Disk<W>, todo: seq<Migration<W>>, rest: Ran<W>)
    requires todo != [] && LeftBy(Completed(d, todo[0]), todo[1..], rest)
    ensures LeftBy(d, todo, Ran(rest.disk, Finished, [Executed(todo[0].name, todo[0].idempotent, d)] + rest.events))
  {
    FirstInTurn(todo, d.world);
    InNames(todo);
    MoreNames(d, todo, |todo| - 1);
    AllNames(todo);
    AllNames(todo[1..]);
    hide AppliedInTurn, Names;
  }

  lemma InNames<W>(todo: seq<Migration<W>>)
    requires todo != []
    ensures forall n :: n in Names(todo) <==> n == todo[0].name || n in Names(todo[1..])
  {
    NamesOfTail(todo);
    hide Names;
  }

  lemma AllNames<W>(todo: seq<Migration<W>>)
    ensures Names(todo)[..|todo|] == Names(todo)
  {}

  lemma LeftByNone<W>(d: Disk<W>, ran: Ran<W>)
    requires ran.disk == d && ran.events == []
    ensures LeftBy(d, [], ran)
  {
    var none: seq<Migration<W>> := [];
    assert Names(none) == [] && d.applied + [] == d.applied;
  }

  lemma {:induction false} FinishedLeaves<W>(d: Disk<W>, todo: seq<Migration<W>>, fates: seq<Fate<W>>)
    requires |fates| == |todo| && Run(d, todo, fates).outcome == Finished
    ensures LeftBy(d, todo, Run(d, todo, fates))
    decreases |todo|
  {
    if todo == [] {
      LeftByNone(d, Run(d, todo, fates));
    } else {
      assert !IsBlocked(d, todo[0]);
      Turn(d, todo, fates);
      hide Run, LeftBy, Completed;
      FinishedLeaves(Completed(d, todo[0]), todo[1..], fates[1..]);
      LeftByMore(d, todo, Run(Completed(d, todo[0]), todo[1..], fates[1..]));
    }
  }

  // ----- the record over a history -----

  lemma StepKeepsApplied<W>(ms: seq<Migration<W>>, d: Disk<W>, op: Op<W>, name: string)
    requires Distinct(Names(ms)) && name in d.applied
    ensures var ran := Step(ms, d, op);
      && name in ran.disk.applied && (name in d.faked ==> name in ran.disk.faked)
      && forall e :: e in ran.events ==> e.name != name
  {
    if op.Migrate? && |op.fates| == |Pending(ms, d.applied)| {
      RunKeepsApplied(d, Pending(ms, d.applied), op.fates);
      StartedWerePending(ms, d, op.fates, name);
      RunKeepsFaked(d, Pending(ms, d.applied), op.fates);
    }
  }

  lemma {:induction false} RunKeepsFaked<W>(d: Disk<W>, todo: seq<Migration<W>>, fates: seq<Fate<W>>)
    requires |fates| == |todo|
    ensures Run(d, todo, fates).disk.faked == d.faked
    decreases |todo|
  {
    if todo != [] && fates[0] == Completes {
      RunKeepsFaked(Completed(d, todo[0]), todo[1..], fates[1..]);
    }
  }

  /** An applied migration stays applied and never starts again, whatever is run, faked or unmarked. */
  lemma {:induction false} AppliedForGood<W>(ms: seq<Migration<W>>, d: Disk<W>, ops: seq<Op<W>>, name: string)
    requires Distinct(Names(ms)) && name in d.applied
    ensures var ran := History(ms, d, ops);
      && name in ran.disk.applied && (name in d.faked ==> name in ran.disk.faked)
      && forall e :: e in ran.events ==> e.name != name
    decreases |ops|
  {
    if ops != [] {
      StepKeepsApplied(ms, d, ops[0], name);
      AppliedForGood(ms, Step(ms, d, ops[0]).disk, ops[1..], name);
    }
  }

  /** A fake is refused exactly when the name is not discovered or already applied. A refused one changes nothing; an
      accepted one is recorded as applied and as faked, touches neither the world nor a marker, and from then on the
      migration never starts. */
  lemma FakeSticks<W>(ms: seq<Migration<W>>, d: Disk<W>, name: string, ops: seq<Op<W>>)
    requires Distinct(Names(ms))
    ensures var refused := name in d.applied || forall m :: m in ms ==> m.name != name;
      var after := Step(ms, d, Fake(name)).disk;
      && (refused ==> after == d)
      && (!refused ==>
          && after.world == d.world && after.markers == d.markers
          && after.applied == d.applied + [name] && after.faked == d.faked + [name]
          && name in History(ms, after, ops).disk.faked
          && forall e :: e in History(ms, after, ops).events ==> e.name != name)
  {
    if m :| m in ms && m.name == name {
      var i :| 0 <= i < |ms| && ms[i] == m;
      assert Names(ms)[i] == name;
    }
    if name in Names(ms) {
      var i :| 0 <= i < |Names(ms)| && Names(ms)[i] == name;
      assert ms[i] in ms;
    }
    var after := Step(ms, d, Fake(name)).disk;
    if name in after.applied { AppliedForGood(ms, after, ops, name); }
  }
}
