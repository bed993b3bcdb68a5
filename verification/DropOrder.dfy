/** Which end of an outage a buffer lost, judged from the lines the store holds
    (tests/e2e/loadgen_driver.py:270-293, tests/e2e/chaos_logs.py:715-734). */
module DropOrder {
  import opened Wrappers
  import opened Burst

  datatype Verdict = Verdict(firstKept: Option<nat>, missingAfterFirstKept: seq<nat>, recentKept: nat)
  {
    predicate OldestDropped() { firstKept.Some? && missingAfterFirstKept == [] }
    predicate NewestKept() { recentKept > 0 }
  }

  function FirstKept(kept: set<nat>, window: Range): Option<nat>
    decreases window.hi - window.lo
  {
    if window.lo >= window.hi then None
    else if window.lo in kept then Some(window.lo)
    else FirstKept(kept, Range(window.lo + 1, window.hi))
  }

  function Missing(kept: set<nat>, window: Range): seq<nat>
    decreases window.hi - window.lo
  {
    if window.lo >= window.hi then []
    else (if window.lo in kept then [] else [window.lo]) + Missing(kept, Range(window.lo + 1, window.hi))
  }

  function KeptCount(kept: set<nat>, window: Range): nat
    decreases window.hi - window.lo
  {
    if window.lo >= window.hi then 0
    else (if window.lo in kept then 1 else 0) + KeptCount(kept, Range(window.lo + 1, window.hi))
  }

  function Judge(kept: set<nat>, sent: nat, outage: Range, recent: Range): Verdict
  {
    var first := FirstKept(kept, outage);
    Verdict(first, if first.None? then [] else Missing(kept, Range(first.value, sent)), KeptCount(kept, recent))
  }

  // ----- what the verdict says -----

  lemma {:induction false} FirstKeptIsFirst(kept: set<nat>, window: Range)
    ensures var f := FirstKept(kept, window);
      if f.Some? then window.Has(f.value) && f.value in kept && forall i :: window.lo <= i < f.value ==> i !in kept
      else forall i :: window.Has(i) ==> i !in kept
    decreases window.hi - window.lo
  {
    if window.lo < window.hi && window.lo !in kept {
      var tail := Range(window.lo + 1, window.hi);
      FirstKeptIsFirst(kept, tail);
      assert forall i :: window.Has(i) ==> i == window.lo || tail.Has(i);
    }
  }

  lemma {:induction false} MissingIsAbsent(kept: set<nat>, window: Range)
    ensures forall i :: i in Missing(kept, window) <==> window.Has(i) && i !in kept
    decreases window.hi - window.lo
  {
    if window.lo < window.hi {
      var tail := Range(window.lo + 1, window.hi);
      MissingIsAbsent(kept, tail);
      assert forall i :: window.Has(i) <==> i == window.lo || tail.Has(i);
    }
  }

  lemma {:induction false} KeptCountPositive(kept: set<nat>, window: Range)
    ensures KeptCount(kept, window) > 0 <==> exists i :: window.Has(i) && i in kept
    decreases window.hi - window.lo
  {
    if window.lo < window.hi {
      var tail := Range(window.lo + 1, window.hi);
      KeptCountPositive(kept, tail);
      assert forall i :: window.Has(i) <==> i == window.lo || tail.Has(i);
    }
  }

  /** The verdict's parts are what they are called: the oldest kept line of the outage, the lines missing from there to
      the end in order, and the number of recent lines kept. */
  lemma VerdictIs(kept: set<nat>, sent: nat, outage: Range, recent: Range)
    ensures var v := Judge(kept, sent, outage, recent);
      && (forall f: nat :: v.firstKept == Some(f) <==>
           outage.Has(f) && f in kept && forall i :: outage.lo <= i < f ==> i !in kept)
      && (v.firstKept.Some? ==>
           && (forall i :: i in v.missingAfterFirstKept <==> v.firstKept.value <= i < sent && i !in kept)
           && (forall i, j :: 0 <= i < j < |v.missingAfterFirstKept| ==>
                v.missingAfterFirstKept[i] < v.missingAfterFirstKept[j]))
      && v.recentKept == |set i | i in kept && recent.Has(i)|
  {
    FirstKeptIsFirst(kept, outage);
    KeptCountIs(kept, recent);
    var first := FirstKept(kept, outage);
    if first.Some? {
      MissingIsAbsent(kept, Range(first.value, sent));
      MissingAscends(kept, Range(first.value, sent));
    }
  }

  lemma {:induction false} KeptCountIs(kept: set<nat>, window: Range)
    ensures KeptCount(kept, window) == |set i | i in kept && window.Has(i)|
    decreases window.hi - window.lo
  {
    var all := set i | i in kept && window.Has(i);
    if window.lo >= window.hi {
      assert all == {};
    } else {
      var tail := Range(window.lo + 1, window.hi);
      KeptCountIs(kept, tail);
      var rest := set i | i in kept && tail.Has(i);
      assert all == rest + if window.lo in kept then {window.lo} else {};
    }
  }

  lemma {:induction false} MissingAscends(kept: set<nat>, window: Range)
    ensures forall i, j :: 0 <= i < j < |Missing(kept, window)| ==> Missing(kept, window)[i] < Missing(kept, window)[j]
    decreases window.hi - window.lo
  {
    if window.lo < window.hi {
      var tail := Range(window.lo + 1, window.hi);
      MissingAscends(kept, tail);
      MissingIsAbsent(kept, tail);
      var rest := Missing(kept, tail);
      assert forall i :: 0 <= i < |rest| ==> rest[i] in rest;
    }
  }

  /** Of the lines in `window`, exactly those from `f` on are kept. */
  ghost predicate KeptFrom(kept: set<nat>, window: Range, f: nat)
  {
    forall i :: window.Has(i) ==> (i in kept <==> f <= i)
  }

  /** `oldest_dropped`: the stored lines of the outage are a final segment of it, and not empty. */
  lemma OldestDroppedIff(kept: set<nat>, outage: Range, recent: Range)
    ensures Judge(kept, outage.hi, outage, recent).OldestDropped()
      <==> exists f :: outage.Has(f) && KeptFrom(kept, outage, f)
  {
    FirstKeptIsFirst(kept, outage);
    var first := FirstKept(kept, outage);
    if first.Some? {
      MissingIsAbsent(kept, Range(first.value, outage.hi));
      var missing := Missing(kept, Range(first.value, outage.hi));
      if missing == [] {
        forall i | outage.Has(i) ensures i in kept <==> first.value <= i {
          assert i !in missing;
        }
        assert KeptFrom(kept, outage, first.value);
      } else {
        assert missing[0] in missing;
        assert Range(first.value, outage.hi).Has(missing[0]);
      }
    }
  }

  lemma NewestKeptIff(kept: set<nat>, sent: nat, outage: Range, recent: Range)
    ensures Judge(kept, sent, outage, recent).NewestKept() <==> exists i :: recent.Has(i) && i in kept
  {
    KeptCountPositive(kept, recent);
  }

  // ----- the buffers the verdict tells apart -----

  datatype Policy = DropOldest | RefuseNewest

  datatype Event = Logged | Pushed(batch: nat)

  /** `next` numbers the lines logged; `held` waits to be pushed, oldest first. */
  datatype Buffer = Buffer(held: seq<nat>, next: nat, stored: set<nat>)
  {
    /** What the store holds once the buffer is flushed. */
    function Kept(): set<nat> { stored + set i | i in held }

    predicate Valid(policy: Policy, room: nat)
    {
      && |held| <= room
      && (forall i :: i in Kept() ==> i < next)
      && (policy.DropOldest? ==>
        && |held| <= next
        && (forall k :: 0 <= k < |held| ==> held[k] == next - |held| + k)
        && (forall i :: i in stored ==> i < next - |held|))
    }
  }

  function Step(policy: Policy, room: nat, b: Buffer, e: Event): Buffer
    requires room > 0 && b.Valid(policy, room)
  {
    match e
    case Logged =>
      if |b.held| < room then b.(held := b.held + [b.next], next := b.next + 1)
      else if policy.DropOldest? then b.(held := b.held[1..] + [b.next], next := b.next + 1)
      else b.(next := b.next + 1)
    case Pushed(batch) =>
      var n := if batch < |b.held| then batch else |b.held|;
      b.(held := b.held[n..], stored := b.stored + set i | i in b.held[..n])
  }

  lemma PushKeeps(policy: Policy, room: nat, b: Buffer, batch: nat)
    requires room > 0 && b.Valid(policy, room)
    ensures var r := Step(policy, room, b, Pushed(batch));
      r.Valid(policy, room) && r.Kept() == b.Kept() && r.next == b.next
  {
    var n := if batch < |b.held| then batch else |b.held|;
    var r := Step(policy, room, b, Pushed(batch));
    assert b.held == b.held[..n] + b.held[n..];
    forall i ensures i in r.Kept() <==> i in b.Kept() {
      assert i in b.held <==> i in b.held[..n] || i in b.held[n..];
    }
  }

  lemma LogWithRoom(policy: Policy, room: nat, b: Buffer)
    requires room > 0 && b.Valid(policy, room) && |b.held| < room
    ensures var r := Step(policy, room, b, Logged);
      r.Valid(policy, room) && r.Kept() == b.Kept() + {b.next} && r.next == b.next + 1
  {
    var r := Step(policy, room, b, Logged);
    forall i ensures i in r.Kept() <==> i in b.Kept() || i == b.next {
      assert i in r.held <==> i in b.held || i == b.next;
    }
  }

  lemma LogWhenFull(policy: Policy, room: nat, b: Buffer)
    requires room > 0 && b.Valid(policy, room) && |b.held| == room
    ensures var r := Step(policy, room, b, Logged); r.Valid(policy, room) && r.next == b.next + 1
    ensures policy.RefuseNewest? ==> Step(policy, room, b, Logged).Kept() == b.Kept()
  {
    var r := Step(policy, room, b, Logged);
    forall i | i in r.Kept() ensures i < r.next {
      if i !in b.Kept() { assert i == b.next; }
    }
  }

  lemma StepIsValid(policy: Policy, room: nat, b: Buffer, e: Event)
    requires room > 0 && b.Valid(policy, room)
    ensures Step(policy, room, b, e).Valid(policy, room)
    ensures e.Pushed? ==> Step(policy, room, b, e).Kept() == b.Kept()
    ensures e.Logged? && |b.held| < room ==> Step(policy, room, b, e).Kept() == b.Kept() + {b.next}
    ensures e.Logged? && |b.held| == room && policy.RefuseNewest? ==> Step(policy, room, b, e).Kept() == b.Kept()
  {
    if e.Pushed? {
      PushKeeps(policy, room, b, e.batch);
    } else if |b.held| < room {
      LogWithRoom(policy, room, b);
    } else {
      LogWhenFull(policy, room, b);
    }
  }

  function Run(policy: Policy, room: nat, b: Buffer, events: seq<Event>): (r: Buffer)
    requires room > 0 && b.Valid(policy, room)
    ensures r.Valid(policy, room)
  {
    if events == [] then b
    else
      var before := Run(policy, room, b, events[..|events| - 1]);
      StepIsValid(policy, room, before, events[|events| - 1]);
      Step(policy, room, before, events[|events| - 1])
  }

  /** No line is lost: each finds room. */
  predicate Roomy(policy: Policy, room: nat, b: Buffer, events: seq<Event>)
    requires room > 0 && b.Valid(policy, room)
  {
    events == [] ||
    var init := events[..|events| - 1];
    Roomy(policy, room, b, init) && (events[|events| - 1].Logged? ==> |Run(policy, room, b, init).held| < room)
  }

  /** While the fault holds nothing is pushed. */
  predicate Held(events: seq<Event>) { forall i :: 0 <= i < |events| ==> events[i].Logged? }

  // ----- the fault -----

  /** A drop-oldest buffer still holds the newest lines, whatever it held before. */
  lemma {:induction false} DropOldestHolds(room: nat, b: Buffer, events: seq<Event>)
    requires room > 0 && b.Valid(DropOldest, room) && Held(events)
    ensures var r := Run(DropOldest, room, b, events);
      && r.next == b.next + |events| && r.stored == b.stored
      && |r.held| == if |b.held| + |events| < room then |b.held| + |events| else room
  {
    if events != [] {
      DropOldestHolds(room, b, events[..|events| - 1]);
    }
  }

  /** A refuse-newest buffer keeps the first lines of the fault, as many as it has room for. */
  lemma {:induction false} RefuseNewestKeeps(room: nat, b: Buffer, events: seq<Event>)
    requires room > 0 && b.Valid(RefuseNewest, room) && Held(events)
    ensures var r := Run(RefuseNewest, room, b, events);
      && r.next == b.next + |events|
      && |r.held| == (if |b.held| + |events| < room then |b.held| + |events| else room)
      && forall i :: b.next <= i < r.next ==> (i in r.Kept() <==> i < b.next + room - |b.held|)
  {
    if events != [] {
      var init := events[..|events| - 1];
      RefuseNewestKeeps(room, b, init);
      StepIsValid(RefuseNewest, room, Run(RefuseNewest, room, b, init), Logged);
    }
  }

  // ----- after the fault -----

  /** What is kept never changes for a line already logged, unless the buffer drops it. */
  lemma {:induction false} LaterEventsKeep(policy: Policy, room: nat, b: Buffer, events: seq<Event>)
    requires room > 0 && b.Valid(policy, room)
    requires policy.RefuseNewest? || Roomy(policy, room, b, events)
    ensures var r := Run(policy, room, b, events);
      && b.next <= r.next
      && (forall i :: i < b.next ==> (i in r.Kept() <==> i in b.Kept()))
      && (Roomy(policy, room, b, events) ==> forall i :: b.next <= i < r.next ==> i in r.Kept())
  {
    if events != [] {
      var init, e := events[..|events| - 1], events[|events| - 1];
      LaterEventsKeep(policy, room, b, init);
      StepIsValid(policy, room, Run(policy, room, b, init), e);
    }
  }

  // ----- losses in the middle -----

  /** The line a full buffer loses when the next one is logged. */
  function Loses(policy: Policy, b: Buffer): nat
    requires b.held != []
  {
    if policy.DropOldest? then b.held[0] else b.next
  }

  /** Logging now loses a line of the window although an older one of it is kept. */
  ghost predicate LateLoss(policy: Policy, room: nat, b: Buffer, e: Event, lo: nat)
    requires room > 0 && b.Valid(policy, room)
  {
    e.Logged? && |b.held| == room && exists i :: lo <= i < Loses(policy, b) && i in b.Kept()
  }

  /** Whatever the window loses over the run, it loses before it keeps anything. */
  ghost predicate NoLateLoss(policy: Policy, room: nat, b: Buffer, events: seq<Event>, lo: nat)
    requires room > 0 && b.Valid(policy, room)
  {
    events == [] ||
    var init := events[..|events| - 1];
    NoLateLoss(policy, room, b, init, lo)
      && !LateLoss(policy, room, Run(policy, room, b, init), events[|events| - 1], lo)
  }

  /** No line of the window is lost after a kept one. */
  ghost predicate Upward(b: Buffer, lo: nat)
  {
    forall i, j :: lo <= i < j < b.next && i in b.Kept() ==> j in b.Kept()
  }

  lemma StepUpward(policy: Policy, room: nat, b: Buffer, e: Event, lo: nat)
    requires room > 0 && b.Valid(policy, room)
    ensures Upward(Step(policy, room, b, e), lo) <==> Upward(b, lo) && !LateLoss(policy, room, b, e, lo)
  {
    if e.Pushed? {
      PushKeeps(policy, room, b, e.batch);
    } else if |b.held| < room {
      LogWithRoom(policy, room, b);
    } else if policy.RefuseNewest? {
      LogWhenFull(policy, room, b);
      RefusalUpward(room, b, lo);
    } else {
      DropUpward(room, b, lo);
    }
  }

  lemma RefusalUpward(room: nat, b: Buffer, lo: nat)
    requires room > 0 && b.Valid(RefuseNewest, room) && |b.held| == room
    ensures Upward(Step(RefuseNewest, room, b, Logged), lo)
      <==> Upward(b, lo) && !LateLoss(RefuseNewest, room, b, Logged, lo)
  {
    LogWhenFull(RefuseNewest, room, b);
    var r := Step(RefuseNewest, room, b, Logged);
    hide Buffer.Kept;
    assert b.next !in b.Kept();
    if i :| lo <= i < b.next && i in b.Kept() {
      assert i in r.Kept() && b.next !in r.Kept();
    }
  }

  lemma DropKeeps(room: nat, b: Buffer, i: nat)
    requires room > 0 && b.Valid(DropOldest, room) && |b.held| == room
    ensures i in Step(DropOldest, room, b, Logged).Kept() <==> i == b.next || (i in b.Kept() && i != b.held[0])
    ensures b.held[0] < b.next && (i < b.next && i !in b.Kept() ==> i < b.held[0])
  {
    var r := Step(DropOldest, room, b, Logged);
    LogWhenFull(DropOldest, room, b);
    HeldInterval(b, room, i);
    HeldInterval(r, room, i);
  }

  lemma DropUpward(room: nat, b: Buffer, lo: nat)
    requires room > 0 && b.Valid(DropOldest, room) && |b.held| == room
    ensures Upward(Step(DropOldest, room, b, Logged), lo)
      <==> Upward(b, lo) && !LateLoss(DropOldest, room, b, Logged, lo)
  {
    var r := Step(DropOldest, room, b, Logged);
    forall i: nat ensures i in r.Kept() <==> i == b.next || (i in b.Kept() && i != b.held[0]) { DropKeeps(room, b, i); }
    forall i: nat | i < b.next && i !in b.Kept() ensures i < b.held[0] < b.next { DropKeeps(room, b, i); }
    assert b.held[0] < b.next by { DropKeeps(room, b, 0); }
    hide Buffer.Kept;
    if Upward(r, lo) {
      forall i, j | lo <= i < j < b.next && i in b.Kept() ensures j in b.Kept() {
        assert j !in b.Kept() ==> i in r.Kept() && j !in r.Kept();
      }
      forall i | lo <= i < b.held[0] ensures i !in b.Kept() {
        assert b.held[0] !in r.Kept() && (i in b.Kept() ==> i in r.Kept());
      }
    }
  }

  lemma {:induction false} RunUpward(policy: Policy, room: nat, b: Buffer, events: seq<Event>, lo: nat)
    requires room > 0 && b.Valid(policy, room)
    ensures Upward(Run(policy, room, b, events), lo) <==> Upward(b, lo) && NoLateLoss(policy, room, b, events, lo)
  {
    hide Upward, LateLoss, Step;
    if events != [] {
      var init, e := events[..|events| - 1], events[|events| - 1];
      RunUpward(policy, room, b, init, lo);
      StepUpward(policy, room, Run(policy, room, b, init), e, lo);
    }
  }

  ghost predicate KeepsAny(b: Buffer, lo: nat) { exists i :: lo <= i < b.next && i in b.Kept() }

  /** Under either policy, from any buffer the fault finds before the window opens, over any run of logging and
      pushing: `oldest_dropped` holds exactly when something of the window is kept and nothing of it is lost late. */
  lemma OldestDroppedIffNoLateLoss(policy: Policy, room: nat, b: Buffer, events: seq<Event>, lo: nat, recent: Range)
    requires room > 0 && b.Valid(policy, room) && Upward(b, lo)
    ensures var end := Run(policy, room, b, events);
      Judge(end.Kept(), end.next, Range(lo, end.next), recent).OldestDropped()
      <==> KeepsAny(end, lo) && NoLateLoss(policy, room, b, events, lo)
  {
    var end := Run(policy, room, b, events);
    RunUpward(policy, room, b, events, lo);
    hide NoLateLoss, Run, Judge, Buffer.Kept;
    UpwardIsFinal(end, lo);
    OldestDroppedIff(end.Kept(), Range(lo, end.next), recent);
  }

  lemma UpwardIsFinal(b: Buffer, lo: nat)
    ensures (exists f :: Range(lo, b.next).Has(f) && KeptFrom(b.Kept(), Range(lo, b.next), f))
      <==> KeepsAny(b, lo) && Upward(b, lo)
  {
    var kept, window := b.Kept(), Range(lo, b.next);
    hide Buffer.Kept;
    if f :| window.Has(f) && KeptFrom(kept, window, f) {
      assert f in kept;
      forall i, j | lo <= i < j < b.next && i in kept ensures j in kept {
        assert window.Has(i) && window.Has(j);
      }
    }
    if KeepsAny(b, lo) && Upward(b, lo) {
      FirstKeptIsFirst(kept, window);
      var first := FirstKept(kept, window);
      assert first.Some? by {
        var i :| lo <= i < b.next && i in kept;
        assert window.Has(i);
      }
      assert KeptFrom(kept, window, first.value);
    }
  }

  lemma StepKeepsNewest(room: nat, b: Buffer, e: Event)
    requires room > 0 && b.Valid(DropOldest, room)
    ensures var r := Step(DropOldest, room, b, e);
      if e.Logged? then r.next == b.next + 1 && b.next in r.Kept() else r.next == b.next && r.Kept() == b.Kept()
  {
    if e.Pushed? {
      PushKeeps(DropOldest, room, b, e.batch);
    } else if |b.held| < room {
      LogWithRoom(DropOldest, room, b);
    } else {
      DropKeeps(room, b, b.next);
    }
  }

  /** The newest line logged is still there. */
  lemma {:induction false} NewestIsKept(room: nat, b: Buffer, events: seq<Event>, lo: nat)
    requires room > 0 && b.Valid(DropOldest, room) && (lo < b.next ==> b.next - 1 in b.Kept())
    ensures var end := Run(DropOldest, room, b, events);
      b.next <= end.next && (lo < end.next ==> end.next - 1 in end.Kept())
  {
    hide Step, Buffer.Valid, Buffer.Kept;
    if events != [] {
      var init, e := events[..|events| - 1], events[|events| - 1];
      NewestIsKept(room, b, init, lo);
      StepKeepsNewest(room, Run(DropOldest, room, b, init), e);
    }
  }

  // ----- the two verdicts -----

  /** The fault begins with `b`, holds over `during` and is over for `after`. */
  function Outcome(policy: Policy, room: nat, b: Buffer, during: seq<Event>, after: seq<Event>): Buffer
    requires room > 0 && b.Valid(policy, room)
  {
    Run(policy, room, Run(policy, room, b, during), after)
  }

  lemma DropOldestAtReturn(room: nat, b: Buffer, during: seq<Event>, lo: nat)
    requires room > 0 && b.Valid(DropOldest, room) && Held(during) && b.next <= lo
    ensures var mid := Run(DropOldest, room, b, during);
      && Upward(mid, lo) && (lo < mid.next ==> mid.next - 1 in mid.Kept())
      && forall i :: lo <= i ==> (i in mid.Kept() <==> i in mid.held)
  {
    var mid := Run(DropOldest, room, b, during);
    DropOldestHolds(room, b, during);
    forall i: nat ensures i in mid.held <==> mid.next - |mid.held| <= i < mid.next { HeldInterval(mid, room, i); }
    assert forall i :: i in b.stored ==> i in b.Kept() && i < lo;
    if lo < mid.next { assert mid.next - 1 in mid.held; }
  }

  /** A buffer that drops its oldest passes `oldest_dropped` exactly when, once the fault is over, it no longer
      overflows past a line of the window it has already pushed. */
  lemma DropOldestIsAcceptedIff(room: nat, b: Buffer, during: seq<Event>, after: seq<Event>, lo: nat, recent: Range)
    requires room > 0 && b.Valid(DropOldest, room) && Held(during) && b.next <= lo
    ensures var mid := Run(DropOldest, room, b, during);
      var end := Outcome(DropOldest, room, b, during, after);
      Judge(end.Kept(), end.next, Range(lo, end.next), recent).OldestDropped()
      <==> lo < end.next && NoLateLoss(DropOldest, room, mid, after, lo)
  {
    var mid := Run(DropOldest, room, b, during);
    DropOldestAtReturn(room, b, during, lo);
    hide Judge, Run, NoLateLoss, Upward;
    OldestDroppedIffNoLateLoss(DropOldest, room, mid, after, lo, recent);
    NewestIsKept(room, mid, after, lo);
  }

  /** No overflow of the run takes line `r`. */
  ghost predicate Spared(room: nat, b: Buffer, events: seq<Event>, r: nat)
    requires room > 0 && b.Valid(DropOldest, room)
  {
    events == [] ||
    var init := events[..|events| - 1];
    var before := Run(DropOldest, room, b, init);
    Spared(room, b, init, r) && !(events[|events| - 1].Logged? && |before.held| == room && before.held[0] == r)
  }

  lemma {:induction false} SparedIsKept(room: nat, b: Buffer, events: seq<Event>, r: nat)
    requires room > 0 && b.Valid(DropOldest, room) && r < b.next
    ensures var end := Run(DropOldest, room, b, events);
      r < end.next && (r in end.Kept() <==> r in b.Kept() && Spared(room, b, events, r))
  {
    if events != [] {
      var init, e := events[..|events| - 1], events[|events| - 1];
      SparedIsKept(room, b, init, r);
      var before := Run(DropOldest, room, b, init);
      StepIsValid(DropOldest, room, before, e);
      if e.Logged? && |before.held| == room {
        DropKeeps(room, before, r);
        HeadIsKept(room, before);
      }
    }
  }

  lemma HeadIsKept(room: nat, b: Buffer)
    requires room > 0 && b.held != []
    ensures b.held[0] in b.Kept()
  {
    assert b.held[0] in b.held;
  }

  lemma {:induction false} RoomySpares(room: nat, b: Buffer, events: seq<Event>, r: nat)
    requires room > 0 && b.Valid(DropOldest, room) && Roomy(DropOldest, room, b, events)
    ensures Spared(room, b, events, r)
  {
    if events != [] { RoomySpares(room, b, events[..|events| - 1], r); }
  }

  lemma {:induction false} RoomyLosesNothing(policy: Policy, room: nat, b: Buffer, events: seq<Event>, lo: nat)
    requires room > 0 && b.Valid(policy, room) && Roomy(policy, room, b, events)
    ensures NoLateLoss(policy, room, b, events, lo)
  {
    if events != [] { RoomyLosesNothing(policy, room, b, events[..|events| - 1], lo); }
  }

  /** It passes `newest_kept` exactly when a recent line was still held when the service came back, and was spared. */
  lemma DropOldestKeepsNewestIff(room: nat, b: Buffer, during: seq<Event>, after: seq<Event>, outage: Range,
      recent: Range)
    requires room > 0 && b.Valid(DropOldest, room) && Held(during)
    requires b.next <= recent.lo && recent.hi <= b.next + |during|
    ensures var mid := Run(DropOldest, room, b, during);
      var end := Outcome(DropOldest, room, b, during, after);
      Judge(end.Kept(), end.next, outage, recent).NewestKept()
      <==> exists r :: recent.Has(r) && mid.next - |mid.held| <= r && Spared(room, mid, after, r)
  {
    var mid := Run(DropOldest, room, b, during);
    var end := Run(DropOldest, room, mid, after);
    DropOldestHolds(room, b, during);
    DropOldestAtReturn(room, b, during, recent.lo);
    NewestKeptIff(end.Kept(), end.next, outage, recent);
    forall r | recent.Has(r) ensures r in end.Kept() <==> mid.next - |mid.held| <= r && Spared(room, mid, after, r) {
      SparedIsKept(room, mid, after, r);
      HeldInterval(mid, room, r);
    }
  }

  /** Without overflow once the fault is over, the verdict depends on the room alone. */
  lemma DropOldestIsAccepted(room: nat, b: Buffer, during: seq<Event>, after: seq<Event>, lo: nat, recent: Range)
    requires room > 0 && b.Valid(DropOldest, room) && Held(during) && b.next <= lo
    requires Roomy(DropOldest, room, Run(DropOldest, room, b, during), after)
    ensures var end := Outcome(DropOldest, room, b, during, after);
      var verdict := Judge(end.Kept(), end.next, Range(lo, end.next), recent);
      && (verdict.OldestDropped() <==> lo < end.next)
      && (lo <= recent.lo && recent.hi <= b.next + |during| ==>
          (verdict.NewestKept() <==> recent.lo < recent.hi && recent.hi > b.next + |during| - room))
  {
    var mid := Run(DropOldest, room, b, during);
    var end := Run(DropOldest, room, mid, after);
    DropOldestHolds(room, b, during);
    RoomyLosesNothing(DropOldest, room, mid, after, lo);
    DropOldestIsAcceptedIff(room, b, during, after, lo, recent);
    if lo <= recent.lo && recent.hi <= b.next + |during| {
      DropOldestKeepsNewestIff(room, b, during, after, Range(lo, end.next), recent);
      forall r | recent.Has(r) ensures Spared(room, mid, after, r) { RoomySpares(room, mid, after, r); }
      hide Run, Judge, Roomy, Spared, Held;
      if recent.lo < recent.hi && recent.hi > b.next + |during| - room {
        assert recent.Has(recent.hi - 1);
      }
    }
  }

  lemma HeldInterval(b: Buffer, room: nat, i: nat)
    requires b.Valid(DropOldest, room)
    ensures i in b.held <==> b.next - |b.held| <= i < b.next
  {
    if b.next - |b.held| <= i < b.next {
      assert b.held[i - (b.next - |b.held|)] == i;
    }
  }

  /** A buffer that refuses its newest passes the whole verdict only if it lost nothing of the outage. */
  lemma RefuseNewestIsRejected(room: nat, b: Buffer, during: seq<Event>, after: seq<Event>, lo: nat, recent: Range)
    requires room > 0 && b.Valid(RefuseNewest, room) && Held(during)
    requires b.next <= lo <= recent.lo && recent.hi <= b.next + |during|
    ensures var end := Outcome(RefuseNewest, room, b, during, after);
      var verdict := Judge(end.Kept(), end.next, Range(lo, end.next), recent);
      verdict.OldestDropped() && verdict.NewestKept()
      <==> recent.lo < recent.hi && forall i :: lo <= i < end.next ==> i in end.Kept()
  {
    var mid := Run(RefuseNewest, room, b, during);
    var end := Run(RefuseNewest, room, mid, after);
    RefuseNewestKeeps(room, b, during);
    LaterEventsKeep(RefuseNewest, room, mid, after);
    var outage := Range(lo, end.next);
    OldestDroppedIff(end.Kept(), outage, recent);
    NewestKeptIff(end.Kept(), end.next, outage, recent);
    var verdict := Judge(end.Kept(), end.next, outage, recent);
    if verdict.OldestDropped() && verdict.NewestKept() {
      var r :| recent.Has(r) && r in end.Kept();
      assert outage.Has(lo) && lo in end.Kept();
    }
    if recent.lo < recent.hi && forall i :: lo <= i < end.next ==> i in end.Kept() {
      assert outage.Has(lo) && KeptFrom(end.Kept(), outage, lo);
      assert recent.Has(recent.lo);
    }
  }

  /** A buffer that refuses new lines and overflowed during the fault passes `oldest_dropped` exactly when the window
      opened after its first refusal, something was kept later, and nothing refused after that. */
  lemma RefuseNewestHalfIff(room: nat, b: Buffer, during: seq<Event>, after: seq<Event>, lo: nat, recent: Range)
    requires room > 0 && b.Valid(RefuseNewest, room) && Held(during)
    requires |b.held| + |during| > room && b.next <= lo < b.next + |during|
    ensures var mid := Run(RefuseNewest, room, b, during);
      var end := Outcome(RefuseNewest, room, b, during, after);
      Judge(end.Kept(), end.next, Range(lo, end.next), recent).OldestDropped()
      <==> b.next + room - |b.held| <= lo && KeepsAny(end, lo) && NoLateLoss(RefuseNewest, room, mid, after, lo)
  {
    var mid := Run(RefuseNewest, room, b, during);
    var end := Run(RefuseNewest, room, mid, after);
    RefuseNewestKeeps(room, b, during);
    if b.next + room - |b.held| <= lo {
      assert Upward(mid, lo);
      OldestDroppedIffNoLateLoss(RefuseNewest, room, mid, after, lo, recent);
    } else {
      LaterEventsKeep(RefuseNewest, room, mid, after);
      var window, refused := Range(lo, end.next), b.next + |during| - 1;
      OldestDroppedIff(end.Kept(), window, recent);
      hide Run, Judge, Buffer.Kept, NoLateLoss;
      assert window.Has(lo) && lo in end.Kept() && window.Has(refused) && refused !in end.Kept();
    }
  }

  /** So it is rejected whenever the window holds a line stored before the first refused one; and when it has room
      again after the fault, it is accepted otherwise. */
  lemma RefuseNewestHalf(room: nat, b: Buffer, during: seq<Event>, after: seq<Event>, lo: nat, recent: Range)
    requires room > 0 && b.Valid(RefuseNewest, room) && Held(during)
    requires |b.held| + |during| > room && b.next <= lo < b.next + |during|
    ensures var mid := Run(RefuseNewest, room, b, during);
      var end := Outcome(RefuseNewest, room, b, during, after);
      var dropped := Judge(end.Kept(), end.next, Range(lo, end.next), recent).OldestDropped();
      && (dropped ==> b.next + room - |b.held| <= lo)
      && (Roomy(RefuseNewest, room, mid, after) && (exists e :: e in after && e.Logged?) ==>
          (dropped <==> b.next + room - |b.held| <= lo))
  {
    var mid := Run(RefuseNewest, room, b, during);
    var end := Run(RefuseNewest, room, mid, after);
    RefuseNewestHalfIff(room, b, during, after, lo, recent);
    RefuseNewestKeeps(room, b, during);
    if Roomy(RefuseNewest, room, mid, after) && exists e :: e in after && e.Logged? {
      LaterEventsKeep(RefuseNewest, room, mid, after);
      LoggingAdvances(RefuseNewest, room, mid, after);
      RoomyLosesNothing(RefuseNewest, room, mid, after, lo);
      hide Run, Judge, Buffer.Kept, Roomy;
      assert lo <= mid.next < end.next && mid.next in end.Kept();
    }
  }

  lemma {:induction false} LoggingAdvances(policy: Policy, room: nat, b: Buffer, events: seq<Event>)
    requires room > 0 && b.Valid(policy, room)
    ensures b.next <= Run(policy, room, b, events).next
    ensures (exists e :: e in events && e.Logged?) ==> b.next < Run(policy, room, b, events).next
  {
    hide Buffer.Valid;
    if events != [] {
      var init, e := events[..|events| - 1], events[|events| - 1];
      LoggingAdvances(policy, room, b, init);
      assert forall x :: x in events <==> x in init || x == e;
    }
  }

  lemma RunAppends(policy: Policy, room: nat, b: Buffer, events: seq<Event>, e: Event)
    requires room > 0 && b.Valid(policy, room)
    ensures Run(policy, room, b, []) == b
    ensures Run(policy, room, b, events + [e]) == Step(policy, room, Run(policy, room, b, events), e)
  {
    assert (events + [e])[..|events|] == events;
  }

  lemma LateDropFault()
    ensures Buffer([], 0, {}).Valid(DropOldest, 2)
    ensures Run(DropOldest, 2, Buffer([], 0, {}), [Logged, Logged, Logged]) == Buffer([1, 2], 3, {})
  {
    var b := Buffer([], 0, {});
    RunAppends(DropOldest, 2, b, [], Logged);
    RunAppends(DropOldest, 2, b, [Logged], Logged);
    RunAppends(DropOldest, 2, b, [Logged, Logged], Logged);
    hide Run;
    assert [] + [Logged] == [Logged];
    assert Run(DropOldest, 2, b, [Logged]) == Buffer([0], 1, {});
    assert Run(DropOldest, 2, b, [Logged, Logged]) == Buffer([0, 1], 2, {});
  }

  lemma LateDropPush()
    ensures var mid := Buffer([1, 2], 3, {});
      mid.Valid(DropOldest, 2) && Step(DropOldest, 2, mid, Pushed(1)) == Buffer([2], 3, {1})
  {
    var mid := Buffer([1, 2], 3, {});
    assert mid.held[..1] == [1] && (set i | i in mid.held[..1]) == {1};
  }

  lemma LateDropLogs()
    ensures var one, two := Buffer([2], 3, {1}), Buffer([2, 3], 4, {1});
      && one.Valid(DropOldest, 2) && Step(DropOldest, 2, one, Logged) == two
      && two.Valid(DropOldest, 2) && Step(DropOldest, 2, two, Logged) == Buffer([3, 4], 5, {1})
  {
  }

  lemma LateDropDrain()
    ensures Buffer([1, 2], 3, {}).Valid(DropOldest, 2)
    ensures Run(DropOldest, 2, Buffer([1, 2], 3, {}), [Pushed(1), Logged, Logged]) == Buffer([3, 4], 5, {1})
  {
    LateDropPush();
    LateDropLogs();
    hide Buffer.Valid, Step, Run;
    var mid := Buffer([1, 2], 3, {});
    RunAppends(DropOldest, 2, mid, [], Pushed(1));
    RunAppends(DropOldest, 2, mid, [Pushed(1)], Logged);
    RunAppends(DropOldest, 2, mid, [Pushed(1), Logged], Logged);
    assert [] + [Pushed(1)] == [Pushed(1)] && [Pushed(1)] + [Logged] == [Pushed(1), Logged];
    assert [Pushed(1), Logged] + [Logged] == [Pushed(1), Logged, Logged];
  }

  /** A drop-oldest buffer that overflows again while it drains is rejected: it pushes line 1, then drops line 2. */
  lemma LateDropIsRejected(recent: Range)
    ensures var b := Buffer([], 0, {});
      && b.Valid(DropOldest, 2)
      && var end := Outcome(DropOldest, 2, b, [Logged, Logged, Logged], [Pushed(1), Logged, Logged]);
      end.Kept() == {1, 3, 4} && end.next == 5 && !Judge(end.Kept(), 5, Range(0, 5), recent).OldestDropped()
  {
    LateDropFault();
    LateDropDrain();
    hide Run, Judge;
    var kept: set<nat> := {1, 3, 4};
    assert Buffer([3, 4], 5, {1}).Kept() == kept;
    OldestDroppedIff(kept, Range(0, 5), recent);
    var window := Range(0, 5);
    assert window.Has(1) && window.Has(2) && window.Has(3);
  }

  lemma FullRefuserRun()
    ensures Buffer([0], 1, {}).Valid(RefuseNewest, 1)
    ensures Outcome(RefuseNewest, 1, Buffer([0], 1, {}), [Logged, Logged], [Pushed(1), Logged]) == Buffer([3], 4, {0})
  {
    var b := Buffer([0], 1, {});
    var full := Buffer([0], 3, {});
    assert [Logged, Logged][..1] == [Logged] && [Logged][..0] == [];
    assert Run(RefuseNewest, 1, b, []) == b;
    assert Run(RefuseNewest, 1, b, [Logged]) == Buffer([0], 2, {});
    assert Run(RefuseNewest, 1, b, [Logged, Logged]) == full;
    var after := [Pushed(1), Logged];
    assert after[..1] == [Pushed(1)] && after[..1][..0] == [];
    assert Run(RefuseNewest, 1, full, []) == full;
    assert full.held[..1] == [0] && (set i | i in full.held[..1]) == {0};
    assert Run(RefuseNewest, 1, full, [Pushed(1)]) == Buffer([], 3, {0});
  }

  /** Why both halves are asserted: a refuse-newest buffer already full when the window opens passes
      `oldest_dropped` alone, having lost the newest lines of the outage. */
  lemma FullRefuserPassesHalf()
    ensures var b := Buffer([0], 1, {});
      && b.Valid(RefuseNewest, 1)
      && var end := Outcome(RefuseNewest, 1, b, [Logged, Logged], [Pushed(1), Logged]);
      var verdict := Judge(end.Kept(), end.next, Range(1, end.next), Range(1, 3));
      && end.Kept() == {0, 3} && end.next == 4
      && verdict.OldestDropped() && !verdict.NewestKept()
  {
    FullRefuserRun();
    hide Run, Outcome, Judge;
    var kept: set<nat> := {0, 3};
    assert Buffer([3], 4, {0}).Kept() == kept;
    OldestDroppedIff(kept, Range(1, 4), Range(1, 3));
    var outage := Range(1, 4);
    assert forall i :: outage.Has(i) ==> (i in kept <==> 3 <= i);
    assert outage.Has(3) && KeptFrom(kept, outage, 3);
    NewestKeptIff(kept, 4, Range(1, 4), Range(1, 3));
  }
}
