/** The timing of a burst and the verdict on its stored lines, put together: what the chaos steps conclude from an
    outage (tests/e2e/chaos_logs.py:678-734). */
module Outages {
  import opened Burst
  import opened DropOrder

  /** A burst that logged `lines` while the fault of `span` came and went: the driver read its start in time, the
      emitter kept up, and the fault held long enough for the recent window to lie inside it. */
  ghost predicate Observed(o: Burst.Outcome, span: FaultSpan, lines: seq<Line>, start: real)
  {
    && Judged(o, span) && |lines| == o.sent.value
    && Paced(lines, o.rate, start) && KeepsUp(lines, o.rate, start, SLACK)
    && start <= span.began && start <= o.started.value <= start + SETTLE
    && span.began + SETTLE <= Back(o, span) - RECENT
  }

  /** Exactly the first `n` lines were logged by `instant`. */
  ghost predicate OutBy(lines: seq<Line>, n: nat, instant: real)
  {
    forall i :: 0 <= i < |lines| ==> (lines[i].at <= instant <==> i < n)
  }

  /** The buffer the fault finds, the lines it holds back, and what follows. */
  ghost predicate Buffered(policy: Policy, room: nat, span: FaultSpan, lines: seq<Line>, b: Buffer, during: seq<Event>,
      after: seq<Event>)
    requires span.ended.Some?
  {
    && room > 0 && b.Valid(policy, room) && Held(during)
    && b.next <= |lines| && OutBy(lines, b.next, span.began)
    && OutBy(lines, b.next + |during|, span.ended.value)
    && DropOrder.Outcome(policy, room, b, during, after).next == |lines|
  }

  /** Both windows fall within the fault: nothing of them was logged before it, nothing recent after it. */
  lemma WindowsAreInsideFault(o: Burst.Outcome, span: FaultSpan, lines: seq<Line>, start: real, before: nat, held: nat)
    requires Observed(o, span, lines, start)
    requires before <= |lines| && OutBy(lines, before, span.began) && OutBy(lines, before + held, span.ended.value)
    ensures before <= OutageWindow(o, span).lo <= RecentWindow(o, span).lo
    ensures RecentWindow(o, span).hi == RecentWindow(o, span).lo + 3 * o.rate <= before + held
  {
    hide LinesDue, Due;
    var lo, recent := OutageWindow(o, span).lo, RecentWindow(o, span);
    OutageWindowIsAfterFault(o, span, start);
    assert lo < |lines| ==> lines[lo].at > span.began;
    RecentWindowSize(o, span);
    RecentWindowIsBeforeBack(o, span, lines, start, recent.hi - 1);
  }

  /** A buffer that drops its oldest lines passes `oldest_dropped` exactly when, once the service is back, it no longer
      overflows past an outage line it has pushed; and `newest_kept` exactly when it still held a recent line then
      and spared it. */
  lemma DropOldestPassesIff(
    o: Burst.Outcome, span: FaultSpan, lines: seq<Line>, start: real,
    room: nat, b: Buffer, during: seq<Event>, after: seq<Event>)
    requires Observed(o, span, lines, start) && Buffered(DropOldest, room, span, lines, b, during, after)
    ensures var mid := Run(DropOldest, room, b, during);
      var kept := DropOrder.Outcome(DropOldest, room, b, during, after).Kept();
      var recent := RecentWindow(o, span);
      var verdict := Judge(kept, |lines|, OutageWindow(o, span), recent);
      && (verdict.OldestDropped() <==> NoLateLoss(DropOldest, room, mid, after, OutageWindow(o, span).lo))
      && (verdict.NewestKept()
          <==> exists r :: recent.Has(r) && mid.next - |mid.held| <= r && Spared(room, mid, after, r))
  {
    WindowsAreInsideFault(o, span, lines, start, b.next, |during|);
    RecentWindowSize(o, span);
    hide LinesDue, Due, Judge, OutBy, Run, Spared, NoLateLoss;
    DropOldestIsAcceptedIff(room, b, during, after, OutageWindow(o, span).lo, RecentWindow(o, span));
    DropOldestKeepsNewestIff(room, b, during, after, OutageWindow(o, span), RecentWindow(o, span));
  }

  /** With room for all that follows the fault, it passes exactly when, as the service comes back, it still holds the
      newest of the recent lines. */
  lemma RoomyDropOldestPassesIff(
    o: Burst.Outcome, span: FaultSpan, lines: seq<Line>, start: real,
    room: nat, b: Buffer, during: seq<Event>, after: seq<Event>)
    requires Observed(o, span, lines, start) && Buffered(DropOldest, room, span, lines, b, during, after)
    requires Roomy(DropOldest, room, Run(DropOldest, room, b, during), after)
    ensures var kept := DropOrder.Outcome(DropOldest, room, b, during, after).Kept();
      var verdict := Judge(kept, |lines|, OutageWindow(o, span), RecentWindow(o, span));
      && verdict.OldestDropped()
      && (verdict.NewestKept() <==> RecentWindow(o, span).hi > b.next + |during| - room)
  {
    WindowsAreInsideFault(o, span, lines, start, b.next, |during|);
    RecentWindowSize(o, span);
    hide LinesDue, Due, Judge, OutBy, Run, Roomy;
    DropOldestIsAccepted(room, b, during, after, OutageWindow(o, span).lo, RecentWindow(o, span));
  }

  /** A buffer that refuses new lines when full passes exactly when it lost no line of the outage. */
  lemma RefuseNewestPassesIff(
    o: Burst.Outcome, span: FaultSpan, lines: seq<Line>, start: real,
    room: nat, b: Buffer, during: seq<Event>, after: seq<Event>)
    requires Observed(o, span, lines, start) && Buffered(RefuseNewest, room, span, lines, b, during, after)
    ensures var kept := DropOrder.Outcome(RefuseNewest, room, b, during, after).Kept();
      var verdict := Judge(kept, |lines|, OutageWindow(o, span), RecentWindow(o, span));
      verdict.OldestDropped() && verdict.NewestKept()
      <==> forall i :: OutageWindow(o, span).lo <= i < |lines| ==> i in kept
  {
    WindowsAreInsideFault(o, span, lines, start, b.next, |during|);
    hide LinesDue, Due, Judge, OutBy, Run;
    RefuseNewestIsRejected(room, b, during, after, OutageWindow(o, span).lo, RecentWindow(o, span));
  }

  /** The first half alone, for a refuser that overflowed during the fault: it fails whenever the outage window opened
      on a line that was stored, and passes otherwise if it later resumes and refuses nothing more. */
  lemma RefuseNewestHalfPassesIff(
    o: Burst.Outcome, span: FaultSpan, lines: seq<Line>, start: real,
    room: nat, b: Buffer, during: seq<Event>, after: seq<Event>)
    requires Observed(o, span, lines, start) && Buffered(RefuseNewest, room, span, lines, b, during, after)
    requires |b.held| + |during| > room
    ensures var mid := Run(RefuseNewest, room, b, during);
      var kept := DropOrder.Outcome(RefuseNewest, room, b, during, after).Kept();
      var lo := OutageWindow(o, span).lo;
      var dropped := Judge(kept, |lines|, OutageWindow(o, span), RecentWindow(o, span)).OldestDropped();
      && (dropped ==> b.next + room - |b.held| <= lo)
      && (Roomy(RefuseNewest, room, mid, after) && (exists e :: e in after && e.Logged?) ==>
          (dropped <==> b.next + room - |b.held| <= lo))
  {
    WindowsAreInsideFault(o, span, lines, start, b.next, |during|);
    hide LinesDue, Due, Judge, OutBy, Run, Roomy;
    RefuseNewestHalf(room, b, during, after, OutageWindow(o, span).lo, RecentWindow(o, span));
  }
}
