/** A paced burst of log lines, and the windows of line numbers an outage is judged by
    (tests/e2e/loadgen.py:180-221, tests/e2e/loadgen_driver.py:143-148, tests/e2e/chaos_logs.py:704-712). */
module Burst {
  import opened Wrappers

  /** The instant of the k-th thing that happens: a clock reading or a line logged. */
  type Clock = nat -> real

  ghost predicate Advances(clock: Clock) { forall i: nat, j: nat :: i <= j ==> clock(i) <= clock(j) }

  // ----- the schedule -----

  /** Round half to even. */
  function Round(x: real): int
  {
    var below := x.Floor;
    var rest := x - below as real;
    if rest < 0.5 || (rest == 0.5 && below % 2 == 0) then below else below + 1
  }

  function BurstTotal(rate: int, seconds: real): int { Round(rate as real * seconds) }

  lemma BurstTotalIsNearest(rate: int, seconds: real)
    ensures -0.5 <= BurstTotal(rate, seconds) as real - rate as real * seconds <= 0.5
    ensures BurstTotal(rate, seconds) as real - rate as real * seconds in {-0.5, 0.5} ==>
      BurstTotal(rate, seconds) % 2 == 0
    ensures rate > 0 && seconds > 0.0 ==> BurstTotal(rate, seconds) >= 0
  {
  }

  function LinesDue(rate: int, total: nat, elapsed: real): (due: nat)
    requires rate >= 0
    ensures due <= total
  {
    var reached := (rate as real * if elapsed > 0.0 then elapsed else 0.0).Floor;
    if reached < total then reached else total
  }

  /** Line i falls due (i + 1) / rate into the burst. */
  predicate Due(rate: int, i: nat, elapsed: real) { (i + 1) as real <= rate as real * elapsed }

  /** The floor counts exactly the lines that have fallen due. */
  lemma LinesDueCounts(rate: int, total: nat, elapsed: real, i: nat)
    requires rate > 0
    ensures i < LinesDue(rate, total, elapsed) <==> i < total && Due(rate, i, elapsed)
  {
    if elapsed <= 0.0 {
      assert rate as real * elapsed <= 0.0;
      assert (rate as real * 0.0).Floor == 0;
    } else {
      var x := rate as real * elapsed;
      assert i < x.Floor <==> (i + 1) as real <= x;
    }
  }

  lemma DueInstant(rate: int, i: nat, elapsed: real)
    requires rate > 0
    ensures Due(rate, i, elapsed) <==> (i + 1) as real / rate as real <= elapsed
  {
    var step := (i + 1) as real / rate as real;
    assert rate as real * step == (i + 1) as real;
    if step <= elapsed {
      assert rate as real * (elapsed - step) >= 0.0;
    } else {
      assert rate as real * (step - elapsed) > 0.0;
    }
  }

  lemma DueIsMonotone(rate: int, i: nat, sooner: real, later: real)
    requires rate > 0 && sooner <= later && Due(rate, i, sooner)
    ensures Due(rate, i, later)
  {
    assert rate as real * (later - sooner) >= 0.0;
  }

  lemma LinesDueIsMonotone(rate: int, total: nat, sooner: real, later: real)
    requires rate > 0 && sooner <= later
    ensures LinesDue(rate, total, sooner) <= LinesDue(rate, total, later)
  {
    var n := LinesDue(rate, total, sooner);
    if n > 0 {
      LinesDueCounts(rate, total, sooner, n - 1);
      DueIsMonotone(rate, n - 1, sooner, later);
      LinesDueCounts(rate, total, later, n - 1);
    }
  }

  // ----- the emitter -----

  datatype Line = Line(index: nat, at: real)

  /** The clock reading that let a line out, and the one before it. */
  datatype Pass = Pass(previous: real, reading: real)

  /** From `first` on, every line was logged in index order, and only once it was due. */
  ghost predicate PacedFrom(lines: seq<Line>, first: nat, rate: int, start: real)
  {
    forall i :: first <= i < |lines| ==> lines[i].index == i && Due(rate, i, lines[i].at - start)
  }

  ghost predicate Paced(lines: seq<Line>, rate: int, start: real) { PacedFrom(lines, 0, rate, start) }

  /** No line waited past the first clock reading that found it due. */
  ghost predicate PromptFrom(lines: seq<Line>, passes: seq<Pass>, first: nat, rate: int, start: real)
  {
    && |passes| == |lines|
    && forall i :: first <= i < |lines| ==>
      && passes[i].previous <= passes[i].reading <= lines[i].at
      && !Due(rate, i, passes[i].previous - start) && Due(rate, i, passes[i].reading - start)
  }

  /** The lines from `first` on, as logged up to `now`. */
  ghost predicate LoggedBy(lines: seq<Line>, passes: seq<Pass>, first: nat, rate: int, start: real, now: real)
  {
    && PacedFrom(lines, first, rate, start)
    && PromptFrom(lines, passes, first, rate, start)
    && (forall i :: first <= i < |lines| ==> lines[i].at <= now)
    && (forall i, j :: first <= i < j < |lines| ==> lines[i].at <= lines[j].at)
  }

  lemma LogOne(lines: seq<Line>, passes: seq<Pass>, first: nat, rate: int, total: nat, start: real, pass: Pass,
      now: real, next: real)
    requires rate > 0 && first <= |lines| < LinesDue(rate, total, pass.reading - start)
    requires LoggedBy(lines, passes, first, rate, start, now) && !Due(rate, |lines|, pass.previous - start)
    requires pass.previous <= pass.reading <= now <= next
    ensures LoggedBy(lines + [Line(|lines|, now)], passes + [pass], first, rate, start, next)
    ensures !Due(rate, |lines| + 1, pass.previous - start)
  {
    LinesDueCounts(rate, total, pass.reading - start, |lines|);
    DueIsMonotone(rate, |lines|, pass.reading - start, now - start);
    hide Due, LinesDue;
    assert !Due(rate, |lines| + 1, pass.previous - start) by { NotDueYet(rate, |lines|, pass.previous - start); }
  }

  lemma TimePasses(lines: seq<Line>, passes: seq<Pass>, first: nat, rate: int, start: real, now: real, later: real)
    requires LoggedBy(lines, passes, first, rate, start, now) && now <= later
    ensures LoggedBy(lines, passes, first, rate, start, later)
  {
  }

  lemma NotDueYet(rate: int, i: nat, elapsed: real)
    requires !Due(rate, i, elapsed)
    ensures !Due(rate, i + 1, elapsed)
  {
  }

  class Emitter {
    const rate: int
    const total: nat
    var sent: nat
    var elapsed: real
    var done: bool
    /** What `log` was given. */
    var lines: seq<Line>
    ghost var passes: seq<Pass>

    ghost predicate Valid()
      reads this
    {
      rate > 0 && sent <= total && |lines| == sent && |passes| == sent
    }

    constructor (rate: int, seconds: real)
      requires rate > 0 && seconds > 0.0
      ensures Valid() && this.rate == rate && total == BurstTotal(rate, seconds) && sent == 0 && !done && lines == []
    {
      BurstTotalIsNearest(rate, seconds);
      this.rate := rate;
      total := BurstTotal(rate, seconds);
      sent, elapsed, done, lines, passes := 0, 0.0, false, [], [];
    }

    /** Ends because the clock passes the last line's due instant, at some event `horizon`. */
    method Emit(clock: Clock, ghost horizon: nat) returns (count: nat)
      requires Valid() && Advances(clock)
      requires total > 0 ==> Due(rate, total - 1, clock(horizon) - clock(0))
      modifies this
      ensures Valid() && count == sent == total && done
      ensures lines[..old(sent)] == old(lines)
      ensures PacedFrom(lines, old(sent), rate, clock(0))
      ensures PromptFrom(lines, passes, old(sent), rate, clock(0))
      ensures forall i, j :: old(sent) <= i < j < total ==> lines[i].at <= lines[j].at
      ensures old(sent) < total ==> Due(rate, total - 1, elapsed)
    {
      hide Due, LinesDue, PromptFrom, PacedFrom, LoggedBy;
      var started := clock(0);
      var k: nat := 1;
      ghost var previous := started;
      ghost var first := sent;
      NothingLogged(lines, passes, rate, started, clock(k));
      while sent < total
        invariant Valid() && k > 0 && first <= sent && lines[..first] == old(lines)
        invariant LoggedBy(lines, passes, first, rate, started, clock(k))
        invariant previous <= clock(k) && (sent < total ==> !Due(rate, sent, previous - started))
        decreases total - sent, if k <= horizon then horizon - k + 1 else 0
      {
        var reading := clock(k);
        var due := LinesDue(rate, total, reading - started);
        ghost var before, pass := sent, k;
        AllDueAtHorizon(rate, total, clock, horizon, k);
        TimePasses(lines, passes, first, rate, started, clock(k), clock(k + 1));
        k := k + 1;
        while sent < due
          invariant Valid() && k > pass && before <= sent && (sent <= due || sent == before)
            && lines[..first] == old(lines)
          invariant previous <= reading <= clock(k) && !Due(rate, sent, previous - started)
          invariant LoggedBy(lines, passes, first, rate, started, clock(k))
        {
          LogOne(lines, passes, first, rate, total, started, Pass(previous, reading), clock(k), clock(k + 1));
          lines := lines + [Line(sent, clock(k))];
          passes := passes + [Pass(previous, reading)];
          sent := sent + 1;
          k := k + 1;
        }
        LinesDueCounts(rate, total, reading - started, sent);
        previous := reading;
      }
      elapsed := clock(k) - started;
      AllLogged(lines, passes, first, rate, started, clock(k));
      done := true;
      return sent;
    }
  }

  lemma NothingLogged(lines: seq<Line>, passes: seq<Pass>, rate: int, start: real, now: real)
    requires |passes| == |lines| && rate > 0
    ensures LoggedBy(lines, passes, |lines|, rate, start, now) && !Due(rate, |lines|, start - start)
  {
  }

  lemma AllLogged(lines: seq<Line>, passes: seq<Pass>, first: nat, rate: int, start: real, now: real)
    requires rate > 0 && LoggedBy(lines, passes, first, rate, start, now)
    ensures PacedFrom(lines, first, rate, start) && PromptFrom(lines, passes, first, rate, start)
    ensures forall i, j :: first <= i < j < |lines| ==> lines[i].at <= lines[j].at
    ensures first < |lines| ==> Due(rate, |lines| - 1, now - start)
  {
    if first < |lines| {
      DueIsMonotone(rate, |lines| - 1, lines[|lines| - 1].at - start, now - start);
    }
  }

  lemma AllDueAtHorizon(rate: int, total: nat, clock: Clock, horizon: nat, k: nat)
    requires rate > 0 && Advances(clock) && (total > 0 ==> Due(rate, total - 1, clock(horizon) - clock(0)))
    ensures horizon <= k ==> LinesDue(rate, total, clock(k) - clock(0)) == total
  {
    if horizon <= k && total > 0 {
      DueIsMonotone(rate, total - 1, clock(horizon) - clock(0), clock(k) - clock(0));
      LinesDueCounts(rate, total, clock(k) - clock(0), total - 1);
    }
  }

  // ----- the driver's reading of a burst -----

  datatype Outcome = Outcome(rate: nat, sent: Option<nat>, started: Option<real>)

  function DueBy(o: Outcome, instant: real): nat
  {
    if o.sent.None? || o.started.None? then 0
    else LinesDue(o.rate, o.sent.value, instant - o.started.value)
  }

  datatype FaultSpan = FaultSpan(began: real, ended: Option<real>)

  /** range(lo, hi) */
  datatype Range = Range(lo: nat, hi: nat)
  {
    predicate Has(i: nat) { lo <= i < hi }
  }

  const SETTLE := 2.0
  const RECENT := 6.0
  const SLACK := 3.0

  /** A burst that ran, and a service seen to have answered again. */
  predicate Judged(o: Outcome, span: FaultSpan)
  {
    o.rate > 0 && o.sent.Some? && o.started.Some? && span.ended.Some?
  }

  function Back(o: Outcome, span: FaultSpan): real
    requires Judged(o, span)
  {
    var burstEnd := o.started.value + o.sent.value as real / o.rate as real;
    if span.ended.value <= burstEnd then span.ended.value else burstEnd
  }

  function OutageWindow(o: Outcome, span: FaultSpan): Range
    requires Judged(o, span)
  {
    Range(DueBy(o, span.began + SETTLE), o.sent.value)
  }

  function RecentWindow(o: Outcome, span: FaultSpan): Range
    requires Judged(o, span)
  {
    var back := Back(o, span);
    Range(DueBy(o, back - RECENT), DueBy(o, back - SLACK))
  }

  /** The outage window holds exactly the lines sent that are not due, by the driver's clock, as the settle time after
      the fault is over. */
  lemma OutageWindowIff(o: Outcome, span: FaultSpan, i: nat)
    requires Judged(o, span)
    ensures OutageWindow(o, span).Has(i)
      <==> i < o.sent.value && o.started.value + (i + 1) as real / o.rate as real > span.began + 2.0
  {
    var elapsed := span.began + SETTLE - o.started.value;
    LinesDueCounts(o.rate, o.sent.value, elapsed, i);
    DueInstant(o.rate, i, elapsed);
  }

  /** The recent window holds exactly the lines that fall due between six and three seconds before the service is back,
      or before the burst is over if that is sooner. */
  lemma RecentWindowIff(o: Outcome, span: FaultSpan, i: nat)
    requires Judged(o, span)
    ensures var due := o.started.value + (i + 1) as real / o.rate as real;
      var over := o.started.value + o.sent.value as real / o.rate as real;
      var back := if span.ended.value < over then span.ended.value else over;
      RecentWindow(o, span).Has(i) <==> i < o.sent.value && back - 6.0 < due <= back - 3.0
  {
    var far, near := Back(o, span) - RECENT - o.started.value, Back(o, span) - SLACK - o.started.value;
    LinesDueCounts(o.rate, o.sent.value, far, i);
    LinesDueCounts(o.rate, o.sent.value, near, i);
    DueInstant(o.rate, i, far);
    DueInstant(o.rate, i, near);
    hide LinesDue, Due;
  }

  /** A burst that left no summary or no start has no line due. */
  lemma NoOutcomeNoLines(o: Outcome, instant: real)
    requires o.sent.None? || o.started.None?
    ensures DueBy(o, instant) == 0
  {}

  // ----- which lines a window holds -----

  /** In every burst that may have been logged, the lines from `lo` on come after `instant`. */
  ghost predicate SurelyAfter(rate: int, sent: nat, start: real, lo: nat, instant: real)
  {
    forall lines: seq<Line> :: |lines| == sent && Paced(lines, rate, start) ==> forall i :: lo <= i < sent ==>
      lines[i].at > instant
  }

  /** The burst that keeps exactly to its schedule. */
  function OnSchedule(rate: int, sent: nat, start: real): seq<Line>
    requires rate > 0
  {
    seq(sent, i requires 0 <= i < sent => Line(i, start + (i + 1) as real / rate as real))
  }

  lemma SurelyAfterIff(rate: int, sent: nat, start: real, lo: nat, instant: real)
    requires rate > 0
    ensures SurelyAfter(rate, sent, start, lo, instant) <==> LinesDue(rate, sent, instant - start) <= lo
  {
    if LinesDue(rate, sent, instant - start) <= lo {
      forall lines: seq<Line>, i | |lines| == sent && Paced(lines, rate, start) && lo <= i < sent
        ensures lines[i].at > instant
      {
        LinesDueCounts(rate, sent, instant - start, i);
        if lines[i].at <= instant { DueIsMonotone(rate, i, lines[i].at - start, instant - start); }
      }
    } else {
      var lines := OnSchedule(rate, sent, start);
      forall i | 0 <= i < sent ensures Due(rate, i, lines[i].at - start) {
        DueInstant(rate, i, lines[i].at - start);
      }
      assert Paced(lines, rate, start);
      LinesDueCounts(rate, sent, instant - start, lo);
      DueInstant(rate, lo, instant - start);
      assert lines[lo].at <= instant;
    }
  }

  /** Every line of the outage window was logged while the fault held, whatever the burst's pace,
      if the driver read the burst's start at most the settle time late. */
  lemma OutageWindowIsAfterFault(o: Outcome, span: FaultSpan, start: real)
    requires Judged(o, span) && o.started.value <= start + SETTLE
    ensures SurelyAfter(o.rate, o.sent.value, start, OutageWindow(o, span).lo, span.began)
  {
    LinesDueIsMonotone(o.rate, o.sent.value, span.began - start, span.began + SETTLE - o.started.value);
    SurelyAfterIff(o.rate, o.sent.value, start, OutageWindow(o, span).lo, span.began);
  }

  /** A later reading is too late: for some rate the window takes in a line logged before the fault. */
  lemma SettleIsNeeded(start: real, started: real, span: FaultSpan) returns (o: Outcome)
    requires span.ended.Some? && started > start + SETTLE && span.began > start
    ensures Judged(o, span) && o.started == Some(started)
    ensures !SurelyAfter(o.rate, o.sent.value, start, OutageWindow(o, span).lo, span.began)
  {
    var held, late := span.began - start, started - start - SETTLE;
    var rate := (1.0 / held).Floor + (1.0 / late).Floor + 2;
    assert rate as real * held >= 1.0 && rate as real * late >= 1.0 by {
      AtLeastOne(rate, held);
      AtLeastOne(rate, late);
    }
    var sent := (rate as real * held).Floor;
    o := Outcome(rate, Some(sent), Some(started));
    var x := span.began + SETTLE - started;
    assert rate as real * held == rate as real * x + rate as real * late;
    LinesDueCounts(rate, sent, span.began - start, sent - 1);
    assert !Due(rate, sent - 1, x);
    LinesDueCounts(rate, sent, x, sent - 1);
    SurelyAfterIff(rate, sent, start, OutageWindow(o, span).lo, span.began);
  }

  lemma AtLeastOne(rate: int, x: real)
    requires x > 0.0 && rate > 0 && rate as real >= 1.0 / x
    ensures rate as real * x >= 1.0
  {
    assert 1.0 / x * x == 1.0;
    assert (rate as real - 1.0 / x) * x >= 0.0;
  }

  lemma DueByBoundsAt(o: Outcome, start: real, instant: real)
    requires o.rate > 0 && o.sent.Some? && o.started.Some?
    ensures SurelyAfter(o.rate, o.sent.value, start, DueBy(o, instant), instant)
      <==> LinesDue(o.rate, o.sent.value, instant - start) <= DueBy(o, instant)
    ensures o.started.value <= start ==> SurelyAfter(o.rate, o.sent.value, start, DueBy(o, instant), instant)
  {
    SurelyAfterIff(o.rate, o.sent.value, start, DueBy(o, instant), instant);
    if o.started.value <= start {
      LinesDueIsMonotone(o.rate, o.sent.value, instant - start, instant - o.started.value);
    }
  }

  /** As the first line falls due, a later reading of the start has no line due yet. */
  lemma FirstLineMissed(o: Outcome, start: real)
    requires o.rate > 0 && o.sent.Some? && o.sent.value > 0 && o.started.Some? && o.started.value > start
    ensures var instant := start + 1.0 / o.rate as real;
      !SurelyAfter(o.rate, o.sent.value, start, DueBy(o, instant), instant)
  {
    var instant := start + 1.0 / o.rate as real;
    DueInstant(o.rate, 0, instant - start);
    DueInstant(o.rate, 0, instant - o.started.value);
    LinesDueCounts(o.rate, o.sent.value, instant - start, 0);
    LinesDueCounts(o.rate, o.sent.value, instant - o.started.value, 0);
    DueByBoundsAt(o, start, instant);
  }

  /** `due_by` bounds the lines out by every instant exactly when the driver did not read the start late, or nothing
      was sent. The driver reads it late. */
  lemma DueByBoundsIff(o: Outcome, start: real)
    requires o.rate > 0 && o.sent.Some? && o.started.Some?
    ensures (forall instant: real :: SurelyAfter(o.rate, o.sent.value, start, DueBy(o, instant), instant))
      <==> o.sent.value == 0 || o.started.value <= start
  {
    if o.sent.value == 0 || o.started.value <= start {
      forall instant: real ensures SurelyAfter(o.rate, o.sent.value, start, DueBy(o, instant), instant) {
        DueByBoundsAt(o, start, instant);
      }
    } else {
      FirstLineMissed(o, start);
    }
  }

  lemma DueByUndercounts()
    ensures var o := Outcome(10, Some(100), Some(0.5));
      DueBy(o, 1.0) == 5 && !SurelyAfter(10, 100, 0.0, DueBy(o, 1.0), 1.0)
  {
    var o := Outcome(10, Some(100), Some(0.5));
    SurelyAfterIff(10, 100, 0.0, DueBy(o, 1.0), 1.0);
  }

  // ----- the newest lines before the service came back -----

  /** No line is logged more than `behind` after it falls due. */
  ghost predicate KeepsUp(lines: seq<Line>, rate: int, start: real, behind: real)
    requires rate > 0
  {
    forall i :: 0 <= i < |lines| ==> lines[i].at <= start + (i + 1) as real / rate as real + behind
  }

  /** An emitter is behind by no more than it takes from one clock reading to the lines the next lets out. */
  lemma QuickPassesKeepUp(lines: seq<Line>, passes: seq<Pass>, rate: int, start: real, behind: real)
    requires rate > 0 && PromptFrom(lines, passes, 0, rate, start)
    requires forall i :: 0 <= i < |lines| ==> lines[i].at - passes[i].previous <= behind
    ensures KeepsUp(lines, rate, start, behind)
  {
    forall i | 0 <= i < |lines| ensures lines[i].at <= start + (i + 1) as real / rate as real + behind {
      DueInstant(rate, i, passes[i].previous - start);
    }
  }

  /** Every line of the recent window was logged before the service was back and the burst over,
      if the emitter keeps up to the slack and the start was not read early. */
  lemma RecentWindowIsBeforeBack(o: Outcome, span: FaultSpan, lines: seq<Line>, start: real, i: nat)
    requires Judged(o, span) && |lines| == o.sent.value && KeepsUp(lines, o.rate, start, SLACK)
    requires start <= o.started.value && RecentWindow(o, span).Has(i)
    ensures i < |lines| && lines[i].at <= Back(o, span) <= span.ended.value
  {
    var elapsed := Back(o, span) - SLACK - o.started.value;
    LinesDueCounts(o.rate, o.sent.value, elapsed, i);
    DueInstant(o.rate, i, elapsed);
  }

  /** And not long before, if the start was not read late: the lines are the newest the fault held back. */
  lemma RecentWindowIsRecent(o: Outcome, span: FaultSpan, lines: seq<Line>, start: real, i: nat)
    requires Judged(o, span) && |lines| == o.sent.value && Paced(lines, o.rate, start)
    requires o.started.value <= start + SETTLE && RecentWindow(o, span).lo <= i < |lines|
    ensures lines[i].at > Back(o, span) - RECENT - SETTLE
  {
    var elapsed := Back(o, span) - RECENT - o.started.value;
    LinesDueCounts(o.rate, o.sent.value, elapsed, i);
    DueInstant(o.rate, i, elapsed);
    DueInstant(o.rate, i, lines[i].at - start);
  }

  lemma LinesInThreeSeconds(rate: int, sent: nat, far: real)
    requires rate > 0 && 0.0 <= far && far + 3.0 <= sent as real / rate as real
    ensures LinesDue(rate, sent, far + 3.0) == LinesDue(rate, sent, far) + 3 * rate
  {
    var r, end := rate as real, sent as real / rate as real;
    Scale(r, far, 3.0);
    var left := end - (far + 3.0);
    assert left >= 0.0;
    assert r * left >= 0.0;
    Scale(r, far + 3.0, left);
    assert far + 3.0 + left == end;
    assert r * end == sent as real;
    var x := r * far;
    assert r * 3.0 == (3 * rate) as real;
    assert r * (far + 3.0) == x + (3 * rate) as real;
    assert (x + (3 * rate) as real).Floor == x.Floor + 3 * rate;
  }

  lemma Scale(r: real, a: real, b: real)
    ensures r * (a + b) == r * a + r * b
  {
  }

  /** The recent window always holds the same number of lines once the burst is RECENT old at `back`:
      it never reaches past the burst's end. */
  lemma RecentWindowSize(o: Outcome, span: FaultSpan)
    requires Judged(o, span)
    ensures RecentWindow(o, span).lo <= RecentWindow(o, span).hi <= o.sent.value
    ensures Back(o, span) - RECENT >= o.started.value ==>
      RecentWindow(o, span).hi - RecentWindow(o, span).lo == 3 * o.rate
    ensures Back(o, span) - RECENT >= span.began + SETTLE ==> OutageWindow(o, span).lo <= RecentWindow(o, span).lo
  {
    var far := Back(o, span) - RECENT - o.started.value;
    LinesDueIsMonotone(o.rate, o.sent.value, far, far + (RECENT - SLACK));
    assert Back(o, span) - RECENT - o.started.value == far
      && Back(o, span) - SLACK - o.started.value == far + (RECENT - SLACK);
    if far >= 0.0 {
      LinesInThreeSeconds(o.rate, o.sent.value, far);
    }
    if Back(o, span) - RECENT >= span.began + SETTLE {
      LinesDueIsMonotone(o.rate, o.sent.value, span.began + SETTLE - o.started.value, far);
    }
  }
}
