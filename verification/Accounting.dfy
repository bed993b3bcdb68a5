/** One worker's stored lines set against the numbers its SDK gave them
    (tests/e2e/loadgen_driver.py:233-267, tests/e2e/logrecords.py:95-120, tests/e2e/loadgen.py:180-182). */
module Accounting {
  import opened Wrappers
  import opened Text

  // ----- records and their series -----

  /** A stored record, its fields as str() and int() read them; `job` is "" when the record has none. */
  datatype Record = Record(service: string, process: string, job: string, number: int, message: string)

  type Key = seq<string>

  const ENGINE_SERVICE := "neops-workflow-engine"
  const WORKER_SERVICE := "neops-worker"
  const CORE_SERVICE := "neops-core"

  /** The services whose holes are reported unless a caller names fewer. */
  const SERVICES: set<string> := {ENGINE_SERVICE, WORKER_SERVICE, CORE_SERVICE}

  function KeyOf(r: Record): (key: Key)
    ensures |key| > 0 && key[0] == r.service
  {
    if r.service == WORKER_SERVICE then [r.service, r.process, r.job] else [r.service, r.process]
  }

  /** How often each number was stored, series by series; no series is empty. */
  type Series = map<Key, multiset<int>>

  function Count(series: Series, r: Record): Series
  {
    var key := KeyOf(r);
    series[key := (if key in series then series[key] else multiset{}) + multiset{r.number}]
  }

  function SeriesOf(records: seq<Record>): Series
  {
    if records == [] then map[] else Count(SeriesOf(records[..|records| - 1]), records[|records| - 1])
  }

  /** Two records are numbered together exactly when they come from one process of one service and, in a worker, from
      one job. */
  lemma SameSeriesIff(r: Record, t: Record)
    ensures KeyOf(r) == KeyOf(t)
      <==> r.service == t.service && r.process == t.process && (r.service == WORKER_SERVICE ==> r.job == t.job)
  {
    hide WORKER_SERVICE;
    assert KeyOf(r)[0] == r.service && KeyOf(r)[1] == r.process && KeyOf(t)[0] == t.service && KeyOf(t)[1] == t.process;
    assert r.service == WORKER_SERVICE ==> KeyOf(r)[2] == r.job;
    assert t.service == WORKER_SERVICE ==> KeyOf(t)[2] == t.job;
  }

  /** The series are those of the records, with their numbers, and none is empty. */
  ghost predicate Holds(series: Series, records: seq<Record>)
  {
    && (forall key :: key in series <==> exists r :: r in records && KeyOf(r) == key)
    && (forall key, n :: key in series ==>
      (n in series[key] <==> exists r :: r in records && KeyOf(r) == key && r.number == n))
    && (forall key :: key in series ==> series[key] != multiset{})
  }

  lemma CountOne(series: Series, r: Record)
    ensures var after, key := Count(series, r), KeyOf(r);
      && (forall k :: k in after <==> k in series || k == key)
      && (forall k :: k in series && k != key ==> after[k] == series[k])
      && (forall n :: n in after[key] <==> n == r.number || (key in series && n in series[key]))
  {
    hide KeyOf;
  }

  lemma CountHolds(series: Series, records: seq<Record>, last: Record)
    requires Holds(series, records)
    ensures Holds(Count(series, last), records + [last])
  {
    CountOne(series, last);
    hide KeyOf, Count;
    var after, all := Count(series, last), records + [last];
    assert forall r :: r in all <==> r in records || r == last;
    assert last.number in after[KeyOf(last)];
    forall key, n | key in after
      ensures n in after[key] <==> exists r :: r in all && KeyOf(r) == key && r.number == n
    {
      if key != KeyOf(last) { assert after[key] == series[key]; }
    }
    forall key | key in after ensures after[key] != multiset{} {
      if key != KeyOf(last) { assert after[key] == series[key]; }
    }
  }

  lemma {:induction false} SeriesHold(records: seq<Record>)
    ensures Holds(SeriesOf(records), records)
  {
    if records != [] {
      var init, last := records[..|records| - 1], records[|records| - 1];
      SeriesHold(init);
      CountHolds(SeriesOf(init), init, last);
      assert init + [last] == records;
    }
  }

  lemma SeriesHoldTheRecords(records: seq<Record>)
    ensures forall key :: key in SeriesOf(records) <==> exists r :: r in records && KeyOf(r) == key
    ensures forall key, n :: key in SeriesOf(records) ==>
      (n in SeriesOf(records)[key] <==> exists r :: r in records && KeyOf(r) == key && r.number == n)
    ensures forall key :: key in SeriesOf(records) ==> SeriesOf(records)[key] != multiset{}
  {
    SeriesHold(records);
    hide SeriesOf, KeyOf;
  }

  // ----- totals over the series -----

  ghost function Total(series: Series, f: multiset<int> -> int): int
  {
    if series == map[] then 0
    else
      var key :| key in series;
      f(series[key]) + Total(series - {key}, f)
  }

  lemma TotalOfNone(f: multiset<int> -> int)
    ensures Total(map[], f) == 0
  {
  }

  lemma {:induction false} TotalRemove(series: Series, f: multiset<int> -> int, key: Key)
    requires key in series
    ensures Total(series, f) == f(series[key]) + Total(series - {key}, f)
  {
    var first :| first in series && Total(series, f) == f(series[first]) + Total(series - {first}, f);
    if first != key {
      TotalRemove(series - {first}, f, key);
      TotalRemove(series - {key}, f, first);
      assert series - {first} - {key} == series - {key} - {first};
    }
  }

  lemma TotalUpdate(series: Series, f: multiset<int> -> int, key: Key, m: multiset<int>)
    ensures Total(series[key := m], f) == Total(series, f) + f(m) - if key in series then f(series[key]) else 0
  {
    TotalRemove(series[key := m], f, key);
    assert series[key := m] - {key} == series - {key};
    if key in series {
      TotalRemove(series, f, key);
    } else {
      assert series - {key} == series;
    }
  }

  lemma {:induction false} TotalAdds(series: Series, f: multiset<int> -> int, g: multiset<int> -> int,
      h: multiset<int> -> int)
    requires forall key :: key in series ==> f(series[key]) == g(series[key]) + h(series[key])
    ensures Total(series, f) == Total(series, g) + Total(series, h)
  {
    if key :| key in series {
      TotalAdds(series - {key}, f, g, h);
      TotalRemove(series, f, key);
      TotalRemove(series, g, key);
      TotalRemove(series, h, key);
    }
  }

  lemma {:induction false} TotalIsZeroIff(series: Series, f: multiset<int> -> int)
    requires forall key :: key in series ==> f(series[key]) >= 0
    ensures Total(series, f) >= 0
    ensures Total(series, f) == 0 <==> forall key :: key in series ==> f(series[key]) == 0
  {
    if key :| key in series {
      TotalRemove(series, f, key);
      TotalIsZeroIff(series - {key}, f);
      assert forall k :: k in series <==> k == key || k in series - {key};
    }
  }

  // ----- one series -----

  function Distinct(m: multiset<int>): set<int> { set n | n in m }

  predicate IsTop(m: multiset<int>, n: int) { n in m && forall k :: k in m ==> k <= n }
  predicate IsBottom(m: multiset<int>, n: int) { n in m && forall k :: k in m ==> n <= k }

  lemma HoldsOne(m: multiset<int>)
    requires m != multiset{}
    ensures exists n :: n in m
  {
    var none: multiset<int> := multiset{};
    assert (forall n :: m[n] == none[n]) ==> m == none;
  }

  method Ends(m: multiset<int>) returns (bottom: int, top: int)
    requires m != multiset{}
    ensures IsBottom(m, bottom) && IsTop(m, top)
  {
    HoldsOne(m);
    bottom :| bottom in m;
    top := bottom;
    var todo := m;
    while todo != multiset{}
      invariant todo <= m && bottom in m && top in m
      invariant forall k :: k in m && k !in todo ==> bottom <= k <= top
      decreases |todo|
    {
      HoldsOne(todo);
      var k :| k in todo;
      if k < bottom { bottom := k; }
      if k > top { top := k; }
      todo := todo[k := 0];
    }
  }

  lemma {:induction false} TopExists(m: multiset<int>)
    requires m != multiset{}
    ensures exists n :: IsTop(m, n)
    decreases |m|
  {
    HoldsOne(m);
    var n :| n in m;
    var rest := m[n := 0];
    if rest == multiset{} {
      assert forall k :: k in m && k != n ==> k in rest;
      assert IsTop(m, n);
    } else {
      TopExists(rest);
      var t :| IsTop(rest, t);
      assert forall k :: k in m && k != n ==> k in rest;
      assert IsTop(m, if t < n then n else t);
    }
  }

  /** The number the SDK would give the series' next line. */
  ghost function Assigned(m: multiset<int>): int
  {
    if m == multiset{} then 0 else (TopExists(m); var n :| IsTop(m, n); n + 1)
  }

  lemma AssignedIsNext(m: multiset<int>, top: int)
    requires IsTop(m, top)
    ensures Assigned(m) == top + 1
  {
  }

  ghost function Received(m: multiset<int>): int { |Distinct(m)| }

  ghost function Repeats(m: multiset<int>): int { |m| - |Distinct(m)| }

  /** range(lo, hi) as a set */
  function Between(lo: int, hi: int): set<int>
    decreases hi - lo
  {
    if lo >= hi then {} else Between(lo, hi - 1) + {hi - 1}
  }

  lemma {:induction false} BetweenHolds(lo: int, hi: int)
    ensures forall n :: n in Between(lo, hi) <==> lo <= n < hi
    ensures |Between(lo, hi)| == if lo < hi then hi - lo else 0
    decreases hi - lo
  {
    if lo < hi { BetweenHolds(lo, hi - 1); }
  }

  /** The numbers below the highest stored that the store does not hold. */
  ghost function Absent(m: multiset<int>): set<int> { Between(0, Assigned(m)) - Distinct(m) }

  /** sum(n - 1 for n in seqs.values()) */
  method CountRepeats(m: multiset<int>) returns (received: nat, repeats: nat)
    ensures received == Received(m) && repeats == Repeats(m)
  {
    received, repeats := 0, 0;
    var todo := m;
    while todo != multiset{}
      invariant todo <= m
      invariant forall k :: k in todo ==> todo[k] == m[k]
      invariant received + |Distinct(todo)| == |Distinct(m)|
      invariant received + repeats + |todo| == |m|
      decreases |todo|
    {
      HoldsOne(todo);
      var k :| k in todo;
      received, repeats := received + 1, repeats + m[k] - 1;
      assert Distinct(todo[k := 0]) == Distinct(todo) - {k};
      todo := todo[k := 0];
    }
    assert Distinct(todo) == {};
  }

  function Negative(m: multiset<int>): set<int> { set n | n in m && n < 0 }

  lemma NegativeIff(m: multiset<int>)
    ensures |Negative(m)| == 0 <==> forall n :: n in m ==> n >= 0
  {
    if n :| n in m && n < 0 { assert n in Negative(m); }
    if |Negative(m)| == 0 { assert forall n :: n !in Negative(m); }
  }

  lemma StoredAndAbsent(m: multiset<int>, top: int)
    requires IsTop(m, top)
    ensures |Between(0, top + 1)| == Received(m) - |Negative(m)| + |Absent(m)|
    ensures top < 0 ==> |Negative(m)| == Received(m) > 0
  {
    AssignedIsNext(m, top);
    BetweenHolds(0, top + 1);
    hide Assigned;
    var stored := Distinct(m) - Negative(m);
    assert Distinct(m) == stored + Negative(m) && stored !! Negative(m);
    assert Between(0, top + 1) == stored + Absent(m) && stored !! Absent(m);
    if top < 0 {
      assert Negative(m) == Distinct(m) && top in Negative(m);
    }
  }

  /** The pigeonhole: what is numbered but not received is what the store lacks below the top, unless a number
      is negative; then it is less. */
  lemma AbsentCountsIff(m: multiset<int>)
    requires m != multiset{}
    ensures Assigned(m) <= Received(m) + |Absent(m)|
    ensures Assigned(m) == Received(m) + |Absent(m)| <==> forall n :: n in m ==> n >= 0
  {
    TopExists(m);
    var top :| IsTop(m, top);
    AssignedIsNext(m, top);
    BetweenHolds(0, top + 1);
    StoredAndAbsent(m, top);
    NegativeIff(m);
    hide Assigned, Absent, Received, Negative, Between;
  }

  // ----- the account -----

  /** `log_burst line N`, or None; `$` lets a final line feed pass. */
  function BurstIndex(message: string): Option<nat>
  {
    Numbered("log_burst line ", "", message)
  }

  /** `dropped N log lines (buffer full)` */
  function DropCount(message: string): Option<nat>
  {
    Numbered("dropped ", " log lines (buffer full)", message)
  }

  /** ^head(\d+)tail$ */
  function Numbered(head: string, tail: string, message: string): Option<nat>
  {
    var line := if message != "" && message[|message| - 1] == '\n' then message[..|message| - 1] else message;
    if |line| <= |head| + |tail| || !(head <= line) || line[|line| - |tail|..] != tail then None
    else
      var digits := line[|head|..|line| - |tail|];
      if AllDigits(digits) then Some(DecimalValue(digits)) else None
  }

  function BurstLine(i: nat): string { "log_burst line " + Decimal(i) }

  lemma BurstIndexRoundTrip(i: nat)
    ensures BurstIndex(BurstLine(i)) == Some(i)
  {
    var head, digits := "log_burst line ", Decimal(i);
    var line := BurstLine(i);
    assert line[|head|..] == digits;
    assert line[|line| - 1] == digits[|digits| - 1] && IsDigit(line[|line| - 1]);
    assert line[|head|..|line|] == digits && line[|line|..] == "";
  }

  /** A numbered line is the words around digits, and at most one line feed behind. */
  lemma NumberedIff(head: string, tail: string, message: string, n: nat)
    requires tail == "" || tail[|tail| - 1] != '\n'
    ensures Numbered(head, tail, message) == Some(n) <==>
      exists digits, end ::
        && digits != "" && AllDigits(digits) && DecimalValue(digits) == n
        && end in {"", "\n"} && message == head + digits + tail + end
  {
    if Numbered(head, tail, message) == Some(n) {
      NumberedParts(head, tail, message);
    }
    if digits, end :| digits != "" && AllDigits(digits) && DecimalValue(digits) == n && end in {"", "\n"}
                      && message == head + digits + tail + end {
      PartsNumbered(head, digits, tail, end);
    }
  }

  lemma NumberedParts(head: string, tail: string, message: string)
    requires Numbered(head, tail, message).Some?
    ensures exists digits, end ::
      && digits != "" && AllDigits(digits) && DecimalValue(digits) == Numbered(head, tail, message).value
      && end in {"", "\n"} && message == head + digits + tail + end
  {
    hide DecimalValue;
    var feed := message != "" && message[|message| - 1] == '\n';
    var line := if feed then message[..|message| - 1] else message;
    var digits, end := line[|head|..|line| - |tail|], if feed then "\n" else "";
    assert AllDigits(digits) && digits != "" && DecimalValue(digits) == Numbered(head, tail, message).value;
    hide Numbered, AllDigits;
    assert line == head + digits + tail;
    assert message == line + end;
  }

  lemma PartsNumbered(head: string, digits: string, tail: string, end: string)
    requires digits != "" && AllDigits(digits) && end in {"", "\n"} && (tail == "" || tail[|tail| - 1] != '\n')
    ensures Numbered(head, tail, head + digits + tail + end) == Some(DecimalValue(digits))
  {
    hide DecimalValue;
    var line := head + digits + tail;
    var message := line + end;
    assert line[|line| - 1] == if tail == "" then digits[|digits| - 1] else tail[|tail| - 1];
    assert line[|line| - 1] != '\n';
    assert end == "" ==> message == line;
    assert end == "\n" ==> message[|message| - 1] == '\n' && message[..|message| - 1] == line;
    assert line[|line| - |tail|..] == tail && line[|head|..|line| - |tail|] == digits;
  }

  /** The count of a dropped-lines line is read back from its text. */
  lemma DropCountRoundTrip(n: nat)
    ensures DropCount("dropped " + Decimal(n) + " log lines (buffer full)") == Some(n)
  {
    var line := "dropped " + Decimal(n) + " log lines (buffer full)";
    hide Decimal, DecimalValue;
    PartsNumbered("dropped ", Decimal(n), " log lines (buffer full)", "");
    assert line + "" == line;
  }

  datatype Account = Account(numbered: int, received: int, duplicates: int, bursts: set<nat>, dropsReported: int)
  {
    function Missing(): int { numbered - received }
  }

  function DropsIn(records: seq<Record>): nat
  {
    if records == [] then 0
    else
      var n := DropCount(records[|records| - 1].message);
      DropsIn(records[..|records| - 1]) + if n.Some? then n.value else 0
  }

  /** The reported drops add up, record by record, whatever stands between them. */
  lemma {:induction false} DropsAddUp(a: seq<Record>, b: seq<Record>)
    ensures DropsIn(a + b) == DropsIn(a) + DropsIn(b)
    decreases |b|
  {
    hide DropCount;
    if b == [] {
      assert a + b == a;
    } else {
      assert (a + b)[..|a + b| - 1] == a + b[..|b| - 1];
      DropsAddUp(a, b[..|b| - 1]);
    }
  }

  lemma DropsOfOne(r: Record)
    ensures DropsIn([r]) == if DropCount(r.message).Some? then DropCount(r.message).value else 0
  {
    hide DropCount;
    assert [r][..0] == [];
  }

  /** What the account of `records` must say. */
  ghost predicate IsAccount(records: seq<Record>, a: Account)
  {
    var series := SeriesOf(records);
    && a.numbered == Total(series, Assigned)
    && a.received == Total(series, Received)
    && a.duplicates == Total(series, Repeats)
    && (forall i :: i in a.bursts <==> exists r :: r in records && BurstIndex(r.message) == Some(i))
    && a.dropsReported == DropsIn(records)
  }

  lemma CountNext(records: seq<Record>, i: nat)
    requires i < |records|
    ensures SeriesOf(records[..0]) == map[]
    ensures SeriesOf(records[..i + 1]) == Count(SeriesOf(records[..i]), records[i])
  {
    hide Count;
    assert records[..i + 1][..i] == records[..i];
  }

  method CountSeries(records: seq<Record>) returns (series: Series)
    ensures series == SeriesOf(records)
  {
    series := map[];
    for i := 0 to |records|
      invariant series == SeriesOf(records[..i])
    {
      hide SeriesOf, KeyOf;
      CountNext(records, i);
      var key := KeyOf(records[i]);
      if key !in series { series := series[key := multiset{}]; }
      series := series[key := series[key] + multiset{records[i].number}];
    }
    assert records[..|records|] == records;
  }

  method AccountFor(records: seq<Record>) returns (a: Account)
    ensures IsAccount(records, a)
  {
    hide SeriesOf, BurstIndex, DropsIn, Total, Assigned, Received, Repeats;
    var series := CountSeries(records);
    SeriesHoldTheRecords(records);
    var numbered, received, duplicates := SumUp(series);
    var bursts, drops := BurstsAndDrops(records);
    a := Account(numbered, received, duplicates, bursts, drops);
  }

  method SumUp(series: Series) returns (numbered: int, received: int, duplicates: int)
    requires forall key :: key in series ==> series[key] != multiset{}
    ensures numbered == Total(series, Assigned) && received == Total(series, Received)
      && duplicates == Total(series, Repeats)
  {
    hide Total, Assigned, Received, Repeats, IsTop, IsBottom;
    TotalOfNone(Assigned);
    TotalOfNone(Received);
    TotalOfNone(Repeats);
    numbered, received, duplicates := 0, 0, 0;
    var todo := series;
    while todo != map[]
      invariant forall key :: key in todo ==> todo[key] != multiset{}
      invariant numbered + Total(todo, Assigned) == Total(series, Assigned)
      invariant received + Total(todo, Received) == Total(series, Received)
      invariant duplicates + Total(todo, Repeats) == Total(series, Repeats)
      decreases |todo|
    {
      var key :| key in todo;
      var _, top := Ends(todo[key]);
      AssignedIsNext(todo[key], top);
      var distinct, repeats := CountRepeats(todo[key]);
      numbered, received, duplicates := numbered + top + 1, received + distinct, duplicates + repeats;
      TotalRemove(todo, Assigned, key);
      TotalRemove(todo, Received, key);
      TotalRemove(todo, Repeats, key);
      todo := todo - {key};
    }
  }

  method BurstsAndDrops(records: seq<Record>) returns (bursts: set<nat>, drops: nat)
    ensures forall i :: i in bursts <==> exists r :: r in records && BurstIndex(r.message) == Some(i)
    ensures drops == DropsIn(records)
  {
    hide BurstIndex, DropCount;
    bursts, drops := {}, 0;
    for k := 0 to |records|
      invariant forall i :: i in bursts <==> exists r :: r in records[..k] && BurstIndex(r.message) == Some(i)
      invariant drops == DropsIn(records[..k])
    {
      assert records[..k + 1] == records[..k] + [records[k]] && records[..k + 1][..k] == records[..k];
      var index, dropped := BurstIndex(records[k].message), DropCount(records[k].message);
      if index.Some? { bursts := bursts + {index.value}; }
      if dropped.Some? { drops := drops + dropped.value; }
    }
    assert records[..|records|] == records;
  }

  // ----- what the account means -----

  ghost function Size(m: multiset<int>): int { |m| }

  lemma {:induction false} SizesAddUp(records: seq<Record>)
    ensures Total(SeriesOf(records), Size) == |records|
  {
    if records != [] {
      var init, last := records[..|records| - 1], records[|records| - 1];
      SizesAddUp(init);
      var series, key := SeriesOf(init), KeyOf(last);
      TotalUpdate(series, Size, key, (if key in series then series[key] else multiset{}) + multiset{last.number});
    }
  }

  /** Every record is either the first of its number or a duplicate. */
  lemma RecordsBalance(records: seq<Record>, a: Account)
    requires IsAccount(records, a)
    ensures |records| == a.received + a.duplicates
  {
    SizesAddUp(records);
    TotalAdds(SeriesOf(records), Size, Received, Repeats);
  }

  ghost function AbsentCount(m: multiset<int>): int { |Absent(m)| }

  ghost predicate NonNegative(records: seq<Record>) { forall r :: r in records ==> r.number >= 0 }

  /** What a negative number hides. */
  ghost function Slack(m: multiset<int>): int { Received(m) + AbsentCount(m) - Assigned(m) }

  ghost function Expected(m: multiset<int>): int { Received(m) + AbsentCount(m) }

  /** `missing` is the number of absent numbers below each series' highest, if and only if no number is negative;
      otherwise it is too small. */
  lemma MissingCountsAbsentIff(records: seq<Record>, a: Account)
    requires IsAccount(records, a)
    ensures a.Missing() <= Total(SeriesOf(records), AbsentCount)
    ensures a.Missing() == Total(SeriesOf(records), AbsentCount) <==> NonNegative(records)
  {
    var series := SeriesOf(records);
    SeriesHoldTheRecords(records);
    forall key | key in series
      ensures Slack(series[key]) >= 0 && (Slack(series[key]) == 0 <==> forall n :: n in series[key] ==> n >= 0)
    {
      AbsentCountsIff(series[key]);
    }
    hide SeriesOf, KeyOf, Received, AbsentCount, Assigned;
    TotalAdds(series, Expected, Received, AbsentCount);
    TotalAdds(series, Expected, Assigned, Slack);
    TotalIsZeroIff(series, Slack);
    NonNegativeSeries(records);
  }

  ghost predicate NonNegativeIn(series: Series)
  {
    forall key :: key in series ==> forall n :: n in series[key] ==> n >= 0
  }

  lemma NonNegativeSeries(records: seq<Record>)
    ensures NonNegative(records) <==> NonNegativeIn(SeriesOf(records))
  {
    SeriesHoldTheRecords(records);
    var series := SeriesOf(records);
    hide SeriesOf, KeyOf;
    if NonNegative(records) {
      forall key, n | key in series && n in series[key] ensures n >= 0 {
        var r :| r in records && KeyOf(r) == key && r.number == n;
      }
      assert NonNegativeIn(series);
    }
    if NonNegativeIn(series) {
      forall r | r in records ensures r.number >= 0 {
        assert KeyOf(r) in series && r.number in series[KeyOf(r)];
      }
      assert NonNegative(records);
    }
  }

  // ----- the hole and duplicate report -----

  datatype Problem = Duplicated(key: Key, numbers: set<int>) | Holes(key: Key, numbers: set<int>)

  function Repeated(m: multiset<int>): set<int> { set n | n in m && m[n] > 1 }

  ghost predicate IsGap(m: multiset<int>, n: int)
  {
    n !in m && (exists lo :: lo in m && lo < n) && exists hi :: hi in m && n < hi
  }

  ghost predicate Reported(series: Series, holesIn: set<string>, p: Problem)
  {
    && p.key in series && p.numbers != {}
    && match p
       case Duplicated(key, numbers) => numbers == Repeated(series[key])
       case Holes(key, numbers) => key != [] && key[0] in holesIn && forall n :: n in numbers <==> IsGap(series[key], n)
  }

  /** In any order of the series. */
  method SeqProblems(records: seq<Record>, holesIn: set<string>) returns (problems: seq<Problem>)
    ensures forall p :: p in problems <==> Reported(SeriesOf(records), holesIn, p)
  {
    var series := CountSeries(records);
    SeriesHoldTheRecords(records);
    problems := [];
    var todo := series.Keys;
    while todo != {}
      invariant todo <= series.Keys
      invariant forall p :: p in problems <==> p.key !in todo && Reported(series, holesIn, p)
      decreases todo
    {
      var key :| key in todo;
      var found := ProblemsOf(series, holesIn, key);
      problems := problems + found;
      todo := todo - {key};
    }
  }

  method ProblemsOf(series: Series, holesIn: set<string>, key: Key) returns (problems: seq<Problem>)
    requires key in series && series[key] != multiset{} && key != []
    ensures forall p :: p in problems <==> p.key == key && Reported(series, holesIn, p)
  {
    var m := series[key];
    var bottom, top := Ends(m);
    BetweenHolds(bottom, top + 1);
    var missing := Between(bottom, top + 1) - Distinct(m);
    assert forall n :: n in missing <==> IsGap(m, n);
    problems := [];
    if Repeated(m) != {} { problems := problems + [Duplicated(key, Repeated(m))]; }
    ghost var one := problems;
    assert forall p :: p in one <==> p.Duplicated? && p.key == key && Reported(series, holesIn, p);
    if key[0] in holesIn && missing != {} { problems := problems + [Holes(key, missing)]; }
    forall p ensures p in problems <==> p in one || (p.Holes? && p.key == key && Reported(series, holesIn, p)) {
      if p.Holes? && p.key == key && Reported(series, holesIn, p) {
        assert forall n :: n in p.numbers <==> n in missing;
        assert p == Holes(key, missing);
      }
    }
  }

  ghost predicate StartsAtZero(m: multiset<int>) { 0 in m }

  ghost predicate NothingReported(series: Series, holesIn: set<string>) { forall p :: !Reported(series, holesIn, p) }

  ghost predicate AllStartAtZero(series: Series) { forall key :: key in series ==> StartsAtZero(series[key]) }

  lemma CleanSeriesIff(m: multiset<int>)
    requires m != multiset{} && forall n :: n in m ==> n >= 0
    ensures Absent(m) == {} <==> StartsAtZero(m) && forall n :: !IsGap(m, n)
  {
    TopExists(m);
    var top :| IsTop(m, top);
    assert Assigned(m) == top + 1;
    BetweenHolds(0, top + 1);
    if Absent(m) == {} {
      assert 0 !in Absent(m);
      forall n ensures !IsGap(m, n) { assert n !in Absent(m); }
    }
    if StartsAtZero(m) && forall n :: !IsGap(m, n) {
      forall n ensures n !in Absent(m) { assert !IsGap(m, n); }
    }
  }

  lemma RepeatsIff(m: multiset<int>)
    ensures Repeats(m) >= 0
    ensures Repeats(m) == 0 <==> Repeated(m) == {}
    decreases |m|
  {
    if m != multiset{} {
      HoldsOne(m);
      var n :| n in m;
      var rest := m[n := 0];
      RepeatsIff(rest);
      assert Distinct(rest) == Distinct(m) - {n};
      assert Repeats(m) == Repeats(rest) + m[n] - 1;
      assert Repeated(rest) == Repeated(m) - {n};
      assert n in Repeated(m) <==> m[n] > 1;
    } else {
      assert Distinct(m) == {} && Repeated(m) == {};
    }
  }

  /** Nothing missing and nothing doubled, by the account, exactly when the report is empty and every
      series starts at 0. */
  lemma CleanAccountIff(records: seq<Record>, a: Account, holesIn: set<string>)
    requires IsAccount(records, a) && NonNegative(records)
    requires forall r :: r in records ==> r.service in holesIn
    ensures a.Missing() == 0 && a.duplicates == 0
      <==> NothingReported(SeriesOf(records), holesIn) && AllStartAtZero(SeriesOf(records))
  {
    var series := SeriesOf(records);
    SeriesHoldTheRecords(records);
    MissingCountsAbsentIff(records, a);
    forall key | key in series ensures Repeats(series[key]) >= 0 { RepeatsIff(series[key]); }
    TotalIsZeroIff(series, AbsentCount);
    TotalIsZeroIff(series, Repeats);
    forall key | key in series
      ensures AbsentCount(series[key]) == 0 && Repeats(series[key]) == 0
        <==> StartsAtZero(series[key]) && forall p: Problem :: p.key == key ==> !Reported(series, holesIn, p)
    {
      CleanSeries(series, holesIn, key);
    }
    hide Repeats, AbsentCount, StartsAtZero, Total, SeriesOf;
    assert forall p :: Reported(series, holesIn, p) ==> p.key in series;
  }

  lemma CleanSeries(series: Series, holesIn: set<string>, key: Key)
    requires key in series && key != [] && key[0] in holesIn
    requires series[key] != multiset{} && forall n :: n in series[key] ==> n >= 0
    ensures AbsentCount(series[key]) == 0 && Repeats(series[key]) == 0
      <==> StartsAtZero(series[key]) && forall p: Problem :: p.key == key ==> !Reported(series, holesIn, p)
  {
    var m := series[key];
    CleanSeriesIff(m);
    RepeatsIff(m);
    if forall p: Problem :: p.key == key ==> !Reported(series, holesIn, p) {
      assert !Reported(series, holesIn, Duplicated(key, Repeated(m)));
      var gaps := FindGaps(m);
      assert !Reported(series, holesIn, Holes(key, gaps));
    }
    if Repeated(m) == {} && forall n :: !IsGap(m, n) {
      forall p: Problem | p.key == key ensures !Reported(series, holesIn, p) {
        if p.Holes? && p.numbers != {} {
          var n :| n in p.numbers;
          assert !IsGap(m, n);
        }
      }
    }
  }

  lemma FindGaps(m: multiset<int>) returns (gaps: set<int>)
    requires m != multiset{} && forall n :: n in m ==> n >= 0
    ensures forall n :: n in gaps <==> IsGap(m, n)
  {
    TopExists(m);
    var top :| IsTop(m, top);
    BetweenHolds(0, top);
    gaps := set n | n in Between(0, top) && IsGap(m, n);
  }

  const HIDING := [Record(ENGINE_SERVICE, "1", "", -1, ""), Record(ENGINE_SERVICE, "1", "", 1, "")]

  lemma HidingSeries()
    ensures SeriesOf(HIDING) == map[[ENGINE_SERVICE, "1"] := multiset{-1, 1}]
  {
    assert ENGINE_SERVICE != WORKER_SERVICE by { assert |ENGINE_SERVICE| != |WORKER_SERVICE|; }
    hide ENGINE_SERVICE, WORKER_SERVICE;
    var first, second := HIDING[0], HIDING[1];
    var key := [ENGINE_SERVICE, "1"];
    assert HIDING[..1] == [first] && [first][..0] == [];
    assert SeriesOf([first]) == map[key := multiset{} + multiset{-1}];
    assert multiset{} + multiset{-1} + multiset{1} == multiset{-1, 1};
  }

  /** A negative number hides a hole from the account, and the report shows it: two lines numbered -1 and 1
      make nothing missing, and 0 is a hole. */
  lemma NegativeHidesHole(a: Account)
    requires IsAccount(HIDING, a)
    ensures a.Missing() == 0 && a.duplicates == 0
    ensures Reported(SeriesOf(HIDING), SERVICES, Holes([ENGINE_SERVICE, "1"], {0}))
  {
    HidingSeries();
    var m, key := multiset{-1, 1}, [ENGINE_SERVICE, "1"];
    var series := SeriesOf(HIDING);
    assert IsTop(m, 1) && Distinct(m) == {-1, 1};
    AssignedIsNext(m, 1);
    hide SeriesOf, KeyOf, HIDING, Assigned, Received, Repeats;
    TotalRemove(series, Assigned, key);
    TotalRemove(series, Received, key);
    TotalRemove(series, Repeats, key);
    assert series - {key} == map[];
    TotalOfNone(Assigned);
    TotalOfNone(Received);
    TotalOfNone(Repeats);
    assert Assigned(m) == 2;
    assert Received(m) == 2 && Repeats(m) == 0 by { PairCounts(); }
    assert -1 in m && 1 in m && 0 !in m && IsGap(m, 0);
    assert forall n :: n in {0} <==> IsGap(m, n);
    assert ENGINE_SERVICE in SERVICES;
  }

  lemma PairCounts()
    ensures Received(multiset{-1, 1}) == 2 && Repeats(multiset{-1, 1}) == 0
  {
    assert Distinct(multiset{-1, 1}) == {-1, 1};
  }
}
