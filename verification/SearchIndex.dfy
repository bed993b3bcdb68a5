/** Starting the stack and rebuilding the search index: what a recorded start promises about it
    (neops_compose/workflow.py:140-174 and 188-197, neops_compose/search_index.py:38-86,
    neops_compose/state.py:107-112). */
module SearchIndex {
  import opened Wrappers

  /** The image each service runs. */
  type Images = map<string, string>

  /** The images that own a rebuild; an absent service compares as absent. */
  datatype Owners = Owners(cms: Option<string>, elasticsearch: Option<string>)

  function OwnersOf(images: Images): Owners
  {
    Owners(if "cms" in images then Some(images["cms"]) else None,
           if "elasticsearch" in images then Some(images["elasticsearch"]) else None)
  }

  /** Which images the indices match: a rebuild that stopped half way matches none. */
  datatype Index = NoIndex | BuiltFor(owners: Owners) | HalfBuilt

  /** Indices that are there: a rebuild never leaves none. */
  type Indices = i: Index | !i.NoIndex? witness HalfBuilt

  datatype LastUp = LastUp(images: Images, doctorOk: bool)

  /** The state record and the indices. */
  datatype World = World(lastUp: Option<LastUp>, index: Index)

  /** Whether a core has `elastic_index --rebuild-if-stale`, whose own check is taken to be right. */
  type Cores = Owners -> bool

  function ImagesMoved(lastUp: Option<LastUp>, running: Images): bool
  {
    lastUp.Some? && OwnersOf(lastUp.value.images) != OwnersOf(running)
  }

  /** How a start ends. `created`: cms-init got to creating indices that were not there. */
  datatype Fate =
    | Blocked                               // by a check, a migration or the downgrade guard
    | NotStarted(created: bool)
    | RefreshFailed(left: Indices)          // asking core what it can do, or in the rebuild, which leaves `left`
    | NotSaved                              // killed before the state file was replaced
    | Recorded(doctor: Option<bool>)        // None: doctor raised or was killed

  function Created(index: Index, running: Images): Index
  {
    if index.NoIndex? then BuiltFor(OwnersOf(running)) else index
  }

  predicate Rebuilds(cores: Cores, lastUp: Option<LastUp>, running: Images)
  {
    cores(OwnersOf(running)) || ImagesMoved(lastUp, running)
  }

  /** One `up` or `install`. */
  function Start(cores: Cores, w: World, running: Images, fate: Fate): World
  {
    match fate
    case Blocked => w
    case NotStarted(created) => if created then w.(index := Created(w.index, running)) else w
    case RefreshFailed(left) =>
      if Rebuilds(cores, w.lastUp, running) then w.(index := left)
      else w.(index := Created(w.index, running))
    case NotSaved => w.(index := Refreshed(cores, w, running))
    case Recorded(doctor) => World(Some(LastUp(running, doctor == Some(true))), Refreshed(cores, w, running))
  }

  function Refreshed(cores: Cores, w: World, running: Images): Index
  {
    if Rebuilds(cores, w.lastUp, running) then BuiltFor(OwnersOf(running)) else Created(w.index, running)
  }

  datatype Error = Refused | StartFailed | IndexFailed | Killed | DoctorFailed

  class Stack {
    var lastUp: Option<LastUp>
    var index: Index

    function Now(): World
      reads this
    {
      World(lastUp, index)
    }

    constructor (w: World)
      ensures Now() == w
    {
      lastUp, index := w.lastUp, w.index;
    }

    /** `failing`: the refresh fails, and a rebuild it had begun leaves that. */
    method Refresh(cores: Cores, running: Images, failing: Option<Indices>) returns (ok: bool)
      modifies this
      ensures ok <==> failing.None?
      ensures lastUp == old(lastUp)
      ensures index == if !Rebuilds(cores, old(lastUp), running) then old(index)
                       else if failing.Some? then failing.value else BuiltFor(OwnersOf(running))
    {
      if cores(OwnersOf(running)) {
        if failing.Some? { index := failing.value; return false; }
        index := BuiltFor(OwnersOf(running));
      } else if ImagesMoved(lastUp, running) {
        if failing.Some? { index := failing.value; return false; }
        index := BuiltFor(OwnersOf(running));
      }
      return failing.None?;
    }

    method Up(cores: Cores, running: Images, fate: Fate) returns (error: Option<Error>)
      modifies this
      ensures Now() == Start(cores, old(Now()), running, fate)
      ensures error.None? <==> fate == Recorded(Some(true))
    {
      if fate.Blocked? { return Some(Refused); }
      if fate.NotStarted? {
        if fate.created && index.NoIndex? { index := BuiltFor(OwnersOf(running)); }
        return Some(StartFailed);
      }
      if index.NoIndex? { index := BuiltFor(OwnersOf(running)); }
      var refreshed := Refresh(cores, running, if fate.RefreshFailed? then Some(fate.left) else None);
      if !refreshed { return Some(IndexFailed); }
      if fate.NotSaved? { return Some(Killed); }
      lastUp := Some(LastUp(running, false));
      if fate.doctor != Some(true) { return Some(DoctorFailed); }
      lastUp := Some(lastUp.value.(doctorOk := true));
      return None;
    }
  }

  // ----- one start -----

  /** A start of `running`, if recorded, would leave the index built for it. */
  predicate Right(cores: Cores, w: World, owners: Owners)
  {
    || cores(owners)
    || (w.lastUp.Some? && OwnersOf(w.lastUp.value.images) != owners)
    || w.index == BuiltFor(owners)
    || w.index.NoIndex?
  }

  predicate Settled(w: World)
  {
    w.lastUp.Some? && w.index == BuiltFor(OwnersOf(w.lastUp.value.images))
  }

  lemma RecordedIsSettledIff(cores: Cores, w: World, running: Images, doctor: Option<bool>)
    ensures Settled(Start(cores, w, running, Recorded(doctor))) <==> Right(cores, w, OwnersOf(running))
    ensures var after := Start(cores, w, running, Recorded(doctor));
      after.lastUp.Some? && after.lastUp.value.images == running
  {
  }

  /** The record changes only with a recorded start, which writes its images down before doctor answers: the record
      says doctor was ok exactly when it answered so, and keeps the images whatever it answered. */
  lemma RecordIs(cores: Cores, w: World, running: Images, fate: Fate)
    ensures var after := Start(cores, w, running, fate).lastUp;
      after == if fate.Recorded? then Some(LastUp(running, fate.doctor.Some? && fate.doctor.value)) else w.lastUp
  {}

  /** The indices change only where a start gets that far: never by a blocked one, and by one that finds core content
      and the images unmoved only if there were none. */
  lemma IndexKeptIff(cores: Cores, w: World, running: Images, fate: Fate)
    requires !w.index.NoIndex? && !cores(OwnersOf(running))
    requires w.lastUp.None? || OwnersOf(w.lastUp.value.images) == OwnersOf(running)
    ensures Start(cores, w, running, fate).index == w.index
  {}

  /** After a settled start, or on a fresh install, any images may come next. */
  lemma SettledIsRightForAll(cores: Cores, w: World, owners: Owners)
    requires Settled(w) || w == World(None, NoIndex)
    ensures Right(cores, w, owners)
  {
  }

  /** A start that fails leaves the index such that the same images still come out right. */
  lemma RetryIsRight(cores: Cores, w: World, running: Images, fate: Fate)
    requires Right(cores, w, OwnersOf(running)) && !fate.Recorded?
    requires w.index.NoIndex? ==> w.lastUp.None?
    ensures var after := Start(cores, w, running, fate);
      Right(cores, after, OwnersOf(running)) && after.lastUp == w.lastUp
  {
  }

  // ----- runs -----

  datatype Event = Started(running: Images, fate: Fate) | Purged

  function Run(cores: Cores, w: World, events: seq<Event>): World
  {
    if events == [] then w
    else
      var before := Run(cores, w, events[..|events| - 1]);
      match events[|events| - 1]
      case Started(running, fate) => Start(cores, before, running, fate)
      case Purged => World(None, NoIndex)
  }

  /** The images of a start that got past the checks but was not recorded, and not made good since. */
  function Unrecorded(events: seq<Event>): Option<Owners>
  {
    if events == [] then None
    else
      match events[|events| - 1]
      case Started(running, fate) =>
        if fate.Blocked? then Unrecorded(events[..|events| - 1])
        else if fate.Recorded? then None
        else Some(OwnersOf(running))
      case Purged => None
  }

  /** A start that failed before being recorded is retried with the same cms and elasticsearch images. */
  predicate Retried(events: seq<Event>)
  {
    events == [] ||
    var init, last := events[..|events| - 1], events[|events| - 1];
    && Retried(init)
    && (last.Started? && !last.fate.Blocked? && Unrecorded(init).Some? ==>
      Unrecorded(init) == Some(OwnersOf(last.running)))
  }

  predicate Recoverable(cores: Cores, w: World, unrecorded: Option<Owners>)
  {
    && (w.index.NoIndex? ==> w.lastUp.None?)
    && (if unrecorded.None? then Settled(w) || w == World(None, NoIndex) else Right(cores, w, unrecorded.value))
  }

  lemma {:induction false} RunsStayRecoverable(cores: Cores, w: World, events: seq<Event>)
    requires Retried(events) && Recoverable(cores, w, None)
    ensures Recoverable(cores, Run(cores, w, events), Unrecorded(events))
  {
    if events != [] {
      var init, last := events[..|events| - 1], events[|events| - 1];
      RunsStayRecoverable(cores, w, init);
      var before := Run(cores, w, init);
      if last.Started? && Unrecorded(init).None? {
        SettledIsRightForAll(cores, before, OwnersOf(last.running));
      }
      if last.Started? && !last.fate.Recorded? && !last.fate.Blocked? {
        RetryIsRight(cores, before, last.running, last.fate);
      }
    }
  }

  /** Over any run of starts, blocked, failed, killed or recorded, in which failures are retried: whenever
      a start is recorded the index is built for the recorded images, whatever doctor answers. */
  lemma {:induction false} RecordedStartsAreSettled(cores: Cores, w: World, events: seq<Event>, running: Images,
      doctor: Option<bool>)
    requires Recoverable(cores, w, None)
    requires Retried(events + [Started(running, Recorded(doctor))])
    ensures var after := Run(cores, w, events + [Started(running, Recorded(doctor))]);
      Settled(after) && after.lastUp.value.images == running
  {
    var all := events + [Started(running, Recorded(doctor))];
    assert all[..|all| - 1] == events;
    RunsStayRecoverable(cores, w, events);
    RecordedIsSettledIff(cores, Run(cores, w, events), running, doctor);
  }

  /** Without the retry: a rebuild for a new release stops half way, the operator goes back to the release
      before it, nothing has moved by the record, and that start is recorded over the half-built index. */
  lemma GoingBackIsUnsettled()
    ensures var a: Images := map["cms" := "core:1", "elasticsearch" := "es:8"];
      var b: Images := a["cms" := "core:2"];
      var w := World(Some(LastUp(a, true)), BuiltFor(OwnersOf(a)));
      var old_core: Cores := _ => false;
      Settled(w)
      && var after := Run(old_core, w, [Started(b, RefreshFailed(HalfBuilt)), Started(a, Recorded(Some(true)))]);
      after.lastUp == w.lastUp && after.index == HalfBuilt
  {
    var a: Images := map["cms" := "core:1", "elasticsearch" := "es:8"];
    var b: Images := a["cms" := "core:2"];
    var w := World(Some(LastUp(a, true)), BuiltFor(OwnersOf(a)));
    var old_core: Cores := _ => false;
    var events := [Started(b, RefreshFailed(HalfBuilt)), Started(a, Recorded(Some(true)))];
    assert events[..1] == [events[0]] && events[..1][..0] == [];
    assert "core:1"[5] != "core:2"[5];
    var mid := Run(old_core, w, [events[0]]);
    assert Run(old_core, w, []) == w;
    assert mid == World(w.lastUp, HalfBuilt);
  }
}
