/** The shipped migrations under the runner: each may be interrupted anywhere and run again
    (migrations/0001_initial_layout.py, 0002_grafana_data_owner.py and 0003_grafana_and_logs_layout.py). */
module Releases {
  import opened EnvValues
  import opened EnvFile
  import opened Migrate
  import M3 = Migration0003

  /** The .env and the data directories that exist. */
  datatype Site = Site(lines: seq<Line>, dirs: set<string>)

  /** Sites whose file list can be read back: one separator character, not in the name migration 0003 inserts. */
  ghost predicate Readable(s: Site) { M3.Separable(Read(s.lines)) }

  const DATA_DIR := "NEOPS_DATA_DIR"

  const SUBDIRS: set<string> := {
    "/cms/postgres", "/cms/media", "/cms/tmp", "/engine/postgres", "/keycloak/postgres", "/elasticsearch",
    "/traefik/acme", "/metrics/victoria", "/metrics/grafana", "/logs/victoria", "/secrets", "/secrets/jwt",
    "/secrets/tls", "/.neops"}

  /** data_dirs of the data directory the .env names. */
  function DataDirs(lines: seq<Line>): set<string>
  {
    set d | d in SUBDIRS :: Get(Read(lines), DATA_DIR, "./data") + d
  }

  function GrafanaDir(lines: seq<Line>): set<string> { {Get(Read(lines), DATA_DIR, "./data") + "/metrics/grafana"} }

  /** mkdir of each directory, one after another. */
  predicate MadeSome(before: Site, after: Site, dirs: set<string>)
  {
    after.lines == before.lines && before.dirs <= after.dirs <= before.dirs + dirs
  }

  const INITIAL_LAYOUT := Migration(
    "0001_initial_layout", true,
    (s: Site) => Site(s.lines, s.dirs + DataDirs(s.lines)),
    (s: Site, x: Site) => MadeSome(s, x, DataDirs(s.lines)))

  const GRAFANA_OWNER := Migration(
    "0002_grafana_data_owner", true,
    (s: Site) => Site(s.lines, s.dirs + GrafanaDir(s.lines)),
    (s: Site, x: Site) => MadeSome(s, x, GrafanaDir(s.lines)))

  function After0003(s: Site): Site { Site(M3.Migrate(s.lines).lines, s.dirs + DataDirs(s.lines)) }

  /** Killed or raised while making directories, or between two writes of the .env. */
  predicate Left0003(s: Site, x: Site)
  {
    MadeSome(s, x, DataDirs(s.lines)) || (M3.CrashOf(s.lines, x.lines) && x.dirs == s.dirs + DataDirs(s.lines))
  }

  const GRAFANA_AND_LOGS := Migration("0003_grafana_and_logs_layout", true, After0003, Left0003)

  const SHIPPED := [INITIAL_LAYOUT, GRAFANA_OWNER, GRAFANA_AND_LOGS]

  lemma DataDirUntouched()
    ensures forall s: M3.Step :: DATA_DIR !in M3.Touched(s)
  {
    assert DATA_DIR !in {M3.FILES, M3.OLD_CLASS, M3.LOG_CLASS, M3.LOG_BACKEND, M3.OLD_ENABLED, M3.ENABLED, M3.OLD_DAYS,
      M3.RETENTION};
  }

  lemma SameDataDirs(a: seq<Line>, b: seq<Line>)
    requires M3.Agree(Read(a), Read(b), DATA_DIR)
    ensures DataDirs(a) == DataDirs(b)
  {}

  /** An interrupted 0003 run again leaves the file and directories of one uninterrupted run. */
  lemma Resumes0003(s: Site, x: Site)
    requires Readable(s) && Left0003(s, x)
    ensures After0003(x) == After0003(s) && Readable(x)
  {
    hide Read, M3.Separable, M3.TraceSteps, M3.Migrate, DataDirs;
    if !MadeSome(s, x, DataDirs(s.lines)) {
      M3.CrashIdempotent(s.lines, x.lines);
      DataDirUntouched();
      if x.lines != s.lines {
        LoadIsCoherent(s.lines);
        M3.CrashKeepsKey(M3.Load(s.lines), M3.STEPS, x.lines, DATA_DIR);
        SameDataDirs(s.lines, x.lines);
      }
    }
  }

  lemma LoadIsCoherent(lines: seq<Line>)
    ensures Coherent(M3.Load(lines)) && M3.Load(lines).exists_
  {}

  lemma Repeats0003(s: Site)
    requires Readable(s)
    ensures After0003(After0003(s)) == After0003(s) && Readable(After0003(s))
  {
    hide Read, M3.Separable, M3.TraceSteps, M3.RunSteps, M3.AfterAll, DataDirs;
    var after := M3.Migrate(s.lines);
    LoadIsCoherent(s.lines);
    M3.MigratedForGood(s.lines);
    M3.StepsRead(M3.Load(s.lines), M3.STEPS);
    M3.StepsKeepSeparable(Read(s.lines), M3.STEPS);
    DataDirUntouched();
    M3.StepsKeepKey(Read(s.lines), M3.STEPS, DATA_DIR);
    ReloadsAs(after);
    SameDataDirs(s.lines, after.lines);
  }

  lemma ReloadsAs(c: Contents)
    requires Coherent(c) && c.exists_
    ensures M3.Load(c.lines) == c && Read(c.lines) == c.values
  {}

  lemma LayoutsResume(s: Site, x: Site, dirs: set<string>)
    requires Readable(s) && MadeSome(s, x, dirs)
    ensures Readable(x) && Site(x.lines, x.dirs + dirs) == Site(s.lines, s.dirs + dirs)
  {
    hide Read, M3.Separable;
  }

  ghost const OK: Site -> bool := (s: Site) => Readable(s)

  lemma LayoutResumable()
    ensures Resumable(INITIAL_LAYOUT, OK)
  {
    hide Readable, DataDirs;
    forall s, x | Readable(s) && INITIAL_LAYOUT.partial(s, x)
      ensures Readable(x) && INITIAL_LAYOUT.full(x) == INITIAL_LAYOUT.full(s)
    {
      LayoutsResume(s, x, DataDirs(s.lines));
    }
    forall s | Readable(s) ensures Readable(INITIAL_LAYOUT.full(s)) {
      LayoutsResume(s, INITIAL_LAYOUT.full(s), DataDirs(s.lines));
    }
  }

  lemma OwnerResumable()
    ensures Resumable(GRAFANA_OWNER, OK)
  {
    hide Readable, GrafanaDir;
    forall s, x | Readable(s) && GRAFANA_OWNER.partial(s, x)
      ensures Readable(x) && GRAFANA_OWNER.full(x) == GRAFANA_OWNER.full(s)
    {
      LayoutsResume(s, x, GrafanaDir(s.lines));
    }
    forall s | Readable(s) ensures Readable(GRAFANA_OWNER.full(s)) {
      LayoutsResume(s, GRAFANA_OWNER.full(s), GrafanaDir(s.lines));
    }
  }

  lemma LogsResumable()
    ensures Resumable(GRAFANA_AND_LOGS, OK)
  {
    hide Readable, After0003, Left0003;
    forall s, x | Readable(s) && Left0003(s, x) ensures Readable(x) && After0003(x) == After0003(s) {
      Resumes0003(s, x);
    }
    forall s | Readable(s) ensures Readable(After0003(s)) && After0003(After0003(s)) == After0003(s) {
      Repeats0003(s);
    }
  }

  /** The shipped migrations meet what the runner's crash theorem asks of a migration. */
  lemma ShippedAreResumable()
    ensures Distinct(Names(SHIPPED))
    ensures forall m :: m in SHIPPED ==> Resumable(m, OK)
  {
    hide Resumable;
    LayoutResumable();
    OwnerResumable();
    LogsResumable();
  }

  /** On a readable site, any number of runs of the shipped migrations, raising or killed at any write, followed by
      one that completes, leave the .env, the data directories, the record and the markers of one clean run. */
  lemma UpgradesSurviveInterruption(d: Disk<Site>, history: seq<seq<Fate<Site>>>)
    requires Readable(d.world) && history != [] && Fits(SHIPPED, d, history) && AllHonest(SHIPPED, d, history)
    requires Runs(SHIPPED, d, history).outcome == Finished
    ensures Runs(SHIPPED, d, history).disk == CleanRun(SHIPPED, d)
  {
    ShippedAreResumable();
    InterruptedThenCompleted(SHIPPED, OK, d, history);
  }
}
