/**
 * The orchestrator as it runs: the disk, the shared registry of running
 * builds, each worker process's one-shot logger initialisation, the
 * per-repository task and the driver that submits, collects and reports.
 * Every method is proved to leave the state `CodeBuilderSpec` describes;
 * the properties of that state are proved there.
 */
module CodeBuilder {
  import opened Wrappers
  import opened Text
  import opened FileTree
  import opened CodeBuilderSpec

  /** The directories `build_projects` creates and the tasks use, with their contents. */
  class Disk {
    var dirs: Dirs

    constructor (dirs: Dirs)
      ensures this.dirs == dirs
    {
      this.dirs := dirs;
    }
  }

  /** The shared dictionary of running builds: which process builds what, and how many builds are left. */
  class Registry {
    var current: map<string, (nat, string)>
    var buildsLeft: int

    constructor (projectsCount: nat)
      ensures current == map[] && buildsLeft == projectsCount
    {
      current := map[];
      buildsLeft := projectsCount;
    }

    function Shared(dirs: Dirs): Shared
      reads this
    {
      CodeBuilderSpec.Shared(current, buildsLeft, dirs)
    }
  }

  /** One log stream of a process, with the project count its progress counter runs to. */
  datatype Sink = Sink(pid: nat, stream: string, counter: nat)

  datatype Loggers = Loggers(stdout: Sink, stderr: Sink)

  /** What every task is handed: the project count and the loggers attached to it. */
  class Context {
    const projectsCount: nat
    var outLog: Option<Sink>
    var errLog: Option<Sink>

    constructor (projectsCount: nat)
      ensures this.projectsCount == projectsCount && outLog == None && errLog == None
    {
      this.projectsCount := projectsCount;
      outLog := None;
      errLog := None;
    }

    method SetLoggers(out: Sink, err: Sink)
      modifies this`outLog, this`errLog
      ensures outLog == Some(out) && errLog == Some(err)
    {
      outLog := Some(out);
      errLog := Some(err);
    }
  }

  /** A pool process: its module-level `init` flag and `loggers`, and how often it opened log files. */
  class Worker {
    const pid: nat
    const name: string
    var init: bool
    var loggers: Option<Loggers>
    ghost var openCount: nat

    /** The flag is set exactly when the loggers exist, and the files were opened once then. */
    ghost predicate Valid()
      reads this
    {
      (init <==> loggers.Some?) && openCount == (if init then 1 else 0)
    }

    constructor (pid: nat, name: string)
      ensures this.pid == pid && this.name == name && Valid() && !init
    {
      this.pid := pid;
      this.name := name;
      init := false;
      loggers := None;
      openCount := 0;
    }

    /**
     * `initializer_func`'s set-up: the first call in a process opens the log
     * files and sets their counters; every call attaches the process's
     * loggers to the context.
     */
    method Initialize(ctx: Context)
      requires Valid()
      modifies this`init, this`loggers, this`openCount, ctx`outLog, ctx`errLog
      ensures Valid() && init && loggers.Some?
      ensures old(init) ==> loggers == old(loggers) && openCount == old(openCount)
      ensures !old(init) ==> loggers == Some(Loggers(Sink(pid, "stdout", ctx.projectsCount), Sink(pid, "stderr", ctx.projectsCount)))
      ensures ctx.outLog == Some(loggers.value.stdout) && ctx.errLog == Some(loggers.value.stderr)
    {
      if !init {
        init := true;
        loggers := Some(Loggers(Sink(pid, "stdout", 0), Sink(pid, "stderr", 0)));
        openCount := openCount + 1;
        loggers := Some(Loggers(loggers.value.stdout.(counter := ctx.projectsCount),
                                loggers.value.stderr.(counter := ctx.projectsCount)));
      }
      ctx.SetLoggers(loggers.value.stdout, loggers.value.stderr);
    }
  }

  /** `get_dir_size`: a top-down walk, directory by directory, counting the regular files and their sizes. */
  method GetDirSize(disk: Disk, path: string) returns (size: nat, count: nat)
    ensures Usage(size, count) == DirUsage(disk.dirs, path)
  {
    size, count := 0, 0;
    if path in disk.dirs {
      size, count := Walk(disk.dirs[path]);
    }
  }

  /**
   * The walk below one directory listing: each regular file adds its size and
   * one to the count, links add nothing, and each sub-directory is walked in
   * turn.
   */
  method Walk(listing: seq<Entry>) returns (size: nat, count: nat)
    ensures Usage(size, count) == UsageOf(listing)
    decreases listing
  {
    size, count := 0, 0;
    var j := 0;
    while j < |listing|
      invariant 0 <= j <= |listing|
      invariant size + UsageOf(listing[j..]).bytes == UsageOf(listing).bytes
      invariant count + UsageOf(listing[j..]).files == UsageOf(listing).files
    {
      ghost var tail := listing[j..];
      assert tail[0] == listing[j] && tail[1..] == listing[j + 1..];
      assert UsageOf(tail) == Plus(HeadUsage(tail), UsageOf(listing[j + 1..]));
      match listing[j] {
        case File(_, sz) =>
          size, count := size + sz, count + 1;
        case Dir(_, children) =>
          var bytes, files := Walk(children);
          size, count := size + bytes, count + files;
        case Link(_, _) =>
      }
      j := j + 1;
    }
    assert listing[j..] == [];
    assert UsageOf(listing) == Usage(UsageOf(listing).bytes, UsageOf(listing).files);
  }

  /** The retention loop over a build directory: directories removed, links to directories left (their removal fails quietly), other entries removed unless their name is kept. */
  method RetainBuildFiles(disk: Disk, path: string)
    requires path in disk.dirs
    modifies disk`dirs
    ensures disk.dirs == old(disk.dirs)[path := Retained(old(disk.dirs)[path])]
  {
    ghost var base := disk.dirs;
    var listing := disk.dirs[path];
    var kept: seq<Entry> := [];
    var i := 0;
    assert kept + listing[i..] == listing;
    while i < |listing|
      invariant 0 <= i <= |listing|
      invariant kept == Retained(listing[..i])
      invariant disk.dirs == base[path := kept + listing[i..]]
    {
      RetainStep(listing, i);
      assert listing[i..][1..] == listing[i + 1..];
      kept := RetainEntry(disk, path, kept, listing[i..], base);
      i := i + 1;
    }
    assert listing[..i] == listing && listing[i..] == [] && kept + [] == kept;
  }

  /** One entry of the build directory: a directory is removed, a link to a directory is left, anything else is removed unless its name is kept. */
  method RetainEntry(disk: Disk, path: string, kept: seq<Entry>, todo: seq<Entry>, ghost base: Dirs) returns (kept2: seq<Entry>)
    requires |todo| > 0 && disk.dirs == base[path := kept + todo]
    modifies disk`dirs
    ensures kept2 == kept + (if Survives(todo[0]) then [todo[0]] else [])
    ensures disk.dirs == base[path := kept2 + todo[1..]]
  {
    var e := todo[0];
    kept2 := kept;
    if e.Dir? || (e.Link? && e.target == ToDir) {
      if e.Link? {
        kept2 := kept + [e];
      }
    } else if KeepsName(e.name) {
      kept2 := kept + [e];
    }
    disk.dirs := disk.dirs[path := kept2 + todo[1..]];
  }

  /** The retained prefix grows by the next entry exactly when it survives. */
  lemma RetainStep(listing: seq<Entry>, i: nat)
    requires i < |listing|
    ensures Retained(listing[..i + 1]) == Retained(listing[..i]) + (if Survives(listing[i]) then [listing[i]] else [])
  {
    RetainedAppend(listing[..i], [listing[i]]);
    assert listing[..i + 1] == listing[..i] + [listing[i]];
    assert Retained([listing[i]]) == (if Survives(listing[i]) then [listing[i]] else []) + Retained([]);
  }

  /** `download_and_build` for one submission, run by `worker`. */
  method DownloadAndBuild(site: Site, cloner: Cloner, s: Submission, worker: Worker, ctx: Context,
                          registry: Registry, disk: Disk) returns (r: TaskResult)
    modifies registry, disk, ctx`outLog, ctx`errLog
    ensures (r, registry.Shared(disk.dirs)) == TaskSpec(site, worker.name, worker.loggers.Some?, cloner, s, old(registry.Shared(disk.dirs)))
  {
    registry.current := registry.current[worker.name := (s.idx, s.name)];
    if worker.loggers.None? {
      return Raised;
    }
    ctx.SetLoggers(worker.loggers.value.stdout, worker.loggers.value.stderr);
    var cloned := cloner(s.idx, s.name, s.rec, disk.dirs);
    disk.dirs := cloned.dirs;
    if cloned.CloneRaised? {
      return Done(s.idx, s.name, cloned.rec.(status := Some("clone fail")));
    }
    r := Finish(site, worker.name, s.idx, s.name, cloned.rec, registry, disk);
  }

  /** The task after a successful clone: dispatch, size accounting, clean-up, then the registry pop and decrement. */
  method Finish(site: Site, procName: string, idx: nat, name: string, rec: Repo, registry: Registry, disk: Disk)
    returns (r: TaskResult)
    modifies registry, disk
    ensures (r, registry.Shared(disk.dirs)) == AfterClone(site, procName, idx, name, rec, old(registry.Shared(disk.dirs)))
  {
    var built := site.builder(idx, name, rec, disk.dirs);
    disk.dirs := built.dirs;
    var idx2, name2 := idx, name;
    var project := Dispatched(built);
    var returned: Option<Repo> := None;
    if built.Built? {
      idx2, name2, returned := built.idx, built.name, built.returned;
    }
    var measured := Measure(disk, project);
    if measured.None? {
      return Raised;
    }
    project := measured.value;
    var cleaned := CleanUp(site, project, disk);
    if !cleaned {
      return Raised;
    }
    registry.current := registry.current - {procName};
    registry.buildsLeft := registry.buildsLeft - 1;
    return Done(idx2, name2, if returned.None? then project else returned.value);
  }

  /** Size accounting: the build directory's sizes when the record names one, then the source directory's, whose missing `dir` raises (`None`). */
  method Measure(disk: Disk, rec: Repo) returns (m: Option<Repo>)
    ensures m == Measured(rec, disk.dirs)
  {
    var project := rec;
    if project.build.Some? && project.build.value.dir.Some? {
      var size, count := GetDirSize(disk, project.build.value.dir.value);
      project := project.(build := Some(WithUsage(project.build.value, Usage(size, count))));
    }
    if project.source.Some? {
      if project.source.value.dir.None? {
        return None;
      }
      var size, count := GetDirSize(disk, project.source.value.dir.value);
      project := project.(source := Some(WithUsage(project.source.value, Usage(size, count))));
    }
    return Some(project);
  }

  /**
   * Retention, then source deletion, each raising (`false`) when the record
   * has no source directory; a raise leaves what was already done.
   */
  method CleanUp(site: Site, rec: Repo, disk: Disk) returns (ok: bool)
    modifies disk`dirs
    ensures var retained := Retain(old(disk.dirs), rec, site.cfg, site.buildRoot);
      && (retained.None? ==> !ok && disk.dirs == old(disk.dirs))
      && (retained.Some? ==>
            var dropped := DropSource(retained.value, rec, site.cfg);
            ok == dropped.Some? && disk.dirs == if ok then dropped.value else retained.value)
  {
    if site.cfg.keepBuildFiles == "False" {
      if rec.source.None? || rec.source.value.dir.None? {
        return false;
      }
      var projBuildDir := ProjectBuildDir(site.buildRoot, rec.source.value.dir.value);
      if projBuildDir in disk.dirs {
        RetainBuildFiles(disk, projBuildDir);
      }
    }
    if site.cfg.keepSourceFiles == "False" {
      if rec.source.None? || rec.source.value.dir.None? {
        return false;
      }
      disk.dirs := disk.dirs - {rec.source.value.dir.value};
    }
    return true;
  }

  /** A directory created when missing. */
  function MadeDir(dirs: Dirs, path: string): Dirs {
    if path in dirs then dirs else dirs[path := []]
  }

  /** What the run reports: the checkpoint, one statistics update per entry in table order, then the details. */
  datatype Event = Checkpoint(table: Table) | StatsUpdate(name: string, rec: Repo) | Details(table: Table)

  function Report(t: Table): (events: seq<Event>)
    ensures |events| == |t| + 2 && events[0] == Checkpoint(t) && events[|t| + 1] == Details(t)
    ensures forall i :: 0 <= i < |t| ==> events[i + 1] == StatsUpdate(t[i].0, t[i].1)
  {
    [Checkpoint(t)] + seq(|t|, i requires 0 <= i < |t| => StatsUpdate(t[i].0, t[i].1)) + [Details(t)]
  }

  /** `projects_count`: the number of repositories over all databases. */
  method CountProjects(dbs: seq<Db>) returns (count: nat)
    ensures count == Total(dbs)
  {
    count := 0;
    var i := 0;
    while i < |dbs|
      invariant 0 <= i <= |dbs|
      invariant count == Total(dbs[..i])
    {
      TotalAppend(dbs[..i], [dbs[i]]);
      assert dbs[..i + 1] == dbs[..i] + [dbs[i]];
      assert Total([dbs[i]]) == |dbs[i].repos| + Total([]);
      count := count + |dbs[i].repos|;
      i := i + 1;
    }
    assert dbs[..i] == dbs;
  }

  /** A directory made when missing. */
  method MakeDir(disk: Disk, path: string)
    modifies disk`dirs
    ensures path in disk.dirs && disk.dirs == MadeDir(old(disk.dirs), path)
  {
    if path !in disk.dirs {
      disk.dirs := disk.dirs[path := []];
    }
  }

  /** Every process of the pool is consistent and carries the name the pool gave it. */
  ghost predicate Ready(pool: seq<Worker>, processName: nat -> string)
    reads pool
  {
    forall k :: 0 <= k < |pool| ==> pool[k].Valid() && pool[k].name == processName(k)
  }

  /** The pool's processes, fresh and not yet initialised. */
  method StartPool(threads: nat, processName: nat -> string) returns (pool: seq<Worker>)
    ensures |pool| == threads && Ready(pool, processName)
    ensures forall k :: 0 <= k < |pool| ==> fresh(pool[k]) && !pool[k].init
  {
    pool := [];
    while |pool| < threads
      invariant |pool| <= threads && Ready(pool, processName)
      invariant forall k :: 0 <= k < |pool| ==> fresh(pool[k]) && !pool[k].init
    {
      var w := new Worker(|pool|, processName(|pool|));
      pool := pool + [w];
    }
  }

  /** One submitted task: the process the pool picks runs the initialiser, then the task. */
  method RunTask(site: Site, cloners: string -> Cloner, processName: nat -> string, slot: nat -> nat,
                 pool: seq<Worker>, ctx: Context, registry: Registry, disk: Disk, sub: Submission)
    returns (r: TaskResult)
    requires |pool| > 0 && Ready(pool, processName)
    modifies registry, disk, ctx`outLog, ctx`errLog, pool
    ensures Ready(pool, processName)
    ensures (r, registry.Shared(disk.dirs))
         == TaskSpec(site, ProcessFor(processName, slot, |pool|, sub.idx), true, cloners(sub.db), sub, old(registry.Shared(disk.dirs)))
  {
    var w := pool[slot(sub.idx) % |pool|];
    w.Initialize(ctx);
    r := DownloadAndBuild(site, cloners(sub.db), sub, w, ctx, registry, disk);
  }

  /** One submission appended to the run. */
  method Submit(site: Site, cloners: string -> Cloner, processName: nat -> string, slot: nat -> nat,
                pool: seq<Worker>, ctx: Context, registry: Registry, disk: Disk, sub: Submission,
                results0: seq<TaskResult>, ghost popped0: nat)
    returns (results: seq<TaskResult>, ghost popped: nat)
    requires |pool| > 0 && Ready(pool, processName)
    modifies registry, disk, ctx`outLog, ctx`errLog, pool
    ensures Ready(pool, processName)
    ensures Run(results, registry.Shared(disk.dirs), popped)
         == Step(site, cloners, ProcessFor(processName, slot, |pool|, sub.idx), sub, Run(results0, old(registry.Shared(disk.dirs)), popped0))
  {
    ghost var before := registry.Shared(disk.dirs);
    var r := RunTask(site, cloners, processName, slot, pool, ctx, registry, disk, sub);
    popped := popped0 + if Pops(site, ProcessFor(processName, slot, |pool|, sub.idx), true, cloners(sub.db), sub, before) then 1 else 0;
    results := results0 + [r];
  }

  /** The run from submission `k` on is the step for submission `k` followed by the rest. */
  lemma RunAllStep(site: Site, cloners: string -> Cloner, processName: nat -> string, slot: nat -> nat, pool: nat,
                   subs: seq<Submission>, k: nat, s: Submission, run: Run)
    requires pool > 0 && k < |subs| && subs[k] == s
    ensures RunAll(site, cloners, processName, slot, pool, subs[k..], run)
         == RunAll(site, cloners, processName, slot, pool, subs[k + 1..],
                   Step(site, cloners, ProcessFor(processName, slot, pool, s.idx), s, run))
  {
    assert subs[k..][0] == subs[k] && subs[k..][1..] == subs[k + 1..];
  }

  /** The run from the `i`-th database's first submission on is that database's batch followed by the rest. */
  lemma RunDb(site: Site, cloners: string -> Cloner, processName: nat -> string, slot: nat -> nat, pool: nat,
              dbs: seq<Db>, i: nat, run: Run)
    requires pool > 0 && i < |dbs|
    ensures Total(dbs[..i + 1]) == Total(dbs[..i]) + |dbs[i].repos| <= |Submissions(dbs, 0)|
    ensures RunAll(site, cloners, processName, slot, pool, Submissions(dbs, 0)[Total(dbs[..i])..], run)
         == RunAll(site, cloners, processName, slot, pool, Submissions(dbs, 0)[Total(dbs[..i + 1])..],
                   RunAll(site, cloners, processName, slot, pool, DbSubmissions(dbs[i], Total(dbs[..i])), run))
  {
    SubmissionsSplit(dbs, i);
    TotalAppend(dbs[..i], [dbs[i]]);
    assert dbs[..i + 1] == dbs[..i] + [dbs[i]];
    assert Total([dbs[i]]) == |dbs[i].repos| + Total([]);
    RunAllAppend(site, cloners, processName, slot, pool, DbSubmissions(dbs[i], Total(dbs[..i])),
                 Submissions(dbs, 0)[Total(dbs[..i + 1])..], run);
  }

  /**
   * The submission loops: database by database, with the index counting up
   * from zero; here each task runs as it is submitted.
   */
  method SubmitAll(dbs: seq<Db>, cloners: string -> Cloner, site: Site, processName: nat -> string, slot: nat -> nat,
                   pool: seq<Worker>, ctx: Context, registry: Registry, disk: Disk)
    returns (results: seq<TaskResult>, ghost popped: nat)
    requires |pool| > 0 && Ready(pool, processName)
    modifies registry, disk, ctx`outLog, ctx`errLog, pool
    ensures Run(results, registry.Shared(disk.dirs), popped)
         == RunAll(site, cloners, processName, slot, |pool|, Submissions(dbs, 0), Run([], old(registry.Shared(disk.dirs)), 0))
  {
    ghost var subs := Submissions(dbs, 0);
    ghost var total := RunAll(site, cloners, processName, slot, |pool|, subs, Run([], registry.Shared(disk.dirs), 0));
    SubmissionsIndexed(dbs, 0);
    results, popped := [], 0;
    var idx := 0;
    var i := 0;
    assert dbs[..0] == [];
    while i < |dbs|
      invariant 0 <= i <= |dbs| && idx == Total(dbs[..i]) && idx <= |subs|
      invariant Ready(pool, processName)
      invariant total == RunAll(site, cloners, processName, slot, |pool|, subs[idx..], Run(results, registry.Shared(disk.dirs), popped))
    {
      RunDb(site, cloners, processName, slot, |pool|, dbs, i, Run(results, registry.Shared(disk.dirs), popped));
      results, popped := SubmitDb(dbs[i], idx, cloners, site, processName, slot, pool, ctx, registry, disk, results, popped);
      idx := idx + |dbs[i].repos|;
      i := i + 1;
    }
    assert dbs[..i] == dbs;
    assert subs[idx..] == [];
  }

  /** One database's repositories submitted in order, numbered from `start`. */
  method SubmitDb(db: Db, start: nat, cloners: string -> Cloner, site: Site, processName: nat -> string, slot: nat -> nat,
                  pool: seq<Worker>, ctx: Context, registry: Registry, disk: Disk, results0: seq<TaskResult>, ghost popped0: nat)
    returns (results: seq<TaskResult>, ghost popped: nat)
    requires |pool| > 0 && Ready(pool, processName)
    modifies registry, disk, ctx`outLog, ctx`errLog, pool
    ensures Ready(pool, processName)
    ensures Run(results, registry.Shared(disk.dirs), popped)
         == RunAll(site, cloners, processName, slot, |pool|, DbSubmissions(db, start), Run(results0, old(registry.Shared(disk.dirs)), popped0))
  {
    ghost var subs := DbSubmissions(db, start);
    ghost var total := RunAll(site, cloners, processName, slot, |pool|, subs, Run(results0, registry.Shared(disk.dirs), popped0));
    results, popped := results0, popped0;
    var idx := start;
    var j := 0;
    while j < |db.repos|
      invariant 0 <= j <= |db.repos| && idx == start + j
      invariant Ready(pool, processName)
      invariant total == RunAll(site, cloners, processName, slot, |pool|, subs[j..], Run(results, registry.Shared(disk.dirs), popped))
    {
      var sub := Submission(db.name, idx, db.repos[j].0, db.repos[j].1);
      ghost var run := Run(results, registry.Shared(disk.dirs), popped);
      RunAllStep(site, cloners, processName, slot, |pool|, subs, j, sub, run);
      results, popped := Submit(site, cloners, processName, slot, pool, ctx, registry, disk, sub, results, popped);
      idx := idx + 1;
      j := j + 1;
    }
    assert subs[j..] == [];
  }

  /** Reading the results in submission order into the dictionary; the first raised result propagates. */
  method CollectResults(results: seq<TaskResult>) returns (ok: bool, table: Table)
    ensures ok <==> Collect([], results).Some?
    ensures ok ==> table == Collect([], results).value
  {
    table := [];
    var k := 0;
    while k < |results|
      invariant 0 <= k <= |results| && Distinct(KeysOf(table))
      invariant Collect([], results) == Collect(table, results[k..])
    {
      assert results[k..][0] == results[k] && results[k..][1..] == results[k + 1..];
      if results[k].Raised? {
        return false, table;
      }
      table := Put(table, results[k].name, results[k].rec);
      k := k + 1;
    }
    assert results[k..] == [];
    return true, table;
  }

  /** The checkpoint, then one statistics update per entry in table order, then the details. */
  method ReportTable(table: Table) returns (events: seq<Event>)
    ensures events == Report(table)
  {
    events := [Checkpoint(table)];
    var e := 0;
    while e < |table|
      invariant 0 <= e <= |table| && |events| == e + 1 && events[0] == Checkpoint(table)
      invariant forall n :: 0 <= n < e ==> events[n + 1] == StatsUpdate(table[n].0, table[n].1)
    {
      events := events + [StatsUpdate(table[e].0, table[e].1)];
      e := e + 1;
    }
    events := events + [Details(table)];
  }

  /** The pool size: the configured thread count when cloning is multithreaded, one otherwise. */
  function ThreadsCount(multithreaded: bool, threads: int): int {
    if multithreaded then threads else 1
  }

  /**
   * `build_projects`: make the three directories, count the repositories,
   * run one task per repository, read the results in submission order into
   * the table, then report. A pool size below one raises before any task.
   */
  method BuildProjects(dbs: seq<Db>, cloners: string -> Cloner, site: Site, sourceDir: string, targetDir: string,
                       multithreaded: bool, threads: int, processName: nat -> string, slot: nat -> nat, disk: Disk)
    returns (ok: bool, registry: Registry, results: seq<TaskResult>, table: Table, events: seq<Event>)
    modifies disk
    ensures fresh(registry)
    ensures var pool := ThreadsCount(multithreaded, threads);
      var sh0 := CodeBuilderSpec.Shared(map[], Total(dbs),
                   MadeDir(MadeDir(MadeDir(old(disk.dirs), sourceDir), site.buildRoot), targetDir));
      && (pool <= 0 ==> !ok && results == [] && registry.Shared(disk.dirs) == sh0)
      && (pool > 0 ==>
            var out := RunAll(site, cloners, processName, slot, pool, Submissions(dbs, 0), Run([], sh0, 0));
            results == out.results && registry.Shared(disk.dirs) == out.sh)
    ensures ok <==> ThreadsCount(multithreaded, threads) > 0 && Collect([], results).Some?
    ensures ok ==> table == Collect([], results).value && events == Report(table)
    ensures !ok ==> events == []
  {
    MakeDir(disk, sourceDir);
    MakeDir(disk, site.buildRoot);
    MakeDir(disk, targetDir);
    var projectsCount := CountProjects(dbs);
    var threadsCount := ThreadsCount(multithreaded, threads);
    var ctx := new Context(projectsCount);
    registry := new Registry(projectsCount);
    results, table, events := [], [], [];
    if threadsCount <= 0 {
      return false, registry, results, table, events;
    }
    var pool := StartPool(threadsCount, processName);
    ghost var popped;
    results, popped := SubmitAll(dbs, cloners, site, processName, slot, pool, ctx, registry, disk);
    ok, table := CollectResults(results);
    if ok {
      events := ReportTable(table);
    }
  }
}
