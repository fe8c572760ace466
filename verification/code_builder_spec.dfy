/**
 * The meaning of the per-repository task and of the orchestrator's
 * bookkeeping, as functions: the task's status transitions, size accounting
 * and retention over an abstract disk; index assignment, the builds-left
 * counter and the name-keyed aggregation of results.
 */
module CodeBuilderSpec {
  import opened Wrappers
  import opened Text
  import opened FileTree

  /** The size fields of a `build` or `source` sub-record; `None` is an absent key. */
  datatype Sized = Sized(dir: Option<string>, fileCount: Option<nat>, size: Option<nat>)

  /** A repository record: its status and its `build` and `source` sub-records, each possibly absent. */
  datatype Repo = Repo(status: Option<string>, build: Option<Sized>, source: Option<Sized>)

  /** The directories `build_projects` creates and the tasks use, by path, with their content trees. */
  type Dirs = map<string, seq<Entry>>

  /** What cloning did to the record and the disk, also when it raised part-way. */
  datatype Cloned = Cloned(rec: Repo, dirs: Dirs) | CloneRaised(rec: Repo, dirs: Dirs)

  /** The repository database's clone step for one repository. */
  type Cloner = (nat, string, Repo, Dirs) -> Cloned

  /**
   * What build-system dispatch did: on return, the index, name and record it
   * hands back (`returned` is `None` when that record is the caller's own
   * object, which it changed into `rec`); on a raise, the caller's record as
   * far as it was changed.
   */
  datatype Built =
    | Built(idx: nat, name: string, rec: Repo, returned: Option<Repo>, dirs: Dirs)
    | BuildRaised(rec: Repo, dirs: Dirs)

  type Builder = (nat, string, Repo, Dirs) -> Built

  /** The two retention switches, compared as the literal strings the configuration holds. */
  datatype Config = Config(keepBuildFiles: string, keepSourceFiles: string)

  /** What stays fixed across the run: the dispatcher, the configuration and the build root. */
  datatype Site = Site(builder: Builder, cfg: Config, buildRoot: string)

  /** A task either returns its `(idx, name, record)` triple or raises. */
  datatype TaskResult = Done(idx: nat, name: string, rec: Repo) | Raised

  /** One submitted task: its database, index, repository name and record. */
  datatype Submission = Submission(db: string, idx: nat, name: string, rec: Repo)

  /** The shared registry and the disk after a task. */
  datatype Shared = Shared(current: map<string, (nat, string)>, left: int, dirs: Dirs)

  // ----------------------------------------------------------------- sizes

  /** `get_dir_size`: the usage of a named directory; a path the walk cannot enter gives nothing. */
  function DirUsage(dirs: Dirs, path: string): (u: Usage)
    ensures path !in dirs ==> u == Usage(0, 0)
    ensures path in dirs ==> u == Usage(Sum(FileSizes(dirs[path])), |FileSizes(dirs[path])|)
  {
    if path in dirs then
      UsageIsFileTotal(dirs[path]);
      UsageOf(dirs[path])
    else Usage(0, 0)
  }

  function WithUsage(s: Sized, u: Usage): Sized {
    s.(fileCount := Some(u.files), size := Some(u.bytes))
  }

  /**
   * Size accounting: the build sizes when the build record names a
   * directory, then the source sizes when there is a source record, whose
   * missing `dir` raises (`None`).
   */
  function Measured(rec: Repo, dirs: Dirs): Option<Repo> {
    var withBuild :=
      if rec.build.Some? && rec.build.value.dir.Some?
      then rec.(build := Some(WithUsage(rec.build.value, DirUsage(dirs, rec.build.value.dir.value))))
      else rec;
    if withBuild.source.None? then Some(withBuild)
    else if withBuild.source.value.dir.None? then None
    else Some(withBuild.(source := Some(WithUsage(withBuild.source.value, DirUsage(dirs, withBuild.source.value.dir.value)))))
  }

  /** Size fields are written only where a directory is named, and nothing else in the record changes. */
  lemma MeasuredFields(rec: Repo, dirs: Dirs)
    ensures var m := Measured(rec, dirs);
      && (m.None? <==> rec.source.Some? && rec.source.value.dir.None?)
      && (m.Some? ==>
            && m.value.status == rec.status
            && (rec.build.Some? && rec.build.value.dir.Some? ==>
                  m.value.build == Some(WithUsage(rec.build.value, DirUsage(dirs, rec.build.value.dir.value))))
            && (rec.build.None? || rec.build.value.dir.None? ==> m.value.build == rec.build)
            && (rec.source.Some? ==>
                  m.value.source == Some(WithUsage(rec.source.value, DirUsage(dirs, rec.source.value.dir.value))))
            && (rec.source.None? ==> m.value.source == None))
  {
  }

  // ------------------------------------------------------------- retention

  /** The build directory of a repository: the build root joined with the last component of its source directory. */
  function ProjectBuildDir(buildRoot: string, sourceDir: string): string {
    PathJoin(buildRoot, Basename(sourceDir))
  }

  /** The retention step: when build files are not kept, the repository's build directory keeps only its surviving entries. `None` when the record has no source directory to name it by. */
  function Retain(dirs: Dirs, rec: Repo, cfg: Config, buildRoot: string): Option<Dirs> {
    if cfg.keepBuildFiles != "False" then Some(dirs)
    else if rec.source.None? || rec.source.value.dir.None? then None
    else
      var p := ProjectBuildDir(buildRoot, rec.source.value.dir.value);
      if p in dirs then Some(dirs[p := Retained(dirs[p])]) else Some(dirs)
  }

  /** The source deletion: when source files are not kept, the source directory goes. */
  function DropSource(dirs: Dirs, rec: Repo, cfg: Config): Option<Dirs> {
    if cfg.keepSourceFiles != "False" then Some(dirs)
    else if rec.source.None? || rec.source.value.dir.None? then None
    else Some(dirs - {rec.source.value.dir.value})
  }

  /** Retention touches only the repository's own build directory, and running it twice removes nothing more. */
  lemma RetainEffect(dirs: Dirs, rec: Repo, cfg: Config, buildRoot: string)
    ensures var r := Retain(dirs, rec, cfg, buildRoot);
      && (cfg.keepBuildFiles != "False" ==> r == Some(dirs))
      && (r.Some? && cfg.keepBuildFiles == "False" ==>
            var p := ProjectBuildDir(buildRoot, rec.source.value.dir.value);
            && r.value.Keys == dirs.Keys
            && (forall q :: q in dirs && q != p ==> r.value[q] == dirs[q])
            && (p in dirs ==> r.value[p] == Retained(dirs[p]))
            && Retain(r.value, rec, cfg, buildRoot) == r)
  {
    if cfg.keepBuildFiles == "False" && rec.source.Some? && rec.source.value.dir.Some? {
      var p := ProjectBuildDir(buildRoot, rec.source.value.dir.value);
      if p in dirs {
        RetainedIdempotent(dirs[p]);
        assert dirs[p := Retained(dirs[p])][p := Retained(Retained(dirs[p]))] == dirs[p := Retained(dirs[p])];
      }
    }
  }

  // ------------------------------------------------------------------ task

  /** The steps after a successful clone: dispatch, size accounting, retention, source deletion, then the registry pop and decrement. */
  function AfterClone(site: Site, procName: string, idx: nat, name: string, rec: Repo, sh: Shared): (TaskResult, Shared) {
    var b := site.builder(idx, name, rec, sh.dirs);
    var idx2 := if b.Built? then b.idx else idx;
    var name2 := if b.Built? then b.name else name;
    var rec2 := Dispatched(b);
    var returned := if b.Built? then b.returned else None;
    var sh2 := sh.(dirs := b.dirs);
    match Measured(rec2, sh2.dirs)
    case None => (Raised, sh2)
    case Some(rec3) =>
      match Retain(sh2.dirs, rec3, site.cfg, site.buildRoot)
      case None => (Raised, sh2)
      case Some(dirs3) =>
        match DropSource(dirs3, rec3, site.cfg)
        case None => (Raised, sh2.(dirs := dirs3))
        case Some(dirs4) =>
          (Done(idx2, name2, if returned.None? then rec3 else returned.value),
           Shared(sh2.current - {procName}, sh2.left - 1, dirs4))
  }

  /**
   * `download_and_build` run by the process `procName`: register, attach
   * the loggers (raising when the process has none), clone (a raise ends
   * the task with `clone fail`), then the rest.
   */
  function TaskSpec(site: Site, procName: string, logged: bool, cloner: Cloner, s: Submission, sh: Shared): (TaskResult, Shared) {
    var sh1 := sh.(current := sh.current[procName := (s.idx, s.name)]);
    if !logged then (Raised, sh1)
    else match cloner(s.idx, s.name, s.rec, sh1.dirs)
      case CloneRaised(rec1, dirs1) =>
        (Done(s.idx, s.name, rec1.(status := Some("clone fail"))), sh1.(dirs := dirs1))
      case Cloned(rec1, dirs1) => AfterClone(site, procName, s.idx, s.name, rec1, sh1.(dirs := dirs1))
  }

  /** Whether the task reaches the registry pop and decrement at its end. */
  predicate Pops(site: Site, procName: string, logged: bool, cloner: Cloner, s: Submission, sh: Shared) {
    logged && cloner(s.idx, s.name, s.rec, sh.dirs).Cloned? &&
    TaskSpec(site, procName, logged, cloner, s, sh).0.Done?
  }

  /** A failed clone returns the record with status `clone fail`, leaves the process registered and does not decrement. */
  lemma TaskCloneFail(site: Site, procName: string, cloner: Cloner, s: Submission, sh: Shared)
    requires cloner(s.idx, s.name, s.rec, sh.dirs).CloneRaised?
    ensures var (r, sh2) := TaskSpec(site, procName, true, cloner, s, sh);
      && r == Done(s.idx, s.name, cloner(s.idx, s.name, s.rec, sh.dirs).rec.(status := Some("clone fail")))
      && sh2.current == sh.current[procName := (s.idx, s.name)]
      && sh2.left == sh.left
      && sh2.dirs == cloner(s.idx, s.name, s.rec, sh.dirs).dirs
      && !Pops(site, procName, true, cloner, s, sh)
  {
  }

  /**
   * A crashed build marks the caller's record `docker_crash` and still
   * measures and cleans up: the task returns that record, with its sizes,
   * under its own index and name.
   */
  lemma TaskCrash(site: Site, procName: string, cloner: Cloner, s: Submission, sh: Shared)
    requires cloner(s.idx, s.name, s.rec, sh.dirs).Cloned?
    requires var c := cloner(s.idx, s.name, s.rec, sh.dirs);
      site.builder(s.idx, s.name, c.rec, c.dirs).BuildRaised?
    ensures var c := cloner(s.idx, s.name, s.rec, sh.dirs);
      var b := site.builder(s.idx, s.name, c.rec, c.dirs);
      var crashed := b.rec.(status := Some("docker_crash"));
      var (r, _) := TaskSpec(site, procName, true, cloner, s, sh);
      && (r.Done? <==> Measured(crashed, b.dirs).Some? && Retain(b.dirs, Measured(crashed, b.dirs).value, site.cfg, site.buildRoot).Some?
                       && DropSource(Retain(b.dirs, Measured(crashed, b.dirs).value, site.cfg, site.buildRoot).value, Measured(crashed, b.dirs).value, site.cfg).Some?)
      && (r.Done? ==> r == Done(s.idx, s.name, Measured(crashed, b.dirs).value) && r.rec.status == Some("docker_crash"))
  {
    var c := cloner(s.idx, s.name, s.rec, sh.dirs);
    var b := site.builder(s.idx, s.name, c.rec, c.dirs);
    MeasuredFields(b.rec.(status := Some("docker_crash")), b.dirs);
  }

  /**
   * The registry: every task first registers its process; a task that gets
   * past cloning and does not raise unregisters it and decrements the
   * counter by exactly one; any other task leaves the counter alone.
   */
  lemma TaskRegistry(site: Site, procName: string, logged: bool, cloner: Cloner, s: Submission, sh: Shared)
    ensures var (r, sh2) := TaskSpec(site, procName, logged, cloner, s, sh);
      && (Pops(site, procName, logged, cloner, s, sh) ==>
            sh2.left == sh.left - 1 && sh2.current == sh.current - {procName})
      && (!Pops(site, procName, logged, cloner, s, sh) ==>
            sh2.left == sh.left && sh2.current == sh.current[procName := (s.idx, s.name)])
  {
    var sh1 := sh.(current := sh.current[procName := (s.idx, s.name)]);
    assert sh1.current - {procName} == sh.current - {procName};
  }

  /** The record the dispatch step leaves: the builder's, or the caller's marked `docker_crash`. */
  function Dispatched(b: Built): Repo {
    if b.Built? then b.rec else b.rec.(status := Some("docker_crash"))
  }

  /**
   * A task that returns, when build files are not kept, leaves the build
   * directory named after the dispatched record's source directory retained
   * and every other directory as the dispatch left it; when they are kept,
   * the disk is as the dispatch left it.
   */
  lemma TaskRetention(site: Site, procName: string, cloner: Cloner, s: Submission, sh: Shared)
    requires cloner(s.idx, s.name, s.rec, sh.dirs).Cloned?
    requires site.cfg.keepSourceFiles != "False"
    ensures var c := cloner(s.idx, s.name, s.rec, sh.dirs);
      var b := site.builder(s.idx, s.name, c.rec, c.dirs);
      var (r, sh2) := TaskSpec(site, procName, true, cloner, s, sh);
      && (r.Done? && site.cfg.keepBuildFiles != "False" ==> sh2.dirs == b.dirs)
      && (r.Done? && site.cfg.keepBuildFiles == "False" ==>
            && Dispatched(b).source.Some? && Dispatched(b).source.value.dir.Some?
            && var p := ProjectBuildDir(site.buildRoot, Dispatched(b).source.value.dir.value);
            && sh2.dirs.Keys == b.dirs.Keys
            && (forall q :: q in b.dirs && q != p ==> sh2.dirs[q] == b.dirs[q])
            && (p in b.dirs ==> sh2.dirs[p] == Retained(b.dirs[p])))
  {
    var c := cloner(s.idx, s.name, s.rec, sh.dirs);
    var b := site.builder(s.idx, s.name, c.rec, c.dirs);
    var m := Measured(Dispatched(b), b.dirs);
    MeasuredFields(Dispatched(b), b.dirs);
    if m.Some? {
      RetainEffect(b.dirs, m.value, site.cfg, site.buildRoot);
    }
  }

  /**
   * A task that returns when source files are not kept has deleted the
   * dispatched record's source directory; every other directory is as the
   * dispatch left it, except the retained build directory when build files
   * are not kept either.
   */
  lemma TaskDropsSource(site: Site, procName: string, cloner: Cloner, s: Submission, sh: Shared)
    requires cloner(s.idx, s.name, s.rec, sh.dirs).Cloned?
    requires site.cfg.keepSourceFiles == "False"
    ensures var c := cloner(s.idx, s.name, s.rec, sh.dirs);
      var b := site.builder(s.idx, s.name, c.rec, c.dirs);
      var (r, sh2) := TaskSpec(site, procName, true, cloner, s, sh);
      r.Done? ==>
        && Dispatched(b).source.Some? && Dispatched(b).source.value.dir.Some?
        && var d := Dispatched(b).source.value.dir.value;
        && var p := ProjectBuildDir(site.buildRoot, d);
        && d !in sh2.dirs
        && sh2.dirs.Keys == b.dirs.Keys - {d}
        && (forall q :: q in b.dirs && q != d && (site.cfg.keepBuildFiles == "False" ==> q != p) ==> q in sh2.dirs && sh2.dirs[q] == b.dirs[q])
        && (site.cfg.keepBuildFiles == "False" && p in b.dirs && p != d ==> p in sh2.dirs && sh2.dirs[p] == Retained(b.dirs[p]))
  {
    var c := cloner(s.idx, s.name, s.rec, sh.dirs);
    var b := site.builder(s.idx, s.name, c.rec, c.dirs);
    var m := Measured(Dispatched(b), b.dirs);
    MeasuredFields(Dispatched(b), b.dirs);
    if m.Some? {
      RetainEffect(b.dirs, m.value, site.cfg, site.buildRoot);
    }
  }

  /**
   * A build that returns hands back its own index, name and record; when it
   * handed back the caller's record itself, that record carries the sizes
   * measured after the build, with its status unchanged.
   */
  lemma TaskBuilt(site: Site, procName: string, cloner: Cloner, s: Submission, sh: Shared)
    requires cloner(s.idx, s.name, s.rec, sh.dirs).Cloned?
    requires var c := cloner(s.idx, s.name, s.rec, sh.dirs);
      site.builder(s.idx, s.name, c.rec, c.dirs).Built?
    ensures var c := cloner(s.idx, s.name, s.rec, sh.dirs);
      var b := site.builder(s.idx, s.name, c.rec, c.dirs);
      var m := Measured(b.rec, b.dirs);
      var (r, _) := TaskSpec(site, procName, true, cloner, s, sh);
      && (r.Done? <==> m.Some? && Retain(b.dirs, m.value, site.cfg, site.buildRoot).Some?
                       && DropSource(Retain(b.dirs, m.value, site.cfg, site.buildRoot).value, m.value, site.cfg).Some?)
      && (r.Done? ==> r == Done(b.idx, b.name, if b.returned.None? then m.value else b.returned.value))
      && (r.Done? && b.returned.None? ==>
            && r.rec.status == b.rec.status
            && (b.rec.source.Some? ==>
                  r.rec.source == Some(WithUsage(b.rec.source.value, DirUsage(b.dirs, b.rec.source.value.dir.value)))))
  {
    var c := cloner(s.idx, s.name, s.rec, sh.dirs);
    var b := site.builder(s.idx, s.name, c.rec, c.dirs);
    MeasuredFields(b.rec, b.dirs);
  }

  // ----------------------------------------------------------- submission

  /** A database's repositories, by name, in the database's order. */
  datatype Db = Db(name: string, repos: seq<(string, Repo)>)

  /** `projects_count`: the repositories of all databases. */
  function Total(dbs: seq<Db>): nat
    decreases |dbs|
  {
    if dbs == [] then 0 else |dbs[0].repos| + Total(dbs[1..])
  }

  lemma {:induction false} TotalAppend(a: seq<Db>, b: seq<Db>)
    ensures Total(a + b) == Total(a) + Total(b)
    decreases |a|
  {
    if a == [] {
      assert a + b == b;
    } else {
      assert (a + b)[1..] == a[1..] + b;
      TotalAppend(a[1..], b);
    }
  }

  /** One database's submissions, numbered from `start`. */
  function DbSubmissions(db: Db, start: nat): (r: seq<Submission>)
    ensures |r| == |db.repos|
    ensures forall j :: 0 <= j < |r| ==> r[j] == Submission(db.name, start + j, db.repos[j].0, db.repos[j].1)
  {
    seq(|db.repos|, j requires 0 <= j < |db.repos| => Submission(db.name, start + j, db.repos[j].0, db.repos[j].1))
  }

  /** The submissions in order: database by database, repository by repository, numbered from `start`. */
  function Submissions(dbs: seq<Db>, start: nat): seq<Submission>
    decreases |dbs|
  {
    if dbs == [] then [] else DbSubmissions(dbs[0], start) + Submissions(dbs[1..], start + |dbs[0].repos|)
  }

  /** Indices are consecutive from `start`, one per repository, in submission order. */
  lemma {:induction false} SubmissionsIndexed(dbs: seq<Db>, start: nat)
    ensures |Submissions(dbs, start)| == Total(dbs)
    ensures forall k :: 0 <= k < |Submissions(dbs, start)| ==> Submissions(dbs, start)[k].idx == start + k
    decreases |dbs|
  {
    if dbs != [] {
      SubmissionsIndexed(dbs[1..], start + |dbs[0].repos|);
      var head := DbSubmissions(dbs[0], start);
      var tail := Submissions(dbs[1..], start + |dbs[0].repos|);
      assert forall k :: |head| <= k < |head| + |tail| ==> (head + tail)[k] == tail[k - |head|];
    }
  }

  /** The `j`-th repository of the `i`-th database is submission number `Total(dbs[..i]) + j`. */
  lemma {:induction false} SubmissionAt(dbs: seq<Db>, start: nat, i: nat, j: nat)
    requires i < |dbs| && j < |dbs[i].repos|
    ensures Total(dbs[..i]) + j < |Submissions(dbs, start)|
    ensures Submissions(dbs, start)[Total(dbs[..i]) + j]
         == Submission(dbs[i].name, start + Total(dbs[..i]) + j, dbs[i].repos[j].0, dbs[i].repos[j].1)
    decreases i
  {
    if i == 0 {
      assert dbs[..0] == [];
      SubmissionsHead(dbs, start, j);
    } else {
      SubmissionAt(dbs[1..], start + |dbs[0].repos|, i - 1, j);
      TotalPrefix(dbs, i);
      SubmissionsShift(dbs, start, Total(dbs[1..][..i - 1]) + j);
    }
  }

  /** The first database's repositories come first. */
  lemma SubmissionsHead(dbs: seq<Db>, start: nat, j: nat)
    requires |dbs| > 0 && j < |dbs[0].repos|
    ensures j < |Submissions(dbs, start)|
    ensures Submissions(dbs, start)[j] == Submission(dbs[0].name, start + j, dbs[0].repos[j].0, dbs[0].repos[j].1)
  {
    var head := DbSubmissions(dbs[0], start);
    assert Submissions(dbs, start) == head + Submissions(dbs[1..], start + |dbs[0].repos|);
  }

  /** The later databases' repositories follow the first database's. */
  lemma SubmissionsShift(dbs: seq<Db>, start: nat, n: nat)
    requires |dbs| > 0 && n < |Submissions(dbs[1..], start + |dbs[0].repos|)|
    ensures |dbs[0].repos| + n < |Submissions(dbs, start)|
    ensures Submissions(dbs, start)[|dbs[0].repos| + n] == Submissions(dbs[1..], start + |dbs[0].repos|)[n]
  {
    var head := DbSubmissions(dbs[0], start);
    var tail := Submissions(dbs[1..], start + |dbs[0].repos|);
    assert Submissions(dbs, start) == head + tail;
    assert (head + tail)[|head| + n] == tail[n];
  }

  /** The repositories of the first `i` databases are the first database's and those of the next `i - 1`. */
  lemma TotalPrefix(dbs: seq<Db>, i: nat)
    requires 0 < i <= |dbs|
    ensures Total(dbs[..i]) == |dbs[0].repos| + Total(dbs[1..][..i - 1])
  {
    assert dbs[..i][0] == dbs[0] && dbs[..i][1..] == dbs[1..][..i - 1];
  }

  // ------------------------------------------------------------------- run

  /** The run as a whole: the results so far, the shared state and how many tasks popped. */
  datatype Run = Run(results: seq<TaskResult>, sh: Shared, popped: nat)

  /** The process that runs the task with index `idx`. */
  function ProcessFor(processName: nat -> string, slot: nat -> nat, pool: nat, idx: nat): string
    requires pool > 0
  {
    processName(slot(idx) % pool)
  }

  /** One task appended to the run. */
  function Step(site: Site, cloners: string -> Cloner, proc: string, s: Submission, run: Run): Run {
    var (r, sh2) := TaskSpec(site, proc, true, cloners(s.db), s, run.sh);
    Run(run.results + [r], sh2, run.popped + if Pops(site, proc, true, cloners(s.db), s, run.sh) then 1 else 0)
  }

  /** Every submission run in order, each on the process the pool gives it; every process has its loggers by then. */
  function RunAll(site: Site, cloners: string -> Cloner, processName: nat -> string, slot: nat -> nat, pool: nat,
                  subs: seq<Submission>, run: Run): Run
    requires pool > 0
    decreases |subs|
  {
    if subs == [] then run
    else
      var proc := ProcessFor(processName, slot, pool, subs[0].idx);
      RunAll(site, cloners, processName, slot, pool, subs[1..], Step(site, cloners, proc, subs[0], run))
  }

  /** Running two batches of submissions one after the other is running them together. */
  lemma {:induction false} RunAllAppend(site: Site, cloners: string -> Cloner, processName: nat -> string, slot: nat -> nat, pool: nat,
                                        a: seq<Submission>, b: seq<Submission>, run: Run)
    requires pool > 0
    ensures RunAll(site, cloners, processName, slot, pool, a + b, run)
         == RunAll(site, cloners, processName, slot, pool, b, RunAll(site, cloners, processName, slot, pool, a, run))
    decreases |a|
  {
    if a == [] {
      assert a + b == b;
    } else {
      assert (a + b)[0] == a[0] && (a + b)[1..] == a[1..] + b;
      RunAllAppend(site, cloners, processName, slot, pool, a[1..], b,
                   Step(site, cloners, ProcessFor(processName, slot, pool, a[0].idx), a[0], run));
    }
  }

  /** The submissions of the `i`-th database sit, in order, at the front of those from its first index on. */
  lemma SubmissionsSplit(dbs: seq<Db>, i: nat)
    requires i < |dbs|
    ensures Total(dbs[..i]) + |dbs[i].repos| <= |Submissions(dbs, 0)|
    ensures Submissions(dbs, 0)[Total(dbs[..i])..]
         == DbSubmissions(dbs[i], Total(dbs[..i])) + Submissions(dbs, 0)[Total(dbs[..i]) + |dbs[i].repos|..]
  {
    var subs := Submissions(dbs, 0);
    var start := Total(dbs[..i]);
    var n := |dbs[i].repos|;
    SubmissionsIndexed(dbs, 0);
    TotalAppend(dbs[..i], dbs[i..]);
    assert dbs[..i] + dbs[i..] == dbs;
    assert Total(dbs[i..]) == n + Total(dbs[i..][1..]);
    forall j | 0 <= j < n
      ensures subs[start + j] == DbSubmissions(dbs[i], start)[j]
    {
      SubmissionAt(dbs, 0, i, j);
    }
    SliceStartsWith(subs, start, DbSubmissions(dbs[i], start));
  }

  /** A sequence that agrees with `d` from `start` on begins there with `d`. */
  lemma SliceStartsWith(s: seq<Submission>, start: nat, d: seq<Submission>)
    requires start + |d| <= |s|
    requires forall j :: 0 <= j < |d| ==> s[start + j] == d[j]
    ensures s[start..] == d + s[start + |d|..]
  {
    assert s[start..start + |d|] == d;
    assert s[start..] == s[start..start + |d|] + s[start + |d|..];
  }

  /** `builds_left` ends at its start minus the tasks that popped, and there is one result per submission. */
  lemma {:induction false} RunAllCounts(site: Site, cloners: string -> Cloner, processName: nat -> string, slot: nat -> nat, pool: nat,
                                        subs: seq<Submission>, run: Run)
    requires pool > 0
    ensures var out := RunAll(site, cloners, processName, slot, pool, subs, run);
      && out.sh.left + out.popped == run.sh.left + run.popped
      && run.popped <= out.popped <= run.popped + |subs|
      && |out.results| == |run.results| + |subs| && out.results[..|run.results|] == run.results
    decreases |subs|
  {
    if subs != [] {
      var proc := ProcessFor(processName, slot, pool, subs[0].idx);
      var next := Step(site, cloners, proc, subs[0], run);
      TaskRegistry(site, proc, true, cloners(subs[0].db), subs[0], run.sh);
      RunAllCounts(site, cloners, processName, slot, pool, subs[1..], next);
      var out := RunAll(site, cloners, processName, slot, pool, subs[1..], next);
      assert out.results[..|run.results|] == out.results[..|next.results|][..|run.results|];
    }
  }

  // ----------------------------------------------------------- aggregation

  /** An insertion-ordered dictionary from repository name to record. */
  type Table = seq<(string, Repo)>

  function KeysOf(t: Table): seq<string> {
    seq(|t|, i requires 0 <= i < |t| => t[i].0)
  }

  predicate Distinct(xs: seq<string>) {
    forall i, j :: 0 <= i < j < |xs| ==> xs[i] != xs[j]
  }

  lemma KeysOfCons(t: Table)
    requires t != []
    ensures KeysOf(t) == [t[0].0] + KeysOf(t[1..])
    ensures forall i :: 0 <= i < |t| ==> KeysOf(t)[i] == t[i].0
  {
  }

  lemma DistinctCons(xs: seq<string>)
    requires xs != []
    ensures Distinct(xs) <==> xs[0] !in xs[1..] && Distinct(xs[1..])
  {
    if xs[0] !in xs[1..] && Distinct(xs[1..]) {
      forall i, j | 0 <= i < j < |xs| ensures xs[i] != xs[j] {
        if i == 0 { assert xs[j] == xs[1..][j - 1]; }
        else { assert xs[i] == xs[1..][i - 1] && xs[j] == xs[1..][j - 1]; }
      }
    }
    if Distinct(xs) {
      forall i, j | 0 <= i < j < |xs[1..]| ensures xs[1..][i] != xs[1..][j] {
        assert xs[1..][i] == xs[i + 1] && xs[1..][j] == xs[j + 1];
      }
    }
  }

  /** What `d[k] = v` leaves: the value replaced in place when `k` is a key, appended otherwise; keys stay distinct. */
  predicate PutResult(t: Table, k: string, v: Repo, r: Table) {
    && Distinct(KeysOf(r))
    && (k in KeysOf(t) ==> KeysOf(r) == KeysOf(t))
    && (k in KeysOf(t) ==> |r| == |t| && forall i :: 0 <= i < |t| ==> r[i] == (if t[i].0 == k then (k, v) else t[i]))
    && (k !in KeysOf(t) ==> r == t + [(k, v)] && KeysOf(r) == KeysOf(t) + [k])
  }

  /** `d[k] = v` on an insertion-ordered dictionary. */
  function Put(t: Table, k: string, v: Repo): (r: Table)
    requires Distinct(KeysOf(t))
    ensures PutResult(t, k, v, r)
    decreases |t|
  {
    if t == [] then
      assert KeysOf([(k, v)]) == [k];
      [(k, v)]
    else if t[0].0 == k then
      PutHere(t, k, v);
      [(k, v)] + t[1..]
    else
      KeysOfCons(t);
      DistinctCons(KeysOf(t));
      var rest := Put(t[1..], k, v);
      PutThere(t, k, v, rest);
      [t[0]] + rest
  }

  /** The key is the first one: its value is replaced. */
  lemma PutHere(t: Table, k: string, v: Repo)
    requires Distinct(KeysOf(t)) && t != [] && t[0].0 == k
    ensures PutResult(t, k, v, [(k, v)] + t[1..])
  {
    KeysOfCons(t);
    DistinctCons(KeysOf(t));
    var r := [(k, v)] + t[1..];
    KeysOfCons(r);
    assert r[1..] == t[1..];
    assert KeysOf(r) == KeysOf(t);
    forall i | 1 <= i < |t| ensures t[i].0 != k {
      assert KeysOf(t)[i] == KeysOf(t[1..])[i - 1];
    }
  }

  /** The key is not the first one: the first entry stays, and the rest is written. */
  lemma PutThere(t: Table, k: string, v: Repo, rest: Table)
    requires Distinct(KeysOf(t)) && t != [] && t[0].0 != k
    requires Distinct(KeysOf(t[1..])) && PutResult(t[1..], k, v, rest)
    ensures PutResult(t, k, v, [t[0]] + rest)
  {
    KeysOfCons(t);
    assert k in KeysOf(t) <==> k in KeysOf(t[1..]);
    PutThereDistinct(t, k, v, rest);
    if k in KeysOf(t) {
      PutThereHit(t, k, v, rest);
    } else {
      PutThereMiss(t, k, v, rest);
    }
  }

  lemma PutThereHit(t: Table, k: string, v: Repo, rest: Table)
    requires t != [] && t[0].0 != k && k in KeysOf(t[1..])
    requires Distinct(KeysOf(t[1..])) && PutResult(t[1..], k, v, rest)
    ensures var r := [t[0]] + rest;
      && KeysOf(r) == KeysOf(t)
      && |r| == |t| && forall i :: 0 <= i < |t| ==> r[i] == (if t[i].0 == k then (k, v) else t[i])
  {
    KeysOfCons(t);
    var r := [t[0]] + rest;
    KeysOfCons(r);
    assert r[1..] == rest;
    forall i | 0 <= i < |t| ensures r[i] == (if t[i].0 == k then (k, v) else t[i]) {
      if i > 0 {
        assert r[i] == rest[i - 1] && t[i] == t[1..][i - 1];
      }
    }
  }

  lemma PutThereMiss(t: Table, k: string, v: Repo, rest: Table)
    requires t != [] && k !in KeysOf(t[1..])
    requires Distinct(KeysOf(t[1..])) && PutResult(t[1..], k, v, rest)
    ensures [t[0]] + rest == t + [(k, v)] && KeysOf([t[0]] + rest) == KeysOf(t) + [k]
  {
    assert t == [t[0]] + t[1..];
    KeysOfCons(t);
    KeysOfCons(t + [(k, v)]);
    assert (t + [(k, v)])[1..] == t[1..] + [(k, v)];
  }

  /** Writing below a first entry with another key keeps the keys distinct. */
  lemma PutThereDistinct(t: Table, k: string, v: Repo, rest: Table)
    requires Distinct(KeysOf(t)) && t != [] && t[0].0 != k
    requires Distinct(KeysOf(t[1..])) && PutResult(t[1..], k, v, rest)
    ensures Distinct(KeysOf([t[0]] + rest))
  {
    KeysOfCons(t);
    DistinctCons(KeysOf(t));
    var r := [t[0]] + rest;
    KeysOfCons(r);
    assert r[1..] == rest;
    assert t[0].0 !in KeysOf(rest);
    DistinctCons(KeysOf(r));
  }

  /** The value under a key. */
  function Lookup(t: Table, k: string): Option<Repo>
    decreases |t|
  {
    if t == [] then None else if t[0].0 == k then Some(t[0].1) else Lookup(t[1..], k)
  }

  /** The results read in submission order into the table; the first raised result propagates (`None`). */
  function Collect(t: Table, results: seq<TaskResult>): Option<Table>
    requires Distinct(KeysOf(t))
    decreases |results|
  {
    if results == [] then Some(t)
    else if results[0].Raised? then None
    else Collect(Put(t, results[0].name, results[0].rec), results[1..])
  }

  /** The names of returned results, in order, until the first raised one. */
  function ResultNames(results: seq<TaskResult>): seq<string>
    decreases |results|
  {
    if results == [] || results[0].Raised? then [] else [results[0].name] + ResultNames(results[1..])
  }

  /** The names in order of first occurrence after those already in `seen`. */
  function FirstOccurrences(seen: seq<string>, names: seq<string>): seq<string>
    decreases |names|
  {
    if names == [] then seen
    else if names[0] in seen then FirstOccurrences(seen, names[1..])
    else FirstOccurrences(seen + [names[0]], names[1..])
  }

  lemma {:induction false} LookupPut(t: Table, k: string, v: Repo, q: string)
    requires Distinct(KeysOf(t))
    ensures Lookup(Put(t, k, v), q) == if q == k then Some(v) else Lookup(t, q)
  {
    LookupIndex(t, q);
    LookupIndex(Put(t, k, v), q);
    if q != k && q in KeysOf(t) {
      var i :| 0 <= i < |t| && t[i].0 == q;
      assert Put(t, k, v)[i] == t[i];
    }
  }

  /** With distinct keys, a lookup finds the one entry under the key. */
  lemma {:induction false} LookupIndex(t: Table, k: string)
    requires Distinct(KeysOf(t))
    ensures Lookup(t, k).None? <==> k !in KeysOf(t)
    ensures forall i :: 0 <= i < |t| && t[i].0 == k ==> Lookup(t, k) == Some(t[i].1)
    decreases |t|
  {
    if t != [] {
      KeysOfCons(t);
      DistinctCons(KeysOf(t));
      LookupIndex(t[1..], k);
      forall i | 1 <= i < |t| && t[i].0 == k ensures Lookup(t, k) == Some(t[i].1) {
        assert KeysOf(t)[0] != KeysOf(t)[i];
        assert t[i] == t[1..][i - 1];
      }
    }
  }


  /**
   * Aggregation: the table holds one entry per distinct name, in order of
   * first submission, and a name's record is the one its last submission
   * returned; the run aborts exactly when some task raised.
   */
  lemma {:induction false} CollectTable(t: Table, results: seq<TaskResult>)
    requires Distinct(KeysOf(t))
    ensures Collect(t, results).None? <==> exists i :: 0 <= i < |results| && results[i].Raised?
    ensures Collect(t, results).Some? ==>
      var out := Collect(t, results).value;
      && Distinct(KeysOf(out))
      && KeysOf(out) == FirstOccurrences(KeysOf(t), ResultNames(results))
      && forall k :: Lookup(out, k) == LastBefore(t, results, k)
    decreases |results|
  {
    if results != [] && results[0].Done? {
      var t1 := Put(t, results[0].name, results[0].rec);
      CollectTable(t1, results[1..]);
      assert forall i :: 1 <= i < |results| ==> results[i] == results[1..][i - 1];
      if Collect(t, results).Some? {
        forall k ensures Lookup(Collect(t, results).value, k) == LastBefore(t, results, k) {
          LookupPut(t, results[0].name, results[0].rec, k);
          LastBeforeStep(t, results, k);
        }
      }
    }
  }

  /** The record of the last returned result named `k`, among the returned ones before the first raise. */
  function LastReturned(results: seq<TaskResult>, k: string): (r: Option<Repo>)
    ensures r.Some? <==> k in ResultNames(results)
    decreases |results|
  {
    if results == [] || results[0].Raised? then None
    else
      var later := LastReturned(results[1..], k);
      if later.Some? then later else if results[0].name == k then Some(results[0].rec) else None
  }

  /** The record under `k` once every result is read: the last returned one named `k`, else the table's. */
  function LastBefore(t: Table, results: seq<TaskResult>, k: string): Option<Repo> {
    match LastReturned(results, k)
    case Some(r) => Some(r)
    case None => Lookup(t, k)
  }

  lemma LastBeforeStep(t: Table, results: seq<TaskResult>, k: string)
    requires Distinct(KeysOf(t)) && results != [] && results[0].Done?
    ensures LastBefore(Put(t, results[0].name, results[0].rec), results[1..], k) == LastBefore(t, results, k)
  {
    LookupPut(t, results[0].name, results[0].rec, k);
  }
}
