/**
 * The Travis-CI interpreter as the object it is: a project whose methods
 * change the process environment, the run history, the error log, the
 * build directory and the descriptor field step by step. Every method is
 * proved to leave exactly the state the matching function of `TravisSpec`
 * describes; the properties of those functions are proved there.
 */
module Travis {
  import opened Wrappers
  import opened Text
  import opened Yaml
  import opened FileTree
  import opened TravisSpec

  class Project {
    const repositoryPath: string
    const buildDir: string
    const idx: nat
    const name: string
    // What the project sees of the outside world and does not change.
    const source: seq<Entry>
    const descriptor: Node
    const shell: Shell
    const addons: Node -> bool
    const cc: string
    const cxx: string

    var env: map<string, string>
    var ran: seq<Invocation>
    var errors: seq<LogEntry>
    var workspace: seq<Entry>
    var yml: Option<Node>
    var files: Store

    constructor (repositoryPath: string, buildDir: string, idx: nat, name: string,
                 source: seq<Entry>, descriptor: Node, shell: Shell, addons: Node -> bool,
                 cc: string, cxx: string,
                 env: map<string, string>, workspace: seq<Entry>, files: Store)
      ensures this.repositoryPath == repositoryPath && this.buildDir == buildDir
      ensures this.idx == idx && this.name == name
      ensures Setup() == TravisSpec.Setup(repositoryPath, buildDir, source, descriptor, shell, addons, cc, cxx)
      ensures State() == Proc(env, [], [], workspace, None) && this.files == files
    {
      this.repositoryPath := repositoryPath;
      this.buildDir := buildDir;
      this.idx := idx;
      this.name := name;
      this.source := source;
      this.descriptor := descriptor;
      this.shell := shell;
      this.addons := addons;
      this.cc := cc;
      this.cxx := cxx;
      this.env := env;
      this.ran := [];
      this.errors := [];
      this.workspace := workspace;
      this.yml := None;
      this.files := files;
    }

    function Setup(): Setup {
      TravisSpec.Setup(repositoryPath, buildDir, source, descriptor, shell, addons, cc, cxx)
    }

    function State(): Proc
      reads this
    {
      Proc(env, ran, errors, workspace, yml)
    }

    /** `set_env_vars`: false for a non-string; otherwise each `KEY=VALUE` token, left to right. */
    method SetEnvVars(v: Node) returns (ok: bool)
      modifies this`env
      ensures ok == v.Str?
      ensures env == ApplyEntry(old(env), v)
    {
      if !v.Str? {
        return false;
      }
      var tokens := Split(v.s, ' ');
      var i := 0;
      while i < |tokens|
        invariant 0 <= i <= |tokens|
        invariant AssignAll(old(env), tokens) == AssignAll(env, tokens[i..])
      {
        var parts := Split(tokens[i], '=');
        if |parts| >= 2 {
          env := env[parts[0] := parts[1]];
        }
        assert tokens[i..][1..] == tokens[i + 1..];
        i := i + 1;
      }
      return true;
    }

    /** Every entry through `set_env_vars`, in order. */
    method ApplyEach(entries: seq<Node>)
      modifies this`env
      ensures env == ApplyAll(old(env), entries)
    {
      var i := 0;
      while i < |entries|
        invariant 0 <= i <= |entries|
        invariant ApplyAll(old(env), entries) == ApplyAll(env, entries[i..])
      {
        var _ := SetEnvVars(entries[i]);
        assert entries[i..][1..] == entries[i + 1..];
        i := i + 1;
      }
    }

    /** The first string entry through `set_env_vars`, then stop. */
    method ApplyFirstString(entries: seq<Node>)
      modifies this`env
      ensures env == ApplyFirst(old(env), entries)
    {
      var i := 0;
      while i < |entries|
        invariant 0 <= i <= |entries|
        invariant forall j :: 0 <= j < i ==> !entries[j].Str?
        invariant env == old(env)
      {
        if entries[i].Str? {
          assert FirstString(entries) == Some(entries[i].s) by { FirstStringAt(entries, i); }
          var _ := SetEnvVars(entries[i]);
          return;
        }
        i := i + 1;
      }
      assert FirstString(entries).None?;
    }

    /** `run_scripts`: normalise the shape, then run each command until one fails. */
    method RunScripts(script: Node) returns (o: Outcome)
      modifies this`ran, this`errors
      ensures (o, State()) == TravisSpec.RunScripts(old(State()), Setup(), script)
    {
      var items: seq<Node>;
      match script {
        case Str(_) => items := [script];
        case Seq(xs) => items := xs;
        case _ =>
          errors := errors + [BadScriptShape(script)];
          return Returned(true);
      }
      var i := 0;
      while i < |items|
        invariant 0 <= i <= |items|
        invariant RunList(old(State()), Setup(), items) == RunList(State(), Setup(), items[i..])
      {
        assert items[i..][1..] == items[i + 1..];
        if !items[i].Str? {
          return Raised;
        }
        var inv := Invocation(items[i].s, buildDir, env);
        var code := shell(ran, inv);
        ran := ran + [inv];
        if code != 0 {
          errors := errors + [CommandFailed(items[i].s, code)];
          return Returned(false);
        }
        i := i + 1;
      }
      return Returned(true);
    }

    /** The named phases of a mapping, each run when present and not null, stopping at the first that does not return true. */
    method RunPhases(n: Node, keys: seq<string>) returns (o: Outcome)
      requires n.Map?
      modifies this`ran, this`errors
      ensures (o, State()) == TravisSpec.RunPhases(old(State()), Setup(), n, keys)
    {
      var i := 0;
      while i < |keys|
        invariant 0 <= i <= |keys|
        invariant TravisSpec.RunPhases(old(State()), Setup(), n, keys) == TravisSpec.RunPhases(State(), Setup(), n, keys[i..])
      {
        assert keys[i..][1..] == keys[i + 1..];
        var phase := Field(n, keys[i]);
        if phase.Some? {
          var r := RunScripts(phase.value);
          if r != Returned(true) {
            return r;
          }
        }
        i := i + 1;
      }
      return Returned(true);
    }

    /** One stage's representative job: its env entries, its add-ons, then its four phases. */
    method RunJob(job: Node) returns (o: Outcome)
      requires job.Map?
      modifies this`env, this`ran, this`errors
      ensures (o, State()) == TravisSpec.RunJob(old(State()), Setup(), job)
    {
      var jobEnv := Field(job, "env");
      if jobEnv.Some? {
        var vs := Iterate(jobEnv.value);
        if vs.None? {
          return Raised;
        }
        ApplyEach(vs.value);
      }
      var jobAddons := Field(job, "addons");
      if jobAddons.Some? && !addons(jobAddons.value) {
        return Returned(false);
      }
      o := RunPhases(job, JobPhases);
    }

    /** The workspace clean: every entry but the logs removed, one at a time; removing a link to a directory raises. */
    method CleanWorkspace() returns (raised: bool)
      modifies this`workspace
      ensures (raised, workspace) == CleanFrom([], old(workspace))
    {
      var listing := workspace;
      var kept: seq<Entry> := [];
      var i := 0;
      while i < |listing|
        invariant 0 <= i <= |listing|
        invariant workspace == kept + listing[i..]
        invariant CleanFrom([], listing) == CleanFrom(kept, listing[i..])
      {
        var e := listing[i];
        assert listing[i..][1..] == listing[i + 1..];
        if Contains(e.name, ".log") {
          kept := kept + [e];
        } else if e.Link? && e.target == ToDir {
          return true;
        } else {
          workspace := kept + listing[i + 1..];
        }
        i := i + 1;
      }
      assert listing[i..] == [] && kept + [] == kept;
      return false;
    }

    /** Clean the build directory and copy the source in, when it is empty or an update is forced. */
    method Sync(forceUpdate: bool) returns (o: Outcome)
      modifies this`workspace, this`ran, this`errors
      ensures (o, State()) == TravisSpec.Sync(old(State()), Setup(), forceUpdate)
    {
      if |workspace| == 0 || forceUpdate {
        var raised := CleanWorkspace();
        if raised {
          return Raised;
        }
        var inv := Invocation(CopyScript(Setup()), repositoryPath, env);
        var code := shell(ran, inv);
        ran := ran + [inv];
        if code != 0 {
          errors := errors + [CopyFailed(code)];
          return Returned(false);
        }
        workspace := Overlay(workspace, source);
      }
      return Returned(true);
    }

    /** The global environment resolution: a list's first string, or `global`, `jobs`, `matrix` in turn. */
    method ResolveEnv(y: Node) returns (ok: bool)
      requires y.Map?
      modifies this`env
      ensures (ok, env) == TravisSpec.ResolveEnv(old(env), y)
    {
      var e := Get(y.entries, "env");
      if e.Some? && e.value.Seq? {
        ApplyFirstString(e.value.items);
        return true;
      }
      var section := if e.Some? then e.value else Map([]);
      if !section.Map? {
        return false;
      }
      var global := SectionItems(section, "global");
      if global.None? {
        return false;
      }
      ApplyEach(global.value);
      var jobs := SectionItems(section, "jobs");
      if jobs.None? {
        return false;
      }
      ApplyFirstString(jobs.value);
      var matrix := SectionItems(section, "matrix");
      if matrix.None? {
        return false;
      }
      ApplyFirstString(matrix.value);
      return true;
    }

    /** The stage partition: a counter `i` and a list of stages appended to as the jobs go by. */
    method PartitionStages(jobs: seq<Node>) returns (raised: bool, stages: seq<seq<Node>>)
      requires |jobs| > 0
      ensures raised <==> !Taggable(jobs)
      ensures !raised ==> stages == Partition(jobs)
    {
      stages := [[]];
      var i := 0;
      var k := 0;
      while k < |jobs|
        invariant 0 <= k <= |jobs|
        invariant |stages| > 0 && i == |stages| - 1
        invariant forall j :: 0 <= j < k ==> StageTag(jobs[j]).Some?
        invariant Taggable(jobs) ==> PartitionFrom([[]], jobs) == PartitionFrom(stages, jobs[k..])
      {
        assert jobs[k..][1..] == jobs[k + 1..];
        var tag := HasMember(jobs[k], "stage");
        if tag.None? {
          return true, stages;
        }
        ghost var before := stages;
        assert Tagged(jobs[k]) == tag.value;
        if tag.value && |stages[0]| > 0 {
          i := i + 1;
          stages := stages + [[]];
          assert stages[i] == [] && [] + [jobs[k]] == [jobs[k]];
          stages := stages[i := stages[i] + [jobs[k]]];
          assert stages == before + [[jobs[k]]];
        } else {
          stages := stages[i := stages[i] + [jobs[k]]];
          assert stages == before[..i] + [before[i] + [jobs[k]]];
        }
        assert stages == AddJob(before, jobs[k]);
        k := k + 1;
      }
      return false, stages;
    }

    /** Partition the `include` jobs into stages and run each stage's representative, stopping at the first that does not return true. */
    method RunMatrix(jobs: seq<Node>) returns (o: Outcome)
      modifies this`env, this`ran, this`errors
      ensures (o, State()) == TravisSpec.RunMatrix(old(State()), Setup(), jobs)
    {
      if |jobs| == 0 {
        return Returned(true);
      }
      var raised, stages := PartitionStages(jobs);
      if raised {
        return Raised;
      }
      PartitionShape(jobs);
      var s := 0;
      while s < |stages|
        invariant 0 <= s <= |stages|
        invariant RunStages(old(State()), Setup(), stages) == RunStages(State(), Setup(), stages[s..])
      {
        assert stages[s..][1..] == stages[s + 1..];
        if !AllMaps(stages[s]) {
          return Raised;
        }
        var r := RunJob(Representative(stages[s]));
        if r != Returned(true) {
          return r;
        }
        s := s + 1;
      }
      return Returned(true);
    }

    /** The top level of `configure`: add-ons, compiler variables, then `before_install`, `install`, `before_script`. */
    method RunTopLevel(y: Node) returns (o: Outcome)
      requires y.Map?
      modifies this`env, this`ran, this`errors
      ensures (o, State()) == TravisSpec.RunTopLevel(old(State()), Setup(), y)
    {
      var topAddons := Field(y, "addons");
      if topAddons.Some? && !addons(topAddons.value) {
        return Returned(false);
      }
      env := env["CXX" := cxx];
      env := env["CXX_FOR_BUILD" := cxx];
      env := env["CC" := cc];
      env := env["CC_FOR_BUILD" := cc];
      o := RunPhases(y, TopPhases);
    }

    /** `configure`: sync, load, resolve the environment, run the matrix, then the top level, failing fast. */
    method Configure(forceUpdate: bool) returns (o: Outcome)
      modifies this`env, this`ran, this`errors, this`workspace, this`yml
      ensures (o, State()) == TravisSpec.Configure(old(State()), Setup(), forceUpdate)
    {
      o := Sync(forceUpdate);
      if o != Returned(true) {
        return;
      }
      if !Recognize(workspace) {
        return Raised;
      }
      yml := Some(descriptor);
      if !descriptor.Map? {
        return Raised;
      }
      var envOk := ResolveEnv(descriptor);
      if !envOk {
        return Raised;
      }
      env := env["TRAVIS_BUILD_DIR" := buildDir];
      env := env["CI" := "true"];
      env := env["TRAVIS" := "true"];
      env := env["TRAVIS_OS" := "linux"];
      var jobs := MatrixJobs(descriptor);
      if jobs.None? {
        return Raised;
      }
      o := RunMatrix(jobs.value);
      if o != Returned(true) {
        return;
      }
      o := RunTopLevel(descriptor);
    }

    /** `build`: the top-level `script`, or true when there is none. */
    method Build() returns (o: Outcome)
      modifies this`ran, this`errors
      ensures (o, State()) == TravisSpec.Build(old(State()), Setup())
    {
      if yml.None? || !yml.value.Map? {
        return Raised;
      }
      var script := Field(yml.value, "script");
      if script.None? {
        return Returned(true);
      }
      o := RunScripts(script.value);
    }

    /** Move every globbed artifact under the target directory; false when a move raised. */
    method MoveArtifacts(found: seq<string>, target: string) returns (completed: bool)
      modifies this`errors, this`files
      ensures (completed, errors, files) == Relocate(old(errors), old(files), found, buildDir, target)
    {
      var i := 0;
      while i < |found|
        invariant 0 <= i <= |found|
        invariant Relocate(old(errors), old(files), found, buildDir, target) == Relocate(errors, files, found[i..], buildDir, target)
      {
        assert found[i..][1..] == found[i + 1..];
        var f := found[i];
        var local := LocalPath(f, buildDir);
        if local.None? {
          errors := errors + [GlobMismatch(f)];
        } else {
          if f !in files {
            return false;
          }
          var d := PathJoin(target, local.value);
          files := (files - {f})[d := files[f]];
        }
        i := i + 1;
      }
      return true;
    }

    /** `generate_bitcodes` over the `.bc` files the glob found; its Python result is `None`, so only completion is reported. */
    method GenerateBitcodes(found: seq<string>, target: string) returns (completed: bool)
      modifies this`errors, this`files
      ensures (completed, errors, files) == Relocate(old(errors), old(files), found, buildDir, target)
    {
      completed := MoveArtifacts(found, target);
    }

    /** `generate_ast` over the `.ast` files the glob found; true unless a move raised. */
    method GenerateAst(found: seq<string>, target: string) returns (o: Outcome)
      modifies this`errors, this`files
      ensures var (ok, errs, out) := Relocate(old(errors), old(files), found, buildDir, target);
        o == (if ok then Returned(true) else Raised) && errors == errs && files == out
    {
      var completed := MoveArtifacts(found, target);
      o := if completed then Returned(true) else Raised;
    }
  }

  /** The first string entry is the one at the first index holding a string. */
  lemma {:induction false} FirstStringAt(entries: seq<Node>, i: nat)
    requires i < |entries| && entries[i].Str?
    requires forall j :: 0 <= j < i ==> !entries[j].Str?
    ensures FirstString(entries) == Some(entries[i].s)
    decreases i
  {
    if i > 0 {
      FirstStringAt(entries[1..], i - 1);
    }
  }
}
