# FBACode build orchestration core in Dafny

FBACode clones open-source repositories, builds each one inside a sandbox
and collects the build artifacts. This project models two parts of it:

- **The Travis-CI interpreter**, the class `Project` of
  `code_builder/build_systems/travis.py`. Given a parsed `.travis.yml`, it:
  - resolves the process environment;
  - splits the `include` jobs into stages;
  - narrows each stage to one representative job;
  - runs the lifecycle phases in order through the shell, failing fast;
  - moves the `.bc` and `.ast` artifacts under a target directory.
- **The orchestrator**, in `code_builder/code_builder.py`:
  - `get_dir_size`;
  - the per-repository task `download_and_build`: clone, dispatch, size accounting, retention and the running-builds registry;
  - the driver `build_projects`: index assignment, the builds-left counter, and aggregation into a name-keyed dictionary;
  - the per-process one-shot logger initialiser `initializer_func`.

The model has these modules:

- `Wrappers`: `Option`.
- `Text`: Python's `str.split`, `in` on strings, literal `re.search`, slicing, and POSIX `join`/`basename`.
- `Yaml`: the descriptor tree, with `get`, iteration and `in`.
- `FileTree`: directory entries, sizes and the retention filter.
- `TravisSpec`: the meaning of every interpreter step, as functions.
- `Travis`: the class `Project`. Its methods update the environment, run history, error log, build directory and descriptor field. Each method is proved to leave the state its `TravisSpec` function describes.
- `CodeBuilderSpec`: the task and driver semantics, as functions.
- `CodeBuilder`: the classes `Disk`, `Registry`, `Context` and `Worker`, and the methods of the task and the driver. Each is proved against `CodeBuilderSpec`.

Modelling choices:

- A Python exception is an explicit outcome (`Raised`), and whatever changed before the raise stays changed.
- The shell is an oracle. It maps the history of invocations and the next invocation to an exit code.
- The cloner, the build-system dispatcher, the add-on installer and the compiler probe are parameters.

Behaviours of the code that the model keeps as they are:

- Size accounting and retention are not fail-soft. A missing `source.dir` raises out of the task, and the run aborts when the results are read.
- A mis-shaped phase value (neither a string nor a list) is logged by `run_scripts`, which then returns true.
- A non-string item in a script list raises out of `configure`.
- A task raises when its process has no loggers.

## Model

| member | source | states |
|---|---|---|
| Text.Split | code_builder/build_systems/travis.py:59-61 | `str.split` with one separator: at least one part, and no part holds the separator |
| Text.JoinSplit | code_builder/build_systems/travis.py:59 | joining the parts of a split with the separator gives back the string |
| Text.SplitJoin | code_builder/build_systems/travis.py:59-61 | splitting a join of separator-free parts gives back the parts |
| Text.SplitCount | code_builder/build_systems/travis.py:61-62 | a token splits into two or more parts exactly when it holds `=` |
| Text.SplitNone | code_builder/build_systems/travis.py:59-61 | a string without the separator is one part |
| Text.SplitPrefix | code_builder/build_systems/travis.py:59-61 | a separator-free prefix followed by the separator splits off as the first part |
| Text.Find | code_builder/build_systems/travis.py:224-225 | the first occurrence of a literal pattern; none exactly when the pattern does not occur, and no earlier occurrence |
| Text.Suffix | code_builder/build_systems/travis.py:228 | Python slicing `s[n:]`, empty once `n` passes the end |
| Text.PathJoin | code_builder/code_builder.py:109 | POSIX `os.path.join`: an absolute second path wins; otherwise one separator is added unless the first ends in one or is empty |
| Text.Basename | code_builder/code_builder.py:109 | POSIX `basename`: a `/`-free suffix of the path, preceded by `/` when shorter than the path |
| Yaml.Get | code_builder/build_systems/travis.py:106 | `d.get(key)`: none exactly when no entry has the key, else the value of an entry with it |
| Yaml.Field | code_builder/build_systems/travis.py:156-175 | `d.get(key) is not None`: present exactly when the key exists and does not hold null |
| Yaml.Iterate | code_builder/build_systems/travis.py:107 | `for x in n`: the characters of a string, the items of a list, the keys of a mapping; raises for numbers, booleans and null |
| Yaml.HasMember | code_builder/build_systems/travis.py:136 | `key in n`: substring test on a string, membership on a list, key test on a mapping; raises otherwise |
| FileTree.UsageIsFileTotal | code_builder/code_builder.py:54-67 | the accumulated pair is the sum and the number of regular-file sizes; symbolic links add to neither |
| FileTree.UsageAppend | code_builder/code_builder.py:59-65 | the walk's totals over two listings add up, so they do not depend on how the walk is split |
| FileTree.Retained | code_builder/code_builder.py:111-117 | retention never lengthens a listing |
| FileTree.RetainedMembers | code_builder/code_builder.py:111-117 | an entry is retained exactly when it was listed and survives |
| FileTree.RetainedFiles | code_builder/code_builder.py:114-117 | a plain file survives exactly when its name contains `.log` or is `output.json`; no directory survives |
| FileTree.RetainedIdempotent | code_builder/code_builder.py:111-117 | a second retention pass removes nothing further |
| FileTree.RetainedAppend | code_builder/code_builder.py:111-117 | retention keeps the survivors in listing order, entry by entry |
| TravisSpec.Recognize | code_builder/build_systems/travis.py:251-253 | a repository is claimed exactly when its root lists a `.travis.yml` that is a file, links followed |
| TravisSpec.Assignment | code_builder/build_systems/travis.py:61-63 | a token binds something exactly when it holds `=`; neither key nor value holds `=` |
| TravisSpec.AssignmentOf | code_builder/build_systems/travis.py:61-63 | `KEY=VALUE`, with or without a further `=...` tail, binds KEY to VALUE: the text between the first and second `=` |
| TravisSpec.AssignAllLookup | code_builder/build_systems/travis.py:60-63 | after the tokens, a key holds the value of the last token that binds it; keys no token binds keep their value |
| TravisSpec.ApplyPair | code_builder/build_systems/travis.py:56-64 | one `KEY=VALUE` string entry sets KEY to VALUE and nothing else |
| TravisSpec.FirstString | code_builder/build_systems/travis.py:107-110 | the first string entry: present exactly when some entry is a string, and every earlier entry is not |
| TravisSpec.WithProviderVars | code_builder/build_systems/travis.py:124-127 | `TRAVIS_BUILD_DIR`, `CI`, `TRAVIS`, `TRAVIS_OS` are set over any earlier value; every other variable is kept |
| TravisSpec.WithCompilers | code_builder/build_systems/travis.py:185-190 | `CXX`, `CXX_FOR_BUILD`, `CC`, `CC_FOR_BUILD` take the probed compilers; every other variable is kept |
| TravisSpec.ApplyAllTokens | code_builder/build_systems/travis.py:112-113 | applying entries one by one assigns all their tokens left to right |
| TravisSpec.ResolveEnvTokens | code_builder/build_systems/travis.py:106-122 | without a raise, the environment is the old one with the resolution's tokens assigned in order: a list's first string; else every `global`, then the first string of `jobs`, then of `matrix` |
| TravisSpec.EnvExample | code_builder/build_systems/travis.py:106-122 | `global: [A=1, B=2]` with `jobs: [C=3, D=4]` sets A, B and C, never D |
| TravisSpec.ExampleFirstJob | code_builder/build_systems/travis.py:115-118 | only the first string of a `jobs` list applies |
| TravisSpec.ExampleGlobals | code_builder/build_systems/travis.py:112-113 | every `global` entry applies, in order |
| TravisSpec.ExampleSection | code_builder/build_systems/travis.py:112-122 | an absent `matrix` key iterates as an empty list |
| TravisSpec.RunListOrder | code_builder/build_systems/travis.py:72-79 | `run_scripts` runs a prefix of the commands in list order, each in the build directory under the unchanged environment |
| TravisSpec.RunListCounts | code_builder/build_systems/travis.py:72-79 | true only when every item was a command and ran; a raise comes after running exactly the commands before the first non-command |
| TravisSpec.RunListPasses | code_builder/build_systems/travis.py:72-79 | unless it returns false, every command it ran exited 0 |
| TravisSpec.RunListFails | code_builder/build_systems/travis.py:75-78 | on false, the last command it ran exited non-zero and every earlier one exited 0, so nothing ran after the failure |
| TravisSpec.PassCons | code_builder/build_systems/travis.py:72-79 | a run passes exactly when its first command passes and the rest pass after it |
| TravisSpec.RunListPrefix | code_builder/build_systems/travis.py:72-79 | what ran is a prefix of the list's commands up to the first non-string item, all of them unless it returns false; it raises exactly when a non-string item is reached |
| TravisSpec.RunScriptsOrder | code_builder/build_systems/travis.py:66-79 | a string is a one-command list; another non-list shape runs nothing; what ran is a prefix of the script's commands, all of them unless it returns false; it raises exactly for a list holding a non-string item |
| TravisSpec.RunPhasesOrder | code_builder/build_systems/travis.py:162-175 | phases run in the listed order: what ran is a prefix of the commands they reach, exactly those unless a phase returned false, so nothing runs after a raising phase; the phases raise exactly when one of them holds a non-string command |
| TravisSpec.PhaseOrder | code_builder/build_systems/travis.py:162-175 | one phase runs what its script reaches, as `RunScriptsOrder` states, and an absent phase runs nothing |
| TravisSpec.RunScriptsUnder | code_builder/build_systems/travis.py:72-79 | every command of a script runs in the build directory under the environment it starts with |
| TravisSpec.RunPhasesUnder | code_builder/build_systems/travis.py:162-175 | every command of the phases runs in the build directory under the environment they start with |
| TravisSpec.AddJobFlatten | code_builder/build_systems/travis.py:135-142 | one partition step appends the job to the concatenated stages |
| TravisSpec.AddJobShape | code_builder/build_systems/travis.py:135-142 | one partition step keeps the stage shape |
| TravisSpec.PartitionFromFlatten | code_builder/build_systems/travis.py:135-142 | the partition loop appends the jobs, in order, to the concatenated stages |
| TravisSpec.PartitionFromCount | code_builder/build_systems/travis.py:136-139 | each tagged job opens exactly one new stage once the first stage has a member |
| TravisSpec.PartitionFromShape | code_builder/build_systems/travis.py:135-142 | the partition loop keeps the stage shape |
| TravisSpec.PartitionShape | code_builder/build_systems/travis.py:133-142 | stages concatenate to the job list, each is non-empty, only a stage's first job carries `stage`, every later stage starts with one, and there are 1 + (tagged jobs after position 0) stages |
| TravisSpec.Keep | code_builder/build_systems/travis.py:145 | the list comprehension keeps exactly the matching jobs, as a subsequence |
| TravisSpec.KeepCounts | code_builder/build_systems/travis.py:145 | the comprehension keeps each matching job exactly as often as it occurs, and no other job |
| TravisSpec.Prefer | code_builder/build_systems/travis.py:146-147 | the filter applies only when some job matches; a non-empty stage stays non-empty |
| TravisSpec.PreferCounts | code_builder/build_systems/travis.py:145-147 | when some job matches, the stage becomes exactly the matching jobs, each as often as it occurs |
| TravisSpec.Narrow | code_builder/build_systems/travis.py:145-153 | the narrowed stage is a non-empty subsequence of the stage |
| TravisSpec.RepresentativeChoice | code_builder/build_systems/travis.py:145-155 | the chosen job is the first of the narrowed subsequence; amd64 when any job is, else linux when any job is, and clang when any candidate left by the OS filters is |
| TravisSpec.CleanKeepsLogs | code_builder/build_systems/travis.py:86-96 | a clean that does not raise keeps exactly the `.log` entries, in order |
| TravisSpec.LogEntries | code_builder/build_systems/travis.py:87-88 | the kept entries are exactly those whose names contain `.log` |
| TravisSpec.Overlay | code_builder/build_systems/travis.py:97-98 | after the copy, the build directory holds every source entry and the kept names |
| TravisSpec.SyncOrder | code_builder/build_systems/travis.py:83-101 | the copy runs exactly when the directory is empty or an update is forced and the clean does not raise; the sync raises exactly when that clean raises, with nothing run; on true the workspace is the cleaned one with the source copied over |
| TravisSpec.RunJobOrder | code_builder/build_systems/travis.py:156-175 | a job runs a prefix of its `before_install`, `install`, `before_script`, `script` commands in that order, exactly those it reaches unless it returns false; it raises exactly when its `env` is not iterable (running nothing) or a phase raises |
| TravisSpec.RunStagesOrder | code_builder/build_systems/travis.py:143-175 | stages run their representatives in stage order; unless one returns false, exactly the commands up to and including the first raising stage ran and nothing after it; the stages raise exactly when some stage is not all mappings or its representative raises |
| TravisSpec.StagesStep | code_builder/build_systems/travis.py:143-175 | the first stage followed, only when it returned true, by the rest runs the stages' plan, and raises exactly as the stages do |
| TravisSpec.RunMatrixOrder | code_builder/build_systems/travis.py:130-175 | the matrix part runs its stage commands in order, exactly those it reaches unless it returns false; it raises exactly when the `"stage" in job` test raises on some job or the stages raise |
| TravisSpec.RunTopLevelOrder | code_builder/build_systems/travis.py:177-206 | after the add-ons, top-level `before_install`, `install`, `before_script` run in order, exactly those reached unless it returns false, each in the build directory with `CC`, `CC_FOR_BUILD`, `CXX`, `CXX_FOR_BUILD` set to the compilers; it raises exactly when a phase does; `script` is not run |
| TravisSpec.ConfigureOrder | code_builder/build_systems/travis.py:81-206 | `configure` runs a prefix of its plan (copy, stage jobs, top-level phases, each only when nothing before it raised), the whole of it unless it returns false, so nothing runs after a raise; it raises exactly when the clean, the descriptor, its `env`, its job container, the stages or a top-level phase raises |
| TravisSpec.MatrixTopOrder | code_builder/build_systems/travis.py:130-206 | the matrix part then, only when it returns true, the top level runs the stage commands and then the top-level ones, and raises exactly when either does |
| TravisSpec.AfterSyncOrder | code_builder/build_systems/travis.py:102-206 | after a passing sync, `configure` runs nothing and raises when the descriptor is missing or not a mapping, its `env` is malformed or its job container is not a mapping; else it runs the matrix and top-level part |
| TravisSpec.BuildOrder | code_builder/build_systems/travis.py:208-215 | `build` is true with nothing run when `script` is absent, else runs a prefix of the `script` commands, all it reaches unless it returns false, raising exactly at a non-string command; no descriptor raises |
| TravisSpec.ThenFailFast | code_builder/build_systems/travis.py:72-79 | a run that passed and then failed fast fails fast as a whole, with the same cause |
| TravisSpec.RunListFailFast | code_builder/build_systems/travis.py:72-79 | unless `run_scripts` returns false every command it ran exited 0; on false the last command it ran exited non-zero and every earlier one exited 0 |
| TravisSpec.RunScriptsFailFast | code_builder/build_systems/travis.py:66-79 | the same for any script value; a mis-shaped one runs nothing |
| TravisSpec.RunPhasesFailFast | code_builder/build_systems/travis.py:162-175 | a phase that returns false stops the job: the failing command is the last one run, and every earlier one exited 0 |
| TravisSpec.RunJobFailFast | code_builder/build_systems/travis.py:156-175 | a job returns false either at its last command, which exited non-zero, or at refused add-ons with none of its commands run; otherwise every command passed |
| TravisSpec.RefusedCons | code_builder/build_systems/travis.py:143-161 | a refusal in a later stage comes after exactly the first stage's commands |
| TravisSpec.StagesThen | code_builder/build_systems/travis.py:143-175 | a first stage that passed, followed by stages that fail fast, fails fast as a whole and keeps the refused stage's position |
| TravisSpec.RunStagesFailFast | code_builder/build_systems/travis.py:143-175 | stages return false at a failing last command, or at a stage whose add-ons were refused after exactly the earlier stages ran; nothing runs after it |
| TravisSpec.RunMatrixFailFast | code_builder/build_systems/travis.py:130-175 | the same for the matrix part |
| TravisSpec.RunTopLevelFailFast | code_builder/build_systems/travis.py:177-206 | the top level returns false at a failing last command, or at refused add-ons with none of its commands run |
| TravisSpec.SyncFailFast | code_builder/build_systems/travis.py:97-101 | the sync returns false only when the copy, its one command, exited non-zero |
| TravisSpec.ConfigureMatrixStop | code_builder/build_systems/travis.py:143-161 | a stage refusal after the copy is a `configure` refusal after the copy and the earlier stages |
| TravisSpec.ConfigureTopStop | code_builder/build_systems/travis.py:177-180 | a top-level refusal after the whole matrix is a `configure` refusal after the copy and every stage |
| TravisSpec.ConfigureTailFailFast | code_builder/build_systems/travis.py:156-206 | the matrix and top-level part of `configure` fails fast after a passing copy |
| TravisSpec.ConfigureFailFast | code_builder/build_systems/travis.py:81-206 | unless `configure` returns false every command it ran exited 0; on false either its last command (the copy or a phase command) exited non-zero after all earlier ones passed, or every command passed and add-ons were refused with nothing run past that stage or the top-level add-ons |
| TravisSpec.BuildFailFast | code_builder/build_systems/travis.py:208-215 | `build` fails fast like `run_scripts` |
| TravisSpec.LocalPath | code_builder/build_systems/travis.py:224-228 | an artifact has a local path exactly when its path contains the build directory |
| TravisSpec.LocalPathUnder | code_builder/build_systems/travis.py:224-228 | a file under the build directory keeps its path below it: the text after the first occurrence and one separator |
| TravisSpec.Mismatches | code_builder/build_systems/travis.py:225-227 | the logged paths are found paths that do not contain the build directory |
| TravisSpec.RelocateLog | code_builder/build_systems/travis.py:224-227 | every mismatching path is logged once, in glob order, and the loop goes on past it |
| TravisSpec.RelocateFrame | code_builder/build_systems/travis.py:221-233 | paths the loop neither moves from nor to keep their contents |
| TravisSpec.RelocateMoves | code_builder/build_systems/travis.py:229-233 | with distinct present sources and distinct destinations outside them, nothing raises and each artifact ends at `target/local_path` with its contents |
| Travis.Project.constructor | code_builder/build_systems/travis.py:46-54 | the project holds its directories, index and name, and the state starts with an empty history and error log |
| Travis.Project.SetEnvVars | code_builder/build_systems/travis.py:56-64 | returns false exactly for a non-string, whose environment is unchanged; otherwise binds each `KEY=VALUE` token left to right |
| Travis.Project.ApplyEach | code_builder/build_systems/travis.py:112-113 | every entry through `set_env_vars`, in order |
| Travis.Project.ApplyFirstString | code_builder/build_systems/travis.py:107-110 | only the first string entry through `set_env_vars` |
| Travis.Project.RunScripts | code_builder/build_systems/travis.py:66-79 | the history, error log and outcome are those of `TravisSpec.RunScripts` |
| Travis.Project.RunPhases | code_builder/build_systems/travis.py:162-175 | the state of `TravisSpec.RunPhases` |
| Travis.Project.RunJob | code_builder/build_systems/travis.py:156-175 | the state of `TravisSpec.RunJob`: env entries, add-ons, then the four phases |
| Travis.Project.CleanWorkspace | code_builder/build_systems/travis.py:86-96 | the build directory the entry-by-entry removal leaves, and whether removing a link to a directory raised |
| Travis.Project.Sync | code_builder/build_systems/travis.py:83-101 | the state of `TravisSpec.Sync` |
| Travis.Project.ResolveEnv | code_builder/build_systems/travis.py:106-122 | the environment and raise flag of `TravisSpec.ResolveEnv` |
| Travis.Project.PartitionStages | code_builder/build_systems/travis.py:133-142 | raises exactly when a `stage` test raises; otherwise the stages are `Partition(jobs)` |
| Travis.Project.RunMatrix | code_builder/build_systems/travis.py:130-175 | the state of `TravisSpec.RunMatrix` |
| Travis.Project.RunTopLevel | code_builder/build_systems/travis.py:177-206 | the state of `TravisSpec.RunTopLevel` |
| Travis.Project.Configure | code_builder/build_systems/travis.py:81-206 | the state of `TravisSpec.Configure` |
| Travis.Project.Build | code_builder/build_systems/travis.py:208-215 | the state of `TravisSpec.Build` |
| Travis.Project.MoveArtifacts | code_builder/build_systems/travis.py:222-233 | the error log and files `Relocate` describes |
| Travis.Project.GenerateBitcodes | code_builder/build_systems/travis.py:221-233 | the relocation of the `.bc` files |
| Travis.Project.GenerateAst | code_builder/build_systems/travis.py:235-244 | the relocation of the `.ast` files; true unless a move raised |
| CodeBuilderSpec.DirUsage | code_builder/code_builder.py:54-67 | a named directory gives the sum and count of its regular-file sizes; a missing one gives (0, 0) |
| CodeBuilderSpec.MeasuredFields | code_builder/code_builder.py:97-105 | build sizes are written only when `build.dir` exists, source sizes only when `source` exists; a `source` without `dir` raises; status is untouched |
| CodeBuilderSpec.RetainEffect | code_builder/code_builder.py:106-119 | only when `keep_build_files` is `"False"`; only the project's build directory changes, to its retained listing; a second pass changes nothing |
| CodeBuilderSpec.TaskCloneFail | code_builder/code_builder.py:78-83 | a raising clone returns the record with status `clone fail`, leaves the process registered and does not decrement |
| CodeBuilderSpec.TaskCrash | code_builder/code_builder.py:84-105 | a raising build marks the caller's record `docker_crash`, still measures it, and returns it under its own index and name |
| CodeBuilderSpec.TaskRegistry | code_builder/code_builder.py:73-125 | every task registers its process; one that gets past cloning without raising unregisters it and decrements `builds_left` by exactly one; any other leaves the counter |
| CodeBuilderSpec.TaskRetention | code_builder/code_builder.py:106-119 | when source files are kept: a returning task retains the build directory named after the dispatched record's source directory when build files are not kept, and changes no other directory |
| CodeBuilderSpec.TaskDropsSource | code_builder/code_builder.py:106-122 | when source files are not kept: a returning task has deleted the dispatched record's source directory, and every other directory is as the dispatch left it apart from the retained build directory when build files are not kept |
| CodeBuilderSpec.TaskBuilt | code_builder/code_builder.py:84-128 | when the build returns: the task returns exactly when measuring and cleaning up do not raise, under the builder's index and name, with the builder's record, or the caller's record carrying its measured sizes when that is what the builder handed back |
| CodeBuilderSpec.DbSubmissions | code_builder/code_builder.py:188-206 | a database's repositories are submitted in order with consecutive indices |
| CodeBuilderSpec.SubmissionsIndexed | code_builder/code_builder.py:180-206 | one submission per repository, with indices 0..n-1 in submission order |
| CodeBuilderSpec.SubmissionAt | code_builder/code_builder.py:180-206 | the j-th repository of the i-th database is submission number (repositories before it) + j |
| CodeBuilderSpec.SubmissionsSplit | code_builder/code_builder.py:181-206 | each database's submissions form one contiguous block, in database order |
| CodeBuilderSpec.TotalAppend | code_builder/code_builder.py:149-151 | `projects_count` over two groups of databases adds up |
| CodeBuilderSpec.RunAllAppend | code_builder/code_builder.py:180-206 | running two batches in turn is running them together |
| CodeBuilderSpec.RunAllCounts | code_builder/code_builder.py:171-206 | `builds_left` ends at its start minus the tasks that popped; one result per submission, appended in order |
| CodeBuilderSpec.Put | code_builder/code_builder.py:212 | `d[k] = v`: an existing key's value is replaced in place, a new key is appended; keys stay distinct |
| CodeBuilderSpec.LookupPut | code_builder/code_builder.py:212 | after `d[k] = v`, `k` maps to `v` and every other key is unchanged |
| CodeBuilderSpec.LookupIndex | code_builder/code_builder.py:210-212 | with distinct keys, lookup finds the one entry under a key |
| CodeBuilderSpec.CollectTable | code_builder/code_builder.py:210-212 | aborts exactly when a task raised; else one entry per distinct name in first-submission order, each with the last record submitted under it |
| CodeBuilderSpec.LastReturned | code_builder/code_builder.py:210-212 | a name has a last record exactly when some returned result carries it |
| CodeBuilderSpec.LastBeforeStep | code_builder/code_builder.py:210-212 | reading one more result moves its record into the table |
| CodeBuilder.Registry.constructor | code_builder/code_builder.py:170-171 | the registry starts with no running build and `builds_left` at the project count |
| CodeBuilder.Context.constructor | code_builder/code_builder.py:43-47 | a context holds the project count and no loggers |
| CodeBuilder.Context.SetLoggers | code_builder/code_builder.py:49-51 | both loggers attached |
| CodeBuilder.Worker.constructor | code_builder/code_builder.py:25-26 | a fresh process has no loggers and the flag down |
| CodeBuilder.Worker.Initialize | code_builder/code_builder.py:30-40 | log files opened only on the first call, with counters at the project count; later calls reuse them; every call attaches them to the context |
| CodeBuilder.GetDirSize | code_builder/code_builder.py:54-67 | the pair equals `DirUsage`: sum and count of regular-file sizes, links excluded |
| CodeBuilder.Walk | code_builder/code_builder.py:59-65 | the accumulators over a listing equal its usage |
| CodeBuilder.RetainBuildFiles | code_builder/code_builder.py:110-119 | the build directory becomes its retained listing and no other directory changes |
| CodeBuilder.RetainEntry | code_builder/code_builder.py:111-119 | one entry removed or kept as `Survives` says |
| CodeBuilder.RetainStep | code_builder/code_builder.py:111-117 | the retained prefix grows by an entry exactly when it survives |
| CodeBuilder.DownloadAndBuild | code_builder/code_builder.py:70-128 | the result, registry and disk are those of `TaskSpec` |
| CodeBuilder.Finish | code_builder/code_builder.py:84-128 | the result, registry and disk are those of `AfterClone` |
| CodeBuilder.Measure | code_builder/code_builder.py:97-105 | the record `Measured` describes |
| CodeBuilder.CleanUp | code_builder/code_builder.py:106-122 | retention then source deletion, each raising without a source directory and keeping what was done |
| CodeBuilder.Report | code_builder/code_builder.py:218-244 | the checkpoint first, one statistics update per table entry in table order, the details last |
| CodeBuilder.CountProjects | code_builder/code_builder.py:149-151 | `projects_count` is the number of repositories over all databases |
| CodeBuilder.MakeDir | code_builder/code_builder.py:142-147 | the directory exists afterwards; an existing one keeps its contents |
| CodeBuilder.StartPool | code_builder/code_builder.py:172 | the pool has the requested number of fresh, uninitialised processes |
| CodeBuilder.RunTask | code_builder/code_builder.py:189-204 | the chosen process initialises, then runs the task as `TaskSpec` describes |
| CodeBuilder.Submit | code_builder/code_builder.py:189-206 | the run grows by one `Step` |
| CodeBuilder.RunAllStep | code_builder/code_builder.py:188-206 | the run from submission k is its step, then the rest |
| CodeBuilder.RunDb | code_builder/code_builder.py:181-207 | the run from a database's first submission is its batch, then the rest |
| CodeBuilder.SubmitDb | code_builder/code_builder.py:188-206 | one database's repositories run in order, numbered from the running index |
| CodeBuilder.SubmitAll | code_builder/code_builder.py:180-207 | results, registry and disk are `RunAll` over all submissions, in order |
| CodeBuilder.CollectResults | code_builder/code_builder.py:210-212 | succeeds exactly when `Collect` does, and the table is its value |
| CodeBuilder.ReportTable | code_builder/code_builder.py:218-222 | the events of `Report` |
| CodeBuilder.BuildProjects | code_builder/code_builder.py:131-244 | a pool size below one raises before any task; otherwise the results and registry are the sequential run from `builds_left` = `projects_count`; success exactly when no task raised; the report follows the table |

## Left out

- Shell execution, `cp -a`, `rm -rf`, `shutil.rmtree`, `shutil.move`, `os.walk` and `makedirs` are not run. The shell is an oracle on the invocation history. The disk is a map from directory path to listing. Artifacts live in a flat store from path to contents, so creating their parent directories is not modelled.
- YAML parsing is left out: the descriptor is an input tree. Opening a missing `.travis.yml` raises, which the model derives from the build directory listing.
- `travis_addons`, `get_c_compiler`/`get_cxx_compiler`, `recognize_and_build` and the database cloners are foreign calls. They are parameters: a boolean oracle, two strings, and two functions that give the record and disk afterwards.
- `open_logfiles`, the logger objects and their output are left out. A process's loggers are `Sink` values carrying the process id and the counter; nothing is written.
- The globs `**/*.bc` and `**/*.ast` are left out. The found paths are a parameter, in glob order.
- `re.search` is modelled as literal substring search. It differs when the build directory contains regular-expression metacharacters.
- `ProcessPoolExecutor` and `Manager().dict()` sharing are left out. Tasks run one at a time, in submission order, as they are submitted. The process that runs task `idx` is `processName(slot(idx) % pool)`, so the scheduling is a parameter. Interleavings of tasks on the shared registry and disk are not modelled.
- `Statistics`, printing, timing and JSON formatting are left out. The report is a sequence of events: the `current_build.json` checkpoint, the statistics updates and the details dump (code_builder/code_builder.py:218-222 and 240-244). What lies between the updates and the details dump is not modelled: `print_stats`, the `log_dir` creation, the `save_*` dumps and the summary file (code_builder/code_builder.py:226-239).
- `Project.clean` (code_builder/build_systems/travis.py:246-249) is left out. It removes and recreates `<repository>_build`, a directory the model does not distinguish from the build directory. No code in the modelled core calls it.
- `TravisSpec.RelocateMoves` proves delivery only when sources and destinations do not collide. With colliding paths it states nothing, because the outcome then depends on move order in ways the source does not specify.
- `int(cfg["clone"]["threads"])` is left out: the thread count arrives already as an integer. A non-numeric value, which raises in Python, is not modelled.
- `TravisSpec.Bind`: the model binds any name the split yields. `os.environ[name] = value` raises `ValueError` for an empty name (a token such as `=x`) and for a NUL character in the name or value; that raise is not modelled.
- `Travis.Project.SetEnvVars`: the same `os.environ` raise for an empty name or a NUL character is not modelled; the method binds as `TravisSpec.Bind` does.
- `TravisSpec.RunList`: a failing command's `stderr` is decoded as UTF-8 for the error log. A decode error, which would raise instead of returning false, is not modelled: a failing command always returns false.
- `TravisSpec.Sync`: the same UTF-8 decode of the copy's `stderr` is not modelled; a failing copy always returns false.
- `CodeBuilder.ThreadsCount`: the source tests `cfg["clone"]["multithreaded"]` for Python truthiness (the string `"False"` is true). The model takes the flag already converted to a boolean.
- `Yaml.Get`: a mapping's keys are assumed distinct. For a duplicate key the model returns the first value, while PyYAML keeps the last.
