# Task store, dependency graph and build engine of `build-system`, in Dafny

This project models the core of the `build-system` repository. It models:

- the value types of the task store: task identifiers, statuses, metadata, task records, snapshots and errors;
- the **dependency graph**: a forward map from each task to the tasks it depends on, and a reverse map from each task to its dependents. Breadth-first cycle detection guards it, and it reports ready tasks;
- the **state manager**: the task map kept beside the graph. It checks that dependencies exist and that ids are new, gates `Completed` on completed dependencies, lists and filters tasks, and takes and restores snapshots;
- the **build engine**: it runs one task through the store. It checks the dependencies, records a resource entry, moves the task to Running and then to Completed, and releases the entry. It also cancels tasks and answers status queries;
- the **project generator**: the ordered validator of a project design, the case-insensitive choice of build file by language, the text of `requirements.txt` and `Cargo.toml`, and the order of the filesystem actions that lay a project out;
- the **project generation configuration builder**: map inserts, list appends and script replacement, each leaving the other fields alone, and the sample web project built with them.

Modules follow the source files:

| module | file | source |
|---|---|---|
| `Basics` | `basics.dfy` | `Option`, `Result`, and the enumeration of a set in an unspecified order |
| `TaskTypes` | `task_types.dfy` | `src/state/types.rs`, `src/state/error.rs` |
| `Reachability` | `reachability.dfy` | paths and acyclicity of the forward map, and the invariant of the breadth-first search |
| `Dependency` | `dependency_graph.dfy` | `src/state/dependency.rs` (class `DependencyGraph`) |
| `Manager` | `state_manager.dfy` | `src/state/manager.rs` (class `StateManager`) |
| `Build` | `build_engine.dfy` | `src/build/mod.rs`, `src/build/error.rs` (class `BuildEngine`) |
| `Generator` | `project_generator.dfy` | `src/project_generator.rs` |
| `Generation` | `project_generation.dfy` | `src/prompt/project_generation.rs` (class `ProjectGenerationConfig`) |

The graph, the store, the engine and the builder update their fields in place. They are Dafny classes whose methods state their whole new state. Their invariants are:

- `DependencyGraph.Valid()`: the forward map is acyclic.
- `StateManager.Valid()`: the graph is acyclic, and the reverse map mirrors every forward edge.

Rust's `HashMap` and `HashSet` iterate in an unspecified order. Every loop over one walks an enumeration of the set whose order is left open. Each result that depends on that order is stated for whatever order was used; a ghost out-parameter names it. Timestamps (`Utc::now()`) are parameters of type `nat`, readings of an abstract clock. Durations are whole seconds.

## Model

| member | source | states |
|---|---|---|
| TaskTypes.NewTaskId | src/state/types.rs:12-16 | the identifier wraps the given string unchanged |
| TaskTypes.NewTaskIdInjective | src/state/types.rs:9-16 | two identifiers are equal exactly when their strings are |
| TaskTypes.Display | src/state/types.rs:18-22 | the displayed text rebuilds the same identifier |
| TaskTypes.FromStr | src/state/types.rs:24-30 | parsing never fails, and displaying the parsed identifier gives back the input |
| TaskTypes.DisplayParseRoundTrip | src/state/types.rs:18-30 | parsing the display of an identifier gives the identifier back |
| TaskTypes.DefaultMetadata | src/state/types.rs:53-66 | empty name and owner, no description, no dependencies, zero duration, priority 0, no tags, empty extra info |
| TaskTypes.NewTaskState | src/state/types.rs:77-88 | status Pending, default metadata, created and updated at the same instant |
| TaskTypes.DefaultTaskState | src/state/types.rs:90-95 | exactly the new task whose id is "default": Pending, default metadata, created and updated at `now` |
| Reachability.EmptyAcyclic | src/state/dependency.rs:17-22 | the empty forward map has no cycle |
| Reachability.NoSelfDependency | src/state/dependency.rs:29-31 | in an acyclic graph no task is its own dependency |
| Reachability.ClosedSetHoldsReachable | src/state/dependency.rs:104-127 | a set that holds the start tasks and is closed under edges holds every reachable task (why a finished search is complete) |
| Reachability.SearchStart | src/state/dependency.rs:105-110 | the queue seeded with the new dependencies and an empty visited set satisfies the search invariant |
| Reachability.QueueFound | src/state/dependency.rs:111-115 | meeting the task at the head of the queue proves it reachable from the new dependencies |
| Reachability.QueueExpand | src/state/dependency.rs:116-123 | expanding an unvisited head keeps the invariant and strictly shrinks the set of tasks still to visit |
| Reachability.QueueSkip | src/state/dependency.rs:116-123 | dropping an already visited head keeps the invariant |
| Reachability.SearchExpand | src/state/dependency.rs:116-123 | expanding a waiting task keeps the invariant over sets, with fewer tasks left to visit |
| Reachability.SearchSkip | src/state/dependency.rs:116-123 | dropping a visited waiting task keeps the invariant over sets |
| Reachability.SearchFound | src/state/dependency.rs:111-115 | a waiting task is reachable |
| Reachability.SearchDone | src/state/dependency.rs:124-126 | an empty queue with the task never visited proves it unreachable |
| Reachability.CycleAfterReplace | src/state/dependency.rs:26-49 | a cycle after replacing a task's dependencies is an old cycle or passes through the task, which was then reachable from its new dependencies |
| Reachability.AddKeepsAcyclic | src/state/dependency.rs:26-49 | replacing a task's dependencies by a set from which it cannot be reached keeps an acyclic graph acyclic |
| Reachability.RemoveKeepsAcyclic | src/state/dependency.rs:52-70 | dropping a task's entry keeps an acyclic graph acyclic |
| Dependency.AddKeepsReverseCovers | src/state/dependency.rs:38-46 | a successful add keeps every forward edge mirrored in the reverse map |
| Dependency.DependencyGraph.constructor | src/state/dependency.rs:17-22 | both maps empty, the graph acyclic |
| Dependency.DependencyGraph.AddTask | src/state/dependency.rs:26-49 | a task reachable from its new dependencies (itself included) is refused with CircularDependency and neither map changes; otherwise its entry becomes the set of the dependencies, it becomes a dependent of each, the graph stays acyclic and the reverse map keeps mirroring the forward edges |
| Dependency.DependencyGraph.RemoveTask | src/state/dependency.rs:52-70 | always succeeds; the task leaves both maps and the dependents of each former dependency; other tasks keep their forward edges to it; the graph stays acyclic |
| Dependency.DependencyGraph.GetDependencies | src/state/dependency.rs:73-80 | the task's dependency set, or TaskNotFound exactly when it has no entry |
| Dependency.DependencyGraph.GetDependents | src/state/dependency.rs:82-85 | never fails; the recorded dependents, empty for an unknown task |
| Dependency.DependencyGraph.GetReadyTasks | src/state/dependency.rs:88-101 | exactly the tasks with an entry whose every dependency has no recorded dependents; every task without dependencies is ready; while the reverse map mirrors the forward edges no task with a dependency is |
| Dependency.DependencyGraph.WouldCreateCycle | src/state/dependency.rs:104-127 | true exactly when the task is reachable from the new dependencies along forward edges; the loop ends because each task is expanded at most once |
| Manager.FirstMissing | src/state/manager.rs:26-31 | none exactly when every declared dependency is stored; otherwise the first one, in list order, that is not |
| Manager.WithStatus | src/state/manager.rs:77-81 | only the status and update instant of that one record change; every other record and field is kept |
| Manager.StatusTwice | src/state/manager.rs:53-85 | a second status update of the same record overrides the first |
| Manager.GateSurvivesOwnUpdate | src/state/manager.rs:61-74 | in an acyclic graph, changing a task's own status keeps its completion gate open |
| Manager.RefusalOnlyWhenUnsettable | src/state/manager.rs:53-74 | every error a status update may report names a reason the update is not allowed |
| Manager.Collect | src/state/manager.rs:96-108 | the records of exactly the chosen stored keys that pass the filter, each once |
| Manager.StateManager.constructor | src/state/manager.rs:17-22 | empty store and empty graph, invariant established |
| Manager.StateManager.CreateTask | src/state/manager.rs:24-43 | a missing dependency (the first in list order) is reported before an existing id; both leave store and graph unchanged; otherwise the record is stored and then registered in the graph, and stays stored even when the graph refuses a cycle; after success the record reads back exactly |
| Manager.StateManager.GetTask | src/state/manager.rs:45-51 | the stored record, or TaskNotFound exactly when absent |
| Manager.StateManager.UpdateTaskStatus | src/state/manager.rs:53-85 | succeeds exactly when the task is stored and, for Completed, has a graph entry whose dependencies are all stored and completed; then only that record's status and update instant change; on failure nothing changes and the error is TaskNotFound or DependenciesNotMet as the failing check dictates |
| Manager.StateManager.DeleteTask | src/state/manager.rs:87-94 | drops a stored record, or TaskNotFound and nothing changes; afterwards the task cannot be read; the graph is untouched |
| Manager.StateManager.ListTasks | src/state/manager.rs:96-99 | one entry per stored task, each once |
| Manager.StateManager.GetTasksByStatus | src/state/manager.rs:101-108 | exactly the stored tasks with that status, each once |
| Manager.StateManager.GetReadyTasks | src/state/manager.rs:110-122 | the stored tasks the graph reports ready, which are exactly the stored tasks with a graph entry and no dependencies |
| Manager.StateManager.GetTaskDependencies | src/state/manager.rs:124-126 | the graph's dependency set of the task, or TaskNotFound exactly when it has no entry |
| Manager.StateManager.GetTaskDependents | src/state/manager.rs:128-130 | never fails; the recorded dependents |
| Manager.StateManager.TakeSnapshot | src/state/manager.rs:132-139 | a copy of the whole task map with the given instant |
| Manager.StateManager.RestoreSnapshot | src/state/manager.rs:141-145 | the task map becomes the snapshot's, wholesale |
| Manager.StateManager.DeleteThenRestore | src/state/manager.rs:256-269 | restoring a snapshot taken before a deletion leaves the task map as it began |
| Build.RefusalOnlyWhenBlocked | src/build/mod.rs:34-43 | every error a refused execution may report names a dependency that is not completed |
| Build.AllocateThenRelease | src/build/mod.rs:84-96 | recording a task's entry and then releasing it leaves no entry for that task |
| Build.BuildEngine.constructor | src/build/mod.rs:21-26 | the engine uses the given store and starts with no resource entries |
| Build.BuildEngine.ExecuteTask | src/build/mod.rs:29-74 | an unknown task gives StateError(TaskNotFound) and nothing changes; a task with a dependency not completed is refused with a missing or not-met error, its status unchanged and no entry left; otherwise the store passes through the state where only the task is Running (at the start instant) to the state where only the task is Completed, and its resource entry is gone; a resource shortage would return InsufficientResources |
| Build.BuildEngine.CheckResources | src/build/mod.rs:77-81 | always grants, so InsufficientResources never arises |
| Build.BuildEngine.AllocateResources | src/build/mod.rs:84-90 | records the task's estimated seconds under its id |
| Build.BuildEngine.ReleaseResources | src/build/mod.rs:93-96 | drops the task's entry and nothing else |
| Build.BuildEngine.RunBuild | src/build/mod.rs:99-108 | always succeeds |
| Build.BuildEngine.CancelTask | src/build/mod.rs:111-123 | an unknown task gives StateError(TaskNotFound); otherwise the task becomes Failed whatever its status was and its resource entry is dropped |
| Build.BuildEngine.GetTaskStatus | src/build/mod.rs:126-130 | the stored status, or StateError(TaskNotFound) exactly when absent |
| Build.BuildEngine.ListRunningTasks | src/build/mod.rs:133-137 | exactly the stored tasks whose status is Running, each once |
| Build.BuildEngine.GetReadyTasks | src/build/mod.rs:140-143 | the store's ready tasks: stored, with a graph entry and no dependencies |
| Generator.TrimStart | src/project_generator.rs:59-82 | drops exactly the leading white space: a suffix, all dropped characters white, the first kept one not |
| Generator.TrimEnd | src/project_generator.rs:59-82 | drops exactly the trailing white space: a prefix, all dropped characters white, the last kept one not |
| Generator.TrimEmptyIffBlank | src/project_generator.rs:59-82 | a string trims to empty exactly when every character is white space |
| Generator.Validate | src/project_generator.rs:59-82 | a blank name is reported first, then a blank language, then an empty directory structure, each with its message; accepted exactly when none applies |
| Generator.BuildFileFor | src/project_generator.rs:106-118 | an unsupported language is refused with "Unsupported language: " and the language as given |
| Generator.BuildFileByName | src/project_generator.rs:106-118 | Cargo.toml exactly for rust, package.json exactly for javascript or typescript, requirements.txt exactly for python, all without regard to case |
| Generator.BuildFileIgnoresCase | src/project_generator.rs:106-118 | two language names that differ only in case choose the same build file |
| Generator.RequirementsText | src/project_generator.rs:156-169 | one `name==version` line per production dependency, each key once, every production entry's line present; development dependencies are not written |
| Generator.CargoTomlText | src/project_generator.rs:192-214 | the package table, the dependency table with one line per production entry, and a development table only when there are development entries, each key once |
| Generator.CargoListsProduction | src/project_generator.rs:200-203 | every production entry has its `name = "version"` line in Cargo.toml |
| Generator.CargoListsDevelopment | src/project_generator.rs:205-211 | every development entry has its line in the development table |
| Generator.CargoDevTableOnlyWhenNeeded | src/project_generator.rs:205-211 | without development entries the text ends with the dependency table; with them it ends with the development table |
| Generator.ComponentsCreated | src/project_generator.rs:120-132 | a listed directory and each of its files are created |
| Generator.AllComponentsCreated | src/project_generator.rs:120-132 | every directory of the structure and every file in it are created |
| Generator.GenerateComponents | src/project_generator.rs:120-132 | each directory is created and then its files, every directory once |
| Generator.RequirementsListEveryEntry | src/project_generator.rs:156-169 | a requirements text that lists every production key holds the `name==version` line of every production entry |
| Generator.CargoListsEveryEntry | src/project_generator.rs:192-214 | a Cargo.toml text that lists every key of both maps holds the line of every production and every development entry |
| Generator.BuildAction | src/project_generator.rs:106-118 | given walk orders that list every key once, the one write for a supported language is a file write exactly when the language does not map to `package.json` (JavaScript or TypeScript): `requirements.txt` under the root holding every production entry's line, `Cargo.toml` under the root holding every production and development entry's line, or `package.json` |
| Generator.GenerateBuildConfig | src/project_generator.rs:106-118 | writes exactly one file under the project root: `Cargo.toml` with the Cargo text, or `requirements.txt` with the requirement lines, each key once in the walk order, or `package.json`; an unsupported language returns its error having written nothing |
| Generator.GenerateProjectStructure | src/project_generator.rs:84-104 | an invalid design is refused before any filesystem action; otherwise the root is cleared if present, recreated and given its README; an unsupported language stops exactly there with its error; otherwise the actions are the preamble, then the build-file write (its walk orders listing every dependency key once, so every entry is written), then the component actions, every directory and file is created, and the root is returned |
| Generation.Fresh | src/prompt/project_generation.rs:84-111 | the four given fields kept, every map and list empty, every build string empty |
| Generation.ProjectGenerationConfig.constructor | src/prompt/project_generation.rs:84-111 | the new configuration is `Fresh` of its arguments |
| Generation.ProjectGenerationConfig.AddProductionDependency | src/prompt/project_generation.rs:114-116 | sets or overwrites one production entry; the development map and every other field are unchanged |
| Generation.ProjectGenerationConfig.AddDevelopmentDependency | src/prompt/project_generation.rs:119-121 | sets or overwrites one development entry; the production map and every other field are unchanged |
| Generation.ProjectGenerationConfig.SetBuildScripts | src/prompt/project_generation.rs:124-130 | replaces the three scripts; the build tool and every other field are unchanged |
| Generation.ProjectGenerationConfig.AddInitializationCommand | src/prompt/project_generation.rs:133-135 | appends the command at the end; nothing else changes |
| Generation.ProjectGenerationConfig.AddRecommendation | src/prompt/project_generation.rs:138-140 | appends the recommendation at the end; nothing else changes |
| Generation.ProjectGenerationConfig.SampleWebProject | src/prompt/project_generation.rs:143-198 | a rust actix-web web application with 5 production and 3 development dependencies, 3 directories (src with 4 files), the cargo build configuration, 3 setup commands starting with `cargo new task-tracker`, and 3 recommendations |
| Generation.ProjectGenerationConfig.SampleDependencies | src/prompt/project_generation.rs:151-161 | five production entries, actix-web at 4.3.1 among them, and three development entries, mockall at 0.11.4 among them |
| Generation.ProjectGenerationConfig.SampleProduction | src/prompt/project_generation.rs:151-156 | five distinct production entries; development untouched |
| Generation.ProjectGenerationConfig.SampleDevelopment | src/prompt/project_generation.rs:158-161 | three distinct development entries; production untouched |
| Generation.ProjectGenerationConfig.SampleLayout | src/prompt/project_generation.rs:163-185 | three directories (src with four files), build tool cargo with the three cargo scripts |
| Generation.ProjectGenerationConfig.SampleSteps | src/prompt/project_generation.rs:187-195 | three setup commands, the first `cargo new task-tracker`, and three recommendations |

## Left out

- Concurrency: the `Arc<RwLock<…>>` locks and `async` are modelled as sequential calls. Two race windows therefore have no counterpart: the read lock released between steps of the cycle search (src/state/dependency.rs:118-121), and the gap between the dependency reads and the insert in `create_task` (src/state/manager.rs:26-38).
- Wall-clock time and sleeping: `Utc::now()` becomes a `nat` parameter at each status update. The sleep in `run_build` (src/build/mod.rs:106) is not modelled; only its outcome, success, is. Sub-second durations and the conversion of the estimated duration to a number of seconds are not modelled.
- Manager.StateManager.UpdateTaskStatus: when one dependency is missing and another is not completed, the error reported depends on `HashSet` order. The contract allows either error rather than naming one.
- Build.BuildEngine.ExecuteTask: the same order dependence applies to its refusal error.
- Build.BuildEngine.ExecuteTask: the build always succeeds, so the Failed branch after a failing build is present but never reached.
- `StateSnapshot` has no version field, as declared at src/state/types.rs:97-101. The `version` that src/state/manager.rs:134-135 sets is not modelled.
- `priority` follows src/state/types.rs:48 (a 32-bit integer). The `TaskPriority` enum used by some tests does not exist in the source.
- Generator.GenerateBuildConfig: the text of `package.json` is not modelled; its write is an unmodelled action. It is a serialised JSON document, and serialisation is not part of this model.
- Generator.GenerateProjectStructure: I/O failures (`IoError`) are not modelled; every filesystem action is taken to succeed. The text of the project README (`generate_readme`) is not modelled either.
- `generate_architecture_md`, `ProjectGenerator::generate`, `parse_project_design`, `generate_project` and the `ExecutableTool` implementation (src/project_generator.rs:216-332) are not modelled. They are JSON parsing and file writing around the modelled core.
- `Path::join` follows Unix rules; Windows prefixes are not modelled.
- Language names are lowered letter by letter over ASCII. Rust's full Unicode lowering also maps a few non-ASCII characters to ASCII letters (the Kelvin sign to `k`). None of those letters occurs in `rust`, `javascript`, `typescript` or `python`, so the choice of build file is the same.
- The `ProjectType`/`DependencyConfig` re-exports at src/prompt/project_generation.rs:5 and 202-208 conflict with the local declarations. The model follows the struct and `impl` at lines 8-199. The generator's and the builder's identical `DependencyConfig`, `BuildConfig` and `BuildScripts` are declared once.
- Generation.ProjectGenerationConfig.SampleWebProject: states the counts and the entries named in its row, not every literal of the sample.
- The LLM and HTTP clients, persistent prompt storage, subprocess and filesystem tools, the CLI, logging, configuration and events are not part of this model. They are I/O or foreign-library glue.
- Tests written against a different `BuildEngine` API (src/build/tests.rs, tests/build/*) describe code that is not in the source and are not reflected.
- The float-valued `ResourceConstraint` (src/build/types.rs) is unused by the core and is not modelled.
