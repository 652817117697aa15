# rusk task runner: a verified model of its core

rusk reads tasks from a YAML file and runs them. Each task has arguments and options, which become variables. A task's run items each hold:

- `when` conditions;
- shell commands;
- subtasks;
- `set-environment` entries.

A task may also have `finally` items, which run whatever happens before them.

This project models the core that does the following:

- validates a configuration;
- converts it into runtime tasks;
- resolves `${name}` placeholders;
- evaluates conditions;
- runs commands;
- executes a task with its run and `finally` items against a mutable context;
- reads the few values the command line decides.

It then proves what that core promises.

## Modules

| File | Module | What it models |
|---|---|---|
| `errors.dfy` | `Errors` | `Option`, `Result`, and the configuration, execution and interpolation error enums. |
| `world.dfy` | `World` | The outside world. A process is an `Invocation` (argv, working directory, environment, stdio). A fixed `Oracle` answers every spawn and says which paths exist. The class `Os` holds the process environment and the log of observable events (spawned processes and printed lines). |
| `interpolate.dfy` | `Interpolator` | The `${name}` resolver, its strict, list and map forms, and the laws of resolution. |
| `context.dfy` | `Contexts` | The mutable `Context` class. `ContextState` is a value snapshot of all its fields. Also covers verbosity gating and the status lines. |
| `config_types.dfy` | `ConfigTypes` | The configuration datatypes as parsed. Also the three custom decoders that accept a string, a list, a mapping or null. |
| `task.dfy` | `Tasks` | The runtime types, their conversion from configuration, task validation and dependency extraction. |
| `schema.dfy` | `Schema` | Configuration validation: source/target consistency, duplicate names, option types, and a depth-first cycle search over subtasks. |
| `command.dfy` | `Commands` | `execute_command` and `check_command`. |
| `when.dfy` | `Conditions` | `evaluate_when` and `evaluate_when_list`. |
| `orchestrator.dfy` | `Execution` | `Task::execute`: run items, `finally` items, `set-environment`, the task stack and the variable merge. |
| `app.dfy` | `Cli` | `get_verbosity`, `parse_task_vars` and `extract_file_arg`. |

Code that changes state is modelled as imperative Dafny:

- the `Context` and `Os` classes;
- loops over maps and lists;
- the depth-first search.

Each method is proved equal to a specification function on values. The exceptions are the validation and cycle-search methods of `Tasks` and `Schema`. There, the source's `HashMap` order picks among several possible answers (which duplicate name, which cycle), so each method is proved to meet a contract that every such answer meets. The execution methods share one step shape: `Step(result, Machine(ctx, env, log))`. Lemmas about the specification functions state what the program promises.

Rust iterates a `HashMap` in an unspecified order. Where the order is invisible (merging maps, collecting variables, interpolating a map), the loop takes any remaining key with `:|`, and the proof holds for every order. `set-environment` is a map too, so its keys are distinct, but its order is visible: each entry's value is resolved leniently against the context variables and the process environment, which the entries before it have already written (src/runner/task.rs:201-216). The model takes the entries as a sequence, so it covers every order the map might produce.

## Model

| member | source | states |
|---|---|---|
| `Interpolator.MatchEnd` | src/runner/interpolate.rs:17 | Finds the end of a leading `${name}` match with a non-empty name and no `}`. Reports none exactly when no prefix matches. |
| `Interpolator.Pass` | src/runner/interpolate.rs:26-51 | One `replace_all` pass. The seen set only grows, and it grows strictly when something changed. A pass that changes nothing returns its input. |
| `Interpolator.Resolve` | src/runner/interpolate.rs:23-61 | The repeated passes terminate. The only error is `RecursiveInterpolation`. |
| `Interpolator.Interpolate` | src/runner/interpolate.rs:15-64 | The loop returns exactly what the resolution function gives. |
| `Interpolator.InterpolateStrict` | src/runner/interpolate.rs:67-83 | Succeeds iff resolution succeeds and leaves no placeholder; the result then contains none. A recursion error is passed through. Otherwise the error names the leftmost placeholder left: no placeholder starts before it. |
| `Interpolator.FirstPlaceholder` | src/runner/interpolate.rs:74-79 | None iff no placeholder is present; otherwise it is the name of the leftmost match, with no match starting before it. |
| `Interpolator.InterpolateList` | src/runner/interpolate.rs:100-107 | On success, the same length and element-wise resolution. Fails iff some element fails, always with `RecursiveInterpolation`. |
| `Interpolator.InterpolateMap` | src/runner/interpolate.rs:86-97 | On success, the same keys, each value resolved. Fails iff some value fails. |
| `Interpolator.Interpolation` | src/runner/interpolate.rs:15-64 | What `interpolate` returns: resolution from an empty seen set. |
| `Interpolator.Lenient` | src/runner/command.rs:21 | `unwrap_or_else` on `interpolate`: the resolved text, or the raw text on error. |
| `Interpolator.PassWithoutMatch` | src/runner/interpolate.rs:26-51 | A pass over text without placeholders changes nothing. |
| `Interpolator.PassPlainPrefix` | src/runner/interpolate.rs:26-51 | Text before the first `$` passes through unchanged and does not affect the rest of the pass. |
| `Interpolator.PassOverPlaceholder` | src/runner/interpolate.rs:28-49 | A placeholder already seen stays literal. Otherwise the context variable wins over the environment variable, and an unknown name stays literal. |
| `Interpolator.PassUnresolvable` | src/runner/interpolate.rs:41-49 | A pass over text whose every placeholder is undefined reports no change. |
| `Interpolator.NoPlaceholderUnchanged` | src/runner/interpolate.rs:53-55 | Text without placeholders resolves to itself. |
| `Interpolator.ResolvedIsFixpoint` | src/runner/interpolate.rs:15-64 | Resolving a fully resolved result again gives the same result. |
| `Interpolator.EmptyBracesStayLiteral` | src/runner/interpolate.rs:17 | `${}` is not a placeholder and stays in the text. |
| `Interpolator.Precedence` | src/runner/interpolate.rs:35-49 | A context variable beats the process environment, which beats leaving the placeholder. |
| `Interpolator.UnresolvableStaysLiteral` | src/runner/interpolate.rs:47-55 | Undefined placeholders are kept verbatim, with no error. |
| `Interpolator.RepeatedNameStaysLiteral` | src/runner/interpolate.rs:30-33 | A name used twice in one string is substituted only at its first occurrence. The second stays literal. |
| `Interpolator.SelfReferenceTerminates` | src/runner/interpolate.rs:30-33 | A variable whose value refers to itself terminates and yields its placeholder. |
| `Interpolator.PassSubstitutesTail` | src/runner/interpolate.rs:35-39 | A defined, unseen name at the end of the text is replaced and recorded as seen. |
| `Interpolator.ChainedResolution` | src/runner/interpolate.rs:22-61 | A value that names another variable is resolved through it on a later pass. |
| `World.Join` | src/runner/command.rs:33 | `PathBuf::join`: an absolute relative path replaces the base. Otherwise the result starts with the base and ends with the relative path. |
| `World.TrimSlashes` | src/runner/context.rs:118-125 | A prefix of the path without trailing slashes. |
| `World.LastSlash` | src/runner/context.rs:118-125 | The position of the last `/`, or none when the path has none. |
| `World.ParentIsProperPrefix` | src/runner/context.rs:118-125 | A parent is strictly shorter than the path, and is a prefix of it or the root. |
| `World.Parent` | src/runner/context.rs:118-125 | `Path::parent`, with trailing slashes ignored: none only for the empty path or the root; a single relative part gives the empty path, and a single absolute part gives the root. Its bounds are `World.ParentIsProperPrefix`. |
| `World.Os.Spawn` | src/runner/command.rs:63-65 | A spawn gets the oracle's answer and appends one event; the environment is unchanged. |
| `World.Os.Print` | src/runner/context.rs:127-132 | Printing appends one line and changes nothing else. |
| `World.Os.SetVar` | src/runner/task.rs:207 | `std::env::set_var` updates one key and leaves the log alone. |
| `World.Os.RemoveVar` | src/runner/task.rs:211 | `std::env::remove_var` removes one key and leaves the log alone. |
| `Contexts.Verbosity.Level` | src/runner/context.rs:31-37 | Verbosity levels rank from 0 to 3. |
| `Contexts.VerbosityTotalOrder` | src/runner/context.rs:31-37 | The derived order is total and antisymmetric: Silent < Quiet < Normal < Verbose. |
| `Contexts.ContextState.IsTaskInStack` | src/runner/context.rs:103-106 | True iff the name is on the stack. |
| `Contexts.ContextState.PushTask` | src/runner/context.rs:93-96 | `push_task` on the value snapshot: the name is appended to the stack. `Contexts.PushPopRoundTrip` relates it to pop. |
| `Contexts.ContextState.PopTask` | src/runner/context.rs:98-101 | `pop_task` on the value snapshot: the last name and the stack without it, or none on an empty stack. See `Contexts.PopIsCurrent`. |
| `Contexts.ContextState.SetVar` | src/runner/context.rs:71-73 | `set_var` on the value snapshot. `Contexts.SetThenGet` states its effect. |
| `Contexts.ContextState.GetVar` | src/runner/context.rs:76-78 | `get_var`: the value under the key, or none. |
| `Contexts.ContextState.CurrentTask` | src/runner/context.rs:108-110 | `current_task`: the top of the stack, or none. |
| `Contexts.ContextState.ConfigDir` | src/runner/context.rs:118-125 | `config_dir`: the config path's parent, falling back to the working directory. Its properties are `Contexts.ConfigDirSource`. |
| `Contexts.AnyEqual` | src/runner/context.rs:103-106 | The scan finds a name iff it is in the sequence. |
| `Contexts.NewContextDefaults` | src/runner/context.rs:41-50 | A new context has no variables, `sh -c`, an empty stack, Normal verbosity and no config path. |
| `Contexts.NewState` | src/runner/context.rs:41-50 | The state of `Context::new`, with "." when the current directory cannot be read. `Contexts.NewContextDefaults` states its fields. |
| `Contexts.PushPopRoundTrip` | src/runner/context.rs:93-101 | Pushing then popping returns the pushed name and the previous state. |
| `Contexts.PopIsCurrent` | src/runner/context.rs:98-111 | Pop yields the current task. Push after pop restores the stack. Popping an empty stack changes nothing. |
| `Contexts.SetThenGet` | src/runner/context.rs:71-79 | `get_var` after `set_var` reads the new value; other keys and the stack are untouched. |
| `Contexts.GatingMonotone` | src/runner/context.rs:127-146 | Errors print unless Silent; info prints at Normal or Verbose; debug prints only at Verbose. Debug output implies info output, which implies error output. |
| `Contexts.ConfigDirSource` | src/runner/context.rs:118-125 | Without a config path, or when the config path has no parent (it is empty or the root), the config directory is the working directory. When the config path has a parent, it is a shorter prefix of the config path, or the root. |
| `Contexts.Context.constructor` | src/runner/context.rs:41-50 | The fields of `Context::new`, with the current directory passed in. |
| `Contexts.Context.WithWorkingDir` | src/runner/context.rs:53-57 | Changes only the working directory. |
| `Contexts.Context.WithConfigPath` | src/runner/context.rs:59-63 | Changes only the config path. |
| `Contexts.Context.WithVars` | src/runner/context.rs:65-69 | Replaces only the variables. |
| `Contexts.Context.WithInterpreter` | src/runner/context.rs:81-85 | Changes only the interpreter. |
| `Contexts.Context.WithVerbosity` | src/runner/context.rs:87-91 | Changes only the verbosity. |
| `Contexts.Context.SetVar` | src/runner/context.rs:71-74 | Updates one variable and nothing else. |
| `Contexts.Context.RemoveVar` | src/runner/task.rs:212 | Removes one variable and nothing else. |
| `Contexts.Context.PushTask` | src/runner/context.rs:93-96 | Appends the name to the stack and nothing else. |
| `Contexts.Context.PopTask` | src/runner/context.rs:98-101 | Removes and returns the last name, or returns none on an empty stack. |
| `Contexts.Context.PrintInfo` | src/runner/context.rs:127-132 | Appends the `[INFO]` line iff the verbosity allows it. |
| `Contexts.Context.PrintError` | src/runner/context.rs:134-139 | Appends the `[ERROR]` line iff the verbosity allows it. |
| `Contexts.Context.PrintDebug` | src/runner/context.rs:141-146 | Appends the `[DEBUG]` line iff the verbosity allows it. |
| `Contexts.Context.PrintTaskStart` | src/runner/context.rs:148-151 | Appends the task start line, gated as info. |
| `Contexts.Context.PrintTaskComplete` | src/runner/context.rs:153-156 | Appends the completion line, gated as debug. |
| `Contexts.Context.PrintTaskSkip` | src/runner/context.rs:158-160 | Appends the skip line, gated as debug. |
| `Contexts.TaskStartLines` | src/runner/context.rs:148-151 | The "Running task: name" line, gated as info. `Contexts.Context.PrintTaskStart` appends exactly these lines. |
| `Contexts.TaskCompleteLines` | src/runner/context.rs:153-156 | The "Task completed: name" line, gated as debug. See `Execution.ConcludeEffects`. |
| `Contexts.TaskSkipLines` | src/runner/context.rs:158-160 | The skip line naming the task and the reason, gated as debug. |
| `ConfigTypes.OptionTypeField` | src/config/types.rs:253-255 | A missing `type` field reads as "string"; a given one is kept. |
| `ConfigTypes.DefaultOptionType` | src/config/types.rs:253-255 | `default_option_type`: "string". `ConfigTypes.OptionTypeField` and `Schema.AcceptedTypesAgreeWithRuntime` use it. |
| `ConfigTypes.DecodeEach` | src/config/types.rs:294-301 | Decoding a list keeps its length. |
| `ConfigTypes.DecodeEachAllOk` | src/config/types.rs:294-301 | If every item decodes, the list decodes to those values in order. |
| `ConfigTypes.DecodeEachFirstError` | src/config/types.rs:294-301 | The first item that fails decides the error. |
| `ConfigTypes.DecodeEachCases` | src/config/types.rs:294-301 | On success, each element is its item's decoding. Fails iff some item fails. |
| `ConfigTypes.RunItemsOf` | src/config/types.rs:281-306 | The `run` decoder: string, list or null, and the shape error otherwise. Its cases are `ConfigTypes.RunShapes`. |
| `ConfigTypes.CommandsOf` | src/config/types.rs:309-338 | The `command` decoder: string, mapping, list or null. Its cases are `ConfigTypes.CommandShapes`. |
| `ConfigTypes.SubTasksOf` | src/config/types.rs:341-370 | The `task` decoder: string, mapping, list or null. Its cases are `ConfigTypes.SubTaskShapes`. |
| `ConfigTypes.RunShapes` | src/config/types.rs:281-306 | `run`: a string is one simple command and null is empty; a list decodes element-wise; anything else is the shape error. |
| `ConfigTypes.CommandShapes` | src/config/types.rs:309-338 | `command`: a string, a single mapping, a list or null; booleans and numbers are rejected. |
| `ConfigTypes.SubTaskShapes` | src/config/types.rs:341-370 | `task`: a string, a single mapping, a list or null; booleans and numbers are rejected. |
| `ConfigTypes.DecodeItems` | src/config/types.rs:294-301 | The decoding loop returns what the decoding function specifies. |
| `ConfigTypes.DeserializeRunItems` | src/config/types.rs:281-306 | Equals the `run` decoder's specification. |
| `ConfigTypes.DeserializeCommands` | src/config/types.rs:309-338 | Equals the `command` decoder's specification. |
| `ConfigTypes.DeserializeSubTasks` | src/config/types.rs:341-370 | Equals the `task` decoder's specification. |
| `Tasks.CommandFromConfig` | src/runner/task.rs:299-341 | A simple command is kept. A detailed one keeps exec, quiet and dir, and prints as `print` or else as exec. |
| `Tasks.SimpleCommandAccessors` | src/runner/task.rs:312-341 | A simple command execs and prints itself, is not quiet and has no dir. |
| `Tasks.Command.Exec` | src/runner/task.rs:312-317 | `Command::exec`: the command of either form. See `Tasks.SimpleCommandAccessors` and `Tasks.CommandFromConfig`. |
| `Tasks.Command.Print` | src/runner/task.rs:320-325 | `Command::print`: a simple command prints itself; a detailed one its print text. |
| `Tasks.Command.IsQuiet` | src/runner/task.rs:328-333 | `Command::is_quiet`: false for a simple command; the flag otherwise. |
| `Tasks.Command.Dir` | src/runner/task.rs:336-341 | `Command::dir`: none for a simple command; the directory otherwise. |
| `Tasks.SubTaskFromConfig` | src/runner/task.rs:352-363 | Keeps the name; options are empty for the simple form and kept for the detailed form. |
| `Tasks.WhenFromConfig` | src/runner/task.rs:373-403 | One clause per step of the `if let` chain: the first set field in the order equal, not-equal, command, exists, env-set, env-not-set, option-set, option-not-set decides the condition; none set means Always. |
| `Tasks.WhenRoundTrip` | src/runner/task.rs:373-403 | Every runtime condition is produced by a configuration with just that field. |
| `Tasks.OptionTypeOf` | src/runner/task.rs:446-451 | "bool"/"boolean" map to Bool, "int"/"integer" to Integer, "float" to Float; everything else is String. |
| `Tasks.TaskOptionFromConfig` | src/runner/task.rs:445-464 | Keeps the name, default, rewrite and environment, and maps the type. |
| `Tasks.ArgFromConfig` | src/runner/task.rs:492-500 | Keeps the name, default and required flag. |
| `Tasks.RunFromConfig` | src/runner/task.rs:247-270 | A simple command is a one-command item. A complex item converts each list element-wise and keeps `set-environment`. |
| `Tasks.RunsFromConfig` | src/runner/task.rs:74-75 | Converts run items element-wise. |
| `Tasks.SimpleRunConversion` | src/runner/task.rs:249-254 | A simple command has no conditions, subtasks or environment entries. |
| `Tasks.ValidateConfig` | src/runner/task.rs:83-100 | Ok iff valid. Source without target and target without source are reported exactly when they hold. A duplicate name is both an argument and an option. |
| `Tasks.Build` | src/runner/task.rs:58-79 | The runtime task keeps the name, keys, runs, source and target, and starts with no variables. |
| `Tasks.FromConfig` | src/runner/task.rs:54-80 | Ok iff valid, with the built task; errors are validation errors. |
| `Tasks.WhenDependencies` | src/runner/task.rs:406-413 | Only option conditions depend on something, and on one name. |
| `Tasks.RunDependencies` | src/runner/task.rs:273-279 | A name is a dependency iff some condition of the item depends on it. |
| `Tasks.RunsDependencies` | src/runner/task.rs:112-114 | The same, over a list of items. |
| `Tasks.Dependencies` | src/runner/task.rs:103-117 | A name is a dependency iff some condition in `run` or `finally` depends on it. |
| `Schema.ValidateOptionType` | src/config/schema.rs:48-56 | Ok iff the type is one of the six accepted names; otherwise the fixed message naming it. |
| `Schema.AcceptedTypesAgreeWithRuntime` | src/config/schema.rs:48-56 | The default type is accepted. Among accepted types only "string" maps to String, and every rejected type would map to String. |
| `Schema.ValidateTask` | src/config/schema.rs:23-45 | Ok iff valid. Each error appears exactly when its check is the first to fail. An option type error names a bad type of some option. |
| `Schema.SchemaValidImpliesBuildable` | src/config/schema.rs:23-37 | A schema-valid task passes the runtime validation. |
| `Schema.SubtaskNames` | src/config/schema.rs:96-106 | A simple item has no subtasks; a complex one lists its subtask names in order. |
| `Schema.NotOnCycle` | src/config/schema.rs:81-84 | A task whose children are all explored lies on no cycle, so skipping it is sound. |
| `Schema.PushFresh` | src/config/schema.rs:91-92 | Pushing an unseen task keeps the stack a duplicate-free walk that fits in the task set. |
| `Schema.FinishExplored` | src/config/schema.rs:132-134 | Once all its subtasks are explored, marking a task visited keeps the explored invariant. |
| `Schema.ClosedWalkHasCycle` | src/config/schema.rs:75-79 | A walk that returns to a task on it contains a cycle. |
| `Schema.JoinArrow` | src/config/schema.rs:78 | `stack.join(" -> ")`: the names with the separator between consecutive ones. Its properties are the three lemmas below. |
| `Schema.JoinArrowSnoc` | src/config/schema.rs:78 | Joining one more name appends the separator and that name. |
| `Schema.JoinArrowEnds` | src/config/schema.rs:78 | A joined path of two or more names starts with the first name and ends with " -> " and the last. |
| `Schema.CyclePath` | src/config/schema.rs:75-79 | The reported cycle path starts with the first task on the walk, ends with " -> " and the repeated task, and that task occurs exactly twice on the walk. |
| `Schema.CheckTaskCycle` | src/config/schema.rs:69-137 | Ok keeps the stack and explores the task. A cycle error carries a closed walk. TaskNotFound names a missing task reached by a walk. |
| `Schema.ExploreTask` | src/config/schema.rs:86-136 | The same, for a task present and not on the stack. |
| `Schema.CheckRuns` | src/config/schema.rs:95-130 | Every subtask of the items ends up explored, or the first error is reported as above. |
| `Schema.CheckNames` | src/config/schema.rs:108-110 | Every listed name ends up explored, or the first error is reported as above. |
| `Schema.DanglingReference` | src/config/schema.rs:86-89 | A missing task reached by a walk is a child of some task. |
| `Schema.DetectCircularTaskDependencies` | src/config/schema.rs:59-66 | Ok iff every reference exists and no task lies on a cycle. The errors give a cycle path or a missing child. |
| `Schema.ValidateConfig` | src/config/schema.rs:10-20 | Ok iff every task is valid and the graph is well formed; a graph error means every task was valid. |
| `Commands.CheckCommand` | src/runner/command.rs:76-105 | The method matches the probe's specification, with its events. |
| `Commands.ProbeIsSilent` | src/runner/command.rs:85-97 | At most one spawn: suppressed output, the unchanged process environment, the working directory and the interpreter prefix. |
| `Commands.ProbeInvocation` | src/runner/command.rs:85-97 | The probe process: interpreter plus command, the working directory, the inherited environment, output discarded. |
| `Commands.CheckSpec` | src/runner/command.rs:76-105 | `check_command` on values: an interpolation error is `InvalidOption("command")`, a spawn error is `CommandFailed(None)`, otherwise whether the probe exited with 0. `Commands.ProbeAnswer` and `Commands.ProbeIsSilent` state its properties. |
| `Commands.ProbeAnswer` | src/runner/command.rs:99-104 | True iff the command resolves and exits with 0. Fails iff interpolation fails or the spawn fails. |
| `Commands.ChildEnvironment` | src/runner/command.rs:57-60 | The child's environment is the process environment overridden by the context variables. |
| `Commands.RunInvocation` | src/runner/command.rs:38-60 | The child process: interpreter plus command, the chosen directory, the context variables over the process environment, inherited stdio. `Commands.ChildSeesContext` and `Commands.ChildEnvironment` state it. |
| `Commands.LenientInterpolate` | src/runner/command.rs:21 | Resolution that falls back to the original text on error. |
| `Commands.Announcement` | src/runner/command.rs:19-23 | The `[RUN]` line, unless the command is quiet or the level is below Normal. See `Commands.AnnouncedIff`. |
| `Commands.ChildDir` | src/runner/command.rs:25-36 | The working directory, joined with the interpolated `dir` when there is one. See `Commands.ChildDirectory`. |
| `Commands.StatusResult` | src/runner/command.rs:62-72 | Ok iff the child exited with 0; every error is `CommandFailed`, carrying the exit code, and none for a failed spawn. |
| `Commands.CommandSpec` | src/runner/command.rs:10-73 | `execute_command` on values: result and events. `Commands.ExecErrorHasNoEffect`, `Commands.AnnouncedIff`, `Commands.ChildSeesContext`, `Commands.ChildDirectory` and `Commands.StatusMapping` state its properties. |
| `Commands.ExecuteCommand` | src/runner/command.rs:10-73 | The method matches the command's specification, with its events. |
| `Commands.ExecErrorHasNoEffect` | src/runner/command.rs:11-17 | An interpolation error on exec prints nothing, spawns nothing and is `InvalidOption("command")`. |
| `Commands.AnnouncedIff` | src/runner/command.rs:19-23 | `[RUN]` with the resolved print text is the first event iff the command is not quiet and the verbosity is at least Normal. |
| `Commands.ChildSeesContext` | src/runner/command.rs:38-60 | The child runs interpreter plus exec, in the chosen directory, with inherited stdio; context variables override the environment. |
| `Commands.ChildDirectory` | src/runner/command.rs:25-36 | No dir gives the working directory. An absolute dir replaces it. A dir that fails to interpolate is `InvalidOption("dir")`. |
| `Commands.StatusMapping` | src/runner/command.rs:62-72 | Success iff the spawn exits with 0; any other exit reports its code; a failed spawn reports `CommandFailed(None)`. |
| `Conditions.EvaluateWhen` | src/runner/when.rs:20-67 | The method matches each condition's specification, with its events. |
| `Conditions.EvaluateWhenList` | src/runner/when.rs:10-17 | The loop matches the short-circuit conjunction, with its events. |
| `Conditions.FailedConditionError` | src/runner/when.rs:70-72 | Builds an error that `is_failed_condition` recognises, carrying the reason. |
| `Errors.IsFailedCondition` | src/error.rs:108-110 | `is_failed_condition`: true exactly for `FailedCondition`. See `Conditions.FailedConditionError`. |
| `Conditions.WhenSpec` | src/runner/when.rs:20-67 | `evaluate_when` on values: each condition's answer and its probe events. `Conditions.Complements`, `Conditions.ConditionEffects`, `Conditions.OptionNameIsLiteral`, `Conditions.ExistsAgainstWorkingDir` and `Conditions.EqualSeesValues` state its properties. |
| `Conditions.Conjoin` | src/runner/when.rs:10-17 | The short-circuit conjunction of outcomes in order. `Conditions.ConjoinAll`, `Conditions.ConjoinFirstFailure`, `Conditions.ConjoinEffects` and `Conditions.ConjoinQuiet` state its properties. |
| `Conditions.WhenListSpec` | src/runner/when.rs:10-17 | `evaluate_when_list` on values: the conjunction of the conditions' outcomes. See `Conditions.AllMustHold` and `Conditions.FirstFailureDecides`. |
| `Conditions.ConjoinAll` | src/runner/when.rs:10-17 | The conjunction is true iff every outcome is true. |
| `Conditions.AllMustHold` | src/runner/when.rs:10-17 | The list is true iff every condition is true. |
| `Conditions.ConjoinFirstFailure` | src/runner/when.rs:11-14 | The first outcome that is not true decides, and nothing after it runs. |
| `Conditions.FirstFailureDecides` | src/runner/when.rs:11-14 | The first condition that is false or fails decides the list; later ones are not evaluated. |
| `Conditions.ConjoinEffects` | src/runner/when.rs:10-17 | Every event of the conjunction comes from one of its parts. |
| `Conditions.ConjoinQuiet` | src/runner/when.rs:10-17 | Parts without events give a conjunction without events. |
| `Conditions.ConditionEffects` | src/runner/when.rs:20-67 | A condition's only effect is a silent probe with the process environment; only a command condition has one. |
| `Conditions.ConditionsOnlyProbe` | src/runner/when.rs:10-17 | A list's only effects are silent probes; none without a command condition. |
| `Conditions.Complements` | src/runner/when.rs:24-65 | Equal/NotEqual, EnvSet/EnvNotSet and OptionSet/OptionNotSet never fail and always disagree. |
| `Conditions.OptionNameIsLiteral` | src/runner/when.rs:47-65 | Option conditions look the name up literally, but environment conditions resolve it first. |
| `Conditions.ExistsAgainstWorkingDir` | src/runner/when.rs:41-45 | A path is tested as given when absolute, and otherwise joined onto the working directory. |
| `Conditions.EqualSeesValues` | src/runner/when.rs:24-34 | Comparisons compare resolved values. |
| `Execution.ExecuteCommands` | src/runner/task.rs:191-193 | The loop matches the sequence that stops at the first error, with its events. |
| `Execution.SequenceFirstError` | src/runner/task.rs:191-193 | Ok iff every command succeeds; otherwise the first error is reported. |
| `Execution.Sequence` | src/runner/task.rs:191-193 | The commands in order, stopping at the first error. `Execution.SequenceFirstError` states it. |
| `Execution.ApplyEntry` | src/runner/task.rs:203-214 | One entry changes only variables and the environment, never the log. |
| `Execution.ApplyEntries` | src/runner/task.rs:201-216 | The entries change only variables and the environment. |
| `Execution.ApplySetEnvironment` | src/runner/task.rs:201-216 | The loop matches the entries' specification on both the context and the process. |
| `Execution.EntriesWriteBoth` | src/runner/task.rs:201-216 | Every key named ends with the context and the process in agreement; other keys are untouched in both. |
| `Execution.RunItemSpec` | src/runner/task.rs:180-219 | A run item changes only variables and appends to the log. |
| `Execution.ExecuteSubtask` | src/runner/task.rs:222-226 | A subtask succeeds without doing anything. |
| `Execution.ExecuteSubtasks` | src/runner/task.rs:196-198 | The subtask loop never fails, because each subtask call is the source's placeholder that succeeds. |
| `Execution.ExecuteRunItem` | src/runner/task.rs:180-219 | The method matches the run item's specification on context, environment and log. |
| `Execution.RunsSpec` | src/runner/task.rs:164-177 | A list of items changes only variables and appends to the log. |
| `Execution.ExecuteRunItems` | src/runner/task.rs:164-177 | The loop, shared by run and `finally`, matches the list's specification. |
| `Execution.ErrorStopsRuns` | src/runner/task.rs:165-167 | After an error, later items have no effect. |
| `Execution.RunsCompose` | src/runner/task.rs:164-169 | Running two lists is running the second from where the first left off. |
| `Execution.SkippedItemChangesNothing` | src/runner/task.rs:182-188 | A false condition skips the item: Ok, and only the probe events are added. |
| `Execution.ItemErrorChangesNoVariables` | src/runner/task.rs:180-199 | A failing item changes no variables; a condition error or the first command error is reported. |
| `Execution.MergeVars` | src/runner/task.rs:132-135 | The task variables override the context variables; nothing else changes. |
| `Execution.Entered` | src/runner/task.rs:126-135 | Entering a task: push it, print the start line, and merge its variables over the context's. See `Execution.TaskVarsOverride`. |
| `Execution.Finish` | src/runner/task.rs:153-158 | Pop the task; on success, print the completion line. |
| `Execution.Conclude` | src/runner/task.rs:141-160 | How the run and `finally` results combine. `Execution.ErrorPriority` and `Execution.ConcludeEffects` state its properties. |
| `Execution.FinallyStep` | src/runner/task.rs:140-144 | The debug line, then the `finally` items from where the run items left off. |
| `Execution.RunBoth` | src/runner/task.rs:137-160 | The run items, then the `finally` items when there are any, then the conclusion. |
| `Execution.ExecuteSpec` | src/runner/task.rs:120-161 | `Task::execute` on values. `Execution.StackRestored`, `Execution.FinallyAlwaysRuns`, `Execution.TaskVarsOverride` and `Execution.TaskErrorPriority` state its properties. |
| `Execution.Execute` | src/runner/task.rs:120-161 | The method matches the task's specification on context, environment and log. |
| `Execution.RunEntered` | src/runner/task.rs:137-160 | After entry, the method matches run, `finally` and conclusion. |
| `Execution.ErrorPriority` | src/runner/task.rs:141-160 | A run error wins. A `finally` error is reported only after a successful run. Ok iff both parts succeed. |
| `Execution.TaskErrorPriority` | src/runner/task.rs:137-160 | The same error priority, stated for a task's own run and `finally` items. |
| `Execution.ConcludeEffects` | src/runner/task.rs:153-158 | The task is popped. The completion line is last on success at Verbose. An error adds no line. |
| `Execution.StackRestored` | src/runner/task.rs:120-161 | A recursive call fails with code 1 and changes nothing. Afterwards only variables differ, and the log starts with the start line. |
| `Execution.FinallyAlwaysRuns` | src/runner/task.rs:140-151 | The `finally` items' events follow the run items' events and are part of the task's. |
| `Execution.TaskVarsOverride` | src/runner/task.rs:126-135 | Inside the task, its variables override the context and it is the current task. |
| `Cli.GetVerbosity` | src/cli/app.rs:221-231 | Silent beats quiet, quiet beats verbose, and Normal holds iff no flag is given. |
| `Cli.TaskVars` | src/cli/app.rs:234-285 | Options with a non-empty final value are present with that value. An argument with a value is present, with that value unless such an option overwrote it. An argument without a value is absent unless such an option supplies one. Nothing else is present, and an option-only name never maps to "". |
| `Cli.ArgValue` | src/cli/app.rs:242-247 | An argument's value: the one given on the command line, else its default, else none. |
| `Cli.OptionValue` | src/cli/app.rs:252-270 | An option's value before the rewrite. `Cli.BoolOptionAlwaysSet` and `Cli.OptionPrecedence` state it. |
| `Cli.FinalValue` | src/cli/app.rs:272-277 | The rewrite if there is one, else the option's value. See `Cli.RewriteWins`. |
| `Cli.ParseTaskVars` | src/cli/app.rs:234-285 | The two loops produce the variables specified. |
| `Cli.CollectArgs` | src/cli/app.rs:241-248 | The argument loop collects every argument that has a value. |
| `Cli.CollectOptions` | src/cli/app.rs:250-282 | The option loop adds or overwrites every option whose final value is non-empty. |
| `Cli.BoolOptionAlwaysSet` | src/cli/app.rs:252-258 | A boolean option without rewrite is always present, "true" iff its flag was given. |
| `Cli.RewriteWins` | src/cli/app.rs:273-277 | A non-empty rewrite is the value whatever else was given. |
| `Cli.OptionPrecedence` | src/cli/app.rs:260-271 | Command line beats default, which beats the environment variable. |
| `Cli.ExtractFileArg` | src/cli/app.rs:303-310 | The scan returns what the specification gives. |
| `Cli.FileArgFrom` | src/cli/app.rs:303-310 | The scan from position `i`: the value after the first flag from there that has one. `Cli.FileArgFromIsFirstFlag` states it. |
| `Cli.FileArg` | src/cli/app.rs:303-310 | The scan from the start. |
| `Cli.FileArgFromIsFirstFlag` | src/cli/app.rs:303-310 | From any position, the scan returns the value after the first flag with a value, and none iff there is no such flag. |
| `Cli.FileArgIsFirstFlag` | src/cli/app.rs:303-310 | Returns the value after the first `--file`/`-f` that has one; none iff no flag is followed by a value. |

## Left out

- Process I/O is an event log: the exact stream (stdout or stderr) and any interleaving are not modelled.
- Spawning, exit statuses and the file system are a fixed oracle per run, so the model is deterministic.
- Signals (no exit code) are the oracle's `Exited(None)`.
- The interpreter is never empty in the model. The source indexes `interpreter[0]` and would panic on an empty list. The model requires a non-empty interpreter wherever a command or probe runs.
- Paths are strings. `Join` models `PathBuf::join` (an absolute path replaces the base; otherwise a `/` separator is added). Parent handling is simplified to "up to the last slash". Normalisation of `.`, `..` and repeated slashes is not modelled.
- The YAML deserialiser (serde) is not modelled. The per-item decoder is a function parameter; only the three custom decoders are modelled.
- `InvalidOption`'s error text is modelled as the `InterpolationError` value it is formatted from.
- `Execution.ExecuteSubtask`: subtasks do nothing and succeed, as in the source; the task registry does not exist there either.
- `Cli.ParseTaskVars`: the source's `Result` is always `Ok`, so the model returns the map alone. `std::env::var` failing on non-Unicode values reads as unset.
- Exit codes are `int`; the `i32` width is not modelled.
- `Context::task_names` is the stack itself and has no separate member.
- `Cache` and `Environment` execution errors and `MissingOption` exist as constructors but no modelled code raises them.
- Building the argument parser from the configuration (`build_command`), the `App` type and its `run` method are not part of this model. The same goes for config file discovery, the parser for the YAML text, the cache, and the CLI's help and listing output.
- `Interpolator.Resolve`: the source stops with `RecursiveInterpolation` once more than 100 distinct names were seen after a change. The model has the same bound, and termination is proved through it.
