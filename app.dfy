/**
 * The parts of the command-line front end (src/cli/app.rs) that decide
 * values: the verbosity flags, the variables a task receives from its
 * arguments and options, and the early `--file` scan.
 *
 * What the argument parser matched is a value: the strings given for named
 * arguments and options, and the set of boolean flags that were set.
 */
module Cli {
  import opened Errors
  import opened ConfigTypes
  import Contexts

  /** What the parser matched: `get_one::<String>` reads `values`, `get_flag` reads `flags`. */
  datatype Matches = Matches(values: map<string, string>, flags: set<string>)

  /** `get_verbosity`: `--silent` wins over `--quiet`, which wins over `--verbose`. */
  function GetVerbosity(m: Matches): (v: Contexts.Verbosity)
    ensures v == Contexts.Silent <==> "silent" in m.flags
    ensures v == Contexts.Quiet <==> "silent" !in m.flags && "quiet" in m.flags
    ensures v == Contexts.Verbose <==> "silent" !in m.flags && "quiet" !in m.flags && "verbose" in m.flags
    ensures v == Contexts.Normal <==> "silent" !in m.flags && "quiet" !in m.flags && "verbose" !in m.flags
  {
    if "silent" in m.flags then Contexts.Silent
    else if "quiet" in m.flags then Contexts.Quiet
    else if "verbose" in m.flags then Contexts.Verbose
    else Contexts.Normal
  }

  // ---------------------------------------------------------------------
  // Task variables
  // ---------------------------------------------------------------------

  /** A positional argument: the value given on the command line, else its default. */
  function ArgValue(name: string, arg: Arg, m: Matches): Option<string> {
    if name in m.values then Some(m.values[name])
    else arg.default
  }

  predicate IsBoolType(t: string) {
    t == "bool" || t == "boolean"
  }

  /**
   * An option before its rewrite: a boolean option is "true" or "false" by its
   * flag; any other option takes the given value, else its default, else the
   * named environment variable (empty when unset), else the empty string.
   */
  function OptionValue(name: string, opt: TaskOption, m: Matches, env: map<string, string>): string {
    if IsBoolType(opt.optionType) then
      (if name in m.flags then "true" else "false")
    else if name in m.values then m.values[name]
    else if opt.default.Some? then opt.default.value
    else if opt.environment.Some? then
      (if opt.environment.value in env then env[opt.environment.value] else "")
    else ""
  }

  /** A `rewrite` replaces whatever value the option had. */
  function FinalValue(name: string, opt: TaskOption, m: Matches, env: map<string, string>): string {
    if opt.rewrite.Some? then opt.rewrite.value else OptionValue(name, opt, m, env)
  }

  /** The arguments of `args` (of the task) that produce a value. */
  function ArgsSet(args: map<string, Arg>, done: set<string>, m: Matches): set<string> {
    set k | k in done && k in args && ArgValue(k, args[k], m).Some?
  }

  /** The options of `options` among `done` whose final value is not empty. */
  function OptionsSet(options: map<string, TaskOption>, done: set<string>, m: Matches, env: map<string, string>): set<string> {
    set k | k in done && k in options && FinalValue(k, options[k], m, env) != ""
  }

  /**
   * The variables once the arguments in `argsDone` and the options in
   * `optsDone` have been visited: an option with a non-empty final value
   * overwrites an argument of the same name.
   */
  function Collected(task: Task, m: Matches, env: map<string, string>,
                     argsDone: set<string>, optsDone: set<string>): map<string, string> {
    var a := ArgsSet(task.args, argsDone, m);
    var o := OptionsSet(task.options, optsDone, m, env);
    map k | k in a + o ::
      if k in o then FinalValue(k, task.options[k], m, env)
      else ArgValue(k, task.args[k], m).value
  }

  /**
   * `parse_task_vars`: what a task receives. It never fails. Every option with
   * a non-empty final value is present with that value; every argument with a
   * value is present, with that value unless an option of the same name
   * overwrote it; an argument without a value is absent unless such an option
   * supplies one; nothing else is present, and a name that is only an option
   * never maps to "".
   */
  function TaskVars(task: Task, m: Matches, env: map<string, string>): (vars: map<string, string>)
    ensures vars.Keys <= task.args.Keys + task.options.Keys
    ensures forall k | k in task.options && FinalValue(k, task.options[k], m, env) != "" ::
              k in vars && vars[k] == FinalValue(k, task.options[k], m, env)
    ensures forall k | k in task.args && ArgValue(k, task.args[k], m).Some? ::
              k in vars &&
              (vars[k] == ArgValue(k, task.args[k], m).value ||
               (k in task.options && vars[k] == FinalValue(k, task.options[k], m, env)))
    ensures forall k | k in vars && k !in task.args :: vars[k] != ""
    ensures forall k | k in vars :: k in task.args || FinalValue(k, task.options[k], m, env) != ""
    ensures forall k | k in task.args && ArgValue(k, task.args[k], m).None? &&
                       (k !in task.options || FinalValue(k, task.options[k], m, env) == "") ::
              k !in vars
    ensures forall k | k in task.args && ArgValue(k, task.args[k], m).Some? &&
                       (k !in task.options || FinalValue(k, task.options[k], m, env) == "") ::
              k in vars && vars[k] == ArgValue(k, task.args[k], m).value
  {
    Collected(task, m, env, task.args.Keys, task.options.Keys)
  }

  /** Visiting one more argument adds it exactly when it has a value. */
  lemma ArgStep(task: Task, m: Matches, env: map<string, string>, done: set<string>, name: string)
    requires name in task.args && name !in done
    ensures var before := Collected(task, m, env, done, {});
            var v := ArgValue(name, task.args[name], m);
            Collected(task, m, env, done + {name}, {}) == if v.Some? then before[name := v.value] else before
  {
    var v := ArgValue(name, task.args[name], m);
    var a := ArgsSet(task.args, done, m);
    assert ArgsSet(task.args, done + {name}, m) == if v.Some? then a + {name} else a;
    assert OptionsSet(task.options, {}, m, env) == {};
  }

  /** Visiting one more option adds or overwrites it exactly when its final value is not empty. */
  lemma OptionStep(task: Task, m: Matches, env: map<string, string>, done: set<string>, name: string)
    requires name in task.options && name !in done
    ensures var before := Collected(task, m, env, task.args.Keys, done);
            var v := FinalValue(name, task.options[name], m, env);
            Collected(task, m, env, task.args.Keys, done + {name}) == if v != "" then before[name := v] else before
  {
    var v := FinalValue(name, task.options[name], m, env);
    var o := OptionsSet(task.options, done, m, env);
    assert OptionsSet(task.options, done + {name}, m, env) == if v != "" then o + {name} else o;
  }

  /** `parse_task_vars`: the arguments first, then the options. */
  method ParseTaskVars(task: Task, m: Matches, env: map<string, string>) returns (vars: map<string, string>)
    ensures vars == TaskVars(task, m, env)
  {
    vars := CollectArgs(task, m, env);
    vars := CollectOptions(task, m, env, vars);
  }

  /** The loop over the arguments. */
  method CollectArgs(task: Task, m: Matches, env: map<string, string>) returns (vars: map<string, string>)
    ensures vars == Collected(task, m, env, task.args.Keys, {})
  {
    vars := map[];
    var todo := task.args.Keys;
    assert ArgsSet(task.args, {}, m) == {} && OptionsSet(task.options, {}, m, env) == {};
    assert task.args.Keys - todo == {};
    while todo != {}
      invariant todo <= task.args.Keys
      invariant vars == Collected(task, m, env, task.args.Keys - todo, {})
      decreases |todo|
    {
      var name :| name in todo;
      var value := ArgValue(name, task.args[name], m);
      ArgStep(task, m, env, task.args.Keys - todo, name);
      if value.Some? {
        vars := vars[name := value.value];
      }
      assert task.args.Keys - (todo - {name}) == (task.args.Keys - todo) + {name};
      todo := todo - {name};
    }
    assert task.args.Keys - todo == task.args.Keys;
  }

  /** The loop over the options, starting from the variables the arguments gave. */
  method CollectOptions(task: Task, m: Matches, env: map<string, string>, args: map<string, string>)
    returns (vars: map<string, string>)
    requires args == Collected(task, m, env, task.args.Keys, {})
    ensures vars == Collected(task, m, env, task.args.Keys, task.options.Keys)
  {
    vars := args;
    var todo := task.options.Keys;
    assert task.options.Keys - todo == {};
    while todo != {}
      invariant todo <= task.options.Keys
      invariant vars == Collected(task, m, env, task.args.Keys, task.options.Keys - todo)
      decreases |todo|
    {
      var name :| name in todo;
      var value := OptionValue(name, task.options[name], m, env);
      var finalValue := if task.options[name].rewrite.Some? then task.options[name].rewrite.value else value;
      OptionStep(task, m, env, task.options.Keys - todo, name);
      if finalValue != "" {
        vars := vars[name := finalValue];
      }
      assert task.options.Keys - (todo - {name}) == (task.options.Keys - todo) + {name};
      todo := todo - {name};
    }
    assert task.options.Keys - todo == task.options.Keys;
  }

  /** A boolean option without a rewrite is always present, as "true" exactly when its flag was given. */
  lemma BoolOptionAlwaysSet(task: Task, m: Matches, env: map<string, string>, k: string)
    requires k in task.options && IsBoolType(task.options[k].optionType) && task.options[k].rewrite.None?
    ensures var vars := TaskVars(task, m, env);
            k in vars && (vars[k] == "true" <==> k in m.flags) && (vars[k] == "false" <==> k !in m.flags)
  {
  }

  /** A non-empty rewrite wins over the command line, the default and the environment. */
  lemma RewriteWins(task: Task, m: Matches, env: map<string, string>, k: string)
    requires k in task.options && task.options[k].rewrite.Some? && task.options[k].rewrite.value != ""
    ensures var vars := TaskVars(task, m, env);
            k in vars && vars[k] == task.options[k].rewrite.value
  {
  }

  /**
   * For a non-boolean option without a rewrite, the value given on the
   * command line beats the default, which beats the environment variable.
   */
  lemma OptionPrecedence(task: Task, m: Matches, env: map<string, string>, k: string)
    requires k in task.options && !IsBoolType(task.options[k].optionType) && task.options[k].rewrite.None?
    ensures var vars := TaskVars(task, m, env);
            var opt := task.options[k];
            (k in m.values && m.values[k] != "" ==> k in vars && vars[k] == m.values[k]) &&
            (k !in m.values && opt.default.Some? && opt.default.value != "" ==>
               k in vars && vars[k] == opt.default.value) &&
            (k !in m.values && opt.default.None? && opt.environment.Some? &&
             opt.environment.value in env && env[opt.environment.value] != "" ==>
               k in vars && vars[k] == env[opt.environment.value])
  {
  }

  // ---------------------------------------------------------------------
  // The early `--file` scan
  // ---------------------------------------------------------------------

  /** `args[i]` is `--file` or `-f` and a value follows it. */
  predicate FileFlagAt(args: seq<string>, i: int)
    requires 0 <= i < |args|
  {
    (args[i] == "--file" || args[i] == "-f") && i + 1 < |args|
  }

  /** The value after the first `--file`/`-f` at or after position `i` that has one. */
  function FileArgFrom(args: seq<string>, i: nat): Option<string>
    requires i <= |args|
    decreases |args| - i
  {
    if i == |args| then None
    else if FileFlagAt(args, i) then Some(args[i + 1])
    else FileArgFrom(args, i + 1)
  }

  /** `extract_file_arg`: the path given with `--file` or `-f`, before full argument parsing. */
  function FileArg(args: seq<string>): Option<string> {
    FileArgFrom(args, 0)
  }

  method ExtractFileArg(args: seq<string>) returns (r: Option<string>)
    ensures r == FileArg(args)
  {
    for i := 0 to |args|
      invariant FileArgFrom(args, 0) == FileArgFrom(args, i)
    {
      if (args[i] == "--file" || args[i] == "-f") && i + 1 < |args| {
        return Some(args[i + 1]);
      }
    }
    return None;
  }

  lemma {:induction false} FileArgFromIsFirstFlag(args: seq<string>, i: nat)
    requires i <= |args|
    ensures FileArgFrom(args, i).None? <==> forall j | i <= j < |args| :: !FileFlagAt(args, j)
    ensures FileArgFrom(args, i).Some? ==>
              exists j | i <= j < |args| :: FileFlagAt(args, j) && FileArgFrom(args, i).value == args[j + 1] &&
                                            forall l | i <= l < j :: !FileFlagAt(args, l)
    decreases |args| - i
  {
    if i < |args| && !FileFlagAt(args, i) {
      FileArgFromIsFirstFlag(args, i + 1);
      var r := FileArgFrom(args, i + 1);
      if r.Some? {
        var j :| i + 1 <= j < |args| && FileFlagAt(args, j) && r.value == args[j + 1] &&
                 forall l | i + 1 <= l < j :: !FileFlagAt(args, l);
        assert forall l | i <= l < j :: !FileFlagAt(args, l);
      }
    }
  }

  /**
   * The scan finds the first `--file`/`-f` that has a value after it and
   * returns that value; there is none exactly when no flag is followed by a
   * value (a trailing `--file` is ignored).
   */
  lemma FileArgIsFirstFlag(args: seq<string>)
    ensures FileArg(args).None? <==> forall j | 0 <= j < |args| :: !FileFlagAt(args, j)
    ensures FileArg(args).Some? ==>
              exists j | 0 <= j < |args| :: FileFlagAt(args, j) && FileArg(args).value == args[j + 1] &&
                                            forall l | 0 <= l < j :: !FileFlagAt(args, l)
  {
    FileArgFromIsFirstFlag(args, 0);
  }
}
