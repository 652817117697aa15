/**
 * Runtime task representation and its construction from configuration
 * (src/runner/task.rs, the builder half). Execution lives in the
 * Execution module.
 */
module Tasks {
  import opened Errors
  import C = ConfigTypes

  type EnvEntry = C.EnvEntry

  datatype WhenCondition =
    | Equal(left: string, right: string)
    | NotEqual(left: string, right: string)
    | CommandSucceeds(cmd: string)
    | Exists(path: string)
    | EnvSet(envName: string)
    | EnvNotSet(envName: string)
    | OptionSet(optName: string)
    | OptionNotSet(optName: string)
    | Always

  datatype When = When(condition: WhenCondition)

  /** A command; `printText` is what is announced, `dir` is relative to the working directory. */
  datatype Command =
    | Simple(cmd: string)
    | Complex(exec: string, printText: string, quiet: bool, dir: Option<string>)
  {
    /** `Command::exec`. */
    function Exec(): string {
      match this
      case Simple(c) => c
      case Complex(e, _, _, _) => e
    }

    /** `Command::print`. */
    function Print(): string {
      match this
      case Simple(c) => c
      case Complex(_, p, _, _) => p
    }

    /** `Command::is_quiet`. */
    function IsQuiet(): bool {
      match this
      case Simple(_) => false
      case Complex(_, _, q, _) => q
    }

    /** `Command::dir`. */
    function Dir(): Option<string> {
      match this
      case Simple(_) => None
      case Complex(_, _, _, d) => d
    }
  }

  datatype SubTask = SubTask(name: string, options: map<string, string>)

  datatype Run = Run(
    when: seq<When>,
    commands: seq<Command>,
    subtasks: seq<SubTask>,
    setEnvironment: seq<EnvEntry>)

  datatype OptionType = String | Bool | Integer | Float

  datatype TaskOption = TaskOption(
    name: string,
    usage: Option<string>,
    short: Option<string>,
    optionType: OptionType,
    default: Option<string>,
    required: bool,
    rewrite: Option<string>,
    environment: Option<string>,
    private: bool)

  datatype Arg = Arg(name: string, usage: Option<string>, default: Option<string>, required: bool, private: bool)

  datatype Task = Task(
    name: string,
    usage: Option<string>,
    description: Option<string>,
    private: bool,
    quiet: bool,
    args: map<string, Arg>,
    options: map<string, TaskOption>,
    run: seq<Run>,
    finally: seq<Run>,
    source: seq<string>,
    target: seq<string>,
    vars: map<string, string>)

  // ---------------------------------------------------------------------
  // Conversions from configuration

  /** `Command::from_config`: the announced text defaults to the command itself. */
  function CommandFromConfig(c: C.Command): (r: Command)
    ensures c.Simple? ==> r == Simple(c.cmd)
    ensures c.Complex? ==> r.Exec() == c.detail.exec && r.IsQuiet() == c.detail.quiet && r.Dir() == c.detail.dir
    ensures c.Complex? && c.detail.printAs.Some? ==> r.Print() == c.detail.printAs.value
    ensures c.Complex? && c.detail.printAs.None? ==> r.Print() == c.detail.exec
  {
    match c
    case Simple(s) => Simple(s)
    case Complex(d) =>
      Complex(d.exec, match d.printAs case Some(p) => p case None => d.exec, d.quiet, d.dir)
  }

  /** A simple command runs, and is announced as, its own text, loudly and in the working directory. */
  lemma SimpleCommandAccessors(s: string)
    ensures Simple(s).Exec() == s && Simple(s).Print() == s
    ensures !Simple(s).IsQuiet() && Simple(s).Dir() == None
  {
  }

  /** `SubTask::from_config`: a bare name has no options. */
  function SubTaskFromConfig(c: C.SubTask): (r: SubTask)
    ensures r.name == C.SubTaskName(c)
    ensures c.Simple? ==> r.options == map[]
    ensures c.Complex? ==> r.options == c.detail.options
  {
    match c
    case Simple(n) => SubTask(n, map[])
    case Complex(d) => SubTask(d.name, d.options)
  }

  /** `When::from_config`: the first present field decides, in declaration order. */
  function WhenFromConfig(c: C.When): (r: When)
    ensures r.condition.Always? <==>
              c.equal.None? && c.notEqual.None? && c.command.None? && c.pathExists.None? &&
              c.envSet.None? && c.envNotSet.None? && c.optionSet.None? && c.optionNotSet.None?
    ensures c.equal.Some? ==> r.condition == Equal(c.equal.value.left, c.equal.value.right)
    ensures c.equal.None? && c.notEqual.Some? ==>
              r.condition == NotEqual(c.notEqual.value.left, c.notEqual.value.right)
    ensures c.equal.None? && c.notEqual.None? && c.command.Some? ==>
              r.condition == CommandSucceeds(c.command.value)
    ensures c.equal.None? && c.notEqual.None? && c.command.None? && c.pathExists.Some? ==>
              r.condition == Exists(c.pathExists.value)
    ensures c.equal.None? && c.notEqual.None? && c.command.None? && c.pathExists.None? &&
            c.envSet.Some? ==>
              r.condition == EnvSet(c.envSet.value)
    ensures c.equal.None? && c.notEqual.None? && c.command.None? && c.pathExists.None? &&
            c.envSet.None? && c.envNotSet.Some? ==>
              r.condition == EnvNotSet(c.envNotSet.value)
    ensures c.equal.None? && c.notEqual.None? && c.command.None? && c.pathExists.None? &&
            c.envSet.None? && c.envNotSet.None? && c.optionSet.Some? ==>
              r.condition == OptionSet(c.optionSet.value)
    ensures c.equal.None? && c.notEqual.None? && c.command.None? && c.pathExists.None? &&
            c.envSet.None? && c.envNotSet.None? && c.optionSet.None? && c.optionNotSet.Some? ==>
              r.condition == OptionNotSet(c.optionNotSet.value)
  {
    var cond :=
      if c.equal.Some? then Equal(c.equal.value.left, c.equal.value.right)
      else if c.notEqual.Some? then NotEqual(c.notEqual.value.left, c.notEqual.value.right)
      else if c.command.Some? then CommandSucceeds(c.command.value)
      else if c.pathExists.Some? then Exists(c.pathExists.value)
      else if c.envSet.Some? then EnvSet(c.envSet.value)
      else if c.envNotSet.Some? then EnvNotSet(c.envNotSet.value)
      else if c.optionSet.Some? then OptionSet(c.optionSet.value)
      else if c.optionNotSet.Some? then OptionNotSet(c.optionNotSet.value)
      else Always;
    When(cond)
  }

  /** The configuration with exactly the one field that names a condition. */
  function ConfigOf(w: WhenCondition): C.When {
    var none := C.When(None, None, None, None, None, None, None, None);
    match w
    case Equal(l, r) => none.(equal := Some(C.WhenComparison(l, r)))
    case NotEqual(l, r) => none.(notEqual := Some(C.WhenComparison(l, r)))
    case CommandSucceeds(s) => none.(command := Some(s))
    case Exists(p) => none.(pathExists := Some(p))
    case EnvSet(n) => none.(envSet := Some(n))
    case EnvNotSet(n) => none.(envNotSet := Some(n))
    case OptionSet(n) => none.(optionSet := Some(n))
    case OptionNotSet(n) => none.(optionNotSet := Some(n))
    case Always => none
  }

  /** Every condition is reachable from configuration: a one-field config converts back to it. */
  lemma WhenRoundTrip(w: WhenCondition)
    ensures WhenFromConfig(ConfigOf(w)) == When(w)
  {
  }

  /** `TaskOption::from_config`'s type mapping; every unknown text becomes String. */
  function OptionTypeOf(t: string): (r: OptionType)
    ensures r == Bool <==> t == "bool" || t == "boolean"
    ensures r == Integer <==> t == "int" || t == "integer"
    ensures r == Float <==> t == "float"
  {
    if t == "bool" || t == "boolean" then Bool
    else if t == "int" || t == "integer" then Integer
    else if t == "float" then Float
    else String
  }

  function TaskOptionFromConfig(name: string, c: C.TaskOption): (r: TaskOption)
    ensures r.name == name && r.optionType == OptionTypeOf(c.optionType)
    ensures r.default == c.default && r.rewrite == c.rewrite && r.environment == c.environment
  {
    TaskOption(name, c.usage, c.short, OptionTypeOf(c.optionType), c.default, c.required, c.rewrite, c.environment, c.private)
  }

  function ArgFromConfig(name: string, c: C.Arg): (r: Arg)
    ensures r.name == name && r.default == c.default && r.required == c.required
  {
    Arg(name, c.usage, c.default, c.required, c.private)
  }

  /** `Run::from_config`. */
  function RunFromConfig(c: C.Run): (r: Run)
    ensures c.SimpleCommand? ==> r == Run([], [Simple(c.cmd)], [], [])
    ensures c.Complex? ==>
              |r.when| == |c.item.when| && |r.commands| == |c.item.command| &&
              |r.subtasks| == |c.item.task| && r.setEnvironment == c.item.setEnvironment
    ensures c.Complex? ==> forall i :: 0 <= i < |c.item.command| ==> r.commands[i] == CommandFromConfig(c.item.command[i])
    ensures c.Complex? ==> forall i :: 0 <= i < |c.item.when| ==> r.when[i] == WhenFromConfig(c.item.when[i])
    ensures c.Complex? ==> forall i :: 0 <= i < |c.item.task| ==> r.subtasks[i] == SubTaskFromConfig(c.item.task[i])
  {
    match c
    case SimpleCommand(s) => Run([], [Simple(s)], [], [])
    case Complex(item) =>
      Run(
        seq(|item.when|, i requires 0 <= i < |item.when| => WhenFromConfig(item.when[i])),
        seq(|item.command|, i requires 0 <= i < |item.command| => CommandFromConfig(item.command[i])),
        seq(|item.task|, i requires 0 <= i < |item.task| => SubTaskFromConfig(item.task[i])),
        item.setEnvironment)
  }

  /** The run items, converted one for one and in order. */
  function RunsFromConfig(runs: seq<C.Run>): (r: seq<Run>)
    ensures |r| == |runs| && forall i :: 0 <= i < |runs| ==> r[i] == RunFromConfig(runs[i])
  {
    seq(|runs|, i requires 0 <= i < |runs| => RunFromConfig(runs[i]))
  }

  // ---------------------------------------------------------------------
  // Validation and construction

  /** No argument shares its name with an option. */
  predicate DistinctNames(c: C.Task) {
    forall n :: n in c.args ==> n !in c.options
  }

  /** Everything `Task::validate_config` checks. */
  predicate ValidTask(c: C.Task) {
    (|c.source| == 0 <==> |c.target| == 0) && DistinctNames(c)
  }

  /**
   * `Task::validate_config`: source without target, then target without
   * source, then the argument names in map order against the options.
   */
  method ValidateConfig(c: C.Task) returns (r: Result<(), ConfigError>)
    ensures r.Ok? <==> ValidTask(c)
    ensures r == Err(SourceWithoutTarget) <==> |c.source| > 0 && |c.target| == 0
    ensures r == Err(TargetWithoutSource) <==> |c.target| > 0 && |c.source| == 0
    ensures r.Err? && r.error.DuplicateNames? ==>
              (|c.source| == 0 <==> |c.target| == 0) && r.error.name in c.args && r.error.name in c.options
    ensures r.Err? ==> r.error.SourceWithoutTarget? || r.error.TargetWithoutSource? || r.error.DuplicateNames?
  {
    if |c.source| > 0 && |c.target| == 0 {
      return Err(SourceWithoutTarget);
    }
    if |c.target| > 0 && |c.source| == 0 {
      return Err(TargetWithoutSource);
    }
    var todo := c.args.Keys;
    while todo != {}
      invariant todo <= c.args.Keys
      invariant forall n :: n in c.args.Keys - todo ==> n !in c.options
      decreases |todo|
    {
      var argName :| argName in todo;
      if argName in c.options {
        return Err(DuplicateNames(argName));
      }
      todo := todo - {argName};
    }
    return Ok(());
  }

  /** The task `from_config` builds once validation has passed; its vars start empty. */
  function Build(name: string, c: C.Task): (t: Task)
    ensures t.name == name && t.vars == map[]
    ensures t.args.Keys == c.args.Keys && t.options.Keys == c.options.Keys
    ensures forall k :: k in c.options ==> t.options[k] == TaskOptionFromConfig(k, c.options[k])
    ensures forall k :: k in c.args ==> t.args[k] == ArgFromConfig(k, c.args[k])
    ensures t.run == RunsFromConfig(c.run) && t.finally == RunsFromConfig(c.finally)
    ensures t.source == c.source && t.target == c.target && t.quiet == c.quiet
  {
    Task(
      name, c.usage, c.description, c.private, c.quiet,
      map k | k in c.args :: ArgFromConfig(k, c.args[k]),
      map k | k in c.options :: TaskOptionFromConfig(k, c.options[k]),
      RunsFromConfig(c.run), RunsFromConfig(c.finally),
      c.source, c.target, map[])
  }

  /** `Task::from_config`: validate, then convert. */
  method FromConfig(name: string, c: C.Task) returns (r: Result<Task, ConfigError>)
    ensures r.Ok? <==> ValidTask(c)
    ensures r.Ok? ==> r.value == Build(name, c)
    ensures r.Err? ==> r.error.SourceWithoutTarget? || r.error.TargetWithoutSource? || r.error.DuplicateNames?
  {
    var v := ValidateConfig(c);
    if v.Err? {
      return Err(v.error);
    }
    return Ok(Build(name, c));
  }

  /** A simple run item becomes one command and nothing else. */
  lemma SimpleRunConversion(s: string)
    ensures RunFromConfig(C.SimpleCommand(s)).commands == [Simple(s)]
    ensures RunFromConfig(C.SimpleCommand(s)).when == [] && RunFromConfig(C.SimpleCommand(s)).subtasks == []
    ensures RunFromConfig(C.SimpleCommand(s)).setEnvironment == []
  {
  }

  // ---------------------------------------------------------------------
  // Dependencies

  /** `When::dependencies`: the option an option-set / option-not-set condition names. */
  function WhenDependencies(w: When): (r: seq<string>)
    ensures |r| <= 1
    ensures r != [] <==> w.condition.OptionSet? || w.condition.OptionNotSet?
  {
    match w.condition
    case OptionSet(n) => [n]
    case OptionNotSet(n) => [n]
    case _ => []
  }

  /** The option a condition depends on, if any. */
  predicate DependsOn(w: When, d: string) {
    (w.condition.OptionSet? && w.condition.optName == d) || (w.condition.OptionNotSet? && w.condition.optName == d)
  }

  /** `Run::dependencies`: the when dependencies, in order. */
  function RunDependencies(ws: seq<When>): (r: seq<string>)
    ensures forall d :: d in r <==> exists i :: 0 <= i < |ws| && DependsOn(ws[i], d)
  {
    if ws == [] then []
    else
      var rest := RunDependencies(ws[1..]);
      assert forall i :: 1 <= i < |ws| ==> ws[1..][i - 1] == ws[i];
      WhenDependencies(ws[0]) + rest
  }

  /** The dependencies of a list of run items, in order. */
  function RunsDependencies(runs: seq<Run>): (r: seq<string>)
    ensures forall d :: d in r <==> exists i, j :: 0 <= i < |runs| && 0 <= j < |runs[i].when| && DependsOn(runs[i].when[j], d)
  {
    if runs == [] then []
    else
      var rest := RunsDependencies(runs[1..]);
      assert forall i :: 1 <= i < |runs| ==> runs[1..][i - 1] == runs[i];
      RunDependencies(runs[0].when) + rest
  }

  /**
   * `Task::dependencies`: options contribute none, then the condition
   * dependencies of the run items and the finally items.
   */
  function Dependencies(t: Task): (r: seq<string>)
    ensures forall d :: d in r <==>
              (exists i, j :: 0 <= i < |t.run| && 0 <= j < |t.run[i].when| && DependsOn(t.run[i].when[j], d)) ||
              (exists i, j :: 0 <= i < |t.finally| && 0 <= j < |t.finally[i].when| && DependsOn(t.finally[i].when[j], d))
  {
    RunsDependencies(t.run) + RunsDependencies(t.finally)
  }
}
