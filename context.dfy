/**
 * The execution context (src/runner/context.rs): the state a task run
 * carries, the task stack that guards against recursion, and verbosity
 * gating of the messages written to standard error.
 */
module Contexts {
  import opened Errors
  import opened World

  /** Verbosity levels, ordered by their discriminants 0..3. */
  datatype Verbosity = Silent | Quiet | Normal | Verbose {
    function Level(): (n: nat)
      ensures n <= 3
    {
      match this
      case Silent => 0
      case Quiet => 1
      case Normal => 2
      case Verbose => 3
    }

    /** The derived `Ord`: `self >= other`. */
    predicate AtLeast(other: Verbosity) {
      Level() >= other.Level()
    }
  }

  /** The order on verbosity is total and antisymmetric, and follows Silent < Quiet < Normal < Verbose. */
  lemma VerbosityTotalOrder(a: Verbosity, b: Verbosity)
    ensures a.AtLeast(b) || b.AtLeast(a)
    ensures a.AtLeast(b) && b.AtLeast(a) ==> a == b
    ensures Verbose.AtLeast(a) && a.AtLeast(Silent)
    ensures !Silent.AtLeast(Quiet) && !Quiet.AtLeast(Normal) && !Normal.AtLeast(Verbose)
  {
    match a
    case Silent =>
    case Quiet =>
    case Normal =>
    case Verbose =>
  }

  /** A snapshot of every field of a context. */
  datatype ContextState = ContextState(
    workingDir: string,
    configPath: Option<string>,
    vars: map<string, string>,
    interpreter: seq<string>,
    taskStack: seq<string>,
    verbosity: Verbosity)
  {
    /** `push_task`. */
    function PushTask(name: string): ContextState {
      this.(taskStack := taskStack + [name])
    }

    /** `pop_task`: the popped name, and the state without it. */
    function PopTask(): (ContextState, Option<string>) {
      if taskStack == [] then (this, None)
      else (this.(taskStack := taskStack[..|taskStack| - 1]), Some(taskStack[|taskStack| - 1]))
    }

    /** `set_var`. */
    function SetVar(key: string, value: string): ContextState {
      this.(vars := vars[key := value])
    }

    /** `get_var`. */
    function GetVar(key: string): Option<string> {
      if key in vars then Some(vars[key]) else None
    }

    /** `current_task`: the top of the stack. */
    function CurrentTask(): Option<string> {
      if taskStack == [] then None else Some(taskStack[|taskStack| - 1])
    }

    /** `is_task_in_stack`: a scan of the stack for an equal name. */
    function IsTaskInStack(name: string): (b: bool)
      ensures b <==> name in taskStack
    {
      AnyEqual(taskStack, name)
    }

    /** `config_dir`: the parent of the config file when both exist, else the working directory. */
    function ConfigDir(): string {
      match configPath
      case Some(p) => (match Parent(p) case Some(d) => d case None => workingDir)
      case None => workingDir
    }

    /** `print_info`: written iff the level is at least Normal. */
    function InfoLines(message: string): seq<Event> {
      if verbosity.AtLeast(Normal) then [Printed("[INFO] " + message)] else []
    }

    /** `print_error`: written iff the level is at least Quiet. */
    function ErrorLines(message: string): seq<Event> {
      if verbosity.AtLeast(Quiet) then [Printed("[ERROR] " + message)] else []
    }

    /** `print_debug`: written iff the level is Verbose. */
    function DebugLines(message: string): seq<Event> {
      if verbosity.AtLeast(Verbose) then [Printed("[DEBUG] " + message)] else []
    }
  }

  /** `iter().any(|t| t == name)`. */
  function AnyEqual(s: seq<string>, name: string): (b: bool)
    ensures b <==> name in s
  {
    if s == [] then false
    else s[0] == name || AnyEqual(s[1..], name)
  }

  /** `Context::new`: the working directory is the current one, or "." when it cannot be read. */
  function NewState(currentDir: Option<string>): ContextState {
    ContextState(
      match currentDir case Some(d) => d case None => ".",
      None, map[], ["sh", "-c"], [], Normal)
  }

  /** A fresh context: no vars, `sh -c`, an empty stack, Normal verbosity, no config path. */
  lemma NewContextDefaults(currentDir: Option<string>)
    ensures NewState(currentDir).vars == map[] && NewState(currentDir).taskStack == []
    ensures NewState(currentDir).interpreter == ["sh", "-c"]
    ensures NewState(currentDir).verbosity == Normal && NewState(currentDir).configPath == None
    ensures NewState(currentDir).CurrentTask() == None
    ensures forall n :: !NewState(currentDir).IsTaskInStack(n)
    ensures NewState(currentDir).ConfigDir() == NewState(currentDir).workingDir
  {
  }

  /** Push then pop returns the pushed name and restores the previous state. */
  lemma PushPopRoundTrip(c: ContextState, name: string)
    ensures c.PushTask(name).PopTask() == (c, Some(name))
    ensures c.PushTask(name).CurrentTask() == Some(name)
    ensures c.PushTask(name).IsTaskInStack(name)
  {
    assert (c.taskStack + [name])[..|c.taskStack|] == c.taskStack;
  }

  /** Popping an empty stack yields nothing and changes nothing; otherwise it yields the current task. */
  lemma PopIsCurrent(c: ContextState)
    ensures c.PopTask().1 == c.CurrentTask()
    ensures c.PopTask().1.Some? ==> c.PopTask().0.PushTask(c.PopTask().1.value) == c
    ensures c.taskStack == [] ==> c.PopTask().0 == c
  {
    if c.taskStack != [] {
      assert c.taskStack[..|c.taskStack| - 1] + [c.taskStack[|c.taskStack| - 1]] == c.taskStack;
    }
  }

  /** `set_var(k, v)` then `get_var(k)` gives v; every other key reads as before. */
  lemma SetThenGet(c: ContextState, key: string, value: string, other: string)
    ensures c.SetVar(key, value).GetVar(key) == Some(value)
    ensures other != key ==> c.SetVar(key, value).GetVar(other) == c.GetVar(other)
    ensures c.SetVar(key, value).taskStack == c.taskStack
  {
  }

  /** Gating is monotone: debug output implies info output, which implies error output. */
  lemma GatingMonotone(c: ContextState, m: string)
    ensures c.DebugLines(m) != [] ==> c.InfoLines(m) != []
    ensures c.InfoLines(m) != [] ==> c.ErrorLines(m) != []
    ensures c.verbosity == Silent ==> c.ErrorLines(m) == [] && c.InfoLines(m) == [] && c.DebugLines(m) == []
    ensures c.InfoLines(m) != [] <==> c.verbosity in {Normal, Verbose}
    ensures c.ErrorLines(m) != [] <==> c.verbosity != Silent
    ensures c.DebugLines(m) != [] <==> c.verbosity == Verbose
  {
  }

  /**
   * `config_dir` is the working directory when there is no config path or the
   * path has no parent; otherwise a shorter prefix of the config path, or the root.
   */
  lemma ConfigDirSource(c: ContextState)
    ensures c.configPath.None? ==> c.ConfigDir() == c.workingDir
    ensures c.configPath.Some? && Parent(c.configPath.value).None? ==> c.ConfigDir() == c.workingDir
    ensures c.configPath.Some? && Parent(c.configPath.value).Some? ==>
              |c.ConfigDir()| < |c.configPath.value| &&
              (c.ConfigDir() == c.configPath.value[..|c.ConfigDir()|] || c.ConfigDir() == "/")
  {
    if c.configPath.Some? && Parent(c.configPath.value).Some? {
      ParentIsProperPrefix(c.configPath.value);
    }
  }

  /** The mutable execution context. */
  class Context {
    var workingDir: string
    var configPath: Option<string>
    var vars: map<string, string>
    var interpreter: seq<string>
    var taskStack: seq<string>
    var verbosity: Verbosity

    function State(): ContextState
      reads this
    {
      ContextState(workingDir, configPath, vars, interpreter, taskStack, verbosity)
    }

    /** `Context::new`, with the current directory passed in. */
    constructor(currentDir: Option<string>)
      ensures State() == NewState(currentDir)
    {
      workingDir := match currentDir case Some(d) => d case None => ".";
      configPath := None;
      vars := map[];
      interpreter := ["sh", "-c"];
      taskStack := [];
      verbosity := Normal;
    }

    method WithWorkingDir(dir: string)
      modifies this
      ensures State() == old(State()).(workingDir := dir)
    {
      workingDir := dir;
    }

    method WithConfigPath(path: string)
      modifies this
      ensures State() == old(State()).(configPath := Some(path))
    {
      configPath := Some(path);
    }

    method WithVars(vs: map<string, string>)
      modifies this
      ensures State() == old(State()).(vars := vs)
    {
      vars := vs;
    }

    method WithInterpreter(interp: seq<string>)
      modifies this
      ensures State() == old(State()).(interpreter := interp)
    {
      interpreter := interp;
    }

    method WithVerbosity(v: Verbosity)
      modifies this
      ensures State() == old(State()).(verbosity := v)
    {
      verbosity := v;
    }

    method SetVar(key: string, value: string)
      modifies this
      ensures State() == old(State()).SetVar(key, value)
    {
      vars := vars[key := value];
    }

    /** `vars.remove(key)`, as `set-environment` does for a null value. */
    method RemoveVar(key: string)
      modifies this
      ensures State() == old(State()).(vars := old(vars) - {key})
    {
      vars := vars - {key};
    }

    method PushTask(name: string)
      modifies this
      ensures State() == old(State()).PushTask(name)
    {
      taskStack := taskStack + [name];
    }

    method PopTask() returns (r: Option<string>)
      modifies this
      ensures (State(), r) == old(State()).PopTask()
    {
      if taskStack == [] {
        r := None;
      } else {
        r := Some(taskStack[|taskStack| - 1]);
        taskStack := taskStack[..|taskStack| - 1];
      }
    }

    method PrintInfo(os: Os, message: string)
      modifies os
      ensures os.log == old(os.log) + State().InfoLines(message) && os.env == old(os.env)
    {
      if verbosity.AtLeast(Normal) {
        os.Print("[INFO] " + message);
      }
    }

    method PrintError(os: Os, message: string)
      modifies os
      ensures os.log == old(os.log) + State().ErrorLines(message) && os.env == old(os.env)
    {
      if verbosity.AtLeast(Quiet) {
        os.Print("[ERROR] " + message);
      }
    }

    method PrintDebug(os: Os, message: string)
      modifies os
      ensures os.log == old(os.log) + State().DebugLines(message) && os.env == old(os.env)
    {
      if verbosity.AtLeast(Verbose) {
        os.Print("[DEBUG] " + message);
      }
    }

    method PrintTaskStart(os: Os, name: string)
      modifies os
      ensures os.log == old(os.log) + TaskStartLines(State(), name) && os.env == old(os.env)
    {
      PrintInfo(os, "Running task: " + name);
    }

    method PrintTaskComplete(os: Os, name: string)
      modifies os
      ensures os.log == old(os.log) + TaskCompleteLines(State(), name) && os.env == old(os.env)
    {
      PrintDebug(os, "Task completed: " + name);
    }

    method PrintTaskSkip(os: Os, name: string, reason: string)
      modifies os
      ensures os.log == old(os.log) + TaskSkipLines(State(), name, reason) && os.env == old(os.env)
    {
      PrintDebug(os, "Skipping task '" + name + "': " + reason);
    }
  }

  /** `print_task_start`. */
  function TaskStartLines(c: ContextState, name: string): seq<Event> {
    c.InfoLines("Running task: " + name)
  }

  /** `print_task_complete`. */
  function TaskCompleteLines(c: ContextState, name: string): seq<Event> {
    c.DebugLines("Task completed: " + name)
  }

  /** `print_task_skip`. */
  function TaskSkipLines(c: ContextState, name: string, reason: string): seq<Event> {
    c.DebugLines("Skipping task '" + name + "': " + reason)
  }
}
