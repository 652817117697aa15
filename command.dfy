/**
 * Running shell commands (src/runner/command.rs): `execute_command`, which
 * announces and runs one command with the context's variables in its
 * environment, and `check_command`, the silent probe behind a `command`
 * condition.
 */
module Commands {
  import opened Errors
  import opened World
  import opened Interpolator
  import opened Contexts
  import Tasks

  /** What an effectful operation returns, together with the effects it has, in order. */
  datatype Outcome<+T> = Outcome(result: Result<T, ExecutionError>, events: seq<Event>)

  // ---------------------------------------------------------------------
  // check_command

  /** The probe: interpreter, then the command; the working directory; the inherited environment; output discarded. */
  function ProbeInvocation(exec: string, c: ContextState, env: Vars): Invocation {
    Invocation(c.interpreter + [exec], c.workingDir, env, Suppressed)
  }

  /**
   * `check_command`: an interpolation failure is an invalid `command` option;
   * a spawn failure is `CommandFailed(None)`; otherwise whether the probe
   * exited with code 0.
   */
  function CheckSpec(cmdStr: string, c: ContextState, env: Vars, oracle: Oracle): Outcome<bool> {
    match Interpolation(cmdStr, c.vars, env)
    case Err(e) => Outcome(Err(InvalidOption("command", e)), [])
    case Ok(exec) =>
      var inv := ProbeInvocation(exec, c, env);
      match oracle.spawn(inv)
      case SpawnError => Outcome(Err(CommandFailed(None)), [Spawned(inv)])
      case Exited(_) => Outcome(Ok(Succeeded(oracle.spawn(inv))), [Spawned(inv)])
  }

  /** `check_command` on a live context and operating system. */
  method CheckCommand(cmdStr: string, ctx: Context, os: Os) returns (r: Result<bool, ExecutionError>)
    requires |ctx.interpreter| > 0
    modifies os
    ensures var o := CheckSpec(cmdStr, ctx.State(), old(os.env), os.oracle);
            r == o.result && os.log == old(os.log) + o.events && os.env == old(os.env)
  {
    var interpolated := Interpolate(cmdStr, ctx.vars, os.env);
    if interpolated.Err? {
      return Err(InvalidOption("command", interpolated.error));
    }
    var inv := ProbeInvocation(interpolated.value, ctx.State(), os.env);
    var status := os.Spawn(inv);
    if status.SpawnError? {
      return Err(CommandFailed(None));
    }
    return Ok(Succeeded(status));
  }

  /**
   * A probe prints nothing, spawns at most once, and the child sees the
   * process environment only: the context's variables are not passed.
   */
  lemma ProbeIsSilent(cmdStr: string, c: ContextState, env: Vars, oracle: Oracle)
    ensures |CheckSpec(cmdStr, c, env, oracle).events| <= 1
    ensures forall e :: e in CheckSpec(cmdStr, c, env, oracle).events ==>
              e.Spawned? && e.inv.stdio == Suppressed && e.inv.env == env &&
              e.inv.cwd == c.workingDir && e.inv.argv[..|c.interpreter|] == c.interpreter
    ensures CheckSpec(cmdStr, c, env, oracle).result.Ok? ==> |CheckSpec(cmdStr, c, env, oracle).events| == 1
  {
    match Interpolation(cmdStr, c.vars, env)
    case Err(_) =>
    case Ok(exec) =>
      assert (c.interpreter + [exec])[..|c.interpreter|] == c.interpreter;
  }

  /** The probe's answer is true exactly when the spawned command exited with code 0. */
  lemma ProbeAnswer(cmdStr: string, c: ContextState, env: Vars, oracle: Oracle)
    ensures var o := CheckSpec(cmdStr, c, env, oracle);
            o.result == Ok(true) <==>
              (exists exec :: Interpolation(cmdStr, c.vars, env) == Ok(exec) &&
                 oracle.spawn(ProbeInvocation(exec, c, env)) == Exited(Some(0)))
    ensures var o := CheckSpec(cmdStr, c, env, oracle);
            o.result.Err? <==>
              (Interpolation(cmdStr, c.vars, env).Err? ||
               oracle.spawn(ProbeInvocation(Interpolation(cmdStr, c.vars, env).value, c, env)) == SpawnError)
  {
    match Interpolation(cmdStr, c.vars, env)
    case Err(_) =>
    case Ok(exec) =>
  }

  // ---------------------------------------------------------------------
  // execute_command

  /** The `[RUN]` line: written unless the command is quiet or the level is below Normal. */
  function Announcement(cmd: Tasks.Command, c: ContextState, env: Vars): seq<Event> {
    if !cmd.IsQuiet() && c.verbosity.AtLeast(Normal) then [Printed("[RUN] " + Lenient(cmd.Print(), c.vars, env))]
    else []
  }

  /** The child's directory: the working directory, joined with the interpolated `dir` when there is one. */
  function ChildDir(cmd: Tasks.Command, c: ContextState, env: Vars): Result<string, ExecutionError> {
    match cmd.Dir()
    case None => Ok(c.workingDir)
    case Some(d) =>
      match Interpolation(d, c.vars, env)
      case Err(e) => Err(InvalidOption("dir", e))
      case Ok(v) => Ok(Join(c.workingDir, v))
  }

  /** The command run: interpreter, then the command, with the context's variables over the process environment. */
  function RunInvocation(exec: string, cwd: string, c: ContextState, env: Vars): Invocation {
    Invocation(c.interpreter + [exec], cwd, env + c.vars, Inherit)
  }

  /** `status()` mapped to a result: a spawn failure has no code; a non-zero or missing code is kept. */
  function StatusResult(o: SpawnOutcome): (r: Result<(), ExecutionError>)
    ensures r.Ok? <==> o == Exited(Some(0))
    ensures r.Err? ==> r.error.CommandFailed? && (o.Exited? ==> r.error.code == o.code)
    ensures o.SpawnError? ==> r.error.code.None?
  {
    match o
    case SpawnError => Err(CommandFailed(None))
    case Exited(code) => if code == Some(0) then Ok(()) else Err(CommandFailed(code))
  }

  /**
   * `execute_command`: interpolate the command (an error spawns nothing and
   * prints nothing), announce it, resolve the directory (an error comes after
   * the announcement), then run it and map its status.
   */
  function CommandSpec(cmd: Tasks.Command, c: ContextState, env: Vars, oracle: Oracle): Outcome<()> {
    match Interpolation(cmd.Exec(), c.vars, env)
    case Err(e) => Outcome(Err(InvalidOption("command", e)), [])
    case Ok(exec) =>
      var announce := Announcement(cmd, c, env);
      match ChildDir(cmd, c, env)
      case Err(e) => Outcome(Err(e), announce)
      case Ok(cwd) =>
        var inv := RunInvocation(exec, cwd, c, env);
        Outcome(StatusResult(oracle.spawn(inv)), announce + [Spawned(inv)])
  }

  /** The loop over the context's variables that calls `command.env(key, value)` for each. */
  method ChildEnvironment(base: Vars, vars: Vars) returns (m: Vars)
    ensures m == base + vars
  {
    m := base;
    var todo := vars.Keys;
    while todo != {}
      invariant todo <= vars.Keys
      invariant m == base + map k | k in vars.Keys - todo :: vars[k]
      decreases |todo|
    {
      var k :| k in todo;
      m := m[k := vars[k]];
      todo := todo - {k};
    }
    assert vars.Keys - todo == vars.Keys;
    assert (map k | k in vars.Keys :: vars[k]) == vars;
  }

  /** The interpolation `print` falls back to its raw text on error. */
  method LenientInterpolate(s: string, vars: Vars, env: Vars) returns (r: string)
    ensures r == Lenient(s, vars, env)
  {
    var res := Interpolate(s, vars, env);
    r := if res.Ok? then res.value else s;
  }

  /** `execute_command` on a live context and operating system. */
  method ExecuteCommand(cmd: Tasks.Command, ctx: Context, os: Os) returns (r: Result<(), ExecutionError>)
    requires |ctx.interpreter| > 0
    modifies os
    ensures var o := CommandSpec(cmd, ctx.State(), old(os.env), os.oracle);
            r == o.result && os.log == old(os.log) + o.events && os.env == old(os.env)
  {
    var execStr := Interpolate(cmd.Exec(), ctx.vars, os.env);
    if execStr.Err? {
      return Err(InvalidOption("command", execStr.error));
    }
    if !cmd.IsQuiet() && ctx.verbosity.AtLeast(Normal) {
      var printStr := LenientInterpolate(cmd.Print(), ctx.vars, os.env);
      os.Print("[RUN] " + printStr);
    }
    var cwd := ctx.workingDir;
    if cmd.Dir().Some? {
      var dir := Interpolate(cmd.Dir().value, ctx.vars, os.env);
      if dir.Err? {
        return Err(InvalidOption("dir", dir.error));
      }
      cwd := Join(ctx.workingDir, dir.value);
    }
    var childEnv := ChildEnvironment(os.env, ctx.vars);
    var inv := Invocation(ctx.interpreter + [execStr.value], cwd, childEnv, Inherit);
    var status := os.Spawn(inv);
    if status.SpawnError? {
      return Err(CommandFailed(None));
    }
    if !Succeeded(status) {
      return Err(CommandFailed(status.code));
    }
    return Ok(());
  }

  /** An interpolation failure in the command text stops everything: nothing is printed or spawned. */
  lemma ExecErrorHasNoEffect(cmd: Tasks.Command, c: ContextState, env: Vars, oracle: Oracle)
    requires Interpolation(cmd.Exec(), c.vars, env).Err?
    ensures CommandSpec(cmd, c, env, oracle).events == []
    ensures CommandSpec(cmd, c, env, oracle).result ==
              Err(InvalidOption("command", Interpolation(cmd.Exec(), c.vars, env).error))
  {
  }

  /**
   * When the command text resolves, the `[RUN]` line comes first exactly when
   * the command is not quiet and the level is at least Normal, and it shows
   * the print text.
   */
  lemma AnnouncedIff(cmd: Tasks.Command, c: ContextState, env: Vars, oracle: Oracle)
    requires Interpolation(cmd.Exec(), c.vars, env).Ok?
    ensures var ev := CommandSpec(cmd, c, env, oracle).events;
            (|ev| > 0 && ev[0].Printed?) <==> (!cmd.IsQuiet() && c.verbosity in {Normal, Verbose})
    ensures var ev := CommandSpec(cmd, c, env, oracle).events;
            |ev| > 0 && ev[0].Printed? ==> ev[0].line == "[RUN] " + Lenient(cmd.Print(), c.vars, env)
  {
  }

  /**
   * A spawned child gets the interpreter followed by the interpolated command,
   * every context variable (overriding the process environment), every other
   * process variable, and the resolved directory; it is the last effect.
   */
  lemma ChildSeesContext(cmd: Tasks.Command, c: ContextState, env: Vars, oracle: Oracle)
    requires Interpolation(cmd.Exec(), c.vars, env).Ok? && ChildDir(cmd, c, env).Ok?
    ensures var ev := CommandSpec(cmd, c, env, oracle).events;
            |ev| > 0 && ev[|ev| - 1].Spawned? &&
            var inv := ev[|ev| - 1].inv;
            inv.argv == c.interpreter + [Interpolation(cmd.Exec(), c.vars, env).value] &&
            inv.cwd == ChildDir(cmd, c, env).value && inv.stdio == Inherit &&
            (forall k :: k in c.vars ==> k in inv.env && inv.env[k] == c.vars[k]) &&
            (forall k :: k in env && k !in c.vars ==> k in inv.env && inv.env[k] == env[k]) &&
            inv.env.Keys == env.Keys + c.vars.Keys
  {
  }

  /** A command without `dir` runs in the working directory; an absolute `dir` replaces it. */
  lemma ChildDirectory(cmd: Tasks.Command, c: ContextState, env: Vars)
    ensures cmd.Dir().None? ==> ChildDir(cmd, c, env) == Ok(c.workingDir)
    ensures cmd.Dir().Some? && Interpolation(cmd.Dir().value, c.vars, env).Ok? ==>
              var d := Interpolation(cmd.Dir().value, c.vars, env).value;
              |d| > 0 && d[0] == '/' ==> ChildDir(cmd, c, env) == Ok(d)
    ensures cmd.Dir().Some? && Interpolation(cmd.Dir().value, c.vars, env).Err? ==>
              ChildDir(cmd, c, env).Err? && ChildDir(cmd, c, env).error.InvalidOption? &&
              ChildDir(cmd, c, env).error.name == "dir"
  {
  }

  /**
   * The result is Ok exactly when the child was spawned and exited with
   * code 0; a failing exit reports its code, and a failed spawn reports none.
   */
  lemma StatusMapping(cmd: Tasks.Command, c: ContextState, env: Vars, oracle: Oracle)
    ensures var o := CommandSpec(cmd, c, env, oracle);
            o.result.Ok? <==>
              (|o.events| > 0 && o.events[|o.events| - 1].Spawned? &&
               oracle.spawn(o.events[|o.events| - 1].inv) == Exited(Some(0)))
    ensures var o := CommandSpec(cmd, c, env, oracle);
            |o.events| > 0 && o.events[|o.events| - 1].Spawned? &&
            oracle.spawn(o.events[|o.events| - 1].inv).Exited? && !o.result.Ok? ==>
              o.result == Err(CommandFailed(oracle.spawn(o.events[|o.events| - 1].inv).code))
    ensures var o := CommandSpec(cmd, c, env, oracle);
            |o.events| > 0 && o.events[|o.events| - 1].Spawned? &&
            oracle.spawn(o.events[|o.events| - 1].inv).SpawnError? ==>
              o.result == Err(CommandFailed(None))
  {
    var o := CommandSpec(cmd, c, env, oracle);
    match Interpolation(cmd.Exec(), c.vars, env)
    case Err(_) =>
    case Ok(exec) =>
      var announce := Announcement(cmd, c, env);
      match ChildDir(cmd, c, env)
      case Err(_) =>
        assert o.events == announce;
      case Ok(cwd) =>
  }
}
