/**
 * Running a task (src/runner/task.rs, the execution half): the recursion
 * guard, the task stack, the run items with their conditions, commands and
 * `set-environment` entries, and the `finally` block with its rules for
 * which error is reported.
 */
module Execution {
  import opened Errors
  import opened World
  import opened Interpolator
  import opened Contexts
  import opened Tasks
  import opened Commands
  import opened Conditions

  /** Everything a task run can change: the context, the process environment and the effect log. */
  datatype Machine = Machine(ctx: ContextState, env: Vars, log: seq<Event>)

  /** A result together with the machine it leaves behind. */
  datatype Step = Step(result: Result<(), ExecutionError>, m: Machine)

  /** Only the variables, the process environment and the log may differ, and the log only grows. */
  predicate OnlyVarsAndLog(m: Machine, m': Machine) {
    m'.ctx == m.ctx.(vars := m'.ctx.vars) && m.log <= m'.log
  }

  /** The machine after the live context and operating system. */
  function Now(ctx: ContextState, os: Os): Machine
    reads os
  {
    Machine(ctx, os.env, os.log)
  }

  // ---------------------------------------------------------------------
  // Commands of one run item

  /** The commands in order, stopping at the first error (`execute_command(cmd, ctx)?`). */
  function Sequence(outs: seq<Outcome<()>>): Outcome<()>
    decreases |outs|
  {
    if outs == [] then Outcome(Ok(()), [])
    else if outs[0].result.Err? then outs[0]
    else
      var rest := Sequence(outs[1..]);
      Outcome(rest.result, outs[0].events + rest.events)
  }

  /** What each command would do, position by position; commands do not change the context or environment. */
  function CommandOutcomes(cmds: seq<Command>, c: ContextState, env: Vars, oracle: Oracle): (outs: seq<Outcome<()>>)
    ensures |outs| == |cmds| && forall k :: 0 <= k < |cmds| ==> outs[k] == CommandSpec(cmds[k], c, env, oracle)
  {
    seq(|cmds|, k requires 0 <= k < |cmds| => CommandSpec(cmds[k], c, env, oracle))
  }

  /** The command loop of `execute_run_item`. */
  method ExecuteCommands(cmds: seq<Command>, ctx: Context, os: Os) returns (r: Result<(), ExecutionError>)
    requires cmds != [] ==> |ctx.interpreter| > 0
    modifies os
    ensures var o := Sequence(CommandOutcomes(cmds, ctx.State(), old(os.env), os.oracle));
            r == o.result && os.log == old(os.log) + o.events && os.env == old(os.env)
  {
    ghost var outs := CommandOutcomes(cmds, ctx.State(), os.env, os.oracle);
    var i := 0;
    while i < |cmds|
      invariant 0 <= i <= |cmds|
      invariant os.env == old(os.env)
      invariant Sequence(outs[i..]).result == Sequence(outs).result
      invariant os.log + Sequence(outs[i..]).events == old(os.log) + Sequence(outs).events
    {
      ghost var log0 := os.log;
      var done := ExecuteCommand(cmds[i], ctx, os);
      SequenceStep(outs, i, log0, os.log, done);
      if done.Err? {
        return done;
      }
      i := i + 1;
    }
    assert outs[i..] == [];
    return Ok(());
  }

  /** What one command's outcome leaves of the sequence's result and effects. */
  lemma SequenceStep(outs: seq<Outcome<()>>, i: nat, log0: seq<Event>, log1: seq<Event>, r: Result<(), ExecutionError>)
    requires i < |outs|
    requires r == outs[i].result && log1 == log0 + outs[i].events
    ensures var here := Sequence(outs[i..]);
            var next := Sequence(outs[i + 1..]);
            if r.Ok? then here.result == next.result && log1 + next.events == log0 + here.events
            else r == here.result && log1 == log0 + here.events
  {
    assert outs[i..][0] == outs[i] && outs[i..][1..] == outs[i + 1..];
    if r.Ok? {
      assert log1 + Sequence(outs[i + 1..]).events == log0 + (outs[i].events + Sequence(outs[i + 1..]).events);
    }
  }

  /** The sequence fails exactly when some command fails, and then with the first failure. */
  lemma {:induction false} SequenceFirstError(outs: seq<Outcome<()>>)
    ensures Sequence(outs).result.Ok? <==> forall k :: 0 <= k < |outs| ==> outs[k].result.Ok?
    ensures Sequence(outs).result.Err? ==>
              exists i :: 0 <= i < |outs| && Sequence(outs).result == outs[i].result &&
                forall k :: 0 <= k < i ==> outs[k].result.Ok?
    decreases |outs|
  {
    if outs != [] {
      SequenceFirstError(outs[1..]);
      assert forall k :: 0 < k < |outs| ==> outs[1..][k - 1] == outs[k];
      if outs[0].result.Ok? && Sequence(outs).result.Err? {
        var i :| 0 <= i < |outs[1..]| && Sequence(outs[1..]).result == outs[1..][i].result &&
                 forall k :: 0 <= k < i ==> outs[1..][k].result.Ok?;
        assert Sequence(outs).result == outs[i + 1].result;
      }
    }
  }

  // ---------------------------------------------------------------------
  // set-environment

  /**
   * One entry: a value is interpolated leniently and written to both the
   * process environment and the context; a null removes the key from both.
   */
  function ApplyEntry(e: EnvEntry, m: Machine): (m': Machine)
    ensures OnlyVarsAndLog(m, m') && m'.log == m.log
  {
    match e.value
    case Some(v) =>
      var x := Lenient(v, m.ctx.vars, m.env);
      Machine(m.ctx.SetVar(e.key, x), m.env[e.key := x], m.log)
    case None =>
      Machine(m.ctx.(vars := m.ctx.vars - {e.key}), m.env - {e.key}, m.log)
  }

  /** The entries in order; each sees the writes of those before it. */
  function ApplyEntries(es: seq<EnvEntry>, m: Machine): (m': Machine)
    ensures OnlyVarsAndLog(m, m') && m'.log == m.log
    decreases |es|
  {
    if es == [] then m else ApplyEntries(es[1..], ApplyEntry(es[0], m))
  }

  /** The `set_environment` loop of `execute_run_item`. */
  method ApplySetEnvironment(es: seq<EnvEntry>, ctx: Context, os: Os)
    modifies ctx, os
    ensures Now(ctx.State(), os) == ApplyEntries(es, Machine(old(ctx.State()), old(os.env), old(os.log)))
  {
    if es == [] {
      return;
    }
    ghost var goal := ApplyEntries(es, Now(ctx.State(), os));
    var i := 0;
    while i < |es|
      invariant 0 <= i <= |es|
      invariant ApplyEntries(es[i..], Now(ctx.State(), os)) == goal
    {
      assert es[i..][0] == es[i] && es[i..][1..] == es[i + 1..];
      var e := es[i];
      match e.value {
        case Some(v) =>
          var x := LenientInterpolate(v, ctx.vars, os.env);
          os.SetVar(e.key, x);
          ctx.SetVar(e.key, x);
        case None =>
          os.RemoveVar(e.key);
          ctx.RemoveVar(e.key);
      }
      i := i + 1;
    }
    assert es[i..] == [];
  }

  /** The keys an entry list names. */
  function EntryKeys(es: seq<EnvEntry>): set<string>
    decreases |es|
  {
    if es == [] then {} else {es[0].key} + EntryKeys(es[1..])
  }

  /** The context and the process environment agree on a key: both lack it, or both hold the same value. */
  predicate Agree(m: Machine, k: string) {
    (k in m.ctx.vars <==> k in m.env) && (k in m.ctx.vars ==> m.ctx.vars[k] == m.env[k])
  }

  /** A key keeps its variable and its environment entry. */
  predicate Kept(m: Machine, m': Machine, k: string) {
    (k in m'.ctx.vars <==> k in m.ctx.vars) && (k in m.ctx.vars ==> m'.ctx.vars[k] == m.ctx.vars[k]) &&
    (k in m'.env <==> k in m.env) && (k in m.env ==> m'.env[k] == m.env[k])
  }

  /**
   * After `set-environment`, the context and the process see the same value
   * for every key it names; every other key is as before.
   */
  lemma {:induction false} EntriesWriteBoth(es: seq<EnvEntry>, m: Machine)
    ensures forall k :: k in EntryKeys(es) ==> Agree(ApplyEntries(es, m), k)
    ensures forall k :: k !in EntryKeys(es) ==> Kept(m, ApplyEntries(es, m), k)
    decreases |es|
  {
    if es != [] {
      var m1 := ApplyEntry(es[0], m);
      EntriesWriteBoth(es[1..], m1);
      assert Agree(m1, es[0].key);
      assert forall k :: k != es[0].key ==> Kept(m, m1, k);
    }
  }

  // ---------------------------------------------------------------------
  // Run items

  /** A run item that may spawn, which needs an interpreter. */
  predicate RunNeedsShell(run: Run) {
    NeedsShell(run.when) || run.commands != []
  }

  predicate RunsNeedShell(runs: seq<Run>) {
    exists i :: 0 <= i < |runs| && RunNeedsShell(runs[i])
  }

  predicate TaskNeedsShell(t: Task) {
    RunsNeedShell(t.run) || RunsNeedShell(t.finally)
  }

  /**
   * `execute_run_item`: a non-empty condition list that fails or is false
   * stops the item (false is not an error); then the commands, each stopping
   * the item on error; then the subtasks, which do nothing; then
   * `set-environment`.
   */
  function RunItemSpec(run: Run, m: Machine, oracle: Oracle): (s: Step)
    ensures OnlyVarsAndLog(m, s.m)
  {
    var w := if run.when == [] then Outcome(Ok(true), []) else WhenListSpec(run.when, m.ctx, m.env, oracle);
    var m1 := m.(log := m.log + w.events);
    if w.result.Err? then Step(Err(w.result.error), m1)
    else if !w.result.value then Step(Ok(()), m1)
    else
      var cs := Sequence(CommandOutcomes(run.commands, m.ctx, m.env, oracle));
      var m2 := m1.(log := m1.log + cs.events);
      if cs.result.Err? then Step(cs.result, m2)
      else Step(Ok(()), ApplyEntries(run.setEnvironment, m2))
  }

  /** `execute_subtask`: subtasks are not run yet; it succeeds without effect. */
  method ExecuteSubtask(st: SubTask, ctx: Context) returns (r: Result<(), ExecutionError>)
    ensures r == Ok(())
  {
    r := Ok(());
  }

  /** `execute_run_item` on a live context and operating system. */
  method ExecuteRunItem(run: Run, ctx: Context, os: Os) returns (r: Result<(), ExecutionError>)
    requires RunNeedsShell(run) ==> |ctx.interpreter| > 0
    modifies ctx, os
    ensures Step(r, Now(ctx.State(), os)) == RunItemSpec(run, Machine(old(ctx.State()), old(os.env), old(os.log)), os.oracle)
  {
    ghost var m := Now(ctx.State(), os);
    ghost var w := if run.when == [] then Outcome(Ok(true), []) else WhenListSpec(run.when, m.ctx, m.env, os.oracle);
    if run.when != [] {
      var should := EvaluateWhenList(run.when, ctx, os);
      if should.Err? {
        return Err(should.error);
      }
      if !should.value {
        return Ok(());
      }
    } else {
      assert os.log == m.log + w.events;
    }
    ghost var cs := Sequence(CommandOutcomes(run.commands, m.ctx, m.env, os.oracle));
    var done := ExecuteCommands(run.commands, ctx, os);
    if done.Err? {
      return done;
    }
    assert Now(ctx.State(), os) == Machine(m.ctx, m.env, m.log + w.events + cs.events);
    var subtasks := ExecuteSubtasks(run.subtasks, ctx);
    ApplySetEnvironment(run.setEnvironment, ctx, os);
    return Ok(());
  }

  /**
   * The subtask loop of `execute_run_item`. Each `execute_subtask` call is the
   * source's placeholder, which skips the subtask and succeeds, so the loop
   * only walks the list and the `?` on each call never returns early.
   */
  method ExecuteSubtasks(sts: seq<SubTask>, ctx: Context) returns (r: Result<(), ExecutionError>)
    ensures r.Ok?
  {
    var j := 0;
    r := Ok(());
    while j < |sts|
      invariant 0 <= j <= |sts| && r.Ok?
    {
      r := ExecuteSubtask(sts[j], ctx);
      j := j + 1;
    }
  }

  /** A list of run items in order, stopping at the first error. */
  function RunsSpec(runs: seq<Run>, m: Machine, oracle: Oracle): (s: Step)
    ensures OnlyVarsAndLog(m, s.m)
    decreases |runs|
  {
    if runs == [] then Step(Ok(()), m)
    else
      var first := RunItemSpec(runs[0], m, oracle);
      if first.result.Err? then first else RunsSpec(runs[1..], first.m, oracle)
  }

  /** `execute_run_items` and `execute_finally_items`, which share this loop. */
  method ExecuteRunItems(runs: seq<Run>, ctx: Context, os: Os) returns (r: Result<(), ExecutionError>)
    requires RunsNeedShell(runs) ==> |ctx.interpreter| > 0
    modifies ctx, os
    ensures Step(r, Now(ctx.State(), os)) == RunsSpec(runs, Machine(old(ctx.State()), old(os.env), old(os.log)), os.oracle)
  {
    ghost var goal := RunsSpec(runs, Now(ctx.State(), os), os.oracle);
    var i := 0;
    while i < |runs|
      invariant 0 <= i <= |runs|
      invariant ctx.interpreter == old(ctx.interpreter)
      invariant RunsSpec(runs[i..], Now(ctx.State(), os), os.oracle) == goal
    {
      assert runs[i..][0] == runs[i] && runs[i..][1..] == runs[i + 1..];
      assert RunNeedsShell(runs[i]) ==> RunsNeedShell(runs);
      var done := ExecuteRunItem(runs[i], ctx, os);
      if done.Err? {
        return done;
      }
      i := i + 1;
    }
    assert runs[i..] == [];
    return Ok(());
  }

  /** Once a list of run items fails, items appended after it never run. */
  lemma {:induction false} ErrorStopsRuns(runs: seq<Run>, more: seq<Run>, m: Machine, oracle: Oracle)
    requires RunsSpec(runs, m, oracle).result.Err?
    ensures RunsSpec(runs + more, m, oracle) == RunsSpec(runs, m, oracle)
    decreases |runs|
  {
    assert runs != [];
    assert (runs + more)[0] == runs[0] && (runs + more)[1..] == runs[1..] + more;
    var first := RunItemSpec(runs[0], m, oracle);
    if first.result.Ok? {
      ErrorStopsRuns(runs[1..], more, first.m, oracle);
    }
  }

  /** A successful list hands its machine to the items after it. */
  lemma {:induction false} RunsCompose(runs: seq<Run>, more: seq<Run>, m: Machine, oracle: Oracle)
    requires RunsSpec(runs, m, oracle).result.Ok?
    ensures RunsSpec(runs + more, m, oracle) == RunsSpec(more, RunsSpec(runs, m, oracle).m, oracle)
    decreases |runs|
  {
    if runs == [] {
      assert runs + more == more;
    } else {
      assert (runs + more)[0] == runs[0] && (runs + more)[1..] == runs[1..] + more;
      RunsCompose(runs[1..], more, RunItemSpec(runs[0], m, oracle).m, oracle);
    }
  }

  /**
   * A run item whose conditions are false is skipped: it succeeds, the
   * context and the process environment are untouched, and its only effects
   * are the silent condition probes.
   */
  lemma SkippedItemChangesNothing(run: Run, m: Machine, oracle: Oracle)
    requires run.when != [] && WhenListSpec(run.when, m.ctx, m.env, oracle).result == Ok(false)
    ensures var s := RunItemSpec(run, m, oracle);
            s.result == Ok(()) && s.m.ctx == m.ctx && s.m.env == m.env &&
            s.m.log == m.log + WhenListSpec(run.when, m.ctx, m.env, oracle).events &&
            forall e :: e in WhenListSpec(run.when, m.ctx, m.env, oracle).events ==> e.Spawned? && e.inv.stdio == Suppressed
  {
    ConditionsOnlyProbe(run.when, m.ctx, m.env, oracle);
  }

  /**
   * A failing condition or command is the item's error, and then
   * `set-environment` is not applied: the context and the environment are
   * untouched.
   */
  lemma ItemErrorChangesNoVariables(run: Run, m: Machine, oracle: Oracle)
    requires RunItemSpec(run, m, oracle).result.Err?
    ensures RunItemSpec(run, m, oracle).m.ctx == m.ctx && RunItemSpec(run, m, oracle).m.env == m.env
    ensures run.when != [] && WhenListSpec(run.when, m.ctx, m.env, oracle).result.Err? ==>
              RunItemSpec(run, m, oracle).result == Err(WhenListSpec(run.when, m.ctx, m.env, oracle).result.error)
    ensures (run.when == [] || WhenListSpec(run.when, m.ctx, m.env, oracle).result == Ok(true)) ==>
              RunItemSpec(run, m, oracle).result == Sequence(CommandOutcomes(run.commands, m.ctx, m.env, oracle)).result
  {
  }

  // ---------------------------------------------------------------------
  // Task::execute

  /** The machine once the task is pushed, announced and its variables merged in. */
  function Entered(task: Task, m: Machine): Machine {
    var c := m.ctx.PushTask(task.name);
    Machine(c.(vars := c.vars + task.vars), m.env, m.log + TaskStartLines(c, task.name))
  }

  /** Pop the task, then print the completion line if the result is a success. */
  function Finish(result: Result<(), ExecutionError>, m: Machine, name: string): Step {
    var c := m.ctx.PopTask().0;
    Step(result, Machine(c, m.env, m.log + (if result.Ok? then TaskCompleteLines(c, name) else [])))
  }

  /**
   * How the two parts of a task combine: `main` is what the run items did,
   * `fin` what the `finally` items did after them (ignored when there are
   * none). A `finally` error is reported only when the run items succeeded,
   * and then without the completion line; in every case the task is popped.
   */
  function Conclude(name: string, hasFinally: bool, main: Step, fin: Step): Step {
    if !hasFinally then Finish(main.result, main.m, name)
    else if fin.result.Err? && main.result.Ok? then Step(fin.result, fin.m.(ctx := fin.m.ctx.PopTask().0))
    else Finish(main.result, fin.m, name)
  }

  /** The `finally` items, announced by a debug line, from where the run items left off. */
  function FinallyStep(task: Task, after: Machine, oracle: Oracle): Step {
    RunsSpec(task.finally, after.(log := after.log + after.ctx.DebugLines("Running finally block...")), oracle)
  }

  /** Everything after the task is entered: the run items, then the `finally` items if there are any. */
  function RunBoth(task: Task, e: Machine, oracle: Oracle): Step {
    var main := RunsSpec(task.run, e, oracle);
    Conclude(task.name, task.finally != [], main, FinallyStep(task, main.m, oracle))
  }

  /** `Task::execute`: a task already on the stack fails with exit code 1 and changes nothing. */
  function ExecuteSpec(task: Task, m: Machine, oracle: Oracle): Step {
    if task.name in m.ctx.taskStack then Step(Err(CommandFailed(Some(1))), m)
    else RunBoth(task, Entered(task, m), oracle)
  }

  /** Merging the task's variables: `set_var` for each, in any order. */
  method MergeVars(ctx: Context, vs: map<string, string>)
    modifies ctx
    ensures ctx.State() == old(ctx.State()).(vars := old(ctx.vars) + vs)
  {
    var todo := vs.Keys;
    while todo != {}
      invariant todo <= vs.Keys
      invariant ctx.vars == old(ctx.vars) + map k | k in vs.Keys - todo :: vs[k]
      invariant ctx.State() == old(ctx.State()).(vars := ctx.vars)
      decreases |todo|
    {
      var k :| k in todo;
      ctx.SetVar(k, vs[k]);
      todo := todo - {k};
    }
    assert vs.Keys - todo == vs.Keys;
    assert (map k | k in vs.Keys :: vs[k]) == vs;
  }

  /** `Task::execute` on a live context and operating system. */
  method Execute(task: Task, ctx: Context, os: Os) returns (r: Result<(), ExecutionError>)
    requires TaskNeedsShell(task) ==> |ctx.interpreter| > 0
    modifies ctx, os
    ensures Step(r, Now(ctx.State(), os)) == ExecuteSpec(task, Machine(old(ctx.State()), old(os.env), old(os.log)), os.oracle)
  {
    if ctx.State().IsTaskInStack(task.name) {
      return Err(CommandFailed(Some(1)));
    }
    ghost var m0 := Now(ctx.State(), os);
    ctx.PushTask(task.name);
    ctx.PrintTaskStart(os, task.name);
    MergeVars(ctx, task.vars);
    assert Now(ctx.State(), os) == Entered(task, m0);
    r := RunEntered(task, ctx, os);
  }

  /** The part of `Task::execute` after the task is entered. */
  method RunEntered(task: Task, ctx: Context, os: Os) returns (r: Result<(), ExecutionError>)
    requires TaskNeedsShell(task) ==> |ctx.interpreter| > 0
    modifies ctx, os
    ensures Step(r, Now(ctx.State(), os)) == RunBoth(task, Machine(old(ctx.State()), old(os.env), old(os.log)), os.oracle)
  {
    var result := ExecuteRunItems(task.run, ctx, os);
    if task.finally != [] {
      ctx.PrintDebug(os, "Running finally block...");
      var fin := ExecuteRunItems(task.finally, ctx, os);
      if fin.Err? && result.Ok? {
        var popped := ctx.PopTask();
        return fin;
      }
    }
    var popped := ctx.PopTask();
    if result.Ok? {
      ctx.PrintTaskComplete(os, task.name);
    }
    return result;
  }

  /**
   * Which error is reported: an error of the run items wins, even when the
   * `finally` items fail too; a `finally` error is reported only after the run
   * items succeeded; the task succeeds exactly when both parts do.
   */
  lemma ErrorPriority(name: string, hasFinally: bool, main: Step, fin: Step)
    ensures main.result.Err? ==> Conclude(name, hasFinally, main, fin).result == main.result
    ensures main.result.Ok? && hasFinally && fin.result.Err? ==> Conclude(name, hasFinally, main, fin).result == fin.result
    ensures Conclude(name, hasFinally, main, fin).result.Ok? <==> main.result.Ok? && (!hasFinally || fin.result.Ok?)
  {
  }

  /** With verbose output, the completion line is one `[DEBUG]` line naming the task. */
  lemma CompletionLine(c: ContextState, name: string)
    ensures c.verbosity == Verbose ==> TaskCompleteLines(c, name) == [Printed("[DEBUG] Task completed: " + name)]
  {
    assert "[DEBUG] " + ("Task completed: " + name) == "[DEBUG] Task completed: " + name;
  }

  /**
   * The task is popped from where the last part left the machine; the
   * completion line is the last effect of a success at Verbose level, and a
   * failure adds nothing after its items.
   */
  lemma ConcludeEffects(name: string, hasFinally: bool, main: Step, fin: Step)
    ensures var last := if hasFinally then fin.m else main.m;
            var c := Conclude(name, hasFinally, main, fin);
            c.m.ctx == last.ctx.PopTask().0 && c.m.env == last.env && last.log <= c.m.log
    ensures var last := if hasFinally then fin.m else main.m;
            var c := Conclude(name, hasFinally, main, fin);
            c.result.Ok? && last.ctx.verbosity == Verbose ==>
              |c.m.log| > 0 && c.m.log[|c.m.log| - 1] == Printed("[DEBUG] Task completed: " + name)
    ensures var last := if hasFinally then fin.m else main.m;
            var c := Conclude(name, hasFinally, main, fin);
            c.result.Err? ==> c.m.log == last.log
  {
    var last := if hasFinally then fin.m else main.m;
    var c := Conclude(name, hasFinally, main, fin);
    var p := last.ctx.PopTask().0;
    if hasFinally && fin.result.Err? && main.result.Ok? {
      assert c == Step(fin.result, fin.m.(ctx := p));
    } else {
      var lines := if main.result.Ok? then TaskCompleteLines(p, name) else [];
      assert c == Step(main.result, Machine(p, last.env, last.log + lines));
      CompletionLine(p, name);
    }
  }

  /**
   * Which error a task reports: an error of the run items wins; when they
   * succeeded, the task fails exactly when its `finally` items fail, with
   * their error; without `finally` items the task fails exactly when its run
   * items do.
   */
  lemma TaskErrorPriority(task: Task, m: Machine, oracle: Oracle)
    requires task.name !in m.ctx.taskStack
    ensures var main := RunsSpec(task.run, Entered(task, m), oracle);
            var r := ExecuteSpec(task, m, oracle).result;
            main.result.Err? ==> r == main.result
    ensures var main := RunsSpec(task.run, Entered(task, m), oracle);
            var fin := FinallyStep(task, main.m, oracle);
            var r := ExecuteSpec(task, m, oracle).result;
            main.result.Ok? && task.finally != [] ==> (r.Ok? <==> fin.result.Ok?) && (fin.result.Err? ==> r == fin.result)
    ensures var main := RunsSpec(task.run, Entered(task, m), oracle);
            task.finally == [] ==> (ExecuteSpec(task, m, oracle).result.Ok? <==> main.result.Ok?)
  {
    var main := RunsSpec(task.run, Entered(task, m), oracle);
    ErrorPriority(task.name, task.finally != [], main, FinallyStep(task, main.m, oracle));
  }

  /**
   * The recursion guard, and the stack discipline: a task already on the
   * stack fails with exit code 1 and changes nothing; in every case the stack,
   * the interpreter, the working directory and the verbosity are as before,
   * and the log only grows, starting with the start line.
   */
  lemma StackRestored(task: Task, m: Machine, oracle: Oracle)
    ensures task.name in m.ctx.taskStack ==> ExecuteSpec(task, m, oracle) == Step(Err(CommandFailed(Some(1))), m)
    ensures ExecuteSpec(task, m, oracle).m.ctx == m.ctx.(vars := ExecuteSpec(task, m, oracle).m.ctx.vars)
    ensures m.log <= ExecuteSpec(task, m, oracle).m.log
    ensures task.name !in m.ctx.taskStack ==> m.log + TaskStartLines(m.ctx, task.name) <= ExecuteSpec(task, m, oracle).m.log
  {
    if task.name !in m.ctx.taskStack {
      var e := Entered(task, m);
      var s := m.ctx.taskStack;
      assert (s + [task.name])[..|s|] == s;
      assert TaskStartLines(e.ctx, task.name) == TaskStartLines(m.ctx, task.name);
      assert m.log + TaskStartLines(m.ctx, task.name) <= e.log;
      var main := RunsSpec(task.run, e, oracle);
      var fin := FinallyStep(task, main.m, oracle);
      assert main.m.log <= fin.m.log;
      ConcludeEffects(task.name, task.finally != [], main, fin);
    }
  }

  /**
   * The `finally` items run whatever the run items did: their effects are
   * part of the task's effects, after those of the run items.
   */
  lemma FinallyAlwaysRuns(task: Task, m: Machine, oracle: Oracle)
    requires task.name !in m.ctx.taskStack && task.finally != []
    ensures var main := RunsSpec(task.run, Entered(task, m), oracle);
            main.m.log <= FinallyStep(task, main.m, oracle).m.log <= ExecuteSpec(task, m, oracle).m.log
  {
    var main := RunsSpec(task.run, Entered(task, m), oracle);
    var fin := FinallyStep(task, main.m, oracle);
    var start := main.m.(log := main.m.log + main.m.ctx.DebugLines("Running finally block..."));
    assert main.m.log <= start.log;
    ConcludeEffects(task.name, true, main, fin);
  }

  /** The run items see the task's variables over the context's own. */
  lemma TaskVarsOverride(task: Task, m: Machine, k: string)
    ensures k in task.vars ==> Entered(task, m).ctx.GetVar(k) == Some(task.vars[k])
    ensures k !in task.vars ==> Entered(task, m).ctx.GetVar(k) == m.ctx.GetVar(k)
    ensures Entered(task, m).ctx.CurrentTask() == Some(task.name)
  {
  }
}
