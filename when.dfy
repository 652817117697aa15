/**
 * Evaluation of `when` conditions (src/runner/when.rs). Every condition is
 * read against one context and one process environment; only `command`
 * conditions have an effect, a silent probe spawn.
 */
module Conditions {
  import opened Errors
  import opened World
  import opened Interpolator
  import opened Contexts
  import opened Tasks
  import opened Commands

  /**
   * `evaluate_when`: the comparisons, `exists` and the environment tests use
   * lenient interpolation; the option tests look up the name as written.
   */
  function WhenSpec(w: When, c: ContextState, env: Vars, oracle: Oracle): Outcome<bool> {
    match w.condition
    case Always => Outcome(Ok(true), [])
    case Equal(l, r) => Outcome(Ok(Lenient(l, c.vars, env) == Lenient(r, c.vars, env)), [])
    case NotEqual(l, r) => Outcome(Ok(Lenient(l, c.vars, env) != Lenient(r, c.vars, env)), [])
    case CommandSucceeds(cmd) => CheckSpec(cmd, c, env, oracle)
    case Exists(p) => Outcome(Ok(Join(c.workingDir, Lenient(p, c.vars, env)) in oracle.files), [])
    case EnvSet(n) => Outcome(Ok(Lenient(n, c.vars, env) in env), [])
    case EnvNotSet(n) => Outcome(Ok(Lenient(n, c.vars, env) !in env), [])
    case OptionSet(n) => Outcome(Ok(n in c.vars), [])
    case OptionNotSet(n) => Outcome(Ok(n !in c.vars), [])
  }


  /**
   * Short-circuit conjunction of outcomes taken in order: the first that is
   * not true decides, and the effects of those after it never happen.
   */
  function Conjoin(outs: seq<Outcome<bool>>): Outcome<bool>
    decreases |outs|
  {
    if outs == [] then Outcome(Ok(true), [])
    else if outs[0].result != Ok(true) then outs[0]
    else
      var rest := Conjoin(outs[1..]);
      Outcome(rest.result, outs[0].events + rest.events)
  }

  /** The outcome each condition would have, position by position. */
  function Outcomes(ws: seq<When>, c: ContextState, env: Vars, oracle: Oracle): (outs: seq<Outcome<bool>>)
    ensures |outs| == |ws| && forall k :: 0 <= k < |ws| ==> outs[k] == WhenSpec(ws[k], c, env, oracle)
  {
    seq(|ws|, k requires 0 <= k < |ws| => WhenSpec(ws[k], c, env, oracle))
  }

  /**
   * `evaluate_when_list`: the conditions in order; the first one that is
   * false or fails decides, and none after it is evaluated.
   */
  function WhenListSpec(ws: seq<When>, c: ContextState, env: Vars, oracle: Oracle): Outcome<bool> {
    Conjoin(Outcomes(ws, c, env, oracle))
  }

  /** Some condition spawns a probe, which needs an interpreter. */
  predicate NeedsShell(ws: seq<When>) {
    exists i :: 0 <= i < |ws| && ws[i].condition.CommandSucceeds?
  }

  /** `evaluate_when` on a live context and operating system. */
  method EvaluateWhen(w: When, ctx: Context, os: Os) returns (r: Result<bool, ExecutionError>)
    requires w.condition.CommandSucceeds? ==> |ctx.interpreter| > 0
    modifies os
    ensures var o := WhenSpec(w, ctx.State(), old(os.env), os.oracle);
            r == o.result && os.log == old(os.log) + o.events && os.env == old(os.env)
  {
    match w.condition
    case Always =>
      r := Ok(true);
    case Equal(left, right) =>
      var l := LenientInterpolate(left, ctx.vars, os.env);
      var rt := LenientInterpolate(right, ctx.vars, os.env);
      r := Ok(l == rt);
    case NotEqual(left, right) =>
      var l := LenientInterpolate(left, ctx.vars, os.env);
      var rt := LenientInterpolate(right, ctx.vars, os.env);
      r := Ok(l != rt);
    case CommandSucceeds(cmd) =>
      r := CheckCommand(cmd, ctx, os);
    case Exists(path) =>
      var p := LenientInterpolate(path, ctx.vars, os.env);
      r := Ok(Join(ctx.workingDir, p) in os.oracle.files);
    case EnvSet(name) =>
      var n := LenientInterpolate(name, ctx.vars, os.env);
      r := Ok(n in os.env);
    case EnvNotSet(name) =>
      var n := LenientInterpolate(name, ctx.vars, os.env);
      r := Ok(n !in os.env);
    case OptionSet(name) =>
      r := Ok(name in ctx.vars);
    case OptionNotSet(name) =>
      r := Ok(name !in ctx.vars);
  }

  /** `evaluate_when_list` on a live context and operating system. */
  method EvaluateWhenList(ws: seq<When>, ctx: Context, os: Os) returns (r: Result<bool, ExecutionError>)
    requires NeedsShell(ws) ==> |ctx.interpreter| > 0
    modifies os
    ensures var o := WhenListSpec(ws, ctx.State(), old(os.env), os.oracle);
            r == o.result && os.log == old(os.log) + o.events && os.env == old(os.env)
  {
    ghost var outs := Outcomes(ws, ctx.State(), os.env, os.oracle);
    var i := 0;
    while i < |ws|
      invariant 0 <= i <= |ws|
      invariant os.env == old(os.env)
      invariant Conjoin(outs[i..]).result == Conjoin(outs).result
      invariant os.log + Conjoin(outs[i..]).events == old(os.log) + Conjoin(outs).events
    {
      ghost var log0 := os.log;
      var b := EvaluateWhen(ws[i], ctx, os);
      ConjoinStep(outs, i, log0, os.log, b);
      if b.Err? || !b.value {
        return b;
      }
      i := i + 1;
    }
    assert outs[i..] == [];
    return Ok(true);
  }

  /** What one evaluated outcome leaves of the conjunction's result and effects. */
  lemma ConjoinStep(outs: seq<Outcome<bool>>, i: nat, log0: seq<Event>, log1: seq<Event>, b: Result<bool, ExecutionError>)
    requires i < |outs|
    requires b == outs[i].result && log1 == log0 + outs[i].events
    ensures var here := Conjoin(outs[i..]);
            var next := Conjoin(outs[i + 1..]);
            if b == Ok(true) then here.result == next.result && log1 + next.events == log0 + here.events
            else b == here.result && log1 == log0 + here.events
  {
    assert outs[i..][0] == outs[i] && outs[i..][1..] == outs[i + 1..];
    if b == Ok(true) {
      assert log1 + Conjoin(outs[i + 1..]).events == log0 + (outs[i].events + Conjoin(outs[i + 1..]).events);
    }
  }

  /** `failed_condition_error`. */
  function FailedConditionError(reason: string): (e: ExecutionError)
    ensures IsFailedCondition(e) && e.reason == reason
  {
    FailedCondition(reason)
  }

  /** A conjunction is true exactly when every outcome in it is. */
  lemma {:induction false} ConjoinAll(outs: seq<Outcome<bool>>)
    ensures Conjoin(outs).result == Ok(true) <==> forall i :: 0 <= i < |outs| ==> outs[i].result == Ok(true)
    decreases |outs|
  {
    if outs != [] {
      ConjoinAll(outs[1..]);
      forall i | 0 < i < |outs| ensures outs[1..][i - 1] == outs[i] { }
    }
  }

  /** The list is true exactly when every condition in it is true (AND; the empty list is true). */
  lemma AllMustHold(ws: seq<When>, c: ContextState, env: Vars, oracle: Oracle)
    ensures WhenListSpec(ws, c, env, oracle).result == Ok(true) <==>
              forall i :: 0 <= i < |ws| ==> WhenSpec(ws[i], c, env, oracle).result == Ok(true)
  {
    ConjoinAll(Outcomes(ws, c, env, oracle));
  }

  /** The first outcome that is not true decides, and nothing after it contributes. */
  lemma {:induction false} ConjoinFirstFailure(outs: seq<Outcome<bool>>, i: nat)
    requires i < |outs|
    requires forall k :: 0 <= k < i ==> outs[k].result == Ok(true)
    requires outs[i].result != Ok(true)
    ensures Conjoin(outs).result == outs[i].result
    ensures Conjoin(outs) == Conjoin(outs[..i + 1])
    decreases i
  {
    if i > 0 {
      forall k | 0 <= k < i - 1 ensures outs[1..][k] == outs[k + 1] { }
      ConjoinFirstFailure(outs[1..], i - 1);
      assert outs[..i + 1][1..] == outs[1..][..i];
      assert outs[..i + 1][0] == outs[0];
    }
  }

  /**
   * Short-circuit: when condition i is the first that is not true, it decides
   * the list, and the conditions after it have no effect.
   */
  lemma FirstFailureDecides(ws: seq<When>, i: nat, c: ContextState, env: Vars, oracle: Oracle)
    requires i < |ws|
    requires forall k :: 0 <= k < i ==> WhenSpec(ws[k], c, env, oracle).result == Ok(true)
    requires WhenSpec(ws[i], c, env, oracle).result != Ok(true)
    ensures WhenListSpec(ws, c, env, oracle).result == WhenSpec(ws[i], c, env, oracle).result
    ensures WhenListSpec(ws, c, env, oracle) == WhenListSpec(ws[..i + 1], c, env, oracle)
  {
    var outs := Outcomes(ws, c, env, oracle);
    ConjoinFirstFailure(outs, i);
    assert Outcomes(ws[..i + 1], c, env, oracle) == outs[..i + 1];
  }

  /** Every effect of a conjunction is an effect of one of its outcomes. */
  lemma {:induction false} ConjoinEffects(outs: seq<Outcome<bool>>)
    ensures forall e :: e in Conjoin(outs).events ==> exists k :: 0 <= k < |outs| && e in outs[k].events
    decreases |outs|
  {
    if outs != [] && outs[0].result == Ok(true) {
      ConjoinEffects(outs[1..]);
      forall e | e in Conjoin(outs[1..]).events ensures exists k :: 0 <= k < |outs| && e in outs[k].events {
        var k :| 0 <= k < |outs[1..]| && e in outs[1..][k].events;
        assert outs[1..][k] == outs[k + 1];
      }
    }
  }

  /** Outcomes without effects make a conjunction without effects. */
  lemma {:induction false} ConjoinQuiet(outs: seq<Outcome<bool>>)
    requires forall k :: 0 <= k < |outs| ==> outs[k].events == []
    ensures Conjoin(outs).events == []
    decreases |outs|
  {
    if outs != [] && outs[0].result == Ok(true) {
      assert forall k :: 0 <= k < |outs[1..]| ==> outs[1..][k] == outs[k + 1];
      ConjoinQuiet(outs[1..]);
    }
  }

  /** A single condition prints nothing; only a `command` condition has an effect, a silent probe. */
  lemma ConditionEffects(w: When, c: ContextState, env: Vars, oracle: Oracle)
    ensures forall e :: e in WhenSpec(w, c, env, oracle).events ==>
              e.Spawned? && e.inv.stdio == Suppressed && e.inv.env == env
    ensures !w.condition.CommandSucceeds? ==> WhenSpec(w, c, env, oracle).events == []
  {
    if w.condition.CommandSucceeds? {
      ProbeIsSilent(w.condition.cmd, c, env, oracle);
    }
  }

  /** Evaluating conditions prints nothing; every effect is a probe with its output discarded. */
  lemma ConditionsOnlyProbe(ws: seq<When>, c: ContextState, env: Vars, oracle: Oracle)
    ensures forall e :: e in WhenListSpec(ws, c, env, oracle).events ==>
              e.Spawned? && e.inv.stdio == Suppressed && e.inv.env == env
    ensures !NeedsShell(ws) ==> WhenListSpec(ws, c, env, oracle).events == []
  {
    var outs := Outcomes(ws, c, env, oracle);
    var all := Conjoin(outs);
    assert WhenListSpec(ws, c, env, oracle) == all;
    ConjoinEffects(outs);
    forall k | 0 <= k < |ws|
      ensures forall e :: e in outs[k].events ==> e.Spawned? && e.inv.stdio == Suppressed && e.inv.env == env
      ensures !ws[k].condition.CommandSucceeds? ==> outs[k].events == []
    {
      ConditionEffects(ws[k], c, env, oracle);
    }
    forall e | e in all.events ensures e.Spawned? && e.inv.stdio == Suppressed && e.inv.env == env {
      var k :| 0 <= k < |outs| && e in outs[k].events;
    }
    if !NeedsShell(ws) {
      ConjoinQuiet(outs);
    }
  }

  /** The paired conditions are complements of each other and never fail. */
  lemma Complements(l: string, r: string, n: string, c: ContextState, env: Vars, oracle: Oracle)
    ensures WhenSpec(When(Equal(l, r)), c, env, oracle).result.Ok? &&
            WhenSpec(When(NotEqual(l, r)), c, env, oracle).result ==
              Ok(!WhenSpec(When(Equal(l, r)), c, env, oracle).result.value)
    ensures WhenSpec(When(EnvSet(n)), c, env, oracle).result.Ok? &&
            WhenSpec(When(EnvNotSet(n)), c, env, oracle).result ==
              Ok(!WhenSpec(When(EnvSet(n)), c, env, oracle).result.value)
    ensures WhenSpec(When(OptionSet(n)), c, env, oracle).result.Ok? &&
            WhenSpec(When(OptionNotSet(n)), c, env, oracle).result ==
              Ok(!WhenSpec(When(OptionSet(n)), c, env, oracle).result.value)
  {
  }

  /**
   * An option test looks the name up as written, while an environment test
   * interpolates it first: `${name}` is an option only if that literal text is
   * a variable.
   */
  lemma OptionNameIsLiteral(n: string, v: string, c: ContextState, env: Vars, oracle: Oracle)
    requires ValidName(n) && n in c.vars && Placeholder(n) !in c.vars && !HasPlaceholder(c.vars[n])
    ensures WhenSpec(When(OptionSet(Placeholder(n))), c, env, oracle).result == Ok(false)
    ensures WhenSpec(When(EnvSet(Placeholder(n))), c, env, oracle).result == Ok(c.vars[n] in env)
  {
    Precedence(n, c.vars, env);
  }

  /**
   * `exists` resolves the interpolated path against the working directory;
   * an absolute path is looked up as it is.
   */
  lemma ExistsAgainstWorkingDir(p: string, c: ContextState, env: Vars, oracle: Oracle)
    requires Unresolvable(p, c.vars, env)
    ensures |p| > 0 && p[0] == '/' ==> WhenSpec(When(Exists(p)), c, env, oracle).result == Ok(p in oracle.files)
    ensures (|p| == 0 || p[0] != '/') ==>
              exists full :: WhenSpec(When(Exists(p)), c, env, oracle).result == Ok(full in oracle.files) &&
                |c.workingDir| + |p| <= |full| && full[..|c.workingDir|] == c.workingDir && full[|full| - |p|..] == p
  {
    UnresolvableStaysLiteral(p, c.vars, env);
    var full := Join(c.workingDir, p);
    assert WhenSpec(When(Exists(p)), c, env, oracle).result == Ok(full in oracle.files);
  }

  /** A comparison sees substituted values: `${n}` equals the text n's value resolves to. */
  lemma EqualSeesValues(n: string, c: ContextState, env: Vars, oracle: Oracle)
    requires ValidName(n) && n in c.vars && !HasPlaceholder(c.vars[n])
    ensures WhenSpec(When(Equal(Placeholder(n), c.vars[n])), c, env, oracle).result == Ok(true)
    ensures WhenSpec(When(NotEqual(Placeholder(n), c.vars[n])), c, env, oracle).result == Ok(false)
  {
    Precedence(n, c.vars, env);
    NoPlaceholderUnchanged(c.vars[n], c.vars, env);
  }
}
