/**
 * Static validation of a configuration (src/config/schema.rs): per-task
 * checks, the option-type whitelist, and depth-first detection of cycles
 * among subtask references.
 */
module Schema {
  import opened Errors
  import opened ConfigTypes
  import Tasks

  // ---------------------------------------------------------------------
  // Per-task checks

  const OptionTypes: set<string> := {"string", "bool", "boolean", "int", "integer", "float"}

  function InvalidTypeMessage(optionType: string): string {
    "Invalid option type: " + optionType + ". Must be one of: string, bool, int, float"
  }

  /** `validate_option_type`. */
  function ValidateOptionType(optionType: string): (r: Result<(), ConfigError>)
    ensures r.Ok? <==> optionType in OptionTypes
    ensures r.Err? ==> r.error == Invalid(InvalidTypeMessage(optionType))
  {
    match optionType
    case "string" => Ok(())
    case "bool" => Ok(())
    case "boolean" => Ok(())
    case "int" => Ok(())
    case "integer" => Ok(())
    case "float" => Ok(())
    case _ => Err(Invalid(InvalidTypeMessage(optionType)))
  }

  /**
   * The whitelist and the runtime type mapping agree: an accepted type maps
   * to String exactly when it is "string", and the default type is accepted.
   */
  lemma AcceptedTypesAgreeWithRuntime(optionType: string)
    ensures ValidateOptionType(DefaultOptionType()).Ok?
    ensures ValidateOptionType(optionType).Ok? ==>
              (Tasks.OptionTypeOf(optionType) == Tasks.String <==> optionType == "string")
    ensures ValidateOptionType(optionType).Err? ==> Tasks.OptionTypeOf(optionType) == Tasks.String
  {
  }

  /** Everything `validate_task` checks. */
  predicate ValidTask(t: Task) {
    Tasks.ValidTask(t) && forall k :: k in t.options ==> t.options[k].optionType in OptionTypes
  }

  /**
   * `validate_task`: source without target, target without source, an
   * argument that is also an option, then the option types; maps are
   * visited in an unspecified order.
   */
  method ValidateTask(name: string, t: Task) returns (r: Result<(), ConfigError>)
    ensures r.Ok? <==> ValidTask(t)
    ensures r == Err(SourceWithoutTarget) <==> |t.source| > 0 && |t.target| == 0
    ensures r == Err(TargetWithoutSource) <==> |t.target| > 0 && |t.source| == 0
    ensures r.Err? && r.error.DuplicateNames? ==>
              (|t.source| == 0 <==> |t.target| == 0) && r.error.name in t.args && r.error.name in t.options
    ensures r.Err? && r.error.Invalid? ==>
              Tasks.ValidTask(t) &&
              exists k :: k in t.options && r.error == Invalid(InvalidTypeMessage(t.options[k].optionType)) &&
                          t.options[k].optionType !in OptionTypes
    ensures r.Err? ==> r.error.SourceWithoutTarget? || r.error.TargetWithoutSource? || r.error.DuplicateNames? || r.error.Invalid?
  {
    if |t.source| > 0 && |t.target| == 0 {
      return Err(SourceWithoutTarget);
    }
    if |t.target| > 0 && |t.source| == 0 {
      return Err(TargetWithoutSource);
    }
    var args := t.args.Keys;
    while args != {}
      invariant args <= t.args.Keys
      invariant forall n :: n in t.args.Keys - args ==> n !in t.options
      decreases |args|
    {
      var argName :| argName in args;
      if argName in t.options {
        return Err(DuplicateNames(argName));
      }
      args := args - {argName};
    }
    var opts := t.options.Keys;
    while opts != {}
      invariant opts <= t.options.Keys
      invariant forall k :: k in t.options.Keys - opts ==> t.options[k].optionType in OptionTypes
      decreases |opts|
    {
      var optName :| optName in opts;
      var v := ValidateOptionType(t.options[optName].optionType);
      if v.Err? {
        return Err(v.error);
      }
      opts := opts - {optName};
    }
    return Ok(());
  }

  /** The runtime builder accepts what schema validation accepts. */
  lemma SchemaValidImpliesBuildable(t: Task)
    requires ValidTask(t)
    ensures Tasks.ValidTask(t)
  {
  }

  // ---------------------------------------------------------------------
  // The subtask graph

  /** The names a run item refers to; a simple command refers to none. */
  function SubtaskNames(r: Run): (names: seq<string>)
    ensures r.SimpleCommand? ==> names == []
    ensures r.Complex? ==> (|names| == |r.item.task| &&
              forall i :: 0 <= i < |r.item.task| ==> names[i] == SubTaskName(r.item.task[i]))
  {
    match r
    case SimpleCommand(_) => []
    case Complex(item) => seq(|item.task|, i requires 0 <= i < |item.task| => SubTaskName(item.task[i]))
  }

  /** The names a list of run items refers to, in order. */
  function RefsOf(runs: seq<Run>): seq<string> {
    if runs == [] then [] else SubtaskNames(runs[0]) + RefsOf(runs[1..])
  }

  lemma {:induction false} RefsOfSnoc(runs: seq<Run>, i: nat)
    requires i < |runs|
    ensures RefsOf(runs[..i + 1]) == RefsOf(runs[..i]) + SubtaskNames(runs[i])
    decreases i
  {
    if i == 0 {
      assert runs[..1] == [runs[0]];
      assert RefsOf([runs[0]]) == SubtaskNames(runs[0]) + RefsOf([]);
    } else {
      assert runs[..i + 1][1..] == runs[1..][..i];
      assert runs[..i][1..] == runs[1..][..i - 1];
      RefsOfSnoc(runs[1..], i - 1);
    }
  }

  lemma {:induction false} RefsOfContains(runs: seq<Run>, i: nat, n: string)
    requires i < |runs| && n in SubtaskNames(runs[i])
    ensures n in RefsOf(runs)
    decreases i
  {
    if i > 0 {
      assert runs[1..][i - 1] == runs[i];
      RefsOfContains(runs[1..], i - 1, n);
    }
  }

  /** The tasks a task refers to: from its run items, then its finally items. */
  function Children(t: Task): seq<string> {
    RefsOf(t.run) + RefsOf(t.finally)
  }

  ghost predicate Edge(tasks: map<string, Task>, a: string, b: string) {
    a in tasks && b in Children(tasks[a])
  }

  /** Consecutive names are linked by a reference. */
  ghost predicate IsWalk(tasks: map<string, Task>, p: seq<string>) {
    forall i :: 0 <= i < |p| - 1 ==> Edge(tasks, p[i], p[i + 1])
  }

  ghost predicate IsCycleFrom(tasks: map<string, Task>, p: seq<string>, v: string) {
    |p| >= 2 && p[0] == v && p[|p| - 1] == v && IsWalk(tasks, p)
  }

  ghost predicate OnCycle(tasks: map<string, Task>, v: string) {
    exists p :: IsCycleFrom(tasks, p, v)
  }

  /**
   * A walk whose last name already occurred earlier on it; the names before
   * the last are distinct, as on the search stack.
   */
  ghost predicate ClosesCycle(tasks: map<string, Task>, p: seq<string>) {
    |p| >= 2 && IsWalk(tasks, p) && p[|p| - 1] in p[..|p| - 1] && Distinct(p[..|p| - 1])
  }

  /** Every reference resolves and no task lies on a cycle. */
  ghost predicate WellFormedGraph(tasks: map<string, Task>) {
    forall t :: t in tasks ==> (forall c :: c in Children(tasks[t]) ==> c in tasks) && !OnCycle(tasks, t)
  }

  /** Fully explored names: defined, their references explored too, and on no cycle. */
  ghost predicate Explored(tasks: map<string, Task>, visited: set<string>) {
    forall v :: v in visited ==>
      v in tasks && (forall c :: c in Children(tasks[v]) ==> c in visited) && !OnCycle(tasks, v)
  }

  predicate Distinct(s: seq<string>) {
    forall i, j :: 0 <= i < j < |s| ==> s[i] != s[j]
  }

  lemma {:induction false} DistinctBound(s: seq<string>, names: set<string>)
    requires Distinct(s) && forall x :: x in s ==> x in names
    ensures |s| <= |names|
    decreases |s|
  {
    if s != [] {
      var x := s[|s| - 1];
      var init := s[..|s| - 1];
      forall y | y in init ensures y in names - {x} {
        var k :| 0 <= k < |init| && init[k] == y;
        assert s[k] == y;
      }
      DistinctBound(init, names - {x});
      assert |names - {x}| == |names| - 1;
    }
  }

  lemma WalkExtend(tasks: map<string, Task>, p: seq<string>, n: string)
    requires |p| > 0 && IsWalk(tasks, p) && Edge(tasks, p[|p| - 1], n)
    ensures IsWalk(tasks, p + [n])
  {
    var q := p + [n];
    forall i | 0 <= i < |q| - 1 ensures Edge(tasks, q[i], q[i + 1]) {
      if i < |p| - 1 {
        assert q[i] == p[i] && q[i + 1] == p[i + 1];
      }
    }
  }

  /** Rotating a cycle by one step gives a cycle through the second name. */
  lemma RotatedCycle(tasks: map<string, Task>, p: seq<string>)
    requires |p| >= 2 && IsWalk(tasks, p) && p[0] == p[|p| - 1]
    ensures IsCycleFrom(tasks, p[1..] + [p[1]], p[1])
  {
    var q := p[1..] + [p[1]];
    forall i | 0 <= i < |q| - 1 ensures Edge(tasks, q[i], q[i + 1]) {
      if i < |q| - 2 {
        assert q[i] == p[i + 1] && q[i + 1] == p[i + 2];
      } else {
        assert q[i] == p[|p| - 1] && q[i + 1] == p[1];
        assert Edge(tasks, p[0], p[1]);
      }
    }
  }

  lemma NoCycleThrough(tasks: map<string, Task>, visited: set<string>, n: string, p: seq<string>)
    requires Explored(tasks, visited) && n in tasks
    requires forall c :: c in Children(tasks[n]) ==> c in visited
    ensures !IsCycleFrom(tasks, p, n)
  {
    if |p| >= 2 && IsWalk(tasks, p) && p[0] == p[|p| - 1] {
      RotatedCycle(tasks, p);
      assert Edge(tasks, p[0], p[1]);
    }
  }

  /** A name whose references are all explored lies on no cycle. */
  lemma NotOnCycle(tasks: map<string, Task>, visited: set<string>, n: string)
    requires Explored(tasks, visited) && n in tasks
    requires forall c :: c in Children(tasks[n]) ==> c in visited
    ensures !OnCycle(tasks, n)
  {
    forall p ensures !IsCycleFrom(tasks, p, n) {
      NoCycleThrough(tasks, visited, n, p);
    }
  }

  /** Pushing a defined name that is not on the stack keeps the stack a short, distinct walk of defined names. */
  lemma PushFresh(tasks: map<string, Task>, stack: seq<string>, name: string)
    requires Distinct(stack) && IsWalk(tasks, stack + [name])
    requires forall s :: s in stack ==> s in tasks
    requires name in tasks && name !in stack
    ensures Distinct(stack + [name]) && forall s :: s in stack + [name] ==> s in tasks
    ensures |stack + [name]| <= |tasks.Keys|
    ensures forall c :: c in RefsOf(tasks[name].run) ==> c in Children(tasks[(stack + [name])[|stack|]])
    ensures forall c :: c in RefsOf(tasks[name].finally) ==> c in Children(tasks[(stack + [name])[|stack|]])
  {
    var p := stack + [name];
    forall i, j | 0 <= i < j < |p| ensures p[i] != p[j] {
      if j == |stack| {
        assert p[i] == stack[i];
      } else {
        assert p[i] == stack[i] && p[j] == stack[j];
      }
    }
    DistinctBound(p, tasks.Keys);
  }

  /** A defined name whose references are all explored may be marked explored. */
  lemma FinishExplored(tasks: map<string, Task>, visited: set<string>, name: string)
    requires Explored(tasks, visited) && name in tasks
    requires forall c :: c in RefsOf(tasks[name].run) ==> c in visited
    requires forall c :: c in RefsOf(tasks[name].finally) ==> c in visited
    ensures Explored(tasks, visited + {name})
  {
    NotOnCycle(tasks, visited, name);
  }

  /** The path a circular-dependency error reports contains a genuine cycle. */
  lemma ClosedWalkHasCycle(tasks: map<string, Task>, p: seq<string>)
    requires ClosesCycle(tasks, p)
    ensures exists v :: v in tasks && OnCycle(tasks, v)
  {
    var i :| 0 <= i < |p| - 1 && p[..|p| - 1][i] == p[|p| - 1];
    var q := p[i..];
    forall k | 0 <= k < |q| - 1 ensures Edge(tasks, q[k], q[k + 1]) {
      assert q[k] == p[i + k] && q[k + 1] == p[i + k + 1];
    }
    assert IsCycleFrom(tasks, q, p[i]);
    assert Edge(tasks, p[i], p[i + 1]);
  }

  /** `stack.join(" -> ")`. */
  function JoinArrow(parts: seq<string>): string {
    if |parts| == 0 then ""
    else if |parts| == 1 then parts[0]
    else parts[0] + " -> " + JoinArrow(parts[1..])
  }

  /** Joining one more name appends the separator and that name. */
  lemma {:induction false} JoinArrowSnoc(parts: seq<string>, n: string)
    requires |parts| > 0
    ensures JoinArrow(parts + [n]) == JoinArrow(parts) + " -> " + n
    decreases |parts|
  {
    if |parts| > 1 {
      assert (parts + [n])[1..] == parts[1..] + [n];
      JoinArrowSnoc(parts[1..], n);
    }
  }

  /** A joined path of two or more names starts with the first and ends with the separator and the last. */
  lemma JoinArrowEnds(parts: seq<string>)
    requires |parts| >= 2
    ensures var s := JoinArrow(parts);
            |parts[0]| <= |s| && s[..|parts[0]|] == parts[0]
    ensures var s := JoinArrow(parts);
            var last := parts[|parts| - 1];
            |last| + 4 <= |s| && s[|s| - |last| - 4..] == " -> " + last
  {
    var init := parts[..|parts| - 1];
    var last := parts[|parts| - 1];
    assert init + [last] == parts;
    JoinArrowSnoc(init, last);
    var a := JoinArrow(init);
    var tail := " -> " + last;
    assert JoinArrow(parts) == a + tail;
    assert (a + tail)[|a + tail| - |tail|..] == tail;
    var rest := " -> " + JoinArrow(parts[1..]);
    assert JoinArrow(parts) == parts[0] + rest;
    assert (parts[0] + rest)[..|parts[0]|] == parts[0];
  }

  /**
   * The reported cycle path: it starts with the first name on the walk, ends
   * with the separator and the repeated name, and that name occurs exactly
   * twice on the walk, once earlier and once at the end.
   */
  lemma CyclePath(tasks: map<string, Task>, p: seq<string>)
    requires ClosesCycle(tasks, p)
    ensures var s := JoinArrow(p);
            |p[0]| <= |s| && s[..|p[0]|] == p[0]
    ensures var s := JoinArrow(p);
            var last := p[|p| - 1];
            |last| + 4 <= |s| && s[|s| - |last| - 4..] == " -> " + last
    ensures exists i :: 0 <= i < |p| - 1 && p[i] == p[|p| - 1] &&
              forall j :: 0 <= j < |p| - 1 && j != i ==> p[j] != p[|p| - 1]
  {
    JoinArrowEnds(p);
    RepeatedOnce(p);
  }

  /** With distinct names before it, the last name occurs exactly once among them. */
  lemma RepeatedOnce(p: seq<string>)
    requires |p| >= 2 && p[|p| - 1] in p[..|p| - 1] && Distinct(p[..|p| - 1])
    ensures exists i :: 0 <= i < |p| - 1 && p[i] == p[|p| - 1] &&
              forall j :: 0 <= j < |p| - 1 && j != i ==> p[j] != p[|p| - 1]
  {
    var init := p[..|p| - 1];
    var i :| 0 <= i < |init| && init[i] == p[|p| - 1];
    forall j | 0 <= j < |p| - 1 && j != i
      ensures p[j] != p[|p| - 1]
    {
      assert init[j] == p[j];
    }
  }

  // ---------------------------------------------------------------------
  // Depth-first search, as written: `visited` and `stack` are updated in
  // place, modelled as values passed in and returned

  /**
   * `check_task_cycle`. On success the stack is as on entry and the name is
   * explored; a circular-dependency error reports the stack closed by a
   * repeated name; a missing task is reported at the end of a walk from the
   * name.
   */
  method CheckTaskCycle(tasks: map<string, Task>, name: string, visited: set<string>, stack: seq<string>)
    returns (r: Result<(), ConfigError>, visitedOut: set<string>, stackOut: seq<string>)
    requires Distinct(stack) && IsWalk(tasks, stack + [name])
    requires forall s :: s in stack ==> s in tasks
    requires Explored(tasks, visited)
    ensures r.Ok? ==> stackOut == stack && visited <= visitedOut && name in visitedOut && Explored(tasks, visitedOut)
    ensures r.Err? ==> r.error.CircularDependency? || r.error.TaskNotFound?
    ensures r.Err? && r.error.CircularDependency? ==>
              ClosesCycle(tasks, stackOut) && r.error.path == JoinArrow(stackOut) && stack + [name] <= stackOut
    ensures r.Err? && r.error.TaskNotFound? ==>
              r.error.name !in tasks && IsWalk(tasks, stackOut + [r.error.name]) && stack + [name] <= stackOut + [r.error.name]
    decreases |tasks.Keys| - |stack|, 1
  {
    if name in stack {
      stackOut := stack + [name];
      assert stackOut[..|stackOut| - 1] == stack;
      return Err(CircularDependency(JoinArrow(stackOut))), visited, stackOut;
    }
    if name in visited {
      return Ok(()), visited, stack;
    }
    if name !in tasks {
      return Err(TaskNotFound(name)), visited, stack;
    }
    r, visitedOut, stackOut := ExploreTask(tasks, name, visited, stack);
  }

  /** The part of `check_task_cycle` after the early returns: push, search both lists, pop, mark explored. */
  method ExploreTask(tasks: map<string, Task>, name: string, visited: set<string>, stack: seq<string>)
    returns (r: Result<(), ConfigError>, visitedOut: set<string>, stackOut: seq<string>)
    requires name in tasks && name !in stack
    requires Distinct(stack) && IsWalk(tasks, stack + [name])
    requires forall s :: s in stack ==> s in tasks
    requires Explored(tasks, visited)
    ensures r.Ok? ==> stackOut == stack && visited <= visitedOut && name in visitedOut && Explored(tasks, visitedOut)
    ensures r.Err? ==> r.error.CircularDependency? || r.error.TaskNotFound?
    ensures r.Err? && r.error.CircularDependency? ==>
              ClosesCycle(tasks, stackOut) && r.error.path == JoinArrow(stackOut) && stack + [name] <= stackOut
    ensures r.Err? && r.error.TaskNotFound? ==>
              r.error.name !in tasks && IsWalk(tasks, stackOut + [r.error.name]) && stack + [name] <= stackOut + [r.error.name]
    decreases |tasks.Keys| - |stack|, 0
  {
    var task := tasks[name];
    stackOut := stack + [name];
    PushFresh(tasks, stack, name);
    r, visitedOut, stackOut := CheckRuns(tasks, task.run, visited, stackOut);
    if r.Err? {
      return;
    }
    r, visitedOut, stackOut := CheckRuns(tasks, task.finally, visitedOut, stackOut);
    if r.Err? {
      return;
    }
    stackOut := stackOut[..|stackOut| - 1];
    assert stackOut == stack;
    FinishExplored(tasks, visitedOut, name);
    visitedOut := visitedOut + {name};
    return Ok(()), visitedOut, stackOut;
  }

  /** The outer loop, over one list of run items. */
  method CheckRuns(tasks: map<string, Task>, runs: seq<Run>, visited: set<string>, stack: seq<string>)
    returns (r: Result<(), ConfigError>, visitedOut: set<string>, stackOut: seq<string>)
    requires |stack| > 0 && Distinct(stack) && IsWalk(tasks, stack)
    requires forall s :: s in stack ==> s in tasks
    requires |stack| <= |tasks.Keys|
    requires forall c :: c in RefsOf(runs) ==> c in Children(tasks[stack[|stack| - 1]])
    requires Explored(tasks, visited)
    ensures r.Ok? ==>
              stackOut == stack && visited <= visitedOut && Explored(tasks, visitedOut) &&
              forall c :: c in RefsOf(runs) ==> c in visitedOut
    ensures r.Err? ==> r.error.CircularDependency? || r.error.TaskNotFound?
    ensures r.Err? && r.error.CircularDependency? ==>
              ClosesCycle(tasks, stackOut) && r.error.path == JoinArrow(stackOut) && stack <= stackOut
    ensures r.Err? && r.error.TaskNotFound? ==>
              r.error.name !in tasks && IsWalk(tasks, stackOut + [r.error.name]) && stack <= stackOut + [r.error.name]
    decreases |tasks.Keys| - |stack|, 3
  {
    visitedOut, stackOut := visited, stack;
    var i := 0;
    while i < |runs|
      invariant 0 <= i <= |runs|
      invariant stackOut == stack && visited <= visitedOut && Explored(tasks, visitedOut)
      invariant forall c :: c in RefsOf(runs[..i]) ==> c in visitedOut
    {
      forall c | c in SubtaskNames(runs[i]) ensures c in Children(tasks[stack[|stack| - 1]]) {
        RefsOfContains(runs, i, c);
      }
      r, visitedOut, stackOut := CheckNames(tasks, SubtaskNames(runs[i]), visitedOut, stack);
      if r.Err? {
        return;
      }
      RefsOfSnoc(runs, i);
      i := i + 1;
    }
    assert runs[..i] == runs;
    return Ok(()), visitedOut, stackOut;
  }

  /** The inner loop, over the subtask names of one run item. */
  method CheckNames(tasks: map<string, Task>, names: seq<string>, visited: set<string>, stack: seq<string>)
    returns (r: Result<(), ConfigError>, visitedOut: set<string>, stackOut: seq<string>)
    requires |stack| > 0 && Distinct(stack) && IsWalk(tasks, stack)
    requires forall s :: s in stack ==> s in tasks
    requires |stack| <= |tasks.Keys|
    requires forall c :: c in names ==> c in Children(tasks[stack[|stack| - 1]])
    requires Explored(tasks, visited)
    ensures r.Ok? ==>
              stackOut == stack && visited <= visitedOut && Explored(tasks, visitedOut) &&
              forall c :: c in names ==> c in visitedOut
    ensures r.Err? ==> r.error.CircularDependency? || r.error.TaskNotFound?
    ensures r.Err? && r.error.CircularDependency? ==>
              ClosesCycle(tasks, stackOut) && r.error.path == JoinArrow(stackOut) && stack <= stackOut
    ensures r.Err? && r.error.TaskNotFound? ==>
              r.error.name !in tasks && IsWalk(tasks, stackOut + [r.error.name]) && stack <= stackOut + [r.error.name]
    decreases |tasks.Keys| - |stack|, 2
  {
    visitedOut, stackOut := visited, stack;
    var j := 0;
    while j < |names|
      invariant 0 <= j <= |names|
      invariant stackOut == stack && visited <= visitedOut && Explored(tasks, visitedOut)
      invariant forall k :: 0 <= k < j ==> names[k] in visitedOut
    {
      assert names[j] in names;
      WalkExtend(tasks, stack, names[j]);
      r, visitedOut, stackOut := CheckTaskCycle(tasks, names[j], visitedOut, stack);
      if r.Err? {
        return;
      }
      j := j + 1;
    }
    return Ok(()), visitedOut, stackOut;
  }

  /** A missing task reported at the end of a walk from a defined root is referenced by a defined task. */
  lemma DanglingReference(tasks: map<string, Task>, root: string, walk: seq<string>, n: string)
    requires root in tasks && n !in tasks
    requires IsWalk(tasks, walk + [n]) && [root] <= walk + [n]
    ensures exists a :: a in tasks && n in Children(tasks[a])
  {
    var q := walk + [n];
    assert q[0] == root;
    assert |walk| > 0;
    assert Edge(tasks, q[|walk| - 1], q[|walk|]);
  }

  /**
   * `detect_circular_task_dependencies`: a fresh search from every task.
   * It succeeds exactly when every reference resolves and no task lies on
   * a cycle.
   */
  method DetectCircularTaskDependencies(tasks: map<string, Task>) returns (r: Result<(), ConfigError>)
    ensures r.Ok? <==> WellFormedGraph(tasks)
    ensures r.Err? ==> r.error.CircularDependency? || r.error.TaskNotFound?
    ensures r.Err? && r.error.CircularDependency? ==> exists p :: ClosesCycle(tasks, p) && r.error.path == JoinArrow(p)
    ensures r.Err? && r.error.TaskNotFound? ==>
              r.error.name !in tasks && exists a :: a in tasks && r.error.name in Children(tasks[a])
  {
    var todo := tasks.Keys;
    while todo != {}
      invariant todo <= tasks.Keys
      invariant forall t :: t in tasks.Keys - todo ==>
                  (forall c :: c in Children(tasks[t]) ==> c in tasks) && !OnCycle(tasks, t)
      decreases |todo|
    {
      var taskName :| taskName in todo;
      var res, visited, stack := CheckTaskCycle(tasks, taskName, {}, []);
      if res.Err? {
        if res.error.CircularDependency? {
          ClosedWalkHasCycle(tasks, stack);
        } else {
          DanglingReference(tasks, taskName, stack, res.error.name);
        }
        return res;
      }
      todo := todo - {taskName};
    }
    return Ok(());
  }

  /**
   * `validate_config`: every task is validated (in map order) before the
   * cycle search runs.
   */
  method ValidateConfig(config: Config) returns (r: Result<(), ConfigError>)
    ensures r.Ok? <==> (forall t :: t in config.tasks ==> ValidTask(config.tasks[t])) && WellFormedGraph(config.tasks)
    ensures r.Err? && (r.error.CircularDependency? || r.error.TaskNotFound?) ==>
              forall t :: t in config.tasks ==> ValidTask(config.tasks[t])
  {
    var todo := config.tasks.Keys;
    while todo != {}
      invariant todo <= config.tasks.Keys
      invariant forall t :: t in config.tasks.Keys - todo ==> ValidTask(config.tasks[t])
      decreases |todo|
    {
      var taskName :| taskName in todo;
      var v := ValidateTask(taskName, config.tasks[taskName]);
      if v.Err? {
        return v;
      }
      todo := todo - {taskName};
    }
    r := DetectCircularTaskDependencies(config.tasks);
  }
}
