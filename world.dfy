/**
 * The operating system as the task runner sees it: the process environment
 * (which `set-environment` changes in place), the processes it spawns and the
 * lines it writes to standard error. The file system and the exit status of
 * a spawned process are an oracle fixed for the whole run.
 */
module World {
  import opened Errors

  /** Whether the child inherits stdout/stderr or has them sent to the null device. */
  datatype Stdio = Inherit | Suppressed

  /** Everything `std::process::Command` is given before `status()` is called. */
  datatype Invocation = Invocation(argv: seq<string>, cwd: string, env: map<string, string>, stdio: Stdio)

  /** What `status()` yields: a spawn error, or an exit whose code is absent when a signal ended the child. */
  datatype SpawnOutcome = SpawnError | Exited(code: Option<int>)

  /** Observable effects, in the order they happen. */
  datatype Event = Spawned(inv: Invocation) | Printed(line: string)

  /** The paths that exist, and the outcome of every possible spawn. */
  datatype Oracle = Oracle(files: set<string>, spawn: Invocation -> SpawnOutcome)

  /** `ExitStatus::success`: the child exited with code 0. */
  predicate Succeeded(o: SpawnOutcome) {
    o == Exited(Some(0))
  }

  /**
   * `Path::join` on Unix: an absolute right-hand side replaces the base;
   * otherwise one separator is placed between them unless the base is empty
   * or already ends with one.
   */
  function Join(base: string, rel: string): (r: string)
    ensures |rel| > 0 && rel[0] == '/' ==> r == rel
    ensures (|rel| == 0 || rel[0] != '/') ==>
              |base| + |rel| <= |r| && r[..|base|] == base && r[|r| - |rel|..] == rel
  {
    if |rel| > 0 && rel[0] == '/' then rel
    else if |base| == 0 || base[|base| - 1] == '/' then base + rel
    else base + "/" + rel
  }

  /** The path with its trailing separators removed. */
  function TrimSlashes(p: string): (r: string)
    ensures |r| <= |p| && r == p[..|r|]
    ensures |r| == 0 || r[|r| - 1] != '/'
  {
    if |p| > 0 && p[|p| - 1] == '/' then TrimSlashes(p[..|p| - 1]) else p
  }

  /** Index of the last separator in p, if there is one. */
  function LastSlash(p: string): (r: Option<nat>)
    ensures r.Some? ==> r.value < |p| && p[r.value] == '/' && forall k :: r.value < k < |p| ==> p[k] != '/'
    ensures r.None? ==> forall k :: 0 <= k < |p| ==> p[k] != '/'
  {
    if |p| == 0 then None
    else if p[|p| - 1] == '/' then Some(|p| - 1)
    else LastSlash(p[..|p| - 1])
  }

  /**
   * `Path::parent`: None for the empty path and the root; the empty path for
   * a single relative component; the root for a single absolute component;
   * otherwise everything before the last component.
   */
  function Parent(p: string): (r: Option<string>)
  {
    var t := TrimSlashes(p);
    if |t| == 0 then None
    else match LastSlash(t)
      case None => Some("")
      case Some(0) => Some("/")
      case Some(k) => Some(t[..k])
  }

  /** A parent is a proper prefix of its path, and a path with a parent is not empty. */
  lemma ParentIsProperPrefix(p: string)
    requires Parent(p).Some?
    ensures |Parent(p).value| < |p|
    ensures Parent(p).value == p[..|Parent(p).value|] || Parent(p).value == "/"
    ensures Parent(p).value == "/" ==> p[0] == '/'
  {
    var t := TrimSlashes(p);
    match LastSlash(t)
    case None =>
    case Some(k) =>
      if k == 0 {
        assert t[0] == '/';
        assert p[0] == t[0];
      } else {
        assert t[..k] == p[..k];
      }
  }

  /** The part of the machine the runner mutates: the process environment and the effect log. */
  class Os {
    var env: map<string, string>
    var log: seq<Event>
    const oracle: Oracle

    constructor(env: map<string, string>, oracle: Oracle)
      ensures this.env == env && this.log == [] && this.oracle == oracle
    {
      this.env := env;
      this.log := [];
      this.oracle := oracle;
    }

    /** `status()`: records the spawn and returns what the oracle says about it. */
    method Spawn(inv: Invocation) returns (o: SpawnOutcome)
      modifies this
      ensures o == oracle.spawn(inv)
      ensures log == old(log) + [Spawned(inv)] && env == old(env)
    {
      o := oracle.spawn(inv);
      log := log + [Spawned(inv)];
    }

    /** `eprintln!`: one line on standard error. */
    method Print(line: string)
      modifies this
      ensures log == old(log) + [Printed(line)] && env == old(env)
    {
      log := log + [Printed(line)];
    }

    /** `std::env::set_var`. */
    method SetVar(key: string, value: string)
      modifies this
      ensures env == old(env)[key := value] && log == old(log)
    {
      env := env[key := value];
    }

    /** `std::env::remove_var`. */
    method RemoveVar(key: string)
      modifies this
      ensures env == old(env) - {key} && log == old(log)
    {
      env := env - {key};
    }
  }
}
