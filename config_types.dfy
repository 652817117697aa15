/**
 * Configuration datatypes (src/config/types.rs) and the three normalisers
 * that accept either one value or a list of them for `run`, `command` and
 * `task`. The YAML document is an abstract `Value`; the serde-derived
 * decoders of a single list element are parameters of the normalisers.
 */
module ConfigTypes {
  import opened Errors

  /** A YAML value, as `serde_yaml::Value` distinguishes its cases. */
  datatype Value =
    | Null
    | Bool(b: bool)
    | Number(n: int)
    | Str(s: string)
    | Sequence(items: seq<Value>)
    | Mapping(entries: seq<(Value, Value)>)

  /** Decoder of one element, standing for a serde-derived `Deserialize` impl. */
  type Decoder<T> = Value -> Result<T, string>

  datatype Config = Config(
    name: Option<string>,
    usage: Option<string>,
    tasks: map<string, Task>,
    interpreter: Option<seq<string>>)

  datatype Task = Task(
    usage: Option<string>,
    description: Option<string>,
    private: bool,
    quiet: bool,
    args: map<string, Arg>,
    options: map<string, TaskOption>,
    run: seq<Run>,
    finally: seq<Run>,
    source: seq<string>,
    target: seq<string>,
    includePath: Option<string>)

  datatype Run = SimpleCommand(cmd: string) | Complex(item: RunItem)

  /** One `set-environment` entry; a null value means "unset". */
  datatype EnvEntry = EnvEntry(key: string, value: Option<string>)

  /**
   * A complex run item. `setEnvironment` lists the entries of the map in the
   * order the runner visits them.
   */
  datatype RunItem = RunItem(
    when: seq<When>,
    command: seq<Command>,
    task: seq<SubTask>,
    setEnvironment: seq<EnvEntry>)

  datatype Command = Simple(cmd: string) | Complex(detail: CommandDetail)

  datatype CommandDetail = CommandDetail(exec: string, printAs: Option<string>, quiet: bool, dir: Option<string>)

  datatype SubTask = Simple(name: string) | Complex(detail: SubTaskDetail)

  datatype SubTaskDetail = SubTaskDetail(name: string, options: map<string, string>)

  /** A condition; every field is optional (`exists` is spelled `pathExists`). */
  datatype When = When(
    equal: Option<WhenComparison>,
    notEqual: Option<WhenComparison>,
    command: Option<string>,
    pathExists: Option<string>,
    envSet: Option<string>,
    envNotSet: Option<string>,
    optionSet: Option<string>,
    optionNotSet: Option<string>)

  datatype WhenComparison = WhenComparison(left: string, right: string)

  datatype TaskOption = TaskOption(
    usage: Option<string>,
    short: Option<string>,
    optionType: string,
    default: Option<string>,
    required: bool,
    rewrite: Option<string>,
    environment: Option<string>,
    private: bool)

  datatype Arg = Arg(usage: Option<string>, default: Option<string>, required: bool, private: bool)

  /** `default_option_type`. */
  function DefaultOptionType(): string {
    "string"
  }

  /** The `type` field of an option: the given text, or the default when the key is missing. */
  function OptionTypeField(given: Option<string>): (t: string)
    ensures given.None? ==> t == "string"
    ensures given.Some? ==> t == given.value
  {
    match given
    case Some(s) => s
    case None => DefaultOptionType()
  }

  /** The subtask name a reference carries, whatever its form. */
  function SubTaskName(st: SubTask): string {
    match st
    case Simple(n) => n
    case Complex(d) => d.name
  }

  const RunShapeError := "run must be a string or array"
  const CommandShapeError := "command must be a string, object, or array"
  const TaskShapeError := "task must be a string, object, or array"

  // ---------------------------------------------------------------------
  // Specification of the normalisers

  /**
   * Decoding every element in order, stopping at the first failure: the
   * result of the `for item in seq { ...? ; push }` loops.
   */
  function DecodeEach<T>(items: seq<Value>, decode: Decoder<T>): (r: Result<seq<T>, string>)
    ensures r.Ok? ==> |r.value| == |items|
  {
    if items == [] then Ok([])
    else match decode(items[0])
      case Err(e) => Err(e)
      case Ok(x) =>
        match DecodeEach(items[1..], decode)
        case Err(e) => Err(e)
        case Ok(xs) => Ok([x] + xs)
  }

  /** All elements decode: the list of their values, in order. */
  lemma {:induction false} DecodeEachAllOk<T>(items: seq<Value>, decode: Decoder<T>, xs: seq<T>)
    requires |xs| == |items|
    requires forall i :: 0 <= i < |items| ==> decode(items[i]) == Ok(xs[i])
    ensures DecodeEach(items, decode) == Ok(xs)
  {
    if items != [] {
      assert decode(items[0]) == Ok(xs[0]);
      forall i | 0 <= i < |items[1..]| ensures decode(items[1..][i]) == Ok(xs[1..][i]) {
        assert items[1..][i] == items[i + 1];
      }
      DecodeEachAllOk(items[1..], decode, xs[1..]);
      assert [xs[0]] + xs[1..] == xs;
    }
  }

  /** The first element that fails decides the error. */
  lemma {:induction false} DecodeEachFirstError<T>(items: seq<Value>, decode: Decoder<T>, i: nat)
    requires i < |items| && decode(items[i]).Err?
    requires forall k :: 0 <= k < i ==> decode(items[k]).Ok?
    ensures DecodeEach(items, decode) == Err(decode(items[i]).error)
  {
    if i > 0 {
      assert decode(items[0]).Ok?;
      assert items[1..][i - 1] == items[i];
      forall k | 0 <= k < i - 1 ensures decode(items[1..][k]).Ok? {
        assert items[1..][k] == items[k + 1];
      }
      DecodeEachFirstError(items[1..], decode, i - 1);
    }
  }

  /** Whatever DecodeEach returns is explained by the element decoder. */
  lemma {:induction false} DecodeEachCases<T>(items: seq<Value>, decode: Decoder<T>)
    ensures DecodeEach(items, decode).Ok? ==>
              forall i :: 0 <= i < |items| ==> decode(items[i]) == Ok(DecodeEach(items, decode).value[i])
    ensures DecodeEach(items, decode).Err? <==> exists i :: 0 <= i < |items| && decode(items[i]).Err?
  {
    if items != [] {
      DecodeEachCases(items[1..], decode);
      forall i | 1 <= i < |items| ensures items[1..][i - 1] == items[i] { }
      if decode(items[0]).Err? {
        assert decode(items[0]).Err?;
      }
    }
  }

  /** `deserialize_run_items`. */
  function RunItemsOf(v: Value, decode: Decoder<Run>): Result<seq<Run>, string> {
    match v
    case Str(s) => Ok([SimpleCommand(s)])
    case Sequence(items) => DecodeEach(items, decode)
    case Null => Ok([])
    case _ => Err(RunShapeError)
  }

  /** `deserialize_commands`. */
  function CommandsOf(v: Value, decode: Decoder<Command>): Result<seq<Command>, string> {
    match v
    case Str(s) => Ok([Command.Simple(s)])
    case Mapping(_) => (match decode(v) case Ok(c) => Ok([c]) case Err(e) => Err(e))
    case Sequence(items) => DecodeEach(items, decode)
    case Null => Ok([])
    case _ => Err(CommandShapeError)
  }

  /** `deserialize_subtasks`. */
  function SubTasksOf(v: Value, decode: Decoder<SubTask>): Result<seq<SubTask>, string> {
    match v
    case Str(s) => Ok([SubTask.Simple(s)])
    case Mapping(_) => (match decode(v) case Ok(t) => Ok([t]) case Err(e) => Err(e))
    case Sequence(items) => DecodeEach(items, decode)
    case Null => Ok([])
    case _ => Err(TaskShapeError)
  }

  /** The shape rules of `run`: which values are accepted and what they become. */
  lemma RunShapes(v: Value, decode: Decoder<Run>)
    ensures v.Str? ==> RunItemsOf(v, decode) == Ok([SimpleCommand(v.s)])
    ensures v.Null? ==> RunItemsOf(v, decode) == Ok([])
    ensures v.Mapping? || v.Bool? || v.Number? ==> RunItemsOf(v, decode) == Err(RunShapeError)
    ensures v.Sequence? && RunItemsOf(v, decode).Ok? ==>
              |RunItemsOf(v, decode).value| == |v.items| &&
              forall i :: 0 <= i < |v.items| ==> decode(v.items[i]) == Ok(RunItemsOf(v, decode).value[i])
    ensures v.Sequence? ==> (RunItemsOf(v, decode).Err? <==> exists i :: 0 <= i < |v.items| && decode(v.items[i]).Err?)
  {
    if v.Sequence? {
      DecodeEachCases(v.items, decode);
    }
  }

  /** The shape rules of `command`: a mapping is one command, decoded as a whole. */
  lemma CommandShapes(v: Value, decode: Decoder<Command>)
    ensures v.Str? ==> CommandsOf(v, decode) == Ok([Command.Simple(v.s)])
    ensures v.Null? ==> CommandsOf(v, decode) == Ok([])
    ensures v.Mapping? ==> (CommandsOf(v, decode).Ok? <==> decode(v).Ok?)
    ensures v.Mapping? && decode(v).Ok? ==> CommandsOf(v, decode) == Ok([decode(v).value])
    ensures v.Bool? || v.Number? ==> CommandsOf(v, decode) == Err(CommandShapeError)
    ensures v.Sequence? && CommandsOf(v, decode).Ok? ==>
              |CommandsOf(v, decode).value| == |v.items| &&
              forall i :: 0 <= i < |v.items| ==> decode(v.items[i]) == Ok(CommandsOf(v, decode).value[i])
    ensures v.Sequence? ==> (CommandsOf(v, decode).Err? <==> exists i :: 0 <= i < |v.items| && decode(v.items[i]).Err?)
  {
    if v.Sequence? {
      DecodeEachCases(v.items, decode);
    }
  }

  /** The shape rules of `task`: a string is one simple subtask reference. */
  lemma SubTaskShapes(v: Value, decode: Decoder<SubTask>)
    ensures v.Str? ==> SubTasksOf(v, decode) == Ok([SubTask.Simple(v.s)])
    ensures v.Null? ==> SubTasksOf(v, decode) == Ok([])
    ensures v.Mapping? ==> (SubTasksOf(v, decode).Ok? <==> decode(v).Ok?)
    ensures v.Mapping? && decode(v).Ok? ==> SubTasksOf(v, decode) == Ok([decode(v).value])
    ensures v.Bool? || v.Number? ==> SubTasksOf(v, decode) == Err(TaskShapeError)
    ensures v.Sequence? && SubTasksOf(v, decode).Ok? ==>
              |SubTasksOf(v, decode).value| == |v.items| &&
              forall i :: 0 <= i < |v.items| ==> decode(v.items[i]) == Ok(SubTasksOf(v, decode).value[i])
    ensures v.Sequence? ==> (SubTasksOf(v, decode).Err? <==> exists i :: 0 <= i < |v.items| && decode(v.items[i]).Err?)
  {
    if v.Sequence? {
      DecodeEachCases(v.items, decode);
    }
  }

  // ---------------------------------------------------------------------
  // The normalisers as written: a loop that pushes and returns early

  /** The sequence case shared by the three normalisers. */
  method DecodeItems<T>(items: seq<Value>, decode: Decoder<T>) returns (r: Result<seq<T>, string>)
    ensures r == DecodeEach(items, decode)
  {
    var out: seq<T> := [];
    var i := 0;
    while i < |items|
      invariant 0 <= i <= |items|
      invariant |out| == i
      invariant forall k :: 0 <= k < i ==> decode(items[k]) == Ok(out[k])
    {
      var d := decode(items[i]);
      if d.Err? {
        DecodeEachFirstError(items, decode, i);
        return Err(d.error);
      }
      out := out + [d.value];
      i := i + 1;
    }
    DecodeEachAllOk(items, decode, out);
    return Ok(out);
  }

  method DeserializeRunItems(v: Value, decode: Decoder<Run>) returns (r: Result<seq<Run>, string>)
    ensures r == RunItemsOf(v, decode)
  {
    match v
    case Str(s) => return Ok([SimpleCommand(s)]);
    case Sequence(items) => r := DecodeItems(items, decode);
    case Null => return Ok([]);
    case _ => return Err(RunShapeError);
  }

  method DeserializeCommands(v: Value, decode: Decoder<Command>) returns (r: Result<seq<Command>, string>)
    ensures r == CommandsOf(v, decode)
  {
    match v
    case Str(s) => return Ok([Command.Simple(s)]);
    case Mapping(_) =>
      var c := decode(v);
      if c.Err? {
        return Err(c.error);
      }
      return Ok([c.value]);
    case Sequence(items) => r := DecodeItems(items, decode);
    case Null => return Ok([]);
    case _ => return Err(CommandShapeError);
  }

  method DeserializeSubTasks(v: Value, decode: Decoder<SubTask>) returns (r: Result<seq<SubTask>, string>)
    ensures r == SubTasksOf(v, decode)
  {
    match v
    case Str(s) => return Ok([SubTask.Simple(s)]);
    case Mapping(_) =>
      var t := decode(v);
      if t.Err? {
        return Err(t.error);
      }
      return Ok([t.value]);
    case Sequence(items) => r := DecodeItems(items, decode);
    case Null => return Ok([]);
    case _ => return Err(TaskShapeError);
  }
}
