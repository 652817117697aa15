/**
 * Error taxonomy of the task runner (src/error.rs) and the two
 * failure-carrying wrappers the rest of the model uses.
 * Only the variants are mirrored; their display texts are not.
 */
module Errors {

  datatype Option<+T> = None | Some(value: T)

  datatype Result<+T, +E> = Ok(value: T) | Err(error: E) {
    predicate IsFailure() { Err? }
    function PropagateFailure<U>(): Result<U, E>
      requires Err?
    {
      Err(error)
    }
    function Extract(): T
      requires Ok?
    {
      value
    }
  }

  /** Configuration parsing and validation errors. */
  datatype ConfigError =
    | NotFound(searched: string)
    | Invalid(message: string)
    | SourceWithoutTarget
    | TargetWithoutSource
    | DuplicateNames(name: string)
    | TaskNotFound(name: string)
    | CircularDependency(path: string)
    | IncludeFile(path: string, cause: string)

  /** Errors raised while a task runs. */
  datatype ExecutionError =
    | CommandFailed(code: Option<int>)
    | FailedCondition(reason: string)
    | MissingOption(name: string)
    | InvalidOption(name: string, cause: InterpolationError)
    | Cache(message: string)
    | Environment(message: string)

  /** Errors of `${name}` interpolation. */
  datatype InterpolationError =
    | UndefinedVariable(name: string)
    | InvalidSyntax(message: string)
    | RecursiveInterpolation

  /** Whether an execution error stands for a failed condition (a skip, not a hard error). */
  predicate IsFailedCondition(e: ExecutionError) {
    e.FailedCondition?
  }
}
