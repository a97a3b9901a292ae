/** Failure-compatible wrappers standing for Python's `None` and for raised exceptions. */
module Wrappers {

  datatype Option<+T> = None | Some(value: T)

  datatype Result<+T, +E> = Success(value: T) | Failure(error: E) {

    predicate IsFailure() {
      Failure?
    }

    function PropagateFailure<U>(): Result<U, E>
      requires Failure?
    {
      Failure(error)
    }

    function Extract(): T
      requires Success?
    {
      value
    }
  }

  /** The result of an operation that only has an effect: it completes or it raises. */
  datatype Outcome<+E> = Pass | Fail(error: E)

  function OutcomeOf<T, E>(r: Result<T, E>): Outcome<E> {
    match r
    case Success(_) => Pass
    case Failure(e) => Fail(e)
  }
}

/** The exceptions the state splitter raises, one constructor per kind. */
module Errors {

  datatype Error =
    | MalformedStackPath(text: string)    // ValueError from StackName.from_path
    | InvalidDocument(field: string)      // pydantic validation error, naming the offending field
    | UnknownParent(urn: string)          // KeyError: a `parent` URN absent from the resource table
    | NoSuchFile(path: seq<string>)       // FileNotFoundError
    | PathConflict(path: seq<string>)     // FileExistsError, IsADirectoryError or NotADirectoryError
    | DirectoryNotEmpty(path: seq<string>) // OSError with errno ENOTEMPTY
    | CyclicAncestry(urn: string)         // RecursionError: the parent_resource chain never ends
    | NoState                             // AttributeError: `state` is None
    | ResourcesNotIterable                // TypeError: `latest.resources` is None
}
