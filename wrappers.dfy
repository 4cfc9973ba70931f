/** Optional values, results and the exceptions the data-access layer throws or captures. */
module Wrappers {

  /** A value that may be missing: C#'s null reference for a query result or a filter. */
  datatype Option<+T> = None | Some(value: T)

  /** The outcome of an operation that the source lets throw: the value, or the exception. */
  datatype Result<+T, +E> = Success(value: T) | Failure(error: E)

  /** The exceptions of the layer, with the messages the source gives them.
      ActionFailed and SaveFailed stand for whatever the commit action or the
      store's flush throws; the layer only captures them. */
  datatype Exception =
    | ArgumentNull(paramName: string, message: string)
    | Argument(message: string)
    | NullReference(message: string)
    | ActionFailed
    | SaveFailed
}
