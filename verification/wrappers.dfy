/** Failure-carrying results for the constructors of the diagnostics layer. */
module Wrappers {

  /** A reference that may be null. */
  datatype Option<+T> = None | Some(value: T)

  datatype Result<+R, +E> = Success(value: R) | Failure(error: E)

  /** The exceptions a constructor can raise when a collaborator is missing. */
  datatype ConstructionError =
    | ArgumentNull(paramName: string)   // an explicit guard threw ArgumentNullException
    | NullReference                     // a member was invoked on a null collaborator
}
