/** Failure-carrying results shared by the modules of this model. */
module Wrappers {

  /** A value that may be absent: a null pointer, a missing key, Python's None. */
  datatype Option<+T> = None | Some(value: T)

  /** The outcome of an operation that may throw or report an error message. */
  datatype Result<+T> = Ok(value: T) | Err(msg: string)

  /**
   * The object a FreeCAD `execute()` hands back: `StdReturn` (success,
   * a null pointer in the source) or a heap-allocated
   * `DocumentObjectExecReturn` carrying an error text.
   */
  datatype ExecReturn = StdReturn | ErrorReturn(why: string)
}
