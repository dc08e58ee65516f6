/** Option and result types shared by every module, and the failures the engine can raise. */
module Wrappers {

  datatype Option<+T> = None | Some(value: T) {
    function GetOr(default: T): T {
      match this
      case Some(v) => v
      case None => default
    }
  }

  datatype Result<+T, +E> = Ok(value: T) | Err(error: E)

  /** The outcome of an operation that returns nothing on success. */
  datatype Outcome<+E> = Pass | Fail(error: E)

  /** What the engine raises.
      VertexNotFound: the graph library's out-of-bounds exception on a vertex lookup by id.
      TypeError: a strict-types call that receives a value of the wrong type.
      FileMissing: the invalid-argument exception for a configuration path that does not exist. */
  datatype Failure =
    | VertexNotFound(id: string)
    | TypeError
    | FileMissing(path: string)
}
