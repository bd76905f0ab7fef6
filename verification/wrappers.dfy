/** The two wrappers the model uses in place of null references and
    exceptions. */
module Wrappers {

  /** A value that may be absent; stands for a C# nullable reference. */
  datatype Option<+T> = None | Some(value: T) {

    /** The value, or `default` when absent. */
    function GetOr(default: T): T {
      if Some? then value else default
    }
  }

  /** Either a value or the failure that stands for a thrown exception. */
  datatype Result<+R, +E> = Ok(value: R) | Err(error: E)
}
