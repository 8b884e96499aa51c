/** What a call into the extension can do: hand back a value, throw, or never return.
    The source has no error type of its own; its failures are .NET exceptions and one
    endless loop, and the model names each of them as a value instead of a precondition. */
module Outcomes {

  datatype Option<+T> = None | Some(value: T)

  /** The .NET exceptions the modelled code can raise. */
  datatype Exception =
    | ArgumentOutOfRange   // an index or a snapshot position outside the buffer
    | NullReference        // `.Value` of a missing `Lazy` cell
    | Overflow             // `new object[n]` with a negative `n`
    | FileNotFound         // `File.ReadAllText` of a path that names no file

  datatype Outcome<+T> =
    | Returns(value: T)
    | Throws(error: Exception)
    | Diverges             // the call loops forever and never returns
}
