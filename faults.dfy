/** Why a load or reload ends without a new configuration, and how far a failing stage got. */
module Faults {
  import opened Wrappers
  import opened Json

  datatype Fault =
    /** The configuration cache could not read or parse the file at `path`; `cb(err)`. */
    | LoadFault(path: string)
    /** A JavaScript `TypeError` escaped (a missing method, a non-string path). */
    | TypeError(message: string)
    /** A JavaScript `ReferenceError`: the identifier `name` is not bound. */
    | ReferenceError(name: string)

  /**
   * How far a stage that works on the tree in place got: the tree as it
   * stands, and the fault that stopped the stage, if one did.
   */
  datatype Progress = Progress(tree: Json, fault: Option<Fault>)
}
