/** Optional values and success/failure results shared by the other modules.
    A rejected JavaScript promise or a thrown `Error` is modelled as `Err`. */
module Outcomes {

  datatype Option<+T> = None | Some(value: T)

  datatype Result<+T, +E> = Ok(value: T) | Err(error: E)
}
