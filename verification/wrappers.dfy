/** The optional-value wrapper used for the detector's tracking identity,
    which the detector may leave unassigned. */
module Wrappers {

  datatype Option<+T> = None | Some(value: T)
}
