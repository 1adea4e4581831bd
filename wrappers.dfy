/** The optional-value wrapper used for the component's optional bindings and fields. */
module Wrappers {

  /** `None` stands for an absent (undefined or null) value. */
  datatype Option<+T> = None | Some(value: T)
}
