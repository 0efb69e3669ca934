/** The optional value used throughout the model: C#'s `null` for a
    reference or a `Nullable<T>`. */
module Wrappers {

  datatype Option<+T> = None | Some(value: T)
}
