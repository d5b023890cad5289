/** The optional-value datatype used for regex matches that may be absent and for
    JavaScript's `parseInt`, whose failure value `NaN` is represented by `None`. */
module Wrappers {

  datatype Option<+T> = None | Some(value: T)
}
