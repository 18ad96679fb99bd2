/** The conventional optional value: `None` stands for JavaScript's `undefined`
    (a missing property, a failed read) and `Some(v)` for a present value. */
module Wrappers {

  datatype Option<+T> = None | Some(value: T)

}
