/** A value that is either there or not: a stored user record that may be
    absent, or an object field that JavaScript only tests for truthiness, where
    `None` stands for a falsy value such as `null` or `undefined`. */
module Wrappers {

  datatype Option<+T> = None | Some(value: T)
}
