/** A value that may be missing. JavaScript's `undefined` and `null`, and
    NaN where a number is expected, are all written `None`. */
module Options {

  datatype Option<+T> = None | Some(value: T)
}
