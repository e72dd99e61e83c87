/** An optional value: JavaScript's `undefined` / `null` on one side, a value on the other. */
module Opt {

  datatype Option<+T> = None | Some(value: T)
}
