/** The optional value the TypeScript code expresses with `null` or `undefined`. */
module Wrappers {

  datatype Option<+T> = None | Some(value: T)
}
