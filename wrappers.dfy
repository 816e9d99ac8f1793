/** The absent-or-present value: `undefined` in the resolvers becomes None. */
module Wrappers {
  datatype Option<+T> = None | Some(value: T)
}
