/** The conventional optional value, standing for JavaScript's `undefined`/`null`
    and for a query that matched no document. */
module Wrappers {

  datatype Option<+T> = None | Some(value: T)
}
