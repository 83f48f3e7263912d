/** Optional values, results that may fail, and functions that never confuse their arguments. */
module Wrappers {

  datatype Option<+T> = None | Some(value: T)

  datatype Result<+T, +E> = Ok(value: T) | Err(error: E)

  ghost predicate Injective<A(!new), B(!new)>(f: A -> B) { forall x, y :: f(x) == f(y) ==> x == y }
}
