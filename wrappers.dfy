/** Option and Result, used for Python's `None` and for raised exceptions. */
module Wrappers {

  datatype Option<+T> = None | Some(value: T)

  datatype Result<+R, +E> = Success(value: R) | Failure(error: E)

  /** Python's `arg if arg is not None else current`: a given value wins, `None` keeps the current one. */
  function Coalesce<T>(arg: Option<T>, current: Option<T>): (r: Option<T>)
    ensures arg.Some? ==> r == arg
    ensures arg.None? ==> r == current
  {
    if arg.Some? then arg else current
  }

  /**
   * What coalescing promises a column: a value once there is never cleared,
   * `None` changes nothing, coalescing the same argument again changes
   * nothing, and two coalescings in a row are one whose later argument wins.
   */
  lemma CoalesceSpec<T>(arg: Option<T>, later: Option<T>, current: Option<T>)
    ensures current.Some? ==> Coalesce(arg, current).Some?
    ensures Coalesce(None, current) == current
    ensures Coalesce(arg, Coalesce(arg, current)) == Coalesce(arg, current)
    ensures Coalesce(later, Coalesce(arg, current)) == Coalesce(Coalesce(later, arg), current)
  {
  }
}
