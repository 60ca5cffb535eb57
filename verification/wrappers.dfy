/** Failure-compatible wrappers shared by every module of the model. */
module Wrappers {

  /** A value that may be missing (a pandas NaN, a failed dictionary lookup). */
  datatype Option<+T> = None | Some(value: T) {

    predicate IsFailure() {
      None?
    }

    function PropagateFailure<U>(): Option<U>
      requires None?
    {
      None
    }

    function Extract(): T
      requires Some?
    {
      value
    }

    /** The wrapped value, or `default` when there is none. */
    function GetOr(default: T): T {
      match this
      case Some(v) => v
      case None => default
    }
  }

  /** Either a value or the error the source raises instead of returning one. */
  datatype Result<+R, +E> = Success(value: R) | Failure(error: E) {

    predicate IsFailure() {
      Failure?
    }

    function PropagateFailure<U>(): Result<U, E>
      requires Failure?
    {
      Failure(error)
    }

    function Extract(): R
      requires Success?
    {
      value
    }
  }

  /** The values that are not missing, in order (`dropna()` on a column). */
  function Present<T(==,!new)>(xs: seq<Option<T>>): (r: seq<T>)
    ensures forall t :: t in r <==> Some(t) in xs
    ensures None !in xs ==> |r| == |xs| && forall i :: 0 <= i < |xs| ==> r[i] == xs[i].value
    decreases |xs|
  {
    if |xs| == 0 then []
    else
      assert xs == [xs[0]] + xs[1..];
      (if xs[0].Some? then [xs[0].value] else []) + Present(xs[1..])
  }
}
