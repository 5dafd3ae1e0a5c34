/** Option, Result and the one iterator adaptor of the Rust standard library
    that the engine relies on (`Iterator::find`). */
module Wrappers {

  datatype Option<+T> = None | Some(value: T)

  /** `Result<R, E>`; the failure-compatible members let `:-` play the part
      of Rust's `?` operator. */
  datatype Result<+R, +E> = Ok(value: R) | Err(error: E) {
    predicate IsFailure() {
      Err?
    }

    function PropagateFailure<U>(): Result<U, E>
      requires Err?
    {
      Err(error)
    }

    function Extract(): R
      requires Ok?
    {
      value
    }
  }

  /** `xs.iter().find(p)`: the first element satisfying `p`, if any. */
  function Find<X>(xs: seq<X>, p: X -> bool): (r: Option<X>)
    ensures r.None? <==> forall i :: 0 <= i < |xs| ==> !p(xs[i])
    ensures r.Some? ==> exists i :: 0 <= i < |xs| && xs[i] == r.value && p(xs[i]) &&
                                    forall j :: 0 <= j < i ==> !p(xs[j])
  {
    if |xs| == 0 then None
    else if p(xs[0]) then Some(xs[0])
    else
      var r := Find(xs[1..], p);
      assert r.Some? ==> exists i :: 0 <= i < |xs| - 1 && xs[1..][i] == r.value && p(xs[1..][i]) &&
                                     forall j :: 0 <= j < i ==> !p(xs[1..][j]);
      r
  }
}
