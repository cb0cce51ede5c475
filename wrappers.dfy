/** Option and Result, the two failure-carrying values the model uses:
    Option for Python's `None`-or-value returns, Result for a raised error. */
module Wrappers {

  datatype Option<+T> = None | Some(value: T)

  datatype Result<+T, +E> = Ok(value: T) | Err(error: E)

  /** A loop that appends `f(x)` for each of the first `i` elements of `xs`
      in order, and stops with the first error `f` raises. */
  function MapAll<A, B, E>(xs: seq<A>, f: A -> Result<B, E>, i: nat): Result<seq<B>, E>
    requires i <= |xs|
  {
    if i == 0 then Ok([])
    else
      match MapAll(xs, f, i - 1)
      case Err(e) => Err(e)
      case Ok(pre) =>
        match f(xs[i - 1])
        case Err(e) => Err(e)
        case Ok(o) => Ok(pre + [o])
  }

  /** One more element: the loop goes on when it has not failed. */
  lemma MapAllStep<A, B, E>(xs: seq<A>, f: A -> Result<B, E>, i: nat, pre: seq<B>)
    requires i < |xs| && MapAll(xs, f, i) == Ok(pre)
    ensures f(xs[i]).Ok? ==> MapAll(xs, f, i + 1) == Ok(pre + [f(xs[i]).value])
    ensures f(xs[i]).Err? ==> MapAll(xs, f, i + 1) == Err(f(xs[i]).error)
  {
  }

  /** The loop succeeds exactly when `f` succeeds on every element, and
      then gives one result per element, in order; when it fails, the error
      is that of the first element `f` fails on. */
  lemma {:induction false} MapAllSpec<A, B, E>(xs: seq<A>, f: A -> Result<B, E>, i: nat)
    requires i <= |xs|
    ensures MapAll(xs, f, i).Ok? <==> forall j :: 0 <= j < i ==> f(xs[j]).Ok?
    ensures MapAll(xs, f, i).Ok? ==>
              |MapAll(xs, f, i).value| == i
              && forall j :: 0 <= j < i ==> MapAll(xs, f, i).value[j] == f(xs[j]).value
    ensures MapAll(xs, f, i).Err? ==>
              exists j :: 0 <= j < i && f(xs[j]).Err? && MapAll(xs, f, i).error == f(xs[j]).error
                && forall m :: 0 <= m < j ==> f(xs[m]).Ok?
  {
    if i > 0 {
      MapAllSpec(xs, f, i - 1);
      var r := MapAll(xs, f, i - 1);
      if r.Ok? {
        MapAllStep(xs, f, i - 1, r.value);
        if f(xs[i - 1]).Ok? {
          var out := r.value + [f(xs[i - 1]).value];
          forall j | 0 <= j < i
            ensures out[j] == f(xs[j]).value
          {
            if j < i - 1 {
              assert out[j] == r.value[j];
            }
          }
        }
      } else {
        var j :| 0 <= j < i - 1 && f(xs[j]).Err? && r.error == f(xs[j]).error
                 && forall m :: 0 <= m < j ==> f(xs[m]).Ok?;
        assert MapAll(xs, f, i) == r;
      }
    }
  }

  /** Once the loop has failed, it ends with the same error. */
  lemma {:induction false} MapAllOnceFailed<A, B, E>(xs: seq<A>, f: A -> Result<B, E>, i: nat, n: nat)
    requires i <= n <= |xs| && MapAll(xs, f, i).Err?
    ensures MapAll(xs, f, n) == MapAll(xs, f, i)
    decreases n - i
  {
    if i < n {
      MapAllOnceFailed(xs, f, i + 1, n);
    }
  }
}
