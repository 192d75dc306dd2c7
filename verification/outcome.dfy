/** Optional values and the failures that abort a conversion. A Python
    exception raised inside a converter's row loop propagates out of the
    converter, so a conversion either yields its whole result or one error. */
module Outcome {

  datatype Option<T> = None | Some(value: T)

  /** The exceptions the converters' row loops can raise. */
  datatype Error =
    | KeyError(column: string)      // row[column] on a row without that column
    | UnpackError(value: string)    // `day, month, year = value.split("-")` without exactly three parts
    | DateError(value: string)      // datetime.strptime(value, "%d-%m-%Y") rejecting value
    | TypeError(value: string)      // abs() on a cell that is not a number, or re.sub on one that is
    | AttributeError(value: string) // a string method called on a number cell, NaN included
    | ValueError(value: string)     // float(value) on a cell that is not a number
    | UnboundLocalError(name: string) // a local read before any assignment to it

  datatype Result<T> = Ok(value: T) | Err(error: Error) {
    predicate IsFailure() { Err? }

    function PropagateFailure<U>(): Result<U>
      requires Err?
    {
      Err(error)
    }

    function Extract(): T
      requires Ok?
    {
      value
    }
  }

  /** A loop that builds one result per element, in order, and stops at the
      first element whose step raises. */
  function MapOk<A, B>(xs: seq<A>, f: (nat, A) -> Result<B>): (r: Result<seq<B>>)
    ensures r.Ok? <==> forall i :: 0 <= i < |xs| ==> f(i, xs[i]).Ok?
    ensures r.Ok? ==> |r.value| == |xs| && forall i :: 0 <= i < |xs| ==> f(i, xs[i]) == Ok(r.value[i])
    ensures r.Err? ==> exists i :: 0 <= i < |xs| && f(i, xs[i]) == Err(r.error)
                                && forall k :: 0 <= k < i ==> f(k, xs[k]).Ok?
  {
    if |xs| == 0 then Ok([]) else
    var init := xs[..|xs| - 1];
    match MapOk(init, f)
    case Err(e) => Err(e)
    case Ok(done) =>
      match f(|xs| - 1, xs[|xs| - 1])
      case Err(e) => Err(e)
      case Ok(y) => Ok(done + [y])
  }
}
