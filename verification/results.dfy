/** Failure-carrying values shared by the parsers, the converters and the
    club analysis: an optional value, and a value-or-error result whose
    failure stands for the exception the Python code raises. */
module Results {

  datatype Option<+T> = None | Some(value: T) {
    predicate IsFailure() {
      None?
    }

    function PropagateFailure<U>(): Option<U>
      requires None?
    {
      None
    }

    function Extract(): T
      requires Some?
    {
      value
    }
  }

  datatype Result<+T, +E> = Success(value: T) | Failure(error: E) {
    predicate IsFailure() {
      Failure?
    }

    function PropagateFailure<U>(): Result<U, E>
      requires Failure?
    {
      Failure(error)
    }

    function Extract(): T
      requires Success?
    {
      value
    }
  }

  /** Applies `f` to every element in order and stops at the first failure,
      as a Python `for` loop that appends each result and lets the first
      exception escape. */
  function Collect<A, B, E>(xs: seq<A>, f: A -> Result<B, E>): (r: Result<seq<B>, E>)
    ensures r.Success? <==> forall i :: 0 <= i < |xs| ==> f(xs[i]).Success?
    ensures r.Success? ==> |r.value| == |xs|
    ensures r.Success? ==> forall i :: 0 <= i < |xs| ==> r.value[i] == f(xs[i]).value
    ensures r.Failure? ==>
              exists k :: 0 <= k < |xs| && f(xs[k]) == Failure(r.error)
                          && forall i :: 0 <= i < k ==> f(xs[i]).Success?
  {
    if |xs| == 0 then Success([])
    else
      match f(xs[0])
      case Failure(e) => Failure(e)
      case Success(b) =>
        var rest := Collect(xs[1..], f);
        if rest.Failure? then
          assert forall i :: 1 <= i < |xs| ==> xs[1..][i - 1] == xs[i];
          Failure(rest.error)
        else
          Success([b] + rest.value)
  }
}
