/** Failure-carrying datatypes shared by the validators, and Python's
    truthiness test on an optional string field. */
module Results {

  /** A value that may be absent (Python's `None`). */
  datatype Option<+T> = None | Some(value: T)

  /** The outcome of a wrapper: the accepted value, or the error it raised. */
  datatype Result<+T, +E> = Ok(value: T) | Err(error: E) {

    /** True if the wrapper raised. */
    predicate IsFailure() {
      Err?
    }

    /** Passes the raised error on under another value type. */
    function PropagateFailure<U>(): Result<U, E>
      requires Err?
    {
      Err(error)
    }

    /** The accepted value. */
    function Extract(): T
      requires Ok?
    {
      value
    }
  }

  /** The outcome of a rule body: it either returns quietly or raises. */
  datatype Outcome<+E> = Pass | Fail(error: E)

  /** Python's `bool(x)` for an optional string: `None` and `""` are falsy. */
  predicate Truthy(x: Option<string>)
  {
    x.Some? && |x.value| > 0
  }

  /** Python's `not x` holds exactly for the two falsy values. */
  lemma FalsyValues(x: Option<string>)
    ensures !Truthy(x) <==> x == None || x == Some("")
  {
  }

  /** A wrapper that runs a rule and, if the rule passes, hands back its input. */
  function Accept<T, E>(input: T, rule: Outcome<E>): (r: Result<T, E>)
    ensures r.Ok? <==> rule.Pass?
    ensures r.Ok? ==> r.value == input
    ensures rule.Fail? ==> r == Err(rule.error)
  {
    match rule
    case Pass => Ok(input)
    case Fail(e) => Err(e)
  }
}
