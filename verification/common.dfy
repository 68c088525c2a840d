/** Small failure-carrying datatypes shared by the whole model. */
module Common {

  /** A value that may be missing: a DOM cell that is not there, a search that found nothing. */
  datatype Option<T> = None | Some(value: T)

  /** How an asynchronous step of the scraper ends: with a value, or with an exception that
      escapes it (a rejected promise). Failures that a step catches itself are values. */
  datatype Outcome<T> = Done(value: T) | Thrown

  function Min(a: int, b: int): (m: int)
    ensures m <= a && m <= b && (m == a || m == b)
  {
    if a <= b then a else b
  }
}
