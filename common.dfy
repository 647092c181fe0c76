/** Value wrappers shared by every module of the model. */
module Common {
  /** A value that may be absent: a Java `null` or a JavaScript `undefined`. */
  datatype Option<T> = None | Some(value: T)

  /**
   * The outcome of a service call: a value, or the exception the Java code
   * throws (the message identifies which guard fired).
   */
  datatype Result<T> = Success(value: T) | Failure(error: string)

  /**
   * Instants (`LocalDateTime.now()`), passed in by the caller, counted in
   * whole seconds on one time line.
   */
  type Instant = int

  /** Opaque calendar days (`LocalDate.now()`), passed in by the caller. */
  type Day = int

  /** `x` when present, `d` otherwise. */
  function OrElse<T>(o: Option<T>, d: T): (r: T)
    ensures o.Some? ==> r == o.value
    ensures o.None? ==> r == d
  {
    if o.Some? then o.value else d
  }
}
