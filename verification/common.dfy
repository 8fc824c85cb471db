/** Values shared by every layer of the event-planning model: Python's optional
    strings, the domain errors, and the two ways an operation can report an outcome. */
module Common {

  datatype Option<+T> = None | Some(value: T)

  /** A Python argument of type `str | None`. */
  type Text = Option<string>

  /** Python truthiness of a `str | None`: `not value` holds exactly for `None` and `""`. */
  predicate Truthy(v: Text) {
    v.Some? && |v.value| > 0
  }

  /** The exceptions the core raises. The setters' `ValueError`s are told apart by the
      field they guard; `MalformedDate` stands for `strptime` refusing its input. */
  datatype Error =
    | EmptyEventName
    | EmptyEventDate
    | NegativeBudget
    | EmptyParticipantName
    | EmptySpeakerName
    | EmptyVendorName
    | EmptyFeedbackContent
    | MalformedDate
    | InvalidEventId
    | EventNotFound
    | ListenerFailed

  /** The outcome of a validating constructor or setter: the entity, or the raised error. */
  datatype Result<+T> = Ok(value: T) | Err(error: Error)

  /** What a service call hands back to its caller: a value, Python's `None` for a
      record that does not exist, or an exception. */
  datatype Reply<+T> = Done(value: T) | Missing | Raised(error: Error)

  /** Python's `int(x)` on a float: truncation toward zero. */
  function Truncate(x: real): (n: int)
    ensures x >= 0.0 ==> n as real <= x < n as real + 1.0
    ensures x < 0.0 ==> n as real - 1.0 < x <= n as real
  {
    if x >= 0.0 then x.Floor else -((-x).Floor)
  }
}
