/** Shapes shared by the route handlers: an optional request field and the
    reply a handler sends (a JSON body, or an HTTP error status with the
    `error` text of the JSON error body). */
module Replies {

  datatype Option<+T> = None | Some(value: T)

  datatype Reply<+T> = Ok(value: T) | Fail(status: nat, error: string)

  /** What the client of a handler receives: the reply it sends, or nothing
      when the handler fails before sending one. */
  datatype Outcome<+T> = Answered(reply: Reply<T>) | Unanswered

  /** JavaScript truthiness of an optional string field: absent and "" are falsy. */
  predicate Given(field: Option<string>) {
    field.Some? && field.value != ""
  }
}
