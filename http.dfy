/**
 * What a `fetch` to the backend can come back with, as seen by the form
 * handlers and the auth guard. The server is not part of the model: each
 * handler receives the reply it would get as an input.
 */
module Http {
  import opened Wrappers

  /**
   * The outcome of `await res.json()`: a body that is not JSON (the call
   * throws), the JSON literal `null`, or an object whose fields the caller
   * reads, abstracted as `T`.
   */
  datatype JsonBody<T> = Unparseable | Null | Object(fields: T)

  /**
   * A completed response (`res.ok` and its body), or a `fetch` that threw
   * (network failure) with the message of the thrown error.
   */
  datatype Reply<T> = Response(ok: bool, body: JsonBody<T>) | NetworkError(message: string)

  /** The `message` field the forgot- and reset-password endpoints may return. */
  datatype MessageFields = MessageFields(message: Option<string>)
}
