/** What one POST to the language-model server's generate endpoint can come
    back as, from the point of view of the services that call it. The HTTP
    exchange itself is not modelled: its outcome is an input. */
module Ollama {
  import opened Wrappers

  /** The reply body as `response.json()` sees it: a JSON object, with the
      string under its `response` key when that key is present, or anything
      else (not JSON, or not an object), on which `.json().get(...)` raises. */
  datatype Body = Object(response: Option<string>) | NotObject

  /** A reply with its status code, or an exception raised by the client
      (connection error, timeout). */
  datatype Outcome = Replied(status: int, body: Body) | Raised
}
