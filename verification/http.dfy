/**
 What a request handler produces. A handler's socket writes are modelled
 as returned responses: a status line with its body. A handler either
 answers, or raises an exception that escapes it, after possibly having
 written responses already.
 */
module Http {
  import opened Values

  datatype Body =
    | NoBody
    | JsonBody(value: Json)
    /** `{"error": message}` followed by a newline. */
    | ErrorBody(message: string)

  datatype Response = Response(status: int, body: Body)

  datatype Reply =
    | Answer(response: Response)
    | Raise(written: seq<Response>)

  function Failure(status: int, message: string): Response {
    Response(status, ErrorBody(message))
  }

  /** The error both body readers answer with status 411. */
  const ContentLengthRequired := "Content length is required."

  /** How reading `Content-Length` bytes of the request body went: the read
      raised `KeyError`, the length or the UTF-8 decoding raised `ValueError`,
      something else raised, or the text was read. The headers of
      `http.server` answer `None` for a missing header rather than raising
      `KeyError`, so a request without `Content-Length` is `ReadOtherError`:
      `int(None)` raises `TypeError`. */
  datatype ReadOutcome =
    | ReadKeyError
    | ReadValueError
    | ReadOtherError
    | ReadText(text: string)
}
