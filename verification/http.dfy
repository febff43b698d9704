/** The parts of the HTTP library that the clients only observe. Every
    exchange with the router is reduced to what the client code looks at:
    whether a response came back, its status code and its body text. */
module Http {

  /** The kinds of transport error the HTTP library reports: the request
      could not be sent or got no response, the body could not be read, or
      the body could not be decoded as the expected JSON. */
  datatype TransportError = SendFailed | ReadFailed | DecodeFailed

  /** An HTTP status code; the library only represents 100 through 999. */
  type StatusCode = n: int | 100 <= n <= 999 witness 200

  const OK: StatusCode := 200
  const BAD_GATEWAY: StatusCode := 502

  /** `StatusCode::is_success`: the 2xx range. */
  predicate IsSuccess(status: StatusCode) {
    200 <= status <= 299
  }

  /** A URL, kept symbolic: the router's base URL, or a reference joined
      onto another URL. Resolving a join is not part of this model. */
  datatype Url = Url(text: string) | Join(base: Url, reference: string)

  /** The body of a received response, as read by `text()`. */
  datatype Body = Text(text: string) | Unreadable(cause: TransportError)

  /** What came back for one request to a plain-text endpoint. */
  datatype Exchange =
    | NoResponse(cause: TransportError)
    | Received(status: StatusCode, body: Body)
}
