/** The responses the route handlers return. */
module Http {
  import opened Wrappers

  /** One octet of a binary body. */
  newtype byte = x: int | 0 <= x < 256

  /** The JSON objects the handlers put in a body. */
  datatype JsonBody =
    | ErrorBody(error: string)
    | SentBody(message: string, messageId: Option<string>)

  datatype Response =
    | JsonResponse(status: nat, body: JsonBody)
      /** A 200 response with a `text/plain` body. */
    | PlainText(text: string)
      /** A 200 `text/event-stream` response, given as the frames written to it in order. */
    | EventStream(frames: seq<string>)
      /** A 200 `application/pdf` response sent as an attachment named `filename`. */
    | PdfFile(bytes: seq<byte>, filename: string)

  function Error(status: nat, message: string): Response {
    JsonResponse(status, ErrorBody(message))
  }

  /** What an AI route hands back: its response, and the prompt it sent to the provider if it made a request. */
  datatype Outcome = Outcome(response: Response, sent: Option<string>)
}
