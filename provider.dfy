/**
 * What the Generative Language API sends back, as seen by the two AI
 * routes. Only the members the routes read are kept; a missing member is
 * `None`.
 */
module Provider {
  import opened Wrappers

  datatype Part = Part(text: Option<string>)
  datatype Content = Content(parts: Option<seq<Part>>)
  datatype Candidate = Candidate(content: Option<Content>)

  /** The body of a `generateContent` reply: not JSON at all, or an object with optional `candidates`. */
  datatype Payload = NotJson(message: string) | Json(candidates: Option<seq<Candidate>>)

  /** A `generateContent` call: the request failed to reach the provider, or a reply arrived. */
  datatype BlockingReply =
    | BlockingUnreachable(message: string)
    | BlockingReply(ok: bool, status: nat, statusText: string, payload: Payload)

  /**
   * The body of a `streamGenerateContent` reply: the decoded chunks in
   * arrival order, and whether the read after the last one failed instead
   * of reporting the end.
   */
  datatype ChunkStream = ChunkStream(chunks: seq<string>, readError: bool)

  /** A `streamGenerateContent` call; `body` is `None` when the reply carries no body. */
  datatype StreamReply =
    | StreamUnreachable(message: string)
    | StreamReply(ok: bool, status: nat, statusText: string, body: Option<ChunkStream>)

  /** The text of the first part of the first candidate's content, `None` wherever the chain breaks. */
  function FirstPartText(cands: seq<Candidate>): (r: Option<string>)
    ensures r.Some? <==>
      |cands| > 0 && cands[0].content.Some? && cands[0].content.value.parts.Some?
      && |cands[0].content.value.parts.value| > 0 && cands[0].content.value.parts.value[0].text.Some?
    ensures r.Some? ==> r.value == cands[0].content.value.parts.value[0].text.value
  {
    if |cands| == 0 then None
    else match cands[0].content
      case None => None
      case Some(c) =>
        match c.parts
          case None => None
          case Some(ps) => if |ps| == 0 then None else ps[0].text
  }
}
