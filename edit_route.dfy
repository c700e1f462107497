/**
 * `POST /api/edit`: checks that a document and an instruction were given,
 * places the document between delimiter lines in the prompt, and relays
 * the provider's stream or returns the edited text. Every failure,
 * including those of the non-streaming branch, ends in the one outer
 * error response.
 */
module EditRoute {
  import opened Wrappers
  import opened JsText
  import opened Provider
  import opened Http
  import opened SseRelay

  /**
   * The JSON request body: a member that is absent, `undefined` or `null`
   * is `None`; members of another JSON type are not modelled.
   */
  datatype EditBody = EditBody(content: Option<string>, instruction: Option<string>)

  /**
   * The request: `body` is `None` when it is not JSON or is `null`
   * (destructuring it throws), and a primitive body such as `5` has
   * every member `None`; `accept` is the Accept header.
   */
  datatype EditRequest = EditRequest(body: Option<EditBody>, accept: Option<string>)

  const EditFailed: string := "Failed to edit document"
  const MissingParameters: string := "Missing required parameters"

  /** `!content || !instruction`: a member is missing or the empty string. */
  predicate MissingParameter(b: EditBody) {
    b.content.None? || b.content.value == "" || b.instruction.None? || b.instruction.value == ""
  }

  const Intro: string := "You are an expert legal document editor. Here is the current document content:\n\n"
  const BeginLine: string := "---BEGIN DOCUMENT---\n"
  const EndLine: string := "\n---END DOCUMENT---\n"

  const InstructionLead: string := "\nUser instruction: "
  const ClosingText: string :=
    "\n\nProvide the complete, updated document with the requested changes. \n"
    + "Maintain the same formatting and structure unless specifically requested to change it.\n"
    + "Return ONLY the updated document content, without any explanations or additional text."

  /** The instruction in double quotes and the closing directions. */
  function Closing(instruction: string): string {
    InstructionLead + ("\"" + instruction + "\"") + ClosingText
  }

  /** The edit prompt. */
  function EditPrompt(content: string, instruction: string): string {
    Intro + BeginLine + content + EndLine + Closing(instruction)
  }

  /** In `intro + begin + body + end + rest`, each of `begin`, `body` and `end` stands at its offset. */
  lemma Delimited(intro: string, begin: string, body: string, end: string, rest: string)
    ensures var p := intro + begin + body + end + rest;
      var b := |intro| + |begin|;
      && |p| >= b + |body| + |end|
      && p[|intro|..b] == begin
      && p[b..b + |body|] == body
      && p[b + |body|..b + |body| + |end|] == end
  {
  }

  /**
   * The document stands verbatim right after the begin line and right
   * before the end line, and the instruction stands in double quotes.
   */
  lemma ContentBetweenDelimiters(content: string, instruction: string)
    ensures var p := EditPrompt(content, instruction);
      var b := |Intro| + |BeginLine|;
      && |p| >= b + |content| + |EndLine|
      && p[|Intro|..b] == BeginLine
      && p[b..b + |content|] == content
      && p[b + |content|..b + |content| + |EndLine|] == EndLine
      && Occurs("\"" + instruction + "\"", p)
  {
    Delimited(Intro, BeginLine, content, EndLine, Closing(instruction));
    var quoted := "\"" + instruction + "\"";
    OccursInConcat(InstructionLead, quoted, ClosingText);
    var p := EditPrompt(content, instruction);
    var front := Intro + BeginLine + content + EndLine;
    OccursInConcat(front, Closing(instruction), "");
    assert front + Closing(instruction) + "" == p;
    OccursTrans(quoted, Closing(instruction), p);
  }

  /** The text `data.candidates[0]?.content?.parts[0]?.text || ''` yields, or `None` where it throws. */
  function EditedText(cands: Option<seq<Candidate>>): (r: Option<string>)
    ensures cands.None? ==> r.None?
    ensures cands.Some? && |cands.value| == 0 ==> r == Some("")
  {
    match cands
    case None => None
    case Some(cs) =>
      if |cs| == 0 then Some("")
      else match cs[0].content
        case None => Some("")
        case Some(c) =>
          match c.parts
          case None => None
          case Some(ps) => Some(if |ps| == 0 then "" else ps[0].text.GetOr(""))
  }

  /** Where the extraction succeeds it agrees with the first part's text, and is empty when there is none. */
  lemma EditedTextIsFirstPart(cands: seq<Candidate>)
    requires EditedText(Some(cands)).Some?
    ensures EditedText(Some(cands)) == Some(FirstPartText(cands).GetOr(""))
  {
  }

  /** The non-streaming branch: the edited text, or the outer error wherever a step fails or throws. */
  function BlockingResponse(reply: BlockingReply): (r: Response)
    ensures r.PlainText? <==> reply.BlockingReply? && reply.ok && reply.payload.Json?
                              && EditedText(reply.payload.candidates).Some?
    ensures r.PlainText? ==> r.text == EditedText(reply.payload.candidates).value
    ensures !r.PlainText? ==> r == Error(500, EditFailed)
  {
    if reply.BlockingReply? && reply.ok && reply.payload.Json? && EditedText(reply.payload.candidates).Some?
    then PlainText(EditedText(reply.payload.candidates).value)
    else Error(500, EditFailed)
  }

  /** The part of the handler before any provider call: an early error response, or the prompt. */
  datatype Prepared = Reject(response: Response) | Ready(prompt: string)

  function Prepare(body: Option<EditBody>): (p: Prepared)
    ensures p.Ready? <==> body.Some? && !MissingParameter(body.value)
    ensures p.Ready? ==> p.prompt == EditPrompt(body.value.content.value, body.value.instruction.value)
    ensures body.Some? && MissingParameter(body.value) ==> p == Reject(Error(400, MissingParameters))
  {
    match body
    case None => Reject(Error(500, EditFailed))
    case Some(b) =>
      if MissingParameter(b) then Reject(Error(400, MissingParameters))
      else Ready(EditPrompt(b.content.value, b.instruction.value))
  }

  /** The handler, over the configured key, the two provider replies and the relay's oracles. */
  function Handle(req: EditRequest, apiKey: Option<string>, streamReply: StreamReply, blockingReply: BlockingReply,
                  parse: string -> Option<string>, quote: string -> string): Outcome
  {
    match Prepare(req.body)
    case Reject(r) => Outcome(r, None)
    case Ready(prompt) =>
      if WantsStream(req.accept) then
        Outcome(StreamResponse(apiKey, streamReply, parse, quote, EditFailed),
                if HasApiKey(apiKey) then Some(prompt) else None)
      else Outcome(BlockingResponse(blockingReply), Some(prompt))
  }

  /** The client asked for a stream: the Accept header contains `text/event-stream`. */
  predicate WantsStream(accept: Option<string>) {
    accept.Some? && Includes(accept.value, "text/event-stream")
  }

  /** `POST`, running the relay loop on the streaming branch. */
  method Post(req: EditRequest, apiKey: Option<string>, streamReply: StreamReply, blockingReply: BlockingReply,
              parse: string -> Option<string>, quote: string -> string) returns (o: Outcome)
    ensures o == Handle(req, apiKey, streamReply, blockingReply, parse, quote)
  {
    var p := Prepare(req.body);
    if p.Reject? {
      return Outcome(p.response, None);
    }
    if WantsStream(req.accept) {
      var r := Stream(apiKey, streamReply, parse, quote, EditFailed);
      o := Outcome(r, if HasApiKey(apiKey) then Some(p.prompt) else None);
    } else {
      o := Outcome(BlockingResponse(blockingReply), Some(p.prompt));
    }
  }

  /** A missing or empty document or instruction is a 400 and no provider request. */
  lemma MissingParameterIs400(req: EditRequest, apiKey: Option<string>, sr: StreamReply, br: BlockingReply,
                              parse: string -> Option<string>, quote: string -> string)
    requires req.body.Some? && MissingParameter(req.body.value)
    ensures Handle(req, apiKey, sr, br, parse, quote) == Outcome(Error(400, MissingParameters), None)
  {
  }

  /** White space is not missing: a blank instruction on a blank document still reaches the provider. */
  lemma BlankParametersPass(apiKey: Option<string>, sr: StreamReply, br: BlockingReply,
                            parse: string -> Option<string>, quote: string -> string)
    ensures Handle(EditRequest(Some(EditBody(Some(" "), Some(" "))), None), apiKey, sr, br, parse, quote).sent
            == Some(EditPrompt(" ", " "))
  {
  }

  /** A non-ok reply in the non-streaming branch is the outer error. */
  lemma BlockingNotOkFails(br: BlockingReply)
    requires br.BlockingReply? && !br.ok
    ensures BlockingResponse(br) == Error(500, EditFailed)
  {
  }

  /** An edit without text is accepted: a candidate whose content has no text is a 200 with an empty body. */
  lemma EmptyEditAccepted(br: BlockingReply)
    requires br.BlockingReply? && br.ok
    requires br.payload == Json(Some([Candidate(Some(Content(Some([Part(None)]))))]))
    ensures BlockingResponse(br) == PlainText("")
  {
  }
}
