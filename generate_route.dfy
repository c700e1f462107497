/**
 * `POST /api/generate`: looks up the template, builds the prompt from the
 * questionnaire answers, and either relays the provider's stream as
 * server-sent events (when the client accepts `text/event-stream`) or
 * returns the generated text in one plain-text response.
 */
module GenerateRoute {
  import opened Wrappers
  import opened JsText
  import opened Templates
  import opened Provider
  import opened Http
  import opened SseRelay

  /**
   * The JSON request body: a member that is absent, `undefined` or `null`
   * is `None`; members of another JSON type are not modelled.
   */
  datatype GenerateBody = GenerateBody(templateId: Option<string>, answers: Option<map<string, string>>)

  /**
   * The request: `body` is `None` when it is not JSON or is `null`
   * (destructuring it throws), and a primitive body such as `5` has
   * every member `None`; `accept` is the Accept header.
   */
  datatype GenerateRequest = GenerateRequest(body: Option<GenerateBody>, accept: Option<string>)

  const GenerateFailed: string := "Failed to generate document"
  const TemplateNotFound: string := "Template not found"
  const NoValidResponse: string := "No valid response from the AI model"

  /** `answers[q.id] || 'N/A'`. */
  function AnswerText(answers: map<string, string>, id: string): (r: string)
    ensures r != ""
    ensures id in answers && answers[id] != "" ==> r == answers[id]
    ensures id !in answers || answers[id] == "" ==> r == "N/A"
  {
    if id in answers && answers[id] != "" then answers[id] else "N/A"
  }

  /** The prompt line of one question: `<question>: <answer>`. */
  function QuestionLine(q: Question, answers: map<string, string>): string {
    q.question + ": " + AnswerText(answers, q.id)
  }

  /** One line per question, in questionnaire order. */
  function QuestionLines(qs: seq<Question>, answers: map<string, string>): (r: seq<string>)
    ensures |r| == |qs|
    ensures forall i :: 0 <= i < |qs| ==> r[i] == QuestionLine(qs[i], answers)
  {
    seq(|qs|, i requires 0 <= i < |qs| => QuestionLine(qs[i], answers))
  }

  /** The answers block: the question lines joined by line feeds. */
  function QuestionBlock(qs: seq<Question>, answers: map<string, string>): string {
    Join(QuestionLines(qs, answers), "\n")
  }

  const HeadLead: string := "You are an expert legal document writer. Generate a "
  const HeadTrail: string := " based on the following information:\n\n"

  function PromptHead(name: string): string {
    HeadLead + name + HeadTrail
  }

  function PromptTail(name: string): string {
    "\n\nCreate a comprehensive, well-structured document that is professional and legally sound. \n"
    + "Use clear, concise language and proper legal terminology.\n"
    + "Format the document with proper sections, numbering, and hierarchical structure.\n"
    + "Include all necessary clauses and provisions typically found in a " + name + "."
  }

  /** The generation prompt for a template and its answers. */
  function Prompt(t: Template, answers: map<string, string>): string {
    PromptHead(t.name) + QuestionBlock(t.questions, answers) + PromptTail(t.name)
  }

  /** A piece stands in any concatenation of five pieces in which it is the second. */
  lemma SecondOfFive(a: string, b: string, c: string, d: string, e: string)
    ensures Occurs(b, a + b + c + d + e)
  {
    OccursInConcat(a, b, c + d + e);
    assert a + b + c + d + e == a + b + (c + d + e);
  }

  /** The template's name appears in the prompt. */
  lemma PromptNamesTemplate(t: Template, answers: map<string, string>)
    ensures Occurs(t.name, Prompt(t, answers))
  {
    SecondOfFive(HeadLead, t.name, HeadTrail, QuestionBlock(t.questions, answers), PromptTail(t.name));
  }

  /** Every question's line appears in the prompt. */
  lemma PromptHasQuestionLine(t: Template, answers: map<string, string>, i: nat)
    requires i < |t.questions|
    ensures Occurs(QuestionLine(t.questions[i], answers), Prompt(t, answers))
  {
    var lines := QuestionLines(t.questions, answers);
    PieceOccursInJoin(lines, "\n", i);
    OccursInConcat(PromptHead(t.name), QuestionBlock(t.questions, answers), PromptTail(t.name));
    OccursTrans(lines[i], QuestionBlock(t.questions, answers), Prompt(t, answers));
  }

  /**
   * When no question text or answer holds a line feed, splitting the
   * answers block at line feeds gives back exactly one line per question,
   * in questionnaire order.
   */
  lemma QuestionBlockLines(qs: seq<Question>, answers: map<string, string>)
    requires |qs| >= 1
    requires forall i :: 0 <= i < |qs| ==> '\n' !in qs[i].question
    requires forall id :: id in answers ==> '\n' !in answers[id]
    ensures Split(QuestionBlock(qs, answers), '\n') == QuestionLines(qs, answers)
  {
    var lines := QuestionLines(qs, answers);
    forall k | 0 <= k < |lines| ensures '\n' !in lines[k] {
      var a := AnswerText(answers, qs[k].id);
      assert '\n' !in a by {
        if a == "N/A" {
        } else {
          assert a == answers[qs[k].id];
        }
      }
      assert lines[k] == qs[k].question + ": " + a;
    }
    SplitJoin(lines, '\n');
  }

  /**
   * A concrete reading: for terms of service answered only with the company
   * name "Acme", the prompt carries that answer after the first question and
   * `N/A` after the data-collection question.
   */
  lemma AcmePrompt()
    ensures var a := map["companyName" := "Acme"];
      && TermsOfService.questions[0].question == "What is your company's legal name?"
      && TermsOfService.questions[3].question == "Do you collect user data?"
      && Occurs(TermsOfService.questions[0].question + ": " + "Acme", Prompt(TermsOfService, a))
      && Occurs(TermsOfService.questions[3].question + ": " + "N/A", Prompt(TermsOfService, a))
  {
    var a := map["companyName" := "Acme"];
    PromptHasQuestionLine(TermsOfService, a, 0);
    PromptHasQuestionLine(TermsOfService, a, 3);
    assert AnswerText(a, TermsOfService.questions[0].id) == "Acme";
    assert AnswerText(a, TermsOfService.questions[3].id) == "N/A";
  }

  /** The client asked for a stream: the Accept header contains `text/event-stream`. */
  predicate WantsStream(accept: Option<string>) {
    accept.Some? && Includes(accept.value, "text/event-stream")
  }

  /**
   * The non-streaming branch: a provider failure, a non-ok status, a body
   * that is not JSON, or no candidates give a 500 carrying the error's
   * message; otherwise the first candidate's text, or an empty body.
   */
  function BlockingResponse(reply: BlockingReply): (r: Response)
    ensures r.PlainText? <==> reply.BlockingReply? && reply.ok && reply.payload.Json?
                              && reply.payload.candidates.Some? && |reply.payload.candidates.value| > 0
    ensures reply.BlockingReply? && !reply.ok ==>
      r == Error(500, "Google API error: " + NatToString(reply.status) + " - " + reply.statusText)
    ensures r.PlainText? ==> r.text == FirstPartText(reply.payload.candidates.value).GetOr("")
  {
    match reply
    case BlockingUnreachable(m) => Error(500, m)
    case BlockingReply(ok, status, statusText, payload) =>
      if !ok then Error(500, "Google API error: " + NatToString(status) + " - " + statusText)
      else match payload
        case NotJson(m) => Error(500, m)
        case Json(cands) =>
          if cands.None? || |cands.value| == 0 then Error(500, NoValidResponse)
          else PlainText(FirstPartText(cands.value).GetOr(""))
  }

  /** The part of the handler before any provider call: an early error response, or the prompt. */
  datatype Prepared = Reject(response: Response) | Ready(prompt: string)

  /**
   * Reading the body and building the prompt: a body that cannot be read
   * fails with the outer error; an unknown template is a 404; a known one
   * without answers fails when the prompt reads the first answer.
   */
  function Prepare(body: Option<GenerateBody>): (p: Prepared)
    ensures p.Ready? <==> body.Some? && body.value.templateId.Some? && body.value.templateId.value in Catalogue
                          && (body.value.answers.Some? || |Catalogue[body.value.templateId.value].questions| == 0)
    ensures p.Ready? ==> p.prompt == Prompt(Catalogue[body.value.templateId.value], body.value.answers.GetOr(map[]))
  {
    match body
    case None => Reject(Error(500, GenerateFailed))
    case Some(b) =>
      var template := if b.templateId.Some? then GetTemplate(b.templateId.value) else None;
      if template.None? then Reject(Error(404, TemplateNotFound))
      else if b.answers.None? && |template.value.questions| > 0 then Reject(Error(500, GenerateFailed))
      else Ready(Prompt(template.value, b.answers.GetOr(map[])))
  }

  /**
   * The handler. The inputs that come from outside are the configured key,
   * the replies the two provider endpoints would give, and the two oracles
   * of the relay.
   */
  function Handle(req: GenerateRequest, apiKey: Option<string>, streamReply: StreamReply, blockingReply: BlockingReply,
                  parse: string -> Option<string>, quote: string -> string): Outcome
  {
    match Prepare(req.body)
    case Reject(r) => Outcome(r, None)
    case Ready(prompt) =>
      if WantsStream(req.accept) then
        Outcome(StreamResponse(apiKey, streamReply, parse, quote, GenerateFailed),
                if HasApiKey(apiKey) then Some(prompt) else None)
      else Outcome(BlockingResponse(blockingReply), Some(prompt))
  }

  /** `POST`, running the relay loop on the streaming branch. */
  method Post(req: GenerateRequest, apiKey: Option<string>, streamReply: StreamReply, blockingReply: BlockingReply,
              parse: string -> Option<string>, quote: string -> string) returns (o: Outcome)
    ensures o == Handle(req, apiKey, streamReply, blockingReply, parse, quote)
  {
    var p := Prepare(req.body);
    if p.Reject? {
      return Outcome(p.response, None);
    }
    if WantsStream(req.accept) {
      var r := Stream(apiKey, streamReply, parse, quote, GenerateFailed);
      o := Outcome(r, if HasApiKey(apiKey) then Some(p.prompt) else None);
    } else {
      o := Outcome(BlockingResponse(blockingReply), Some(p.prompt));
    }
  }

  /** An unknown or missing template id gives 404 and no provider request. */
  lemma UnknownTemplateIs404(req: GenerateRequest, apiKey: Option<string>, sr: StreamReply, br: BlockingReply,
                             parse: string -> Option<string>, quote: string -> string)
    requires req.body.Some?
    requires req.body.value.templateId.None? || req.body.value.templateId.value !in Catalogue
    ensures Handle(req, apiKey, sr, br, parse, quote) == Outcome(Error(404, TemplateNotFound), None)
  {
  }

  /** For a known template with answers, the prompt sent is the one built from them. */
  lemma KnownTemplateSendsPrompt(req: GenerateRequest, apiKey: Option<string>, sr: StreamReply, br: BlockingReply,
                                 parse: string -> Option<string>, quote: string -> string)
    requires req.body.Some? && req.body.value.templateId.Some? && req.body.value.templateId.value in Catalogue
    requires req.body.value.answers.Some?
    requires !WantsStream(req.accept) || HasApiKey(apiKey)
    ensures Handle(req, apiKey, sr, br, parse, quote).sent
            == Some(Prompt(Catalogue[req.body.value.templateId.value], req.body.value.answers.value))
  {
  }

  /** Streaming without a key fails with the outer error before any request is made. */
  lemma StreamingWithoutKeyFails(req: GenerateRequest, apiKey: Option<string>, sr: StreamReply, br: BlockingReply,
                                 parse: string -> Option<string>, quote: string -> string)
    requires req.body.Some? && req.body.value.templateId.Some? && req.body.value.templateId.value in Catalogue
    requires WantsStream(req.accept) && !HasApiKey(apiKey)
    ensures Handle(req, apiKey, sr, br, parse, quote) == Outcome(Error(500, GenerateFailed), None)
  {
  }

  /** In streaming mode a relayable reply is answered with exactly the relay's frames. */
  lemma StreamingRelaysFrames(req: GenerateRequest, apiKey: Option<string>, sr: StreamReply, br: BlockingReply,
                              parse: string -> Option<string>, quote: string -> string)
    requires req.body.Some? && req.body.value.templateId.Some? && req.body.value.templateId.value in Catalogue
    requires req.body.value.answers.Some?
    requires WantsStream(req.accept) && HasApiKey(apiKey) && Relayable(sr)
    ensures Handle(req, apiKey, sr, br, parse, quote).response == EventStream(StreamFrames(sr.body.value, parse, quote))
  {
  }

  /** A non-streaming reply with candidates but no text is a 200 with an empty body. */
  lemma BlockingWithoutTextIsEmpty(br: BlockingReply)
    requires br.BlockingReply? && br.ok && br.payload.Json? && br.payload.candidates.Some?
    requires |br.payload.candidates.value| > 0 && FirstPartText(br.payload.candidates.value).None?
    ensures BlockingResponse(br) == PlainText("")
  {
  }

  /** A non-streaming reply without candidates is a 500 naming the missing response. */
  lemma BlockingWithoutCandidatesFails(br: BlockingReply)
    requires br.BlockingReply? && br.ok && br.payload.Json?
    requires br.payload.candidates.None? || |br.payload.candidates.value| == 0
    ensures BlockingResponse(br) == Error(500, NoValidResponse)
  {
  }
}
