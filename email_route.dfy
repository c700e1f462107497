/**
 * `POST /api/email`: renders the document as a PDF and sends it as an
 * e-mail attachment. The mail service is the input `send`, which is given
 * the message and answers with an error, an id, or an exception.
 */
module EmailRoute {
  import opened Wrappers
  import opened JsText
  import opened Http
  import opened PdfExport

  /**
   * The JSON request body: a member that is absent, `undefined` or `null`
   * is `None`; members of another JSON type are not modelled.
   */
  datatype EmailBody = EmailBody(email: Option<string>, content: Option<string>, title: Option<string>)

  /** The message handed to the mail service; the attachment is the PDF before its base64 encoding. */
  datatype Email = Email(from: string, to: string, subject: string, text: string,
                         attachmentName: string, attachment: seq<byte>)

  /** The mail service's answer: an exception, a reported error, or the sent message's id if any. */
  datatype SendReply = SendThrew | SendError | SendOk(id: Option<string>)

  const MissingFields: string := "Missing required fields"
  const SendFailed: string := "Failed to send email"
  const ProcessFailed: string := "Failed to process request"
  const SentMessage: string := "Email sent successfully"
  const DefaultSender: string := "docs@paperfix.com"

  /** The subject line: names the title when one is given. */
  function Subject(title: Option<string>): string {
    if Truthy(title) then "Your Document: " + title.value else "Your Generated Document"
  }

  /** The plain-text body: names the title after a colon when one is given. */
  function MailText(title: Option<string>): string {
    "Attached is your document" + (if Truthy(title) then ": " + title.value else "") + ". Thank you for using our service."
  }

  /** The subject and the text both carry a given title. */
  lemma TitleInSubjectAndText(title: string)
    requires title != ""
    ensures Occurs(title, Subject(Some(title))) && Occurs(title, MailText(Some(title)))
  {
    OccursInConcat("Your Document: ", title, "");
    assert "Your Document: " + title + "" == Subject(Some(title));
    OccursInConcat("Attached is your document: ", title, ". Thank you for using our service.");
    assert "Attached is your document: " + title + ". Thank you for using our service." == MailText(Some(title));
  }

  /** The sender: `Document Generator <address>`, with the configured address or the default. */
  function Sender(fromEnv: Option<string>): string {
    "Document Generator <" + (if Truthy(fromEnv) then fromEnv.value else DefaultSender) + ">"
  }

  /** The message built for a request with recipient `to`, from the PDF bytes `pdf`. */
  function Compose(to: string, title: Option<string>, pdf: seq<byte>, fromEnv: Option<string>): Email {
    Email(Sender(fromEnv), to, Subject(title), MailText(title), AttachmentFilename(title), pdf)
  }

  /**
   * The handler's outcome over the body, the renderer and the mail service:
   * the response, and the message sent if one was handed to the service.
   */
  datatype MailOutcome = MailOutcome(response: Response, sent: Option<Email>)

  function Handle(body: Option<EmailBody>, render: PdfLayout -> Option<seq<seq<byte>>>, send: Email -> SendReply,
                  fromEnv: Option<string>): (o: MailOutcome)
    ensures body.Some? && (!Truthy(body.value.email) || !Truthy(body.value.content)) ==>
      o == MailOutcome(Error(400, MissingFields), None)
    ensures o.sent.Some? ==>
      && body.Some? && Truthy(body.value.email) && Truthy(body.value.content)
      && render(Layout(body.value.title, body.value.content.value)).Some?
      && o.sent.value == Compose(body.value.email.value, body.value.title,
                                 Concat(render(Layout(body.value.title, body.value.content.value)).value), fromEnv)
    ensures (body.Some? && Truthy(body.value.email) && Truthy(body.value.content)
             && render(Layout(body.value.title, body.value.content.value)).Some?) ==> o.sent.Some?
    ensures (o.response.JsonResponse? && o.response.body.SentBody?) <==> o.sent.Some? && send(o.sent.value).SendOk?
    ensures o.sent.Some? && send(o.sent.value) == SendThrew ==> o.response == Error(500, ProcessFailed)
    // A body that is not JSON, or a PDF that cannot be rendered, fails before anything is sent.
    ensures body.None? ==> o == MailOutcome(Error(500, ProcessFailed), None)
    ensures (body.Some? && Truthy(body.value.email) && Truthy(body.value.content)
             && render(Layout(body.value.title, body.value.content.value)).None?) ==>
      o == MailOutcome(Error(500, ProcessFailed), None)
  {
    match body
    case None => MailOutcome(Error(500, ProcessFailed), None)
    case Some(b) =>
      if !Truthy(b.email) || !Truthy(b.content) then MailOutcome(Error(400, MissingFields), None)
      else match render(Layout(b.title, b.content.value))
        case None => MailOutcome(Error(500, ProcessFailed), None)
        case Some(chunks) =>
          var mail := Compose(b.email.value, b.title, Concat(chunks), fromEnv);
          match send(mail)
          case SendThrew => MailOutcome(Error(500, ProcessFailed), Some(mail))
          case SendError => MailOutcome(Error(500, SendFailed), Some(mail))
          case SendOk(id) => MailOutcome(JsonResponse(200, SentBody(SentMessage, id)), Some(mail))
  }

  /** `POST`, gathering the renderer's chunks through the data handler before sending. */
  method Post(body: Option<EmailBody>, render: PdfLayout -> Option<seq<seq<byte>>>, send: Email -> SendReply,
              fromEnv: Option<string>) returns (o: MailOutcome)
    ensures o == Handle(body, render, send, fromEnv)
  {
    if body.None? {
      return MailOutcome(Error(500, ProcessFailed), None);
    }
    var b := body.value;
    if !Truthy(b.email) || !Truthy(b.content) {
      return MailOutcome(Error(400, MissingFields), None);
    }
    var emitted := render(Layout(b.title, b.content.value));
    if emitted.None? {
      return MailOutcome(Error(500, ProcessFailed), None);
    }
    var pdf := CollectChunks(emitted.value);
    var mail := Compose(b.email.value, b.title, pdf, fromEnv);
    var reply := send(mail);
    match reply
    case SendThrew => o := MailOutcome(Error(500, ProcessFailed), Some(mail));
    case SendError => o := MailOutcome(Error(500, SendFailed), Some(mail));
    case SendOk(id) => o := MailOutcome(JsonResponse(200, SentBody(SentMessage, id)), Some(mail));
  }

  /** A reported send error is a 500 naming the failed send, after the message was handed over. */
  lemma SendErrorIs500(body: Option<EmailBody>, render: PdfLayout -> Option<seq<seq<byte>>>, send: Email -> SendReply,
                       fromEnv: Option<string>)
    requires Handle(body, render, send, fromEnv).sent.Some?
    requires send(Handle(body, render, send, fromEnv).sent.value) == SendError
    ensures Handle(body, render, send, fromEnv).response == Error(500, SendFailed)
  {
  }

  /** A successful send answers with the confirmation and the service's message id. */
  lemma SendOkAnswers(body: Option<EmailBody>, render: PdfLayout -> Option<seq<seq<byte>>>, send: Email -> SendReply,
                      fromEnv: Option<string>, id: Option<string>)
    requires Handle(body, render, send, fromEnv).sent.Some?
    requires send(Handle(body, render, send, fromEnv).sent.value) == SendOk(id)
    ensures Handle(body, render, send, fromEnv).response == JsonResponse(200, SentBody(SentMessage, id))
  {
  }
}
