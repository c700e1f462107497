/**
 * The chat editor beside a document: a message log that starts with one
 * greeting, an input line, a loading flag and the last error. A submit is
 * split at its one `await`: `Submit` is what happens before the edit
 * request is sent, `Complete` what happens once its reply is in.
 */
module ChatEditor {
  import opened Wrappers
  import opened JsText

  datatype Role = User | Assistant
  datatype Message = Message(role: Role, content: string)

  const Greeting: string :=
    "Hello! I'm your document assistant." + " Tell me what changes you'd like" + " to make to your document."
  const UpdatedNotice: string := "I've updated the document" + " based on your request."
  const EmptyReply: string := "Received empty response from AI service"
  const UnknownError: string := "Unknown error"

  /** The JSON body of the edit request: the document and the instruction. */
  datatype EditRequest = EditRequest(content: string, instruction: string)

  /** The body of a failed reply as the client reads it: not JSON, or JSON with an optional `error`. */
  datatype ErrorPayload = Unparsable | ErrorJson(error: Option<string>)

  /** What the edit request produces: an exception (with its message), or a reply. */
  datatype EditReply =
    | FetchThrew(message: string)
    | Replied(ok: bool, status: nat, statusText: string, errorPayload: ErrorPayload, text: string)

  /** How a submit ends: the document is replaced by `text`, or the submit failed with `message`. */
  datatype ChatResult = Updated(text: string) | Failed(message: string)

  /** The message of the error a non-ok reply raises. */
  function StatusError(status: nat, statusText: string, payload: ErrorPayload): (r: string)
    ensures payload.Unparsable? ==> r == UnknownError
    ensures payload.ErrorJson? && Truthy(payload.error) ==> r == payload.error.value
    ensures payload.ErrorJson? && !Truthy(payload.error) ==> r == "Error " + NatToString(status) + ": " + statusText
  {
    match payload
    case Unparsable => UnknownError
    case ErrorJson(e) => if Truthy(e) then e.value else "Error " + NatToString(status) + ": " + statusText
  }

  /** The result of the reply: an update only for an ok reply whose text is not blank. */
  function ResultOf(reply: EditReply): (r: ChatResult)
    ensures r.Updated? <==> reply.Replied? && reply.ok && Trim(reply.text) != ""
    ensures r.Updated? ==> r.text == reply.text
    ensures reply.FetchThrew? ==> r == Failed(reply.message)
    ensures reply.Replied? && reply.ok && Trim(reply.text) == "" ==> r == Failed(EmptyReply)
    ensures reply.Replied? && !reply.ok ==> r == Failed(StatusError(reply.status, reply.statusText, reply.errorPayload))
  {
    match reply
    case FetchThrew(m) => Failed(m)
    case Replied(ok, status, statusText, payload, text) =>
      if !ok then Failed(StatusError(status, statusText, payload))
      else if Trim(text) == "" then Failed(EmptyReply)
      else Updated(text)
  }

  /** A reply that is empty or only white space takes the error path. */
  lemma BlankReplyFails(status: nat, statusText: string, payload: ErrorPayload, text: string)
    requires IsBlank(text)
    ensures ResultOf(Replied(true, status, statusText, payload, text)) == Failed(EmptyReply)
  {
    TrimEmptyIffBlank(text);
  }

  function Apology(message: string): string {
    "Sorry, I encountered an error: " + message + ". Please try again or simplify your request."
  }

  /** The assistant's message for a result. */
  function AssistantReply(r: ChatResult): (m: Message)
    ensures m.role == Assistant
    ensures m.content == (if r.Updated? then UpdatedNotice else Apology(r.message))
  {
    Message(Assistant, if r.Updated? then UpdatedNotice else Apology(r.message))
  }

  /** The success notice is never an apology, so the log tells the two outcomes apart. */
  lemma NoticeIsNotApology(message: string)
    ensures UpdatedNotice != Apology(message)
  {
    assert UpdatedNotice[0] == 'I';
    assert Apology(message)[0] == 'S';
  }

  class ChatEditor {
    var messages: seq<Message>
    var input: string
    var isLoading: bool
    var errorMessage: string

    /** The log starts with the greeting and nothing else. */
    ghost predicate Valid()
      reads this
    {
      |messages| >= 1 && messages[0] == Message(Assistant, Greeting)
    }

    constructor ()
      ensures Valid() && messages == [Message(Assistant, Greeting)]
      ensures input == "" && !isLoading && errorMessage == ""
    {
      messages := [Message(Assistant, Greeting)];
      input := "";
      isLoading := false;
      errorMessage := "";
    }

    /** Typing into the input, or picking a suggestion. */
    method SetInput(text: string)
      modifies this
      ensures input == text
      ensures messages == old(messages) && isLoading == old(isLoading) && errorMessage == old(errorMessage)
    {
      input := text;
    }

    /**
     * `handleSubmit` up to the request: a blank input, or a submit while a
     * request is pending, changes nothing and sends nothing. Otherwise the
     * input and the error are cleared, the input as typed is logged as the
     * user's message, loading starts, and the edit request is returned.
     * The test `!input.trim()` is `IsBlank` (see `TrimEmptyIffBlank`).
     */
    method Submit(documentContent: string) returns (request: Option<EditRequest>)
      requires Valid()
      modifies this
      ensures Valid()
      ensures request.None? <==> IsBlank(old(input)) || old(isLoading)
      ensures request.None? ==>
        messages == old(messages) && input == old(input) && isLoading == old(isLoading) && errorMessage == old(errorMessage)
      ensures request.Some? ==>
        && request.value == EditRequest(documentContent, old(input))
        && input == "" && errorMessage == "" && isLoading
        && messages == old(messages) + [Message(User, old(input))]
    {
      if IsBlank(input) || isLoading {
        return None;
      }
      var userMessage := input;
      var log := messages;
      messages := log + [Message(User, userMessage)];
      assert messages[0] == log[0];
      input, errorMessage, isLoading := "", "", true;
      request := Some(EditRequest(documentContent, userMessage));
    }

    /**
     * `handleSubmit` after the reply: exactly one assistant message is
     * logged, the error is set on failure, the new document text is
     * returned on success, and loading ends either way.
     */
    method Complete(reply: EditReply) returns (update: Option<string>)
      requires Valid() && isLoading
      modifies this
      ensures Valid()
      ensures messages == old(messages) + [AssistantReply(ResultOf(reply))]
      ensures !isLoading && input == old(input)
      ensures update.Some? <==> ResultOf(reply).Updated?
      ensures update.Some? ==> update.value == reply.text && errorMessage == old(errorMessage)
      ensures update.None? ==> errorMessage == ResultOf(reply).message
    {
      var result := ResultOf(reply);
      if result.Updated? {
        messages := messages + [Message(Assistant, UpdatedNotice)];
        update := Some(result.text);
      } else {
        errorMessage := result.message;
        messages := messages + [Message(Assistant, Apology(result.message))];
        update := None;
      }
      isLoading := false;
    }
  }
}
