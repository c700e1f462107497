/** `POST /api/download`: renders the document as a PDF and returns it as an attachment. */
module DownloadRoute {
  import opened Wrappers
  import opened JsText
  import opened Http
  import opened PdfExport

  /**
   * The JSON request body: a member that is absent, `undefined` or `null`
   * is `None`; members of another JSON type are not modelled.
   */
  datatype DownloadBody = DownloadBody(content: Option<string>, title: Option<string>)

  const MissingContent: string := "Missing document content"
  const PdfFailed: string := "Failed to generate PDF"

  /**
   * The handler over the body (`None` when it is not JSON or is `null`) and the
   * renderer: no content is a 400, a failure is a 500, and otherwise the
   * rendered bytes go out under the sanitised file name.
   */
  function DownloadResponse(body: Option<DownloadBody>, render: PdfLayout -> Option<seq<seq<byte>>>): (r: Response)
    ensures body.Some? && !Truthy(body.value.content) ==> r == Error(400, MissingContent)
    ensures r.PdfFile? <==> body.Some? && Truthy(body.value.content)
                            && render(Layout(body.value.title, body.value.content.value)).Some?
    ensures r.PdfFile? ==>
      && r.filename == AttachmentFilename(body.value.title)
      && r.bytes == Concat(render(Layout(body.value.title, body.value.content.value)).value)
    ensures !r.PdfFile? && r != Error(400, MissingContent) ==> r == Error(500, PdfFailed)
  {
    match body
    case None => Error(500, PdfFailed)
    case Some(b) =>
      if !Truthy(b.content) then Error(400, MissingContent)
      else match render(Layout(b.title, b.content.value))
        case None => Error(500, PdfFailed)
        case Some(chunks) => PdfFile(Concat(chunks), AttachmentFilename(b.title))
  }

  /** `POST`, gathering the renderer's chunks through the data handler. */
  method Post(body: Option<DownloadBody>, render: PdfLayout -> Option<seq<seq<byte>>>) returns (r: Response)
    ensures r == DownloadResponse(body, render)
  {
    if body.None? {
      return Error(500, PdfFailed);
    }
    var b := body.value;
    if !Truthy(b.content) {
      return Error(400, MissingContent);
    }
    var emitted := render(Layout(b.title, b.content.value));
    if emitted.None? {
      return Error(500, PdfFailed);
    }
    var bytes := CollectChunks(emitted.value);
    r := PdfFile(bytes, AttachmentFilename(b.title));
  }
}
