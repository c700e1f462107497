/**
 * The PDF export shared by the download and e-mail routes: what is written
 * into the document, how the bytes the renderer emits are gathered, and the
 * attachment file name. Rendering itself (fonts, margins, line breaking) is
 * the oracle `render`, which turns a layout into the data chunks it emits,
 * or `None` when it fails.
 */
module PdfExport {
  import opened Wrappers
  import opened JsText
  import opened Http

  /** A block of text written into the PDF: the centred bold title, or the body text. */
  datatype TextBlock = Heading(text: string) | BodyText(text: string)

  /** The document metadata title and the blocks written, in order. */
  datatype PdfLayout = PdfLayout(infoTitle: string, blocks: seq<TextBlock>)

  const DefaultInfoTitle: string := "Generated Document"
  const DefaultStem: string := "document"

  /** The layout of the exported document: the title heading when a title is given, then the content. */
  function Layout(title: Option<string>, content: string): (r: PdfLayout)
    ensures r.infoTitle == (if Truthy(title) then title.value else DefaultInfoTitle)
    ensures Truthy(title) ==> r.blocks == [Heading(title.value), BodyText(content)]
    ensures !Truthy(title) ==> r.blocks == [BodyText(content)]
  {
    if Truthy(title) then PdfLayout(title.value, [Heading(title.value), BodyText(content)])
    else PdfLayout(DefaultInfoTitle, [BodyText(content)])
  }

  /** The chunks joined end to end, in order (`Buffer.concat`). */
  function Concat(chunks: seq<seq<byte>>): seq<byte> {
    if chunks == [] then [] else Concat(chunks[..|chunks| - 1]) + chunks[|chunks| - 1]
  }

  /** Joining consecutive runs of chunks concatenates their joins. */
  lemma {:induction false} ConcatAppend(a: seq<seq<byte>>, b: seq<seq<byte>>)
    ensures Concat(a + b) == Concat(a) + Concat(b)
    decreases |b|
  {
    if b == [] {
      assert a + b == a;
    } else {
      ConcatAppend(a, b[..|b| - 1]);
      assert (a + b)[..|a + b| - 1] == a + b[..|b| - 1];
      assert (a + b)[|a + b| - 1] == b[|b| - 1];
    }
  }

  /** Each chunk appears in the joined bytes at the offset given by the chunks before it. */
  lemma ChunkAtOffset(chunks: seq<seq<byte>>, k: nat)
    requires k < |chunks|
    ensures var at := |Concat(chunks[..k])|;
      |Concat(chunks)| >= at + |chunks[k]| && Concat(chunks)[at..at + |chunks[k]|] == chunks[k]
  {
    assert chunks == chunks[..k] + [chunks[k]] + chunks[k + 1..];
    ConcatAppend(chunks[..k] + [chunks[k]], chunks[k + 1..]);
    ConcatAppend(chunks[..k], [chunks[k]]);
    assert [chunks[k]][..0] == [];
  }

  /**
   * The `data` and `end` handlers: every emitted chunk is pushed onto a
   * list, and at the end the list is joined into the result.
   */
  method CollectChunks(emitted: seq<seq<byte>>) returns (result: seq<byte>)
    ensures result == Concat(emitted)
  {
    var pushed: seq<seq<byte>> := [];
    var i := 0;
    while i < |emitted|
      invariant 0 <= i <= |emitted|
      invariant pushed == emitted[..i]
    {
      pushed := pushed + [emitted[i]];
      i := i + 1;
    }
    assert pushed == emitted;
    result := Concat(pushed);
  }

  /** `.replace(/[^a-z0-9]/gi, '_')`: every character other than an ASCII letter or digit becomes `_`. */
  function Sanitize(s: string): (r: string)
    ensures |r| == |s|
    ensures forall i :: 0 <= i < |s| ==> r[i] == (if IsAsciiAlnum(s[i]) then s[i] else '_')
  {
    seq(|s|, i requires 0 <= i < |s| => if IsAsciiAlnum(s[i]) then s[i] else '_')
  }

  /** The sanitised name uses only ASCII letters, digits and `_`, and keeps every letter and digit in place. */
  lemma SanitizeAlphabet(s: string)
    ensures forall i :: 0 <= i < |s| ==> IsAsciiAlnum(Sanitize(s)[i]) || Sanitize(s)[i] == '_'
    ensures forall i :: 0 <= i < |s| ==> IsAsciiAlnum(s[i]) ==> Sanitize(s)[i] == s[i]
  {
  }

  /** Sanitising twice is sanitising once. */
  lemma SanitizeIdempotent(s: string)
    ensures Sanitize(Sanitize(s)) == Sanitize(s)
  {
  }

  /** A name already made of ASCII letters and digits is left as it is. */
  lemma SanitizeFixesAlnum(s: string)
    requires forall i :: 0 <= i < |s| ==> IsAsciiAlnum(s[i])
    ensures Sanitize(s) == s
  {
  }

  /** The attachment file name: the sanitised title, or `document`, followed by `.pdf`. */
  function AttachmentFilename(title: Option<string>): (r: string)
    ensures |r| == (if Truthy(title) then |title.value| else |DefaultStem|) + 4
    ensures r[|r| - 4..] == ".pdf"
  {
    Sanitize(if Truthy(title) then title.value else DefaultStem) + ".pdf"
  }

  /**
   * The file name never holds a quote, a path separator or a control
   * character, so it cannot break out of the quoted `filename="…"` of the
   * Content-Disposition header.
   */
  lemma AttachmentFilenameIsSafe(title: Option<string>)
    ensures var r := AttachmentFilename(title);
      forall i :: 0 <= i < |r| ==> r[i] != '"' && r[i] != '/' && r[i] != '\\' && r[i] >= ' '
  {
    var r := AttachmentFilename(title);
    var stem := Sanitize(if Truthy(title) then title.value else DefaultStem);
    assert r == stem + ".pdf";
    forall i | 0 <= i < |r| ensures r[i] != '"' && r[i] != '/' && r[i] != '\\' && r[i] >= ' ' {
      if i < |stem| {
        assert r[i] == stem[i];
      } else {
        assert r[i] == ".pdf"[i - |stem|];
      }
    }
  }

  /** Without a title the attachment is `document.pdf`. */
  lemma UntitledFilename()
    ensures AttachmentFilename(None) == "document.pdf"
  {
    SanitizeFixesAlnum(DefaultStem);
  }
}
