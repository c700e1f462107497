/**
 * The loop both AI routes run to turn the provider's newline-delimited JSON
 * into server-sent events (the `text/event-stream` format of section 9.2 of
 * the HTML Living Standard). Each decoded chunk is split on line feeds on
 * its own, blank lines are dropped, and every line whose extracted text is
 * non-empty becomes one `data:` event. A normal end writes a final
 * `[DONE]` event; a read error closes the stream without it.
 *
 * Parsing a line and reading `candidates[0].content.parts[0].text` is the
 * oracle `parse` (`None` when the line is not JSON or the chain breaks), and
 * the JSON string encoding of the text is the oracle `quote`.
 */
module SseRelay {
  import opened Wrappers
  import opened JsText
  import opened Provider
  import opened Http

  const DoneFrame: string := "data: [DONE]\n\n"

  /** The event that carries one piece of text: `data: {"text":<quoted>}` and a blank line. */
  function TextFrame(text: string, quote: string -> string): (r: string)
    ensures StartsWith(r, "data: {")
  {
    "data: {\"text\":" + quote(text) + "}\n\n"
  }

  /** `lines.filter(line => line.trim() !== '')`, with the test stated as "not blank" (see `TrimEmptyIffBlank`). */
  function DropBlank(lines: seq<string>): seq<string>
  {
    if lines == [] then []
    else if !IsBlank(lines[0]) then [lines[0]] + DropBlank(lines[1..])
    else DropBlank(lines[1..])
  }

  /** The lines kept are exactly the lines that are not blank, in their order. */
  lemma {:induction false} DropBlankKeepsNonBlank(lines: seq<string>)
    ensures forall l :: l in DropBlank(lines) <==> l in lines && !IsBlank(l)
  {
    if lines != [] {
      DropBlankKeepsNonBlank(lines[1..]);
      assert lines == [lines[0]] + lines[1..];
    }
  }

  /** The lines of one chunk that the loop looks at. */
  function ChunkLines(chunk: string): seq<string>
  {
    DropBlank(Split(chunk, '\n'))
  }

  /**
   * The lines the loop looks at are the pieces of the chunk between line
   * feeds whose trimmed form is not empty; none of them holds a line feed.
   */
  lemma ChunkLinesAreLines(chunk: string, l: string)
    ensures l in ChunkLines(chunk) <==> l in Split(chunk, '\n') && Trim(l) != ""
    ensures l in ChunkLines(chunk) ==> '\n' !in l
  {
    DropBlankKeepsNonBlank(Split(chunk, '\n'));
    TrimEmptyIffBlank(l);
  }

  /** What one line writes: one text event if its extracted text is non-empty, nothing otherwise. */
  function LineFrame(line: string, parse: string -> Option<string>, quote: string -> string): (r: seq<string>)
    ensures |r| <= 1
    ensures |r| == 1 <==> parse(line).Some? && parse(line).value != ""
  {
    match parse(line)
    case Some(t) => if t != "" then [TextFrame(t, quote)] else []
    case None => []
  }

  /** What a run of lines writes, line by line in order. */
  function LineFrames(lines: seq<string>, parse: string -> Option<string>, quote: string -> string): seq<string>
  {
    if lines == [] then []
    else LineFrames(lines[..|lines| - 1], parse, quote) + LineFrame(lines[|lines| - 1], parse, quote)
  }

  /** What one chunk writes: the events of its lines. */
  function ChunkFrames(chunk: string, parse: string -> Option<string>, quote: string -> string): seq<string>
  {
    LineFrames(ChunkLines(chunk), parse, quote)
  }

  /** The concatenation of `f` over a run of chunks, in order. */
  function FlatMap(chunks: seq<string>, f: string -> seq<string>): seq<string>
  {
    if chunks == [] then []
    else FlatMap(chunks[..|chunks| - 1], f) + f(chunks[|chunks| - 1])
  }

  /** What a run of chunks writes, chunk by chunk in order, before the end of the stream. */
  function ChunksFrames(chunks: seq<string>, parse: string -> Option<string>, quote: string -> string): seq<string>
  {
    FlatMap(chunks, c => ChunkFrames(c, parse, quote))
  }

  /** Everything written to the event stream, up to and including the final event if any. */
  function StreamFrames(s: ChunkStream, parse: string -> Option<string>, quote: string -> string): seq<string>
  {
    ChunksFrames(s.chunks, parse, quote) + (if s.readError then [] else [DoneFrame])
  }

  /** The body of the read loop: splits one chunk and writes the event of each line with text. */
  method RelayChunk(chunk: string, parse: string -> Option<string>, quote: string -> string) returns (out: seq<string>)
    ensures out == ChunkFrames(chunk, parse, quote)
  {
    var lines := ChunkLines(chunk);
    out := [];
    var j := 0;
    while j < |lines|
      invariant 0 <= j <= |lines|
      invariant out == LineFrames(lines[..j], parse, quote)
    {
      var text := parse(lines[j]);
      if text.Some? && text.value != "" {
        out := out + [TextFrame(text.value, quote)];
      }
      assert lines[..j + 1][..j] == lines[..j];
      j := j + 1;
    }
    assert lines[..j] == lines;
  }

  /** The read/write loop: reads each chunk, writes the events of its lines, then ends the stream. */
  method Relay(s: ChunkStream, parse: string -> Option<string>, quote: string -> string) returns (frames: seq<string>)
    ensures frames == StreamFrames(s, parse, quote)
  {
    frames := [];
    var i := 0;
    while i < |s.chunks|
      invariant 0 <= i <= |s.chunks|
      invariant frames == ChunksFrames(s.chunks[..i], parse, quote)
    {
      var out := RelayChunk(s.chunks[i], parse, quote);
      assert s.chunks[..i + 1][..i] == s.chunks[..i];
      assert ChunksFrames(s.chunks[..i + 1], parse, quote) == ChunksFrames(s.chunks[..i], parse, quote) + out;
      frames := frames + out;
      i := i + 1;
    }
    assert s.chunks[..i] == s.chunks;
    if !s.readError {
      frames := frames + [DoneFrame];
    }
  }

  /** The events of consecutive runs of lines are the events of each run, in order. */
  lemma {:induction false} LineFramesAppend(a: seq<string>, b: seq<string>, parse: string -> Option<string>, quote: string -> string)
    ensures LineFrames(a + b, parse, quote) == LineFrames(a, parse, quote) + LineFrames(b, parse, quote)
    decreases |b|
  {
    if b == [] {
      assert a + b == a;
    } else {
      var b', x := b[..|b| - 1], b[|b| - 1];
      assert (a + b)[..|a + b| - 1] == a + b';
      assert (a + b)[|a + b| - 1] == x;
      calc {
        LineFrames(a + b, parse, quote);
        LineFrames(a + b', parse, quote) + LineFrame(x, parse, quote);
        { LineFramesAppend(a, b', parse, quote); }
        (LineFrames(a, parse, quote) + LineFrames(b', parse, quote)) + LineFrame(x, parse, quote);
        LineFrames(a, parse, quote) + (LineFrames(b', parse, quote) + LineFrame(x, parse, quote));
        LineFrames(a, parse, quote) + LineFrames(b, parse, quote);
      }
    }
  }

  /** One more line adds its own events at the end. */
  lemma LineFramesSnoc(a: seq<string>, line: string, parse: string -> Option<string>, quote: string -> string)
    ensures LineFrames(a + [line], parse, quote) == LineFrames(a, parse, quote) + LineFrame(line, parse, quote)
  {
    assert (a + [line])[..|a + [line]| - 1] == a;
  }

  /** A line that does not parse, or has no text, writes nothing and does not affect the others. */
  lemma SkippedLineWritesNothing(a: seq<string>, line: string, b: seq<string>, parse: string -> Option<string>, quote: string -> string)
    requires parse(line).None? || parse(line) == Some("")
    ensures LineFrames(a + [line] + b, parse, quote) == LineFrames(a, parse, quote) + LineFrames(b, parse, quote)
  {
    assert LineFrame(line, parse, quote) == [];
    calc {
      LineFrames(a + [line] + b, parse, quote);
      { LineFramesAppend(a + [line], b, parse, quote); }
      LineFrames(a + [line], parse, quote) + LineFrames(b, parse, quote);
      { LineFramesSnoc(a, line, parse, quote); }
      LineFrames(a, parse, quote) + LineFrame(line, parse, quote) + LineFrames(b, parse, quote);
    }
  }

  /** A line with text writes exactly its one event, between the events of the lines around it. */
  lemma TextLineWritesOneFrame(a: seq<string>, line: string, b: seq<string>, parse: string -> Option<string>, quote: string -> string)
    requires parse(line).Some? && parse(line).value != ""
    ensures LineFrames(a + [line] + b, parse, quote)
         == LineFrames(a, parse, quote) + [TextFrame(parse(line).value, quote)] + LineFrames(b, parse, quote)
  {
    calc {
      LineFrames(a + [line] + b, parse, quote);
      { LineFramesAppend(a + [line], b, parse, quote); }
      LineFrames(a + [line], parse, quote) + LineFrames(b, parse, quote);
      { LineFramesSnoc(a, line, parse, quote); }
      LineFrames(a, parse, quote) + LineFrame(line, parse, quote) + LineFrames(b, parse, quote);
    }
  }

  /** Chunks are processed independently: the events of consecutive runs of chunks concatenate. */
  lemma {:induction false} FlatMapAppend(c1: seq<string>, c2: seq<string>, f: string -> seq<string>)
    ensures FlatMap(c1 + c2, f) == FlatMap(c1, f) + FlatMap(c2, f)
    decreases |c2|
  {
    if c2 == [] {
      assert c1 + c2 == c1;
    } else {
      var c2', x := c2[..|c2| - 1], c2[|c2| - 1];
      assert (c1 + c2)[..|c1 + c2| - 1] == c1 + c2';
      assert (c1 + c2)[|c1 + c2| - 1] == x;
      calc {
        FlatMap(c1 + c2, f);
        FlatMap(c1 + c2', f) + f(x);
        { FlatMapAppend(c1, c2', f); }
        (FlatMap(c1, f) + FlatMap(c2', f)) + f(x);
        FlatMap(c1, f) + (FlatMap(c2', f) + f(x));
        FlatMap(c1, f) + FlatMap(c2, f);
      }
    }
  }

  lemma ChunksFramesAppend(c1: seq<string>, c2: seq<string>, parse: string -> Option<string>, quote: string -> string)
    ensures ChunksFrames(c1 + c2, parse, quote) == ChunksFrames(c1, parse, quote) + ChunksFrames(c2, parse, quote)
  {
    FlatMapAppend(c1, c2, c => ChunkFrames(c, parse, quote));
  }

  /** Every event written for a line is a text event, which never equals the final event. */
  lemma {:induction false} LineFramesAreText(lines: seq<string>, parse: string -> Option<string>, quote: string -> string)
    ensures forall k :: 0 <= k < |LineFrames(lines, parse, quote)| ==> StartsWith(LineFrames(lines, parse, quote)[k], "data: {")
    decreases |lines|
  {
    if lines != [] {
      LineFramesAreText(lines[..|lines| - 1], parse, quote);
    }
  }

  lemma {:induction false} FlatMapKeepsPrefix(chunks: seq<string>, f: string -> seq<string>, prefix: string)
    requires forall c, k :: 0 <= k < |f(c)| ==> StartsWith(f(c)[k], prefix)
    ensures forall k :: 0 <= k < |FlatMap(chunks, f)| ==> StartsWith(FlatMap(chunks, f)[k], prefix)
    decreases |chunks|
  {
    if chunks != [] {
      FlatMapKeepsPrefix(chunks[..|chunks| - 1], f, prefix);
    }
  }

  lemma ChunksFramesAreText(chunks: seq<string>, parse: string -> Option<string>, quote: string -> string)
    ensures forall k :: 0 <= k < |ChunksFrames(chunks, parse, quote)| ==> StartsWith(ChunksFrames(chunks, parse, quote)[k], "data: {")
  {
    var f := c => ChunkFrames(c, parse, quote);
    forall c, k | 0 <= k < |f(c)| ensures StartsWith(f(c)[k], "data: {") {
      LineFramesAreText(ChunkLines(c), parse, quote);
    }
    FlatMapKeepsPrefix(chunks, f, "data: {");
  }

  /** After a normal end the final event is written exactly once, as the last event. */
  lemma DoneOnceAndLast(s: ChunkStream, parse: string -> Option<string>, quote: string -> string)
    requires !s.readError
    ensures var f := StreamFrames(s, parse, quote);
      |f| > 0 && f[|f| - 1] == DoneFrame && forall k :: 0 <= k < |f| - 1 ==> f[k] != DoneFrame
  {
    var f := StreamFrames(s, parse, quote);
    ChunksFramesAreText(s.chunks, parse, quote);
    forall k | 0 <= k < |f| - 1 ensures f[k] != DoneFrame {
      assert f[k] == ChunksFrames(s.chunks, parse, quote)[k];
      assert DoneFrame[6] == '[';
    }
  }

  /** A read error closes the stream without the final event. */
  lemma ReadErrorWritesNoDone(s: ChunkStream, parse: string -> Option<string>, quote: string -> string)
    requires s.readError
    ensures DoneFrame !in StreamFrames(s, parse, quote)
  {
    ChunksFramesAreText(s.chunks, parse, quote);
    assert DoneFrame[6] == '[';
  }

  /**
   * When the encoder never emits a raw line feed, a text event holds no line
   * feed before its closing blank line, so it is exactly one event.
   */
  lemma TextFrameIsOneEvent(text: string, quote: string -> string)
    requires forall t :: '\n' !in quote(t)
    ensures var f := TextFrame(text, quote);
      |f| >= 2 && f[|f| - 2..] == "\n\n" && forall k :: 0 <= k < |f| - 2 ==> f[k] != '\n'
  {
    var q := quote(text);
    var f := TextFrame(text, quote);
    assert '\n' !in q;
    forall k | 0 <= k < |f| - 2 ensures f[k] != '\n' {
      if 14 <= k < 14 + |q| {
        assert f[k] == q[k - 14];
      }
    }
  }

  /** A chunk that is one non-blank line without a line feed is looked at as that one line. */
  lemma SingleLineChunk(chunk: string)
    requires '\n' !in chunk && !IsBlank(chunk)
    ensures ChunkLines(chunk) == [chunk]
  {
    SplitNoSep(chunk, '\n');
    assert [chunk][1..] == [];
    assert DropBlank([chunk]) == [chunk] + DropBlank([]);
  }

  /** A run of one line writes what that line writes. */
  lemma OneLineFrames(line: string, parse: string -> Option<string>, quote: string -> string)
    ensures LineFrames([line], parse, quote) == LineFrame(line, parse, quote)
  {
    assert [line][..0] == [];
  }

  /**
   * Chunks are not reassembled: one JSON object that arrives whole writes
   * its text, while the same object split over two reads writes nothing
   * before the final event.
   */
  lemma SplitObjectIsLost()
    ensures var parse := (l: string) => if l == "{}" then Some("x") else None;
      var quote := (t: string) => t;
      && StreamFrames(ChunkStream(["{}"], false), parse, quote) == [TextFrame("x", quote), DoneFrame]
      && StreamFrames(ChunkStream(["{", "}"], false), parse, quote) == [DoneFrame]
  {
    var parse := (l: string) => if l == "{}" then Some("x") else None;
    var quote := (t: string) => t;
    var f := c => ChunkFrames(c, parse, quote);
    assert !IsJsWhitespace('{') && !IsJsWhitespace('}');
    assert "{}"[0] == '{' && "{"[0] == '{' && "}"[0] == '}';
    SingleLineChunk("{}");
    SingleLineChunk("{");
    SingleLineChunk("}");
    OneLineFrames("{}", parse, quote);
    OneLineFrames("{", parse, quote);
    OneLineFrames("}", parse, quote);
    assert f("{}") == [TextFrame("x", quote)];
    assert f("{") == [] && f("}") == [];
    assert ["{}"][..0] == [] && ["{", "}"][..1] == ["{"] && ["{"][..0] == [];
    assert FlatMap(["{}"], f) == [TextFrame("x", quote)];
    assert FlatMap(["{"], f) == [];
    assert FlatMap(["{", "}"], f) == [];
  }

  /** `process.env.GOOGLE_GENERATIVE_AI_API_KEY` is set and not empty. */
  predicate HasApiKey(apiKey: Option<string>) {
    apiKey.Some? && apiKey.value != ""
  }

  /** The reply can be relayed: it arrived, its status is ok and it has a body. */
  predicate Relayable(reply: StreamReply) {
    reply.StreamReply? && reply.ok && reply.body.Some?
  }

  /**
   * The streaming branch of both AI routes once the prompt is built: with a
   * key and a relayable reply, the event stream of the relay; otherwise the
   * route's outer failure `failure`, since every error of this branch is
   * rethrown to the outer handler.
   */
  function StreamResponse(apiKey: Option<string>, reply: StreamReply, parse: string -> Option<string>,
                          quote: string -> string, failure: string): (r: Response)
    ensures r.EventStream? <==> HasApiKey(apiKey) && Relayable(reply)
    ensures r.EventStream? ==> r.frames == StreamFrames(reply.body.value, parse, quote)
    ensures !r.EventStream? ==> r == Error(500, failure)
  {
    if HasApiKey(apiKey) && Relayable(reply) then EventStream(StreamFrames(reply.body.value, parse, quote))
    else Error(500, failure)
  }

  /** The streaming branch, running the relay loop over the reply's body. */
  method Stream(apiKey: Option<string>, reply: StreamReply, parse: string -> Option<string>,
                quote: string -> string, failure: string) returns (r: Response)
    ensures r == StreamResponse(apiKey, reply, parse, quote, failure)
  {
    if !HasApiKey(apiKey) || !Relayable(reply) {
      return Error(500, failure);
    }
    var frames := Relay(reply.body.value, parse, quote);
    r := EventStream(frames);
  }
}
