/**
 * The client side of the chat transport (src/lib/api.ts:11-47). The HTTP
 * response is given as a value: whether the request reached the service,
 * whether its status was a success, and, when there is a body, the text
 * chunks the reader yields followed by how the read ended. Parsing one line
 * (`JSON.parse`) is a parameter: a partial function that gives no event for
 * a malformed line.
 */
module ChatApi {
  import opened ChatTypes
  import opened Text

  datatype TransportError =
    | FetchFailed    // `fetch` itself rejected (no response at all)
    | RequestFailed  // the status was not a success: "Failed to send message"
    | NoBody         // no body reader: "No response body"
    | ReadFailed     // `reader.read()` rejected in the middle of the stream

  datatype Outcome = Succeeded | Aborted(error: TransportError)

  /** How the reader's sequence of reads ends once its chunks are exhausted. */
  datatype StreamEnd = Finished | Broken

  datatype Body = Body(chunks: seq<string>, end: StreamEnd)

  datatype Response = NetworkFailure | Response(ok: bool, body: Option<Body>)

  /** What one call of `sendChatMessage` does: the events handed to `onChunk`, in
      order, the lines it logged as unparseable, and how it finished. */
  datatype Transfer = Transfer(delivered: seq<StreamEvent>, logged: seq<string>, outcome: Outcome)

  /** `lines.filter((line) => line.trim())`: the lines that are not blank. */
  function NonBlank(lines: seq<string>): seq<string> {
    if lines == [] then []
    else
      var l := lines[|lines| - 1];
      NonBlank(lines[..|lines| - 1]) + (if Trim(l) != "" then [l] else [])
  }

  lemma {:induction false} NonBlankConcat(a: seq<string>, b: seq<string>)
    ensures NonBlank(a + b) == NonBlank(a) + NonBlank(b)
  {
    if b != [] {
      var n := |b| - 1;
      assert (a + b)[..|a + b| - 1] == a + b[..n];
      NonBlankConcat(a, b[..n]);
    } else {
      assert a + b == a;
    }
  }

  /** The lines a chunk contributes: `chunk.split("\n").filter((line) => line.trim())`. */
  function ChunkLines(chunk: string): seq<string> {
    NonBlank(Split(chunk, '\n'))
  }

  /** The filter keeps exactly the non-blank lines, in their order. */
  lemma {:induction false} NonBlankKeeps(lines: seq<string>)
    ensures forall l :: l in NonBlank(lines) <==> l in lines && !Blank(l)
    ensures |NonBlank(lines)| <= |lines|
  {
    if lines != [] {
      var front, l := lines[..|lines| - 1], lines[|lines| - 1];
      NonBlankKeeps(front);
      assert lines == front + [l];
      assert Trim(l) != "" <==> !Blank(l);
      assert NonBlank(lines) == NonBlank(front) + (if !Blank(l) then [l] else []);
    }
  }

  /**
   * The lines of a chunk: newline-free, not blank, and every newline-free
   * piece of the chunk that is not blank is among them, unchanged.
   */
  lemma ChunkLinesShape(chunk: string)
    ensures forall l :: l in ChunkLines(chunk) ==> l in Split(chunk, '\n') && '\n' !in l && !Blank(l)
    ensures forall l :: l in Split(chunk, '\n') && !Blank(l) ==> l in ChunkLines(chunk)
  {
    NonBlankKeeps(Split(chunk, '\n'));
    SplitPiecesLackSeparator(chunk, '\n');
  }

  /** The lines of all chunks, chunk after chunk. No line continues across chunks. */
  function StreamLines(chunks: seq<string>): seq<string> {
    if chunks == [] then []
    else StreamLines(chunks[..|chunks| - 1]) + ChunkLines(chunks[|chunks| - 1])
  }

  /** The events parsed from `lines`, in order; malformed lines give none. */
  function Parsed(parse: string -> Option<StreamEvent>, lines: seq<string>): seq<StreamEvent> {
    if lines == [] then []
    else
      var p := parse(lines[|lines| - 1]);
      Parsed(parse, lines[..|lines| - 1]) + (if p.Some? then [p.value] else [])
  }

  /** The lines of `lines` that could not be parsed, in order. */
  function Rejected(parse: string -> Option<StreamEvent>, lines: seq<string>): seq<string> {
    if lines == [] then []
    else
      var l := lines[|lines| - 1];
      Rejected(parse, lines[..|lines| - 1]) + (if parse(l).None? then [l] else [])
  }

  /**
   * Every line is either delivered as an event or logged: a line is logged
   * exactly when it fails to parse, the event of every line that parses is
   * delivered, every delivered event comes from a line, and one output
   * element is produced per line.
   */
  lemma {:induction false} ParsedOrRejected(parse: string -> Option<StreamEvent>, lines: seq<string>)
    ensures |Parsed(parse, lines)| + |Rejected(parse, lines)| == |lines|
    ensures forall l :: l in Rejected(parse, lines) <==> l in lines && parse(l).None?
    ensures forall l :: l in lines && parse(l).Some? ==> parse(l).value in Parsed(parse, lines)
    ensures forall e :: e in Parsed(parse, lines) ==> exists l :: l in lines && parse(l) == Some(e)
  {
    if lines != [] {
      var front, l := lines[..|lines| - 1], lines[|lines| - 1];
      ParsedOrRejected(parse, front);
      assert lines == front + [l];
    }
  }

  /**
   * Parsing distributes over concatenation: a line that fails to parse is
   * skipped and everything after it is still processed.
   */
  lemma {:induction false} ParsedConcat(parse: string -> Option<StreamEvent>, a: seq<string>, b: seq<string>)
    ensures Parsed(parse, a + b) == Parsed(parse, a) + Parsed(parse, b)
  {
    if b == [] {
      assert a + b == a;
    } else {
      var n := |b| - 1;
      assert (a + b)[..|a + b| - 1] == a + b[..n];
      assert (a + b)[|a + b| - 1] == b[n];
      ParsedConcat(parse, a, b[..n]);
    }
  }

  lemma SkipsMalformedLine(parse: string -> Option<StreamEvent>, a: seq<string>, bad: string, b: seq<string>)
    requires parse(bad).None?
    ensures Parsed(parse, a + [bad] + b) == Parsed(parse, a) + Parsed(parse, b)
  {
    ParsedConcat(parse, a + [bad], b);
    ParsedConcat(parse, a, [bad]);
    assert [bad][..0] == [];
    assert Parsed(parse, [bad]) == Parsed(parse, []) + [];
  }

  /** The events delivered for a sequence of chunks: chunk by chunk, line by line. */
  function Delivered(parse: string -> Option<StreamEvent>, chunks: seq<string>): seq<StreamEvent> {
    if chunks == [] then []
    else Delivered(parse, chunks[..|chunks| - 1]) + Parsed(parse, ChunkLines(chunks[|chunks| - 1]))
  }

  function Logged(parse: string -> Option<StreamEvent>, chunks: seq<string>): seq<string> {
    if chunks == [] then []
    else Logged(parse, chunks[..|chunks| - 1]) + Rejected(parse, ChunkLines(chunks[|chunks| - 1]))
  }

  /**
   * The delivered events are exactly the parseable lines of the whole
   * stream, taken chunk after chunk, in order.
   */
  lemma {:induction false} DeliveredIsParsedStream(parse: string -> Option<StreamEvent>, chunks: seq<string>)
    ensures Delivered(parse, chunks) == Parsed(parse, StreamLines(chunks))
  {
    if chunks != [] {
      var front := chunks[..|chunks| - 1];
      DeliveredIsParsedStream(parse, front);
      ParsedConcat(parse, StreamLines(front), ChunkLines(chunks[|chunks| - 1]));
    }
  }

  /**
   * Chunks are split on their own. A chunk ending in a complete line can be
   * cut at that newline without changing the lines, but a record cut in the
   * middle of a line reaches the parser as two lines.
   */
  lemma ChunkCutAtNewline(a: string, b: string)
    ensures ChunkLines(a + "\n" + b) == ChunkLines(a) + ChunkLines(b)
  {
    SplitAtSeparator(a, b, '\n');
    NonBlankConcat(Split(a, '\n'), Split(b, '\n'));
  }

  /** A chunk that is one non-blank line without a newline gives that line. */
  lemma SingleLineChunk(a: string)
    requires '\n' !in a && !Blank(a)
    ensures ChunkLines(a) == [a]
  {
    SplitWithoutSeparator(a, '\n');
    assert [a][..0] == [];
    assert NonBlank([a]) == NonBlank([]) + [a];
  }

  lemma ChunkCutInsideLine(a: string, b: string)
    requires '\n' !in a && '\n' !in b
    requires !Blank(a) && !Blank(b)
    ensures StreamLines([a, b]) == [a, b]
    ensures StreamLines([a + b]) == [a + b]
  {
    TwoChunks(a, b);
    JoinedChunk(a, b);
  }

  lemma TwoChunks(a: string, b: string)
    requires '\n' !in a && '\n' !in b
    requires !Blank(a) && !Blank(b)
    ensures StreamLines([a, b]) == [a, b]
  {
    SingleLineChunk(a);
    SingleLineChunk(b);
    assert [a][..0] == [];
    assert [a, b][..1] == [a];
    assert StreamLines([a]) == [a];
  }

  lemma JoinedChunk(a: string, b: string)
    requires '\n' !in a && '\n' !in b
    requires !Blank(a)
    ensures StreamLines([a + b]) == [a + b]
  {
    NotBlankExtended(a, b);
    assert '\n' !in a + b;
    SingleLineChunk(a + b);
    assert [a + b][..0] == [];
  }

  lemma EmptyChunk()
    ensures ChunkLines("") == []
  {
    assert Split("", '\n') == [""];
    assert [""][..0] == [];
  }

  lemma LinesSnoc(parse: string -> Option<StreamEvent>, lines: seq<string>, l: string)
    ensures Parsed(parse, lines + [l]) == Parsed(parse, lines) + (if parse(l).Some? then [parse(l).value] else [])
    ensures Rejected(parse, lines + [l]) == Rejected(parse, lines) + (if parse(l).None? then [l] else [])
  {
    assert (lines + [l])[..|lines|] == lines;
  }

  lemma ThreeLines(parse: string -> Option<StreamEvent>, bad: string, a: string, b: string)
    requires parse(bad).None? && parse(a).Some? && parse(b).Some?
    ensures Parsed(parse, [bad, a, b]) == [parse(a).value, parse(b).value]
    ensures Rejected(parse, [bad, a, b]) == [bad]
  {
    LinesSnoc(parse, [], bad);
    LinesSnoc(parse, [bad], a);
    LinesSnoc(parse, [bad, a], b);
    assert [] + [bad] == [bad] && [bad] + [a] == [bad, a] && [bad, a] + [b] == [bad, a, b];
  }

  /**
   * One chunk holding a malformed line, a line, an empty line and a last
   * line: the malformed line is logged and skipped, the empty one dropped,
   * and the other two are delivered in order.
   */
  lemma MalformedLineInChunk(parse: string -> Option<StreamEvent>, bad: string, a: string, b: string)
    requires '\n' !in bad && '\n' !in a && '\n' !in b
    requires !Blank(bad) && !Blank(a) && !Blank(b)
    requires parse(bad).None? && parse(a).Some? && parse(b).Some?
    ensures var t := Transmit(Response(true, Some(Body([bad + "\n" + a + "\n\n" + b], Finished))), parse);
      && t.delivered == [parse(a).value, parse(b).value]
      && t.logged == [bad]
      && t.outcome == Succeeded
  {
    var c := bad + "\n" + a + "\n\n" + b;
    LinesWithEmptyLine(bad, a, b);
    ThreeLines(parse, bad, a, b);
    assert [c][..0] == [];
    assert Delivered(parse, [c]) == Parsed(parse, ChunkLines(c));
    assert Logged(parse, [c]) == Rejected(parse, ChunkLines(c));
  }

  /** A complete non-blank line at the front of a chunk is its first line. */
  lemma FirstLineOfChunk(l: string, rest: string)
    requires '\n' !in l && !Blank(l)
    ensures ChunkLines(l + "\n" + rest) == [l] + ChunkLines(rest)
  {
    ChunkCutAtNewline(l, rest);
    SingleLineChunk(l);
  }

  lemma LinesWithEmptyLine(bad: string, a: string, b: string)
    requires '\n' !in bad && '\n' !in a && '\n' !in b
    requires !Blank(bad) && !Blank(a) && !Blank(b)
    ensures ChunkLines(bad + "\n" + a + "\n\n" + b) == [bad, a, b]
  {
    var r2 := "" + "\n" + b;
    EmptyLineThenLine(b);
    var r1 := a + "\n" + r2;
    FirstLineOfChunk(a, r2);
    assert [a] + [b] == [a, b];
    FirstLineOfChunk(bad, r1);
    LayoutOfThreeLines(bad, a, b);
  }

  /** An empty line before a last line is dropped. */
  lemma EmptyLineThenLine(b: string)
    requires '\n' !in b && !Blank(b)
    ensures ChunkLines("" + "\n" + b) == [b]
  {
    ChunkCutAtNewline("", b);
    EmptyChunk();
    SingleLineChunk(b);
  }

  /** How the three-line chunk nests: the parts after each newline. */
  lemma LayoutOfThreeLines(bad: string, a: string, b: string)
    ensures bad + "\n" + a + "\n\n" + b == bad + "\n" + (a + "\n" + ("" + "\n" + b))
  {
  }

  /**
   * The specification of `sendChatMessage`: a failed request and a
   * missing body give up before any event is delivered; otherwise every
   * chunk the reader yields is processed, and the outcome is the way the
   * reading ended.
   */
  function Transmit(response: Response, parse: string -> Option<StreamEvent>): (t: Transfer)
    ensures response.NetworkFailure? ==> t == Transfer([], [], Aborted(FetchFailed))
    ensures response.Response? && !response.ok ==> t == Transfer([], [], Aborted(RequestFailed))
    ensures response.Response? && response.ok && response.body.None? ==> t == Transfer([], [], Aborted(NoBody))
    ensures t.outcome.Aborted? <==> !(response.Response? && response.ok && response.body.Some? && response.body.value.end == Finished)
  {
    match response
    case NetworkFailure => Transfer([], [], Aborted(FetchFailed))
    case Response(ok, body) =>
      if !ok then Transfer([], [], Aborted(RequestFailed))
      else if body.None? then Transfer([], [], Aborted(NoBody))
      else
        var chunks := body.value.chunks;
        Transfer(Delivered(parse, chunks), Logged(parse, chunks),
                 if body.value.end == Finished then Succeeded else Aborted(ReadFailed))
  }

  /**
   * The `for (const line of lines)` loop of `sendChatMessage`: each line
   * is parsed on its own; a parsed line goes to `onChunk`, a malformed one
   * is logged and skipped.
   */
  method DeliverLines(parse: string -> Option<StreamEvent>, lines: seq<string>)
    returns (events: seq<StreamEvent>, rejected: seq<string>)
    ensures events == Parsed(parse, lines)
    ensures rejected == Rejected(parse, lines)
  {
    events, rejected := [], [];
    for k := 0 to |lines|
      invariant events == Parsed(parse, lines[..k])
      invariant rejected == Rejected(parse, lines[..k])
    {
      var line := lines[k];
      var data := parse(line);
      assert lines[..k + 1][..k] == lines[..k];
      if data.Some? {
        events := events + [data.value];
      } else {
        rejected := rejected + [line];
      }
    }
    assert lines[..|lines|] == lines;
  }

  /**
   * `sendChatMessage`: reads the chunks one by one until the reader reports
   * completion, splits each chunk into lines, and hands each parseable line
   * to `onChunk` (the `delivered` sequence is the order of those calls),
   * logging the lines that do not parse.
   */
  method SendChatMessage(response: Response, parse: string -> Option<StreamEvent>)
    returns (delivered: seq<StreamEvent>, logged: seq<string>, outcome: Outcome)
    ensures Transfer(delivered, logged, outcome) == Transmit(response, parse)
  {
    delivered, logged := [], [];
    if response.NetworkFailure? {
      return delivered, logged, Aborted(FetchFailed);
    }
    if !response.ok {
      return delivered, logged, Aborted(RequestFailed);
    }
    if response.body.None? {
      return delivered, logged, Aborted(NoBody);
    }
    delivered, logged, outcome := ReadChunks(response.body.value, parse);
  }

  lemma DeliveredStep(parse: string -> Option<StreamEvent>, chunks: seq<string>, i: nat)
    requires i < |chunks|
    ensures Delivered(parse, chunks[..i + 1]) == Delivered(parse, chunks[..i]) + Parsed(parse, ChunkLines(chunks[i]))
    ensures Logged(parse, chunks[..i + 1]) == Logged(parse, chunks[..i]) + Rejected(parse, ChunkLines(chunks[i]))
  {
    assert chunks[..i + 1][..i] == chunks[..i];
  }

  /** The `while (true)` reader loop of `sendChatMessage`. */
  method ReadChunks(reader: Body, parse: string -> Option<StreamEvent>)
    returns (delivered: seq<StreamEvent>, logged: seq<string>, outcome: Outcome)
    ensures delivered == Delivered(parse, reader.chunks)
    ensures logged == Logged(parse, reader.chunks)
    ensures outcome == if reader.end == Finished then Succeeded else Aborted(ReadFailed)
  {
    delivered, logged := [], [];
    var read := 0;
    while true
      invariant 0 <= read <= |reader.chunks|
      invariant delivered == Delivered(parse, reader.chunks[..read])
      invariant logged == Logged(parse, reader.chunks[..read])
      decreases |reader.chunks| - read
    {
      if read == |reader.chunks| {
        if reader.end == Broken {
          assert reader.chunks[..read] == reader.chunks;
          return delivered, logged, Aborted(ReadFailed);
        }
        break;
      }
      var chunk := reader.chunks[read];
      var events, rejected := DeliverLines(parse, ChunkLines(chunk));
      DeliveredStep(parse, reader.chunks, read);
      delivered, logged := delivered + events, logged + rejected;
      read := read + 1;
    }
    assert reader.chunks[..read] == reader.chunks;
    outcome := Succeeded;
  }
}
