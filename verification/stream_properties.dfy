/** Properties of the read loop of `sendMessageStream`
    (src/services/apiService.js:68-117): the trace depends only on the text
    received and not on where the transport cut it into chunks, lines that
    produce no callback are invisible wherever they occur, reasoning output
    is gated on the selected model, and the trace ends in exactly one
    terminal event. */
module StreamProperties {
  import opened Wrappers
  import opened Text
  import opened Framing
  import opened Seqs
  import opened ApiService

  lemma DispatchLinesAppend(ctx: StreamContext, a: seq<string>, b: seq<string>)
    ensures DispatchLines(ctx, a + b) == DispatchLines(ctx, a) + DispatchLines(ctx, b)
  {
    FlatMapAppend(Route(ctx), a, b);
  }

  lemma DispatchLinesCons(ctx: StreamContext, lines: seq<string>)
    requires lines != []
    ensures DispatchLines(ctx, lines) == DispatchLine(ctx, lines[0]) + DispatchLines(ctx, lines[1..])
  {
  }

  /** Chunk-boundary invariance: two deliveries of the same text, however
      it is cut into chunks, produce the same trace. */
  lemma ChunkBoundaryInvariance(ctx: StreamContext, chunks1: seq<string>, chunks2: seq<string>, end: StreamEnd)
    requires Flatten(chunks1) == Flatten(chunks2)
    ensures ReadLoop(ctx, chunks1, end) == ReadLoop(ctx, chunks2, end)
  {
    ReadLoopWholeText(ctx, chunks1, end);
    ReadLoopWholeText(ctx, chunks2, end);
  }

  /** In particular the trace is the one obtained by feeding the whole body
      as a single chunk. */
  lemma SameAsSingleChunk(ctx: StreamContext, chunks: seq<string>, end: StreamEnd)
    ensures ReadLoop(ctx, chunks, end) == ReadLoop(ctx, [Flatten(chunks)], end)
  {
    assert Flatten([Flatten(chunks)]) == Flatten(chunks) + Flatten([]);
    ChunkBoundaryInvariance(ctx, chunks, [Flatten(chunks)], end);
  }

  /** A last fragment without a newline is never dispatched: the loop ends
      as if it had not arrived. */
  lemma TrailingFragmentDropped(ctx: StreamContext, chunks: seq<string>, tail: string, end: StreamEnd)
    requires Newline !in tail
    ensures ReadLoop(ctx, chunks + [tail], end) == ReadLoop(ctx, chunks, end)
  {
    FlattenAppend(chunks, tail);
    ReadLoopWholeText(ctx, chunks + [tail], end);
    ReadLoopWholeText(ctx, chunks, end);
    CompletedIgnoresTail(Flatten(chunks), tail);
  }

  /** The complete lines of text framed around one more line: the lines
      before it, that line, then the complete lines after it. */
  lemma CompletedAroundLine(before: seq<string>, line: string, after: string)
    requires NoNewlines(before) && Newline !in line
    ensures Completed(Unlines(before) + (line + [Newline] + after)) == before + ([line] + Completed(after))
  {
    assert Unlines([line]) == line + [Newline];
    CompletedAfterLines([line], after);
    CompletedAfterLines(before, line + [Newline] + after);
  }

  /** Dispatching lines around a silent line is dispatching the others. */
  lemma DispatchAroundSilentLine(ctx: StreamContext, before: seq<string>, line: string, later: seq<string>)
    requires DispatchLine(ctx, line) == []
    ensures DispatchLines(ctx, before + ([line] + later)) == DispatchLines(ctx, before + later)
  {
    DispatchLinesAppend(ctx, before, [line] + later);
    DispatchLinesAppend(ctx, before, later);
    DispatchLinesCons(ctx, [line] + later);
    assert ([line] + later)[1..] == later;
  }

  /** A complete line that yields no callback is invisible: the stream with
      the line in it produces the same trace as the stream without it, and
      the lines after it are still processed. */
  lemma SilentLineTransparent(ctx: StreamContext, before: seq<string>, line: string, after: string,
                              chunks1: seq<string>, chunks2: seq<string>, end: StreamEnd)
    requires NoNewlines(before) && Newline !in line
    requires DispatchLine(ctx, line) == []
    requires Flatten(chunks1) == Unlines(before) + (line + [Newline] + after)
    requires Flatten(chunks2) == Unlines(before) + after
    ensures ReadLoop(ctx, chunks1, end) == ReadLoop(ctx, chunks2, end)
  {
    ReadLoopWholeText(ctx, chunks1, end);
    ReadLoopWholeText(ctx, chunks2, end);
    CompletedAroundLine(before, line, after);
    CompletedAfterLines(before, after);
    DispatchAroundSilentLine(ctx, before, line, Completed(after));
  }

  /** Routing of one event line (src/services/apiService.js:95-107): an
      unparsable payload produces nothing; otherwise the content fragment
      reaches `onChunk` exactly when it is non-empty and comes first, and
      the reasoning fragment reaches `onReasoning` exactly when it is
      non-empty and reasoning is enabled, and comes last. */
  lemma LineRouting(ctx: StreamContext, line: string)
    requires Payload(line).Some?
    ensures ctx.parse(Payload(line).value).None? ==> DispatchLine(ctx, line) == []
    ensures ctx.parse(Payload(line).value).Some? ==>
      var d := ctx.parse(Payload(line).value).value;
      var events := DispatchLine(ctx, line);
      && (events != [] && events[0].Chunk? <==> Truthy(d.content))
      && (Truthy(d.content) ==> events[0] == Chunk(d.content.value))
      && (events != [] && events[|events| - 1].Reasoning? <==> Truthy(d.reasoning) && ReasoningEnabled(ctx))
      && (Truthy(d.reasoning) && ReasoningEnabled(ctx) ==> events[|events| - 1] == Reasoning(d.reasoning.value))
  {
  }

  /** The `[DONE]` sentinel produces no callback, and in particular does not
      complete the stream. */
  lemma SentinelIsSilent(ctx: StreamContext)
    ensures DispatchLine(ctx, DoneSentinel) == []
  {
    assert Trim(DoneSentinel) == DoneSentinel by {
      assert TrimStart(DoneSentinel) == DoneSentinel;
      assert TrimEnd(DoneSentinel) == DoneSentinel;
    }
  }

  /** Hence a sentinel line anywhere in the body changes nothing: events
      after it are still delivered, and completion comes only from the
      transport's `done`. */
  lemma SentinelTransparent(ctx: StreamContext, before: seq<string>, after: string,
                            chunks1: seq<string>, chunks2: seq<string>, end: StreamEnd)
    requires NoNewlines(before)
    requires Flatten(chunks1) == Unlines(before) + (DoneSentinel + [Newline] + after)
    requires Flatten(chunks2) == Unlines(before) + after
    ensures ReadLoop(ctx, chunks1, end) == ReadLoop(ctx, chunks2, end)
    ensures Complete in ReadLoop(ctx, chunks1, end) <==> end == Done
  {
    SentinelIsSilent(ctx);
    SilentLineTransparent(ctx, before, DoneSentinel, after, chunks1, chunks2, end);
    CompletesOnlyAtDone(ctx, chunks1, end);
  }

  /** `onComplete` occurs in a trace exactly when the reader reported
      `done`, whatever the body contained. */
  lemma CompletesOnlyAtDone(ctx: StreamContext, chunks: seq<string>, end: StreamEnd)
    ensures Complete in ReadLoop(ctx, chunks, end) <==> end == Done
  {
    var events := ReadLoop(ctx, chunks, end);
    assert Complete in events <==> events[|events| - 1] == Complete;
  }

  /** A trailing carriage return (CRLF framing) does not change what a line
      produces, since the line is trimmed first. */
  lemma CarriageReturnIgnored(ctx: StreamContext, line: string)
    ensures DispatchLine(ctx, line + "\r") == DispatchLine(ctx, line)
  {
    TrimIgnoresTrailingWhitespace(line, '\r');
  }

  lemma {:induction false} TrimIgnoresTrailingWhitespace(s: string, c: char)
    requires IsWhitespace(c)
    ensures Trim(s + [c]) == Trim(s)
    decreases |s|
  {
    if s == [] {
      assert TrimStart([c]) == TrimStart([c][1..]);
    } else if IsWhitespace(s[0]) {
      assert (s + [c])[1..] == s[1..] + [c];
      TrimIgnoresTrailingWhitespace(s[1..], c);
    } else {
      assert TrimStart(s + [c]) == s + [c];
      assert TrimEnd(s + [c]) == TrimEnd((s + [c])[..|s|]);
      assert (s + [c])[..|s|] == s;
    }
  }

  /** A stream whose event lines carry only reasoning fragments delivers one
      `onReasoning` per line when reasoning is enabled and nothing at all
      otherwise; `onChunk` is never called. */
  lemma {:induction false} ReasoningOnlyLines(ctx: StreamContext, lines: seq<string>)
    requires forall k :: 0 <= k < |lines| ==>
      && Payload(lines[k]).Some?
      && ctx.parse(Payload(lines[k]).value).Some?
      && !Truthy(ctx.parse(Payload(lines[k]).value).value.content)
      && Truthy(ctx.parse(Payload(lines[k]).value).value.reasoning)
    ensures var events := DispatchLines(ctx, lines);
      && |events| == (if ReasoningEnabled(ctx) then |lines| else 0)
      && forall k :: 0 <= k < |events| ==> events[k].Reasoning?
    decreases |lines|
  {
    if lines != [] {
      ReasoningOnlyLines(ctx, lines[1..]);
      DispatchLinesCons(ctx, lines);
      LineRouting(ctx, lines[0]);
    }
  }

  /** Two chunks that end with a newline between them carry exactly one
      complete line: the two pieces joined. */
  lemma OneLineInTwoChunks(first: string, second: string)
    requires Newline !in first + second
    ensures Completed(Flatten([first, second + [Newline]])) == [first + second]
  {
    var line := first + second;
    var chunks := [first, second + [Newline]];
    assert Flatten(chunks) == line + [Newline] + "" by {
      assert chunks[1..] == [second + [Newline]];
      assert Flatten(chunks[1..]) == (second + [Newline]) + Flatten([]);
    }
    CompletedAroundLine([], line, "");
    assert Unlines([]) + (line + [Newline] + "") == Flatten(chunks);
    SplitFramed("", [], "");
  }

  /** An event line cut by the transport in the middle of a word (`He` in
      one chunk, `llo` in the next) is reassembled and delivered once, in
      one piece, and the stream then completes. */
  lemma SplitLineDeliveredOnce(ctx: StreamContext, first: string, second: string, text: string)
    requires Newline !in first + second
    requires Payload(first + second).Some?
    requires ctx.parse(Payload(first + second).value) == Some(Delta(Some(text), None))
    requires text != ""
    ensures ReadLoop(ctx, [first, second + [Newline]], Done) == [Chunk(text), Complete]
  {
    var line := first + second;
    ReadLoopWholeText(ctx, [first, second + [Newline]], Done);
    OneLineInTwoChunks(first, second);
    DispatchLinesCons(ctx, [line]);
    assert DispatchLines(ctx, [line][1..]) == [];
    LineRouting(ctx, line);
    assert DispatchLine(ctx, line) == [Chunk(text)];
  }
}
