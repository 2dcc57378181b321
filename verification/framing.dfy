/** Line framing of the response stream (src/services/apiService.js:81-83):
    each decoded chunk is appended to a buffer, the buffer is split on
    newlines, every piece but the last is a complete line, and the last piece
    becomes the new buffer. */
module Framing {
  import opened Text
  import opened Seqs

  /** The complete lines of a text: everything before its last newline. */
  function Completed(s: string): seq<string> {
    var pieces := Split(s);
    pieces[..|pieces| - 1]
  }

  /** The unterminated tail of a text: everything after its last newline. */
  function Pending(s: string): string {
    var pieces := Split(s);
    pieces[|pieces| - 1]
  }

  /** The outcome of one framing step: the lines it completed, in order, and
      the buffer carried over to the next chunk. */
  datatype Fed = Fed(lines: seq<string>, buffer: string)

  /** One iteration of the read loop's framing: `buffer += chunk`,
      `lines = buffer.split("\n")`, `buffer = lines.pop() || ""` (an empty
      last piece is already ""). Afterwards the buffer holds no newline and
      the completed lines, each with its newline, followed by the buffer,
      are exactly the text received so far. */
  function FeedChunk(buffer: string, chunk: string): (r: Fed)
    ensures Newline !in r.buffer
    ensures NoNewlines(r.lines)
    ensures Unlines(r.lines) + r.buffer == buffer + chunk
  {
    SplitRebuilds(buffer + chunk);
    Fed(Completed(buffer + chunk), Pending(buffer + chunk))
  }

  /** The first newline after a line without newlines ends that line. */
  lemma FirstNewlineAfterLine(line: string, rest: string)
    requires Newline !in line
    ensures var s := line + [Newline] + rest;
      Newline in s && FirstNewline(s) == |line|
  {
    var s := line + [Newline] + rest;
    assert s[|line|] == Newline;
    FirstNewlineIsFirst(s);
    assert forall j :: 0 <= j < |line| ==> s[j] == line[j];
  }

  /** Framed text has a newline exactly when it has a complete line, and its
      first newline ends its first line. */
  lemma FirstLine(lines: seq<string>, tail: string)
    requires NoNewlines(lines) && Newline !in tail
    ensures lines == [] <==> Newline !in Unlines(lines) + tail
    ensures lines != [] ==>
      var s := Unlines(lines) + tail;
      && Newline in s
      && FirstNewline(s) == |lines[0]|
      && s[..|lines[0]|] == lines[0]
      && s[|lines[0]| + 1..] == Unlines(lines[1..]) + tail
  {
    if lines != [] {
      var rest := Unlines(lines[1..]) + tail;
      var s := lines[0] + [Newline] + rest;
      assert Unlines(lines) + tail == s;
      FirstNewlineAfterLine(lines[0], rest);
      assert s[..|lines[0]|] == lines[0];
      assert s[|lines[0]| + 1..] == rest;
    }
  }

  /** Framing is unique: there is only one way to write a text as
      newline-terminated lines without newlines in them, followed by a tail
      without a newline. */
  lemma {:induction false} FramingUnique(lines1: seq<string>, tail1: string,
                                         lines2: seq<string>, tail2: string)
    requires NoNewlines(lines1) && Newline !in tail1
    requires NoNewlines(lines2) && Newline !in tail2
    requires Unlines(lines1) + tail1 == Unlines(lines2) + tail2
    ensures lines1 == lines2 && tail1 == tail2
    decreases |lines1|
  {
    FirstLine(lines1, tail1);
    FirstLine(lines2, tail2);
    if lines1 == [] {
      assert lines2 == [];
      assert tail1 == Unlines(lines1) + tail1;
      assert tail2 == Unlines(lines2) + tail2;
    } else {
      var s := Unlines(lines1) + tail1;
      assert lines1[0] == s[..FirstNewline(s)] == lines2[0];
      FramingUnique(lines1[1..], tail1, lines2[1..], tail2);
      assert lines1 == [lines1[0]] + lines1[1..];
      assert lines2 == [lines2[0]] + lines2[1..];
    }
  }

  /** Splitting framed text recovers its lines and its tail. */
  lemma SplitFramed(s: string, lines: seq<string>, tail: string)
    requires NoNewlines(lines) && Newline !in tail
    requires s == Unlines(lines) + tail
    ensures Completed(s) == lines
    ensures Pending(s) == tail
  {
    SplitRebuilds(s);
    FramingUnique(lines, tail, Completed(s), Pending(s));
  }

  /** The text of consecutive runs of lines is the text of each run. */
  lemma {:induction false} UnlinesAppend(a: seq<string>, b: seq<string>)
    ensures Unlines(a + b) == Unlines(a) + Unlines(b)
    decreases |a|
  {
    if a == [] {
      assert a + b == b;
    } else {
      UnlinesAppend(a[1..], b);
      assert (a + b)[1..] == a[1..] + b;
    }
  }

  /** All chunks' text, in order. */
  function Flatten(chunks: seq<string>): string {
    if chunks == [] then "" else chunks[0] + Flatten(chunks[1..])
  }

  lemma {:induction false} FlattenAppend(chunks: seq<string>, tail: string)
    ensures Flatten(chunks + [tail]) == Flatten(chunks) + tail
    decreases |chunks|
  {
    if chunks == [] {
      assert chunks + [tail] == [tail];
    } else {
      FlattenAppend(chunks[1..], tail);
      assert (chunks + [tail])[1..] == chunks[1..] + [tail];
    }
  }

  /** The body of the read loop over the chunks delivered so far: frame
      each chunk against the carried buffer, then hand each complete line,
      in order, to `route`, which says what that line produces. The buffer
      never holds a newline between chunks. Chunk by chunk, this routes
      exactly the complete lines of everything received (the carried
      buffer, then every chunk), in order. */
  function FeedAll<E>(route: string -> seq<E>, buffer: string, chunks: seq<string>): (r: seq<E>)
    requires Newline !in buffer
    ensures r == FlatMap(route, Completed(buffer + Flatten(chunks)))
    decreases |chunks|
  {
    if chunks == [] then
      SplitFramed(buffer + Flatten(chunks), [], buffer);
      []
    else
      var fed := FeedChunk(buffer, chunks[0]);
      FeedStep(buffer, chunks);
      FlatMapAppend(route, fed.lines, Completed(fed.buffer + Flatten(chunks[1..])));
      FlatMap(route, fed.lines) + FeedAll(route, fed.buffer, chunks[1..])
  }

  /** Lines put in front of framed text stay in front of its lines. */
  lemma Reframe(before: seq<string>, rest: seq<string>, tail: string, after: string)
    requires Unlines(rest) + tail == after
    ensures Unlines(before + rest) + tail == Unlines(before) + after
  {
    UnlinesAppend(before, rest);
  }

  /** Complete lines in front of a text are complete lines of the whole. */
  lemma CompletedAfterLines(before: seq<string>, after: string)
    requires NoNewlines(before)
    ensures Completed(Unlines(before) + after) == before + Completed(after)
  {
    SplitRebuilds(after);
    Reframe(before, Completed(after), Pending(after), after);
    SplitFramed(Unlines(before) + after, before + Completed(after), Pending(after));
  }

  /** A tail without a newline completes no line. */
  lemma CompletedIgnoresTail(text: string, tail: string)
    requires Newline !in tail
    ensures Completed(text + tail) == Completed(text)
  {
    SplitRebuilds(text);
    assert Unlines(Completed(text)) + (Pending(text) + tail) == text + tail;
    SplitFramed(text + tail, Completed(text), Pending(text) + tail);
  }

  /** One framing step: the lines of the first chunk's framing come first
      among the lines of everything received. */
  lemma FeedStep(buffer: string, chunks: seq<string>)
    requires chunks != []
    ensures var fed := FeedChunk(buffer, chunks[0]);
      Completed(buffer + Flatten(chunks)) == fed.lines + Completed(fed.buffer + Flatten(chunks[1..]))
  {
    var fed := FeedChunk(buffer, chunks[0]);
    var after := fed.buffer + Flatten(chunks[1..]);
    Regroup(buffer, chunks[0], Flatten(chunks[1..]), Unlines(fed.lines), fed.buffer);
    CompletedAfterLines(fed.lines, after);
  }

  lemma Regroup(a: string, b: string, c: string, x: string, y: string)
    requires a + b == x + y
    ensures a + (b + c) == x + (y + c)
  {
    assert a + (b + c) == (a + b) + c;
    assert x + (y + c) == (x + y) + c;
  }
}
