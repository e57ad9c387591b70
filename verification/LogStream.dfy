/**
 The server side of the log pipeline.

 Log content arrives in chunks cut at arbitrary places.  Line extraction keeps only the last 4096
 characters of the unfinished line between chunks; it is proved to agree with a specification that
 sees the whole stream.
 */
module LogStream {
  import opened Text

  const LINE_BUFFER := 4096

  function Stream(chunks: seq<string>): string {
    if chunks == [] then "" else Stream(chunks[..|chunks| - 1]) + chunks[|chunks| - 1]
  }

  // ---------- Line extraction ----------

  function StripCr(line: string): string {
    if line != [] && line[|line| - 1] == '\r' then line[..|line| - 1] else line
  }

  function StripAll(lines: seq<string>): seq<string> {
    seq(|lines|, k requires 0 <= k < |lines| => StripCr(lines[k]))
  }

  datatype Extracted = Extracted(lines: seq<string>, buffer: string)

  /** Splits what was buffered plus one chunk at line ends; the unfinished rest is cut to 4096 characters. */
  function Extract(buffer: string, chunk: string): Extracted {
    Complete(Split(buffer + chunk))
  }

  /** All lines but the last are complete. */
  function Complete(parts: seq<string>): Extracted
    requires |parts| > 0
  {
    Extracted(StripAll(parts[..|parts| - 1]), Suffix(parts[|parts| - 1], LINE_BUFFER))
  }

  /** What has been emitted, and is buffered, after all chunks. */
  function ExtractAll(chunks: seq<string>): Extracted {
    if chunks == [] then Extracted([], "")
    else
      var before := ExtractAll(chunks[..|chunks| - 1]);
      var next := Extract(before.buffer, chunks[|chunks| - 1]);
      Extracted(before.lines + next.lines, next.buffer)
  }

  /** An emitted line against the true line it stands for. */
  predicate Faithful(emitted: string, truth: string) {
    IsSuffix(emitted, StripCr(truth)) && (|truth| <= 4096 ==> emitted == StripCr(truth))
  }

  lemma StripSuffix(t: string, s: string)
    requires IsSuffix(t, s) && (t == [] ==> s == [])
    ensures IsSuffix(StripCr(t), StripCr(s))
  {
    if t != [] {
      assert t[|t| - 1] == s[|s| - 1];
    }
  }

  /** A cut line completed by the next chunk is faithful to the whole line. */
  lemma CutLineIsFaithful(partial: string, rest: string)
    ensures Faithful(StripCr(Suffix(partial, LINE_BUFFER) + rest), partial + rest)
  {
    SuffixBefore(partial, rest, LINE_BUFFER);
    StripSuffix(Suffix(partial, LINE_BUFFER) + rest, partial + rest);
  }

  lemma NoNewlineInSuffix(s: string, n: nat)
    requires '\n' !in s
    ensures '\n' !in Suffix(s, n)
  {
  }

  lemma SplitAfterPartial(partial: string, chunk: string)
    requires '\n' !in partial
    ensures Split(partial + chunk) == [partial + Split(chunk)[0]] + Split(chunk)[1..]
  {
    SplitOneLine(partial);
    SplitAppend(partial, chunk);
  }

  lemma CompleteFirst(first: string, rest: seq<string>)
    ensures var out := Complete([first] + rest);
            && |out.lines| == |rest|
            && (rest != [] ==> out.lines[0] == StripCr(first))
            && (forall k :: 1 <= k < |rest| ==> out.lines[k] == StripCr(rest[k - 1]))
            && out.buffer == Suffix(if rest == [] then first else rest[|rest| - 1], LINE_BUFFER)
  {
  }

  /** One chunk: how the emitted lines and the buffer follow from the true partial line. */
  lemma ExtractOne(partial: string, chunk: string)
    requires '\n' !in partial
    ensures var parts, out := Split(chunk), Extract(Suffix(partial, LINE_BUFFER), chunk);
            && |out.lines| == |parts| - 1
            && (|parts| > 1 ==> out.lines[0] == StripCr(Suffix(partial, LINE_BUFFER) + parts[0]))
            && (forall k :: 1 <= k < |parts| - 1 ==> out.lines[k] == StripCr(parts[k]))
            && out.buffer == Suffix(if |parts| > 1 then parts[|parts| - 1] else partial + parts[0], LINE_BUFFER)
  {
    var buffer, parts := Suffix(partial, LINE_BUFFER), Split(chunk);
    NoNewlineInSuffix(partial, LINE_BUFFER);
    SplitAfterPartial(buffer, chunk);
    CompleteFirst(buffer + parts[0], parts[1..]);
    SuffixAppend(partial, parts[0], LINE_BUFFER);
  }

  /** The true lines so far and those of one more chunk. */
  function Continued(truth: seq<string>, parts: seq<string>): seq<string>
    requires truth != [] && parts != []
  {
    truth[..|truth| - 1] + [truth[|truth| - 1] + parts[0]] + parts[1..]
  }

  /** What was emitted stands for all true lines but the last, of which the end is buffered. */
  predicate StandsFor(out: Extracted, truth: seq<string>) {
    && |truth| > 0 && |out.lines| == |truth| - 1
    && (forall k :: 0 <= k < |out.lines| ==> Faithful(out.lines[k], truth[k]))
    && out.buffer == Suffix(truth[|truth| - 1], LINE_BUFFER)
  }

  lemma UncutIsFaithful(line: string)
    ensures Faithful(StripCr(line), line)
  {
  }

  /** Line k of the lines so far and those that the next chunk completes. */
  lemma LineIsFaithful(lines: seq<string>, more: seq<string>, truth: seq<string>, parts: seq<string>, k: nat)
    requires |truth| == |lines| + 1 && |parts| == |more| + 1 && k < |lines + more|
    requires k < |lines| ==> Faithful(lines[k], truth[k])
    requires k == |lines| ==> more[0] == StripCr(Suffix(truth[k], LINE_BUFFER) + parts[0])
    requires k > |lines| ==> more[k - |lines|] == StripCr(parts[k - |lines|])
    ensures Faithful((lines + more)[k], Continued(truth, parts)[k])
  {
    if k == |lines| {
      CutLineIsFaithful(truth[k], parts[0]);
    } else if k > |lines| {
      UncutIsFaithful(parts[k - |lines|]);
    }
  }

  lemma JoinStandsFor(before: Extracted, next: Extracted, truth: seq<string>, parts: seq<string>)
    requires StandsFor(before, truth) && |parts| == |next.lines| + 1
    requires |parts| > 1 ==> next.lines[0] == StripCr(Suffix(truth[|truth| - 1], LINE_BUFFER) + parts[0])
    requires forall k :: 1 <= k < |parts| - 1 ==> next.lines[k] == StripCr(parts[k])
    requires next.buffer == Suffix(Continued(truth, parts)[|truth| + |parts| - 2], LINE_BUFFER)
    ensures StandsFor(Extracted(before.lines + next.lines, next.buffer), Continued(truth, parts))
  {
    var lines := before.lines + next.lines;
    forall k | 0 <= k < |lines| ensures Faithful(lines[k], Continued(truth, parts)[k]) {
      LineIsFaithful(before.lines, next.lines, truth, parts, k);
    }
  }

  /** One more chunk keeps that. */
  lemma NextChunkStandsFor(before: Extracted, truth: seq<string>, chunk: string)
    requires StandsFor(before, truth) && '\n' !in truth[|truth| - 1]
    ensures var next := Extract(before.buffer, chunk);
            StandsFor(Extracted(before.lines + next.lines, next.buffer), Continued(truth, Split(chunk)))
  {
    ExtractOne(truth[|truth| - 1], chunk);
    JoinStandsFor(before, Extract(before.buffer, chunk), truth, Split(chunk));
  }

  /**
   Line extraction does not depend on chunking.  However the stream is cut, as many lines are emitted
   as the stream has line ends; each is a suffix of the true line, and is the true line whenever that
   and its carriage return have at most 4096 characters.
   */
  lemma {:induction false} ExtractionIsFaithful(chunks: seq<string>)
    ensures var truth, out := Split(Stream(chunks)), ExtractAll(chunks);
            && |out.lines| == |truth| - 1
            && (forall k :: 0 <= k < |out.lines| ==> Faithful(out.lines[k], truth[k]))
            && out.buffer == Suffix(truth[|truth| - 1], LINE_BUFFER)
  {
    if chunks != [] {
      var rest, chunk := chunks[..|chunks| - 1], chunks[|chunks| - 1];
      ExtractionIsFaithful(rest);
      SplitLinesRoundTrip(Stream(rest));
      NextChunkStandsFor(ExtractAll(rest), Split(Stream(rest)), chunk);
      SplitAppend(Stream(rest), chunk);
    }
  }

  lemma ExtractLine(line: string)
    requires '\n' !in line
    ensures Extract("", line + "\n") == Extracted([StripCr(line)], "")
  {
    SplitWithEnd(line);
    assert "" + (line + "\n") == line + "\n";
    assert [line, ""][..1] == [line];
    assert StripAll([line]) == [StripCr(line)];
  }

  lemma StripsReturn(text: string)
    ensures StripCr(text + "\r") == text
    ensures text == "" || text[|text| - 1] != '\r' ==> StripCr(text) == text
  {
    assert (text + "\r")[..|text|] == text;
  }

  /** One carriage return in front of a line end is dropped, and nothing else. */
  lemma LineEndsAreDropped(text: string)
    requires '\n' !in text
    ensures Extract("", text + "\r" + "\n") == Extracted([text], "")
    ensures text == "" || text[|text| - 1] != '\r' ==> Extract("", text + "\n") == Extracted([text], "")
  {
    StripsReturn(text);
    ExtractLine(text + "\r");
    ExtractLine(text);
  }

  lemma SplitWithEnd(line: string)
    requires '\n' !in line
    ensures Split(line + "\n") == [line, ""]
  {
    SplitAfterPartial(line, "\n");
    assert Split("\n") == ["", ""] && line + "" == line;
  }

  // ---------- Servers side by side ----------

  /** One upload of a server's log. */
  datatype Chunk = Chunk(server: string, content: string)

  /** What one server uploaded, whatever others did in between. */
  function ChunksOf(history: seq<Chunk>, server: string): seq<string> {
    if history == [] then []
    else
      var last := history[|history| - 1];
      ChunksOf(history[..|history| - 1], server) + (if last.server == server then [last.content] else [])
  }

  function StreamOf(history: seq<Chunk>, server: string): string {
    Stream(ChunksOf(history, server))
  }

  lemma ChunksGrow(history: seq<Chunk>, chunk: Chunk, server: string)
    ensures ChunksOf(history + [chunk], server) ==
            ChunksOf(history, server) + (if chunk.server == server then [chunk.content] else [])
  {
    assert (history + [chunk])[..|history|] == history;
  }

  lemma StreamGrows(history: seq<Chunk>, chunk: Chunk, server: string)
    ensures StreamOf(history + [chunk], server) ==
            StreamOf(history, server) + (if chunk.server == server then chunk.content else "")
  {
    ChunksGrow(history, chunk, server);
    var before := ChunksOf(history, server);
    if chunk.server == server {
      assert (before + [chunk.content])[..|before|] == before;
    } else {
      assert before + [] == before && StreamOf(history, server) + "" == StreamOf(history, server);
    }
  }

  lemma ExtractGrows(chunks: seq<string>, chunk: string)
    ensures var before, next := ExtractAll(chunks), Extract(ExtractAll(chunks).buffer, chunk);
            ExtractAll(chunks + [chunk]) == Extracted(before.lines + next.lines, next.buffer)
  {
    assert (chunks + [chunk])[..|chunks|] == chunks;
  }

  function BufferIn(buffers: map<string, string>, server: string): string {
    if server in buffers then buffers[server] else ""
  }

  /** Every server's buffer is that of its own chunks. */
  ghost predicate BuffersFit(buffers: map<string, string>, history: seq<Chunk>) {
    forall server :: BufferIn(buffers, server) == ExtractAll(ChunksOf(history, server)).buffer
  }

  lemma BuffersStayFit(buffers: map<string, string>, history: seq<Chunk>, chunk: Chunk)
    requires BuffersFit(buffers, history)
    ensures var next := Extract(BufferIn(buffers, chunk.server), chunk.content);
            && BuffersFit(buffers[chunk.server := next.buffer], history + [chunk])
            && ExtractAll(ChunksOf(history + [chunk], chunk.server)).lines ==
               ExtractAll(ChunksOf(history, chunk.server)).lines + next.lines
  {
    var next := Extract(BufferIn(buffers, chunk.server), chunk.content);
    ExtractGrows(ChunksOf(history, chunk.server), chunk.content);
    ChunksGrow(history, chunk, chunk.server);
    forall server
      ensures BufferIn(buffers[chunk.server := next.buffer], server) ==
              ExtractAll(ChunksOf(history + [chunk], server)).buffer
    {
      ChunksGrow(history, chunk, server);
      assert BufferIn(buffers, server) == ExtractAll(ChunksOf(history, server)).buffer;
      assert ChunksOf(history, server) + [] == ChunksOf(history, server);
    }
  }

  /** The unfinished line of every server instance. */
  class LineBuffers {
    var buffers: map<string, string>
    ghost var history: seq<Chunk>

    ghost predicate Valid()
      reads this
    {
      BuffersFit(buffers, history)
    }

    constructor ()
      ensures buffers == map[] && history == [] && Valid()
    {
      buffers, history := map[], [];
    }

    function Buffered(server: string): string
      reads this
    {
      BufferIn(buffers, server)
    }

    /** The lines are those the chunk completes in the stream of its own server. */
    method TakeLines(server: string, content: string) returns (lines: seq<string>)
      requires Valid()
      modifies this
      ensures Valid() && history == old(history) + [Chunk(server, content)]
      ensures ExtractAll(ChunksOf(history, server)).lines ==
              ExtractAll(ChunksOf(old(history), server)).lines + lines
      ensures Extracted(lines, Buffered(server)) == Extract(old(Buffered(server)), content)
      ensures buffers == old(buffers)[server := Buffered(server)]
    {
      BuffersStayFit(buffers, history, Chunk(server, content));
      var parts := Split(Buffered(server) + content);
      lines := CompleteLines(parts);
      buffers := buffers[server := Suffix(parts[|parts| - 1], LINE_BUFFER)];
      history := history + [Chunk(server, content)];
    }

    /** The loop over all parts but the last. */
    static method CompleteLines(parts: seq<string>) returns (lines: seq<string>)
      requires |parts| > 0
      ensures lines == StripAll(parts[..|parts| - 1])
    {
      lines := [];
      var k := 0;
      while k < |parts| - 1
        invariant 0 <= k <= |parts| - 1
        invariant lines == StripAll(parts[..k])
      {
        lines := lines + [StripCr(parts[k])];
        k := k + 1;
      }
    }
  }
}
