/**
 From the file on the host to the lines of the control plane: the tailer's uploads are the chunks of the line
 buffers.
 */
module LogPipeline {
  import opened LogStream
  import LogTail
  import opened Text
  import opened Wrappers

  /** Logs are taken as ASCII: one character a byte. */
  function Decoded(bytes: seq<LogTail.byte>): string {
    seq(|bytes|, k requires 0 <= k < |bytes| => bytes[k] as int as char)
  }

  function Chunks(uploads: seq<seq<LogTail.byte>>): seq<string> {
    seq(|uploads|, k requires 0 <= k < |uploads| => Decoded(uploads[k]))
  }

  lemma DecodedAppend(a: seq<LogTail.byte>, b: seq<LogTail.byte>)
    ensures Decoded(a + b) == Decoded(a) + Decoded(b)
  {
  }

  /** The stream the control plane sees is what was uploaded. */
  lemma {:induction false} StreamOfUploads(uploads: seq<seq<LogTail.byte>>)
    ensures Stream(Chunks(uploads)) == Decoded(LogTail.Concat(uploads))
  {
    if uploads != [] {
      var n := |uploads| - 1;
      StreamOfUploads(uploads[..n]);
      assert Chunks(uploads)[..n] == Chunks(uploads[..n]);
      DecodedAppend(LogTail.Concat(uploads[..n]), uploads[n]);
    }
  }

  /** The complete lines of a prefix are the first lines of the whole. */
  lemma LinesOfPrefix(prefix: string, rest: string)
    ensures var some, all := Split(prefix), Split(prefix + rest);
            && |some| <= |all|
            && (forall k :: 0 <= k < |some| - 1 ==> some[k] == all[k])
            && (rest == "" ==> some == all)
  {
    SplitAppend(prefix, rest);
    if rest == "" { assert prefix + rest == prefix; }
  }

  /** What comes out of the uploads is faithful to the lines of the uploads followed by anything else. */
  lemma LinesOfUploads(uploads: seq<seq<LogTail.byte>>, rest: seq<LogTail.byte>)
    ensures var truth, out := Split(Decoded(LogTail.Concat(uploads) + rest)), ExtractAll(Chunks(uploads));
            && |out.lines| < |truth|
            && (forall k :: 0 <= k < |out.lines| ==> Faithful(out.lines[k], truth[k]))
            && (rest == [] ==> |out.lines| == |truth| - 1)
  {
    DecodedAppend(LogTail.Concat(uploads), rest);
    StreamOfUploads(uploads);
    ExtractionIsFaithful(Chunks(uploads));
    LinesOfPrefix(Decoded(LogTail.Concat(uploads)), Decoded(rest));
  }

  /**
   In every orderly run, however the tailer cut the stream into batches and whatever failed: the lines that come out
   are faithful to the first lines of the files the path came to name, after the head passed over, and they are all
   complete lines once nothing is pending, unread or waiting.
   */
  lemma LinesAreFaithfulEndToEnd(d: LogTail.Disk, ticks: seq<LogTail.Tick>)
    requires LogTail.AllGrow(d, ticks) && LogTail.Orderly(LogTail.NEW, None, ticks, LogTail.LastDisk(d, ticks))
    ensures var t, e := LogTail.Run(LogTail.NEW, ticks), LogTail.LastDisk(d, ticks);
            var head, named := |LogTail.RunHead(LogTail.NEW, ticks, e)|, LogTail.Files(LogTail.Names(None, ticks), e);
            && head <= |named|
            && var truth, out := Split(Decoded(named[head..])), ExtractAll(Chunks(t.uploads));
            && |out.lines| < |truth|
            && (forall k :: 0 <= k < |out.lines| ==> Faithful(out.lines[k], truth[k]))
            && (LogTail.Kept(t, LogTail.LastName(None, ticks), e) == LogTail.Concat(t.uploads) ==>
                  |out.lines| == |truth| - 1)
  {
    var rest := LogTail.UploadsBeginStream(d, ticks);
    LinesOfUploads(LogTail.Run(LogTail.NEW, ticks).uploads, rest);
  }
}
