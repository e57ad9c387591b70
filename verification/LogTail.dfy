/**
 The agent's log tailer: it follows a growing, truncated or rotated file and uploads it in batches.

 The disk is a map from file identities to contents plus the file the path names at the moment; any
 of its calls may fail.  Beside its own fields the tailer carries a history: the batches that were
 uploaded and every byte it read.
 */
module LogTail {
  import opened Wrappers

  newtype byte = x: int | 0 <= x < 256

  type FileId = nat

  datatype Disk = Disk(files: map<FileId, seq<byte>>, path: Option<FileId>)

  /** Which calls succeed during one step. */
  datatype Io = Io(openOk: bool, statOk: bool, pathStatOk: bool, seekOk: bool, readOk: bool, uploadOk: bool)

  const MAX_CHUNK := 64 * 1024
  const INITIAL_TAIL := 64 * 1024
  const BATCH_LATENCY := 350

  datatype Tail = Tail(
    file: Option<FileId>, initialized: bool, readOffset: nat, ackedOffset: nat,
    pending: seq<byte>, pendingSince: int, resetPending: bool, replaced: bool, missing: bool,
    uploads: seq<seq<byte>>, bytesRead: seq<byte>)

  const NEW := Tail(None, false, 0, 0, [], 0, false, false, false, [], [])

  datatype Outcome = Outcome(tail: Tail, ok: bool)

  function Concat(batches: seq<seq<byte>>): seq<byte> {
    if batches == [] then [] else Concat(batches[..|batches| - 1]) + batches[|batches| - 1]
  }

  /** The content of the open file; an open file stays readable after its path is gone. */
  function Content(d: Disk, f: FileId): seq<byte> {
    if f in d.files then d.files[f] else []
  }

  // ---------- One step, as functions ----------

  predicate OffsetsMatch(t: Tail) {
    t.readOffset == t.ackedOffset + |t.pending|
  }

  /** The stage from t to u moved no bytes. */
  predicate SameBytes(t: Tail, u: Tail) {
    && u.pending == t.pending && u.uploads == t.uploads && u.bytesRead == t.bytesRead
    && (OffsetsMatch(t) ==> OffsetsMatch(u))
  }

  /** A first open passes over all but the last 64 KiB. */
  function PassedOver(content: seq<byte>): nat {
    if |content| > INITIAL_TAIL then |content| - INITIAL_TAIL else 0
  }

  function Open(t: Tail, d: Disk, io: Io): (r: Outcome)
    requires t.pending == []
    ensures SameBytes(t, r.tail) && (r.ok ==> r.tail.file.Some?)
  {
    if !io.openOk || d.path.None? || !io.statOk then Outcome(t, false)
    else
      var start := if !t.initialized then PassedOver(Content(d, d.path.value)) else 0;
      if !io.seekOk then Outcome(t, false)
      else
        Outcome(t.(file := d.path, initialized := true, readOffset := start, ackedOffset := start,
                   replaced := false, missing := false, resetPending := false), true)
  }

  function ObservePath(t: Tail, d: Disk, io: Io): (r: Outcome)
    requires t.file.Some?
    ensures SameBytes(t, r.tail) && r.tail.file == t.file
  {
    if !io.statOk then Outcome(t, false)
    else
      var u := if |Content(d, t.file.value)| < t.readOffset then t.(resetPending := true) else t;
      if !io.pathStatOk then Outcome(u, false)
      else if d.path.None? then Outcome(u.(missing := true), true)
      else Outcome(u.(missing := false, replaced := d.path != t.file), true)
  }

  function Reset(t: Tail, io: Io): (r: Outcome)
    requires t.pending == []
    ensures SameBytes(t, r.tail) && r.tail.file == t.file
  {
    if !io.seekOk then Outcome(t, false)
    else Outcome(t.(readOffset := 0, ackedOffset := 0, resetPending := false), true)
  }

  /** What reading a file into the space left in the batch returns: everything available, up to that space. */
  function ReadInto(content: seq<byte>, offset: nat, space: nat): (chunk: seq<byte>)
    ensures |chunk| <= space
    ensures offset + |chunk| <= |content| || chunk == []
  {
    if offset >= |content| then []
    else if |content| - offset <= space then content[offset..]
    else content[offset..offset + space]
  }

  function Chunk(t: Tail, d: Disk): seq<byte>
    requires t.file.Some? && |t.pending| <= MAX_CHUNK
  {
    ReadInto(Content(d, t.file.value), t.readOffset, MAX_CHUNK - |t.pending|)
  }

  function Read(t: Tail, d: Disk, now: int, io: Io): Outcome
    requires t.file.Some? && |t.pending| <= MAX_CHUNK
  {
    if !io.readOk then Outcome(t, false)
    else
      var chunk := Chunk(t, d);
      if chunk != [] then
        Outcome(t.(pending := t.pending + chunk, readOffset := t.readOffset + |chunk|,
                   pendingSince := if t.pending == [] then now else t.pendingSince,
                   bytesRead := t.bytesRead + chunk), true)
      else if (t.replaced || t.missing) && t.pending != [] then
        Outcome(t.(pendingSince := now - BATCH_LATENCY), true)
      else Outcome(t, true)
  }

  predicate BatchDue(t: Tail, now: int) {
    t.pending != [] && now >= t.pendingSince + BATCH_LATENCY
  }

  function Flush(t: Tail, io: Io): Outcome {
    if t.pending == [] then Outcome(t, true)
    else if !io.uploadOk then Outcome(t, false)
    else
      Outcome(t.(ackedOffset := t.ackedOffset + |t.pending|, pending := [], pendingSince := 0,
                 uploads := t.uploads + [t.pending]), true)
  }

  /** Follows the file the path names now. */
  function Switch(t: Tail, d: Disk, io: Io): Outcome
    requires t.file.Some?
  {
    if !io.openOk || d.path.None? || !io.statOk then Outcome(t, false)
    else
      Outcome(t.(file := d.path, readOffset := 0, ackedOffset := 0, replaced := false, missing := false,
                 resetPending := false), true)
  }

  predicate Sound(t: Tail) {
    |t.pending| <= MAX_CHUNK && (t.file.None? ==> t.pending == [])
  }

  function EnsureOpen(t: Tail, d: Disk, io: Io): (r: Outcome)
    requires Sound(t)
    ensures SameBytes(t, r.tail) && (r.ok ==> r.tail.file.Some?)
  {
    if t.file.None? then Open(t, d, io) else Outcome(t, true)
  }

  function Rewind(t: Tail, io: Io): (r: Outcome)
    ensures SameBytes(t, r.tail) && r.tail.file == t.file
  {
    if t.resetPending && t.pending == [] then Reset(t, io) else Outcome(t, true)
  }

  /** Makes sure a file is open, looks at the path, and rewinds a truncated file once its batch is out. */
  function Prepare(t: Tail, d: Disk, io: Io): (r: Outcome)
    requires Sound(t)
    ensures SameBytes(t, r.tail) && Sound(r.tail) && (r.ok ==> r.tail.file.Some?)
  {
    var afterOpen := EnsureOpen(t, d, io);
    if !afterOpen.ok then afterOpen
    else
      var afterStat := ObservePath(afterOpen.tail, d, io);
      if !afterStat.ok then afterStat else Rewind(afterStat.tail, io)
  }

  function Fill(t: Tail, d: Disk, now: int, io: Io): (r: Outcome)
    requires Sound(t) && t.file.Some?
    ensures Sound(r.tail) && r.tail.file == t.file
  {
    if |t.pending| < MAX_CHUNK && !t.resetPending then Read(t, d, now, io) else Outcome(t, true)
  }

  function Drain(t: Tail, now: int, io: Io): Outcome {
    if |t.pending| == MAX_CHUNK || BatchDue(t, now) then Flush(t, io) else Outcome(t, true)
  }

  function Follow(t: Tail, d: Disk, io: Io): Outcome
    requires t.file.Some?
  {
    if t.pending == [] && t.replaced then Switch(t, d, io) else Outcome(t, true)
  }

  /** Reads, uploads a batch that is full or due, and then follows a replacement. */
  function Deliver(t: Tail, d: Disk, now: int, io: Io): Outcome
    requires Sound(t) && t.file.Some?
  {
    var filled := Fill(t, d, now, io);
    if !filled.ok then filled
    else
      var drained := Drain(filled.tail, now, io);
      if !drained.ok then drained else Follow(drained.tail, d, io)
  }

  function StepTail(t: Tail, d: Disk, now: int, io: Io): Outcome
    requires Sound(t)
  {
    var prepared := Prepare(t, d, io);
    if !prepared.ok then prepared else Deliver(prepared.tail, d, now, io)
  }

  // ---------- Nothing read is lost or duplicated ----------

  /** The uploaded batches followed by the pending bytes are the bytes read, and the offsets say so. */
  ghost predicate Accounted(t: Tail) {
    && Sound(t)
    && Concat(t.uploads) + t.pending == t.bytesRead
    && OffsetsMatch(t)
    && forall k :: 0 <= k < |t.uploads| ==> 0 < |t.uploads[k]| <= MAX_CHUNK
  }

  lemma FillKeepsAccount(t: Tail, d: Disk, now: int, io: Io)
    requires Accounted(t) && t.file.Some?
    ensures Accounted(Fill(t, d, now, io).tail)
  {
    var chunk := Chunk(t, d);
    assert Concat(t.uploads) + (t.pending + chunk) == (Concat(t.uploads) + t.pending) + chunk;
  }

  lemma DrainKeepsAccount(t: Tail, now: int, io: Io)
    requires Accounted(t)
    ensures Accounted(Drain(t, now, io).tail)
  {
    var u := Drain(t, now, io).tail;
    if u != t {
      assert u.uploads[..|u.uploads| - 1] == t.uploads;
      assert Concat(u.uploads) + [] == Concat(t.uploads) + t.pending;
    }
  }

  lemma FollowKeepsAccount(t: Tail, d: Disk, io: Io)
    requires Accounted(t) && t.file.Some?
    ensures Accounted(Follow(t, d, io).tail)
  {
  }

  lemma DeliverKeepsAccount(t: Tail, d: Disk, now: int, io: Io)
    requires Accounted(t) && t.file.Some?
    ensures Accounted(Deliver(t, d, now, io).tail)
  {
    FillKeepsAccount(t, d, now, io);
    var filled := Fill(t, d, now, io);
    if filled.ok {
      DrainKeepsAccount(filled.tail, now, io);
      var drained := Drain(filled.tail, now, io);
      if drained.ok {
        FollowKeepsAccount(drained.tail, d, io);
      }
    }
  }

  lemma StepKeepsAccount(t: Tail, d: Disk, now: int, io: Io)
    requires Accounted(t)
    ensures Accounted(StepTail(t, d, now, io).tail)
  {
    var prepared := Prepare(t, d, io);
    if prepared.ok {
      DeliverKeepsAccount(prepared.tail, d, now, io);
    }
  }

  /** One wake-up of the tailer, with the disk it finds. */
  datatype Tick = Tick(disk: Disk, now: int, io: Io)

  lemma DeliverOpensPath(t: Tail, d: Disk, now: int, io: Io)
    requires Sound(t) && t.file.Some?
    ensures Deliver(t, d, now, io).tail.file in {t.file, d.path} && Deliver(t, d, now, io).tail.file.Some?
  {
  }

  lemma StepOpensPath(t: Tail, d: Disk, now: int, io: Io)
    requires Sound(t)
    ensures var u := StepTail(t, d, now, io).tail; u.file == t.file || (u.file == d.path && u.file.Some?)
  {
    var prepared := Prepare(t, d, io);
    if prepared.ok {
      DeliverOpensPath(prepared.tail, d, now, io);
    }
  }

  function Next(t: Tail, tick: Tick): (u: Tail)
    requires Accounted(t)
    ensures Accounted(u)
    ensures u.file == t.file || (u.file == tick.disk.path && u.file.Some?)
  {
    StepKeepsAccount(t, tick.disk, tick.now, tick.io);
    StepOpensPath(t, tick.disk, tick.now, tick.io);
    StepTail(t, tick.disk, tick.now, tick.io).tail
  }

  lemma NextIsDeliver(t: Tail, tick: Tick)
    requires Accounted(t)
    ensures var prepared := Prepare(t, tick.disk, tick.io);
            Next(t, tick) == if prepared.ok then Deliver(prepared.tail, tick.disk, tick.now, tick.io).tail
                             else prepared.tail
  {
  }

  function Run(t: Tail, ticks: seq<Tick>): (u: Tail)
    requires Accounted(t)
    decreases |ticks|
  {
    if ticks == [] then t else Run(Next(t, ticks[0]), ticks[1..])
  }

  /**
   In every run, whatever the disk does and whichever calls fail, the uploaded batches and the pending
   bytes together are all bytes read, in order, and no batch is empty or larger than 64 KiB.
   */
  lemma {:induction false} NothingReadIsLost(t: Tail, ticks: seq<Tick>)
    requires Accounted(t)
    ensures Accounted(Run(t, ticks))
    decreases |ticks|
  {
    if ticks != [] {
      NothingReadIsLost(Next(t, ticks[0]), ticks[1..]);
    }
  }

  // ---------- Rotation ----------

  function Take(s: seq<byte>, n: nat): seq<byte> {
    if |s| <= n then s else s[..n]
  }

  function Beyond(s: seq<byte>, n: nat): seq<byte> {
    if n <= |s| then s[n..] else []
  }

  /** What the open file still holds beyond the last read. */
  function Unread(t: Tail, d: Disk): seq<byte> {
    if t.file.Some? then Beyond(Content(d, t.file.value), t.readOffset) else []
  }

  lemma ConcatAppend(batches: seq<seq<byte>>, last: seq<byte>)
    ensures Concat(batches + [last]) == Concat(batches) + last
  {
    assert (batches + [last])[..|batches|] == batches;
  }

  /** A read takes as much of the unread rest as the batch has room for. */
  lemma FillTakes(t: Tail, d: Disk, now: int, io: Io)
    requires Sound(t) && t.file.Some? && !t.resetPending && t.readOffset <= |Content(d, t.file.value)|
    requires Fill(t, d, now, io).ok
    ensures Fill(t, d, now, io).tail.pending == Take(t.pending + Unread(t, d), MAX_CHUNK)
    ensures Fill(t, d, now, io).tail.uploads == t.uploads
  {
    if |t.pending| < MAX_CHUNK {
      assert Chunk(t, d) == Take(Unread(t, d), MAX_CHUNK - |t.pending|);
      TakeAppend(t.pending, Unread(t, d), MAX_CHUNK);
    } else {
      assert Take(t.pending + Unread(t, d), MAX_CHUNK) == t.pending;
    }
  }

  lemma TakeAppend(a: seq<byte>, b: seq<byte>, n: nat)
    requires |a| <= n
    ensures Take(a + b, n) == a + Take(b, n - |a|)
  {
  }

  /** Nothing but the flags changes while an untruncated file is open. */
  lemma PrepareKeepsOpenFile(t: Tail, d: Disk, io: Io)
    requires Sound(t) && t.file.Some? && !t.resetPending && t.readOffset <= |Content(d, t.file.value)|
    ensures var u := Prepare(t, d, io).tail;
            && u.file == t.file && !u.resetPending && u.readOffset == t.readOffset
  {
  }

  lemma DrainUploads(t: Tail, now: int, io: Io)
    ensures var u := Drain(t, now, io).tail;
            && u.file == t.file && u.readOffset == t.readOffset
            && u.bytesRead == t.bytesRead && u.resetPending == t.resetPending
            && Concat(u.uploads) + u.pending == Concat(t.uploads) + t.pending
  {
    var u := Drain(t, now, io).tail;
    if u != t {
      ConcatAppend(t.uploads, t.pending);
      assert u.uploads == t.uploads + [t.pending] && u.pending == [];
      assert Concat(u.uploads) + [] == Concat(u.uploads);
    }
  }

  lemma FollowLeaves(t: Tail, d: Disk, io: Io)
    requires t.file.Some? && Follow(t, d, io).tail.file != t.file
    ensures t.pending == [] && Follow(t, d, io).tail.uploads == t.uploads
  {
  }

  /** A step that leaves an untruncated file has uploaded the first 64 KiB of what was pending or unread. */
  lemma SwitchUploadsOneBatch(t: Tail, d: Disk, now: int, io: Io)
    requires Accounted(t) && t.file.Some? && !t.resetPending && t.readOffset <= |Content(d, t.file.value)|
    requires StepTail(t, d, now, io).tail.file != t.file
    ensures Concat(StepTail(t, d, now, io).tail.uploads) ==
            Concat(t.uploads) + Take(t.pending + Unread(t, d), MAX_CHUNK)
  {
    PrepareKeepsOpenFile(t, d, io);
    var prepared := Prepare(t, d, io);
    var filled := Fill(prepared.tail, d, now, io);
    FillTakes(prepared.tail, d, now, io);
    var drained := Drain(filled.tail, now, io);
    DrainUploads(filled.tail, now, io);
    FollowLeaves(drained.tail, d, io);
    assert Concat(drained.tail.uploads) + [] == Concat(drained.tail.uploads);
  }

  /**
   Leaving a rotated file loses none of its bytes exactly if everything still unread fits into the
   current batch; otherwise the excess is never uploaded.
   */
  lemma RotationLosslessIffFits(t: Tail, d: Disk, now: int, io: Io)
    requires Accounted(t) && t.file.Some? && !t.resetPending && t.readOffset <= |Content(d, t.file.value)|
    requires StepTail(t, d, now, io).tail.file != t.file
    ensures Concat(StepTail(t, d, now, io).tail.uploads) == Concat(t.uploads) + t.pending + Unread(t, d)
            <==> |t.pending| + |Unread(t, d)| <= MAX_CHUNK
  {
    SwitchUploadsOneBatch(t, d, now, io);
    TakesAll(Concat(t.uploads), t.pending, Unread(t, d), MAX_CHUNK);
  }

  lemma TakesAll(sent: seq<byte>, a: seq<byte>, b: seq<byte>, n: nat)
    ensures sent + Take(a + b, n) == sent + a + b <==> |a| + |b| <= n
  {
    assert sent + (a + b) == sent + a + b;
    if |a| + |b| > n {
      assert |sent + Take(a + b, n)| < |sent + a + b|;
    }
  }

  // ---------- Which files are followed ----------

  /** The name the path has or had last. */
  function NextName(last: Option<FileId>, d: Disk): Option<FileId> {
    if d.path.Some? then d.path else last
  }

  function LastName(last: Option<FileId>, ticks: seq<Tick>): Option<FileId>
    decreases |ticks|
  {
    if ticks == [] then last else LastName(NextName(last, ticks[0].disk), ticks[1..])
  }

  /** The file the path came to name, if its name changed. */
  function NewName(last: Option<FileId>, d: Disk): seq<FileId> {
    if d.path.Some? && d.path != last then [d.path.value] else []
  }

  /** The files the path came to name, one after the other; a tick whose calls all fail is just a look at the disk. */
  function Names(last: Option<FileId>, ticks: seq<Tick>): seq<FileId>
    decreases |ticks|
  {
    if ticks == [] then [] else NewName(last, ticks[0].disk) + Names(NextName(last, ticks[0].disk), ticks[1..])
  }

  lemma FailingTickIsJustALook(t: Tail, d: Disk, now: int)
    requires Sound(t)
    ensures StepTail(t, d, now, Io(false, false, false, false, false, false)).tail == t
  {
  }

  /** The file a step opens. */
  function NewFile(t: Tail, tick: Tick): seq<FileId>
    requires Accounted(t)
  {
    var u := Next(t, tick);
    if u.file != t.file then [u.file.value] else []
  }

  function Opened(t: Tail, ticks: seq<Tick>): seq<FileId>
    requires Accounted(t)
    decreases |ticks|
  {
    if ticks == [] then [] else NewFile(t, ticks[0]) + Opened(Next(t, ticks[0]), ticks[1..])
  }

  /** The file the path names while the tailer is still at another one. */
  function Waiting(t: Tail, last: Option<FileId>): seq<FileId> {
    if last.Some? && t.file != last then [last.value] else []
  }

  /** No file is named while the one named before is still waiting. */
  ghost predicate NeverSkips(t: Tail, last: Option<FileId>, ticks: seq<Tick>)
    requires Accounted(t)
    decreases |ticks|
  {
    ticks == [] ||
    ((NewName(last, ticks[0].disk) == [] || Waiting(t, last) == []) &&
     NeverSkips(Next(t, ticks[0]), NextName(last, ticks[0].disk), ticks[1..]))
  }

  /** Without a skip, what was waiting and what is newly named is opened or waiting; with one, something is missing. */
  lemma StepOpens(t: Tail, last: Option<FileId>, tick: Tick)
    requires Accounted(t) && (t.file.Some? ==> last.Some?)
    ensures var d, u := tick.disk, Next(t, tick);
            var before, after := Waiting(t, last) + NewName(last, d), NewFile(t, tick) + Waiting(u, NextName(last, d));
            if NewName(last, d) == [] || Waiting(t, last) == [] then before == after else |before| > |after|
  {
  }

  /**
   In every run the files opened, with the one still waiting, are the files the path came to name, in order, if and
   only if no file was named while the one before was still waiting; otherwise they are fewer.
   */
  lemma {:induction false} NamesAreOpenedIff(t: Tail, last: Option<FileId>, ticks: seq<Tick>)
    requires Accounted(t) && (t.file.Some? ==> last.Some?)
    ensures var named := Waiting(t, last) + Names(last, ticks);
            var followed := Opened(t, ticks) + Waiting(Run(t, ticks), LastName(last, ticks));
            (named == followed <==> NeverSkips(t, last, ticks)) && |named| >= |followed|
    decreases |ticks|
  {
    if ticks != [] {
      var u, next, rest := Next(t, ticks[0]), NextName(last, ticks[0].disk), ticks[1..];
      StepOpens(t, last, ticks[0]);
      NamesAreOpenedIff(u, next, rest);
      FirstTickOpens(t, last, ticks);
      var waiting := Waiting(Run(u, rest), LastName(next, rest));
      Regroup(NewFile(t, ticks[0]), Opened(u, rest), waiting);
      OneMoreStep(Waiting(t, last), NewName(last, ticks[0].disk), Names(next, rest), NewFile(t, ticks[0]),
                  Waiting(u, next), Opened(u, rest) + waiting,
                  Waiting(t, last) != [] && NewName(last, ticks[0].disk) != [], NeverSkips(u, next, rest));
    }
  }

  lemma Regroup<T>(a: seq<T>, b: seq<T>, c: seq<T>)
    ensures (a + b) + c == a + (b + c)
  {
  }

  lemma FirstTickOpens(t: Tail, last: Option<FileId>, ticks: seq<Tick>)
    requires Accounted(t) && ticks != []
    ensures var u, next, rest := Next(t, ticks[0]), NextName(last, ticks[0].disk), ticks[1..];
            && Run(t, ticks) == Run(u, rest) && LastName(last, ticks) == LastName(next, rest)
            && Opened(t, ticks) == NewFile(t, ticks[0]) + Opened(u, rest)
            && Names(last, ticks) == NewName(last, ticks[0].disk) + Names(next, rest)
            && (NeverSkips(t, last, ticks) <==>
                !(Waiting(t, last) != [] && NewName(last, ticks[0].disk) != []) && NeverSkips(u, next, rest))
  {
  }

  lemma OneMoreStep(waiting: seq<FileId>, named: seq<FileId>, rest: seq<FileId>, taken: seq<FileId>,
                    waits: seq<FileId>, followed: seq<FileId>, skips: bool, neverLater: bool)
    requires if skips then |waiting + named| > |taken + waits| else waiting + named == taken + waits
    requires (waits + rest == followed <==> neverLater) && |waits + rest| >= |followed|
    ensures waiting + (named + rest) == taken + followed <==> !skips && neverLater
    ensures |waiting + (named + rest)| >= |taken + followed|
  {
    if !skips {
      assert waiting + (named + rest) == (waiting + named) + rest == (taken + waits) + rest == taken + (waits + rest);
      if taken + (waits + rest) == taken + followed {
        assert followed == (taken + followed)[|taken|..] == waits + rest;
      }
    }
  }

  // ---------- What becomes of every byte ----------

  /** The disk changed by appending to files, creating files and repointing the path only. */
  predicate Grows(d: Disk, e: Disk) {
    forall f :: f in d.files ==> f in e.files && d.files[f] <= e.files[f]
  }

  /** A history without truncations. */
  ghost predicate AllGrow(d: Disk, ticks: seq<Tick>)
    decreases |ticks|
  {
    ticks == [] || (Grows(d, ticks[0].disk) && AllGrow(ticks[0].disk, ticks[1..]))
  }

  function LastDisk(d: Disk, ticks: seq<Tick>): Disk
    decreases |ticks|
  {
    if ticks == [] then d else LastDisk(ticks[0].disk, ticks[1..])
  }

  lemma {:induction false} GrowsToLast(d: Disk, ticks: seq<Tick>)
    requires AllGrow(d, ticks)
    ensures Grows(d, LastDisk(d, ticks))
    decreases |ticks|
  {
    if ticks != [] {
      GrowsToLast(ticks[0].disk, ticks[1..]);
    }
  }

  /** The contents of these files, one after the other. */
  function Files(names: seq<FileId>, e: Disk): seq<byte> {
    if names == [] then [] else Content(e, names[0]) + Files(names[1..], e)
  }

  lemma {:induction false} FilesAppend(a: seq<FileId>, b: seq<FileId>, e: Disk)
    ensures Files(a + b, e) == Files(a, e) + Files(b, e)
  {
    if a == [] {
      assert a + b == b;
    } else {
      FilesAppend(a[1..], b, e);
      assert (a + b)[1..] == a[1..] + b;
    }
  }

  /** Where an untruncated file is open the read offset lies in it; before the first open nothing was read. */
  predicate Tracks(t: Tail, d: Disk) {
    && !t.resetPending
    && match t.file
       case None => !t.initialized && t.bytesRead == []
       case Some(f) => t.readOffset <= |Content(d, f)|
  }

  /** What was read, is unread or waits to be opened. */
  function Balance(t: Tail, last: Option<FileId>, e: Disk): seq<byte> {
    t.bytesRead + Unread(t, e) + Files(Waiting(t, last), e)
  }

  /** The beginning of the file of a first open, which is passed over. */
  function Head(t: Tail, tick: Tick, e: Disk): seq<byte>
    requires Accounted(t)
  {
    var u := Next(t, tick);
    if t.file.None? && u.file.Some? then Take(Content(e, u.file.value), PassedOver(Content(tick.disk, u.file.value)))
    else []
  }

  function RunHead(t: Tail, ticks: seq<Tick>, e: Disk): seq<byte>
    requires Accounted(t)
    decreases |ticks|
  {
    if ticks == [] then [] else Head(t, ticks[0], e) + RunHead(Next(t, ticks[0]), ticks[1..], e)
  }

  /** What a step that leaves a file has not read of it: what one batch had no room for, and what was appended later. */
  function LeftUnread(t: Tail, tick: Tick, e: Disk): seq<byte>
    requires Accounted(t)
  {
    if t.file.None? || Next(t, tick).file == t.file then []
    else
      Beyond(t.pending + Unread(t, tick.disk), MAX_CHUNK) +
      Beyond(Content(e, t.file.value), |Content(tick.disk, t.file.value)|)
  }

  /** The files a new name puts out of reach: the one still waiting, and a return to the open file counts as a name. */
  function Skipped(t: Tail, last: Option<FileId>, d: Disk): seq<FileId> {
    if NewName(last, d) == [] then []
    else Waiting(t, last) + (if t.file == d.path && Waiting(t, last) != [] then NewName(last, d) else [])
  }

  /** The bytes a step loses, in files as the disk e holds them. */
  function Lost(t: Tail, last: Option<FileId>, tick: Tick, e: Disk): seq<byte>
    requires Accounted(t)
  {
    LeftUnread(t, tick, e) + Files(Skipped(t, last, tick.disk), e)
  }

  function RunLost(t: Tail, last: Option<FileId>, ticks: seq<Tick>, e: Disk): seq<byte>
    requires Accounted(t)
    decreases |ticks|
  {
    if ticks == [] then []
    else
      Lost(t, last, ticks[0], e) + RunLost(Next(t, ticks[0]), NextName(last, ticks[0].disk), ticks[1..], e)
  }

  /** Reading moves bytes of the file from the unread to the read ones; every byte of the file counts once. */
  lemma FillMovesBytes(t: Tail, d: Disk, now: int, io: Io, e: Disk)
    requires Sound(t) && t.file.Some? && Tracks(t, d) && Grows(d, e)
    ensures var u := Fill(t, d, now, io).tail;
            && Tracks(u, d)
            && u.bytesRead + Unread(u, e) == t.bytesRead + Unread(t, e)
            && (Fill(t, d, now, io).ok ==> u.bytesRead == t.bytesRead + Take(Unread(t, d), MAX_CHUNK - |t.pending|))
  {
    var content, whole := Content(d, t.file.value), Content(e, t.file.value);
    assert content <= whole;
    if |t.pending| < MAX_CHUNK {
      ReadMovesBytes(t, d, now, io);
      if io.readOk {
        ReadingMoves(t.bytesRead, whole, content, t.readOffset, |Chunk(t, d)|);
      }
    } else {
      assert t.bytesRead + Take(Unread(t, d), 0) == t.bytesRead;
    }
  }

  lemma ReadMovesBytes(t: Tail, d: Disk, now: int, io: Io)
    requires t.file.Some? && |t.pending| <= MAX_CHUNK && t.readOffset <= |Content(d, t.file.value)|
    ensures var u, content, chunk := Read(t, d, now, io).tail, Content(d, t.file.value), Chunk(t, d);
            && u.file == t.file && u.resetPending == t.resetPending
            && chunk == Take(Unread(t, d), MAX_CHUNK - |t.pending|)
            && t.readOffset + |chunk| <= |content| && chunk == content[t.readOffset..t.readOffset + |chunk|]
            && if !io.readOk then u == t
               else u.readOffset == t.readOffset + |chunk| && u.bytesRead == t.bytesRead + chunk
  {
    ChunkIsTaken(Content(d, t.file.value), t.readOffset, MAX_CHUNK - |t.pending|);
    if Chunk(t, d) == [] {
      assert t.bytesRead + Chunk(t, d) == t.bytesRead;
    }
  }

  lemma ChunkIsTaken(content: seq<byte>, offset: nat, space: nat)
    ensures ReadInto(content, offset, space) == Take(Beyond(content, offset), space)
  {
  }

  lemma ReadingMoves(done: seq<byte>, whole: seq<byte>, content: seq<byte>, offset: nat, n: nat)
    requires offset + n <= |content| && content <= whole
    ensures done + Beyond(whole, offset) == (done + content[offset..offset + n]) + Beyond(whole, offset + n)
  {
    assert whole[offset..] == content[offset..offset + n] + whole[offset + n..];
  }

  /** A step that stays at its file loses nothing of it. */
  lemma DeliverMovesBytes(t: Tail, d: Disk, now: int, io: Io, e: Disk)
    requires Sound(t) && t.file.Some? && Tracks(t, d) && Grows(d, e)
    requires t.replaced ==> d.path != t.file
    ensures var u := Deliver(t, d, now, io).tail;
            && Tracks(u, d)
            && (u.file == t.file ==> u.bytesRead + Unread(u, e) == t.bytesRead + Unread(t, e))
            && (u.file != t.file ==>
                  && u.file == d.path && u.file.Some?
                  && u.readOffset == 0
                  && u.bytesRead == t.bytesRead + Take(Unread(t, d), MAX_CHUNK - |t.pending|))
  {
    FillMovesBytes(t, d, now, io, e);
    var filled := Fill(t, d, now, io);
    if filled.ok {
      DrainUploads(filled.tail, now, io);
      DrainKeepsTrack(filled.tail, d, now, io, e);
    }
  }

  lemma DrainKeepsTrack(t: Tail, d: Disk, now: int, io: Io, e: Disk)
    requires t.file.Some? && Tracks(t, d)
    ensures var u := Drain(t, now, io).tail; Tracks(u, d) && Unread(u, e) == Unread(t, e) && u.replaced == t.replaced
  {
  }

  /** After a successful look at the path, replaced is only set for another file or while the path is gone. */
  lemma ReplacedMeansOther(t: Tail, d: Disk, io: Io)
    requires Sound(t) && Prepare(t, d, io).ok
    ensures var u := Prepare(t, d, io).tail; u.replaced ==> d.path != u.file
  {
  }

  /** Opening passes over the beginning; the flags are all that changes of an untruncated open file. */
  lemma PrepareKeepsTrack(t: Tail, d: Disk, io: Io)
    requires Sound(t) && Tracks(t, d)
    ensures var u := Prepare(t, d, io).tail;
            && Tracks(u, d)
            && (t.file.Some? ==> u.file == t.file && u.readOffset == t.readOffset)
            && (t.file.None? && u.file.Some? ==>
                  u.file == d.path && u.readOffset == PassedOver(Content(d, u.file.value)))
  {
  }
  lemma StayingLosesNothing(t: Tail, tick: Tick, e: Disk)
    requires Accounted(t) && Tracks(t, tick.disk) && Grows(tick.disk, e)
    requires t.file == Next(t, tick).file
    ensures Tracks(Next(t, tick), tick.disk)
    ensures Next(t, tick).bytesRead + Unread(Next(t, tick), e) == t.bytesRead + Unread(t, e)
  {
    var d, now, io := tick.disk, tick.now, tick.io;
    PrepareKeepsTrack(t, d, io);
    var prepared := Prepare(t, d, io);
    if prepared.ok {
      ReplacedMeansOther(t, d, io);
      DeliverMovesBytes(prepared.tail, d, now, io, e);
    }
  }

  /** A step that opens the first file passes over its head and has the rest read or unread. */
  lemma FirstOpenPassesOver(t: Tail, tick: Tick, e: Disk)
    requires Accounted(t) && Tracks(t, tick.disk) && Grows(tick.disk, e)
    requires t.file.None? && Next(t, tick).file.Some?
    ensures var u := Next(t, tick);
            Tracks(u, tick.disk) && Head(t, tick, e) + (u.bytesRead + Unread(u, e)) == Content(e, u.file.value)
  {
    var d, now, io, u := tick.disk, tick.now, tick.io, Next(t, tick);
    PrepareKeepsTrack(t, d, io);
    var prepared := Prepare(t, d, io);
    if prepared.ok {
      ReplacedMeansOther(t, d, io);
      DeliverMovesBytes(prepared.tail, d, now, io, e);
      assert u.file == d.path;
      assert prepared.tail.file == d.path && prepared.tail.bytesRead == [];
      assert u.bytesRead + Unread(u, e) == [] + Unread(prepared.tail, e) == Unread(prepared.tail, e);
    } else {
      assert u.bytesRead == [] && [] + Unread(u, e) == Unread(u, e);
    }
    HeadAndRest(Content(e, u.file.value), PassedOver(Content(d, u.file.value)));
  }

  lemma HeadAndRest(content: seq<byte>, n: nat)
    requires n <= |content|
    ensures Take(content, n) + Beyond(content, n) == content
  {
  }

  /** A step that leaves its file has read all of it but what `LeftUnread` says. */
  lemma LeavingLosesTheRest(t: Tail, tick: Tick, e: Disk)
    requires Accounted(t) && Tracks(t, tick.disk) && Grows(tick.disk, e)
    requires t.file.Some? && Next(t, tick).file != t.file
    ensures var u, left := Next(t, tick), LeftUnread(t, tick, e);
            && Tracks(u, tick.disk)
            && Unread(u, e) == Content(e, u.file.value)
            && |u.bytesRead| + |left| == |t.bytesRead| + |Unread(t, e)|
            && (left == [] ==> u.bytesRead == t.bytesRead + Unread(t, e))
  {
    var d, now, io := tick.disk, tick.now, tick.io;
    PrepareKeepsTrack(t, d, io);
    ReplacedMeansOther(t, d, io);
    DeliverMovesBytes(Prepare(t, d, io).tail, d, now, io, e);
    GrowthExtendsUnread(Content(d, t.file.value), Content(e, t.file.value), t.readOffset);
    LeavingAddsUp(t.bytesRead, t.pending, Unread(t, d), Beyond(Content(e, t.file.value), |Content(d, t.file.value)|));
  }

  lemma LeavingAddsUp(done: seq<byte>, pending: seq<byte>, unread: seq<byte>, later: seq<byte>)
    requires |pending| <= MAX_CHUNK
    ensures var taken, left := Take(unread, MAX_CHUNK - |pending|), Beyond(pending + unread, MAX_CHUNK) + later;
            && |done + taken| + |left| == |done| + |unread + later|
            && (left == [] ==> done + taken == done + (unread + later))
  {
  }

  lemma GrowthExtendsUnread(content: seq<byte>, whole: seq<byte>, offset: nat)
    requires offset <= |content| && content <= whole
    ensures Beyond(whole, offset) == Beyond(content, offset) + Beyond(whole, |content|)
  {
    assert whole == content + whole[|content|..];
  }

  /** What waited and what is newly named is opened, waiting or skipped. */
  lemma StepSkips(t: Tail, last: Option<FileId>, tick: Tick)
    requires Accounted(t) && (t.file.Some? ==> last.Some?)
    ensures var d, waited, named := tick.disk, Waiting(t, last), NewName(last, tick.disk);
            var kept := NewFile(t, tick) + Waiting(Next(t, tick), NextName(last, d));
            || (Skipped(t, last, d) == [] && kept == waited + named)
            || (Skipped(t, last, d) == waited && waited != [] && kept == named)
            || (Skipped(t, last, d) == waited + named && waited != [] && kept == [])
  {
    StepOpens(t, last, tick);
  }

  lemma NamesBalance(t: Tail, last: Option<FileId>, tick: Tick, e: Disk)
    requires Accounted(t) && (t.file.Some? ==> last.Some?)
    ensures var d, u := tick.disk, Next(t, tick);
            var waited, named := Files(Waiting(t, last), e), Files(NewName(last, d), e);
            var taken, waiting := Files(NewFile(t, tick), e), Files(Waiting(u, NextName(last, d)), e);
            var skipped := Files(Skipped(t, last, d), e);
            && |waited| + |named| == |taken| + |waiting| + |skipped|
            && (skipped == [] ==> waited + named == taken + waiting)
  {
    var waited, named := Waiting(t, last), NewName(last, tick.disk);
    StepSkips(t, last, tick);
    FilesAppend(waited, named, e);
    FilesAppend(NewFile(t, tick), Waiting(Next(t, tick), NextName(last, tick.disk)), e);
    assert Files(waited, e) == [] ==> Files(waited, e) + Files(named, e) == Files(named, e);
  }

  /** The parts of a balance: the head, bytes read and unread, what is left and skipped, waiting and opened files. */
  lemma PartsAddUp(head: seq<byte>, held: seq<byte>, holds: seq<byte>, left: seq<byte>, waited: seq<byte>,
                   named: seq<byte>, taken: seq<byte>, waiting: seq<byte>, skipped: seq<byte>)
    requires |head| + |holds| + |left| == |held| + |taken|
    requires left == [] ==> head + holds == held + taken
    requires |waited| + |named| == |taken| + |waiting| + |skipped|
    requires skipped == [] ==> waited + named == taken + waiting
    ensures |head| + |holds + waiting| + |left + skipped| == |(held + waited) + named|
    ensures left + skipped == [] ==> head + (holds + waiting) == (held + waited) + named
  {
    if left == [] && skipped == [] {
      assert head + (holds + waiting) == (head + holds) + waiting == (held + taken) + waiting;
      assert (held + taken) + waiting == held + (taken + waiting) == held + (waited + named) == (held + waited) + named;
    }
  }

  /** What is read and unread before and after a step, with the head passed over, what is left and what is opened. */
  ghost predicate HeldBalance(t: Tail, tick: Tick, e: Disk)
    requires Accounted(t)
  {
    var u := Next(t, tick);
    var held, holds := t.bytesRead + Unread(t, e), u.bytesRead + Unread(u, e);
    var head, taken, left := Head(t, tick, e), Files(NewFile(t, tick), e), LeftUnread(t, tick, e);
    && Tracks(u, tick.disk)
    && |head| + |holds| + |left| == |held| + |taken|
    && (left == [] ==> head + holds == held + taken)
  }

  lemma NothingMoves(head: seq<byte>, held: seq<byte>, taken: seq<byte>, left: seq<byte>)
    requires head == taken == left == []
    ensures |head| + |held| + |left| == |held| + |taken| && head + held == held + taken
  {
  }

  lemma HeldAtFile(t: Tail, tick: Tick, e: Disk)
    requires Accounted(t) && Tracks(t, tick.disk) && Grows(tick.disk, e) && Next(t, tick).file == t.file
    ensures HeldBalance(t, tick, e)
  {
    StayingLosesNothing(t, tick, e);
    NothingMoves(Head(t, tick, e), t.bytesRead + Unread(t, e), Files(NewFile(t, tick), e), LeftUnread(t, tick, e));
  }

  lemma HeldAtFirst(t: Tail, tick: Tick, e: Disk)
    requires Accounted(t) && Tracks(t, tick.disk) && Grows(tick.disk, e)
    requires t.file.None? && Next(t, tick).file.Some?
    ensures HeldBalance(t, tick, e)
  {
    FilesOfOne(Next(t, tick).file.value, e);
    FirstOpenPassesOver(t, tick, e);
    assert LeftUnread(t, tick, e) == [] && t.bytesRead + Unread(t, e) == [];
  }

  lemma HeldAtLeaving(t: Tail, tick: Tick, e: Disk)
    requires Accounted(t) && Tracks(t, tick.disk) && Grows(tick.disk, e)
    requires t.file.Some? && Next(t, tick).file != t.file
    ensures HeldBalance(t, tick, e)
  {
    FilesOfOne(Next(t, tick).file.value, e);
    LeavingLosesTheRest(t, tick, e);
    assert Head(t, tick, e) == [];
  }

  lemma HeldBalances(t: Tail, tick: Tick, e: Disk)
    requires Accounted(t) && Tracks(t, tick.disk) && Grows(tick.disk, e)
    ensures HeldBalance(t, tick, e)
  {
    if Next(t, tick).file == t.file {
      HeldAtFile(t, tick, e);
    } else if t.file.None? {
      HeldAtFirst(t, tick, e);
    } else {
      HeldAtLeaving(t, tick, e);
    }
  }

  lemma FilesOfOne(f: FileId, e: Disk)
    ensures Files([f], e) == Content(e, f)
  {
  }

  /** Every byte a step finds newly named is kept in the balance, passed over or lost; without a loss, in order. */
  lemma StepBalances(t: Tail, last: Option<FileId>, tick: Tick, e: Disk)
    requires Accounted(t) && Tracks(t, tick.disk) && Grows(tick.disk, e) && (t.file.Some? ==> last.Some?)
    ensures var d, u := tick.disk, Next(t, tick);
            var after, lost := Balance(u, NextName(last, d), e), Lost(t, last, tick, e);
            var before := Balance(t, last, e) + Files(NewName(last, d), e);
            && Tracks(u, d)
            && |Head(t, tick, e)| + |after| + |lost| == |before|
            && (lost == [] ==> Head(t, tick, e) + after == before)
  {
    var d, u := tick.disk, Next(t, tick);
    NamesBalance(t, last, tick, e);
    HeldBalances(t, tick, e);
    PartsAddUp(Head(t, tick, e), t.bytesRead + Unread(t, e), u.bytesRead + Unread(u, e), LeftUnread(t, tick, e),
               Files(Waiting(t, last), e), Files(NewName(last, d), e), Files(NewFile(t, tick), e),
               Files(Waiting(u, NextName(last, d)), e), Files(Skipped(t, last, d), e));
  }

  lemma GrowthKeepsTrack(t: Tail, d: Disk, e: Disk)
    requires Tracks(t, d) && Grows(d, e)
    ensures Tracks(t, e)
  {
    if t.file.Some? {
      assert Content(d, t.file.value) <= Content(e, t.file.value);
    }
  }

  lemma {:induction false} RunBalances(t: Tail, last: Option<FileId>, d: Disk, ticks: seq<Tick>, e: Disk)
    requires Accounted(t) && Tracks(t, d) && (t.file.Some? ==> last.Some?)
    requires AllGrow(d, ticks) && e == LastDisk(d, ticks)
    ensures var after, lost := Balance(Run(t, ticks), LastName(last, ticks), e), RunLost(t, last, ticks, e);
            var before := Balance(t, last, e) + Files(Names(last, ticks), e);
            && Tracks(Run(t, ticks), e)
            && |RunHead(t, ticks, e)| + |after| + |lost| == |before|
            && (lost == [] ==> RunHead(t, ticks, e) + after == before)
    decreases |ticks|
  {
    if ticks == [] {
      assert RunHead(t, ticks, e) + Balance(t, last, e) == Balance(t, last, e) == Balance(t, last, e) + [];
    } else {
      var u, next, rest := Next(t, ticks[0]), NextName(last, ticks[0].disk), ticks[1..];
      GrowthKeepsTrack(t, d, ticks[0].disk);
      GrowsToLast(ticks[0].disk, rest);
      StepBalances(t, last, ticks[0], e);
      RunBalances(u, next, ticks[0].disk, rest, e);
      FirstTickBalances(t, last, ticks, e);
      FilesAppend(NewName(last, ticks[0].disk), Names(next, rest), e);
      StepsAddUp(Head(t, ticks[0], e), Balance(t, last, e), Files(NewName(last, ticks[0].disk), e), Balance(u, next, e),
                 Lost(t, last, ticks[0], e), RunHead(u, rest, e), Files(Names(next, rest), e),
                 Balance(Run(u, rest), LastName(next, rest), e), RunLost(u, next, rest, e));
    }
  }

  lemma FirstTickBalances(t: Tail, last: Option<FileId>, ticks: seq<Tick>, e: Disk)
    requires Accounted(t) && ticks != []
    ensures var u, next, rest := Next(t, ticks[0]), NextName(last, ticks[0].disk), ticks[1..];
            && Run(t, ticks) == Run(u, rest) && LastName(last, ticks) == LastName(next, rest)
            && Names(last, ticks) == NewName(last, ticks[0].disk) + Names(next, rest)
            && RunHead(t, ticks, e) == Head(t, ticks[0], e) + RunHead(u, rest, e)
            && RunLost(t, last, ticks, e) == Lost(t, last, ticks[0], e) + RunLost(u, next, rest, e)
  {
  }

  lemma StepsAddUp(head: seq<byte>, before: seq<byte>, named: seq<byte>, between: seq<byte>, lost: seq<byte>,
                   laterHead: seq<byte>, laterNamed: seq<byte>, after: seq<byte>, laterLost: seq<byte>)
    requires |head| + |between| + |lost| == |before + named|
    requires lost == [] ==> head + between == before + named
    requires |laterHead| + |after| + |laterLost| == |between + laterNamed|
    requires laterLost == [] ==> laterHead + after == between + laterNamed
    ensures |head + laterHead| + |after| + |lost + laterLost| == |before + (named + laterNamed)|
    ensures lost + laterLost == [] ==> (head + laterHead) + after == before + (named + laterNamed)
  {
    if lost == [] && laterLost == [] {
      assert (head + laterHead) + after == head + (laterHead + after) == head + (between + laterNamed);
      assert head + (between + laterNamed) == (head + between) + laterNamed == before + (named + laterNamed);
    }
  }

  /** All that was uploaded, is pending, is unread in the open file or waits in the file the path names now. */
  function Kept(t: Tail, last: Option<FileId>, e: Disk): seq<byte> {
    Concat(t.uploads) + t.pending + Unread(t, e) + Files(Waiting(t, last), e)
  }

  /**
   In every run without truncation, each byte of every file the path came to name is passed over by the first open,
   uploaded, pending, unread, waiting or lost, and without a loss they come in this order.
   */
  lemma EveryByteIsAccountedFor(d: Disk, ticks: seq<Tick>)
    requires AllGrow(d, ticks)
    ensures var e := LastDisk(d, ticks);
            var head, kept := RunHead(NEW, ticks, e), Kept(Run(NEW, ticks), LastName(None, ticks), e);
            var lost, all := RunLost(NEW, None, ticks, e), Files(Names(None, ticks), e);
            |head| + |kept| + |lost| == |all| && (lost == [] ==> head + kept == all)
  {
    var e := LastDisk(d, ticks);
    FreshBalance(e, Files(Names(None, ticks), e));
    RunBalances(NEW, None, d, ticks, e);
    NothingReadIsLost(NEW, ticks);
    KeptIsBalance(Run(NEW, ticks), LastName(None, ticks), e);
  }

  lemma FreshBalance(e: Disk, named: seq<byte>)
    ensures Tracks(NEW, e) && Balance(NEW, None, e) + named == named
  {
    assert Balance(NEW, None, e) == [];
  }

  lemma KeptIsBalance(t: Tail, last: Option<FileId>, e: Disk)
    requires Accounted(t)
    ensures Kept(t, last, e) == Balance(t, last, e)
  {
  }

  lemma CompleteIffNothingLost(head: seq<byte>, kept: seq<byte>, lost: seq<byte>, all: seq<byte>)
    requires |head| + |kept| + |lost| == |all| && (lost == [] ==> head + kept == all)
    ensures head + kept == all <==> lost == []
  {
  }

  /** What a step leaves fits its last batch and grows no more, and what a new name puts out of reach is empty. */
  ghost predicate StepIsOrderly(t: Tail, last: Option<FileId>, tick: Tick, e: Disk)
    requires Accounted(t)
  {
    && (t.file.Some? && Next(t, tick).file != t.file ==>
          && |t.pending| + |Unread(t, tick.disk)| <= MAX_CHUNK
          && Content(e, t.file.value) == Content(tick.disk, t.file.value))
    && (NewName(last, tick.disk) != [] && Waiting(t, last) != [] ==> Files(Skipped(t, last, tick.disk), e) == [])
  }

  ghost predicate Orderly(t: Tail, last: Option<FileId>, ticks: seq<Tick>, e: Disk)
    requires Accounted(t)
    decreases |ticks|
  {
    ticks == [] ||
    (StepIsOrderly(t, last, ticks[0], e) &&
     Orderly(Next(t, ticks[0]), NextName(last, ticks[0].disk), ticks[1..], e))
  }

  lemma LeavesNothingIff(t: Tail, tick: Tick, e: Disk)
    requires Accounted(t) && Grows(tick.disk, e)
    ensures LeftUnread(t, tick, e) == [] <==>
            (t.file.Some? && Next(t, tick).file != t.file ==>
               && |t.pending| + |Unread(t, tick.disk)| <= MAX_CHUNK
               && Content(e, t.file.value) == Content(tick.disk, t.file.value))
  {
    if t.file.Some? {
      assert Content(tick.disk, t.file.value) <= Content(e, t.file.value);
    }
  }

  lemma StepLosesNothingIffOrderly(t: Tail, last: Option<FileId>, tick: Tick, e: Disk)
    requires Accounted(t) && Grows(tick.disk, e)
    ensures Lost(t, last, tick, e) == [] <==> StepIsOrderly(t, last, tick, e)
  {
    LeavesNothingIff(t, tick, e);
    var skipped := Skipped(t, last, tick.disk);
    if NewName(last, tick.disk) == [] || Waiting(t, last) == [] {
      assert skipped == [] && Files(skipped, e) == [];
    }
  }

  lemma {:induction false} NothingLostIffOrderly(t: Tail, last: Option<FileId>, d: Disk, ticks: seq<Tick>, e: Disk)
    requires Accounted(t) && AllGrow(d, ticks) && e == LastDisk(d, ticks)
    ensures RunLost(t, last, ticks, e) == [] <==> Orderly(t, last, ticks, e)
    decreases |ticks|
  {
    if ticks != [] {
      GrowsToLast(ticks[0].disk, ticks[1..]);
      StepLosesNothingIffOrderly(t, last, ticks[0], e);
      NothingLostIffOrderly(Next(t, ticks[0]), NextName(last, ticks[0].disk), ticks[0].disk, ticks[1..], e);
      FirstTickBalances(t, last, ticks, e);
    }
  }

  lemma CompleteIffOrderly(t: Tail, last: Option<FileId>, d: Disk, ticks: seq<Tick>, e: Disk, head: seq<byte>,
                           kept: seq<byte>, all: seq<byte>)
    requires Accounted(t) && AllGrow(d, ticks) && e == LastDisk(d, ticks)
    requires |head| + |kept| + |RunLost(t, last, ticks, e)| == |all|
    requires RunLost(t, last, ticks, e) == [] ==> head + kept == all
    ensures head + kept == all <==> Orderly(t, last, ticks, e)
  {
    NothingLostIffOrderly(t, last, d, ticks, e);
    CompleteIffNothingLost(head, kept, RunLost(t, last, ticks, e), all);
  }

  /**
   In every run without truncation, whatever calls fail: the head passed over, the uploads, the pending bytes and the
   unread and waiting rests are the complete files the path came to name, in order, if and only if the run is orderly.
   */
  lemma OrderlyRunDeliversStream(d: Disk, ticks: seq<Tick>)
    requires AllGrow(d, ticks)
    ensures var e := LastDisk(d, ticks);
            RunHead(NEW, ticks, e) + Kept(Run(NEW, ticks), LastName(None, ticks), e) == Files(Names(None, ticks), e)
            <==> Orderly(NEW, None, ticks, e)
  {
    var e := LastDisk(d, ticks);
    EveryByteIsAccountedFor(d, ticks);
    CompleteIffOrderly(NEW, None, d, ticks, e, RunHead(NEW, ticks, e), Kept(Run(NEW, ticks), LastName(None, ticks), e),
                       Files(Names(None, ticks), e));
  }

  /** The stream after the head passed over, in an orderly run: what was uploaded, and the rest that was not. */
  lemma UploadsBeginStream(d: Disk, ticks: seq<Tick>) returns (rest: seq<byte>)
    requires AllGrow(d, ticks) && Orderly(NEW, None, ticks, LastDisk(d, ticks))
    ensures var e := LastDisk(d, ticks);
            var n, named := |RunHead(NEW, ticks, e)|, Files(Names(None, ticks), e);
            && n <= |named|
            && named[n..] == Kept(Run(NEW, ticks), LastName(None, ticks), e) == Concat(Run(NEW, ticks).uploads) + rest
  {
    var e, t := LastDisk(d, ticks), Run(NEW, ticks);
    OrderlyRunDeliversStream(d, ticks);
    rest := t.pending + Unread(t, e) + Files(Waiting(t, LastName(None, ticks)), e);
    Rejoin(Concat(t.uploads), t.pending, Unread(t, e), Files(Waiting(t, LastName(None, ticks)), e));
    DropHead(RunHead(NEW, ticks, e), Kept(t, LastName(None, ticks), e));
  }

  lemma Rejoin(a: seq<byte>, b: seq<byte>, c: seq<byte>, d: seq<byte>)
    ensures a + (b + c + d) == a + b + c + d
  {
  }

  lemma DropHead(a: seq<byte>, b: seq<byte>)
    ensures (a + b)[|a|..] == b
  {
  }

  // ---------- A lost file ----------

  const ALL_OK := Io(true, true, true, true, true, true)

  /** The path names one file after the other; every file holds one byte. */
  function ThreeFiles(f: FileId): Disk {
    Disk(map[0 := [1], 1 := [2], 2 := [3]], Some(f))
  }

  const FIRST_LOOK := Tick(ThreeFiles(0), 0, ALL_OK)
  const SECOND_LOOK := Tick(ThreeFiles(1), 400, ALL_OK.(uploadOk := false))
  const THIRD_LOOK := Tick(ThreeFiles(2), 800, ALL_OK)
  const AFTER_FIRST := Tail(Some(0), true, 1, 0, [1], 0, false, false, false, [], [1])
  const AFTER_SECOND := AFTER_FIRST.(pendingSince := 50, replaced := true)
  const AFTER_THIRD := Tail(Some(2), true, 0, 0, [], 0, false, false, false, [[1]], [1])

  lemma FirstLook()
    ensures Next(NEW, FIRST_LOOK) == AFTER_FIRST
  {
    var d := ThreeFiles(0);
    assert Prepare(NEW, d, ALL_OK) == Outcome(Tail(Some(0), true, 0, 0, [], 0, false, false, false, [], []), true);
  }

  lemma SecondLook()
    ensures Accounted(AFTER_FIRST) && Next(AFTER_FIRST, SECOND_LOOK) == AFTER_SECOND
  {
    FirstLook();
    var d, io := ThreeFiles(1), SECOND_LOOK.io;
    assert Prepare(AFTER_FIRST, d, io) == Outcome(AFTER_FIRST.(replaced := true), true);
    assert Fill(AFTER_FIRST.(replaced := true), d, 400, io) == Outcome(AFTER_SECOND, true);
  }

  lemma ThirdLook()
    ensures Accounted(AFTER_SECOND) && Next(AFTER_SECOND, THIRD_LOOK) == AFTER_THIRD
  {
    SecondLook();
    var d := ThreeFiles(2);
    assert Prepare(AFTER_SECOND, d, ALL_OK) == Outcome(AFTER_SECOND, true);
    var filled := AFTER_SECOND.(pendingSince := 450);
    assert Fill(AFTER_SECOND, d, 800, ALL_OK) == Outcome(filled, true);
    assert [] + [[1]] == [[1]];
  }

  const LOOKS := [FIRST_LOOK, SECOND_LOOK, THIRD_LOOK]

  lemma LooksInOrder()
    ensures LOOKS[1..] == [SECOND_LOOK, THIRD_LOOK] && LOOKS[1..][1..] == [THIRD_LOOK] && LOOKS[1..][1..][1..] == []
  {
  }

  lemma NamesOfLooks()
    ensures Names(None, LOOKS) == [0, 1, 2] && LastName(None, LOOKS) == Some(2)
    ensures AllGrow(ThreeFiles(0), LOOKS) && LastDisk(ThreeFiles(0), LOOKS) == ThreeFiles(2)
  {
    LooksInOrder();
    var second, third := LOOKS[1..], LOOKS[1..][1..];
    assert Names(Some(1), third) == [2] + Names(Some(2), third[1..]) == [2];
    assert Names(Some(0), second) == [1] + Names(Some(1), third) == [1, 2];
    assert LastName(Some(1), third) == Some(2) && LastName(Some(0), second) == Some(2);
    assert AllGrow(ThreeFiles(1), third) && AllGrow(ThreeFiles(0), second);
    assert LastDisk(ThreeFiles(1), third) == ThreeFiles(2) && LastDisk(ThreeFiles(0), second) == ThreeFiles(2);
  }

  lemma OneTick(t: Tail, tick: Tick)
    requires Accounted(t)
    ensures Run(t, [tick]) == Next(t, tick) && Opened(t, [tick]) == NewFile(t, tick)
  {
    FirstTickOpens(t, None, [tick]);
    assert [tick][1..] == [];
  }

  lemma RunOfLooks()
    ensures Run(NEW, LOOKS) == AFTER_THIRD && Opened(NEW, LOOKS) == [0, 2]
  {
    LooksInOrder();
    FirstLook();
    SecondLook();
    ThirdLook();
    var second, third := LOOKS[1..], LOOKS[1..][1..];
    OneTick(AFTER_SECOND, THIRD_LOOK);
    assert third == [THIRD_LOOK];
    FirstTickOpens(AFTER_FIRST, Some(0), second);
    FirstTickOpens(NEW, None, LOOKS);
  }

  lemma LossOfLooks()
    ensures RunLost(NEW, None, LOOKS, ThreeFiles(2)) == [2]
  {
    LooksInOrder();
    FirstLook();
    SecondLook();
    ThirdLook();
    var second, third, e := LOOKS[1..], LOOKS[1..][1..], ThreeFiles(2);
    assert Skipped(AFTER_SECOND, Some(1), e) == [1];
    FilesOfOne(1, e);
    assert Lost(AFTER_SECOND, Some(1), THIRD_LOOK, e) == [] + [2] == [2];
    assert RunLost(AFTER_SECOND, Some(1), third, e) == [2] + RunLost(AFTER_THIRD, Some(2), [], e) == [2];
    assert Lost(AFTER_FIRST, Some(0), SECOND_LOOK, e) == [];
    assert RunLost(AFTER_FIRST, Some(0), second, e) == [] + RunLost(AFTER_SECOND, Some(1), third, e) == [2];
    assert Lost(NEW, None, FIRST_LOOK, e) == [];
  }

  lemma BytesOfLooks()
    ensures Kept(AFTER_THIRD, Some(2), ThreeFiles(2)) == [1, 3] && Files([0, 1, 2], ThreeFiles(2)) == [1, 2, 3]
  {
    var e := ThreeFiles(2);
    FilesOfOne(2, e);
    assert [0, 1, 2][1..] == [1, 2] && [1, 2][1..] == [2];
    assert Files([1, 2], e) == [2] + Files([2], e) == [2, 3];
    assert Concat([[1]]) == Concat([[1]][..0]) + [1] == [1];
  }

  /**
   Uploads fail while the log is rotated twice: the file in between is never opened and all its bytes are lost, although
   what every step leaves behind fits one batch.
   */
  lemma RotatedFileIsNeverOpened()
    ensures AllGrow(ThreeFiles(0), LOOKS) && LastDisk(ThreeFiles(0), LOOKS) == ThreeFiles(2)
    ensures Names(None, LOOKS) == [0, 1, 2] && Opened(NEW, LOOKS) == [0, 2]
    ensures Kept(Run(NEW, LOOKS), LastName(None, LOOKS), ThreeFiles(2)) == [1, 3]
    ensures Files(Names(None, LOOKS), ThreeFiles(2)) == [1, 2, 3] && RunLost(NEW, None, LOOKS, ThreeFiles(2)) == [2]
  {
    NamesOfLooks();
    RunOfLooks();
    LossOfLooks();
    BytesOfLooks();
  }

  // ---------- The tailer ----------

  class Tailer {
    var file: Option<FileId>
    var initialized: bool
    var readOffset: nat
    var ackedOffset: nat
    var pending: seq<byte>
    var pendingSince: int
    var resetPending: bool
    var replaced: bool
    var missing: bool
    ghost var uploads: seq<seq<byte>>
    ghost var bytesRead: seq<byte>

    ghost function State(): Tail
      reads this
    {
      Tail(file, initialized, readOffset, ackedOffset, pending, pendingSince, resetPending, replaced, missing,
           uploads, bytesRead)
    }

    constructor ()
      ensures State() == NEW
    {
      file, initialized, readOffset, ackedOffset, pending, pendingSince := None, false, 0, 0, [], 0;
      resetPending, replaced, missing := false, false, false;
      uploads, bytesRead := [], [];
    }

    method OpenFile(d: Disk, io: Io) returns (ok: bool)
      requires pending == []
      modifies this`file, this`initialized, this`readOffset, this`ackedOffset, this`replaced, this`missing,
          this`resetPending
      ensures Outcome(State(), ok) == Open(old(State()), d, io)
    {
      if !io.openOk || d.path.None? || !io.statOk {
        return false;
      }
      var size := |Content(d, d.path.value)|;
      var from := 0;
      if !initialized && size > INITIAL_TAIL {
        from := size - INITIAL_TAIL;
      }
      if !io.seekOk {
        return false;
      }
      file, initialized := d.path, true;
      readOffset, ackedOffset := from, from;
      replaced, missing, resetPending := false, false, false;
      return true;
    }

    method Observe(d: Disk, io: Io) returns (ok: bool)
      requires file.Some?
      modifies this`resetPending, this`missing, this`replaced
      ensures Outcome(State(), ok) == ObservePath(old(State()), d, io)
    {
      if !io.statOk {
        return false;
      }
      if |Content(d, file.value)| < readOffset {
        resetPending := true;
      }
      if !io.pathStatOk {
        return false;
      }
      if d.path.None? {
        missing := true;
        return true;
      }
      missing := false;
      replaced := d.path != file;
      return true;
    }

    method ResetFile(io: Io) returns (ok: bool)
      requires pending == []
      modifies this`readOffset, this`ackedOffset, this`resetPending
      ensures Outcome(State(), ok) == Reset(old(State()), io)
    {
      if !io.seekOk {
        return false;
      }
      readOffset, ackedOffset := 0, 0;
      resetPending := false;
      return true;
    }

    method ReadFile(d: Disk, now: int, io: Io) returns (ok: bool)
      requires file.Some? && |pending| <= MAX_CHUNK
      modifies this`pending, this`readOffset, this`pendingSince, this`bytesRead
      ensures Outcome(State(), ok) == Read(old(State()), d, now, io)
    {
      if !io.readOk {
        return false;
      }
      var chunk := ReadInto(Content(d, file.value), readOffset, MAX_CHUNK - |pending|);
      if |chunk| > 0 {
        if |pending| == 0 {
          pendingSince := now;
        }
        pending := pending + chunk;
        readOffset := readOffset + |chunk|;
        bytesRead := bytesRead + chunk;
      } else if (replaced || missing) && |pending| > 0 {
        pendingSince := now - BATCH_LATENCY;
      }
      return true;
    }

    method FlushBatch(io: Io) returns (ok: bool)
      modifies this`pending, this`pendingSince, this`ackedOffset, this`uploads
      ensures Outcome(State(), ok) == Flush(old(State()), io)
    {
      if |pending| == 0 {
        return true;
      }
      if !io.uploadOk {
        return false;
      }
      uploads := uploads + [pending];
      ackedOffset := ackedOffset + |pending|;
      pending := [];
      pendingSince := 0;
      return true;
    }

    method SwitchToReplacement(d: Disk, io: Io) returns (ok: bool)
      requires file.Some?
      modifies this`file, this`readOffset, this`ackedOffset, this`replaced, this`missing, this`resetPending
      ensures Outcome(State(), ok) == Switch(old(State()), d, io)
    {
      if !io.openOk || d.path.None? || !io.statOk {
        return false;
      }
      file := d.path;
      readOffset, ackedOffset := 0, 0;
      replaced, missing, resetPending := false, false, false;
      return true;
    }

    method PrepareFile(d: Disk, io: Io) returns (ok: bool)
      requires Sound(State())
      modifies this
      ensures Outcome(State(), ok) == Prepare(old(State()), d, io)
    {
      if file == None {
        ok := OpenFile(d, io);
        if !ok {
          return;
        }
      }
      ok := Observe(d, io);
      if !ok {
        return;
      }
      if resetPending && |pending| == 0 {
        ok := ResetFile(io);
      }
    }

    method DeliverBatch(d: Disk, now: int, io: Io) returns (ok: bool)
      requires Sound(State()) && file.Some?
      modifies this
      ensures Outcome(State(), ok) == Deliver(old(State()), d, now, io)
    {
      if |pending| < MAX_CHUNK && !resetPending {
        ok := ReadFile(d, now, io);
        if !ok {
          return;
        }
      }
      if |pending| == MAX_CHUNK || (|pending| > 0 && now >= pendingSince + BATCH_LATENCY) {
        ok := FlushBatch(io);
        if !ok {
          return;
        }
      }
      ok := true;
      if |pending| == 0 && replaced {
        ok := SwitchToReplacement(d, io);
      }
    }

    /** One wake-up; a failing call ends it early and leaves the rest to the next one. */
    method WakeUp(d: Disk, now: int, io: Io) returns (ok: bool)
      requires Accounted(State())
      modifies this
      ensures Outcome(State(), ok) == StepTail(old(State()), d, now, io)
      ensures Accounted(State())
    {
      StepKeepsAccount(State(), d, now, io);
      ok := PrepareFile(d, io);
      if ok {
        ok := DeliverBatch(d, now, io);
      }
    }
  }
}
