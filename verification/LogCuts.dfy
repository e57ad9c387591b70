/**
 The log tailer over every history of the disk, files that are cut in place included.

 A file that is cut begins a new generation of its contents.  Since the last look the tailer may be in step with the
 generation of its open file, the file may have been cut behind its back, or it has noticed that the file is shorter
 than what it read and owes a new start.
 */
module LogCuts {
  import opened LogTail
  import opened Wrappers

  // ---------- Generations ----------

  /** The contents of the file are no continuation of what they were. */
  predicate IsCut(d: Disk, e: Disk, f: FileId) {
    !(Content(d, f) <= Content(e, f))
  }

  /** Every file as its present generation will have become in the end. */
  function Ends(d: Disk, ticks: seq<Tick>): Disk
    decreases |ticks|
  {
    if ticks == [] then d
    else
      var e := Ends(ticks[0].disk, ticks[1..]);
      Disk(map f | f in d.files.Keys + e.files.Keys ::
             if IsCut(d, ticks[0].disk, f) then Content(d, f) else Content(e, f), e.path)
  }

  lemma EndOfFile(d: Disk, ticks: seq<Tick>, f: FileId)
    requires ticks != []
    ensures Content(Ends(d, ticks), f) ==
            if IsCut(d, ticks[0].disk, f) then Content(d, f) else Content(Ends(ticks[0].disk, ticks[1..]), f)
  {
  }

  lemma {:induction false} EndsGrow(d: Disk, ticks: seq<Tick>)
    ensures Grows(d, Ends(d, ticks))
    decreases |ticks|
  {
    if ticks != [] {
      var e := Ends(ticks[0].disk, ticks[1..]);
      EndsGrow(ticks[0].disk, ticks[1..]);
      forall f | f in d.files ensures f in Ends(d, ticks).files && d.files[f] <= Ends(d, ticks).files[f] {
        EndOfFile(d, ticks, f);
        assert Content(ticks[0].disk, f) <= Content(e, f);
      }
    }
  }

  // ---------- Where the tailer stands ----------

  datatype Place = InStep | Cut | Noticed

  /** A cut of the open file goes unseen until the next look. */
  function AfterChange(p: Place, t: Tail, d: Disk, e: Disk): Place {
    if t.file.Some? && IsCut(d, e, t.file.value) && p != Noticed then Cut else p
  }

  /** The open file is shorter than what was read of it, or was so at an earlier look. */
  predicate Short(t: Tail, p: Place, d: Disk) {
    t.file.Some? && (p == Noticed || |Content(d, t.file.value)| < t.readOffset)
  }

  /** A look that finds the file short is followed by a new start once nothing is pending; any other look ends a cut. */
  function AfterLook(p: Place, t: Tail, tick: Tick): Place
    requires Accounted(t)
  {
    if t.file.None? || !tick.io.statOk then p
    else if Next(t, tick).file != t.file || !Short(t, p, tick.disk) then InStep
    else if t.pending == [] && tick.io.pathStatOk && tick.io.seekOk then InStep
    else Noticed
  }

  predicate Stands(t: Tail, p: Place, d: Disk) {
    match t.file
    case None => !t.initialized && t.bytesRead == [] && !t.resetPending && p == InStep
    case Some(f) => (p == Noticed <==> t.resetPending) && (p == InStep ==> t.readOffset <= |Content(d, f)|)
  }

  /** What is still to be read of the open file: after a cut all of its new generation. */
  function ToRead(t: Tail, p: Place, e: Disk): seq<byte> {
    if t.file.None? then [] else Beyond(Content(e, t.file.value), if p == InStep then t.readOffset else 0)
  }

  /** What was read, is to be read or waits to be opened. */
  function Held(t: Tail, p: Place, last: Option<FileId>, e: Disk): seq<byte> {
    t.bytesRead + ToRead(t, p, e) + Files(Waiting(t, last), e)
  }

  // ---------- A cut file is read again ----------

  /** A tailer that starts its open file again. */
  function FromStart(t: Tail): Tail {
    t.(readOffset := 0, ackedOffset := 0, resetPending := false)
  }

  lemma ShortStartsAgain(t: Tail, p: Place, tick: Tick)
    requires Accounted(t) && Short(t, p, tick.disk) && (p == Noticed <==> t.resetPending) && t.pending == []
    requires tick.io.statOk && tick.io.pathStatOk && tick.io.seekOk
    ensures Accounted(FromStart(t)) && Next(t, tick) == Next(FromStart(t), tick)
  {
    var d, io := tick.disk, tick.io;
    assert Prepare(t, d, io) == Prepare(FromStart(t), d, io);
  }

  /** A wake-up that finds the open file shorter than what it read, and nothing pending, reads it from its start. */
  lemma CutFileIsReadAgain(t: Tail, tick: Tick)
    requires Accounted(t) && t.file.Some? && t.pending == []
    requires |Content(tick.disk, t.file.value)| < t.readOffset
    requires tick.io.statOk && tick.io.pathStatOk && tick.io.seekOk && tick.io.readOk
    ensures var u, read := Next(t, tick), Take(Content(tick.disk, t.file.value), MAX_CHUNK);
            && u.bytesRead == t.bytesRead + read
            && (tick.disk.path == t.file ==> u.file == t.file && u.readOffset == |read|)
  {
    ShortStartsAgain(t, if t.resetPending then Noticed else Cut, tick);
    StartReads(FromStart(t), tick);
  }

  /** From the start of an untouched file one batch is read. */
  lemma StartReads(t: Tail, tick: Tick)
    requires Accounted(t) && t.file.Some? && t.pending == [] && t.readOffset == 0 && !t.resetPending
    requires tick.io.statOk && tick.io.pathStatOk && tick.io.readOk
    ensures var u, read := Next(t, tick), Take(Content(tick.disk, t.file.value), MAX_CHUNK);
            && u.bytesRead == t.bytesRead + read
            && (tick.disk.path == t.file ==> u.file == t.file && u.readOffset == |read|)
  {
    var d, now, io := tick.disk, tick.now, tick.io;
    var prepared := Prepare(t, d, io);
    PrepareKeepsOpenFile(t, d, io);
    ReplacedMeansOther(t, d, io);
    ReadMovesBytes(prepared.tail, d, now, io);
    assert Unread(prepared.tail, d) == Content(d, t.file.value);
    DrainUploads(Fill(prepared.tail, d, now, io).tail, now, io);
  }

  /**
   With bytes pending, the wake-up that finds the file short reads nothing; once they are uploaded the next one reads
   from the start, whatever the size of the file by then.
   */
  lemma PendingGoesFirst(t: Tail, first: Tick, second: Tick)
    requires Accounted(t) && t.file.Some? && t.pending != []
    requires |Content(first.disk, t.file.value)| < t.readOffset && first.io.statOk
    ensures var u := Next(t, first);
            && u.bytesRead == t.bytesRead
            && (u.file == t.file && u.pending == []
                && second.io.statOk && second.io.pathStatOk && second.io.seekOk && second.io.readOk ==>
                  Next(u, second).bytesRead == u.bytesRead + Take(Content(second.disk, t.file.value), MAX_CHUNK))
  {
    var u := Next(t, first);
    ShortWaits(t, if t.resetPending then Noticed else Cut, first);
    if u.file == t.file && u.pending == [] && second.io.statOk && second.io.pathStatOk && second.io.seekOk
       && second.io.readOk {
      ShortStartsAgain(u, Noticed, second);
      StartReads(FromStart(u), second);
    }
  }

  /**
   A wake-up that finds the file as long as what it read of it, and never found it shorter, goes on behind that: a file
   that was not cut is never read again, and of a cut one that is long enough again the beginning is missed.
   */
  lemma LongFileIsReadOn(t: Tail, p: Place, tick: Tick) returns (n: nat)
    requires Accounted(t) && t.file.Some? && Stands(t, p, tick.disk) && !Short(t, p, tick.disk)
    ensures var content := Content(tick.disk, t.file.value);
            && t.readOffset + n <= |content|
            && Next(t, tick).bytesRead == t.bytesRead + content[t.readOffset..t.readOffset + n]
            && (Next(t, tick).file == t.file ==> Next(t, tick).readOffset == t.readOffset + n)
  {
    var d, io := tick.disk, tick.io;
    var prepared := Prepare(t, d, io);
    LongFileStaysUntouched(t, p, d, io);
    NextIsDeliver(t, tick);
    if prepared.ok {
      ReplacedMeansOther(t, d, io);
      n := FillReadsOn(prepared.tail, d, tick.now, io);
      DeliverAfterFill(prepared.tail, d, tick.now, io);
    } else {
      n := 0;
      assert t.bytesRead + [] == t.bytesRead;
    }
  }

  lemma FillReadsOn(t: Tail, d: Disk, now: int, io: Io) returns (n: nat)
    requires Sound(t) && t.file.Some? && t.readOffset <= |Content(d, t.file.value)|
    ensures var u, content := Fill(t, d, now, io).tail, Content(d, t.file.value);
            && t.readOffset + n <= |content| && u.file == t.file && u.readOffset == t.readOffset + n
            && u.bytesRead == t.bytesRead + content[t.readOffset..t.readOffset + n]
  {
    n := 0;
    assert t.bytesRead + [] == t.bytesRead;
    if |t.pending| < MAX_CHUNK && !t.resetPending && io.readOk {
      ReadMovesBytes(t, d, now, io);
      n := |Chunk(t, d)|;
    }
  }

  /** Uploading and switching read nothing. */
  lemma DeliverAfterFill(t: Tail, d: Disk, now: int, io: Io)
    requires Sound(t) && t.file.Some? && (t.replaced ==> d.path != t.file)
    ensures var u, filled := Deliver(t, d, now, io).tail, Fill(t, d, now, io).tail;
            u.bytesRead == filled.bytesRead && (u.file == filled.file ==> u.readOffset == filled.readOffset)
  {
  }

  lemma LongFileStaysUntouched(t: Tail, p: Place, d: Disk, io: Io)
    requires Sound(t) && t.file.Some? && Stands(t, p, d) && !Short(t, p, d)
    ensures var u := Prepare(t, d, io).tail;
            u.file == t.file && u.readOffset == t.readOffset && u.bytesRead == t.bytesRead
  {
    PrepareKeepsOpenFile(t, d, io);
  }

  /** While the new start has to wait nothing is read; the file can only be left after its pending bytes. */
  lemma ShortWaits(t: Tail, p: Place, tick: Tick)
    requires Accounted(t) && Short(t, p, tick.disk) && (p == Noticed <==> t.resetPending) && tick.io.statOk
    requires !(t.pending == [] && tick.io.pathStatOk && tick.io.seekOk)
    ensures var u := Next(t, tick);
            && u.bytesRead == t.bytesRead
            && (u.file == t.file ==> u.resetPending)
            && (u.file != t.file ==> t.pending != [] && u.readOffset == 0 && !u.resetPending)
  {
    var d, now, io := tick.disk, tick.now, tick.io;
    var prepared := Prepare(t, d, io);
    assert prepared.tail.resetPending && prepared.tail.file == t.file && prepared.tail.pending == t.pending;
    if prepared.ok {
      assert Fill(prepared.tail, d, now, io) == Outcome(prepared.tail, true);
      DrainUploads(prepared.tail, now, io);
    }
  }

  /** A step that cannot look at its open file changes nothing. */
  lemma BlindStep(t: Tail, tick: Tick)
    requires Accounted(t) && t.file.Some? && !tick.io.statOk
    ensures Next(t, tick) == t
  {
  }

  // ---------- One wake-up ----------

  /** The beginning of a new generation that a look does not notice, since the file is long enough again. */
  function Overlooked(t: Tail, p: Place, tick: Tick, e: Disk): seq<byte> {
    if t.file.Some? && p == Cut && tick.io.statOk && !Short(t, p, tick.disk)
    then Take(Content(e, t.file.value), t.readOffset) else []
  }

  /** What is not read of a file that is left: all of it if a new start was still owed. */
  function LeftOver(t: Tail, p: Place, tick: Tick, e: Disk): seq<byte>
    requires Accounted(t)
  {
    if t.file.None? || Next(t, tick).file == t.file then []
    else if !Short(t, p, tick.disk) then LeftUnread(t, tick, e)
    else if t.pending != [] then Content(e, t.file.value)
    else
      Beyond(Content(tick.disk, t.file.value), MAX_CHUNK) +
      Beyond(Content(e, t.file.value), |Content(tick.disk, t.file.value)|)
  }

  lemma WholeIsTakeAndBeyond(content: seq<byte>, n: nat)
    requires n <= |content|
    ensures Beyond(content, 0) == Take(content, n) + Beyond(content, n)
  {
  }

  /** What the file and the tailer hold before and after a step. */
  ghost predicate StepHolds(t: Tail, p: Place, tick: Tick, e: Disk)
    requires Accounted(t)
  {
    var u, q := Next(t, tick), AfterLook(p, t, tick);
    var held, holds := t.bytesRead + ToRead(t, p, e), u.bytesRead + ToRead(u, q, e);
    var head, taken := Head(t, tick, e), Files(NewFile(t, tick), e);
    var left := Overlooked(t, p, tick, e) + LeftOver(t, p, tick, e);
    && Stands(u, q, tick.disk)
    && |head| + |holds| + |left| == |held| + |taken|
    && (left == [] ==> head + holds == held + taken)
  }

  lemma StepInStep(t: Tail, p: Place, tick: Tick, e: Disk)
    requires Accounted(t) && Stands(t, p, tick.disk) && Grows(tick.disk, e)
    requires t.file.None? || (p == InStep && !Short(t, p, tick.disk))
    ensures StepHolds(t, p, tick, e)
  {
    HeldBalances(t, tick, e);
    assert [] + LeftOver(t, p, tick, e) == LeftOver(t, p, tick, e);
  }

  lemma StepOverlooks(t: Tail, tick: Tick, e: Disk)
    requires Accounted(t) && t.file.Some? && Stands(t, Cut, tick.disk) && Grows(tick.disk, e)
    requires !Short(t, Cut, tick.disk) && tick.io.statOk
    ensures StepHolds(t, Cut, tick, e)
  {
    HeldBalances(t, tick, e);
    assert Content(tick.disk, t.file.value) <= Content(e, t.file.value);
    WholeIsTakeAndBeyond(Content(e, t.file.value), t.readOffset);
    SkippedPart(t.bytesRead, Take(Content(e, t.file.value), t.readOffset), Unread(t, e));
  }

  lemma SkippedPart(done: seq<byte>, skipped: seq<byte>, rest: seq<byte>)
    ensures |done + (skipped + rest)| == |done + rest| + |skipped|
    ensures skipped == [] ==> done + (skipped + rest) == done + rest
  {
  }

  lemma StepStartsAgain(t: Tail, p: Place, tick: Tick, e: Disk)
    requires Accounted(t) && Stands(t, p, tick.disk) && Grows(tick.disk, e) && p != InStep
    requires Short(t, p, tick.disk) && t.pending == [] && tick.io.statOk && tick.io.pathStatOk && tick.io.seekOk
    ensures StepHolds(t, p, tick, e)
  {
    var again := FromStart(t);
    ShortStartsAgain(t, p, tick);
    HeldBalances(again, tick, e);
    assert [] + Content(tick.disk, t.file.value) == Content(tick.disk, t.file.value);
    assert LeftUnread(again, tick, e) == LeftOver(t, p, tick, e) == [] + LeftOver(t, p, tick, e);
  }

  lemma WaitsAtFile(t: Tail, p: Place, tick: Tick, e: Disk)
    requires Accounted(t) && Stands(t, p, tick.disk) && p != InStep && Short(t, p, tick.disk) && tick.io.statOk
    requires !(t.pending == [] && tick.io.pathStatOk && tick.io.seekOk) && Next(t, tick).file == t.file
    ensures StepHolds(t, p, tick, e)
  {
    var u := Next(t, tick);
    ShortWaits(t, p, tick);
    assert AfterLook(p, t, tick) == Noticed && ToRead(u, Noticed, e) == ToRead(t, p, e);
    assert Overlooked(t, p, tick, e) == [] && Head(t, tick, e) == [] && LeftOver(t, p, tick, e) == [];
    assert NewFile(t, tick) == [];
  }

  lemma WaitsAndLeaves(t: Tail, p: Place, tick: Tick, e: Disk)
    requires Accounted(t) && Stands(t, p, tick.disk) && p != InStep && Short(t, p, tick.disk) && tick.io.statOk
    requires !(t.pending == [] && tick.io.pathStatOk && tick.io.seekOk) && Next(t, tick).file != t.file
    ensures StepHolds(t, p, tick, e)
  {
    var u := Next(t, tick);
    ShortWaits(t, p, tick);
    FilesOfOne(u.file.value, e);
    assert AfterLook(p, t, tick) == InStep && ToRead(u, InStep, e) == Content(e, u.file.value);
    assert Overlooked(t, p, tick, e) == [] && Head(t, tick, e) == [] && LeftOver(t, p, tick, e) == ToRead(t, p, e);
    assert NewFile(t, tick) == [u.file.value];
  }

  lemma StepBlind(t: Tail, p: Place, tick: Tick, e: Disk)
    requires Accounted(t) && t.file.Some? && Stands(t, p, tick.disk) && !tick.io.statOk
    ensures StepHolds(t, p, tick, e)
  {
    BlindStep(t, tick);
  }

  lemma StepKeepsHold(t: Tail, p: Place, tick: Tick, e: Disk)
    requires Accounted(t) && Stands(t, p, tick.disk) && Grows(tick.disk, e)
    ensures StepHolds(t, p, tick, e)
  {
    if t.file.None? || p == InStep {
      StepInStep(t, p, tick, e);
    } else if !tick.io.statOk {
      StepBlind(t, p, tick, e);
    } else if !Short(t, p, tick.disk) {
      StepOverlooks(t, tick, e);
    } else if t.pending == [] && tick.io.pathStatOk && tick.io.seekOk {
      StepStartsAgain(t, p, tick, e);
    } else {
      if Next(t, tick).file == t.file { WaitsAtFile(t, p, tick, e); } else { WaitsAndLeaves(t, p, tick, e); }
    }
  }

  /** The bytes a wake-up loses. */
  function LostAtLook(t: Tail, p: Place, last: Option<FileId>, tick: Tick, e: Disk): seq<byte>
    requires Accounted(t)
  {
    Overlooked(t, p, tick, e) + LeftOver(t, p, tick, e) + Files(Skipped(t, last, tick.disk), e)
  }

  lemma LookBalances(t: Tail, p: Place, last: Option<FileId>, tick: Tick, e: Disk)
    requires Accounted(t) && Stands(t, p, tick.disk) && Grows(tick.disk, e) && (t.file.Some? ==> last.Some?)
    ensures var d, u, q := tick.disk, Next(t, tick), AfterLook(p, t, tick);
            var after, lost := Held(u, q, NextName(last, d), e), LostAtLook(t, p, last, tick, e);
            var before := Held(t, p, last, e) + Files(NewName(last, d), e);
            && Stands(u, q, d)
            && |Head(t, tick, e)| + |after| + |lost| == |before|
            && (lost == [] ==> Head(t, tick, e) + after == before)
  {
    var d, u, q := tick.disk, Next(t, tick), AfterLook(p, t, tick);
    NamesBalance(t, last, tick, e);
    StepKeepsHold(t, p, tick, e);
    PartsAddUp(Head(t, tick, e), t.bytesRead + ToRead(t, p, e), u.bytesRead + ToRead(u, q, e),
               Overlooked(t, p, tick, e) + LeftOver(t, p, tick, e),
               Files(Waiting(t, last), e), Files(NewName(last, d), e), Files(NewFile(t, tick), e),
               Files(Waiting(u, NextName(last, d)), e), Files(Skipped(t, last, d), e));
  }

  // ---------- Between two looks ----------

  function CutFile(f: Option<FileId>, d: Disk, e: Disk): seq<FileId> {
    if f.Some? && IsCut(d, e, f.value) then [f.value] else []
  }

  /** What a cut takes away: the rest of the old generation of the open file, and a waiting file. */
  function LostInCut(t: Tail, p: Place, last: Option<FileId>, d: Disk, next: Disk): seq<byte> {
    (if CutFile(t.file, d, next) != [] then ToRead(t, p, d) else []) +
    (if t.file != last then Files(CutFile(last, d, next), d) else [])
  }

  /** A new generation of a file that is still open although the path names another one already. */
  function AddedBehind(t: Tail, last: Option<FileId>, d: Disk, next: Disk): seq<FileId> {
    if t.file != last then CutFile(t.file, d, next) else []
  }

  /** One file by which two balances may differ. */
  lemma SameEnd(d: Disk, ticks: seq<Tick>, f: FileId)
    requires ticks != []
    ensures var e, later := Ends(d, ticks), Ends(ticks[0].disk, ticks[1..]);
            && (IsCut(d, ticks[0].disk, f) ==> Content(e, f) == Content(d, f))
            && (!IsCut(d, ticks[0].disk, f) ==> Content(e, f) == Content(later, f))
  {
    EndOfFile(d, ticks, f);
  }

  ghost predicate OpenPartBalances(t: Tail, p: Place, d: Disk, ticks: seq<Tick>)
    requires ticks != []
  {
    var next, e, later := ticks[0].disk, Ends(d, ticks), Ends(ticks[0].disk, ticks[1..]);
    var before, after := ToRead(t, p, e), ToRead(t, AfterChange(p, t, d, next), later);
    var lost := if CutFile(t.file, d, next) != [] then ToRead(t, p, d) else [];
    var fresher := Files(CutFile(t.file, d, next), later);
    && |after| + |lost| == |before| + |fresher|
    && (lost == [] ==> after == before + fresher)
  }

  /** The open file: after a cut its new generation takes the place of what was left of the old one. */
  lemma OpenPartChanges(t: Tail, p: Place, d: Disk, ticks: seq<Tick>)
    requires ticks != [] && Stands(t, p, d)
    ensures OpenPartBalances(t, p, d, ticks)
  {
    if t.file.Some? {
      SameEnd(d, ticks, t.file.value);
      FilesOfOne(t.file.value, Ends(ticks[0].disk, ticks[1..]));
    }
  }

  ghost predicate WaitingPartBalances(t: Tail, last: Option<FileId>, d: Disk, ticks: seq<Tick>)
    requires ticks != []
  {
    var next, e, later := ticks[0].disk, Ends(d, ticks), Ends(ticks[0].disk, ticks[1..]);
    var before, after := Files(Waiting(t, last), e), Files(Waiting(t, last), later);
    var lost := if t.file != last then Files(CutFile(last, d, next), d) else [];
    var fresher := if t.file != last then Files(CutFile(last, d, next), later) else [];
    && |after| + |lost| == |before| + |fresher|
    && (lost == [] ==> after == before + fresher)
  }

  lemma WaitingPartChanges(t: Tail, last: Option<FileId>, d: Disk, ticks: seq<Tick>)
    requires ticks != []
    ensures WaitingPartBalances(t, last, d, ticks)
  {
    if last.Some? && t.file != last {
      SameEnd(d, ticks, last.value);
      FilesOfOne(last.value, d);
      FilesOfOne(last.value, Ends(d, ticks));
      FilesOfOne(last.value, Ends(ticks[0].disk, ticks[1..]));
    }
  }

  lemma PartsChange(done: seq<byte>, read: seq<byte>, unread: seq<byte>, readLost: seq<byte>, readNew: seq<byte>,
                    waits: seq<byte>, waited: seq<byte>, waitLost: seq<byte>, waitNew: seq<byte>)
    requires |unread| + |readLost| == |read| + |readNew| && (readLost == [] ==> unread == read + readNew)
    requires |waited| + |waitLost| == |waits| + |waitNew| && (waitLost == [] ==> waited == waits + waitNew)
    ensures |done + unread + waited| + |readLost + waitLost| == |done + read + waits| + |readNew| + |waitNew|
    ensures readLost + waitLost == [] && (readNew == [] || (waits == [] && waitNew == [])) ==>
              done + unread + waited == (done + read + waits) + (readNew + waitNew)
  {
    if readLost == [] && waitLost == [] && readNew == [] {
      assert unread == read && done + read + (waits + waitNew) == (done + read + waits) + ([] + waitNew);
    } else if readLost == [] && waitLost == [] && waits == [] && waitNew == [] {
      assert waited == [] && done + (read + readNew) + [] == (done + read + []) + (readNew + []);
    }
  }

  /**
   When the disk changes, what the tailer holds changes by the new generation of the file the path names, that of a
   file only the tailer has open, and what a cut takes away; in this order when nothing is lost and only the named file
   is cut.
   */
  lemma ChangeBalances(t: Tail, p: Place, last: Option<FileId>, d: Disk, ticks: seq<Tick>)
    requires ticks != [] && Stands(t, p, d) && (t.file.Some? ==> last.Some?)
    ensures var next, e, later := ticks[0].disk, Ends(d, ticks), Ends(ticks[0].disk, ticks[1..]);
            var q, lost := AfterChange(p, t, d, next), LostInCut(t, p, last, d, next);
            var before, after := Held(t, p, last, e), Held(t, q, last, later);
            var named, behind := Files(CutFile(last, d, next), later), Files(AddedBehind(t, last, d, next), later);
            && Stands(t, q, next)
            && |after| + |lost| == |before| + |named| + |behind|
            && (lost == [] && behind == [] ==> after == before + named)
  {
    var next, e, later := ticks[0].disk, Ends(d, ticks), Ends(ticks[0].disk, ticks[1..]);
    OpenPartChanges(t, p, d, ticks);
    WaitingPartChanges(t, last, d, ticks);
    StandsAfterChange(t, p, d, next);
    var q := AfterChange(p, t, d, next);
    var apart := t.file != last;
    PartsChange(t.bytesRead, ToRead(t, p, e), ToRead(t, q, later),
                if CutFile(t.file, d, next) != [] then ToRead(t, p, d) else [], Files(CutFile(t.file, d, next), later),
                Files(Waiting(t, last), e), Files(Waiting(t, last), later),
                if apart then Files(CutFile(last, d, next), d) else [],
                if apart then Files(CutFile(last, d, next), later) else []);
    if !apart {
      assert Waiting(t, last) == [] && Files(Waiting(t, last), e) == [];
      assert Files(CutFile(last, d, next), later) + [] == Files(CutFile(last, d, next), later);
    } else {
      assert [] + Files(CutFile(last, d, next), later) == Files(CutFile(last, d, next), later);
    }
  }

  lemma StandsAfterChange(t: Tail, p: Place, d: Disk, next: Disk)
    requires Stands(t, p, d)
    ensures Stands(t, AfterChange(p, t, d, next), next)
  {
  }

  // ---------- Whole runs ----------

  /** Change of the disk and wake-up together. */
  function LostInTick(t: Tail, p: Place, last: Option<FileId>, d: Disk, ticks: seq<Tick>): seq<byte>
    requires Accounted(t) && ticks != []
  {
    var next := ticks[0].disk;
    LostInCut(t, p, last, d, next) + LostAtLook(t, AfterChange(p, t, d, next), last, ticks[0], Ends(next, ticks[1..]))
  }

  function NextPlace(t: Tail, p: Place, d: Disk, tick: Tick): Place
    requires Accounted(t)
  {
    AfterLook(AfterChange(p, t, d, tick.disk), t, tick)
  }

  function AllLost(t: Tail, p: Place, last: Option<FileId>, d: Disk, ticks: seq<Tick>): seq<byte>
    requires Accounted(t)
    decreases |ticks|
  {
    if ticks == [] then []
    else
      var tick := ticks[0];
      LostInTick(t, p, last, d, ticks) +
      AllLost(Next(t, tick), NextPlace(t, p, d, tick), NextName(last, tick.disk), tick.disk, ticks[1..])
  }

  function LastPlace(t: Tail, p: Place, d: Disk, ticks: seq<Tick>): Place
    requires Accounted(t)
    decreases |ticks|
  {
    if ticks == [] then p
    else LastPlace(Next(t, ticks[0]), NextPlace(t, p, d, ticks[0]), ticks[0].disk, ticks[1..])
  }

  /** What the first open passed over. */
  function AllPassedOver(t: Tail, ticks: seq<Tick>): seq<byte>
    requires Accounted(t)
    decreases |ticks|
  {
    if ticks == [] then []
    else Head(t, ticks[0], Ends(ticks[0].disk, ticks[1..])) + AllPassedOver(Next(t, ticks[0]), ticks[1..])
  }

  /** New generations of files that only the tailer still has open. */
  function AllBehind(t: Tail, last: Option<FileId>, d: Disk, ticks: seq<Tick>): seq<byte>
    requires Accounted(t)
    decreases |ticks|
  {
    if ticks == [] then []
    else
      var next := ticks[0].disk;
      Files(AddedBehind(t, last, d, next), Ends(next, ticks[1..])) +
      AllBehind(Next(t, ticks[0]), NextName(last, next), next, ticks[1..])
  }

  /** What one tick adds to the log: a new generation of the named file, and a file newly named. */
  function Added(last: Option<FileId>, d: Disk, next: Disk): seq<FileId> {
    CutFile(last, d, next) + NewName(last, next)
  }

  /** The whole log: every generation of every file the path came to name, as it had become in the end, in order. */
  function Log(last: Option<FileId>, d: Disk, ticks: seq<Tick>): seq<byte>
    decreases |ticks|
  {
    if ticks == [] then []
    else
      var next := ticks[0].disk;
      Files(Added(last, d, next), Ends(next, ticks[1..])) + Log(NextName(last, next), next, ticks[1..])
  }

  lemma FirstTickUnfolds(t: Tail, p: Place, last: Option<FileId>, d: Disk, ticks: seq<Tick>)
    requires Accounted(t) && ticks != []
    ensures var u, q, next, rest := Next(t, ticks[0]), NextPlace(t, p, d, ticks[0]), ticks[0].disk, ticks[1..];
            var name, later := NextName(last, next), Ends(next, rest);
            && Run(t, ticks) == Run(u, rest) && LastName(last, ticks) == LastName(name, rest)
            && LastDisk(d, ticks) == LastDisk(next, rest)
            && LastPlace(t, p, d, ticks) == LastPlace(u, q, next, rest)
            && AllLost(t, p, last, d, ticks) == LostInTick(t, p, last, d, ticks) + AllLost(u, q, name, next, rest)
  {
  }

  lemma FirstTickAdds(t: Tail, last: Option<FileId>, d: Disk, ticks: seq<Tick>)
    requires Accounted(t) && ticks != []
    ensures var u, next, rest := Next(t, ticks[0]), ticks[0].disk, ticks[1..];
            var name, later := NextName(last, next), Ends(next, rest);
            && AllPassedOver(t, ticks) == Head(t, ticks[0], later) + AllPassedOver(u, rest)
            && AllBehind(t, last, d, ticks) ==
               Files(AddedBehind(t, last, d, next), later) + AllBehind(u, name, next, rest)
            && Log(last, d, ticks) == Files(Added(last, d, next), later) + Log(name, next, rest)
  {
  }

  /** Change and wake-up, one after the other. */
  lemma TickAddsUp(before: seq<byte>, between: seq<byte>, after: seq<byte>, head: seq<byte>, cutLost: seq<byte>,
                   lookLost: seq<byte>, again: seq<byte>, named: seq<byte>, behind: seq<byte>)
    requires |between| + |cutLost| == |before| + |again| + |behind|
    requires cutLost == [] && behind == [] ==> between == before + again
    requires |head| + |after| + |lookLost| == |between + named| && (lookLost == [] ==> head + after == between + named)
    ensures |head| + |after| + |cutLost + lookLost| == |before + (again + named)| + |behind|
    ensures cutLost + lookLost == [] && behind == [] ==> head + after == before + (again + named)
  {
    if cutLost == [] && behind == [] { assert (before + again) + named == before + (again + named); }
  }

  lemma TickBalances(t: Tail, p: Place, last: Option<FileId>, d: Disk, ticks: seq<Tick>)
    requires Accounted(t) && ticks != [] && Stands(t, p, d) && (t.file.Some? ==> last.Some?)
    ensures var u, q, next := Next(t, ticks[0]), NextPlace(t, p, d, ticks[0]), ticks[0].disk;
            var later, name := Ends(next, ticks[1..]), NextName(last, next);
            var before, after := Held(t, p, last, Ends(d, ticks)), Held(u, q, name, later);
            var lost := LostInTick(t, p, last, d, ticks);
            var added, behind := Files(Added(last, d, next), later), Files(AddedBehind(t, last, d, next), later);
            && Stands(u, q, next) && (u.file.Some? ==> name.Some?)
            && |Head(t, ticks[0], later)| + |after| + |lost| == |before + added| + |behind|
            && (lost == [] && behind == [] ==> Head(t, ticks[0], later) + after == before + added)
  {
    var u, q, next := Next(t, ticks[0]), NextPlace(t, p, d, ticks[0]), ticks[0].disk;
    var later, name, changed := Ends(next, ticks[1..]), NextName(last, next), AfterChange(p, t, d, next);
    EndsGrow(next, ticks[1..]);
    ChangeBalances(t, p, last, d, ticks);
    LookBalances(t, changed, last, ticks[0], later);
    FilesAppend(CutFile(last, d, next), NewName(last, next), later);
    TickAddsUp(Held(t, p, last, Ends(d, ticks)), Held(t, changed, last, later), Held(u, q, name, later),
               Head(t, ticks[0], later), LostInCut(t, p, last, d, next), LostAtLook(t, changed, last, ticks[0], later),
               Files(CutFile(last, d, next), later), Files(NewName(last, next), later),
               Files(AddedBehind(t, last, d, next), later));
  }

  lemma RunAddsUp(before: seq<byte>, between: seq<byte>, after: seq<byte>, head: seq<byte>, lost: seq<byte>,
                  added: seq<byte>, behind: seq<byte>, laterHead: seq<byte>, laterLost: seq<byte>,
                  laterAdded: seq<byte>, laterBehind: seq<byte>)
    requires |head| + |between| + |lost| == |before + added| + |behind|
    requires lost == [] && behind == [] ==> head + between == before + added
    requires |laterHead| + |after| + |laterLost| == |between + laterAdded| + |laterBehind|
    requires laterLost == [] && laterBehind == [] ==> laterHead + after == between + laterAdded
    ensures |head + laterHead| + |after| + |lost + laterLost| ==
            |before + (added + laterAdded)| + |behind + laterBehind|
    ensures lost + laterLost == [] && behind + laterBehind == [] ==>
              (head + laterHead) + after == before + (added + laterAdded)
  {
    if lost == [] && laterLost == [] && behind == [] && laterBehind == [] {
      assert (head + laterHead) + after == head + (laterHead + after) == head + (between + laterAdded);
      assert head + (between + laterAdded) == (head + between) + laterAdded == before + (added + laterAdded);
    }
  }

  lemma {:induction false} WholeRunBalances(t: Tail, p: Place, last: Option<FileId>, d: Disk, ticks: seq<Tick>)
    requires Accounted(t) && Stands(t, p, d) && (t.file.Some? ==> last.Some?)
    ensures var after := Held(Run(t, ticks), LastPlace(t, p, d, ticks), LastName(last, ticks), LastDisk(d, ticks));
            var before, lost := Held(t, p, last, Ends(d, ticks)) + Log(last, d, ticks), AllLost(t, p, last, d, ticks);
            && |AllPassedOver(t, ticks)| + |after| + |lost| == |before| + |AllBehind(t, last, d, ticks)|
            && (lost == [] && AllBehind(t, last, d, ticks) == [] ==> AllPassedOver(t, ticks) + after == before)
    decreases |ticks|
  {
    if ticks == [] {
      assert [] + Held(t, p, last, d) == Held(t, p, last, d) == Held(t, p, last, d) + [];
    } else {
      var u, q, next, rest := Next(t, ticks[0]), NextPlace(t, p, d, ticks[0]), ticks[0].disk, ticks[1..];
      var name, later := NextName(last, next), Ends(next, rest);
      TickBalances(t, p, last, d, ticks);
      WholeRunBalances(u, q, name, next, rest);
      FirstTickUnfolds(t, p, last, d, ticks);
      FirstTickAdds(t, last, d, ticks);
      RunAddsUp(Held(t, p, last, Ends(d, ticks)), Held(u, q, name, later),
                Held(Run(u, rest), LastPlace(u, q, next, rest), LastName(name, rest), LastDisk(next, rest)),
                Head(t, ticks[0], later), LostInTick(t, p, last, d, ticks), Files(Added(last, d, next), later),
                Files(AddedBehind(t, last, d, next), later), AllPassedOver(u, rest), AllLost(u, q, name, next, rest),
                Log(name, next, rest), AllBehind(u, name, next, rest));
    }
  }

  /** What was uploaded, is pending, is to be read or waits. */
  function Delivered(t: Tail, p: Place, last: Option<FileId>, e: Disk): seq<byte> {
    Concat(t.uploads) + t.pending + ToRead(t, p, e) + Files(Waiting(t, last), e)
  }

  /** What the tailer delivers of a whole history. */
  function DeliveredBy(d: Disk, ticks: seq<Tick>): seq<byte> {
    Delivered(Run(NEW, ticks), LastPlace(NEW, InStep, d, ticks), LastName(None, ticks), LastDisk(d, ticks))
  }

  /**
   In every run whatsoever, also when files are cut: each byte of each generation of the log is passed over by the first
   open, uploaded, pending, still to be read, waiting or lost, and none of them twice; without a loss they come in the
   order of the log, as long as only the file that the path names is cut.
   */
  lemma EveryGenerationIsAccountedFor(d: Disk, ticks: seq<Tick>)
    ensures var head, lost := AllPassedOver(NEW, ticks), AllLost(NEW, InStep, None, d, ticks);
            var log, behind := Log(None, d, ticks), AllBehind(NEW, None, d, ticks);
            && |head| + |DeliveredBy(d, ticks)| + |lost| == |log| + |behind|
            && (behind == [] ==> (head + DeliveredBy(d, ticks) == log <==> lost == []))
  {
    WholeRunBalances(NEW, InStep, None, d, ticks);
    NothingReadIsLost(NEW, ticks);
    assert Held(NEW, InStep, None, Ends(d, ticks)) == [];
    assert [] + Log(None, d, ticks) == Log(None, d, ticks);
    DeliveredIsHeld(Run(NEW, ticks), LastPlace(NEW, InStep, d, ticks), LastName(None, ticks), LastDisk(d, ticks));
    if AllBehind(NEW, None, d, ticks) == [] {
      CompleteIffNothingLost(AllPassedOver(NEW, ticks), DeliveredBy(d, ticks), AllLost(NEW, InStep, None, d, ticks),
                             Log(None, d, ticks));
    }
  }

  lemma DeliveredIsHeld(t: Tail, p: Place, last: Option<FileId>, e: Disk)
    requires Accounted(t)
    ensures Delivered(t, p, last, e) == Held(t, p, last, e)
  {
  }
}
