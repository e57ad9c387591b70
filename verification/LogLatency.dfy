/**
 When the log tailer reads and uploads.

 A first open reads the end of the log; a small batch waits up to 350 ms for more, a full one and the rest of a file
 that the path no longer names do not wait.
 */
module LogLatency {
  import opened LogTail
  import opened Wrappers

  const ALL_FINE := Io(true, true, true, true, true, true)

  // ---------- What one wake-up uploads ----------

  /** A look at an untruncated file only tells whether the path still names it. */
  lemma LookTells(t: Tail, d: Disk)
    requires Sound(t) && t.file.Some? && !t.resetPending && t.readOffset <= |Content(d, t.file.value)|
    ensures var u := Prepare(t, d, ALL_FINE).tail;
            && Prepare(t, d, ALL_FINE).ok && u == t.(replaced := u.replaced, missing := u.missing)
            && (u.replaced || u.missing <==> d.path != t.file)
  {
  }

  /** The batch of a wake-up: what was pending and what is new, up to 64 KiB. */
  function Batch(t: Tail, d: Disk): seq<byte> {
    Take(t.pending + Unread(t, d), 65536)
  }

  /** The batch after reading, and since when it waits. */
  lemma FillStartsWaiting(t: Tail, d: Disk, now: int)
    requires Sound(t) && t.file.Some? && !t.resetPending && t.readOffset <= |Content(d, t.file.value)|
    ensures var r, b := Fill(t, d, now, ALL_FINE), Batch(t, d);
            && r.ok && r.tail.pending == b && r.tail.uploads == t.uploads && r.tail.replaced == t.replaced
            && r.tail.pendingSince == (if t.pending == [] then (if b == [] then t.pendingSince else now)
                                       else if b == t.pending && |b| < 65536 && (t.replaced || t.missing) then now - 350
                                       else t.pendingSince)
  {
    FillTakes(t, d, now, ALL_FINE);
    if |t.pending| < MAX_CHUNK {
      ChunkIsTaken(Content(d, t.file.value), t.readOffset, MAX_CHUNK - |t.pending|);
      TakeAppend(t.pending, Unread(t, d), MAX_CHUNK);
    }
  }

  /**
   A batch is uploaded when it is full, when its first bytes have waited 350 ms, or when bytes are waiting, nothing is
   left to read and the path does not name the file any more.
   */
  predicate IsDue(t: Tail, d: Disk, now: int) {
    var b := Batch(t, d);
    |b| == 65536 || (t.pending != [] && (now >= t.pendingSince + 350 || (b == t.pending && d.path != t.file)))
  }

  /** What a wake-up makes of its batch: it uploads it or lets it wait on. */
  predicate Handles(t: Tail, u: Tail, b: seq<byte>, due: bool, now: int) {
    if due then u.uploads == t.uploads + [b] && u.pending == []
    else
      && u.uploads == t.uploads && u.pending == b
      && (b != [] ==> u.pendingSince == if t.pending == [] then now else t.pendingSince)
  }

  lemma DrainHandles(t: Tail, d: Disk, now: int)
    requires t.file.Some? && |t.pending| <= MAX_CHUNK
    ensures Drain(t, now, ALL_FINE).ok && Drain(t, now, ALL_FINE).tail.file.Some?
    ensures var u := Follow(Drain(t, now, ALL_FINE).tail, d, ALL_FINE).tail;
            if t.pending != [] && (|t.pending| == 65536 || now >= t.pendingSince + 350)
            then u.uploads == t.uploads + [t.pending] && u.pending == []
            else u.uploads == t.uploads && u.pending == t.pending && u.pendingSince == t.pendingSince
  {
  }

  /** A wake-up whose calls all succeed uploads its batch exactly if that is due. */
  lemma UploadsIffDue(t: Tail, d: Disk, now: int)
    requires Accounted(t) && t.file.Some? && !t.resetPending && t.readOffset <= |Content(d, t.file.value)|
    ensures Handles(t, Next(t, Tick(d, now, ALL_FINE)), Batch(t, d), IsDue(t, d, now), now)
  {
    LookTells(t, d);
    var looked := Prepare(t, d, ALL_FINE).tail;
    FillStartsWaiting(looked, d, now);
    DrainHandles(Fill(looked, d, now, ALL_FINE).tail, d, now);
  }

  /** It fails only where it should follow another file and the path names none. */
  lemma SucceedsIff(t: Tail, d: Disk, now: int)
    requires Accounted(t) && t.file.Some? && !t.resetPending && t.readOffset <= |Content(d, t.file.value)|
    ensures StepTail(t, d, now, ALL_FINE).ok <==>
            d.path.Some? || !t.replaced || Next(t, Tick(d, now, ALL_FINE)).pending != []
  {
    var looked := Prepare(t, d, ALL_FINE).tail;
    LookTells(t, d);
    if d.path.None? { LookKeepsReplaced(t, d); }
    FillStartsWaiting(looked, d, now);
    var filled := Fill(looked, d, now, ALL_FINE).tail;
    DrainHandles(filled, d, now);
    FollowSucceedsIff(Drain(filled, now, ALL_FINE).tail, d);
    NextIsDeliver(t, Tick(d, now, ALL_FINE));
    assert Drain(filled, now, ALL_FINE).tail.replaced == looked.replaced;
  }

  lemma LookKeepsReplaced(t: Tail, d: Disk)
    requires Sound(t) && t.file.Some? && d.path.None?
    ensures Prepare(t, d, ALL_FINE).tail.replaced == t.replaced
  {
  }

  lemma FollowSucceedsIff(t: Tail, d: Disk)
    requires t.file.Some?
    ensures var r := Follow(t, d, ALL_FINE);
            && (r.ok <==> d.path.Some? || !t.replaced || t.pending != []) && r.tail.pending == t.pending
  {
  }

  /** An upload that fails keeps the whole batch for later, and the wake-up fails. */
  lemma FailedUploadKeepsBatch(t: Tail, d: Disk, now: int)
    requires Accounted(t) && t.file.Some? && !t.resetPending && t.readOffset <= |Content(d, t.file.value)|
    requires IsDue(t, d, now)
    ensures var io := ALL_FINE.(uploadOk := false);
            var u := Next(t, Tick(d, now, io));
            && !StepTail(t, d, now, io).ok && u.uploads == t.uploads && u.pending == Batch(t, d) && u.file == t.file
  {
    var io := ALL_FINE.(uploadOk := false);
    var looked := Prepare(t, d, ALL_FINE).tail;
    LookTells(t, d);
    FillStartsWaiting(looked, d, now);
    assert Prepare(t, d, io) == Prepare(t, d, ALL_FINE) && Fill(looked, d, now, io) == Fill(looked, d, now, ALL_FINE);
    DrainFails(Fill(looked, d, now, io).tail, now, io);
    NextIsDeliver(t, Tick(d, now, io));
  }

  lemma DrainFails(t: Tail, now: int, io: Io)
    requires t.pending != [] && (|t.pending| == 65536 || now >= t.pendingSince + 350) && !io.uploadOk
    ensures Drain(t, now, io) == Outcome(t, false)
  {
  }

  lemma FollowSwitches(t: Tail, d: Disk, now: int)
    requires t.file.Some? && |t.pending| <= MAX_CHUNK && (d.path.Some? ==> (t.replaced <==> d.path != t.file))
    ensures var r := Drain(t, now, ALL_FINE);
            && r.ok && r.tail.file.Some?
            && var u := Follow(r.tail, d, ALL_FINE).tail;
            && u.pending == r.tail.pending && u.file == (if u.pending == [] && d.path.Some? then d.path else t.file)
            && (u.file != t.file ==> u.readOffset == 0)
  {
  }

  /** Such a wake-up then follows the file that the path names, exactly if nothing of the old one is pending. */
  lemma FollowsIffDrained(t: Tail, d: Disk, now: int)
    requires Accounted(t) && t.file.Some? && !t.resetPending && t.readOffset <= |Content(d, t.file.value)|
    ensures var u := Next(t, Tick(d, now, ALL_FINE));
            && u.file == (if u.pending == [] && d.path.Some? then d.path else t.file)
            && (u.file != t.file ==> u.readOffset == 0)
  {
    var looked := Prepare(t, d, ALL_FINE).tail;
    LookTells(t, d);
    if d.path.Some? { LookTellsName(t, d); }
    FillStartsWaiting(looked, d, now);
    FollowSwitches(Fill(looked, d, now, ALL_FINE).tail, d, now);
    NextIsDeliver(t, Tick(d, now, ALL_FINE));
  }

  lemma LookTellsName(t: Tail, d: Disk)
    requires Sound(t) && t.file.Some? && d.path.Some?
    ensures var u := Prepare(t, d, ALL_FINE).tail; u.replaced <==> d.path != t.file
  {
  }

  /** The last 64 KiB. */
  function LastPart(content: seq<byte>): seq<byte> {
    if |content| <= 65536 then content else content[|content| - 65536..]
  }

  lemma FirstOpen(d: Disk)
    requires d.path.Some?
    ensures var r, content := Open(NEW, d, ALL_FINE), Content(d, d.path.value);
            && r.ok && r.tail.file == d.path && Accounted(r.tail) && !r.tail.resetPending
            && r.tail.uploads == [] && r.tail.readOffset <= |content| && Batch(r.tail, d) == LastPart(content)
            && Prepare(NEW, d, ALL_FINE) == Prepare(r.tail, d, ALL_FINE)
  {
  }

  /** The first open reads the end of the log and nothing before it; a full batch of it is uploaded at once. */
  lemma FirstOpenReadsLastPart(d: Disk, now: int)
    requires d.path.Some?
    ensures var content, u := Content(d, d.path.value), Next(NEW, Tick(d, now, ALL_FINE));
            && u.bytesRead == LastPart(content)
            && u.uploads == if |content| >= 65536 then [LastPart(content)] else []
  {
    var t, tick := Open(NEW, d, ALL_FINE).tail, Tick(d, now, ALL_FINE);
    FirstOpen(d);
    NextIsDeliver(NEW, tick);
    NextIsDeliver(t, tick);
    UploadsIffDue(t, d, now);
    UploadedOrPending(Next(t, tick), LastPart(Content(d, d.path.value)));
  }

  lemma UploadedOrPending(u: Tail, batch: seq<byte>)
    requires Accounted(u)
    requires (u.uploads == [] + [batch] && u.pending == []) || (u.uploads == [] && u.pending == batch)
    ensures u.bytesRead == batch
  {
    ConcatAppend([], batch);
    assert [] + batch == batch + [] == batch;
  }

  // ---------- No byte waits for long ----------

  predicate NeverBack(before: int, ticks: seq<Tick>)
    decreases |ticks|
  {
    ticks == [] || (before <= ticks[0].now && NeverBack(ticks[0].now, ticks[1..]))
  }

  /** What is pending was read by the time since, or is due at the next wake-up anyhow. */
  predicate WaitsSince(t: Tail, since: int, now: int) {
    t.pending != [] ==> t.pendingSince <= since || t.pendingSince <= now - 350
  }

  /** These bytes were read by the time since; they are uploaded, or they wait since then. */
  ghost predicate OnTheWay(t: Tail, bytes: seq<byte>, since: int, now: int) {
    bytes <= Concat(t.uploads) || (bytes <= t.bytesRead && WaitsSince(t, since, now))
  }

  lemma LookKeepsWaiting(t: Tail, d: Disk, io: Io)
    requires Sound(t)
    ensures Prepare(t, d, io).tail.pendingSince == t.pendingSince
  {
  }

  lemma FillReads(t: Tail, d: Disk, now: int, io: Io)
    requires Sound(t) && t.file.Some?
    ensures var u := Fill(t, d, now, io).tail;
            && u.uploads == t.uploads && t.pending <= u.pending && t.bytesRead <= u.bytesRead
            && (u.pending != [] ==>
                  u.pendingSince in {now, now - 350} || (t.pending != [] && u.pendingSince == t.pendingSince))
            && (t.pending != [] ==> u.pendingSince in {t.pendingSince, now - 350})
  {
  }

  lemma DeliverEnds(t: Tail, d: Disk, now: int, io: Io)
    requires Sound(t) && t.file.Some?
    ensures var f, u := Fill(t, d, now, io).tail, Deliver(t, d, now, io).tail;
            && u.bytesRead == f.bytesRead
            && ((u.uploads == f.uploads && u.pending == f.pending && u.pendingSince == f.pendingSince)
                || (u.uploads == f.uploads + [f.pending] && u.pending == []))
  {
  }

  /** The tailer has read on at most. */
  predicate WaitsOn(t: Tail, u: Tail, now: int) {
    && u.uploads == t.uploads && t.pending <= u.pending
    && (u.pending != [] ==>
          u.pendingSince in {now, now - 350} || (t.pending != [] && u.pendingSince == t.pendingSince))
    && (t.pending != [] ==> u.pendingSince in {t.pendingSince, now - 350})
  }

  /** A step uploads all that was pending, or leaves it waiting. */
  lemma StepUploadsOrWaits(t: Tail, tick: Tick)
    requires Accounted(t)
    ensures var u := Next(t, tick);
            WaitsOn(t, u, tick.now) || (u.pending == [] && t.bytesRead <= Concat(u.uploads))
    ensures t.bytesRead <= Next(t, tick).bytesRead && Concat(t.uploads) <= Concat(Next(t, tick).uploads)
  {
    var d, now, io := tick.disk, tick.now, tick.io;
    var prepared := Prepare(t, d, io);
    LookKeepsWaiting(t, d, io);
    NextIsDeliver(t, tick);
    if prepared.ok {
      var batch := Fill(prepared.tail, d, now, io).tail.pending;
      FillReads(prepared.tail, d, now, io);
      DeliverEnds(prepared.tail, d, now, io);
      ConcatAppend(t.uploads, batch);
      AppendedPrefix(Concat(t.uploads), t.pending, batch);
    }
  }

  lemma AppendedPrefix(sent: seq<byte>, a: seq<byte>, b: seq<byte>)
    requires a <= b
    ensures sent <= sent + b && sent + a <= sent + b
  {
  }

  lemma NothingPending(t: Tail)
    requires Accounted(t) && t.pending == []
    ensures t.bytesRead == Concat(t.uploads)
  {
  }

  /** Bytes on the way stay on the way. */
  lemma StepKeepsOnTheWay(t: Tail, tick: Tick, bytes: seq<byte>, since: int, before: int)
    requires Accounted(t) && OnTheWay(t, bytes, since, before) && before <= tick.now
    ensures OnTheWay(Next(t, tick), bytes, since, tick.now)
  {
    StepUploadsOrWaits(t, tick);
    if t.pending == [] { NothingPending(t); }
  }

  lemma LookSucceeds(t: Tail, d: Disk)
    requires Sound(t) && t.file.Some?
    ensures Prepare(t, d, ALL_FINE).ok
  {
  }

  lemma DrainsDue(t: Tail, d: Disk, now: int)
    requires t.file.Some? && t.pending != [] && now >= t.pendingSince + 350
    ensures var r := Drain(t, now, ALL_FINE);
            r.ok && r.tail.file.Some? && Follow(r.tail, d, ALL_FINE).tail.pending == []
  {
  }

  lemma DueIsUploaded(t: Tail, tick: Tick)
    requires Accounted(t) && t.pending != [] && tick.now >= t.pendingSince + 350 && tick.io == ALL_FINE
    ensures Next(t, tick).pending == []
  {
    var d, now := tick.disk, tick.now;
    var looked := Prepare(t, d, ALL_FINE).tail;
    LookSucceeds(t, d);
    LookKeepsWaiting(t, d, ALL_FINE);
    FillReads(looked, d, now, ALL_FINE);
    DrainsDue(Fill(looked, d, now, ALL_FINE).tail, d, now);
    NextIsDeliver(t, tick);
  }

  /** A wake-up 350 ms after they were read, with all calls succeeding, uploads them. */
  lemma LateStepUploads(t: Tail, tick: Tick, bytes: seq<byte>, since: int, before: int)
    requires Accounted(t) && OnTheWay(t, bytes, since, before) && before <= tick.now
    requires tick.io == ALL_FINE && tick.now >= since + 350
    ensures bytes <= Concat(Next(t, tick).uploads)
  {
    StepUploadsOrWaits(t, tick);
    if t.pending == [] {
      NothingPending(t);
    } else if bytes <= t.bytesRead && WaitsSince(t, since, before) {
      DueIsUploaded(t, tick);
      NothingPending(Next(t, tick));
    }
  }

  lemma {:induction false} UploadedInTime(t: Tail, ticks: seq<Tick>, bytes: seq<byte>, since: int, before: int)
    requires Accounted(t) && OnTheWay(t, bytes, since, before) && ticks != [] && NeverBack(before, ticks)
    requires ticks[|ticks| - 1].io == ALL_FINE && ticks[|ticks| - 1].now >= since + 350
    ensures bytes <= Concat(Run(t, ticks).uploads)
    decreases |ticks|
  {
    if |ticks| == 1 {
      LateStepUploads(t, ticks[0], bytes, since, before);
      assert Run(t, ticks) == Run(Next(t, ticks[0]), []) == Next(t, ticks[0]);
    } else {
      StepKeepsOnTheWay(t, ticks[0], bytes, since, before);
      UploadedInTime(Next(t, ticks[0]), ticks[1..], bytes, since, ticks[0].now);
    }
  }

  lemma {:induction false} ReadThenUploaded(t: Tail, before: int, first: seq<Tick>, rest: seq<Tick>)
    requires Accounted(t) && WaitsSince(t, before, before) && NeverBack(before, first + rest) && rest != []
    requires rest[|rest| - 1].io == ALL_FINE
    requires rest[|rest| - 1].now >= (if first == [] then before else first[|first| - 1].now) + 350
    ensures Run(t, first).bytesRead <= Concat(Run(t, first + rest).uploads)
    decreases |first|
  {
    if first == [] {
      assert first + rest == rest;
      UploadedInTime(t, rest, t.bytesRead, before, before);
    } else {
      assert (first + rest)[1..] == first[1..] + rest;
      StepUploadsOrWaits(t, first[0]);
      ReadThenUploaded(Next(t, first[0]), first[0].now, first[1..], rest);
    }
  }

  /**
   However the disk changes and whichever calls fail: what was read by some wake-up is uploaded by the first later one
   that comes at least 350 ms after it and whose calls succeed, provided the clock does not go back.
   */
  lemma ReadIsUploadedInTime(first: seq<Tick>, rest: seq<Tick>)
    requires first != [] && rest != [] && NeverBack(first[0].now, first + rest)
    requires rest[|rest| - 1].io == ALL_FINE && rest[|rest| - 1].now >= first[|first| - 1].now + 350
    ensures Run(NEW, first).bytesRead <= Concat(Run(NEW, first + rest).uploads)
  {
    ReadThenUploaded(NEW, first[0].now, first, rest);
  }
}
