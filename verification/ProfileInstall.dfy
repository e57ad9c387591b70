/**
 Staging player profiles and installing them before a server starts.

 The file system is a map from paths to files; the agent may stop between any two operations on it,
 or in the middle of a write.  Renaming and removing are atomic.
 */
module ProfileInstall {
  import opened Wrappers

  newtype byte = x: int | 0 <= x < 256

  /** A profile by the directory and the base name of its live file. */
  datatype Profile = Profile(dir: string, base: string)

  /** Backups are named after the base name and a timestamp; temporary files get a name of their own. */
  datatype Path =
    | Live(p: Profile) | Companion(p: Profile)
    | StagedTemp(p: Profile) | StagedData(p: Profile) | StagedMeta(p: Profile)
    | Backup(base: string, stamp: int) | BackupCompanion(base: string, stamp: int) | Archive(base: string, stamp: int)
    | Replacement(p: Profile, stamp: int)

  datatype File = Bytes(content: seq<byte>) | Meta(p: Profile) | Torn

  type Disk = map<Path, File>

  const MAX_PROFILE := 64 * 1024
  const HEADER: seq<byte> := [116, 116, 112, 0]

  predicate HasHeader(content: seq<byte>) {
    |content| >= 4 && content[..4] == HEADER
  }

  // ---------- File operations ----------

  datatype Op =
    | Write(to: Path, file: File)
    | Copy(from: Path, to: Path)
    | Rename(from: Path, to: Path)
    | Remove(path: Path)

  function Without(d: Disk, path: Path): Disk {
    d - {path}
  }

  function Do(d: Disk, op: Op): Disk {
    match op
    case Write(to, file) => d[to := file]
    case Copy(from, to) => if from in d then d[to := d[from]] else d
    case Rename(from, to) => if from in d then Without(d[to := d[from]], from) else d
    case Remove(path) => Without(d, path)
  }

  /** The first n units of a file, as a write leaves them behind when it is cut short. */
  function Cut(f: File, n: nat): File {
    match f
    case Bytes(content) => if n < |content| then Bytes(content[..n]) else f
    case _ => Torn
  }

  /** With no unit done an operation has not begun; the first unit of a write truncates its target. */
  function DoPartly(d: Disk, op: Op, n: nat): Disk {
    if n == 0 then d
    else
      match op
      case Write(to, file) => d[to := Cut(file, n - 1)]
      case Copy(from, to) => if from in d then d[to := Cut(d[from], n - 1)] else d
      case _ => d
  }

  /** The first k operations. */
  function DoAll(d: Disk, ops: seq<Op>, k: nat): Disk
    requires k <= |ops|
  {
    if k == 0 then d else Do(DoAll(d, ops, k - 1), ops[k - 1])
  }

  /** The agent stops, or an operation fails, after k operations and n units of the next one. */
  function Stopped(d: Disk, ops: seq<Op>, k: nat, n: nat): Disk {
    if k >= |ops| then DoAll(d, ops, |ops|) else DoPartly(DoAll(d, ops, k), ops[k], n)
  }

  predicate Touches(op: Op, path: Path) {
    match op
    case Write(to, _) => path == to
    case Copy(_, to) => path == to
    case Rename(from, to) => path == from || path == to
    case Remove(q) => path == q
  }

  function At(d: Disk, path: Path): Option<File> {
    if path in d then Some(d[path]) else None
  }

  lemma {:induction false} UntouchedAll(d: Disk, ops: seq<Op>, from: nat, k: nat, path: Path)
    requires from <= k <= |ops|
    requires forall i :: from <= i < k ==> !Touches(ops[i], path)
    ensures At(DoAll(d, ops, k), path) == At(DoAll(d, ops, from), path)
  {
    if k > from {
      UntouchedAll(d, ops, from, k - 1, path);
    }
  }

  /** Operations that do not touch a path leave it alone, also when they are cut short. */
  lemma Untouched(d: Disk, ops: seq<Op>, from: nat, k: nat, n: nat, path: Path)
    requires from <= k && from <= |ops|
    requires forall i :: from <= i < |ops| && i <= k ==> !Touches(ops[i], path)
    ensures At(Stopped(d, ops, k, n), path) == At(DoAll(d, ops, from), path)
  {
    UntouchedAll(d, ops, from, if k < |ops| then k else |ops|, path);
  }

  // ---------- Staging ----------

  predicate Stageable(d: Disk, p: Profile, content: seq<byte>) {
    HasHeader(content) && |content| <= MAX_PROFILE && Live(p) in d && d[Live(p)].Bytes?
        && |d[Live(p)].content| <= MAX_PROFILE
  }

  function StageOps(p: Profile, content: seq<byte>): seq<Op> {
    [Write(StagedTemp(p), Bytes(content)), Rename(StagedTemp(p), StagedData(p)), Write(StagedMeta(p), Meta(p))]
  }

  /** When the metadata cannot be written the staged data is removed again. */
  function Stage(d: Disk, p: Profile, content: seq<byte>, k: nat, n: nat, cleanup: bool): Disk {
    if !Stageable(d, p, content) then d
    else
      var after := Stopped(d, StageOps(p, content), k, n);
      if k == 2 && cleanup then Without(after, StagedData(p)) else after
  }

  // ---------- Installing ----------

  /** What the agent checks before it touches anything. */
  predicate Ready(d: Disk, p: Profile) {
    && StagedMeta(p) in d && d[StagedMeta(p)] == Meta(p)
    && Live(p) in d && d[Live(p)].Bytes?
    && StagedData(p) in d && d[StagedData(p)].Bytes? && HasHeader(d[StagedData(p)].content)
  }

  function CompanionOps(d: Disk, p: Profile, stamp: int): seq<Op> {
    if Companion(p) in d then [Copy(Companion(p), BackupCompanion(p.base, stamp))] else []
  }

  function InstallOps(d: Disk, p: Profile, stamp: int): (ops: seq<Op>)
    requires Ready(d, p)
  {
    [Copy(Live(p), Backup(p.base, stamp))] + CompanionOps(d, p, stamp) +
    [Write(Archive(p.base, stamp), Meta(p)),
     Write(Replacement(p, stamp), d[StagedData(p)]),
     Rename(Replacement(p, stamp), Live(p)),
     Remove(StagedData(p)), Remove(StagedMeta(p))]
  }

  /** Where the live file is replaced. */
  function RenameAt(d: Disk, p: Profile): nat {
    if Companion(p) in d then 4 else 3
  }

  /** One queued profile; on an error the replacement file is removed. */
  function Install(d: Disk, p: Profile, stamp: int, k: nat, n: nat, cleanup: bool): Disk {
    if !Ready(d, p) then d
    else
      var after := Stopped(d, InstallOps(d, p, stamp), k, n);
      if cleanup && RenameAt(d, p) - 1 <= k <= RenameAt(d, p) then Without(after, Replacement(p, stamp)) else after
  }

  lemma InstallOpsShape(d: Disk, p: Profile, stamp: int)
    requires Ready(d, p)
    ensures var ops, r := InstallOps(d, p, stamp), RenameAt(d, p);
            && |ops| == r + 3
            && ops[0] == Copy(Live(p), Backup(p.base, stamp))
            && ops[r - 1] == Write(Replacement(p, stamp), d[StagedData(p)])
            && ops[r] == Rename(Replacement(p, stamp), Live(p))
            && ops[r + 1] == Remove(StagedData(p)) && ops[r + 2] == Remove(StagedMeta(p))
            && forall i :: 0 < i < r - 1 ==>
                 ops[i] == Copy(Companion(p), BackupCompanion(p.base, stamp))
                     || ops[i] == Write(Archive(p.base, stamp), Meta(p))
  {
  }

  /** The live file is the old one until the rename and the complete staged one from then on. */
  lemma LiveIsOldOrStaged(d: Disk, p: Profile, stamp: int, k: nat, n: nat, cleanup: bool)
    requires Ready(d, p)
    ensures At(Install(d, p, stamp, k, n, cleanup), Live(p)) ==
            Some(if k <= RenameAt(d, p) then d[Live(p)] else d[StagedData(p)])
  {
    var ops, r := InstallOps(d, p, stamp), RenameAt(d, p);
    InstallOpsShape(d, p, stamp);
    if k < r {
      Untouched(d, ops, 0, k, n, Live(p));
    } else {
      UntouchedAll(d, ops, 0, r, Live(p));
      if k > r { Untouched(d, ops, r + 1, k, n, Live(p)); }
    }
  }

  /** From the rename on, and before, the replaced content is in its backup. */
  lemma BackupHoldsReplaced(d: Disk, p: Profile, stamp: int, k: nat, n: nat, cleanup: bool)
    requires Ready(d, p) && k >= 1
    ensures At(Install(d, p, stamp, k, n, cleanup), Backup(p.base, stamp)) == Some(d[Live(p)])
  {
    var ops := InstallOps(d, p, stamp);
    InstallOpsShape(d, p, stamp);
    assert DoAll(d, ops, 1) == Do(DoAll(d, ops, 0), ops[0]);
    Untouched(d, ops, 1, k, n, Backup(p.base, stamp));
  }

  /** Once the live file may be replaced, its companion and the note about the profile are kept beside that backup. */
  lemma BackupIsComplete(d: Disk, p: Profile, stamp: int, k: nat, n: nat, cleanup: bool)
    requires Ready(d, p) && k >= RenameAt(d, p)
    ensures var after := Install(d, p, stamp, k, n, cleanup);
            && (Companion(p) in d ==> At(after, BackupCompanion(p.base, stamp)) == Some(d[Companion(p)]))
            && At(after, Archive(p.base, stamp)) == Some(Meta(p))
  {
    var ops, note := InstallOps(d, p, stamp), RenameAt(d, p) - 2;
    if Companion(p) in d {
      UntouchedAll(d, ops, 0, 1, Companion(p));
      assert DoAll(d, ops, 2) == Do(DoAll(d, ops, 1), ops[1]);
      Untouched(d, ops, 2, k, n, BackupCompanion(p.base, stamp));
    }
    assert DoAll(d, ops, note + 1) == Do(DoAll(d, ops, note), ops[note]);
    Untouched(d, ops, note + 1, k, n, Archive(p.base, stamp));
  }

  /** The temporary file stays behind only where the agent is stopped for good between its creation and the rename. */
  lemma ReplacementLeftIff(d: Disk, p: Profile, stamp: int, k: nat, n: nat, cleanup: bool)
    requires Ready(d, p) && Replacement(p, stamp) !in d
    ensures Replacement(p, stamp) in Install(d, p, stamp, k, n, cleanup) <==>
            !cleanup && ((k == RenameAt(d, p) - 1 && n > 0) || k == RenameAt(d, p))
  {
    var ops, r, path := InstallOps(d, p, stamp), RenameAt(d, p), Replacement(p, stamp);
    InstallOpsShape(d, p, stamp);
    UntouchedAll(d, ops, 0, r - 1, path);
    if k < r - 1 {
      Untouched(d, ops, 0, k, n, path);
    } else if k >= r {
      assert DoAll(d, ops, r) == Do(DoAll(d, ops, r - 1), ops[r - 1]);
      if k > r {
        assert DoAll(d, ops, r + 1) == Do(DoAll(d, ops, r), ops[r]);
        Untouched(d, ops, r + 1, k, n, path);
      }
    }
  }

  /** Everything else an installation leaves alone. */
  lemma InstallFrame(d: Disk, p: Profile, stamp: int, k: nat, n: nat, cleanup: bool, path: Path)
    requires path != Live(p) && path != Backup(p.base, stamp) && path != BackupCompanion(p.base, stamp)
    requires path != Archive(p.base, stamp) && path != Replacement(p, stamp) && path != StagedData(p)
             && path != StagedMeta(p)
    ensures At(Install(d, p, stamp, k, n, cleanup), path) == At(d, path)
  {
    if Ready(d, p) {
      InstallOpsShape(d, p, stamp);
      Untouched(d, InstallOps(d, p, stamp), 0, k, n, path);
    }
  }

  /** Staging touches only the staging files of its profile. */
  lemma StageFrame(d: Disk, p: Profile, content: seq<byte>, k: nat, n: nat, cleanup: bool, path: Path)
    requires path != StagedTemp(p) && path != StagedData(p) && path != StagedMeta(p)
    ensures At(Stage(d, p, content, k, n, cleanup), path) == At(d, path)
  {
    if Stageable(d, p, content) { Untouched(d, StageOps(p, content), 0, k, n, path); }
  }

  /** Staged data is the old or the new one, complete, or it is gone. */
  lemma StagedDataIsWhole(d: Disk, p: Profile, content: seq<byte>, k: nat, n: nat, cleanup: bool)
    requires Stageable(d, p, content)
    ensures var staged := At(Stage(d, p, content, k, n, cleanup), StagedData(p));
            if k < 2 then staged == At(d, StagedData(p))
            else staged == Some(Bytes(content)) || (staged == None && k == 2 && cleanup)
  {
    var ops := StageOps(p, content);
    assert DoAll(d, ops, 1) == Do(DoAll(d, ops, 0), ops[0]);
    if k < 2 {
      assert k == 1 ==> At(Stopped(d, ops, 1, n), StagedData(p)) == At(DoAll(d, ops, 1), StagedData(p));
    } else {
      assert DoAll(d, ops, 2) == Do(DoAll(d, ops, 1), ops[1]);
      Untouched(d, ops, 2, k, n, StagedData(p));
    }
  }

  /** What may be staged: "ttp" and a zero byte in front, and no more than 65536 bytes, now and in the live file. */
  predicate IsProfile(d: Disk, p: Profile, content: seq<byte>) {
    && |content| >= 4 && content[0] == 't' as byte && content[1] == 't' as byte && content[2] == 'p' as byte
    && content[3] == 0 && |content| <= 65536
    && (match At(d, Live(p)) case Some(Bytes(live)) => |live| <= 65536 case _ => false)
  }

  /** Such content is queued by an undisturbed staging, and any other changes nothing at all. */
  lemma StagesExactlyProfiles(d: Disk, p: Profile, content: seq<byte>, k: nat, n: nat, cleanup: bool)
    ensures var after := Stage(d, p, content, k, n, cleanup);
            if !IsProfile(d, p, content) then after == d
            else k >= 3 ==> Ready(after, p) && after[StagedData(p)] == Bytes(content)
  {
    if IsProfile(d, p, content) {
      var ops := StageOps(p, content);
      assert content[..4] == HEADER;
      StagedDataIsWhole(d, p, content, k, n, cleanup);
      StageFrame(d, p, content, k, n, cleanup, Live(p));
      assert k >= 3 ==> Stopped(d, ops, k, n) == Do(DoAll(d, ops, 2), ops[2]);
    }
  }

  // ---------- Every run ----------

  datatype Replaced = Replaced(p: Profile, stamp: int, content: File)

  /**
   known holds what the game saved or what was staged completely, replaced the contents that were
   replaced so far, used the names given to backups.
   */
  datatype State = State(disk: Disk, known: set<(Profile, File)>, replaced: seq<Replaced>, used: set<(string, int)>)

  const EMPTY := State(map[], {}, [], {})

  datatype Event =
    | Saves(p: Profile, content: seq<byte>)
    | Stages(p: Profile, content: seq<byte>, k: nat, n: nat, cleanup: bool)
    | Installs(p: Profile, stamp: int, k: nat, n: nat, cleanup: bool)

  /** No two installations under one base name happen at the same nanosecond. */
  predicate CanHappen(st: State, e: Event) {
    e.Installs? ==> (e.p.base, e.stamp) !in st.used
  }

  function Step(st: State, e: Event): State {
    match e
    case Saves(p, content) =>
      st.(disk := st.disk[Live(p) := Bytes(content)], known := st.known + {(p, Bytes(content))})
    case Stages(p, content, k, n, cleanup) =>
      st.(disk := Stage(st.disk, p, content, k, n, cleanup),
          known := if Stageable(st.disk, p, content) && k >= 2 then st.known + {(p, Bytes(content))} else st.known)
    case Installs(p, stamp, k, n, cleanup) =>
      st.(disk := Install(st.disk, p, stamp, k, n, cleanup),
          used := st.used + {(p.base, stamp)},
          replaced := if Ready(st.disk, p) && k > RenameAt(st.disk, p)
                      then st.replaced + [Replaced(p, stamp, st.disk[Live(p)])] else st.replaced)
  }

  predicate AllCanHappen(st: State, events: seq<Event>)
    decreases |events|
  {
    events == [] || (CanHappen(st, events[0]) && AllCanHappen(Step(st, events[0]), events[1..]))
  }

  function After(st: State, events: seq<Event>): State
    decreases |events|
  {
    if events == [] then st else After(Step(st, events[0]), events[1..])
  }

  predicate Whole(st: State, p: Profile) {
    && (Live(p) in st.disk ==> st.disk[Live(p)].Bytes? && (p, st.disk[Live(p)]) in st.known)
    && (StagedData(p) in st.disk ==> st.disk[StagedData(p)].Bytes? && (p, st.disk[StagedData(p)]) in st.known)
  }

  predicate Kept(st: State, r: Replaced) {
    && (r.p.base, r.stamp) in st.used
    && At(st.disk, Backup(r.p.base, r.stamp)) == Some(r.content)
  }

  ghost predicate Inv(st: State) {
    && (forall p :: Whole(st, p))
    && (forall i :: 0 <= i < |st.replaced| ==> Kept(st, st.replaced[i]))
  }

  lemma StageKeepsWhole(st: State, e: Event, q: Profile)
    requires e.Stages? && Whole(st, q)
    ensures Whole(Step(st, e), q)
  {
    StageFrame(st.disk, e.p, e.content, e.k, e.n, e.cleanup, Live(q));
    if q != e.p {
      StageFrame(st.disk, e.p, e.content, e.k, e.n, e.cleanup, StagedData(q));
    } else if Stageable(st.disk, q, e.content) {
      StagedDataIsWhole(st.disk, q, e.content, e.k, e.n, e.cleanup);
    }
  }

  lemma InstallKeepsWhole(st: State, e: Event, q: Profile)
    requires e.Installs? && Whole(st, q)
    ensures Whole(Step(st, e), q)
  {
    if q != e.p {
      InstallFrame(st.disk, e.p, e.stamp, e.k, e.n, e.cleanup, Live(q));
      InstallFrame(st.disk, e.p, e.stamp, e.k, e.n, e.cleanup, StagedData(q));
    } else if Ready(st.disk, q) {
      LiveIsOldOrStaged(st.disk, q, e.stamp, e.k, e.n, e.cleanup);
      InstalledDataGoes(st.disk, q, e.stamp, e.k, e.n, e.cleanup);
    }
  }

  lemma InstalledDataGoes(d: Disk, p: Profile, stamp: int, k: nat, n: nat, cleanup: bool)
    requires Ready(d, p)
    ensures At(Install(d, p, stamp, k, n, cleanup), StagedData(p)) ==
            if k <= RenameAt(d, p) + 1 then At(d, StagedData(p)) else None
  {
    var ops, r := InstallOps(d, p, stamp), RenameAt(d, p);
    InstallOpsShape(d, p, stamp);
    if k <= r {
      Untouched(d, ops, 0, k, n, StagedData(p));
    } else {
      UntouchedAll(d, ops, 0, r + 1, StagedData(p));
      assert DoAll(d, ops, r + 2) == Do(DoAll(d, ops, r + 1), ops[r + 1]);
      if k > r + 1 { Untouched(d, ops, r + 2, k, n, StagedData(p)); }
    }
  }

  lemma StepKeepsBackup(st: State, e: Event, r: Replaced)
    requires CanHappen(st, e) && Kept(st, r)
    ensures Kept(Step(st, e), r)
  {
    match e
    case Saves(_, _) =>
    case Stages(p, content, k, n, cleanup) => StageFrame(st.disk, p, content, k, n, cleanup, Backup(r.p.base, r.stamp));
    case Installs(p, stamp, k, n, cleanup) => InstallFrame(st.disk, p, stamp, k, n, cleanup, Backup(r.p.base, r.stamp));
  }

  lemma StepKeepsInv(st: State, e: Event)
    requires CanHappen(st, e) && Inv(st)
    ensures Inv(Step(st, e))
  {
    var after := Step(st, e);
    forall q ensures Whole(after, q) {
      assert Whole(st, q);
      match e
      case Saves(_, _) =>
      case Stages(_, _, _, _, _) => StageKeepsWhole(st, e, q);
      case Installs(_, _, _, _, _) => InstallKeepsWhole(st, e, q);
    }
    forall i | 0 <= i < |after.replaced| ensures Kept(after, after.replaced[i]) {
      if i < |st.replaced| {
        StepKeepsBackup(st, e, st.replaced[i]);
      } else {
        BackupHoldsReplaced(st.disk, e.p, e.stamp, e.k, e.n, e.cleanup);
      }
    }
  }

  lemma {:induction false} RunKeepsInv(st: State, events: seq<Event>)
    requires Inv(st) && AllCanHappen(st, events)
    ensures Inv(After(st, events))
    decreases |events|
  {
    if events != [] {
      StepKeepsInv(st, events[0]);
      RunKeepsInv(Step(st, events[0]), events[1..]);
    }
  }

  /**
   Wherever the agent stops, and however often: a live profile is always complete, and everything that was ever
   replaced is still in its backup.
   */
  lemma ProfilesSurvive(events: seq<Event>, p: Profile, i: nat)
    requires AllCanHappen(EMPTY, events)
    ensures var st := After(EMPTY, events); Live(p) in st.disk ==> (p, st.disk[Live(p)]) in st.known
    ensures var st := After(EMPTY, events);
            i < |st.replaced| ==>
                At(st.disk, Backup(st.replaced[i].p.base, st.replaced[i].stamp)) == Some(st.replaced[i].content)
  {
    RunKeepsInv(EMPTY, events);
    var st := After(EMPTY, events);
    assert Whole(st, p);
    assert i < |st.replaced| ==> Kept(st, st.replaced[i]);
  }

  /** With equal timestamps the profiles of two saves that share a base name overwrite each other's backup. */
  lemma SameStampLosesBackup(d: Disk, p: Profile, q: Profile, stamp: int)
    requires p != q && p.base == q.base && Ready(d, p) && Ready(d, q)
    ensures var one := Install(d, p, stamp, 7, 0, false); var both := Install(one, q, stamp, 7, 0, false);
            && At(one, Backup(p.base, stamp)) == Some(d[Live(p)])
            && At(both, Backup(p.base, stamp)) == Some(d[Live(q)])
  {
    BackupHoldsReplaced(d, p, stamp, 7, 0, false);
    OthersStayReady(d, p, stamp, 7, 0, false, q);
    BackupHoldsReplaced(Install(d, p, stamp, 7, 0, false), q, stamp, 7, 0, false);
  }

  /** An installation spares a backup exactly if it uses another name, or has the same content to save. */
  lemma BackupSurvivesIff(d: Disk, q: Profile, stamp: int, k: nat, n: nat, cleanup: bool, base: string, other: int)
    requires Ready(d, q) && k >= 1
    ensures At(Install(d, q, stamp, k, n, cleanup), Backup(base, other)) == At(d, Backup(base, other)) <==>
            base != q.base || other != stamp || At(d, Backup(base, other)) == Some(d[Live(q)])
  {
    if base == q.base && other == stamp {
      BackupHoldsReplaced(d, q, stamp, k, n, cleanup);
    } else {
      InstallFrame(d, q, stamp, k, n, cleanup, Backup(base, other));
    }
  }

  /** Installing one profile changes nothing for another one that is queued. */
  lemma OthersStayReady(d: Disk, p: Profile, stamp: int, k: nat, n: nat, cleanup: bool, q: Profile)
    requires p != q
    ensures var after := Install(d, p, stamp, k, n, cleanup);
            && At(after, Live(q)) == At(d, Live(q)) && At(after, StagedData(q)) == At(d, StagedData(q))
            && (Ready(after, q) <==> Ready(d, q))
  {
    InstallFrame(d, p, stamp, k, n, cleanup, Live(q));
    InstallFrame(d, p, stamp, k, n, cleanup, StagedData(q));
    InstallFrame(d, p, stamp, k, n, cleanup, StagedMeta(q));
  }

  // ---------- The whole queue ----------

  /** The queued profiles in order, each with its timestamp; the first one that is not ready ends the run. */
  function ApplyQueue(d: Disk, queue: seq<Profile>, stamps: seq<int>, count: nat): (r: (Disk, bool))
    requires |stamps| == |queue| && count <= |queue|
  {
    if count == 0 then (d, true)
    else
      var before := ApplyQueue(d, queue, stamps, count - 1);
      var p := queue[count - 1];
      if !before.1 || !Ready(before.0, p) then (before.0, false)
      else (Install(before.0, p, stamps[count - 1], |InstallOps(before.0, p, stamps[count - 1])|, 0, false), true)
  }

  lemma InstallFinishes(d: Disk, p: Profile, stamp: int)
    requires Ready(d, p)
    ensures var after := Install(d, p, stamp, |InstallOps(d, p, stamp)|, 0, false);
            && At(after, Live(p)) == At(d, StagedData(p)) && StagedData(p) !in after && StagedMeta(p) !in after
  {
    var ops := InstallOps(d, p, stamp);
    InstallOpsShape(d, p, stamp);
    LiveIsOldOrStaged(d, p, stamp, |ops|, 0, false);
    InstalledDataGoes(d, p, stamp, |ops|, 0, false);
    assert DoAll(d, ops, |ops|) == Do(DoAll(d, ops, |ops| - 1), ops[|ops| - 1]);
  }

  /** What the first n entries of an undisturbed run do to a profile of the queue. */
  lemma {:induction false} QueueInstalls(d: Disk, queue: seq<Profile>, stamps: seq<int>, n: nat, i: nat)
    requires |stamps| == |queue| && n <= |queue| && i < |queue|
    requires forall j, k :: 0 <= j < k < |queue| ==> queue[j] != queue[k]
    requires forall j :: 0 <= j < |queue| ==> Ready(d, queue[j])
    ensures var r := ApplyQueue(d, queue, stamps, n);
            && r.1
            && (n <= i ==> Ready(r.0, queue[i]) && At(r.0, StagedData(queue[i])) == At(d, StagedData(queue[i])))
            && (i < n ==> At(r.0, Live(queue[i])) == At(d, StagedData(queue[i]))
                          && StagedMeta(queue[i]) !in r.0 && StagedData(queue[i]) !in r.0)
    decreases n, if i == n - 1 then 0 else 1
  {
    if n > 0 {
      QueueInstalls(d, queue, stamps, n - 1, i);
      QueueInstalls(d, queue, stamps, n - 1, n - 1);
      var before, p, stamp := ApplyQueue(d, queue, stamps, n - 1).0, queue[n - 1], stamps[n - 1];
      if i == n - 1 {
        InstallFinishes(before, p, stamp);
      } else {
        var k := |InstallOps(before, p, stamp)|;
        OthersStayReady(before, p, stamp, k, 0, false, queue[i]);
        InstallFrame(before, p, stamp, k, 0, false, StagedMeta(queue[i]));
      }
    }
  }

  /** An undisturbed run installs everything that is queued and empties the queue. */
  lemma QueueIsInstalled(d: Disk, queue: seq<Profile>, stamps: seq<int>, i: nat)
    requires |stamps| == |queue| && i < |queue|
    requires forall j, k :: 0 <= j < k < |queue| ==> queue[j] != queue[k]
    requires forall j :: 0 <= j < |queue| ==> Ready(d, queue[j])
    ensures var after := ApplyQueue(d, queue, stamps, |queue|).0;
            && At(after, Live(queue[i])) == At(d, StagedData(queue[i]))
            && StagedMeta(queue[i]) !in after && StagedData(queue[i]) !in after
  {
    QueueInstalls(d, queue, stamps, |queue|, i);
  }

  /** Stopped between its two removals, an installation leaves an entry that no later run gets
      past, though the live file is installed. */
  lemma StopBetweenRemovalsBlocks(d: Disk, p: Profile, stamp: int, queue: seq<Profile>, stamps: seq<int>, count: nat)
    requires Ready(d, p)
    requires |stamps| == |queue| && 0 < count <= |queue| && queue[0] == p
    ensures var after := Install(d, p, stamp, RenameAt(d, p) + 2, 0, false);
            && At(after, Live(p)) == Some(d[StagedData(p)])
            && ApplyQueue(after, queue, stamps, count) == (after, false)
  {
    LiveIsOldOrStaged(d, p, stamp, RenameAt(d, p) + 2, 0, false);
    InstalledDataGoes(d, p, stamp, RenameAt(d, p) + 2, 0, false);
    BlockedQueue(Install(d, p, stamp, RenameAt(d, p) + 2, 0, false), queue, stamps, count);
  }

  lemma InstalledMetaGoes(d: Disk, p: Profile, stamp: int, k: nat, n: nat, cleanup: bool)
    requires Ready(d, p)
    ensures At(Install(d, p, stamp, k, n, cleanup), StagedMeta(p)) ==
            if k <= RenameAt(d, p) + 2 then At(d, StagedMeta(p)) else None
  {
    var ops, r := InstallOps(d, p, stamp), RenameAt(d, p);
    InstallOpsShape(d, p, stamp);
    if k <= r + 1 {
      Untouched(d, ops, 0, k, n, StagedMeta(p));
    } else {
      UntouchedAll(d, ops, 0, r + 2, StagedMeta(p));
      assert DoAll(d, ops, r + 3) == Do(DoAll(d, ops, r + 2), ops[r + 2]);
    }
  }

  /** A stopped installation leaves an entry that later runs refuse exactly if it stopped between its two removals. */
  lemma BlockedIffBetweenRemovals(d: Disk, p: Profile, stamp: int, k: nat, n: nat, cleanup: bool)
    requires Ready(d, p)
    ensures var after := Install(d, p, stamp, k, n, cleanup);
            StagedMeta(p) in after && !Ready(after, p) <==> k == RenameAt(d, p) + 2
  {
    LiveIsOldOrStaged(d, p, stamp, k, n, cleanup);
    InstalledDataGoes(d, p, stamp, k, n, cleanup);
    InstalledMetaGoes(d, p, stamp, k, n, cleanup);
  }

  // ---------- What blocks the queue ----------

  /** An entry is queued, but installations refuse it. */
  predicate Blocked(d: Disk, p: Profile) {
    StagedMeta(p) in d && !Ready(d, p)
  }

  lemma StagedMetaIs(d: Disk, p: Profile, content: seq<byte>, k: nat, n: nat, cleanup: bool)
    requires Stageable(d, p, content)
    ensures At(Stage(d, p, content, k, n, cleanup), StagedMeta(p)) ==
            if k < 2 || (k == 2 && n == 0) then At(d, StagedMeta(p)) else if k == 2 then Some(Torn) else Some(Meta(p))
  {
    var ops := StageOps(p, content);
    UntouchedAll(d, ops, 0, 2, StagedMeta(p));
    if k < 2 { Untouched(d, ops, 0, k, n, StagedMeta(p)); }
    assert DoAll(d, ops, 3) == Do(DoAll(d, ops, 2), ops[2]);
  }

  /** Between new data and new metadata an earlier entry stays, blocked if unreadable or if the data goes again. */
  predicate BlockedBetween(d: Disk, p: Profile, cleanup: bool) {
    StagedMeta(p) in d && (cleanup || d[StagedMeta(p)] != Meta(p))
  }

  /**
   A staging leaves a blocked entry exactly if it stopped in writing the metadata, with or without the staged data,
   before this write and the earlier entry does not fit the new data, or before the data and the entry was blocked
   already.  A completed one makes the entry ready.
   */
  lemma StagingBlocksIff(d: Disk, p: Profile, content: seq<byte>, k: nat, n: nat, cleanup: bool)
    requires Stageable(d, p, content)
    ensures Blocked(Stage(d, p, content, k, n, cleanup), p) <==>
            (k < 2 && Blocked(d, p)) || (k == 2 && (n > 0 || BlockedBetween(d, p, cleanup)))
    ensures k >= 3 ==> Ready(Stage(d, p, content, k, n, cleanup), p)
  {
    StageFrame(d, p, content, k, n, cleanup, Live(p));
    StagedDataIsWhole(d, p, content, k, n, cleanup);
    StagedMetaIs(d, p, content, k, n, cleanup);
  }

  /** A staging or installation that stops where it blocks its entry. */
  predicate Blocks(d: Disk, e: Event, p: Profile) {
    match e
    case Saves(_, _) => false
    case Stages(q, content, k, n, cleanup) =>
      q == p && Stageable(d, p, content) && k == 2 && (n > 0 || BlockedBetween(d, p, cleanup))
    case Installs(q, _, k, _, _) => q == p && Ready(d, p) && k == RenameAt(d, p) + 2
  }

  /** A completed staging, or one that renewed the data under metadata that is there already. */
  predicate Heals(d: Disk, e: Event, p: Profile) {
    && e.Stages? && e.p == p && Stageable(d, p, e.content)
    && (e.k >= 3 || (e.k == 2 && e.n == 0 && !e.cleanup && At(d, StagedMeta(p)) == Some(Meta(p))))
  }

  lemma OthersStageReady(d: Disk, p: Profile, content: seq<byte>, k: nat, n: nat, cleanup: bool, q: Profile)
    requires p != q
    ensures Blocked(Stage(d, p, content, k, n, cleanup), q) <==> Blocked(d, q)
  {
    StageFrame(d, p, content, k, n, cleanup, Live(q));
    StageFrame(d, p, content, k, n, cleanup, StagedData(q));
    StageFrame(d, p, content, k, n, cleanup, StagedMeta(q));
  }

  /**
   Whatever happens, an entry is blocked afterwards if and only if a staging or installation of it just stopped where
   it blocks, or it was blocked and no staging of it renewed its data under whole metadata.
   */
  lemma StepBlocksIff(st: State, e: Event, p: Profile)
    requires Live(p) in st.disk && st.disk[Live(p)].Bytes?
    ensures Blocked(Step(st, e).disk, p) <==> Blocks(st.disk, e, p) || (Blocked(st.disk, p) && !Heals(st.disk, e, p))
  {
    match e
    case Saves(_, _) =>
    case Stages(q, content, k, n, cleanup) =>
      if q != p {
        OthersStageReady(st.disk, q, content, k, n, cleanup, p);
      } else if Stageable(st.disk, p, content) {
        StagingBlocksIff(st.disk, p, content, k, n, cleanup);
      }
    case Installs(q, stamp, k, n, cleanup) =>
      if q != p {
        OthersStayReady(st.disk, q, stamp, k, n, cleanup, p);
        InstallFrame(st.disk, q, stamp, k, n, cleanup, StagedMeta(p));
      } else if Ready(st.disk, p) {
        BlockedIffBetweenRemovals(st.disk, p, stamp, k, n, cleanup);
      }
  }

  /** The entries before the first refused one are installed without changing whether the others are ready. */
  lemma {:induction false} ReadyUntil(d: Disk, queue: seq<Profile>, stamps: seq<int>, n: nat, i: nat)
    requires |stamps| == |queue| && n <= i < |queue|
    requires forall j, k :: 0 <= j < k < |queue| ==> queue[j] != queue[k]
    requires forall j :: 0 <= j < n ==> Ready(d, queue[j])
    ensures ApplyQueue(d, queue, stamps, n).1
    ensures Ready(ApplyQueue(d, queue, stamps, n).0, queue[i]) <==> Ready(d, queue[i])
    decreases n, if i == n - 1 then 0 else 1
  {
    if n > 0 {
      ReadyUntil(d, queue, stamps, n - 1, n - 1);
      ReadyUntil(d, queue, stamps, n - 1, i);
      var before, p := ApplyQueue(d, queue, stamps, n - 1).0, queue[n - 1];
      OthersStayReady(before, p, stamps[n - 1], |InstallOps(before, p, stamps[n - 1])|, 0, false, queue[i]);
    }
  }

  /** The run ends at the first refused entry, whatever comes behind it. */
  lemma QueueStopsAtRefused(d: Disk, queue: seq<Profile>, stamps: seq<int>, i: nat)
    requires |stamps| == |queue| && i < |queue| && !Ready(d, queue[i])
    requires forall j, k :: 0 <= j < k < |queue| ==> queue[j] != queue[k]
    requires forall j :: 0 <= j < i ==> Ready(d, queue[j])
    ensures ApplyQueue(d, queue, stamps, |queue|) == (ApplyQueue(d, queue, stamps, i).0, false)
  {
    ReadyUntil(d, queue, stamps, i, i);
    QueueEnds(d, queue, stamps, i + 1, |queue|);
  }

  /** A run over the queue succeeds if and only if no entry is refused. */
  lemma QueueSucceedsIff(d: Disk, queue: seq<Profile>, stamps: seq<int>)
    requires |stamps| == |queue|
    requires forall j, k :: 0 <= j < k < |queue| ==> queue[j] != queue[k]
    ensures ApplyQueue(d, queue, stamps, |queue|).1 <==> forall j :: 0 <= j < |queue| ==> Ready(d, queue[j])
  {
    var i := FirstRefused(d, queue);
    if i < |queue| {
      QueueStopsAtRefused(d, queue, stamps, i);
    } else if |queue| > 0 {
      QueueInstalls(d, queue, stamps, |queue|, 0);
    }
  }

  lemma {:induction false} FirstRefused(d: Disk, queue: seq<Profile>) returns (i: nat)
    ensures i <= |queue| && (i < |queue| ==> !Ready(d, queue[i]))
    ensures forall j :: 0 <= j < i ==> Ready(d, queue[j])
  {
    i := 0;
    while i < |queue| && Ready(d, queue[i])
      invariant i <= |queue| && forall j :: 0 <= j < i ==> Ready(d, queue[j])
    {
      i := i + 1;
    }
  }

  lemma {:induction false} BlockedQueue(d: Disk, queue: seq<Profile>, stamps: seq<int>, count: nat)
    requires |stamps| == |queue| && 0 < count <= |queue| && !Ready(d, queue[0])
    ensures ApplyQueue(d, queue, stamps, count) == (d, false)
  {
    if count > 1 {
      BlockedQueue(d, queue, stamps, count - 1);
    }
  }

  /** A refused entry decides the result of the whole run. */
  lemma {:induction false} QueueEnds(d: Disk, queue: seq<Profile>, stamps: seq<int>, count: nat, n: nat)
    requires |stamps| == |queue| && count <= n <= |queue| && !ApplyQueue(d, queue, stamps, count).1
    ensures ApplyQueue(d, queue, stamps, n) == ApplyQueue(d, queue, stamps, count)
  {
    if n > count {
      QueueEnds(d, queue, stamps, count, n - 1);
    }
  }

  // ---------- The agent ----------

  /**
   The files of a host, and how many operations the agent completes before it stops or, if erring, before one fails.
   */
  class Host {
    var disk: Disk
    var budget: nat
    var erring: bool
    var stopped: bool

    constructor (d: Disk, operations: nat, failure: bool)
      ensures disk == d && budget == operations && erring == failure && !stopped
    {
      disk, budget, erring, stopped := d, operations, failure, false;
    }

    /** The first i operations were done, or the agent stopped in one of them. */
    ghost predicate Progress(before: Disk, ops: seq<Op>, i: nat, available: nat, n: nat)
      requires i <= |ops|
      reads this
    {
      && (!stopped ==> i <= available && budget == available - i && disk == DoAll(before, ops, i))
      && (stopped ==> available < i && disk == Stopped(before, ops, available, n))
    }

    /** One operation, cut short after n units if the agent stops in it; nothing happens after that. */
    method Perform(op: Op, n: nat, ghost before: Disk, ghost ops: seq<Op>, ghost i: nat, ghost available: nat)
      requires i < |ops| && ops[i] == op && Progress(before, ops, i, available, n)
      modifies this`disk, this`budget, this`stopped
      ensures Progress(before, ops, i + 1, available, n)
    {
      if stopped { return; }
      if budget == 0 {
        disk := DoPartly(disk, op, n);
        stopped := true;
      } else {
        disk := Do(disk, op);
        budget := budget - 1;
      }
    }

    method StagePlayerProfile(p: Profile, content: seq<byte>, n: nat)
      requires !stopped
      modifies this`disk, this`budget, this`stopped
      ensures disk == Stage(old(disk), p, content, old(budget), n, erring)
    {
      if !Stageable(disk, p, content) { return; }
      ghost var before, available, ops := disk, budget, StageOps(p, content);
      Perform(Write(StagedTemp(p), Bytes(content)), n, before, ops, 0, available);
      Perform(Rename(StagedTemp(p), StagedData(p)), n, before, ops, 1, available);
      if stopped { return; }
      Perform(Write(StagedMeta(p), Meta(p)), n, before, ops, 2, available);
      if stopped && erring { disk := Without(disk, StagedData(p)); }
    }

    /** The copies of the live file and its companion, and the note about them. */
    method BackUp(p: Profile, stamp: int, n: nat, ghost before: Disk, ghost available: nat)
      requires !stopped && disk == before && budget == available && Ready(before, p)
      modifies this`disk, this`budget, this`stopped
      ensures Progress(before, InstallOps(before, p, stamp), RenameAt(before, p) - 1, available, n)
    {
      var hasCompanion := Companion(p) in disk;
      ghost var ops, r := InstallOps(disk, p, stamp), RenameAt(disk, p);
      Perform(Copy(Live(p), Backup(p.base, stamp)), n, before, ops, 0, available);
      if hasCompanion {
        Perform(Copy(Companion(p), BackupCompanion(p.base, stamp)), n, before, ops, 1, available);
      }
      Perform(Write(Archive(p.base, stamp), Meta(p)), n, before, ops, r - 2, available);
    }

    method InstallProfile(p: Profile, stamp: int, n: nat) returns (ok: bool)
      requires !stopped
      modifies this`disk, this`budget, this`stopped
      ensures disk == Install(old(disk), p, stamp, old(budget), n, erring)
      ensures ok <==> Ready(old(disk), p) && !stopped
      ensures ok ==> disk == Install(old(disk), p, stamp, |InstallOps(old(disk), p, stamp)|, 0, false)
    {
      if !Ready(disk, p) { return false; }
      var content := disk[StagedData(p)];
      ghost var before, available, ops, r := disk, budget, InstallOps(disk, p, stamp), RenameAt(disk, p);
      BackUp(p, stamp, n, before, available);
      if stopped { return false; }
      Perform(Write(Replacement(p, stamp), content), n, before, ops, r - 1, available);
      Perform(Rename(Replacement(p, stamp), Live(p)), n, before, ops, r, available);
      if stopped {
        if erring { disk := Without(disk, Replacement(p, stamp)); }
        return false;
      }
      Perform(Remove(StagedData(p)), n, before, ops, r + 1, available);
      Perform(Remove(StagedMeta(p)), n, before, ops, r + 2, available);
      return !stopped;
    }

    /** Nothing is touched while the game runs; otherwise entry after entry until one is refused or the agent stops. */
    method ApplyStagedPlayerProfiles(queue: seq<Profile>, stamps: seq<int>, gameActive: bool, n: nat) returns (ok: bool)
      requires !stopped && |stamps| == |queue|
      modifies this`disk, this`budget, this`stopped
      ensures queue != [] && gameActive ==> !ok && disk == old(disk)
      ensures !(queue != [] && gameActive) && !stopped ==> (disk, ok) == ApplyQueue(old(disk), queue, stamps, |queue|)
      ensures stopped ==> exists j, k :: 0 <= j < |queue| && 0 <= k && ApplyQueue(old(disk), queue, stamps, j).1
                                         && disk == Install(ApplyQueue(old(disk), queue, stamps, j).0, queue[j],
                                            stamps[j], k, n, erring)
    {
      if queue != [] && gameActive { return false; }
      ghost var before := disk;
      for j := 0 to |queue|
        invariant !stopped && ApplyQueue(before, queue, stamps, j) == (disk, true)
      {
        ghost var k := budget;
        var done := InstallProfile(queue[j], stamps[j], n);
        if !done {
          if !stopped { QueueEnds(before, queue, stamps, j + 1, |queue|); }
          return false;
        }
      }
      return true;
    }
  }
}
