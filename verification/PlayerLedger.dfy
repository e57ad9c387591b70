/**
 Players, their online state and their playtime.

 Rows are driven by two sources, the periodic player list of a server and join/leave lines of its log,
 and are merged when a row known by name only turns out to belong to a stable identity.  The tables
 of one server are sequences of rows; times are in milliseconds, playtime is in seconds.
 */
module PlayerLedger {
  import opened Text
  import opened Wrappers

  type PlayerId = nat

  /** A Steam or EOS identity, or the fallback key made of the lower-cased name. */
  datatype Key = Stable(id: string) | ByName(lower: string)

  datatype Identity = Identity(stable: Option<string>, name: string)

  datatype Player = Player(id: PlayerId, key: Key, name: string, online: bool, started: Option<int>, lifetime: int,
      lastSeen: int)

  datatype Session = Session(player: PlayerId, startedAt: int, ended: Option<int>, duration: int)

  /** doubled remembers whether some merge joined two online rows. */
  datatype Ledger = Ledger(players: seq<Player>, sessions: seq<Session>, nextId: PlayerId, doubled: bool)

  const EMPTY := Ledger([], [], 0, false)

  function KeyOf(who: Identity): Key {
    if who.stable.Some? then Stable(who.stable.value) else ByName(Lower(who.name))
  }

  function FallbackKey(name: string): Key {
    ByName(Lower(name))
  }

  function Max(x: int, y: int): int {
    if x >= y then x else y
  }

  function Min(x: int, y: int): int {
    if x <= y then x else y
  }

  /** Whole seconds from the start of the current session to its end, never negative. */
  function Duration(started: Option<int>, end: int): nat {
    if started.Some? && end >= started.value then (end - started.value) / 1000 else 0
  }

  /** The first row with the key at or after position k, or the number of rows. */
  function Find(players: seq<Player>, key: Key, k: nat): (r: nat)
    requires k <= |players|
    ensures k <= r <= |players|
    ensures r < |players| ==> players[r].key == key
    ensures forall j :: k <= j < r ==> players[j].key != key
    decreases |players| - k
  {
    if k == |players| || players[k].key == key then k else Find(players, key, k + 1)
  }

  // ---------- Sessions ----------

  function Moved(s: Session, from: PlayerId, to: PlayerId): Session {
    if s.player == from then s.(player := to) else s
  }

  function MoveSessions(sessions: seq<Session>, from: PlayerId, to: PlayerId): seq<Session> {
    seq(|sessions|, k requires 0 <= k < |sessions| => Moved(sessions[k], from, to))
  }

  function Closed(s: Session, player: PlayerId, end: int, duration: int): Session {
    if s.player == player && s.ended.None? then s.(ended := Some(end), duration := duration) else s
  }

  function CloseSessions(sessions: seq<Session>, player: PlayerId, end: int, duration: int): seq<Session> {
    seq(|sessions|, k requires 0 <= k < |sessions| => Closed(sessions[k], player, end, duration))
  }

  // ---------- Handlers as functions ----------

  function EarlierStart(a: Option<int>, b: Option<int>): Option<int> {
    if a.None? then b else if b.None? then a else Some(Min(a.value, b.value))
  }

  function MergedRow(canonical: Player, fallback: Player): Player {
    var online := canonical.online || fallback.online;
    canonical.(
      lifetime := canonical.lifetime + fallback.lifetime,
      lastSeen := Max(canonical.lastSeen, fallback.lastSeen),
      online := online,
      started := if online then EarlierStart(canonical.started, fallback.started) else None)
  }

  function RemoveAt(players: seq<Player>, k: nat): seq<Player>
    requires k < |players|
  {
    players[..k] + players[k + 1..]
  }

  /** The canonical row at c absorbs the fallback row at f. */
  function Merge(l: Ledger, c: nat, f: nat): Ledger
    requires c < |l.players| && f < |l.players|
  {
    var canonical, fallback := l.players[c], l.players[f];
    l.(players := RemoveAt(l.players[c := MergedRow(canonical, fallback)], f),
       sessions := MoveSessions(l.sessions, fallback.id, canonical.id),
       doubled := l.doubled || (canonical.online && fallback.online))
  }

  function Promote(l: Ledger, f: nat, key: Key): Ledger
    requires f < |l.players|
  {
    l.(players := l.players[f := l.players[f].(key := key)])
  }

  /** A stable identity takes over the row known by its name: by promotion, or by merging into its own row. */
  function Reconcile(l: Ledger, key: Key, name: string): Ledger {
    if key.ByName? then l
    else
      var f := Find(l.players, FallbackKey(name), 0);
      if f == |l.players| then l
      else
        var c := Find(l.players, key, 0);
        if c == |l.players| then Promote(l, f, key) else Merge(l, c, f)
  }

  /** The upsert of a player that is there, and a new session unless one is running. */
  function Upsert(l: Ledger, now: int, key: Key, name: string): Ledger {
    var k := Find(l.players, key, 0);
    if k == |l.players| then
      l.(players := l.players + [Player(l.nextId, key, name, true, Some(now), 0, now)],
         sessions := l.sessions + [Session(l.nextId, now, None, 0)],
         nextId := l.nextId + 1)
    else
      var row := l.players[k];
      if row.online then
        l.(players := l.players[k := row.(name := name, lastSeen := now)])
      else
        l.(players := l.players[k := row.(name := name, lastSeen := now, online := true, started := Some(now))],
           sessions := l.sessions + [Session(row.id, now, None, 0)])
  }

  function Enter(l: Ledger, now: int, who: Identity): Ledger {
    Upsert(Reconcile(l, KeyOf(who), who.name), now, KeyOf(who), who.name)
  }

  /** An online row goes offline: its open sessions end, and the session time is booked once. */
  function CloseRow(l: Ledger, k: nat, end: int, lastSeen: int): Ledger
    requires k < |l.players|
  {
    var row := l.players[k];
    var duration := Duration(row.started, end);
    l.(players := l.players[k := row.(online := false, started := None, lifetime := row.lifetime + duration,
        lastSeen := lastSeen)],
       sessions := CloseSessions(l.sessions, row.id, end, duration))
  }

  function Leave(l: Ledger, now: int, who: Identity): Ledger {
    var key := KeyOf(who);
    var r := Reconcile(l, key, who.name);
    var k := Find(r.players, key, 0);
    if k < |r.players| && r.players[k].online then CloseRow(r, k, now, now) else r
  }

  /** The first n lines of a player list. */
  function EnterUpTo(l: Ledger, now: int, listed: seq<Identity>, n: nat): Ledger
    requires n <= |listed|
  {
    if n == 0 then l else Enter(EnterUpTo(l, now, listed, n - 1), now, listed[n - 1])
  }

  lemma EnterUpToNext(l: Ledger, now: int, listed: seq<Identity>, n: nat)
    requires n < |listed|
    ensures EnterUpTo(l, now, listed, n + 1) == Enter(EnterUpTo(l, now, listed, n), now, listed[n])
  {
  }

  function SeenUpTo(listed: seq<Identity>, n: nat): set<Key>
    requires n <= |listed|
  {
    if n == 0 then {} else SeenUpTo(listed, n - 1) + {KeyOf(listed[n - 1])}
  }

  predicate IsMissing(row: Player, seen: set<Key>) {
    row.online && row.key !in seen
  }

  /** Rows from position k on that are online but not listed end where they were last seen. */
  function CloseMissing(l: Ledger, now: int, seen: set<Key>, k: nat): Ledger
    requires k <= |l.players|
    decreases |l.players| - k
  {
    if k == |l.players| then l
    else if IsMissing(l.players[k], seen) then
      CloseMissing(CloseRow(l, k, Min(l.players[k].lastSeen, now), l.players[k].lastSeen), now, seen, k + 1)
    else CloseMissing(l, now, seen, k + 1)
  }

  /** A complete player list. */
  function Sync(l: Ledger, now: int, listed: seq<Identity>): Ledger {
    CloseMissing(EnterUpTo(l, now, listed, |listed|), now, SeenUpTo(listed, |listed|), 0)
  }

  /** Listing first merges by name for the stable rows of a snapshot, here its first n rows. */
  function ReconcileUpTo(l: Ledger, snapshot: seq<Player>, n: nat): Ledger
    requires n <= |snapshot|
  {
    if n == 0 then l
    else Reconcile(ReconcileUpTo(l, snapshot, n - 1), snapshot[n - 1].key, snapshot[n - 1].name)
  }

  datatype Event =
    | EvSync(now: int, listed: seq<Identity>)
    | EvJoin(now: int, who: Identity)
    | EvLeave(now: int, who: Identity)
    | EvList

  function Step(l: Ledger, e: Event): Ledger {
    match e
    case EvSync(now, listed) => Sync(l, now, listed)
    case EvJoin(now, who) => Enter(l, now, who)
    case EvLeave(now, who) => Leave(l, now, who)
    case EvList => ReconcileUpTo(l, l.players, |l.players|)
  }

  function Run(l: Ledger, events: seq<Event>): Ledger
    decreases |events|
  {
    if events == [] then l else Run(Step(l, events[0]), events[1..])
  }

  // ---------- What the sessions of a player add up to ----------

  function OpenUpTo(sessions: seq<Session>, n: nat, player: PlayerId): nat
    requires n <= |sessions|
  {
    if n == 0 then 0
    else
      OpenUpTo(sessions, n - 1, player) +
      (if sessions[n - 1].player == player && sessions[n - 1].ended.None? then 1 else 0)
  }

  function ClosedUpTo(sessions: seq<Session>, n: nat, player: PlayerId): int
    requires n <= |sessions|
  {
    if n == 0 then 0
    else
      ClosedUpTo(sessions, n - 1, player) +
      (if sessions[n - 1].player == player && sessions[n - 1].ended.Some? then sessions[n - 1].duration else 0)
  }

  /** How many open sessions a player has. */
  function OpenCount(sessions: seq<Session>, player: PlayerId): nat {
    OpenUpTo(sessions, |sessions|, player)
  }

  /** The total duration of a player's closed sessions. */
  function ClosedTime(sessions: seq<Session>, player: PlayerId): int {
    ClosedUpTo(sessions, |sessions|, player)
  }

  lemma {:induction false} SumsOfPrefix(sessions: seq<Session>, more: seq<Session>, n: nat, player: PlayerId)
    requires n <= |sessions|
    ensures OpenUpTo(sessions + more, n, player) == OpenUpTo(sessions, n, player)
    ensures ClosedUpTo(sessions + more, n, player) == ClosedUpTo(sessions, n, player)
  {
    if n > 0 {
      SumsOfPrefix(sessions, more, n - 1, player);
    }
  }

  lemma SumsOfStart(sessions: seq<Session>, started: Session, player: PlayerId)
    requires started.ended.None?
    ensures OpenCount(sessions + [started], player) ==
            OpenCount(sessions, player) + (if started.player == player then 1 else 0)
    ensures ClosedTime(sessions + [started], player) == ClosedTime(sessions, player)
  {
    SumsOfPrefix(sessions, [started], |sessions|, player);
  }

  lemma {:induction false} SumsOfMove(sessions: seq<Session>, n: nat, from: PlayerId, to: PlayerId, player: PlayerId)
    requires n <= |sessions| && from != to
    ensures var moved := MoveSessions(sessions, from, to);
            && OpenUpTo(moved, n, player) ==
                 (if player == from then 0
                  else if player == to then OpenUpTo(sessions, n, to) + OpenUpTo(sessions, n, from)
                  else OpenUpTo(sessions, n, player))
            && ClosedUpTo(moved, n, player) ==
                 (if player == from then 0
                  else if player == to then ClosedUpTo(sessions, n, to) + ClosedUpTo(sessions, n, from)
                  else ClosedUpTo(sessions, n, player))
  {
    if n > 0 {
      SumsOfMove(sessions, n - 1, from, to, player);
    }
  }

  lemma {:induction false} OpenAfterClose(sessions: seq<Session>, n: nat, closed: PlayerId, end: int, duration: int,
      player: PlayerId)
    requires n <= |sessions|
    ensures OpenUpTo(CloseSessions(sessions, closed, end, duration), n, player) ==
            (if player == closed then 0 else OpenUpTo(sessions, n, player))
  {
    if n > 0 {
      OpenAfterClose(sessions, n - 1, closed, end, duration, player);
    }
  }

  /** A duration booked the given number of times. */
  function Booked(duration: nat, times: nat): (r: nat)
    ensures times == 1 ==> r == duration
    ensures times >= 1 ==> r >= duration
    ensures r == 0 <==> duration == 0 || times == 0
  {
    if times == 0 then 0 else Booked(duration, times - 1) + duration
  }

  /** Closing books the duration once for every open session of the player. */
  lemma {:induction false} ClosedAfterClose(sessions: seq<Session>, n: nat, closed: PlayerId, end: int, duration: nat,
      player: PlayerId)
    requires n <= |sessions|
    ensures ClosedUpTo(CloseSessions(sessions, closed, end, duration), n, player) ==
            ClosedUpTo(sessions, n, player) +
            (if player == closed then Booked(duration, OpenUpTo(sessions, n, player)) else 0)
  {
    if n > 0 {
      ClosedAfterClose(sessions, n - 1, closed, end, duration, player);
    }
  }

  /** Nobody has sessions under an id that was never given out. */
  lemma {:induction false} NothingForUnusedId(sessions: seq<Session>, n: nat, id: PlayerId)
    requires n <= |sessions|
    requires forall k :: 0 <= k < |sessions| ==> sessions[k].player != id
    ensures OpenUpTo(sessions, n, id) == 0 && ClosedUpTo(sessions, n, id) == 0
  {
    if n > 0 {
      NothingForUnusedId(sessions, n - 1, id);
    }
  }

  // ---------- The invariant ----------

  /** No two rows share an id or an identity key, and ids are never reused. */
  ghost predicate Unique(l: Ledger) {
    && (forall i, j :: 0 <= i < j < |l.players| ==>
       l.players[i].id != l.players[j].id && l.players[i].key != l.players[j].key)
    && (forall i :: 0 <= i < |l.players| ==> l.players[i].id < l.nextId)
    && (forall k :: 0 <= k < |l.sessions| ==> l.sessions[k].player < l.nextId)
  }

  /** Online, the session start and the open sessions of a row agree; its playtime is covered by its closed sessions. */
  predicate Agrees(row: Player, open: nat, closed: int, doubled: bool) {
    && (row.online <==> row.started.Some?)
    && (row.online <==> open > 0)
    && 0 <= row.lifetime <= closed
    && (!doubled ==> open <= 1 && row.lifetime == closed)
  }

  predicate RowAgrees(l: Ledger, row: Player) {
    Agrees(row, OpenCount(l.sessions, row.id), ClosedTime(l.sessions, row.id), l.doubled)
  }

  ghost predicate Inv(l: Ledger) {
    && Unique(l)
    && forall i :: 0 <= i < |l.players| ==> RowAgrees(l, l.players[i])
  }

  /** Where a row of the merged table was before. */
  lemma RowAfterMerge(l: Ledger, c: nat, f: nat, i: nat)
    requires c < |l.players| && f < |l.players| && c != f && i < |l.players| - 1
    ensures var row, was := Merge(l, c, f).players[i], l.players[if i < f then i else i + 1];
            row.id == was.id && row.key == was.key && row.name == was.name
  {
  }

  lemma MergeKeepsUnique(l: Ledger, c: nat, f: nat)
    requires Unique(l) && c < |l.players| && f < |l.players| && c != f
    ensures Unique(Merge(l, c, f))
  {
    var after := Merge(l, c, f);
    forall i, j | 0 <= i < j < |after.players|
      ensures after.players[i].id != after.players[j].id && after.players[i].key != after.players[j].key
    {
      RowAfterMerge(l, c, f, i);
      RowAfterMerge(l, c, f, j);
    }
    forall i | 0 <= i < |after.players| ensures after.players[i].id < after.nextId {
      RowAfterMerge(l, c, f, i);
    }
  }

  lemma MergeKeepsInv(l: Ledger, c: nat, f: nat)
    requires Inv(l) && c < |l.players| && f < |l.players| && c != f
    ensures Inv(Merge(l, c, f))
  {
    var after := Merge(l, c, f);
    MergeKeepsUnique(l, c, f);
    var from, to := l.players[f].id, l.players[c].id;
    forall i | 0 <= i < |after.players| ensures RowAgrees(after, after.players[i]) {
      var j := if i < f then i else i + 1;
      assert RowAgrees(l, l.players[j]) && RowAgrees(l, l.players[c]) && RowAgrees(l, l.players[f]);
      SumsOfMove(l.sessions, |l.sessions|, from, to, l.players[j].id);
    }
  }

  lemma PromoteKeepsInv(l: Ledger, f: nat, key: Key)
    requires Inv(l) && f < |l.players|
    requires forall i :: 0 <= i < |l.players| ==> l.players[i].key != key
    ensures Inv(Promote(l, f, key))
  {
    var after := Promote(l, f, key);
    forall i | 0 <= i < |after.players| ensures RowAgrees(after, after.players[i]) {
      assert RowAgrees(l, l.players[i]);
    }
  }

  lemma ReconcileKeepsInv(l: Ledger, key: Key, name: string)
    requires Inv(l)
    ensures Inv(Reconcile(l, key, name))
  {
    if key.Stable? {
      var f, c := Find(l.players, FallbackKey(name), 0), Find(l.players, key, 0);
      if f < |l.players| {
        if c < |l.players| { MergeKeepsInv(l, c, f); } else { PromoteKeepsInv(l, f, key); }
      }
    }
  }

  lemma FirstVisitKeepsInv(l: Ledger, now: int, key: Key, name: string)
    requires Inv(l) && Find(l.players, key, 0) == |l.players|
    ensures Inv(Upsert(l, now, key, name))
  {
    var after := Upsert(l, now, key, name);
    NothingForUnusedId(l.sessions, |l.sessions|, l.nextId);
    forall i | 0 <= i < |after.players| ensures RowAgrees(after, after.players[i]) {
      SumsOfStart(l.sessions, Session(l.nextId, now, None, 0), after.players[i].id);
      if i < |l.players| { assert RowAgrees(l, l.players[i]); }
    }
  }

  lemma LaterVisitKeepsInv(l: Ledger, now: int, key: Key, name: string)
    requires Inv(l) && Find(l.players, key, 0) < |l.players|
    ensures Inv(Upsert(l, now, key, name))
  {
    var after, row := Upsert(l, now, key, name), l.players[Find(l.players, key, 0)];
    forall i | 0 <= i < |after.players| ensures RowAgrees(after, after.players[i]) {
      assert RowAgrees(l, l.players[i]);
      if !row.online { SumsOfStart(l.sessions, Session(row.id, now, None, 0), l.players[i].id); }
    }
  }

  lemma UpsertKeepsInv(l: Ledger, now: int, key: Key, name: string)
    requires Inv(l)
    ensures Inv(Upsert(l, now, key, name))
  {
    if Find(l.players, key, 0) < |l.players| { LaterVisitKeepsInv(l, now, key, name); }
    else { FirstVisitKeepsInv(l, now, key, name); }
  }

  lemma EnterKeepsInv(l: Ledger, now: int, who: Identity)
    requires Inv(l)
    ensures Inv(Enter(l, now, who))
  {
    ReconcileKeepsInv(l, KeyOf(who), who.name);
    UpsertKeepsInv(Reconcile(l, KeyOf(who), who.name), now, KeyOf(who), who.name);
  }

  lemma CloseRowKeepsInv(l: Ledger, k: nat, end: int, lastSeen: int)
    requires Inv(l) && k < |l.players| && l.players[k].online
    ensures Inv(CloseRow(l, k, end, lastSeen))
  {
    var after, row := CloseRow(l, k, end, lastSeen), l.players[k];
    var duration := Duration(row.started, end);
    forall i | 0 <= i < |after.players| ensures RowAgrees(after, after.players[i]) {
      assert RowAgrees(l, l.players[i]);
      OpenAfterClose(l.sessions, |l.sessions|, row.id, end, duration, l.players[i].id);
      ClosedAfterClose(l.sessions, |l.sessions|, row.id, end, duration, l.players[i].id);
    }
  }

  lemma LeaveKeepsInv(l: Ledger, now: int, who: Identity)
    requires Inv(l)
    ensures Inv(Leave(l, now, who))
  {
    var r := Reconcile(l, KeyOf(who), who.name);
    ReconcileKeepsInv(l, KeyOf(who), who.name);
    var k := Find(r.players, KeyOf(who), 0);
    if k < |r.players| && r.players[k].online { CloseRowKeepsInv(r, k, now, now); }
  }

  lemma {:induction false} EnterUpToKeepsInv(l: Ledger, now: int, listed: seq<Identity>, n: nat)
    requires Inv(l) && n <= |listed|
    ensures Inv(EnterUpTo(l, now, listed, n))
  {
    var ledger := l;
    for k := 0 to n
      invariant Inv(ledger) && ledger == EnterUpTo(l, now, listed, k)
    {
      EnterUpToNext(l, now, listed, k);
      EnterKeepsInv(ledger, now, listed[k]);
      ledger := Enter(ledger, now, listed[k]);
    }
  }

  lemma {:induction false} CloseMissingKeepsInv(l: Ledger, now: int, seen: set<Key>, k: nat)
    requires Inv(l) && k <= |l.players|
    ensures Inv(CloseMissing(l, now, seen, k))
    decreases |l.players| - k
  {
    if k < |l.players| {
      if IsMissing(l.players[k], seen) {
        CloseRowKeepsInv(l, k, Min(l.players[k].lastSeen, now), l.players[k].lastSeen);
        CloseMissingKeepsInv(CloseRow(l, k, Min(l.players[k].lastSeen, now), l.players[k].lastSeen), now, seen, k + 1);
      } else {
        CloseMissingKeepsInv(l, now, seen, k + 1);
      }
    }
  }

  lemma {:induction false} ReconcileUpToKeepsInv(l: Ledger, snapshot: seq<Player>, n: nat)
    requires Inv(l) && n <= |snapshot|
    ensures Inv(ReconcileUpTo(l, snapshot, n))
  {
    if n > 0 {
      ReconcileUpToKeepsInv(l, snapshot, n - 1);
      ReconcileKeepsInv(ReconcileUpTo(l, snapshot, n - 1), snapshot[n - 1].key, snapshot[n - 1].name);
    }
  }

  lemma StepKeepsInv(l: Ledger, e: Event)
    requires Inv(l)
    ensures Inv(Step(l, e))
  {
    match e
    case EvSync(now, listed) =>
      EnterUpToKeepsInv(l, now, listed, |listed|);
      CloseMissingKeepsInv(EnterUpTo(l, now, listed, |listed|), now, SeenUpTo(listed, |listed|), 0);
    case EvJoin(now, who) => EnterKeepsInv(l, now, who);
    case EvLeave(now, who) => LeaveKeepsInv(l, now, who);
    case EvList => ReconcileUpToKeepsInv(l, l.players, |l.players|);
  }

  lemma {:induction false} RunKeepsInv(l: Ledger, events: seq<Event>)
    requires Inv(l)
    ensures Inv(Run(l, events))
    decreases |events|
  {
    if events != [] {
      StepKeepsInv(l, events[0]);
      RunKeepsInv(Step(l, events[0]), events[1..]);
    }
  }

  /** Whatever the order of player lists, log lines, merges and listings, every row of every
      reachable state agrees with its sessions. */
  lemma RowsAgreeInEveryRun(events: seq<Event>, i: nat)
    requires i < |Run(EMPTY, events).players|
    ensures var l := Run(EMPTY, events); var row := l.players[i];
            && (row.online <==> row.started.Some?)
            && (row.online <==> OpenCount(l.sessions, row.id) > 0)
            && 0 <= row.lifetime <= ClosedTime(l.sessions, row.id)
            && (!l.doubled ==> OpenCount(l.sessions, row.id) <= 1 && row.lifetime == ClosedTime(l.sessions, row.id))
            && forall j :: 0 <= j < |l.players| && j != i ==> l.players[j].key != row.key
  {
    RunKeepsInv(EMPTY, events);
    assert RowAgrees(Run(EMPTY, events), Run(EMPTY, events).players[i]);
  }

  // ---------- Reconciling conserves playtime and sessions ----------

  function LifetimeUpTo(players: seq<Player>, n: nat): int
    requires n <= |players|
  {
    if n == 0 then 0 else LifetimeUpTo(players, n - 1) + players[n - 1].lifetime
  }

  function TotalLifetime(players: seq<Player>): int {
    LifetimeUpTo(players, |players|)
  }

  lemma {:induction false} LifetimeOfUpdate(players: seq<Player>, k: nat, row: Player, n: nat)
    requires k < |players| && n <= |players|
    ensures LifetimeUpTo(players[k := row], n) ==
            LifetimeUpTo(players, n) + (if k < n then row.lifetime - players[k].lifetime else 0)
  {
    if n > 0 {
      LifetimeOfUpdate(players, k, row, n - 1);
    }
  }

  lemma {:induction false} LifetimeOfRemoval(players: seq<Player>, k: nat, n: nat)
    requires k < |players| && n < |players|
    ensures LifetimeUpTo(RemoveAt(players, k), n) ==
            (if n <= k then LifetimeUpTo(players, n) else LifetimeUpTo(players, n + 1) - players[k].lifetime)
  {
    if n > 0 {
      LifetimeOfRemoval(players, k, n - 1);
    }
  }

  /** Only the owner of a session may change. */
  predicate SameRecords(before: seq<Session>, after: seq<Session>) {
    |before| == |after|
    && forall k :: 0 <= k < |before| ==> after[k] == before[k].(player := after[k].player)
  }

  lemma MergeConservesLifetime(l: Ledger, c: nat, f: nat)
    requires c < |l.players| && f < |l.players| && c != f
    ensures TotalLifetime(Merge(l, c, f).players) == TotalLifetime(l.players)
  {
    var row := MergedRow(l.players[c], l.players[f]);
    LifetimeOfUpdate(l.players, c, row, |l.players|);
    LifetimeOfRemoval(l.players[c := row], f, |l.players| - 1);
  }

  lemma ReconcileConserves(l: Ledger, key: Key, name: string)
    ensures TotalLifetime(Reconcile(l, key, name).players) == TotalLifetime(l.players)
    ensures SameRecords(l.sessions, Reconcile(l, key, name).sessions)
  {
    var f, c := Find(l.players, FallbackKey(name), 0), Find(l.players, key, 0);
    if key.Stable? && f < |l.players| {
      if c < |l.players| {
        MergeConservesLifetime(l, c, f);
      } else {
        LifetimeOfUpdate(l.players, f, l.players[f].(key := key), |l.players|);
      }
    }
  }

  lemma {:induction false} ListingConserves(l: Ledger, snapshot: seq<Player>, n: nat)
    requires n <= |snapshot|
    ensures TotalLifetime(ReconcileUpTo(l, snapshot, n).players) == TotalLifetime(l.players)
    ensures SameRecords(l.sessions, ReconcileUpTo(l, snapshot, n).sessions)
  {
    if n > 0 {
      ListingConserves(l, snapshot, n - 1);
      ReconcileConserves(ReconcileUpTo(l, snapshot, n - 1), snapshot[n - 1].key, snapshot[n - 1].name);
    }
  }

  /**
   Closing a row widens the gap between its sessions and its playtime by the duration of all open sessions but one.
   */
  lemma ClosingGap(l: Ledger, k: nat, end: int, lastSeen: int)
    requires Inv(l) && k < |l.players| && l.players[k].online
    ensures var after, row := CloseRow(l, k, end, lastSeen), l.players[k];
            var duration, open := Duration(row.started, end), OpenCount(l.sessions, row.id);
            && open >= 1
            && ClosedTime(after.sessions, row.id) - after.players[k].lifetime ==
                 ClosedTime(l.sessions, row.id) - row.lifetime + Booked(duration, open - 1)
  {
    var row := l.players[k];
    assert RowAgrees(l, row);
    ClosedAfterClose(l.sessions, |l.sessions|, row.id, end, Duration(row.started, end), row.id);
  }

  /**
   A row whose playtime equals its closed time keeps that at closing exactly if one session is open or it took no
   second.
   */
  lemma ClosingKeepsEqualIff(l: Ledger, k: nat, end: int, lastSeen: int)
    requires Inv(l) && k < |l.players| && l.players[k].online
    requires l.players[k].lifetime == ClosedTime(l.sessions, l.players[k].id)
    ensures var after, row := CloseRow(l, k, end, lastSeen), l.players[k];
            after.players[k].lifetime == ClosedTime(after.sessions, row.id) <==>
            OpenCount(l.sessions, row.id) == 1 || Duration(row.started, end) == 0
  {
    ClosingGap(l, k, end, lastSeen);
  }

  // ---------- How far playtime falls behind ----------

  /** The closed time of the first n rows. */
  function RowsClosed(sessions: seq<Session>, players: seq<Player>, n: nat): int
    requires n <= |players|
  {
    if n == 0 then 0 else RowsClosed(sessions, players, n - 1) + ClosedTime(sessions, players[n - 1].id)
  }

  /** How far the playtime of all rows together is behind their closed sessions. */
  function Gap(l: Ledger): int {
    RowsClosed(l.sessions, l.players, |l.players|) - TotalLifetime(l.players)
  }

  /** Time a closing books more than once: with two or more open sessions that lasted a full second. */
  function CloseSurplus(l: Ledger, k: nat, end: int): (r: nat)
    requires k < |l.players|
    ensures r > 0 <==> OpenCount(l.sessions, l.players[k].id) >= 2 && Duration(l.players[k].started, end) >= 1
  {
    var open := OpenCount(l.sessions, l.players[k].id);
    Booked(Duration(l.players[k].started, end), if open == 0 then 0 else open - 1)
  }

  function LeaveSurplus(l: Ledger, now: int, who: Identity): nat {
    var r := Reconcile(l, KeyOf(who), who.name);
    var k := Find(r.players, KeyOf(who), 0);
    if k < |r.players| && r.players[k].online then CloseSurplus(r, k, now) else 0
  }

  function MissingSurplus(l: Ledger, now: int, seen: set<Key>, k: nat): nat
    requires k <= |l.players|
    decreases |l.players| - k
  {
    if k == |l.players| then 0
    else if IsMissing(l.players[k], seen) then
      var end := Min(l.players[k].lastSeen, now);
      CloseSurplus(l, k, end) + MissingSurplus(CloseRow(l, k, end, l.players[k].lastSeen), now, seen, k + 1)
    else MissingSurplus(l, now, seen, k + 1)
  }

  /** The surplus of the closings in one event. */
  function StepSurplus(l: Ledger, e: Event): nat {
    match e
    case EvSync(now, listed) =>
      MissingSurplus(EnterUpTo(l, now, listed, |listed|), now, SeenUpTo(listed, |listed|), 0)
    case EvLeave(now, who) => LeaveSurplus(l, now, who)
    case _ => 0
  }

  function RunSurplus(l: Ledger, events: seq<Event>): nat
    decreases |events|
  {
    if events == [] then 0 else StepSurplus(l, events[0]) + RunSurplus(Step(l, events[0]), events[1..])
  }

  lemma {:induction false} RowsClosedOfSameIds(sessions: seq<Session>, players: seq<Player>, after: seq<Player>, n: nat)
    requires n <= |players| && n <= |after| && forall i :: 0 <= i < n ==> after[i].id == players[i].id
    ensures RowsClosed(sessions, after, n) == RowsClosed(sessions, players, n)
  {
    if n > 0 {
      RowsClosedOfSameIds(sessions, players, after, n - 1);
    }
  }

  lemma {:induction false} RowsClosedOfRemoval(sessions: seq<Session>, players: seq<Player>, k: nat, n: nat)
    requires k < |players| && n < |players|
    ensures RowsClosed(sessions, RemoveAt(players, k), n) ==
            (if n <= k then RowsClosed(sessions, players, n)
             else RowsClosed(sessions, players, n + 1) - ClosedTime(sessions, players[k].id))
  {
    if n > 0 {
      RowsClosedOfRemoval(sessions, players, k, n - 1);
    }
  }

  /** Moving the sessions of row f to row c moves its closed time. */
  lemma {:induction false} RowsClosedOfMove(l: Ledger, c: nat, f: nat, n: nat)
    requires Unique(l) && c < |l.players| && f < |l.players| && c != f && n <= |l.players|
    ensures var from, to := l.players[f].id, l.players[c].id;
            var moved := ClosedTime(l.sessions, from);
            RowsClosed(MoveSessions(l.sessions, from, to), l.players, n) ==
            RowsClosed(l.sessions, l.players, n) + (if c < n then moved else 0) - (if f < n then moved else 0)
  {
    if n > 0 {
      RowsClosedOfMove(l, c, f, n - 1);
      SumsOfMove(l.sessions, |l.sessions|, l.players[f].id, l.players[c].id, l.players[n - 1].id);
    }
  }

  lemma MergeKeepsGap(l: Ledger, c: nat, f: nat)
    requires Unique(l) && c < |l.players| && f < |l.players| && c != f
    ensures Gap(Merge(l, c, f)) == Gap(l)
  {
    var from, to, n := l.players[f].id, l.players[c].id, |l.players|;
    var merged, sessions := l.players[c := MergedRow(l.players[c], l.players[f])], MoveSessions(l.sessions, from, to);
    MergeConservesLifetime(l, c, f);
    RowsClosedOfRemoval(sessions, merged, f, n - 1);
    RowsClosedOfSameIds(sessions, l.players, merged, n);
    RowsClosedOfMove(l, c, f, n);
    SumsOfMove(l.sessions, |l.sessions|, from, to, from);
  }

  lemma ReconcileKeepsGap(l: Ledger, key: Key, name: string)
    requires Unique(l)
    ensures Gap(Reconcile(l, key, name)) == Gap(l)
  {
    var f, c := Find(l.players, FallbackKey(name), 0), Find(l.players, key, 0);
    if key.Stable? && f < |l.players| {
      if c < |l.players| {
        MergeKeepsGap(l, c, f);
      } else {
        ReconcileConserves(l, key, name);
        RowsClosedOfSameIds(l.sessions, l.players, Promote(l, f, key).players, |l.players|);
      }
    }
  }

  lemma {:induction false} RowsClosedOfStart(sessions: seq<Session>, started: Session, players: seq<Player>, n: nat)
    requires started.ended.None? && n <= |players|
    ensures RowsClosed(sessions + [started], players, n) == RowsClosed(sessions, players, n)
  {
    if n > 0 {
      RowsClosedOfStart(sessions, started, players, n - 1);
      SumsOfStart(sessions, started, players[n - 1].id);
    }
  }

  lemma FirstVisitKeepsGap(l: Ledger, now: int, key: Key, name: string)
    requires Unique(l) && Find(l.players, key, 0) == |l.players|
    ensures Gap(Upsert(l, now, key, name)) == Gap(l)
  {
    var after, n, started := Upsert(l, now, key, name), |l.players|, Session(l.nextId, now, None, 0);
    NothingForUnusedId(l.sessions, |l.sessions|, l.nextId);
    SumsOfStart(l.sessions, started, l.nextId);
    RowsClosedOfStart(l.sessions, started, l.players, n);
    RowsClosedOfSameIds(after.sessions, l.players, after.players, n);
    assert after.players[..n] == l.players && after.players[n].id == l.nextId;
    LifetimeOfPrefix(l.players, after.players, n);
  }

  lemma {:induction false} LifetimeOfPrefix(players: seq<Player>, after: seq<Player>, n: nat)
    requires n <= |players| && n <= |after|
    requires forall i :: 0 <= i < n ==> after[i].lifetime == players[i].lifetime
    ensures LifetimeUpTo(after, n) == LifetimeUpTo(players, n)
  {
    if n > 0 {
      LifetimeOfPrefix(players, after, n - 1);
    }
  }

  lemma LaterVisitKeepsGap(l: Ledger, now: int, key: Key, name: string)
    requires Find(l.players, key, 0) < |l.players|
    ensures Gap(Upsert(l, now, key, name)) == Gap(l)
  {
    var after, row := Upsert(l, now, key, name), l.players[Find(l.players, key, 0)];
    RowsClosedOfSameIds(after.sessions, l.players, after.players, |l.players|);
    LifetimeOfPrefix(l.players, after.players, |l.players|);
    if !row.online { RowsClosedOfStart(l.sessions, Session(row.id, now, None, 0), l.players, |l.players|); }
  }

  lemma EnterKeepsGap(l: Ledger, now: int, who: Identity)
    requires Inv(l)
    ensures Gap(Enter(l, now, who)) == Gap(l)
  {
    var r := Reconcile(l, KeyOf(who), who.name);
    ReconcileKeepsInv(l, KeyOf(who), who.name);
    ReconcileKeepsGap(l, KeyOf(who), who.name);
    if Find(r.players, KeyOf(who), 0) < |r.players| {
      LaterVisitKeepsGap(r, now, KeyOf(who), who.name);
    } else {
      FirstVisitKeepsGap(r, now, KeyOf(who), who.name);
    }
  }

  lemma {:induction false} EnterUpToKeepsGap(l: Ledger, now: int, listed: seq<Identity>, n: nat)
    requires Inv(l) && n <= |listed|
    ensures Gap(EnterUpTo(l, now, listed, n)) == Gap(l)
  {
    var ledger := l;
    for k := 0 to n
      invariant Inv(ledger) && Gap(ledger) == Gap(l) && ledger == EnterUpTo(l, now, listed, k)
    {
      EnterUpToNext(l, now, listed, k);
      EnterKeepsInv(ledger, now, listed[k]);
      EnterKeepsGap(ledger, now, listed[k]);
      ledger := Enter(ledger, now, listed[k]);
    }
  }

  lemma {:induction false} ListingKeepsGap(l: Ledger, snapshot: seq<Player>, n: nat)
    requires Inv(l) && n <= |snapshot|
    ensures Gap(ReconcileUpTo(l, snapshot, n)) == Gap(l)
  {
    if n > 0 {
      ListingKeepsGap(l, snapshot, n - 1);
      ReconcileUpToKeepsInv(l, snapshot, n - 1);
      ReconcileKeepsGap(ReconcileUpTo(l, snapshot, n - 1), snapshot[n - 1].key, snapshot[n - 1].name);
    }
  }

  lemma {:induction false} RowsClosedOfClose(l: Ledger, k: nat, end: int, duration: nat, n: nat)
    requires Unique(l) && k < |l.players| && n <= |l.players|
    ensures var id := l.players[k].id;
            RowsClosed(CloseSessions(l.sessions, id, end, duration), l.players, n) ==
            RowsClosed(l.sessions, l.players, n) +
            (if k < n then Booked(duration, OpenCount(l.sessions, id)) else 0)
  {
    if n > 0 {
      RowsClosedOfClose(l, k, end, duration, n - 1);
      ClosedAfterClose(l.sessions, |l.sessions|, l.players[k].id, end, duration, l.players[n - 1].id);
    }
  }

  lemma CloseRowWidensGap(l: Ledger, k: nat, end: int, lastSeen: int)
    requires Inv(l) && k < |l.players| && l.players[k].online
    ensures Gap(CloseRow(l, k, end, lastSeen)) == Gap(l) + CloseSurplus(l, k, end)
  {
    var after, row := CloseRow(l, k, end, lastSeen), l.players[k];
    assert RowAgrees(l, row);
    RowsClosedOfClose(l, k, end, Duration(row.started, end), |l.players|);
    RowsClosedOfSameIds(after.sessions, l.players, after.players, |l.players|);
    LifetimeOfUpdate(l.players, k, after.players[k], |l.players|);
  }

  lemma {:induction false} CloseMissingWidensGap(l: Ledger, now: int, seen: set<Key>, k: nat)
    requires Inv(l) && k <= |l.players|
    ensures Gap(CloseMissing(l, now, seen, k)) == Gap(l) + MissingSurplus(l, now, seen, k)
    decreases |l.players| - k
  {
    if k < |l.players| {
      if IsMissing(l.players[k], seen) {
        var end, lastSeen := Min(l.players[k].lastSeen, now), l.players[k].lastSeen;
        CloseRowKeepsInv(l, k, end, lastSeen);
        CloseRowWidensGap(l, k, end, lastSeen);
        CloseMissingWidensGap(CloseRow(l, k, end, lastSeen), now, seen, k + 1);
      } else {
        CloseMissingWidensGap(l, now, seen, k + 1);
      }
    }
  }

  lemma LeaveWidensGap(l: Ledger, now: int, who: Identity)
    requires Inv(l)
    ensures Gap(Leave(l, now, who)) == Gap(l) + LeaveSurplus(l, now, who)
  {
    var r := Reconcile(l, KeyOf(who), who.name);
    ReconcileKeepsInv(l, KeyOf(who), who.name);
    ReconcileKeepsGap(l, KeyOf(who), who.name);
    var k := Find(r.players, KeyOf(who), 0);
    if k < |r.players| && r.players[k].online { CloseRowWidensGap(r, k, now, now); }
  }

  lemma StepWidensGap(l: Ledger, e: Event)
    requires Inv(l)
    ensures Gap(Step(l, e)) == Gap(l) + StepSurplus(l, e)
  {
    match e
    case EvSync(now, listed) =>
      EnterUpToKeepsInv(l, now, listed, |listed|);
      EnterUpToKeepsGap(l, now, listed, |listed|);
      CloseMissingWidensGap(EnterUpTo(l, now, listed, |listed|), now, SeenUpTo(listed, |listed|), 0);
    case EvJoin(now, who) => EnterKeepsGap(l, now, who);
    case EvLeave(now, who) => LeaveWidensGap(l, now, who);
    case EvList => ListingKeepsGap(l, l.players, |l.players|);
  }

  lemma {:induction false} RunWidensGap(l: Ledger, events: seq<Event>)
    requires Inv(l)
    ensures Gap(Run(l, events)) == Gap(l) + RunSurplus(l, events)
    decreases |events|
  {
    if events != [] {
      StepKeepsInv(l, events[0]);
      StepWidensGap(l, events[0]);
      RunWidensGap(Step(l, events[0]), events[1..]);
    }
  }

  /** The gap of the first n rows is never negative, and zero exactly if it is zero for each of them. */
  lemma {:induction false} GapOfRows(l: Ledger, n: nat)
    requires Inv(l) && n <= |l.players|
    ensures RowsClosed(l.sessions, l.players, n) >= LifetimeUpTo(l.players, n)
    ensures RowsClosed(l.sessions, l.players, n) == LifetimeUpTo(l.players, n) <==>
            forall i :: 0 <= i < n ==> l.players[i].lifetime == ClosedTime(l.sessions, l.players[i].id)
  {
    if n > 0 {
      GapOfRows(l, n - 1);
      assert RowAgrees(l, l.players[n - 1]);
    }
  }

  /**
   In every reachable state the playtime of all rows is behind their closed sessions by exactly what the closings so
   far booked more than once; each row's playtime equals its closed time if and only if no closing of a row with two
   or more open sessions took a full second.
   */
  lemma PlaytimeIsCompleteIff(events: seq<Event>)
    ensures var l := Run(EMPTY, events);
            && Gap(l) == RunSurplus(EMPTY, events)
            && ((forall i :: 0 <= i < |l.players| ==>
                   l.players[i].lifetime == ClosedTime(l.sessions, l.players[i].id)) <==>
                RunSurplus(EMPTY, events) == 0)
  {
    RunKeepsInv(EMPTY, events);
    RunWidensGap(EMPTY, events);
    GapOfRows(Run(EMPTY, events), |Run(EMPTY, events).players|);
  }

  // ---------- A run in which playtime falls behind ----------

  lemma FindFirst(players: seq<Player>, key: Key)
    requires players != []
    ensures Find(players, key, 0) == if players[0].key == key then 0 else Find(players, key, 1)
  {
  }

  /**
   A player known by name and, under another name, by identity: joining under the first name merges two online rows.
   */
  lemma TwoRowsMerge(a: string, b: string, id: string) returns (l: Ledger)
    requires Lower(a) != Lower(b)
    ensures l == Enter(Enter(Enter(EMPTY, 0, Identity(None, a)), 0, Identity(Some(id), b)), 0, Identity(Some(id), a))
    ensures l == Ledger([Player(1, Stable(id), a, true, Some(0), 0, 0)],
            [Session(1, 0, None, 0), Session(1, 0, None, 0)], 2, true)
  {
    var row0, row1 := Player(0, ByName(Lower(a)), a, true, Some(0), 0, 0),
        Player(1, Stable(id), b, true, Some(0), 0, 0);
    var l1 := Enter(EMPTY, 0, Identity(None, a));
    assert l1 == Ledger([row0], [Session(0, 0, None, 0)], 1, false);
    assert Find(l1.players, FallbackKey(b), 0) == 1 && Find(l1.players, Stable(id), 0) == 1;
    var l2 := Enter(l1, 0, Identity(Some(id), b));
    assert l2 == Ledger([row0, row1], [Session(0, 0, None, 0), Session(1, 0, None, 0)], 2, false);
    assert Find(l2.players, FallbackKey(a), 0) == 0;
    FindFirst(l2.players, Stable(id));
    assert Find(l2.players, Stable(id), 0) == 1;
    var l3 := Reconcile(l2, Stable(id), a);
    assert l3.players == [MergedRow(row1, row0)];
    assert l3.sessions == [Session(1, 0, None, 0), Session(1, 0, None, 0)];
    l := Enter(l2, 0, Identity(Some(id), a));
  }

  lemma ClosingTwoSessions(l: Ledger, id: string, name: string)
    requires l == Ledger([Player(1, Stable(id), name, true, Some(0), 0, 0)],
             [Session(1, 0, None, 0), Session(1, 0, None, 0)], 2, true)
    ensures var after := CloseRow(l, 0, 1000, 1000);
            after.players[0].lifetime == 1 && ClosedTime(after.sessions, after.players[0].id) == 2
  {
    var after := CloseRow(l, 0, 1000, 1000);
    assert after.sessions == [Session(1, 0, Some(1000), 1), Session(1, 0, Some(1000), 1)];
    assert ClosedUpTo(after.sessions, 1, 1) == 1;
  }

  lemma RunOfFour(l: Ledger, e1: Event, e2: Event, e3: Event, e4: Event)
    ensures Run(l, [e1, e2, e3, e4]) == Step(Step(Step(Step(l, e1), e2), e3), e4)
  {
    assert [e1, e2, e3, e4][1..] == [e2, e3, e4] && [e2, e3, e4][1..] == [e3, e4] && [e3, e4][1..] == [e4]
        && [e4][1..] == [];
    assert Run(l, [e1, e2, e3, e4]) == Run(Step(l, e1), [e2, e3, e4]);
    assert Run(Step(l, e1), [e2, e3, e4]) == Run(Step(Step(l, e1), e2), [e3, e4]);
    assert Run(Step(Step(l, e1), e2), [e3, e4]) == Run(Step(Step(Step(l, e1), e2), e3), [e4]);
  }

  lemma LeaveAfterMerge(l: Ledger, id: string, name: string)
    requires l == Ledger([Player(1, Stable(id), name, true, Some(0), 0, 0)],
             [Session(1, 0, None, 0), Session(1, 0, None, 0)], 2, true)
    ensures Leave(l, 1000, Identity(Some(id), name)) == CloseRow(l, 0, 1000, 1000)
  {
    assert Find(l.players, FallbackKey(name), 0) == 1;
    FindFirst(l.players, Stable(id));
  }

  /**
   A player joins by name, joins by identity under another name, joins by identity under the first name, and leaves
   after one second: the second is in the sessions twice and in the playtime once.
   */
  lemma MergedPlaytimeFallsBehind(a: string, b: string, id: string)
    requires Lower(a) != Lower(b)
    ensures var l := Run(EMPTY, [EvJoin(0, Identity(None, a)), EvJoin(0, Identity(Some(id), b)),
                                 EvJoin(0, Identity(Some(id), a)), EvLeave(1000, Identity(Some(id), a))]);
            |l.players| == 1 && l.players[0].lifetime == 1 && ClosedTime(l.sessions, l.players[0].id) == 2
  {
    var l := TwoRowsMerge(a, b, id);
    RunOfFour(EMPTY, EvJoin(0, Identity(None, a)), EvJoin(0, Identity(Some(id), b)),
              EvJoin(0, Identity(Some(id), a)), EvLeave(1000, Identity(Some(id), a)));
    LeaveAfterMerge(l, id, a);
    ClosingTwoSessions(l, id, a);
  }

  // ---------- Session starts and durations tell the time ----------

  predicate OpenFor(s: Session, player: PlayerId) {
    s.player == player && s.ended.None?
  }

  /** The start of an online row is the least start of its open sessions. */
  ghost predicate StartsRight(l: Ledger, row: Player) {
    row.online ==>
      && row.started.Some?
      && (exists k :: 0 <= k < |l.sessions| && OpenFor(l.sessions[k], row.id)
                      && l.sessions[k].startedAt == row.started.value)
      && (forall k :: 0 <= k < |l.sessions| && OpenFor(l.sessions[k], row.id) ==>
            row.started.value <= l.sessions[k].startedAt)
  }

  ghost predicate StartsInv(l: Ledger) {
    forall i :: 0 <= i < |l.players| ==> StartsRight(l, l.players[i])
  }

  lemma {:induction false} OpenPositive(sessions: seq<Session>, n: nat, player: PlayerId)
    requires n <= |sessions|
    ensures OpenUpTo(sessions, n, player) > 0 <==> exists k :: 0 <= k < n && OpenFor(sessions[k], player)
  {
    if n > 0 {
      OpenPositive(sessions, n - 1, player);
    }
  }

  lemma OfflineHasNoneOpen(l: Ledger, i: nat)
    requires Inv(l) && i < |l.players| && !l.players[i].online
    ensures forall k :: 0 <= k < |l.sessions| ==> !OpenFor(l.sessions[k], l.players[i].id)
  {
    assert RowAgrees(l, l.players[i]);
    OpenPositive(l.sessions, |l.sessions|, l.players[i].id);
  }

  /** A row all of whose sessions are the same as before keeps its start. */
  lemma StartsSame(l: Ledger, after: Ledger, row: Player, now: Player)
    requires StartsRight(l, row) && now.id == row.id && now.online == row.online && now.started == row.started
    requires |l.sessions| <= |after.sessions|
    requires forall k :: 0 <= k < |l.sessions| ==>
               (OpenFor(after.sessions[k], row.id) <==> OpenFor(l.sessions[k], row.id))
               && after.sessions[k].startedAt == l.sessions[k].startedAt
    requires forall k :: |l.sessions| <= k < |after.sessions| ==> !OpenFor(after.sessions[k], row.id)
    ensures StartsRight(after, now)
  {
    if row.online {
      var k :| 0 <= k < |l.sessions| && OpenFor(l.sessions[k], row.id)
               && l.sessions[k].startedAt == row.started.value;
      assert OpenFor(after.sessions[k], row.id);
    }
  }

  /** The merged row starts with the earlier of the two. */
  lemma MergedStartsRight(l: Ledger, c: nat, f: nat)
    requires Inv(l) && StartsInv(l) && c < |l.players| && f < |l.players| && c != f
    ensures StartsRight(Merge(l, c, f), MergedRow(l.players[c], l.players[f]))
  {
    var after, row, from, to := Merge(l, c, f), MergedRow(l.players[c], l.players[f]), l.players[f], l.players[c];
    if !from.online { OfflineHasNoneOpen(l, f); }
    if !to.online { OfflineHasNoneOpen(l, c); }
    assert StartsRight(l, from) && StartsRight(l, to) && RowAgrees(l, from) && RowAgrees(l, to);
    if row.online {
      var owner := if to.online && (!from.online || to.started.value <= from.started.value) then to else from;
      var k :| 0 <= k < |l.sessions| && OpenFor(l.sessions[k], owner.id)
               && l.sessions[k].startedAt == owner.started.value;
      assert OpenFor(after.sessions[k], to.id);
    }
  }

  lemma MergeKeepsStarts(l: Ledger, c: nat, f: nat)
    requires Inv(l) && StartsInv(l) && c < |l.players| && f < |l.players| && c != f
    ensures StartsInv(Merge(l, c, f))
  {
    var after := Merge(l, c, f);
    MergedStartsRight(l, c, f);
    forall i | 0 <= i < |after.players| ensures StartsRight(after, after.players[i]) {
      var j := if i < f then i else i + 1;
      if j != c { StartsSame(l, after, l.players[j], after.players[i]); }
    }
  }

  lemma ReconcileKeepsStarts(l: Ledger, key: Key, name: string)
    requires Inv(l) && StartsInv(l)
    ensures StartsInv(Reconcile(l, key, name))
  {
    var f, c := Find(l.players, FallbackKey(name), 0), Find(l.players, key, 0);
    if key.Stable? && f < |l.players| {
      if c < |l.players| {
        MergeKeepsStarts(l, c, f);
      } else {
        var after := Promote(l, f, key);
        forall i | 0 <= i < |after.players| ensures StartsRight(after, after.players[i]) {
          StartsSame(l, after, l.players[i], after.players[i]);
        }
      }
    }
  }

  /** A player that comes starts now, one that was there keeps the start. */
  lemma UpsertKeepsStarts(l: Ledger, now: int, key: Key, name: string)
    requires Inv(l) && StartsInv(l)
    ensures StartsInv(Upsert(l, now, key, name))
  {
    var after, k := Upsert(l, now, key, name), Find(l.players, key, 0);
    forall i | 0 <= i < |after.players| ensures StartsRight(after, after.players[i]) {
      if i < |l.players| && (i != k || l.players[i].online) {
        StartsSame(l, after, l.players[i], after.players[i]);
      } else {
        if i < |l.players| { OfflineHasNoneOpen(l, i); }
        assert OpenFor(after.sessions[|l.sessions|], after.players[i].id);
      }
    }
  }

  lemma CloseRowKeepsStarts(l: Ledger, k: nat, end: int, lastSeen: int)
    requires Inv(l) && StartsInv(l) && k < |l.players|
    ensures StartsInv(CloseRow(l, k, end, lastSeen))
  {
    var after := CloseRow(l, k, end, lastSeen);
    forall i | 0 <= i < |after.players| ensures StartsRight(after, after.players[i]) {
      if i != k { StartsSame(l, after, l.players[i], after.players[i]); }
    }
  }

  // ---------- Whose clock does not go back ----------

  /** A closed session lasted from its start to its end, in whole seconds. */
  predicate TellsTime(s: Session) {
    s.ended.Some? ==> s.startedAt <= s.ended.value && s.duration == (s.ended.value - s.startedAt) / 1000
  }

  predicate SeenBy(row: Player, now: int) {
    row.lastSeen <= now && (row.started.Some? ==> row.started.value <= row.lastSeen)
  }

  /** Nothing is later than now, no start is later than the last sight, and without doubles all durations are true. */
  ghost predicate Timely(l: Ledger, now: int) {
    && (forall i :: 0 <= i < |l.players| ==> SeenBy(l.players[i], now))
    && (!l.doubled ==> forall k :: 0 <= k < |l.sessions| ==> TellsTime(l.sessions[k]))
  }

  lemma {:induction false} OpenUnique(sessions: seq<Session>, n: nat, player: PlayerId, j: nat, k: nat)
    requires j < k < n <= |sessions| && OpenFor(sessions[j], player) && OpenFor(sessions[k], player)
    ensures OpenUpTo(sessions, n, player) >= 2
  {
    if k == n - 1 {
      OpenPositive(sessions, n - 1, player);
    } else {
      OpenUnique(sessions, n - 1, player, j, k);
    }
  }

  /** The only open session of a row started with it. */
  lemma OnlySessionStarts(l: Ledger, row: Player, k: nat)
    requires StartsRight(l, row) && row.online && OpenCount(l.sessions, row.id) <= 1
    requires k < |l.sessions| && OpenFor(l.sessions[k], row.id)
    ensures l.sessions[k].startedAt == row.started.value
  {
    var j :| 0 <= j < |l.sessions| && OpenFor(l.sessions[j], row.id) && l.sessions[j].startedAt == row.started.value;
    if j < k { OpenUnique(l.sessions, |l.sessions|, row.id, j, k); }
    if k < j { OpenUnique(l.sessions, |l.sessions|, row.id, k, j); }
  }

  lemma MergedRowSeenBy(l: Ledger, c: nat, f: nat, now: int)
    requires Inv(l) && c < |l.players| && f < |l.players| && SeenBy(l.players[c], now) && SeenBy(l.players[f], now)
    ensures SeenBy(MergedRow(l.players[c], l.players[f]), now)
  {
    assert RowAgrees(l, l.players[c]) && RowAgrees(l, l.players[f]);
  }

  lemma MergeKeepsTimely(l: Ledger, c: nat, f: nat, now: int)
    requires Inv(l) && Timely(l, now) && c < |l.players| && f < |l.players| && c != f
    ensures Timely(Merge(l, c, f), now)
  {
    var after := Merge(l, c, f);
    MergedRowSeenBy(l, c, f, now);
    forall i | 0 <= i < |after.players| ensures SeenBy(after.players[i], now) {
      assert SeenBy(l.players[if i < f then i else i + 1], now);
    }
    forall k | 0 <= k < |after.sessions| && !after.doubled ensures TellsTime(after.sessions[k]) {
      assert TellsTime(l.sessions[k]);
    }
  }

  lemma ReconcileKeepsTimely(l: Ledger, key: Key, name: string, now: int)
    requires Inv(l) && Timely(l, now)
    ensures Timely(Reconcile(l, key, name), now)
  {
    var f, c := Find(l.players, FallbackKey(name), 0), Find(l.players, key, 0);
    if key.Stable? && f < |l.players| && c < |l.players| { MergeKeepsTimely(l, c, f, now); }
  }

  lemma UpsertKeepsTimely(l: Ledger, key: Key, name: string, was: int, now: int)
    requires Inv(l) && Timely(l, was) && was <= now
    ensures Timely(Upsert(l, now, key, name), now)
  {
    var after := Upsert(l, now, key, name);
    forall k | 0 <= k < |after.sessions| && !after.doubled ensures TellsTime(after.sessions[k]) {
      if k < |l.sessions| { assert TellsTime(l.sessions[k]); }
    }
  }

  lemma CloseRowKeepsTimely(l: Ledger, k: nat, end: int, lastSeen: int, now: int)
    requires Inv(l) && StartsInv(l) && Timely(l, now) && k < |l.players| && l.players[k].online
    requires l.players[k].started.Some? ==> l.players[k].started.value <= end
    requires lastSeen <= now
    ensures Timely(CloseRow(l, k, end, lastSeen), now)
  {
    var after, row := CloseRow(l, k, end, lastSeen), l.players[k];
    assert RowAgrees(l, row) && StartsRight(l, row);
    forall j | 0 <= j < |after.sessions| && !after.doubled ensures TellsTime(after.sessions[j]) {
      assert TellsTime(l.sessions[j]);
      if OpenFor(l.sessions[j], row.id) { OnlySessionStarts(l, row, j); }
    }
  }

  /** What every handler keeps while the clock goes on. */
  ghost predicate Clocked(l: Ledger, now: int) {
    Inv(l) && StartsInv(l) && Timely(l, now)
  }

  lemma LaterStaysTimely(l: Ledger, was: int, now: int)
    requires Timely(l, was) && was <= now
    ensures Timely(l, now)
  {
  }

  lemma EnterKeepsClocked(l: Ledger, who: Identity, was: int, now: int)
    requires Clocked(l, was) && was <= now
    ensures Clocked(Enter(l, now, who), now)
  {
    var r := Reconcile(l, KeyOf(who), who.name);
    EnterKeepsInv(l, now, who);
    ReconcileKeepsInv(l, KeyOf(who), who.name);
    ReconcileKeepsStarts(l, KeyOf(who), who.name);
    ReconcileKeepsTimely(l, KeyOf(who), who.name, was);
    UpsertKeepsStarts(r, now, KeyOf(who), who.name);
    UpsertKeepsTimely(r, KeyOf(who), who.name, was, now);
  }

  lemma LeaveKeepsClocked(l: Ledger, who: Identity, now: int)
    requires Clocked(l, now)
    ensures Clocked(Leave(l, now, who), now)
  {
    var r := Reconcile(l, KeyOf(who), who.name);
    LeaveKeepsInv(l, now, who);
    ReconcileKeepsInv(l, KeyOf(who), who.name);
    ReconcileKeepsStarts(l, KeyOf(who), who.name);
    ReconcileKeepsTimely(l, KeyOf(who), who.name, now);
    var k := Find(r.players, KeyOf(who), 0);
    if k < |r.players| && r.players[k].online {
      CloseRowKeepsStarts(r, k, now, now);
      CloseRowKeepsTimely(r, k, now, now, now);
    }
  }

  lemma {:induction false} EnterUpToKeepsClocked(l: Ledger, listed: seq<Identity>, n: nat, was: int, now: int)
    requires Clocked(l, was) && was <= now && n <= |listed|
    ensures Clocked(EnterUpTo(l, now, listed, n), now)
  {
    var ledger := l;
    LaterStaysTimely(l, was, now);
    for k := 0 to n
      invariant Clocked(ledger, now) && ledger == EnterUpTo(l, now, listed, k)
    {
      EnterUpToNext(l, now, listed, k);
      EnterKeepsClocked(ledger, listed[k], now, now);
      ledger := Enter(ledger, now, listed[k]);
    }
  }

  lemma {:induction false} CloseMissingKeepsClocked(l: Ledger, now: int, seen: set<Key>, k: nat)
    requires Clocked(l, now) && k <= |l.players|
    ensures Clocked(CloseMissing(l, now, seen, k), now)
    decreases |l.players| - k
  {
    if k < |l.players| {
      if IsMissing(l.players[k], seen) {
        var end, lastSeen := Min(l.players[k].lastSeen, now), l.players[k].lastSeen;
        CloseRowKeepsInv(l, k, end, lastSeen);
        CloseRowKeepsStarts(l, k, end, lastSeen);
        CloseRowKeepsTimely(l, k, end, lastSeen, now);
        CloseMissingKeepsClocked(CloseRow(l, k, end, lastSeen), now, seen, k + 1);
      } else {
        CloseMissingKeepsClocked(l, now, seen, k + 1);
      }
    }
  }

  lemma {:induction false} ListingKeepsClocked(l: Ledger, snapshot: seq<Player>, n: nat, now: int)
    requires Clocked(l, now) && n <= |snapshot|
    ensures Clocked(ReconcileUpTo(l, snapshot, n), now)
  {
    if n > 0 {
      ListingKeepsClocked(l, snapshot, n - 1, now);
      var before, row := ReconcileUpTo(l, snapshot, n - 1), snapshot[n - 1];
      ReconcileKeepsInv(before, row.key, row.name);
      ReconcileKeepsStarts(before, row.key, row.name);
      ReconcileKeepsTimely(before, row.key, row.name, now);
    }
  }

  /** The time of an event; a listing takes none. */
  function TimeOf(e: Event, was: int): int {
    match e
    case EvSync(now, _) => now
    case EvJoin(now, _) => now
    case EvLeave(now, _) => now
    case EvList => was
  }

  /** The clock does not go back. */
  predicate InOrder(events: seq<Event>, was: int)
    decreases |events|
  {
    events == [] || (was <= TimeOf(events[0], was) && InOrder(events[1..], TimeOf(events[0], was)))
  }

  lemma StepKeepsClocked(l: Ledger, e: Event, was: int)
    requires Clocked(l, was) && was <= TimeOf(e, was)
    ensures Clocked(Step(l, e), TimeOf(e, was))
  {
    LaterStaysTimely(l, was, TimeOf(e, was));
    match e
    case EvSync(now, listed) =>
      EnterUpToKeepsClocked(l, listed, |listed|, was, now);
      CloseMissingKeepsClocked(EnterUpTo(l, now, listed, |listed|), now, SeenUpTo(listed, |listed|), 0);
    case EvJoin(now, who) => EnterKeepsClocked(l, who, was, now);
    case EvLeave(now, who) => LeaveKeepsClocked(l, who, now);
    case EvList => ListingKeepsClocked(l, l.players, |l.players|, was);
  }

  lemma {:induction false} RunKeepsClocked(l: Ledger, events: seq<Event>, was: int) returns (now: int)
    requires Clocked(l, was) && InOrder(events, was)
    ensures Clocked(Run(l, events), now)
    decreases |events|
  {
    now := was;
    if events != [] {
      StepKeepsClocked(l, events[0], was);
      now := RunKeepsClocked(Step(l, events[0]), events[1..], TimeOf(events[0], was));
    }
  }

  /** The whole seconds between start and end of the closed sessions of a player. */
  function TimeThere(sessions: seq<Session>, n: nat, player: PlayerId): int
    requires n <= |sessions|
  {
    if n == 0 then 0
    else
      var s := sessions[n - 1];
      TimeThere(sessions, n - 1, player) +
      if s.player == player && s.ended.Some? then (s.ended.value - s.startedAt) / 1000 else 0
  }

  lemma {:induction false} TrueDurationsAddUp(sessions: seq<Session>, n: nat, player: PlayerId)
    requires n <= |sessions| && forall k :: 0 <= k < |sessions| ==> TellsTime(sessions[k])
    ensures ClosedUpTo(sessions, n, player) == TimeThere(sessions, n, player)
  {
    if n > 0 {
      TrueDurationsAddUp(sessions, n - 1, player);
    }
  }

  /**
   In every run whose clock does not go back: the start of an online row is the least start of its open sessions, and
   unless two online rows were merged every closed session lasted from its start to its end, so that the playtime of a
   row is the time its player was there.
   */
  lemma PlaytimeIsTimeThere(events: seq<Event>, was: int)
    requires InOrder(events, was)
    ensures var l := Run(EMPTY, events);
            && StartsInv(l)
            && (!l.doubled ==>
                  && (forall k :: 0 <= k < |l.sessions| ==> TellsTime(l.sessions[k]))
                  && (forall i :: 0 <= i < |l.players| ==>
                        l.players[i].lifetime == TimeThere(l.sessions, |l.sessions|, l.players[i].id)))
  {
    var now := RunKeepsClocked(EMPTY, events, was);
    var l := Run(EMPTY, events);
    if !l.doubled {
      forall i | 0 <= i < |l.players|
        ensures l.players[i].lifetime == TimeThere(l.sessions, |l.sessions|, l.players[i].id)
      {
        assert RowAgrees(l, l.players[i]);
        TrueDurationsAddUp(l.sessions, |l.sessions|, l.players[i].id);
      }
    }
  }

  // ---------- A complete player list decides who is online ----------

  predicate ListedOnline(l: Ledger, seen: set<Key>) {
    forall i :: 0 <= i < |l.players| && l.players[i].key in seen ==> l.players[i].online
  }

  lemma ReconcileKeepsListed(l: Ledger, key: Key, name: string, seen: set<Key>)
    requires Unique(l) && ListedOnline(l, seen)
    ensures ListedOnline(Reconcile(l, key, name), seen - {key})
  {
  }

  lemma UpsertListsOne(l: Ledger, now: int, key: Key, name: string, seen: set<Key>)
    requires Unique(l) && ListedOnline(l, seen - {key})
    ensures ListedOnline(Upsert(l, now, key, name), seen + {key})
  {
  }

  lemma EnterListsOne(l: Ledger, now: int, who: Identity, seen: set<Key>)
    requires Inv(l) && ListedOnline(l, seen)
    ensures ListedOnline(Enter(l, now, who), seen + {KeyOf(who)})
  {
    ReconcileKeepsListed(l, KeyOf(who), who.name, seen);
    ReconcileKeepsInv(l, KeyOf(who), who.name);
    UpsertListsOne(Reconcile(l, KeyOf(who), who.name), now, KeyOf(who), who.name, seen);
  }

  lemma {:induction false} EnterUpToListsAll(l: Ledger, now: int, listed: seq<Identity>, n: nat)
    requires Inv(l) && n <= |listed|
    ensures ListedOnline(EnterUpTo(l, now, listed, n), SeenUpTo(listed, n))
  {
    var ledger := l;
    for k := 0 to n
      invariant Inv(ledger) && ListedOnline(ledger, SeenUpTo(listed, k))
      invariant ledger == EnterUpTo(l, now, listed, k)
    {
      EnterUpToNext(l, now, listed, k);
      EnterKeepsInv(ledger, now, listed[k]);
      EnterListsOne(ledger, now, listed[k], SeenUpTo(listed, k));
      ledger := Enter(ledger, now, listed[k]);
    }
  }

  predicate OnlyListedOnline(l: Ledger, seen: set<Key>) {
    forall i :: 0 <= i < |l.players| ==> (l.players[i].online <==> l.players[i].key in seen)
  }

  lemma {:induction false} CloseMissingLeavesListed(l: Ledger, now: int, seen: set<Key>, k: nat)
    requires k <= |l.players| && ListedOnline(l, seen)
    requires forall i :: 0 <= i < k && l.players[i].online ==> l.players[i].key in seen
    ensures OnlyListedOnline(CloseMissing(l, now, seen, k), seen)
    decreases |l.players| - k
  {
    if k < |l.players| {
      if IsMissing(l.players[k], seen) {
        CloseMissingLeavesListed(CloseRow(l, k, Min(l.players[k].lastSeen, now), l.players[k].lastSeen), now, seen,
            k + 1);
      } else {
        CloseMissingLeavesListed(l, now, seen, k + 1);
      }
    }
  }

  /** After a complete player list a row is online exactly when its identity was listed. */
  lemma SyncLeavesExactlyListedOnline(l: Ledger, now: int, listed: seq<Identity>)
    requires Inv(l)
    ensures OnlyListedOnline(Sync(l, now, listed), SeenUpTo(listed, |listed|))
  {
    EnterUpToListsAll(l, now, listed, |listed|);
    CloseMissingLeavesListed(EnterUpTo(l, now, listed, |listed|), now, SeenUpTo(listed, |listed|), 0);
  }

  // ---------- What one event does to rows and sessions ----------

  /** Sessions keep their start and their end; new ones start now. */
  predicate SessionsGoOn(before: seq<Session>, after: seq<Session>, now: int) {
    && |before| <= |after|
    && (forall k :: 0 <= k < |before| ==>
          && after[k].startedAt == before[k].startedAt
          && (before[k].ended.Some? ==> after[k].ended == before[k].ended && after[k].duration == before[k].duration))
    && (forall k :: |before| <= k < |after| ==> after[k].startedAt == now)
  }

  /** No session ends but by leaving. */
  predicate NoneEnds(before: seq<Session>, after: seq<Session>) {
    |before| <= |after| && forall k :: 0 <= k < |before| ==> after[k].ended == before[k].ended
  }

  lemma GoingOnIsTransitive(a: seq<Session>, b: seq<Session>, c: seq<Session>, now: int)
    requires SessionsGoOn(a, b, now) && SessionsGoOn(b, c, now)
    ensures SessionsGoOn(a, c, now)
    ensures NoneEnds(a, b) && NoneEnds(b, c) ==> NoneEnds(a, c)
  {
    forall k | 0 <= k < |c| ensures k >= |a| ==> c[k].startedAt == now {
      if k < |b| { assert c[k].startedAt == b[k].startedAt; }
    }
  }

  predicate HasPlayer(l: Ledger, row: Player) {
    row in l.players
  }

  lemma ReconcileLeavesOthers(l: Ledger, key: Key, name: string, row: Player)
    requires key.Stable? && row in Reconcile(l, key, name).players && row.key != key
    ensures row in l.players
  {
    var f, c := Find(l.players, FallbackKey(name), 0), Find(l.players, key, 0);
    if f < |l.players| {
      var after := Reconcile(l, key, name);
      var i :| 0 <= i < |after.players| && after.players[i] == row;
      if c < |l.players| {
        var j := if i < f then i else i + 1;
        assert j != c ==> l.players[j] == row;
      } else {
        assert i != f ==> l.players[i] == row;
      }
    }
  }

  lemma EnterLeavesOthers(l: Ledger, now: int, who: Identity, row: Player)
    requires row in Enter(l, now, who).players && row.key != KeyOf(who)
    ensures row in l.players
  {
    var r, k := Reconcile(l, KeyOf(who), who.name), Find(Reconcile(l, KeyOf(who), who.name).players, KeyOf(who), 0);
    var after := Enter(l, now, who);
    var i :| 0 <= i < |after.players| && after.players[i] == row;
    assert i < |r.players| && i != k && r.players[i] == row;
    if KeyOf(who).Stable? { ReconcileLeavesOthers(l, KeyOf(who), who.name, row); }
  }

  lemma ReconcileGoesOn(l: Ledger, key: Key, name: string, now: int)
    ensures var after := Reconcile(l, key, name).sessions;
            |after| == |l.sessions| && SessionsGoOn(l.sessions, after, now) && NoneEnds(l.sessions, after)
  {
  }

  predicate SeenAs(row: Player, key: Key, name: string, now: int) {
    row.key == key && row.online && row.name == name && row.lastSeen == now
  }

  lemma UpsertSees(l: Ledger, now: int, key: Key, name: string)
    ensures var after := Upsert(l, now, key, name); var k := Find(l.players, key, 0);
            && SessionsGoOn(l.sessions, after.sessions, now) && NoneEnds(l.sessions, after.sessions)
            && k < |after.players| && SeenAs(after.players[k], key, name, now)
  {
  }

  /**
   A player that is seen is online under the own identity and the current name, with this as last sight; all other rows
   are as they were, apart from a name row that is taken over, and sessions only start.
   */
  lemma EnterSeesOne(l: Ledger, now: int, who: Identity)
    ensures var after := Enter(l, now, who);
            && SessionsGoOn(l.sessions, after.sessions, now) && NoneEnds(l.sessions, after.sessions)
            && (exists row :: HasPlayer(after, row) && SeenAs(row, KeyOf(who), who.name, now))
            && (forall row :: HasPlayer(after, row) && row.key != KeyOf(who) ==> HasPlayer(l, row))
  {
    var after, r := Enter(l, now, who), Reconcile(l, KeyOf(who), who.name);
    ReconcileGoesOn(l, KeyOf(who), who.name, now);
    UpsertSees(r, now, KeyOf(who), who.name);
    GoingOnIsTransitive(l.sessions, r.sessions, after.sessions, now);
    assert HasPlayer(after, after.players[Find(r.players, KeyOf(who), 0)]);
    forall row | HasPlayer(after, row) && row.key != KeyOf(who) ensures HasPlayer(l, row) {
      EnterLeavesOthers(l, now, who, row);
    }
  }

  lemma LeaveLeavesOthers(l: Ledger, now: int, who: Identity, row: Player)
    requires row in Leave(l, now, who).players && row.key != KeyOf(who)
    ensures row in l.players
  {
    var r, k := Reconcile(l, KeyOf(who), who.name), Find(Reconcile(l, KeyOf(who), who.name).players, KeyOf(who), 0);
    var after := Leave(l, now, who);
    var i :| 0 <= i < |after.players| && after.players[i] == row;
    assert i < |r.players| && i != k && r.players[i] == row;
    if KeyOf(who).Stable? { ReconcileLeavesOthers(l, KeyOf(who), who.name, row); }
  }

  /** Someone was online under this identity, or under the name that it takes over. */
  predicate WasOnline(l: Ledger, who: Identity) {
    exists i :: 0 <= i < |l.players| && OnlineAs(l.players[i], KeyOf(who), who.name)
  }

  lemma CloseRowEnds(l: Ledger, k: nat, end: int, lastSeen: int, now: int)
    requires k < |l.players|
    ensures var after := CloseRow(l, k, end, lastSeen);
            && SessionsGoOn(l.sessions, after.sessions, now) && |after.sessions| == |l.sessions|
            && (forall j :: 0 <= j < |l.sessions| && after.sessions[j].ended != l.sessions[j].ended ==>
                  after.sessions[j].ended == Some(end) && after.sessions[j].player == l.players[k].id)
  {
  }

  /** When somebody leaves, sessions end only now and only those of the own row. */
  lemma LeaveEndsSessions(l: Ledger, now: int, who: Identity)
    ensures var after := Leave(l, now, who);
            && SessionsGoOn(l.sessions, after.sessions, now) && |after.sessions| == |l.sessions|
            && (forall j :: 0 <= j < |l.sessions| && after.sessions[j].ended != l.sessions[j].ended ==>
                  after.sessions[j].ended == Some(now)
                  && exists row :: HasPlayer(after, row) && row.key == KeyOf(who) && row.id == after.sessions[j].player)
  {
    var after, r := Leave(l, now, who), Reconcile(l, KeyOf(who), who.name);
    var k := Find(r.players, KeyOf(who), 0);
    ReconcileGoesOn(l, KeyOf(who), who.name, now);
    if k < |r.players| && r.players[k].online {
      CloseRowEnds(r, k, now, now, now);
      GoingOnIsTransitive(l.sessions, r.sessions, after.sessions, now);
      assert HasPlayer(after, after.players[k]);
    }
  }

  lemma LeaveEndsRow(l: Ledger, now: int, who: Identity, row: Player)
    requires Inv(l) && HasPlayer(Leave(l, now, who), row) && row.key == KeyOf(who)
    ensures !row.online && (WasOnline(l, who) ==> row.lastSeen == now)
  {
    var after, r := Leave(l, now, who), Reconcile(l, KeyOf(who), who.name);
    var k := Find(r.players, KeyOf(who), 0);
    ReconcileKeepsInv(l, KeyOf(who), who.name);
    LeaveKeepsInv(l, now, who);
    if WasOnline(l, who) { OnlineCarriesOver(l, who); }
    var i :| 0 <= i < |after.players| && after.players[i] == row;
    assert r.players[i].key == row.key;
    assert i == k;
  }

  /** A player that leaves is offline, seen last now if online before; the sessions that end are the own ones, now. */
  lemma LeaveEndsOne(l: Ledger, now: int, who: Identity)
    requires Inv(l)
    ensures var after := Leave(l, now, who);
            && (forall row :: HasPlayer(after, row) && row.key == KeyOf(who) ==>
                  !row.online && (WasOnline(l, who) ==> row.lastSeen == now))
            && (forall row :: HasPlayer(after, row) && row.key != KeyOf(who) ==> HasPlayer(l, row))
  {
    var after := Leave(l, now, who);
    forall row | HasPlayer(after, row)
      ensures row.key == KeyOf(who) ==> !row.online && (WasOnline(l, who) ==> row.lastSeen == now)
      ensures row.key != KeyOf(who) ==> HasPlayer(l, row)
    {
      if row.key == KeyOf(who) { LeaveEndsRow(l, now, who, row); } else { LeaveLeavesOthers(l, now, who, row); }
    }
  }

  lemma KeyIsFound(players: seq<Player>, key: Key, i: nat)
    requires i < |players| && players[i].key == key
    requires forall j :: 0 <= j < |players| && players[j].key == key ==> j == i
    ensures Find(players, key, 0) == i
  {
  }

  predicate OnlineUnder(l: Ledger, key: Key) {
    exists i :: 0 <= i < |l.players| && l.players[i].key == key && l.players[i].online
  }

  /** Rows count as doubled exactly if an identity took over the name row while both were online. */
  lemma ReconcileDoublesIff(l: Ledger, key: Key, name: string)
    requires Inv(l)
    ensures Reconcile(l, key, name).doubled <==>
            l.doubled || (key.Stable? && OnlineUnder(l, key) && OnlineUnder(l, ByName(Lower(name))))
  {
    if i :| 0 <= i < |l.players| && l.players[i].key == key { KeyIsFound(l.players, key, i); }
    if f :| 0 <= f < |l.players| && l.players[f].key == FallbackKey(name) {
      KeyIsFound(l.players, FallbackKey(name), f);
    }
  }

  /** A row online under this key or under the name it takes over. */
  predicate OnlineAs(row: Player, key: Key, name: string) {
    row.online && (row.key == key || row.key == FallbackKey(name))
  }

  lemma MergeCarriesOver(l: Ledger, c: nat, f: nat, i: nat)
    requires c < |l.players| && f < |l.players| && c != f && (i == c || i == f) && l.players[i].online
    ensures var after, j := Merge(l, c, f).players, if c < f then c else c - 1;
            after[j].key == l.players[c].key && after[j].online
  {
  }

  lemma ReconcileCarriesOver(l: Ledger, key: Key, name: string, i: nat) returns (j: nat)
    requires Unique(l) && i < |l.players| && OnlineAs(l.players[i], key, name)
    requires key.ByName? ==> key == FallbackKey(name)
    ensures var after := Reconcile(l, key, name).players; j < |after| && after[j].key == key && after[j].online
  {
    var f, c := Find(l.players, FallbackKey(name), 0), Find(l.players, key, 0);
    if key.ByName? || f == |l.players| {
      j := i;
    } else if c == |l.players| {
      j := f;
    } else {
      MergeCarriesOver(l, c, f, i);
      j := if c < f then c else c - 1;
    }
  }

  lemma OnlineCarriesOver(l: Ledger, who: Identity)
    requires Inv(l) && WasOnline(l, who)
    ensures var r := Reconcile(l, KeyOf(who), who.name);
            var k := Find(r.players, KeyOf(who), 0);
            k < |r.players| && r.players[k].online
  {
    var r, key := Reconcile(l, KeyOf(who), who.name), KeyOf(who);
    ReconcileKeepsInv(l, key, who.name);
    var i :| 0 <= i < |l.players| && OnlineAs(l.players[i], KeyOf(who), who.name);
    var j := ReconcileCarriesOver(l, key, who.name, i);
    KeyIsFound(r.players, key, j);
  }

  // ---------- What a player list ends ----------

  predicate ListedNow(l: Ledger, seen: set<Key>, now: int) {
    forall i :: 0 <= i < |l.players| && l.players[i].key in seen ==> l.players[i].lastSeen == now
  }

  lemma EnterListsNow(l: Ledger, now: int, who: Identity, seen: set<Key>)
    requires Inv(l) && ListedNow(l, seen, now)
    ensures ListedNow(Enter(l, now, who), seen + {KeyOf(who)}, now)
  {
    var after := Enter(l, now, who);
    ReconcileKeepsInv(l, KeyOf(who), who.name);
    EnterKeepsInv(l, now, who);
    forall i | 0 <= i < |after.players| && after.players[i].key in seen + {KeyOf(who)}
      ensures after.players[i].lastSeen == now
    {
      if after.players[i].key != KeyOf(who) { EnterLeavesOthers(l, now, who, after.players[i]); }
    }
  }

  /** What a row that is not listed looks like: as before, but offline. */
  predicate EndedAs(row: Player, before: Player) {
    && !row.online && row.id == before.id && row.key == before.key && row.name == before.name
    && row.lastSeen == before.lastSeen
  }

  /** Listed players were last seen now, no session ended, and all rows that are not listed are as they were. */
  ghost predicate SeenSoFar(l: Ledger, after: Ledger, seen: set<Key>, now: int) {
    && Inv(after) && ListedNow(after, seen, now)
    && SessionsGoOn(l.sessions, after.sessions, now) && NoneEnds(l.sessions, after.sessions)
    && (forall row :: HasPlayer(after, row) && row.key !in seen ==> HasPlayer(l, row))
  }

  lemma OneMoreSeen(l: Ledger, ledger: Ledger, now: int, who: Identity, seen: set<Key>)
    requires SeenSoFar(l, ledger, seen, now)
    ensures SeenSoFar(l, Enter(ledger, now, who), seen + {KeyOf(who)}, now)
  {
    var after := Enter(ledger, now, who);
    EnterKeepsInv(ledger, now, who);
    EnterSeesOne(ledger, now, who);
    EnterListsNow(ledger, now, who, seen);
    GoingOnIsTransitive(l.sessions, ledger.sessions, after.sessions, now);
  }

  lemma {:induction false} EnterUpToSees(l: Ledger, now: int, listed: seq<Identity>, n: nat)
    requires Inv(l) && n <= |listed|
    ensures SeenSoFar(l, EnterUpTo(l, now, listed, n), SeenUpTo(listed, n), now)
  {
    var ledger := l;
    for k := 0 to n
      invariant ledger == EnterUpTo(l, now, listed, k) && SeenSoFar(l, ledger, SeenUpTo(listed, k), now)
    {
      EnterUpToNext(l, now, listed, k);
      OneMoreSeen(l, ledger, now, listed[k], SeenUpTo(listed, k));
      ledger := Enter(ledger, now, listed[k]);
    }
  }

  /** The rows of a ledger after the missing ones from position k on were closed. */
  predicate ClosedFrom(l: Ledger, after: Ledger, seen: set<Key>, k: nat) {
    && |after.players| == |l.players|
    && (forall i :: 0 <= i < |l.players| ==>
          if i >= k && IsMissing(l.players[i], seen) then EndedAs(after.players[i], l.players[i])
          else after.players[i] == l.players[i])
  }

  /** A session that ends at this closing ends when its player was last seen. */
  predicate EndsWhenSeen(l: Ledger, before: Session, after: Session, now: int) {
    after.ended != before.ended ==>
      exists i :: 0 <= i < |l.players| && l.players[i].id == after.player
                  && after.ended == Some(Min(l.players[i].lastSeen, now))
  }

  lemma OneRowEnds(l: Ledger, now: int, k: nat, after: seq<Session>, j: nat)
    requires k < |l.players| && j < |l.sessions| == |after|
    requires var row := l.players[k];
             var one := CloseRow(l, k, Min(row.lastSeen, now), row.lastSeen);
             && SessionsGoOn(one.sessions, after, now) && after[j].player == one.sessions[j].player
             && EndsWhenSeen(one, one.sessions[j], after[j], now)
    ensures EndsWhenSeen(l, l.sessions[j], after[j], now) && after[j].player == l.sessions[j].player
  {
    var row := l.players[k];
    var one := CloseRow(l, k, Min(row.lastSeen, now), row.lastSeen);
    if after[j].ended != one.sessions[j].ended {
      var i :| 0 <= i < |one.players| && one.players[i].id == after[j].player
               && after[j].ended == Some(Min(one.players[i].lastSeen, now));
      assert l.players[i].id == one.players[i].id && l.players[i].lastSeen == one.players[i].lastSeen;
    } else if after[j].ended != l.sessions[j].ended {
      assert l.players[k].id == after[j].player;
    }
  }

  lemma {:induction false} CloseMissingEnds(l: Ledger, now: int, seen: set<Key>, k: nat)
    requires k <= |l.players|
    ensures var after := CloseMissing(l, now, seen, k);
            && ClosedFrom(l, after, seen, k) && |after.sessions| == |l.sessions|
            && SessionsGoOn(l.sessions, after.sessions, now)
            && (forall j :: 0 <= j < |l.sessions| ==>
                  after.sessions[j].player == l.sessions[j].player
                  && EndsWhenSeen(l, l.sessions[j], after.sessions[j], now))
    decreases |l.players| - k
  {
    if k < |l.players| {
      if IsMissing(l.players[k], seen) {
        var one := CloseRow(l, k, Min(l.players[k].lastSeen, now), l.players[k].lastSeen);
        CloseMissingEnds(one, now, seen, k + 1);
        var after := CloseMissing(l, now, seen, k);
        GoingOnIsTransitive(l.sessions, one.sessions, after.sessions, now);
        forall j | 0 <= j < |l.sessions|
          ensures after.sessions[j].player == l.sessions[j].player
                  && EndsWhenSeen(l, l.sessions[j], after.sessions[j], now)
        {
          OneRowEnds(l, now, k, after.sessions, j);
        }
      } else {
        CloseMissingEnds(l, now, seen, k + 1);
      }
    }
  }

  lemma ClosedEndsWhenSeen(entered: Ledger, after: Ledger, seen: set<Key>, before: Session, s: Session, now: int)
    requires ClosedFrom(entered, after, seen, 0) && EndsWhenSeen(entered, before, s, now)
    ensures EndsWhenSeen(after, before, s, now)
  {
    if s.ended != before.ended {
      var i :| 0 <= i < |entered.players| && entered.players[i].id == s.player
               && s.ended == Some(Min(entered.players[i].lastSeen, now));
      assert after.players[i].id == s.player && after.players[i].lastSeen == entered.players[i].lastSeen;
    }
  }

  /** After a complete list, sessions go on, start now, or end when their player was last seen. */
  lemma SyncEndsSessions(l: Ledger, now: int, listed: seq<Identity>)
    requires Inv(l)
    ensures var after := Sync(l, now, listed);
            && SessionsGoOn(l.sessions, after.sessions, now)
            && (forall j :: 0 <= j < |l.sessions| ==> EndsWhenSeen(after, l.sessions[j], after.sessions[j], now))
  {
    var entered, seen := EnterUpTo(l, now, listed, |listed|), SeenUpTo(listed, |listed|);
    var after := Sync(l, now, listed);
    EnterUpToSees(l, now, listed, |listed|);
    CloseMissingEnds(entered, now, seen, 0);
    GoingOnIsTransitive(l.sessions, entered.sessions, after.sessions, now);
    forall j | 0 <= j < |l.sessions| ensures EndsWhenSeen(after, l.sessions[j], after.sessions[j], now) {
      assert EndsWhenSeen(entered, entered.sessions[j], after.sessions[j], now);
      ClosedEndsWhenSeen(entered, after, seen, l.sessions[j], after.sessions[j], now);
    }
  }

  /** After a complete list, listed players were last seen now; every other row is as it was, but offline. */
  lemma SyncEndsOthers(l: Ledger, now: int, listed: seq<Identity>)
    requires Inv(l)
    ensures var after := Sync(l, now, listed); var seen := SeenUpTo(listed, |listed|);
            && ListedNow(after, seen, now)
            && (forall row :: HasPlayer(after, row) && row.key !in seen ==>
                  exists before :: HasPlayer(l, before) && EndedAs(row, before))
  {
    var entered, seen := EnterUpTo(l, now, listed, |listed|), SeenUpTo(listed, |listed|);
    var after := Sync(l, now, listed);
    EnterUpToSees(l, now, listed, |listed|);
    CloseMissingEnds(entered, now, seen, 0);
    SyncLeavesExactlyListedOnline(l, now, listed);
    forall row | HasPlayer(after, row) && row.key !in seen
      ensures exists before :: HasPlayer(l, before) && EndedAs(row, before)
    {
      var i :| 0 <= i < |after.players| && after.players[i] == row;
      assert HasPlayer(entered, entered.players[i]) && HasPlayer(l, entered.players[i]);
      assert EndedAs(row, entered.players[i]);
    }
  }

  // ---------- Listing merges every name row whose stable row is known ----------

  predicate HasRow(l: Ledger, key: Key, name: string) {
    exists i :: 0 <= i < |l.players| && l.players[i].key == key && l.players[i].name == name
  }

  lemma MergeKeepsOthers(l: Ledger, c: nat, f: nat, other: Key, name: string)
    requires c < |l.players| && f < |l.players| && c != f
    requires HasRow(l, other, name) && other != l.players[f].key
    ensures HasRow(Merge(l, c, f), other, name)
  {
    var after := Merge(l, c, f);
    var i :| 0 <= i < |l.players| && l.players[i].key == other && l.players[i].name == name;
    var j := if i < f then i else i - 1;
    assert after.players[j].key == other && after.players[j].name == name;
  }

  lemma MergeAddsNone(l: Ledger, c: nat, f: nat, other: Key, name: string)
    requires Unique(l) && c < |l.players| && f < |l.players| && c != f
    requires HasRow(Merge(l, c, f), other, name)
    ensures HasRow(l, other, name) && other != l.players[f].key
  {
    var rows := Merge(l, c, f).players;
    var j :| 0 <= j < |rows| && rows[j].key == other && rows[j].name == name;
    RowAfterMerge(l, c, f, j);
    OtherRow(l, f, if j < f then j else j + 1, other, name);
  }

  lemma OtherRow(l: Ledger, f: nat, i: nat, other: Key, name: string)
    requires Unique(l) && f < |l.players| && i < |l.players| && i != f
    requires l.players[i].key == other && l.players[i].name == name
    ensures HasRow(l, other, name) && other != l.players[f].key
  {
  }

  lemma MergedRowsGo(l: Ledger, key: Key, name: string, other: Key, otherName: string)
    requires Unique(l) && key.Stable? && Find(l.players, key, 0) < |l.players|
    ensures HasRow(Reconcile(l, key, name), other, otherName) <==>
            HasRow(l, other, otherName) && other != FallbackKey(name)
  {
    var f, c := Find(l.players, FallbackKey(name), 0), Find(l.players, key, 0);
    if f < |l.players| {
      if HasRow(l, other, otherName) && other != FallbackKey(name) { MergeKeepsOthers(l, c, f, other, otherName); }
      if HasRow(Merge(l, c, f), other, otherName) { MergeAddsNone(l, c, f, other, otherName); }
    }
  }

  predicate NamedByStable(players: seq<Player>, n: nat, key: Key)
    requires n <= |players|
  {
    exists j :: 0 <= j < n && players[j].key.Stable? && FallbackKey(players[j].name) == key
  }

  predicate StillThere(l: Ledger, n: nat, key: Key, name: string)
    requires n <= |l.players|
  {
    HasRow(l, key, name) && !NamedByStable(l.players, n, key)
  }

  ghost predicate Kept(l: Ledger, n: nat, after: Ledger)
    requires n <= |l.players|
  {
    forall key, name :: HasRow(after, key, name) <==> StillThere(l, n, key, name)
  }

  lemma ListingKeepsNext(l: Ledger, n: nat, before: Ledger, key: Key, name: string)
    requires n < |l.players| && Unique(before) && Kept(l, n, before)
    ensures HasRow(Reconcile(before, l.players[n].key, l.players[n].name), key, name) <==>
            StillThere(l, n + 1, key, name)
  {
    var row := l.players[n];
    assert HasRow(before, key, name) <==> StillThere(l, n, key, name);
    if row.key.Stable? {
      assert HasRow(l, row.key, row.name) && StillThere(l, n, row.key, row.name);
      MergedRowsGo(before, row.key, row.name, key, name);
    }
  }

  lemma ListingKeepsOneMore(l: Ledger, n: nat, before: Ledger)
    requires n < |l.players| && Unique(before) && Kept(l, n, before)
    ensures Kept(l, n + 1, Reconcile(before, l.players[n].key, l.players[n].name))
  {
    var row := l.players[n];
    forall key, name ensures HasRow(Reconcile(before, row.key, row.name), key, name) <==>
        StillThere(l, n + 1, key, name) {
      ListingKeepsNext(l, n, before, key, name);
    }
  }

  lemma ListingKeepsAll(l: Ledger)
    ensures Kept(l, 0, l)
  {
    forall key, name ensures HasRow(l, key, name) <==> StillThere(l, 0, key, name) {
    }
  }

  /** The rows left by the listing loop are exactly those that are not the name row of a stable row. */
  lemma {:induction false} ListingKeeps(l: Ledger, n: nat)
    requires Inv(l) && n <= |l.players|
    ensures Kept(l, n, ReconcileUpTo(l, l.players, n))
  {
    if n == 0 {
      ListingKeepsAll(l);
    } else {
      ListingKeeps(l, n - 1);
      ReconcileUpToKeepsInv(l, l.players, n - 1);
      ListingKeepsOneMore(l, n - 1, ReconcileUpTo(l, l.players, n - 1));
    }
  }

  /** After listing, no stable row coexists with the name row of its own name. */
  lemma ListingLeavesNoTwins(l: Ledger, i: nat, j: nat)
    requires Inv(l)
    requires var after := ReconcileUpTo(l, l.players, |l.players|);
             i < |after.players| && j < |after.players| && after.players[i].key.Stable?
    ensures var after := ReconcileUpTo(l, l.players, |l.players|);
            after.players[j].key != FallbackKey(after.players[i].name)
  {
    var after := ReconcileUpTo(l, l.players, |l.players|);
    var stable, other := after.players[i], after.players[j];
    ListingKeeps(l, |l.players|);
    assert HasRow(after, stable.key, stable.name) && HasRow(after, other.key, other.name);
    assert StillThere(l, |l.players|, stable.key, stable.name) && StillThere(l, |l.players|, other.key, other.name);
  }

  // ---------- The services ----------

  /** A row as the panel shows it: the running session counts towards the playtime. */
  datatype Shown = Shown(row: Player, sessionSeconds: int, lifetimeSeconds: int)

  class PlayerStore {
    var players: seq<Player>
    var sessions: seq<Session>
    var nextId: PlayerId
    ghost var doubled: bool

    ghost function State(): Ledger
      reads this
    {
      Ledger(players, sessions, nextId, doubled)
    }

    constructor ()
      ensures State() == EMPTY
    {
      players, sessions, nextId, doubled := [], [], 0, false;
    }

    method ReconcileNameFallback(key: Key, name: string)
      modifies this
      ensures State() == Reconcile(old(State()), key, name)
    {
      if key.ByName? { return; }
      var f := Find(players, FallbackKey(name), 0);
      if f == |players| { return; }
      var c := Find(players, key, 0);
      if c == |players| {
        players := players[f := players[f].(key := key)];
        return;
      }
      var canonical, fallback := players[c], players[f];
      doubled := doubled || (canonical.online && fallback.online);
      sessions := MoveSessions(sessions, fallback.id, canonical.id);
      players := players[c := MergedRow(canonical, fallback)];
      players := RemoveAt(players, f);
    }

    method UpsertOnline(now: int, key: Key, name: string)
      modifies this
      ensures State() == Upsert(old(State()), now, key, name)
    {
      var k := Find(players, key, 0);
      var wasOnline := k < |players| && players[k].online;
      var id := if k < |players| then players[k].id else nextId;
      if k == |players| {
        players := players + [Player(nextId, key, name, true, Some(now), 0, now)];
        nextId := nextId + 1;
      } else {
        players := players[k := players[k].(name := name, online := true, lastSeen := now,
                                            started := if wasOnline then players[k].started else Some(now))];
      }
      if !wasOnline {
        sessions := sessions + [Session(id, now, None, 0)];
      }
    }

    method Close(k: nat, end: int, lastSeen: int)
      requires k < |players|
      modifies this`players, this`sessions
      ensures State() == CloseRow(old(State()), k, end, lastSeen)
    {
      var row := players[k];
      var duration := Duration(row.started, end);
      players := players[k := row.(online := false, started := None, lifetime := row.lifetime + duration,
          lastSeen := lastSeen)];
      sessions := CloseSessions(sessions, row.id, end, duration);
    }

    /** A player is there. */
    method EnterOne(now: int, who: Identity) returns (key: Key)
      modifies this
      ensures key == KeyOf(who)
      ensures State() == Enter(old(State()), now, who)
    {
      key := KeyOf(who);
      ReconcileNameFallback(key, who.name);
      UpsertOnline(now, key, who.name);
    }

    /** One join or leave line of the log. */
    method ParseLine(joined: bool, now: int, who: Identity)
      modifies this
      ensures State() == Step(old(State()), if joined then EvJoin(now, who) else EvLeave(now, who))
    {
      if joined {
        var _ := EnterOne(now, who);
      } else {
        var key := KeyOf(who);
        ReconcileNameFallback(key, who.name);
        var k := Find(players, key, 0);
        if k < |players| && players[k].online {
          Close(k, now, now);
        }
      }
    }

    method EnterListed(now: int, listed: seq<Identity>) returns (seen: set<Key>)
      modifies this
      ensures seen == SeenUpTo(listed, |listed|)
      ensures State() == EnterUpTo(old(State()), now, listed, |listed|)
    {
      seen := {};
      ghost var before, ledger := State(), State();
      for n := 0 to |listed|
        invariant seen == SeenUpTo(listed, n)
        invariant State() == ledger
        invariant ledger == EnterUpTo(before, now, listed, n)
      {
        var key := EnterOne(now, listed[n]);
        EnterUpToNext(before, now, listed, n);
        ledger := Enter(ledger, now, listed[n]);
        seen := seen + {key};
      }
    }

    method CloseUnlisted(now: int, seen: set<Key>)
      modifies this`players, this`sessions
      ensures State() == CloseMissing(old(State()), now, seen, 0)
    {
      var k := 0;
      while k < |players|
        invariant k <= |players|
        invariant CloseMissing(State(), now, seen, k) == CloseMissing(old(State()), now, seen, 0)
        decreases |players| - k
      {
        var row := players[k];
        if IsMissing(row, seen) {
          Close(k, Min(row.lastSeen, now), row.lastSeen);
        }
        k := k + 1;
      }
    }

    /** The output of a complete player list. */
    method ReconcilePlayers(now: int, listed: seq<Identity>)
      modifies this
      ensures State() == Step(old(State()), EvSync(now, listed))
    {
      var seen := EnterListed(now, listed);
      CloseUnlisted(now, seen);
    }

    method List(now: int) returns (shown: seq<Shown>)
      modifies this
      ensures State() == Step(old(State()), EvList)
      ensures |shown| == |players|
      ensures forall i :: 0 <= i < |shown| ==>
                var row := players[i];
                && shown[i].row == row
                && shown[i].lifetimeSeconds - shown[i].sessionSeconds == row.lifetime
                && shown[i].sessionSeconds == if row.online then Duration(row.started, now) else 0
    {
      ghost var before := State();
      var snapshot := players;
      var n := 0;
      while n < |snapshot|
        invariant n <= |snapshot|
        invariant State() == ReconcileUpTo(before, snapshot, n)
      {
        ReconcileNameFallback(snapshot[n].key, snapshot[n].name);
        n := n + 1;
      }
      shown := [];
      for i := 0 to |players|
        invariant |shown| == i
        invariant forall j :: 0 <= j < i ==>
                    var seconds := if players[j].online then Duration(players[j].started, now) else 0;
                    shown[j] == Shown(players[j], seconds, players[j].lifetime + seconds)
      {
        var row := players[i];
        var seconds := if row.online then Duration(row.started, now) else 0;
        shown := shown + [Shown(row, seconds, row.lifetime + seconds)];
      }
    }
  }
}
