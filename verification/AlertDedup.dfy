/**
 Suppressing repeated join and leave alerts.

 The map of recent alerts is pruned when it has grown large; pruning must not change any decision.
 */
module AlertDedup {

  const QUIET := 15000
  const PRUNE_ABOVE := 1000

  type Recent = map<string, nat>

  datatype Alert = Alert(key: string, time: nat)

  predicate Passes(recent: Recent, a: Alert) {
    a.key in recent ==> a.time - recent[a.key] >= QUIET
  }

  function Pruned(recent: Recent, now: nat): Recent {
    map k | k in recent && now - recent[k] < QUIET :: recent[k]
  }

  function Recorded(recent: Recent, a: Alert): Recent {
    if !Passes(recent, a) then recent
    else
      var r := recent[a.key := a.time];
      if |r| > PRUNE_ABOVE then Pruned(r, a.time) else r
  }

  class Alerts {
    var recent: Recent

    constructor ()
      ensures recent == map[]
    {
      recent := map[];
    }

    method SendLifecycleAlert(key: string, now: nat) returns (sent: bool)
      modifies this
      ensures sent == Passes(old(recent), Alert(key, now))
      ensures recent == Recorded(old(recent), Alert(key, now))
    {
      if key in recent && now - recent[key] < QUIET { return false; }
      recent := recent[key := now];
      if |recent| > PRUNE_ABOVE {
        Prune(now);
      }
      return true;
    }

    /** Entry by entry. */
    method Prune(now: nat)
      modifies this
      ensures recent == Pruned(old(recent), now)
    {
      ghost var before := recent;
      var candidates := recent.Keys;
      while candidates != {}
        invariant candidates <= before.Keys
        invariant recent.Keys <= before.Keys && forall k :: k in recent ==> recent[k] == before[k]
        invariant forall k :: k in before ==> (k in recent <==> k in candidates || now - before[k] < QUIET)
        decreases candidates
      {
        var candidate :| candidate in candidates;
        if candidate in recent && now - recent[candidate] >= QUIET {
          recent := recent - {candidate};
        }
        candidates := candidates - {candidate};
      }
    }
  }

  // ---------- Sequences of alerts ----------

  predicate InOrder(alerts: seq<Alert>) {
    forall i, j :: 0 <= i <= j < |alerts| ==> alerts[i].time <= alerts[j].time
  }

  function RecentAfter(alerts: seq<Alert>, n: nat): Recent
    requires n <= |alerts|
  {
    if n == 0 then map[] else Recorded(RecentAfter(alerts, n - 1), alerts[n - 1])
  }

  predicate Sent(alerts: seq<Alert>, i: nat)
    requires i < |alerts|
  {
    Passes(RecentAfter(alerts, i), alerts[i])
  }

  /** The same without ever pruning. */
  function FullAfter(alerts: seq<Alert>, n: nat): Recent
    requires n <= |alerts|
  {
    if n == 0 then map[]
    else
      var before, a := FullAfter(alerts, n - 1), alerts[n - 1];
      if Passes(before, a) then before[a.key := a.time] else before
  }

  /** The pruned map lacks only entries that have expired. */
  predicate LacksOnlyExpired(pruned: Recent, full: Recent, now: nat) {
    && (forall k :: k in pruned ==> k in full && pruned[k] == full[k])
    && (forall k :: k in full && k !in pruned ==> now - full[k] >= QUIET)
  }

  lemma {:induction false} PrunedFollowsFull(alerts: seq<Alert>, n: nat)
    requires InOrder(alerts) && n <= |alerts|
    ensures LacksOnlyExpired(RecentAfter(alerts, n), FullAfter(alerts, n), if n == 0 then 0 else alerts[n - 1].time)
  {
    if n > 0 {
      PrunedFollowsFull(alerts, n - 1);
    }
  }

  /** Pruning never changes a decision. */
  lemma PruningIsInvisible(alerts: seq<Alert>, i: nat)
    requires InOrder(alerts) && i < |alerts|
    ensures Sent(alerts, i) <==> Passes(FullAfter(alerts, i), alerts[i])
  {
    PrunedFollowsFull(alerts, i);
  }

  /** More than a thousand keys are remembered only if each was alerted within the 15 seconds before one sent alert. */
  lemma {:induction false} LargeMapIsRecent(alerts: seq<Alert>, n: nat) returns (j: nat)
    requires n <= |alerts| && |RecentAfter(alerts, n)| > 1000
    ensures j < n && Sent(alerts, j)
    ensures forall key :: key in RecentAfter(alerts, n) ==> alerts[j].time - RecentAfter(alerts, n)[key] < 15000
  {
    if Sent(alerts, n - 1) {
      j := n - 1;
    } else {
      j := LargeMapIsRecent(alerts, n - 1);
    }
  }

  /** As long as no more than a thousand keys were alerted nothing is forgotten. */
  lemma {:induction false} SmallMapIsComplete(alerts: seq<Alert>, n: nat)
    requires n <= |alerts| && |FullAfter(alerts, n)| <= 1000
    ensures RecentAfter(alerts, n) == FullAfter(alerts, n)
  {
    if n > 0 {
      assert FullAfter(alerts, n - 1).Keys <= FullAfter(alerts, n).Keys;
      KeysGrow(FullAfter(alerts, n - 1).Keys, FullAfter(alerts, n).Keys);
      SmallMapIsComplete(alerts, n - 1);
    }
  }

  lemma {:induction false} KeysGrow(a: set<string>, b: set<string>)
    requires a <= b
    ensures |a| <= |b|
  {
    if a != {} {
      var k :| k in a;
      KeysGrow(a - {k}, b - {k});
    }
  }

  /** An earlier alert of the same key that was sent within the quiet time. */
  predicate Suppresses(alerts: seq<Alert>, j: nat, i: nat)
    requires j < i < |alerts|
  {
    Sent(alerts, j) && alerts[j].key == alerts[i].key && alerts[i].time - alerts[j].time < 15000
  }

  predicate SentAt(alerts: seq<Alert>, j: nat, key: string, time: nat)
    requires j < |alerts|
  {
    Sent(alerts, j) && alerts[j].key == key && alerts[j].time == time
  }

  /** The unpruned map holds the time of the last sent alert of a key. */
  lemma {:induction false} FullHoldsSent(alerts: seq<Alert>, n: nat, key: string) returns (j: nat)
    requires InOrder(alerts) && n <= |alerts| && key in FullAfter(alerts, n)
    ensures j < n && SentAt(alerts, j, key, FullAfter(alerts, n)[key])
  {
    PruningIsInvisible(alerts, n - 1);
    if Sent(alerts, n - 1) && alerts[n - 1].key == key {
      j := n - 1;
    } else {
      j := FullHoldsSent(alerts, n - 1, key);
    }
  }

  lemma {:induction false} FullHoldsLast(alerts: seq<Alert>, n: nat, j: nat)
    requires InOrder(alerts) && j < n <= |alerts| && Sent(alerts, j)
    ensures alerts[j].key in FullAfter(alerts, n) && alerts[j].time <= FullAfter(alerts, n)[alerts[j].key]
  {
    PruningIsInvisible(alerts, n - 1);
    if j < n - 1 {
      FullHoldsLast(alerts, n - 1, j);
    }
  }

  /**
   An alert is sent exactly when no alert of its key was sent in the 15 seconds before it, however the map was
   pruned.
   */
  lemma SentIffQuiet(alerts: seq<Alert>, i: nat)
    requires InOrder(alerts) && i < |alerts|
    ensures Sent(alerts, i) <==> forall j :: 0 <= j < i ==> !Suppresses(alerts, j, i)
  {
    PruningIsInvisible(alerts, i);
    if Sent(alerts, i) {
      forall j | 0 <= j < i ensures !Suppresses(alerts, j, i) {
        if Sent(alerts, j) { FullHoldsLast(alerts, i, j); }
      }
    } else {
      var j := FullHoldsSent(alerts, i, alerts[i].key);
      assert Suppresses(alerts, j, i);
    }
  }

  /** Sent alerts of one key are at least 15 seconds apart. */
  lemma SentAlertsAreApart(alerts: seq<Alert>, j: nat, i: nat)
    requires InOrder(alerts) && j < i < |alerts| && alerts[j].key == alerts[i].key
    requires Sent(alerts, j) && Sent(alerts, i)
    ensures alerts[i].time - alerts[j].time >= 15000
  {
    SentIffQuiet(alerts, i);
    assert !Suppresses(alerts, j, i);
  }
}
