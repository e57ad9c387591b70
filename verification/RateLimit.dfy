/**
 The fixed-window limiter of outgoing webhook messages.
 */
module RateLimit {
  import opened Wrappers

  const MAX_PER_WINDOW := 10
  const WINDOW := 60000

  datatype Entry = Entry(count: nat, windowStart: nat)

  type Table = map<string, Entry>

  datatype Request = Request(key: string, time: nat)

  // ---------- The limiter ----------

  predicate Accepts(t: Table, r: Request) {
    r.key in t ==> r.time - t[r.key].windowStart >= WINDOW || t[r.key].count < MAX_PER_WINDOW
  }

  function Consumed(t: Table, r: Request): Table {
    if !Accepts(t, r) then t
    else if r.key !in t || r.time - t[r.key].windowStart >= WINDOW then t[r.key := Entry(1, r.time)]
    else t[r.key := t[r.key].(count := t[r.key].count + 1)]
  }

  class Limiter {
    var entries: Table

    constructor ()
      ensures entries == map[]
    {
      entries := map[];
    }

    method TryConsume(key: string, now: nat) returns (ok: bool)
      modifies this
      ensures ok == Accepts(old(entries), Request(key, now))
      ensures entries == Consumed(old(entries), Request(key, now))
    {
      if key !in entries {
        entries := entries[key := Entry(1, now)];
        return true;
      }
      var entry := entries[key];
      if now - entry.windowStart >= WINDOW {
        entries := entries[key := Entry(1, now)];
        return true;
      }
      if entry.count >= MAX_PER_WINDOW {
        return false;
      }
      entries := entries[key := entry.(count := entry.count + 1)];
      return true;
    }
  }

  // ---------- Sequences of requests ----------

  predicate InOrder(rs: seq<Request>) {
    forall i, j :: 0 <= i <= j < |rs| ==> rs[i].time <= rs[j].time
  }

  /** The table after the first n requests. */
  function TableAfter(rs: seq<Request>, n: nat): Table
    requires n <= |rs|
  {
    if n == 0 then map[] else Consumed(TableAfter(rs, n - 1), rs[n - 1])
  }

  predicate AcceptedAt(rs: seq<Request>, i: nat)
    requires i < |rs|
  {
    Accepts(TableAfter(rs, i), rs[i])
  }

  /** How many of the first n requests of a key are accepted in the half-open minute from a time on. */
  function AcceptedFrom(rs: seq<Request>, n: nat, key: string, from: int): nat
    requires n <= |rs|
  {
    if n == 0 then 0
    else AcceptedFrom(rs, n - 1, key, from) +
         (if rs[n - 1].key == key && from <= rs[n - 1].time < from + 60000 && AcceptedAt(rs, n - 1) then 1 else 0)
  }

  // ---------- The bound ----------

  /** What the entry of a key says about the accepted requests of one minute. */
  predicate Bounded(entry: Option<Entry>, accepted: nat, from: int, last: int) {
    && (accepted > 0 ==> from <= last)
    && (entry.None? ==> accepted == 0)
    && (entry.Some? ==>
          var e := entry.value;
          && 1 <= e.count <= MAX_PER_WINDOW && e.windowStart <= last
          && (if e.windowStart < from then accepted <= e.count - 1
              else if e.windowStart < from + WINDOW then accepted <= MAX_PER_WINDOW - 1 + e.count
              else accepted <= 2 * MAX_PER_WINDOW - 1))
  }

  function EntryOf(t: Table, key: string): Option<Entry> {
    if key in t then Some(t[key]) else None
  }

  lemma {:induction false} EveryMinuteIsBounded(rs: seq<Request>, n: nat, key: string, from: int)
    requires InOrder(rs) && n <= |rs|
    ensures Bounded(EntryOf(TableAfter(rs, n), key), AcceptedFrom(rs, n, key, from), from,
                    if n == 0 then 0 else rs[n - 1].time)
  {
    if n > 0 {
      EveryMinuteIsBounded(rs, n - 1, key, from);
    }
  }

  /** With a clock that never goes back, no half-open minute sees more than 19 accepted requests of one key. */
  lemma AtMostNineteenPerMinute(rs: seq<Request>, key: string, from: int)
    requires InOrder(rs)
    ensures AcceptedFrom(rs, |rs|, key, from) <= 19
  {
    EveryMinuteIsBounded(rs, |rs|, key, from);
  }

  // ---------- The bound is reached ----------

  /** One request opens a window, nine end it, ten more follow in the next window one millisecond later. */
  function Bursts(key: string): (rs: seq<Request>)
    ensures |rs| == 20 && InOrder(rs)
  {
    seq(20, i => Request(key, if i == 0 then 0 else if i < 10 then WINDOW - 1 else WINDOW))
  }

  lemma {:induction false} BurstsAreAccepted(key: string, n: nat)
    requires n <= 20
    ensures EntryOf(TableAfter(Bursts(key), n), key) ==
            if n == 0 then None else if n <= 10 then Some(Entry(n, 0)) else Some(Entry(n - 10, WINDOW))
    ensures AcceptedFrom(Bursts(key), n, key, WINDOW - 1) == if n == 0 then 0 else n - 1
  {
    if n > 0 {
      BurstsAreAccepted(key, n - 1);
    }
  }

  /**
   Ten per minute, the configured number, is not what the limiter enforces: it lets 19 through within two
   milliseconds.
   */
  lemma NineteenGetThrough(key: string)
    ensures InOrder(Bursts(key)) && AcceptedFrom(Bursts(key), 20, key, WINDOW - 1) == 19
  {
    BurstsAreAccepted(key, 20);
  }

  // ---------- Where the configured number holds ----------

  /** An accepted request lies in the current window of its key or before it. */
  lemma {:induction false} WindowCoversAccepted(rs: seq<Request>, n: nat, key: string, from: int)
    requires InOrder(rs) && n <= |rs|
    ensures var e := EntryOf(TableAfter(rs, n), key);
            AcceptedFrom(rs, n, key, from) > 0 ==> e.Some? && from < e.value.windowStart + WINDOW
  {
    if n > 0 {
      WindowCoversAccepted(rs, n - 1, key, from);
      EveryMinuteIsBounded(rs, n - 1, key, from);
    }
  }

  /** Request k opens a new window of its key. */
  predicate Opens(rs: seq<Request>, k: nat)
    requires k < |rs|
  {
    var t := TableAfter(rs, k);
    rs[k].key in t ==> rs[k].time - t[rs[k].key].windowStart >= WINDOW
  }

  lemma {:induction false} CountedFromOpening(rs: seq<Request>, k: nat, n: nat)
    requires InOrder(rs) && k < n <= |rs| && Opens(rs, k)
    ensures var key, from := rs[k].key, rs[k].time;
            var e, accepted := EntryOf(TableAfter(rs, n), key), AcceptedFrom(rs, n, key, from);
            && e.Some? && 1 <= e.value.count <= MAX_PER_WINDOW
            && (if e.value.windowStart == from then accepted <= e.value.count
                else e.value.windowStart >= from + WINDOW && accepted <= MAX_PER_WINDOW)
  {
    if n == k + 1 {
      WindowCoversAccepted(rs, k, rs[k].key, rs[k].time);
    } else {
      CountedFromOpening(rs, k, n - 1);
      EveryMinuteIsBounded(rs, n - 1, rs[k].key, rs[k].time);
    }
  }

  /** The minute that starts with the opening of a window sees at most the configured ten. */
  lemma AtMostTenFromOpening(rs: seq<Request>, k: nat)
    requires InOrder(rs) && k < |rs| && Opens(rs, k)
    ensures AcceptedFrom(rs, |rs|, rs[k].key, rs[k].time) <= 10
  {
    CountedFromOpening(rs, k, |rs|);
  }

  // ---------- Which minutes see more than ten ----------

  function Min(x: nat, y: nat): nat {
    if x <= y then x else y
  }

  /** How many requests of a key, accepted or not, come between two positions and before a time. */
  function Requests(rs: seq<Request>, k: nat, n: nat, key: string, before: int): nat
    requires k <= n <= |rs|
  {
    if n == k then 0
    else Requests(rs, k, n - 1, key, before) + (if rs[n - 1].key == key && rs[n - 1].time < before then 1 else 0)
  }

  /** Request k opens a window of the key within the minute. */
  predicate OpensWithin(rs: seq<Request>, k: nat, key: string, from: int)
    requires k < |rs|
  {
    rs[k].key == key && from <= rs[k].time < from + WINDOW && Opens(rs, k)
  }

  /** Without an opening inside the minute, all it accepts belongs to the window before it. */
  lemma {:induction false} NoOpening(rs: seq<Request>, n: nat, key: string, from: int)
    requires InOrder(rs) && n <= |rs|
    requires forall k :: 0 <= k < n ==> !OpensWithin(rs, k, key, from)
    ensures var e, accepted := EntryOf(TableAfter(rs, n), key), AcceptedFrom(rs, n, key, from);
            && accepted <= MAX_PER_WINDOW
            && (e.Some? ==> e.value.count <= MAX_PER_WINDOW)
            && (e.Some? && e.value.windowStart < from + WINDOW ==>
               e.value.windowStart < from && accepted <= e.value.count)
            && (e.None? ==> accepted == 0)
  {
    if n > 0 {
      NoOpening(rs, n - 1, key, from);
      EveryMinuteIsBounded(rs, n - 1, key, from);
      assert !OpensWithin(rs, n - 1, key, from);
    }
  }

  /** From an opening inside the minute on, the first ten requests of the minute are accepted. */
  lemma {:induction false} FromOpening(rs: seq<Request>, k: nat, n: nat, key: string, from: int)
    requires InOrder(rs) && k < n <= |rs| && OpensWithin(rs, k, key, from)
    ensures var e, asked := EntryOf(TableAfter(rs, n), key), Requests(rs, k, n, key, from + WINDOW);
            && AcceptedFrom(rs, n, key, from) == AcceptedFrom(rs, k, key, from) + Min(asked, MAX_PER_WINDOW)
            && e.Some?
            && (e.value == Entry(Min(asked, MAX_PER_WINDOW), rs[k].time) || rs[n - 1].time >= from + WINDOW)
  {
    if n == k + 1 {
      assert Requests(rs, k, k, key, from + WINDOW) == 0;
    } else {
      FromOpening(rs, k, n - 1, key, from);
    }
  }

  /**
   The minute accepts more than ten: some before an opening inside it, and together with the first ten after it more
   than ten.
   */
  predicate Straddles(rs: seq<Request>, k: nat, key: string, from: int)
    requires k < |rs|
  {
    && OpensWithin(rs, k, key, from)
    && AcceptedFrom(rs, k, key, from) + Min(Requests(rs, k, |rs|, key, from + WINDOW), MAX_PER_WINDOW) > MAX_PER_WINDOW
  }

  /**
   A minute sees more than ten accepted sends of a key if and only if a window opens inside it, and the sends accepted
   in the minute before that and the requests made in it from then on, ten of them at most, exceed ten.
   */
  lemma MoreThanTenIff(rs: seq<Request>, key: string, from: int)
    requires InOrder(rs)
    ensures AcceptedFrom(rs, |rs|, key, from) > 10 <==>
            exists k :: 0 <= k < |rs| && Straddles(rs, k, key, from)
  {
    if forall k :: 0 <= k < |rs| ==> !OpensWithin(rs, k, key, from) {
      NoOpening(rs, |rs|, key, from);
    } else {
      var k :| 0 <= k < |rs| && OpensWithin(rs, k, key, from);
      FromOpening(rs, k, |rs|, key, from);
      assert Straddles(rs, k, key, from) <==> AcceptedFrom(rs, |rs|, key, from) > MAX_PER_WINDOW;
      forall j | 0 <= j < |rs| && Straddles(rs, j, key, from)
          ensures AcceptedFrom(rs, |rs|, key, from) > MAX_PER_WINDOW {
        FromOpening(rs, j, |rs|, key, from);
      }
    }
  }

  // ---------- Nobody is refused too early ----------

  lemma {:induction false} WindowIsCounted(rs: seq<Request>, n: nat, key: string, from: int)
    requires InOrder(rs) && n <= |rs| && (forall i :: 0 <= i < n ==> rs[i].time < from + WINDOW)
    ensures var e := EntryOf(TableAfter(rs, n), key);
            e.Some? && e.value.windowStart >= from ==> AcceptedFrom(rs, n, key, from) >= e.value.count
  {
    if n > 0 {
      WindowIsCounted(rs, n - 1, key, from);
      EveryMinuteIsBounded(rs, n - 1, key, from);
    }
  }

  /** A request is refused only when ten requests of its key were accepted in the minute that ends with it. */
  lemma RefusedOnlyAfterTen(rs: seq<Request>, n: nat)
    requires InOrder(rs) && n < |rs| && !AcceptedAt(rs, n)
    ensures AcceptedFrom(rs, n, rs[n].key, rs[n].time - 59999) >= 10
  {
    WindowIsCounted(rs, n, rs[n].key, rs[n].time - WINDOW + 1);
  }
}
