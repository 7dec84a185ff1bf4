/** Throttled presence flushes (internal/app/app.go). Clock readings are integers; a caller reads the
    clock before it takes the lock, so readings may come a little out of order. */
module Presence {
  type Cache = map<string, int>

  datatype Event = Flush(client: string, now: int) | Mark(client: string, ts: int) | Reset(client: string)
                 | Cleanup(now: int)

  /** `keepFor` of `cleanupPresenceCache`. */
  function KeepFor(grace: nat, interval: nat): nat {
    grace + interval * 2
  }

  predicate MayFlush(c: Cache, client: string, now: int, interval: nat) {
    client in c ==> now - c[client] >= interval
  }

  function Kept(c: Cache, now: int, keepFor: nat): Cache {
    map client | client in c && now - c[client] <= keepFor :: c[client]
  }

  function Apply(c: Cache, e: Event, grace: nat, interval: nat): Cache {
    match e
    case Flush(client, now) => if MayFlush(c, client, now, interval) then c[client := now] else c
    case Mark(client, ts) => c[client := ts]
    case Reset(client) => c - {client}
    case Cleanup(now) => Kept(c, now, KeepFor(grace, interval))
  }

  class PresenceCache {
    var last: Cache
    const grace: nat
    const interval: nat

    constructor (grace: nat, interval: nat)
      ensures last == map[] && this.grace == grace && this.interval == interval
    {
      last := map[];
      this.grace, this.interval := grace, interval;
    }

    method ShouldFlush(client: string, now: int) returns (flush: bool)
      modifies this
      ensures flush == MayFlush(old(last), client, now, interval)
      ensures last == Apply(old(last), Flush(client, now), grace, interval)
    {
      if client in last && now - last[client] < interval {
        return false;
      }
      last := last[client := now];
      return true;
    }

    method MarkFlushed(client: string, ts: int)
      modifies this
      ensures last == Apply(old(last), Mark(client, ts), grace, interval)
    {
      last := last[client := ts];
    }

    method ResetFlush(client: string)
      modifies this
      ensures last == Apply(old(last), Reset(client), grace, interval)
    {
      last := last - {client};
    }

    /** Deletes while it visits the clients in some order. */
    method CleanupCache(now: int)
      modifies this
      ensures last == Apply(old(last), Cleanup(now), grace, interval)
    {
      var keepFor := grace + interval * 2;
      var left := last.Keys;
      while left != {}
        invariant left <= old(last).Keys
        invariant forall c :: c in last <==> c in old(last) && (c in left || now - old(last)[c] <= keepFor)
        invariant forall c :: c in last ==> last[c] == old(last)[c]
        decreases |left|
      {
        var client :| client in left;
        if now - last[client] > keepFor {
          last := last - {client};
        }
        left := left - {client};
      }
    }
  }

  // ---- Every run ----

  /** The times of the accepted flushes of one client. */
  function Accepted(c: Cache, events: seq<Event>, client: string, grace: nat, interval: nat): seq<int>
    decreases |events|
  {
    if events == [] then []
    else
      var e := events[0];
      (if e.Flush? && e.client == client && MayFlush(c, client, e.now, interval) then [e.now] else []) +
      Accepted(Apply(c, e, grace, interval), events[1..], client, grace, interval)
  }

  predicate OnlyThrottled(events: seq<Event>, client: string) {
    forall i :: 0 <= i < |events| ==> events[i] != Reset(client) && !(events[i].Mark? && events[i].client == client)
  }

  predicate HasTime(e: Event) {
    e.Flush? || e.Cleanup?
  }

  /** No clock reading is more than lag behind an earlier one. */
  predicate LagsAtMost(events: seq<Event>, lag: int) {
    forall i, j :: 0 <= i < j < |events| && HasTime(events[i]) && HasTime(events[j]) ==>
      events[j].now >= events[i].now - lag
  }

  predicate Spaced(times: seq<int>, interval: nat) {
    forall i :: 0 <= i < |times| - 1 ==> times[i + 1] - times[i] >= interval
  }

  /** After an accepted flush at `last`: it is still in the cache, or every reading to come is an
      interval later. */
  predicate Guarded(c: Cache, events: seq<Event>, client: string, last: int, interval: nat) {
    (client in c && c[client] == last) ||
    (client !in c && forall i :: 0 <= i < |events| && HasTime(events[i]) ==> events[i].now - last >= interval)
  }

  lemma {:induction false} NextIsLater(c: Cache, events: seq<Event>, client: string, last: int, grace: nat,
                                       interval: nat)
    requires OnlyThrottled(events, client) && LagsAtMost(events, grace + interval + 1)
    requires Guarded(c, events, client, last, interval)
    ensures var times := Accepted(c, events, client, grace, interval);
            Spaced(times, interval) && (times != [] ==> times[0] - last >= interval)
    decreases |events|
  {
    if events != [] {
      var e, rest := events[0], events[1..];
      var c' := Apply(c, e, grace, interval);
      assert forall i :: 0 <= i < |rest| ==> rest[i] == events[i + 1];
      if e.Flush? && e.client == client && MayFlush(c, client, e.now, interval) {
        NextIsLater(c', rest, client, e.now, grace, interval);
        PrependTime(e.now, Accepted(c', rest, client, grace, interval), interval);
      } else {
        NextIsLater(c', rest, client, last, grace, interval);
      }
    }
  }

  lemma PrependTime(now: int, times: seq<int>, interval: nat)
    requires Spaced(times, interval) && (times != [] ==> times[0] - now >= interval)
    ensures Spaced([now] + times, interval)
  {
  }

  lemma {:induction false} FlushesAreSpaced(events: seq<Event>, client: string, grace: nat, interval: nat)
    requires OnlyThrottled(events, client) && LagsAtMost(events, grace + interval + 1)
    ensures Spaced(Accepted(map[], events, client, grace, interval), interval)
  {
    UntilFirst(map[], events, client, grace, interval);
  }

  lemma {:induction false} UntilFirst(c: Cache, events: seq<Event>, client: string, grace: nat, interval: nat)
    requires OnlyThrottled(events, client) && LagsAtMost(events, grace + interval + 1) && client !in c
    ensures Spaced(Accepted(c, events, client, grace, interval), interval)
    decreases |events|
  {
    if events != [] {
      var e, rest := events[0], events[1..];
      var c' := Apply(c, e, grace, interval);
      assert forall i :: 0 <= i < |rest| ==> rest[i] == events[i + 1];
      if e.Flush? && e.client == client {
        NextIsLater(c', rest, client, e.now, grace, interval);
        PrependTime(e.now, Accepted(c', rest, client, grace, interval), interval);
      } else {
        UntilFirst(c', rest, client, grace, interval);
      }
    }
  }

  /** A flush at 0, a cleanup just after the entry has become too old, and a reading one unit before
      the interval is over. */
  function EarlyFlush(client: string, grace: nat, interval: nat): seq<Event> {
    [Flush(client, 0), Cleanup(KeepFor(grace, interval) + 1), Flush(client, interval - 1)]
  }

  lemma MoreLagBreaksSpacing(client: string, grace: nat, interval: nat)
    requires interval > 0
    ensures var events := EarlyFlush(client, grace, interval);
            LagsAtMost(events, grace + interval + 2) && OnlyThrottled(events, client) &&
            Accepted(map[], events, client, grace, interval) == [0, interval - 1]
  {
    var events := EarlyFlush(client, grace, interval);
    var c1 := Apply(map[], events[0], grace, interval);
    var c2 := Apply(c1, events[1], grace, interval);
    assert c1 == map[client := 0] && client !in c2;
    assert events[1..] == [events[1], events[2]] && events[1..][1..] == [events[2]];
    assert Accepted(c2, [events[2]], client, grace, interval) == [interval - 1];
  }

  /** With no reset or mark of a client, its accepted flushes are at least one interval apart in every
      run exactly if clock readings lag by at most the grace period, one interval and one unit:
      cleaning the cache up lets no flush through early, unless a reading is that stale. */
  lemma SpacedExactlyIfFresh(client: string, grace: nat, interval: nat, lag: int)
    requires interval > 0
    ensures (forall events: seq<Event> :: LagsAtMost(events, lag) && OnlyThrottled(events, client) ==>
               Spaced(Accepted(map[], events, client, grace, interval), interval)) <==>
            lag <= grace + interval + 1
  {
    if lag <= grace + interval + 1 {
      forall events: seq<Event> | LagsAtMost(events, lag) && OnlyThrottled(events, client)
        ensures Spaced(Accepted(map[], events, client, grace, interval), interval)
      {
        FlushesAreSpaced(events, client, grace, interval);
      }
    } else {
      MoreLagBreaksSpacing(client, grace, interval);
      var times := Accepted(map[], EarlyFlush(client, grace, interval), client, grace, interval);
      assert times[0 + 1] - times[0] < interval;
      assert LagsAtMost(EarlyFlush(client, grace, interval), lag);
    }
  }

  // ---- Which flushes are let through ----

  function Last(times: seq<int>): int
    requires times != []
  {
    times[|times| - 1]
  }

  lemma SpacedAtTheEnd(times: seq<int>, now: int, interval: nat)
    requires Spaced(times + [now], interval) && times != []
    ensures now - Last(times) >= interval
  {
    var all := times + [now];
    assert all[|times| - 1 + 1] - all[|times| - 1] >= interval;
  }

  function CacheAfter(c: Cache, events: seq<Event>, grace: nat, interval: nat): Cache
    decreases |events|
  {
    if events == [] then c else CacheAfter(Apply(c, events[0], grace, interval), events[1..], grace, interval)
  }

  lemma {:induction false} OneMoreFlush(c: Cache, events: seq<Event>, client: string, grace: nat, interval: nat,
                                        now: int)
    ensures Accepted(c, events + [Flush(client, now)], client, grace, interval) ==
            Accepted(c, events, client, grace, interval) +
            if MayFlush(CacheAfter(c, events, grace, interval), client, now, interval) then [now] else []
    decreases |events|
  {
    var all := events + [Flush(client, now)];
    if events == [] {
      assert all == [Flush(client, now)] && all[1..] == [];
    } else {
      assert all[1..] == events[1..] + [Flush(client, now)];
      OneMoreFlush(Apply(c, events[0], grace, interval), events[1..], client, grace, interval, now);
    }
  }

  /** An entry is the last flush that was let through. */
  lemma {:induction false} EntryIsLastAccepted(c: Cache, events: seq<Event>, client: string, grace: nat, interval: nat)
    requires OnlyThrottled(events, client)
    ensures var times := Accepted(c, events, client, grace, interval);
      var after := CacheAfter(c, events, grace, interval);
      client in after ==>
      if times != [] then after[client] == Last(times) else client in c && after[client] == c[client]
    decreases |events|
  {
    if events != [] {
      assert forall i :: 0 <= i < |events[1..]| ==> events[1..][i] == events[i + 1];
      EntryIsLastAccepted(Apply(c, events[0], grace, interval), events[1..], client, grace, interval);
    }
  }

  /** Main result: with no reset or mark of a client, and readings no staler than the bound, a flush is let
      through exactly if it is the client's first or comes an interval after the last one let through. */
  lemma FlushedExactlyIfDue(events: seq<Event>, client: string, now: int, grace: nat, interval: nat)
    requires OnlyThrottled(events, client) && LagsAtMost(events + [Flush(client, now)], grace + interval + 1)
    ensures var before := Accepted(map[], events, client, grace, interval);
      Accepted(map[], events + [Flush(client, now)], client, grace, interval) ==
      if before == [] || now - Last(before) >= interval then before + [now] else before
  {
    var before := Accepted(map[], events, client, grace, interval);
    OneMoreFlush(map[], events, client, grace, interval, now);
    EntryIsLastAccepted(map[], events, client, grace, interval);
    FlushesAreSpaced(events + [Flush(client, now)], client, grace, interval);
    if before != [] && Spaced(before + [now], interval) {
      SpacedAtTheEnd(before, now, interval);
    }
  }

  /** A mark stands for a flush that was let through, a reset for none, and neither concerns other clients. */
  lemma MarkAndReset(c: Cache, client: string, ts: int, other: string, now: int, grace: nat, interval: nat)
    ensures MayFlush(Apply(c, Mark(client, ts), grace, interval), client, now, interval) <==> now - ts >= interval
    ensures MayFlush(Apply(c, Reset(client), grace, interval), client, now, interval)
    ensures other != client ==>
      (MayFlush(Apply(c, Mark(client, ts), grace, interval), other, now, interval) <==>
         MayFlush(c, other, now, interval)) &&
      (MayFlush(Apply(c, Reset(client), grace, interval), other, now, interval) <==> MayFlush(c, other, now, interval))
  {
  }
}
