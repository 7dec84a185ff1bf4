/** What a metric row counts, told from the list of finished calls (internal/store/store.go,
    internal/app/persist_batch.go). */
module MetricCounts {
  import opened Metrics
  import opened Wrappers

  /** How many of the events have this key. */
  function HowMany<K(==)>(events: seq<Event<K>>, k: K): nat {
    if events == [] then 0 else HowMany(events[1..], k) + (if events[0].key == k then 1 else 0)
  }

  /** How many of them have this status as well. */
  function WithStatus<K(==)>(events: seq<Event<K>>, k: K, status: string): nat {
    if events == [] then 0
    else WithStatus(events[1..], k, status) + (if events[0].key == k && events[0].status == status then 1 else 0)
  }

  function LatencySum<K(==)>(events: seq<Event<K>>, k: K): int {
    if events == [] then 0 else LatencySum(events[1..], k) + (if events[0].key == k then events[0].latency else 0)
  }

  /** The largest of the latencies of a key is m. */
  ghost predicate IsLargest<K(!new)>(events: seq<Event<K>>, k: K, m: int) {
    (exists i :: 0 <= i < |events| && events[i].key == k && events[i].latency == m) &&
    forall i :: 0 <= i < |events| && events[i].key == k ==> events[i].latency <= m
  }

  lemma FirstIsLargest<K(!new)>(events: seq<Event<K>>, k: K)
    requires events != [] && events[0].key == k && HowMany(events[1..], k) == 0
    ensures IsLargest(events, k, events[0].latency)
  {
    NoneOfThem(events[1..], k);
    assert forall i :: 1 <= i < |events| ==> events[i] == events[1..][i - 1];
  }

  lemma {:induction false} NoneOfThem<K>(events: seq<Event<K>>, k: K)
    requires HowMany(events, k) == 0
    ensures forall i :: 0 <= i < |events| ==> events[i].key != k
  {
    if events != [] {
      NoneOfThem(events[1..], k);
    }
  }

  /** One more event in front. */
  lemma LargestOfMore<K(!new)>(events: seq<Event<K>>, k: K, m: int)
    requires events != [] && IsLargest(events[1..], k, m)
    ensures IsLargest(events, k, if events[0].key == k && events[0].latency > m then events[0].latency else m)
  {
    var i :| 0 <= i < |events[1..]| && events[1..][i].key == k && events[1..][i].latency == m;
    assert events[i + 1] == events[1..][i];
    forall j | 0 <= j < |events| && events[j].key == k
      ensures events[j].latency <= m || (j == 0 && events[0].key == k)
    {
      assert j > 0 ==> events[1..][j - 1] == events[j];
    }
  }

  /** The counters of the events of a key. */
  predicate CountedBy<K(==)>(r: Row, events: seq<Event<K>>, k: K) {
    r.total == HowMany(events, k) && r.success == WithStatus(events, k, "success") &&
    r.timeout == WithStatus(events, k, "timeout") &&
    r.failed == HowMany(events, k) - WithStatus(events, k, "success") - WithStatus(events, k, "timeout") &&
    r.latency == LatencySum(events, k)
  }

  lemma {:induction false} TallyCounts<K(!new)>(events: seq<Event<K>>, k: K)
    ensures Tally(events, k) == None <==> HowMany(events, k) == 0
    ensures Tally(events, k).Some? ==>
      CountedBy(Tally(events, k).value, events, k) && IsLargest(events, k, Tally(events, k).value.maxLatency)
    ensures Tally(events, k) == None ==>
      WithStatus(events, k, "success") == 0 && WithStatus(events, k, "timeout") == 0 && LatencySum(events, k) == 0
  {
    if events != [] {
      var rest := Tally(events[1..], k);
      TallyCounts(events[1..], k);
      if rest.Some? {
        LargestOfMore(events, k, rest.value.maxLatency);
      } else if events[0].key == k {
        FirstIsLargest(events, k);
      }
    }
  }

  /** Main result: over any list of finished calls, a row grows by the number of calls of its key, of those
      with the status "success", of those with "timeout" and of those with neither, and by the sum of their
      latencies; its maximum becomes the larger one of its own and the largest latency. */
  lemma {:induction false} RunCounts<K(!new)>(t: map<K, Row>, events: seq<Event<K>>, k: K)
    ensures HowMany(events, k) == 0 ==> At(RunSingly(t, events), k) == At(t, k)
    ensures HowMany(events, k) > 0 ==>
      k in RunSingly(t, events) &&
      var before, after := if k in t then t[k] else Row(0, 0, 0, 0, 0, 0), RunSingly(t, events)[k];
      after.total == before.total + HowMany(events, k) &&
      after.success == before.success + WithStatus(events, k, "success") &&
      after.timeout == before.timeout + WithStatus(events, k, "timeout") &&
      after.failed == before.failed + HowMany(events, k) - WithStatus(events, k, "success") -
                      WithStatus(events, k, "timeout") &&
      after.latency == before.latency + LatencySum(events, k) &&
      exists m: int :: IsLargest(events, k, m) &&
        after.maxLatency == if k in t && t[k].maxLatency > m then t[k].maxLatency else m
  {
    SinglyAt(t, events, k);
    TallyCounts(events, k);
  }

  lemma {:induction false} HowManyConcat<K>(a: seq<Event<K>>, b: seq<Event<K>>, k: K)
    ensures HowMany(a + b, k) == HowMany(a, k) + HowMany(b, k)
  {
    if a == [] {
      assert a + b == b;
    } else {
      assert (a + b)[1..] == a[1..] + b;
      HowManyConcat(a[1..], b, k);
    }
  }

  lemma {:induction false} WithStatusConcat<K>(a: seq<Event<K>>, b: seq<Event<K>>, k: K, status: string)
    ensures WithStatus(a + b, k, status) == WithStatus(a, k, status) + WithStatus(b, k, status)
  {
    if a == [] {
      assert a + b == b;
    } else {
      assert (a + b)[1..] == a[1..] + b;
      WithStatusConcat(a[1..], b, k, status);
    }
  }

  lemma {:induction false} LatencySumConcat<K>(a: seq<Event<K>>, b: seq<Event<K>>, k: K)
    ensures LatencySum(a + b, k) == LatencySum(a, k) + LatencySum(b, k)
  {
    if a == [] {
      assert a + b == b;
    } else {
      assert (a + b)[1..] == a[1..] + b;
      LatencySumConcat(a[1..], b, k);
    }
  }

  lemma CountsOfOne<K>(e: Event<K>, k: K, status: string)
    ensures HowMany([e], k) == if e.key == k then 1 else 0
    ensures WithStatus([e], k, status) == if e.key == k && e.status == status then 1 else 0
    ensures LatencySum([e], k) == if e.key == k then e.latency else 0
  {
    assert [e][1..] == [];
  }
}
