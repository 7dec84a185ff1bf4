/** Daily metric rows: the upserts that add to them (internal/store/store.go), the in-memory deltas
    that a batch collects first (internal/app/persist_batch.go), and why the two ways to get there
    leave the same rows. K is the primary key of the table, which is also the key of the batch. */
module Metrics {
  import opened Wrappers

  /** The counters of a row, or of a change to a row. */
  datatype Row = Row(total: int, success: int, failed: int, timeout: int, latency: int, maxLatency: int)

  const ZERO := Row(0, 0, 0, 0, 0, 0)

  /** One finished call. */
  datatype Event<K> = Event(key: K, status: string, latency: int)

  function Max(a: int, b: int): int {
    if a > b then a else b
  }

  function Merge(a: Row, b: Row): Row {
    Row(a.total + b.total, a.success + b.success, a.failed + b.failed, a.timeout + b.timeout,
        a.latency + b.latency, Max(a.maxLatency, b.maxLatency))
  }

  function One(status: string, latency: int): Row {
    Row(1, if status == "success" then 1 else 0, if status == "success" || status == "timeout" then 0 else 1,
        if status == "timeout" then 1 else 0, latency, latency)
  }

  /** INSERT … ON DUPLICATE KEY UPDATE, for one row. */
  function Upsert<K>(t: map<K, Row>, key: K, d: Row): map<K, Row> {
    t[key := if key in t then Merge(t[key], d) else d]
  }

  /** The rows of one statement, or of several, one after the other. */
  function UpsertAll<K>(t: map<K, Row>, items: seq<(K, Row)>): map<K, Row>
    decreases |items|
  {
    if items == [] then t else UpsertAll(Upsert(t, items[0].0, items[0].1), items[1..])
  }

  function RunSingly<K>(t: map<K, Row>, events: seq<Event<K>>): map<K, Row>
    decreases |events|
  {
    if events == [] then t
    else RunSingly(Upsert(t, events[0].key, One(events[0].status, events[0].latency)), events[1..])
  }

  /** A batch starts each of its deltas from zero. */
  function Accumulate<K>(deltas: map<K, Row>, e: Event<K>): map<K, Row> {
    deltas[e.key := Merge(if e.key in deltas then deltas[e.key] else ZERO, One(e.status, e.latency))]
  }

  function AccumulateAll<K>(deltas: map<K, Row>, events: seq<Event<K>>): map<K, Row>
    decreases |events|
  {
    if events == [] then deltas else AccumulateAll(Accumulate(deltas, events[0]), events[1..])
  }

  /** items is one of the orders in which the deltas can be visited. */
  ghost predicate Lists<K(!new)>(items: seq<(K, Row)>, deltas: map<K, Row>) {
    (forall i :: 0 <= i < |items| ==> items[i].0 in deltas && deltas[items[i].0] == items[i].1) &&
    (forall i, j :: 0 <= i < j < |items| ==> items[i].0 != items[j].0) &&
    (forall k: K :: k in deltas ==> exists i :: 0 <= i < |items| && items[i].0 == k)
  }

  // ---- One key at a time ----

  function At<K>(t: map<K, Row>, k: K): Option<Row> {
    if k in t then Some(t[k]) else None
  }

  function Plus(a: Option<Row>, b: Option<Row>): Option<Row> {
    if a == None then b else if b == None then a else Some(Merge(a.value, b.value))
  }

  /** What the events say about one key. */
  function Tally<K(==)>(events: seq<Event<K>>, k: K): Option<Row> {
    if events == [] then None
    else
      var rest := Tally(events[1..], k);
      if events[0].key == k then Plus(Some(One(events[0].status, events[0].latency)), rest) else rest
  }

  function Find<K(==)>(items: seq<(K, Row)>, k: K): Option<Row> {
    if items == [] then None else if items[0].0 == k then Some(items[0].1) else Find(items[1..], k)
  }

  lemma PlusAssociates(a: Option<Row>, b: Option<Row>, c: Option<Row>)
    ensures Plus(Plus(a, b), c) == Plus(a, Plus(b, c))
  {
  }

  lemma {:induction false} SinglyAt<K>(t: map<K, Row>, events: seq<Event<K>>, k: K)
    ensures At(RunSingly(t, events), k) == Plus(At(t, k), Tally(events, k))
    decreases |events|
  {
    if events != [] {
      var d := One(events[0].status, events[0].latency);
      var t' := Upsert(t, events[0].key, d);
      SinglyAt(t', events[1..], k);
      if events[0].key == k {
        PlusAssociates(At(t, k), Some(d), Tally(events[1..], k));
      }
    }
  }

  lemma {:induction false} AccumulatedAt<K>(deltas: map<K, Row>, events: seq<Event<K>>, k: K)
    ensures At(AccumulateAll(deltas, events), k) ==
            if Tally(events, k) == None then At(deltas, k)
            else Some(Merge(if k in deltas then deltas[k] else ZERO, Tally(events, k).value))
    decreases |events|
  {
    if events != [] {
      AccumulatedAt(Accumulate(deltas, events[0]), events[1..], k);
    }
  }

  lemma {:induction false} NotFound<K>(items: seq<(K, Row)>, k: K)
    requires forall i :: 0 <= i < |items| ==> items[i].0 != k
    ensures Find(items, k) == None
  {
    if items != [] {
      NotFound(items[1..], k);
    }
  }

  lemma {:induction false} FoundAt<K>(items: seq<(K, Row)>, i: nat)
    requires i < |items| && forall a, b :: 0 <= a < b < |items| ==> items[a].0 != items[b].0
    ensures Find(items, items[i].0) == Some(items[i].1)
  {
    if i > 0 {
      assert items[0].0 != items[i].0;
      FoundAt(items[1..], i - 1);
    }
  }

  lemma {:induction false} UpsertedAt<K>(t: map<K, Row>, items: seq<(K, Row)>, k: K)
    requires forall a, b :: 0 <= a < b < |items| ==> items[a].0 != items[b].0
    ensures At(UpsertAll(t, items), k) == Plus(At(t, k), Find(items, k))
    decreases |items|
  {
    if items != [] {
      UpsertedAt(Upsert(t, items[0].0, items[0].1), items[1..], k);
      if items[0].0 == k {
        NotFound(items[1..], k);
      }
    }
  }

  lemma ListedAt<K(!new)>(items: seq<(K, Row)>, deltas: map<K, Row>, k: K)
    requires Lists(items, deltas)
    ensures Find(items, k) == At(deltas, k)
  {
    if k in deltas {
      var i :| 0 <= i < |items| && items[i].0 == k;
      FoundAt(items, i);
    } else {
      NotFound(items, k);
    }
  }

  predicate Touched<K(==)>(events: seq<Event<K>>, k: K) {
    exists i :: 0 <= i < |events| && events[i].key == k
  }

  predicate SomeNonNegative<K(==)>(events: seq<Event<K>>, k: K) {
    exists i :: 0 <= i < |events| && events[i].key == k && events[i].latency >= 0
  }

  lemma {:induction false} TallySigns<K>(events: seq<Event<K>>, k: K)
    ensures Tally(events, k).Some? <==> Touched(events, k)
    ensures Tally(events, k).Some? ==> (Tally(events, k).value.maxLatency >= 0 <==> SomeNonNegative(events, k))
  {
    if events != [] {
      TallySigns(events[1..], k);
      assert forall i :: 0 < i < |events| ==> events[i] == events[1..][i - 1];
      if Touched(events[1..], k) {
        var i :| 0 <= i < |events[1..]| && events[1..][i].key == k;
        assert events[i + 1].key == k;
      }
      if SomeNonNegative(events[1..], k) {
        var i :| 0 <= i < |events[1..]| && events[1..][i].key == k && events[1..][i].latency >= 0;
        assert events[i + 1].key == k && events[i + 1].latency >= 0;
      }
    }
  }

  // ---- Main results ----

  /** The row of k gets the same maximum either way. */
  ghost predicate MaximumAgrees<K(!new)>(t: map<K, Row>, events: seq<Event<K>>, k: K) {
    (k in t && t[k].maxLatency >= 0) || SomeNonNegative(events, k)
  }

  /** The row of k after a batch, and after its events one at a time. */
  lemma RowsAt<K(!new)>(t: map<K, Row>, events: seq<Event<K>>, items: seq<(K, Row)>, k: K)
    requires Lists(items, AccumulateAll(map[], events))
    ensures At(RunSingly(t, events), k) == Plus(At(t, k), Tally(events, k))
    ensures At(UpsertAll(t, items), k) ==
            if Tally(events, k) == None then At(t, k) else Plus(At(t, k), Some(Merge(ZERO, Tally(events, k).value)))
  {
    SinglyAt(t, events, k);
    AccumulatedAt(map[], events, k);
    UpsertedAt(t, items, k);
    ListedAt(items, AccumulateAll(map[], events), k);
  }

  lemma MergeFromZero(a: Option<Row>, d: Row)
    ensures Plus(a, Some(Merge(ZERO, d))) == Plus(a, Some(d)) <==>
            (d.maxLatency >= 0 || (a.Some? && a.value.maxLatency >= 0))
    ensures Plus(a, Some(Merge(ZERO, d))).value.(maxLatency := 0) == Plus(a, Some(d)).value.(maxLatency := 0)
  {
  }

  lemma AgreeAt<K(!new)>(t: map<K, Row>, events: seq<Event<K>>, items: seq<(K, Row)>, k: K)
    requires Lists(items, AccumulateAll(map[], events))
    ensures At(UpsertAll(t, items), k) == At(RunSingly(t, events), k) <==>
            (Touched(events, k) ==> MaximumAgrees(t, events, k))
    ensures (At(UpsertAll(t, items), k) == None) == (At(RunSingly(t, events), k) == None)
    ensures At(UpsertAll(t, items), k).Some? ==>
            At(UpsertAll(t, items), k).value.(maxLatency := 0) == At(RunSingly(t, events), k).value.(maxLatency := 0)
  {
    RowsAt(t, events, items, k);
    TallySigns(events, k);
    if Tally(events, k).Some? {
      MergeFromZero(At(t, k), Tally(events, k).value);
    }
  }

  lemma SameEverywhere<K(!new)>(a: map<K, Row>, b: map<K, Row>)
    ensures a == b <==> forall k: K :: At(a, k) == At(b, k)
  {
    if forall k: K :: At(a, k) == At(b, k) {
      assert forall k: K :: k in a <==> k in b by {
        forall k: K ensures k in a <==> k in b {
          assert At(a, k) == At(b, k);
        }
      }
      forall k: K | k in a ensures a[k] == b[k] {
        assert At(a, k) == At(b, k);
      }
    }
  }

  /** A batch, whatever the order in which its deltas are visited, leaves the table that running its
      events one at a time leaves, exactly if every row it touches has, or gets, a latency of 0 or
      more. Every other counter agrees in any case (AgreeAt). */
  lemma BatchIsSequential<K(!new)>(t: map<K, Row>, events: seq<Event<K>>, items: seq<(K, Row)>)
    requires Lists(items, AccumulateAll(map[], events))
    ensures UpsertAll(t, items) == RunSingly(t, events) <==>
            forall k: K :: Touched(events, k) ==> MaximumAgrees(t, events, k)
  {
    SameEverywhere(UpsertAll(t, items), RunSingly(t, events));
    forall k: K
      ensures At(UpsertAll(t, items), k) == At(RunSingly(t, events), k) <==>
              (Touched(events, k) ==> MaximumAgrees(t, events, k))
    {
      AgreeAt(t, events, items, k);
    }
  }

  lemma NonNegativeBatch<K(!new)>(t: map<K, Row>, events: seq<Event<K>>, items: seq<(K, Row)>)
    requires Lists(items, AccumulateAll(map[], events))
    requires forall i :: 0 <= i < |events| ==> events[i].latency >= 0
    ensures UpsertAll(t, items) == RunSingly(t, events)
  {
    BatchIsSequential(t, events, items);
  }

  /** The deltas of a single event. */
  lemma OneDelta(e: Event<int>)
    ensures AccumulateAll(map[], [e]) == map[e.key := Merge(ZERO, One(e.status, e.latency))]
    ensures Lists([(e.key, Merge(ZERO, One(e.status, e.latency)))], AccumulateAll(map[], [e]))
  {
    var items := [(e.key, Merge(ZERO, One(e.status, e.latency)))];
    assert [e][1..] == [];
    assert AccumulateAll(map[], [e]) == AccumulateAll(Accumulate(map[], e), []);
    assert items[0].0 == e.key;
  }

  /** A single event, and a single delta, on an empty table. */
  lemma OneRow(e: Event<int>, delta: Row)
    ensures RunSingly(map[], [e]) == map[e.key := One(e.status, e.latency)]
    ensures UpsertAll(map[], [(e.key, delta)]) == map[e.key := delta]
  {
    assert [e][1..] == [] && [(e.key, delta)][1..] == [];
  }

  /** One negative latency on an empty table: the batch stores a maximum of 0. */
  lemma NegativeLatencyDiffers(status: string)
    ensures var e: Event<int> := Event(0, status, -1);
            var items: seq<(int, Row)> := [(0, Merge(ZERO, One(status, -1)))];
            Lists(items, AccumulateAll(map[], [e])) && UpsertAll(map[], items) != RunSingly(map[], [e])
  {
    var e: Event<int> := Event(0, status, -1);
    var delta := Merge(ZERO, One(status, -1));
    OneDelta(e);
    OneRow(e, delta);
    assert delta.maxLatency == 0;
    assert map[0 := delta][0] != map[0 := One(status, -1)][0];
  }

  lemma {:induction false} UpsertAllConcat<K>(t: map<K, Row>, a: seq<(K, Row)>, b: seq<(K, Row)>)
    ensures UpsertAll(t, a + b) == UpsertAll(UpsertAll(t, a), b)
    decreases |a|
  {
    if a == [] {
      assert a + b == b;
    } else {
      assert (a + b)[1..] == a[1..] + b;
      UpsertAllConcat(Upsert(t, a[0].0, a[0].1), a[1..], b);
    }
  }

  lemma {:induction false} RunSinglyConcat<K>(t: map<K, Row>, a: seq<Event<K>>, b: seq<Event<K>>)
    ensures RunSingly(t, a + b) == RunSingly(RunSingly(t, a), b)
    decreases |a|
  {
    if a == [] {
      assert a + b == b;
    } else {
      assert (a + b)[1..] == a[1..] + b;
      RunSinglyConcat(Upsert(t, a[0].key, One(a[0].status, a[0].latency)), a[1..], b);
    }
  }

  lemma {:induction false} TallyConcat<K>(a: seq<Event<K>>, b: seq<Event<K>>, k: K)
    ensures Tally(a + b, k) == Plus(Tally(a, k), Tally(b, k))
  {
    if a == [] {
      assert a + b == b;
    } else {
      assert (a + b)[1..] == a[1..] + b;
      TallyConcat(a[1..], b, k);
      PlusAssociates(Some(One(a[0].status, a[0].latency)), Tally(a[1..], k), Tally(b, k));
    }
  }

  /** What a batch adds to the row of a key. */
  function FromZero(d: Option<Row>): Option<Row> {
    if d == None then None else Some(Merge(ZERO, d.value))
  }

  lemma FromZeroOnce(a: Option<Row>, b: Option<Row>)
    ensures Plus(FromZero(a), FromZero(b)) == FromZero(Plus(a, b))
  {
  }

  lemma SplitRowsAt<K(!new)>(t: map<K, Row>, a: seq<Event<K>>, b: seq<Event<K>>,
                             first: seq<(K, Row)>, second: seq<(K, Row)>, k: K)
    requires Lists(first, AccumulateAll(map[], a)) && Lists(second, AccumulateAll(map[], b))
    ensures At(UpsertAll(UpsertAll(t, first), second), k) == Plus(At(t, k), FromZero(Tally(a + b, k)))
  {
    RowsAt(t, a, first, k);
    RowsAt(UpsertAll(t, first), b, second, k);
    TallyConcat(a, b, k);
    PlusAssociates(At(t, k), FromZero(Tally(a, k)), FromZero(Tally(b, k)));
    FromZeroOnce(Tally(a, k), Tally(b, k));
  }

  /** Splitting events into two batches, each with its own order, changes nothing either: the rows are
      those of all events one at a time, exactly under the condition for one batch. */
  lemma SplitBatches<K(!new)>(t: map<K, Row>, a: seq<Event<K>>, b: seq<Event<K>>,
                              first: seq<(K, Row)>, second: seq<(K, Row)>)
    requires Lists(first, AccumulateAll(map[], a)) && Lists(second, AccumulateAll(map[], b))
    ensures UpsertAll(UpsertAll(t, first), second) == RunSingly(t, a + b) <==>
            forall k: K :: Touched(a + b, k) ==> MaximumAgrees(t, a + b, k)
  {
    var after := UpsertAll(UpsertAll(t, first), second);
    forall k: K
      ensures At(after, k) == At(RunSingly(t, a + b), k) <==>
              (Touched(a + b, k) ==> MaximumAgrees(t, a + b, k))
    {
      SplitRowsAt(t, a, b, first, second, k);
      SinglyAt(t, a + b, k);
      TallySigns(a + b, k);
      if Tally(a + b, k).Some? {
        MergeFromZero(At(t, k), Tally(a + b, k).value);
      }
    }
    SameEverywhere(after, RunSingly(t, a + b));
  }
}
