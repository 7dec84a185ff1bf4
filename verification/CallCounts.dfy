/** What the metric tables count once nothing is on its way, told from the calls and from what the hub answered
    (internal/app/app.go, internal/app/persist_batch.go, internal/store/store.go). */
module CallCounts {
  import opened CallRows
  import opened MetricCounts
  import opened Metrics
  import opened PersistBatch
  import opened Pipeline
  import opened PipelineRuns
  import opened PipelineTables

  /** A client replied, with the status "success" or with none. */
  predicate Succeeded(c: Call) {
    c.outcome.Replied? && (c.outcome.status == "" || c.outcome.status == "success")
  }

  /** The deadline passed, or a client replied with the status "timeout". */
  predicate TimedOut(c: Call) {
    Late(c) || (c.outcome.Replied? && c.outcome.status == "timeout")
  }

  function LatencyOf(c: Call): int {
    if c.outcome.Replied? then c.outcome.latency else 0
  }

  predicate ForRpc(c: Call, k: RpcKey) {
    !c.outcome.Refused? && CalledClient(c, k.client) && k.group == c.group && k.action == c.action && k.day == c.rpcDay
  }

  /** Only calls with a known client count for a device. */
  predicate ForDevice(c: Call, k: DeviceKey) {
    !c.outcome.Refused? && k.client != "" && CalledClient(c, k.client) && k.group == c.group &&
    k.day == if c.outcome.Failed? then c.rpcDay else c.deviceDay
  }

  function Tick(b: bool): nat {
    if b then 1 else 0
  }

  /** How many calls count for a row, how many of them succeeded or timed out, and how long they took. */
  datatype Sums = Sums(calls: int, successes: int, timeouts: int, latency: int)

  function WithCall(s: Sums, c: Call, counts: bool): Sums {
    if counts then
      Sums(s.calls + 1, s.successes + Tick(Succeeded(c)), s.timeouts + Tick(TimedOut(c)), s.latency + LatencyOf(c))
    else s
  }

  function RpcSums(calls: seq<Call>, k: RpcKey): Sums {
    if calls == [] then Sums(0, 0, 0, 0)
    else
      var c := calls[|calls| - 1];
      WithCall(RpcSums(calls[..|calls| - 1], k), c, ForRpc(c, k))
  }

  function DeviceSums(calls: seq<Call>, k: DeviceKey): Sums {
    if calls == [] then Sums(0, 0, 0, 0)
    else
      var c := calls[|calls| - 1];
      WithCall(DeviceSums(calls[..|calls| - 1], k), c, ForDevice(c, k))
  }

  // ---- From events to calls ----

  /** The sums are those of some events. */
  predicate Counts<K(==)>(s: Sums, events: seq<Event<K>>, k: K) {
    s.calls == HowMany(events, k) && s.successes == WithStatus(events, k, "success") &&
    s.timeouts == WithStatus(events, k, "timeout") && s.latency == LatencySum(events, k)
  }

  lemma CountsOneMore<K>(s: Sums, events: seq<Event<K>>, e: Event<K>, k: K, c: Call)
    requires Counts(s, events, k) && e.latency == LatencyOf(c)
    requires (e.status == "success" <==> Succeeded(c)) && (e.status == "timeout" <==> TimedOut(c))
    ensures Counts(WithCall(s, c, e.key == k), events + [e], k)
  {
    HowManyConcat(events, [e], k);
    WithStatusConcat(events, [e], k, "success");
    WithStatusConcat(events, [e], k, "timeout");
    LatencySumConcat(events, [e], k);
    CountsOfOne(e, k, "success");
    CountsOfOne(e, k, "timeout");
  }

  /** The metrics of one call. */
  lemma {:induction false} EventsOfCall(c: Call)
    requires !c.outcome.Refused?
    ensures var m := Emitted(c)[1]; RpcEvents(Emitted(c)) == [RpcEvent(m)]
    ensures DeviceEvents(Emitted(c)) == if |Emitted(c)| == 3 then [DeviceEvent(Emitted(c)[2])] else []
  {
    var t, m := Emitted(c)[0], Emitted(c)[1];
    if |Emitted(c)| == 2 {
      assert Emitted(c) == [t, m];
      TwoTasks(t, m);
    } else {
      assert Emitted(c) == [t, m, Emitted(c)[2]];
      ThreeTasks(t, m, Emitted(c)[2]);
    }
  }

  lemma StatusOfCall(c: Call)
    requires !c.outcome.Refused?
    ensures Emitted(c)[0].status == "success" <==> Succeeded(c)
    ensures Emitted(c)[0].status == "timeout" <==> TimedOut(c)
  {
    TasksOfCall(c);
  }

  lemma {:induction false} RpcCountsOneMore(s: Sums, events: seq<Event<RpcKey>>, k: RpcKey, c: Call)
    requires Counts(s, events, k)
    ensures Counts(WithCall(s, c, ForRpc(c, k)), events + RpcEvents(Emitted(c)), k)
  {
    if c.outcome.Refused? {
      assert events + [] == events;
    } else {
      TasksOfCall(c);
      StatusOfCall(c);
      EventsOfCall(c);
      CountsOneMore(s, events, RpcEvent(Emitted(c)[1]), k, c);
    }
  }

  lemma {:induction false} DeviceCountsOneMore(s: Sums, events: seq<Event<DeviceKey>>, k: DeviceKey, c: Call)
    requires Counts(s, events, k)
    ensures Counts(WithCall(s, c, ForDevice(c, k)), events + DeviceEvents(Emitted(c)), k)
  {
    if c.outcome.Refused? {
      assert events + [] == events;
    } else {
      TasksOfCall(c);
      StatusOfCall(c);
      EventsOfCall(c);
      if |Emitted(c)| == 3 {
        CountsOneMore(s, events, DeviceEvent(Emitted(c)[2]), k, c);
      } else {
        assert events + [] == events;
      }
    }
  }

  lemma {:induction false} RpcSumsCount(calls: seq<Call>, k: RpcKey)
    ensures Counts(RpcSums(calls, k), RpcEvents(AllEmitted(calls)), k)
  {
    if calls != [] {
      var c, others := calls[|calls| - 1], calls[..|calls| - 1];
      RpcSumsCount(others, k);
      RpcEventsConcat(AllEmitted(others), Emitted(c));
      RpcCountsOneMore(RpcSums(others, k), RpcEvents(AllEmitted(others)), k, c);
    }
  }

  lemma {:induction false} DeviceSumsCount(calls: seq<Call>, k: DeviceKey)
    ensures Counts(DeviceSums(calls, k), DeviceEvents(AllEmitted(calls)), k)
  {
    if calls != [] {
      var c, others := calls[|calls| - 1], calls[..|calls| - 1];
      DeviceSumsCount(others, k);
      DeviceEventsConcat(AllEmitted(others), Emitted(c));
      DeviceCountsOneMore(DeviceSums(others, k), DeviceEvents(AllEmitted(others)), k, c);
    }
  }

  // ---- Main results ----

  /** The counters of the row of k have grown by these sums. */
  ghost predicate Grown<K(!new)>(before: map<K, Row>, after: map<K, Row>, k: K, s: Sums) {
    if s.calls == 0 then
      (k in after <==> k in before) && (k in before ==> after[k].(maxLatency := 0) == before[k].(maxLatency := 0))
    else
      k in after &&
      var b := if k in before then before[k] else Row(0, 0, 0, 0, 0, 0);
      after[k].total == b.total + s.calls && after[k].success == b.success + s.successes &&
      after[k].timeout == b.timeout + s.timeouts &&
      after[k].failed == b.failed + s.calls - s.successes - s.timeouts && after[k].latency == b.latency + s.latency
  }

  lemma {:induction false} GrownBy<K(!new)>(before: map<K, Row>, after: map<K, Row>, events: seq<Event<K>>, k: K,
                                            s: Sums)
    requires SameCounters(after, RunSingly(before, events)) && Counts(s, events, k)
    ensures Grown(before, after, k, s)
  {
    RunCounts(before, events, k);
    assert Counters(At(after, k)) == Counters(At(RunSingly(before, events), k));
  }

  /** Main result: once the pipeline is quiet, every row of both metric tables has grown by the number of its
      calls, of those that succeeded, of those that timed out and of all others, and by their latencies. */
  lemma {:induction false} QuietCounts(p: Pipe, workers: nat, capacity: nat, moves: seq<Move>, k: RpcKey, d: DeviceKey)
    requires Start(p, workers) && After(p, capacity, moves).Some? && Quiet(After(p, capacity, moves).value)
    ensures var q := After(p, capacity, moves).value;
            Grown(p.db.rpc, q.db.rpc, k, RpcSums(q.calls, k)) &&
            Grown(p.db.devices, q.db.devices, d, DeviceSums(q.calls, d))
  {
    var q := After(p, capacity, moves).value;
    var tasks := AllEmitted(q.calls);
    QuietTablesAreSequential(p, workers, capacity, moves);
    RpcSumsCount(q.calls, k);
    DeviceSumsCount(q.calls, d);
    GrownBy(p.db.rpc, q.db.rpc, RpcEvents(tasks), k, RpcSums(q.calls, k));
    GrownBy(p.db.devices, q.db.devices, DeviceEvents(tasks), d, DeviceSums(q.calls, d));
  }
}
