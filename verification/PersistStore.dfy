/** The store and the batch writer as they run: statements of at most 128 or 256 rows inside one
    transaction (internal/store/store.go), and deltas that are updated in place while a batch is read
    (internal/app/persist_batch.go). */
module PersistStore {
  import opened Metrics
  import opened PersistBatch
  import opened Requests

  // ---- Statements ----

  /** One INSERT of several rows. */
  method ExecUpsert<K(==)>(rows: map<K, Row>, batch: seq<(K, Row)>) returns (rows': map<K, Row>)
    ensures rows' == UpsertAll(rows, batch)
  {
    rows' := rows;
    for i := 0 to |batch|
      invariant UpsertAll(rows', batch[i..]) == UpsertAll(rows, batch)
    {
      assert batch[i..][1..] == batch[i + 1..];
      rows' := rows'[batch[i].0 := if batch[i].0 in rows' then Merge(rows'[batch[i].0], batch[i].1) else batch[i].1];
    }
  }

  /** `IncrementRPCDailyMetricsBatch` and `IncrementDeviceDailyMetricsBatch`. */
  method IncrementMetricsBatch<K(==)>(rows: map<K, Row>, items: seq<(K, Row)>) returns (rows': map<K, Row>)
    ensures rows' == UpsertAll(rows, items)
  {
    rows' := rows;
    var start := 0;
    while start < |items|
      invariant start <= |items| && rows' == UpsertAll(rows, items[..start])
    {
      var end := start + 256;
      if end > |items| {
        end := |items|;
      }
      assert items[..start] + items[start..end] == items[..end];
      UpsertAllConcat(rows, items[..start], items[start..end]);
      rows' := ExecUpsert(rows', items[start..end]);
      start := end;
    }
    assert items[..start] == items;
  }

  function CompletionsOf(items: seq<Item>, now: nat): seq<LogOp> {
    seq(|items|, i requires 0 <= i < |items| => LogOp(true, items[i], now))
  }

  method ExecComplete(log: Log, batch: seq<Item>, now: nat) returns (log': Log)
    ensures log' == RunLog(log, CompletionsOf(batch, now))
  {
    log' := log;
    ghost var ops := CompletionsOf(batch, now);
    for i := 0 to |batch|
      invariant RunLog(log', ops[i..]) == RunLog(log, ops)
    {
      assert ops[i..][1..] == ops[i + 1..];
      log' := Complete(log', batch[i], now);
    }
  }

  /** `CompleteRPCRequests`. */
  method CompleteRequests(log: Log, items: seq<Item>, now: nat) returns (log': Log)
    ensures log' == RunLog(log, CompletionsOf(items, now))
  {
    log' := log;
    ghost var ops := CompletionsOf(items, now);
    var start := 0;
    while start < |items|
      invariant start <= |items| && log' == RunLog(log, ops[..start])
    {
      var end := start + 128;
      if end > |items| {
        end := |items|;
      }
      assert ops[..start] + ops[start..end] == ops[..end];
      assert ops[start..end] == CompletionsOf(items[start..end], now);
      RunLogConcat(log, ops[..start], ops[start..end]);
      log' := ExecComplete(log', items[start..end], now);
      start := end;
    }
    assert ops[..start] == ops;
  }

  // ---- Deltas ----

  class Delta {
    var total: int
    var success: int
    var failed: int
    var timeout: int
    var latency: int
    var maxLatency: int

    ghost function Value(): Row
      reads this
    {
      Row(total, success, failed, timeout, latency, maxLatency)
    }

    constructor ()
      ensures Value() == ZERO
    {
      total, success, failed, timeout, latency, maxLatency := 0, 0, 0, 0, 0, 0;
    }

    method AddTotals(total: int, success: int, failed: int, timeout: int, latency: int, maxLatency: int)
      modifies this
      ensures Value() == Merge(old(Value()), Row(total, success, failed, timeout, latency, maxLatency))
    {
      this.total := this.total + total;
      this.success := this.success + success;
      this.failed := this.failed + failed;
      this.timeout := this.timeout + timeout;
      this.latency := this.latency + latency;
      if maxLatency > this.maxLatency {
        this.maxLatency := maxLatency;
      }
    }
  }

  method AccumulateMetric(target: Delta, status: string, latency: int)
    modifies target
    ensures target.Value() == Merge(old(target.Value()), One(status, latency))
  {
    var success, failed, timeoutCount := 0, 0, 0;
    if status == "success" {
      success := 1;
    } else if status == "timeout" {
      timeoutCount := 1;
    } else {
      failed := 1;
    }
    target.AddTotals(1, success, failed, timeoutCount, latency, latency);
  }

  ghost predicate Separate<K(!new)>(deltas: map<K, Delta>) {
    forall a: K, b: K :: a in deltas && b in deltas && a != b ==> deltas[a] != deltas[b]
  }

  ghost function Values<K>(deltas: map<K, Delta>): map<K, Row>
    reads deltas.Values
  {
    map k | k in deltas :: deltas[k].Value()
  }

  /** Finds or makes the delta of a key, and adds one call to it. */
  method AddTo<K(==,!new)>(deltas: map<K, Delta>, key: K, status: string, latency: int)
    returns (deltas': map<K, Delta>)
    requires Separate(deltas)
    modifies deltas.Values
    ensures Separate(deltas') && fresh(deltas'.Values - deltas.Values)
    ensures Values(deltas') == Accumulate(old(Values(deltas)), Event(key, status, latency))
  {
    deltas' := deltas;
    if key !in deltas {
      var delta := new Delta();
      deltas' := deltas[key := delta];
    }
    assert deltas'[key] in deltas'.Values;
    AccumulateMetric(deltas'[key], status, latency);
  }

  /** Every delta once, in an arbitrary order. */
  method ItemsOf<K(==,!new)>(deltas: map<K, Delta>) returns (items: seq<(K, Row)>)
    ensures Lists(items, Values(deltas))
  {
    items := [];
    var left := deltas.Keys;
    while left != {}
      invariant left <= deltas.Keys
      invariant forall i :: 0 <= i < |items| ==>
        items[i].0 in deltas && items[i].0 !in left && deltas[items[i].0].Value() == items[i].1
      invariant forall i, j :: 0 <= i < j < |items| ==> items[i].0 != items[j].0
      invariant forall k :: k in deltas && k !in left ==> exists i :: 0 <= i < |items| && items[i].0 == k
      decreases |left|
    {
      var k :| k in left;
      var d := deltas[k];
      ghost var before := items;
      items := items + [(k, Row(d.total, d.success, d.failed, d.timeout, d.latency, d.maxLatency))];
      left := left - {k};
      forall key | key in deltas && key !in left ensures exists i :: 0 <= i < |items| && items[i].0 == key {
        if key == k {
          assert items[|items| - 1].0 == key;
        } else {
          var i :| 0 <= i < |before| && before[i].0 == key;
          assert items[i].0 == key;
        }
      }
    }
  }

  method WriteDeltas<K(==,!new)>(rows: map<K, Row>, deltas: map<K, Delta>, ghost events: seq<Event<K>>)
    returns (rows': map<K, Row>)
    requires Values(deltas) == AccumulateAll(map[], events)
    ensures MetricsAdded(rows, events, rows')
  {
    var items := ItemsOf(deltas);
    AddedBy(rows, events, items);
    rows' := IncrementMetricsBatch(rows, items);
  }

  // ---- Tasks ----

  class Store {
    var log: Log
    var rpc: map<RpcKey, Row>
    var devices: map<DeviceKey, Row>

    ghost function State(): Db
      reads this
    {
      Db(log, rpc, devices)
    }

    constructor (log: Log, rpc: map<RpcKey, Row>, devices: map<DeviceKey, Row>)
      ensures State() == Db(log, rpc, devices)
    {
      this.log, this.rpc, this.devices := log, rpc, devices;
    }

    /** Not ok is an error. */
    method RunPersistTask(t: Task, now: nat) returns (ok: bool)
      modifies this
      ensures ok == (t.kind != Unknown) && State() == RunTask(old(State()), t, now)
    {
      match t.kind
      case CreateRequest =>
        log := Create(log, ItemOf(t));
        return true;
      case CompleteRequest =>
        log := Complete(log, ItemOf(t), now);
        return true;
      case RpcMetric =>
        rpc := ExecUpsert(rpc, [(RpcEvent(t).key, One(t.status, t.latency))]);
        return true;
      case DeviceMetric =>
        devices := ExecUpsert(devices, [(DeviceEvent(t).key, One(t.status, t.latency))]);
        return true;
      case Unknown =>
        return false;
    }

    method RunPersistBatch(tasks: seq<Task>, now: nat) returns (ok: bool)
      modifies this
      ensures ok == AllKnown(tasks)
      ensures ok ==> BatchResult(old(State()), tasks, now, State())
      ensures !ok ==> State() == old(State()).(log := CreatesUntilUnknown(old(log), tasks))
    {
      var completed, rpcMetrics, deviceMetrics := [], map[], map[];
      ok, completed, rpcMetrics, deviceMetrics := Collect(tasks, now);
      if ok {
        assert [] + Completions(LogOps(tasks, now)) == Completions(LogOps(tasks, now));
        Flush(completed, rpcMetrics, deviceMetrics, now, tasks);
      }
    }

    /** The three transactions at the end of a batch. */
    method Flush(completed: seq<Item>, rpcMetrics: map<RpcKey, Delta>, deviceMetrics: map<DeviceKey, Delta>, now: nat,
                 ghost tasks: seq<Task>)
      requires Values(rpcMetrics) == AccumulateAll(map[], RpcEvents(tasks))
      requires Values(deviceMetrics) == AccumulateAll(map[], DeviceEvents(tasks))
      modifies this
      ensures log == RunLog(old(log), CompletionsOf(completed, now))
      ensures MetricsAdded(old(rpc), RpcEvents(tasks), rpc)
      ensures MetricsAdded(old(devices), DeviceEvents(tasks), devices)
    {
      var log' := CompleteRequests(log, completed, now);
      var rpc' := WriteDeltas(rpc, rpcMetrics, RpcEvents(tasks));
      var devices' := WriteDeltas(devices, deviceMetrics, DeviceEvents(tasks));
      log, rpc, devices := log', rpc', devices';
    }

    /** The loop over the tasks of a batch. */
    method Collect(tasks: seq<Task>, now: nat)
      returns (ok: bool, completed: seq<Item>, rpcMetrics: map<RpcKey, Delta>, deviceMetrics: map<DeviceKey, Delta>)
      modifies `log
      ensures ok == AllKnown(tasks)
      ensures !ok ==> log == CreatesUntilUnknown(old(log), tasks)
      ensures ok ==>
        Progress(log, CompletionsOf(completed, now), Values(rpcMetrics), Values(deviceMetrics)) ==
        ByTable(Progress(old(log), [], map[], map[]), tasks, now)
    {
      completed, rpcMetrics, deviceMetrics := [], map[], map[];
      ghost var start := Progress(log, [], map[], map[]);
      assert CompletionsOf([], now) == [] && tasks[0..] == tasks;
      assert Values(rpcMetrics) == map[] && Values(deviceMetrics) == map[];
      for i := 0 to |tasks|
        invariant forall j :: 0 <= j < i ==> tasks[j].kind != Unknown
        invariant CreatesUntilUnknown(log, tasks[i..]) == CreatesUntilUnknown(old(log), tasks)
        invariant Separate(rpcMetrics) && Separate(deviceMetrics) && rpcMetrics.Values !! deviceMetrics.Values
        invariant fresh(rpcMetrics.Values) && fresh(deviceMetrics.Values)
        invariant CollectAll(Progress(log, CompletionsOf(completed, now), Values(rpcMetrics), Values(deviceMetrics)),
                             tasks[i..], now) == CollectAll(start, tasks, now)
      {
        assert tasks[i..][1..] == tasks[i + 1..];
        if tasks[i].kind == Unknown {
          return false, completed, rpcMetrics, deviceMetrics;
        }
        completed, rpcMetrics, deviceMetrics := CollectTask(tasks[i], now, completed, rpcMetrics, deviceMetrics);
      }
      CollectedByTable(start, tasks, now);
      ok := true;
    }

    /** The switch of that loop. */
    method CollectTask(task: Task, now: nat, completed: seq<Item>, rpcMetrics: map<RpcKey, Delta>,
                       deviceMetrics: map<DeviceKey, Delta>)
      returns (completed': seq<Item>, rpcMetrics': map<RpcKey, Delta>, deviceMetrics': map<DeviceKey, Delta>)
      requires task.kind != Unknown
      requires Separate(rpcMetrics) && Separate(deviceMetrics) && rpcMetrics.Values !! deviceMetrics.Values
      modifies `log, rpcMetrics.Values, deviceMetrics.Values
      ensures Separate(rpcMetrics') && Separate(deviceMetrics') && rpcMetrics'.Values !! deviceMetrics'.Values
      ensures fresh(rpcMetrics'.Values - rpcMetrics.Values) && fresh(deviceMetrics'.Values - deviceMetrics.Values)
      ensures log == if task.kind == CreateRequest then Create(old(log), ItemOf(task)) else old(log)
      ensures Progress(log, CompletionsOf(completed', now), Values(rpcMetrics'), Values(deviceMetrics')) ==
              CollectOne(Progress(old(log), CompletionsOf(completed, now), old(Values(rpcMetrics)),
                                  old(Values(deviceMetrics))), task, now)
    {
      completed', rpcMetrics', deviceMetrics' := completed, rpcMetrics, deviceMetrics;
      if task.kind == CreateRequest {
        log := Create(log, ItemOf(task));
      } else if task.kind == CompleteRequest {
        completed' := completed + [ItemOf(task)];
        assert CompletionsOf(completed', now) == CompletionsOf(completed, now) + [LogOp(true, ItemOf(task), now)];
      } else if task.kind == RpcMetric {
        rpcMetrics' := AddTo(rpcMetrics, RpcEvent(task).key, task.status, task.latency);
      } else {
        deviceMetrics' := AddTo(deviceMetrics, DeviceEvent(task).key, task.status, task.latency);
      }
    }
  }
}
