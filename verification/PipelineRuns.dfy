/** Whole runs of the pipeline: what the tables hold once nothing is on its way any more
    (internal/app/app.go, internal/app/persist_batch.go, internal/store/store.go). */
module PipelineRuns {
  import opened Metrics
  import opened PersistBatch
  import opened Pipeline
  import opened PipelineTables
  import opened Requests
  import opened Wrappers

  ghost predicate Good(p: Pipe, init: Db) {
    TablesFollow(p, init) && PlainEverywhere(p) && forall t: Table :: Conserved(p, t)
  }

  lemma {:induction false} PoolOfIdle(n: nat, t: Table)
    ensures Pool(seq(n, _ => IDLE), t) == multiset{}
  {
    PoolOfEmpty(seq(n, _ => IDLE), t);
  }

  lemma StartIsGood(p: Pipe, workers: nat)
    requires Start(p, workers)
    ensures Good(p, p.db)
  {
    forall t: Table ensures Conserved(p, t) {
      PoolOfIdle(workers, t);
    }
  }

  lemma StepIsGood(p: Pipe, capacity: nat, m: Move, init: Db)
    requires Enabled(p, capacity, m) && Good(p, init)
    ensures Good(Step(p, capacity, m), init)
  {
    StepFollows(p, capacity, m, init);
    StaysPlain(p, capacity, m);
    forall t: Table ensures Conserved(Step(p, capacity, m), t) {
      StepConserves(p, capacity, m, t);
    }
  }

  lemma {:induction false} RunIsGood(p: Pipe, workers: nat, capacity: nat, moves: seq<Move>)
    requires Start(p, workers) && After(p, capacity, moves).Some?
    ensures Good(After(p, capacity, moves).value, p.db)
    decreases |moves|
  {
    if moves == [] {
      StartIsGood(p, workers);
    } else {
      RunIsGood(p, workers, capacity, moves[..|moves| - 1]);
      StepIsGood(After(p, capacity, moves[..|moves| - 1]).value, capacity, moves[|moves| - 1], p.db);
    }
  }

  lemma QuietIsDone(p: Pipe, t: Table)
    requires Quiet(p) && Conserved(p, t)
    ensures multiset(Done(p, t)) == multiset(AllEmitted(p.calls))
  {
    PoolOfEmpty(p.workers, t);
    forall x: Task ensures multiset(Done(p, t))[x] == multiset(AllEmitted(p.calls))[x] {
      assert Balance(p, t, x) == 0;
    }
  }

  lemma SamePermutation(a: seq<Task>, b: seq<Task>)
    requires multiset(a) == multiset(b)
    ensures NonNegative(a) == NonNegative(b)
  {
    assert forall i :: 0 <= i < |a| ==> a[i] in multiset(a);
    assert forall i :: 0 <= i < |b| ==> b[i] in multiset(b);
    assert forall x: Task :: x in a <==> x in b by {
      forall x: Task ensures x in a <==> x in b {
        assert x in multiset(a) <==> x in multiset(b);
      }
    }
  }

  // ---- Main results ----

  lemma QuietRpcRows(q: Pipe, init: Db)
    requires Good(q, init) && Quiet(q)
    ensures var tasks := AllEmitted(q.calls);
            MetricFollows(q.db.rpc, init.rpc, RpcEvents(tasks), NonNegative(tasks))
  {
    var tasks := AllEmitted(q.calls);
    assert Conserved(q, RpcTable);
    QuietIsDone(q, RpcTable);
    SamePermutation(q.doneRpc, tasks);
    SameEvents(q.doneRpc, tasks);
    SameRows(init.rpc, RpcEvents(q.doneRpc), RpcEvents(tasks));
  }

  lemma QuietDeviceRows(q: Pipe, init: Db)
    requires Good(q, init) && Quiet(q)
    ensures var tasks := AllEmitted(q.calls);
            MetricFollows(q.db.devices, init.devices, DeviceEvents(tasks), NonNegative(tasks))
  {
    var tasks := AllEmitted(q.calls);
    assert Conserved(q, DeviceTable);
    QuietIsDone(q, DeviceTable);
    SamePermutation(q.doneDevices, tasks);
    SameEvents(q.doneDevices, tasks);
    SameRows(init.devices, DeviceEvents(q.doneDevices), DeviceEvents(tasks));
  }

  /** Whichever way the tasks went, and in whatever order and batches: once the pipeline is quiet, the
      metric tables are those of writing each call's metrics one at a time, in the order of the calls;
      in every counter, and in the maxima too if no latency was negative. */
  lemma QuietTablesAreSequential(p: Pipe, workers: nat, capacity: nat, moves: seq<Move>)
    requires Start(p, workers) && After(p, capacity, moves).Some? && Quiet(After(p, capacity, moves).value)
    ensures var q := After(p, capacity, moves).value;
            var tasks := AllEmitted(q.calls);
            MetricFollows(q.db.rpc, p.db.rpc, RpcEvents(tasks), NonNegative(tasks)) &&
            MetricFollows(q.db.devices, p.db.devices, DeviceEvents(tasks), NonNegative(tasks))
  {
    RunIsGood(p, workers, capacity, moves);
    QuietRpcRows(After(p, capacity, moves).value, p.db);
    QuietDeviceRows(After(p, capacity, moves).value, p.db);
  }

  // ---- Sums over a table ----

  ghost function SumTotals<K(!new)>(t: map<K, Row>): int
    decreases |t|
  {
    if t == map[] then 0
    else
      var k :| k in t;
      t[k].total + SumTotals(t - {k})
  }

  lemma {:induction false} SumRemove<K(!new)>(t: map<K, Row>, k: K)
    requires k in t
    ensures SumTotals(t) == t[k].total + SumTotals(t - {k})
    decreases |t|
  {
    var first :| first in t && SumTotals(t) == t[first].total + SumTotals(t - {first});
    if first != k {
      SumRemove(t - {first}, k);
      SumRemove(t - {k}, first);
      assert t - {first} - {k} == t - {k} - {first};
    }
  }

  lemma SumUpsert<K(!new)>(t: map<K, Row>, k: K, d: Row)
    ensures SumTotals(Upsert(t, k, d)) == SumTotals(t) + d.total
  {
    var u := Upsert(t, k, d);
    SumRemove(u, k);
    if k in t {
      SumRemove(t, k);
      assert u - {k} == t - {k};
    } else {
      assert u - {k} == t;
    }
  }

  lemma {:induction false} SumOfEvents<K(!new)>(t: map<K, Row>, events: seq<Event<K>>)
    ensures SumTotals(RunSingly(t, events)) == SumTotals(t) + |events|
    decreases |events|
  {
    if events != [] {
      var d := One(events[0].status, events[0].latency);
      SumUpsert(t, events[0].key, d);
      SumOfEvents(Upsert(t, events[0].key, d), events[1..]);
    }
  }

  lemma {:induction false} SameSums<K(!new)>(a: map<K, Row>, b: map<K, Row>)
    requires SameCounters(a, b)
    ensures SumTotals(a) == SumTotals(b)
    decreases |a|
  {
    if a == map[] {
      forall k: K ensures k !in b {
        assert Counters(At(a, k)) == Counters(At(b, k));
      }
      assert b == map[];
    } else {
      var k :| k in a;
      assert Counters(At(a, k)) == Counters(At(b, k));
      SumRemove(a, k);
      SumRemove(b, k);
      forall j: K ensures Counters(At(a - {k}, j)) == Counters(At(b - {k}, j)) {
        assert Counters(At(a, j)) == Counters(At(b, j));
      }
      SameSums(a - {k}, b - {k});
    }
  }

  /** The calls that passed the group check. */
  function Accepted(calls: seq<Call>): nat {
    if calls == [] then 0
    else Accepted(calls[..|calls| - 1]) + (if calls[|calls| - 1].outcome.Refused? then 0 else 1)
  }

  lemma {:induction false} OneMetricPerCall(calls: seq<Call>)
    ensures |RpcEvents(AllEmitted(calls))| == Accepted(calls)
  {
    if calls != [] {
      var c := calls[|calls| - 1];
      OneMetricPerCall(calls[..|calls| - 1]);
      RpcEventsConcat(AllEmitted(calls[..|calls| - 1]), Emitted(c));
      EmitsOneOfEach(c);
    }
  }

  /** What a call emits is about one row of the log and its metrics. */
  predicate Carries(c: Call, item: Item) {
    item.id == c.id && LogOps(Emitted(c), 0) == [LogOp(true, item, 0)] &&
    RpcEvents(Emitted(c)) ==
      [Event(RpcKey(c.rpcDay, item.client, item.group, item.action), item.status, item.latency)] &&
    forall e :: e in DeviceEvents(Emitted(c)) ==>
      e.key.client == item.client && e.key.group == item.group && e.status == item.status && e.latency == item.latency
  }

  /** A call that passed the group check emits one completion of its request, one RPC metric and, if a
      client is known, one device metric, all with the same client, group, status and latency; a refused
      call emits nothing. */
  lemma {:induction false} EmitsOneOfEach(c: Call)
    ensures c.outcome.Refused? ==> Emitted(c) == []
    ensures !c.outcome.Refused? ==>
      |RpcEvents(Emitted(c))| == 1 &&
      |DeviceEvents(Emitted(c))| == (if c.preferred == "" && c.outcome.client == "" then 0 else 1) &&
      exists item: Item :: Carries(c, item)
  {
    if !c.outcome.Refused? {
      var t, m := CompletionTask(c), MetricTask(RpcMetric, c, c.action, c.rpcDay);
      if UsedClient(c) == "" {
        assert Emitted(c) == [t, m];
        TwoTasks(t, m);
      } else {
        var d := MetricTask(DeviceMetric, c, "", if c.outcome.Failed? then c.rpcDay else c.deviceDay);
        assert Emitted(c) == [t, m, d];
        ThreeTasks(t, m, d);
      }
      assert Carries(c, ItemOf(t));
    }
  }

  lemma TwoTasks(t: Task, m: Task)
    requires t.kind == CompleteRequest && m.kind == RpcMetric
    ensures LogOps([t, m], 0) == [LogOp(true, ItemOf(t), 0)] && RpcEvents([t, m]) == [RpcEvent(m)]
    ensures DeviceEvents([t, m]) == []
  {
    TasksConcat([t], [m]);
    assert [t] + [m] == [t, m];
  }

  lemma ThreeTasks(t: Task, m: Task, d: Task)
    requires t.kind == CompleteRequest && m.kind == RpcMetric && d.kind == DeviceMetric
    ensures LogOps([t, m, d], 0) == [LogOp(true, ItemOf(t), 0)] && RpcEvents([t, m, d]) == [RpcEvent(m)]
    ensures DeviceEvents([t, m, d]) == [DeviceEvent(d)]
  {
    TwoTasks(t, m);
    TasksConcat([t, m], [d]);
    assert [t, m] + [d] == [t, m, d];
  }

  lemma TasksConcat(a: seq<Task>, b: seq<Task>)
    ensures LogOps(a + b, 0) == LogOps(a, 0) + LogOps(b, 0)
    ensures RpcEvents(a + b) == RpcEvents(a) + RpcEvents(b)
    ensures DeviceEvents(a + b) == DeviceEvents(a) + DeviceEvents(b)
  {
    LogOpsConcat(a, b, 0);
    RpcEventsConcat(a, b);
    DeviceEventsConcat(a, b);
  }

  /** Conservation: the totals of all RPC rows together have grown by the number of calls that passed
      the group check, whatever their statuses and latencies. */
  lemma TotalsCountCalls(p: Pipe, workers: nat, capacity: nat, moves: seq<Move>)
    requires Start(p, workers) && After(p, capacity, moves).Some? && Quiet(After(p, capacity, moves).value)
    ensures var q := After(p, capacity, moves).value;
            SumTotals(q.db.rpc) == SumTotals(p.db.rpc) + Accepted(q.calls)
  {
    var q := After(p, capacity, moves).value;
    var events := RpcEvents(AllEmitted(q.calls));
    QuietTablesAreSequential(p, workers, capacity, moves);
    SameSums(q.db.rpc, RunSingly(p.db.rpc, events));
    SumOfEvents(p.db.rpc, events);
    OneMetricPerCall(q.calls);
  }

  // ---- Rows in balance ----

  predicate InBalance(r: Row) {
    r.total == r.success + r.failed + r.timeout
  }

  predicate AllInBalance<K(!new)>(t: map<K, Row>) {
    forall k: K :: k in t ==> InBalance(t[k])
  }

  lemma {:induction false} EventsKeepBalance<K(!new)>(t: map<K, Row>, events: seq<Event<K>>)
    requires AllInBalance(t)
    ensures AllInBalance(RunSingly(t, events))
    decreases |events|
  {
    if events != [] {
      EventsKeepBalance(Upsert(t, events[0].key, One(events[0].status, events[0].latency)), events[1..]);
    }
  }

  lemma SameBalance<K(!new)>(a: map<K, Row>, b: map<K, Row>)
    requires SameCounters(a, b) && AllInBalance(b)
    ensures AllInBalance(a)
  {
    forall k: K | k in a ensures InBalance(a[k]) {
      assert Counters(At(a, k)) == Counters(At(b, k));
    }
  }

  /** In every reachable state, quiet or not, every row's total is the sum of its three outcomes. */
  lemma RowsStayInBalance(p: Pipe, workers: nat, capacity: nat, moves: seq<Move>)
    requires Start(p, workers) && After(p, capacity, moves).Some?
    requires AllInBalance(p.db.rpc) && AllInBalance(p.db.devices)
    ensures var q := After(p, capacity, moves).value;
            AllInBalance(q.db.rpc) && AllInBalance(q.db.devices)
  {
    var q := After(p, capacity, moves).value;
    RunIsGood(p, workers, capacity, moves);
    EventsKeepBalance(p.db.rpc, RpcEvents(q.doneRpc));
    EventsKeepBalance(p.db.devices, DeviceEvents(q.doneDevices));
    SameBalance(q.db.rpc, RunSingly(p.db.rpc, RpcEvents(q.doneRpc)));
    SameBalance(q.db.devices, RunSingly(p.db.devices, DeviceEvents(q.doneDevices)));
  }

  // ---- The request log ----

  predicate Completes(u: Task, id: string) {
    u.kind == CompleteRequest && u.id == id
  }

  lemma {:induction false} RowUntouched(log: Log, tasks: seq<Task>, id: string)
    requires AllPlain(tasks) && forall i :: 0 <= i < |tasks| ==> !Completes(tasks[i], id)
    ensures FieldsAt(RunLog(log, LogOps(tasks, 0)), id) == FieldsAt(log, id)
    decreases |tasks|
  {
    if tasks != [] {
      FirstOp(tasks, 0);
      if tasks[0].kind == CompleteRequest {
        RowUntouched(Complete(log, ItemOf(tasks[0]), 0), tasks[1..], id);
      } else {
        RowUntouched(log, tasks[1..], id);
      }
    }
  }

  /** t occurs once, and nothing else completes its request. */
  ghost predicate OnlyCompletion(tasks: multiset<Task>, t: Task) {
    tasks[t] == 1 && forall u: Task :: u in tasks && Completes(u, t.id) ==> u == t
  }

  lemma FindOnly(tasks: seq<Task>, t: Task) returns (x: seq<Task>, y: seq<Task>)
    requires AllPlain(tasks) && OnlyCompletion(multiset(tasks), t)
    ensures tasks == x + [t] + y && AllPlain(x) && AllPlain(y)
    ensures forall i :: 0 <= i < |x| ==> !Completes(x[i], t.id)
    ensures forall i :: 0 <= i < |y| ==> !Completes(y[i], t.id)
  {
    assert t in multiset(tasks);
    var i :| 0 <= i < |tasks| && tasks[i] == t;
    x, y := tasks[..i], tasks[i + 1..];
    assert tasks == x + [t] + y;
    MovedToFront(x, t, y);
    assert multiset(x + y) == multiset(x) + multiset(y);
    NotElsewhere(x, tasks, t);
    NotElsewhere(y, tasks, t);
  }

  lemma RowOfOnly(log: Log, tasks: seq<Task>, t: Task)
    requires AllPlain(tasks) && OnlyCompletion(multiset(tasks), t) && t.kind == CompleteRequest
    ensures FieldsAt(RunLog(log, LogOps(tasks, 0)), t.id) == Some(CompleteFields(FieldsAt(log, t.id), ItemOf(t)))
  {
    var x, y := FindOnly(tasks, t);
    RunAround(log, x, t, y);
    RowUntouched(log, x, t.id);
    RowUntouched(Complete(RunLog(log, LogOps(x, 0)), ItemOf(t), 0), y, t.id);
  }

  lemma RunAround(log: Log, x: seq<Task>, t: Task, y: seq<Task>)
    requires t.kind == CompleteRequest
    ensures RunLog(log, LogOps(x + [t] + y, 0)) ==
            RunLog(Complete(RunLog(log, LogOps(x, 0)), ItemOf(t), 0), LogOps(y, 0))
  {
    LogOpsConcat(x + [t], y, 0);
    LogOpsConcat(x, [t], 0);
    RunLogConcat(log, LogOps(x + [t], 0), LogOps(y, 0));
    RunLogConcat(log, LogOps(x, 0), LogOps([t], 0));
    SingleCompletion(RunLog(log, LogOps(x, 0)), t);
  }

  lemma SingleCompletion(log: Log, t: Task)
    requires t.kind == CompleteRequest
    ensures RunLog(log, LogOps([t], 0)) == Complete(log, ItemOf(t), 0)
  {
    FirstOp([t], 0);
  }

  lemma NotElsewhere(part: seq<Task>, tasks: seq<Task>, t: Task)
    requires OnlyCompletion(multiset(tasks), t) && multiset(part) + multiset{t} <= multiset(tasks)
    ensures forall i :: 0 <= i < |part| ==> !Completes(part[i], t.id)
  {
    assert multiset(part)[t] + multiset{t}[t] <= 1;
    forall i | 0 <= i < |part| ensures !Completes(part[i], t.id) {
      assert part[i] in multiset(part);
    }
  }

  predicate FreshIds(calls: seq<Call>) {
    forall i, j :: 0 <= i < j < |calls| ==> calls[i].id != calls[j].id
  }

  lemma {:induction false} EmittedCount(c: Call, u: Task)
    requires u.kind == CompleteRequest
    ensures multiset(Emitted(c))[u] == if !c.outcome.Refused? && u == CompletionTask(c) then 1 else 0
  {
  }

  /** How many of the calls have the completion u. */
  function TimesCompleted(calls: seq<Call>, u: Task): nat {
    if calls == [] then 0
    else
      var c := calls[|calls| - 1];
      TimesCompleted(calls[..|calls| - 1], u) + (if !c.outcome.Refused? && u == CompletionTask(c) then 1 else 0)
  }

  lemma {:induction false} CountOfCompletions(calls: seq<Call>, u: Task)
    requires u.kind == CompleteRequest
    ensures multiset(AllEmitted(calls))[u] == TimesCompleted(calls, u)
  {
    if calls != [] {
      var c := calls[|calls| - 1];
      CountOfCompletions(calls[..|calls| - 1], u);
      Appended(AllEmitted(calls[..|calls| - 1]), Emitted(c), u);
      EmittedCount(c, u);
    }
  }

  lemma {:induction false} NeverCompleted(calls: seq<Call>, u: Task)
    requires forall i :: 0 <= i < |calls| ==> calls[i].id != u.id
    ensures TimesCompleted(calls, u) == 0
  {
    if calls != [] {
      NeverCompleted(calls[..|calls| - 1], u);
    }
  }

  lemma {:induction false} CompletedAtMostOnce(calls: seq<Call>, i: nat, u: Task)
    requires FreshIds(calls) && i < |calls| && !calls[i].outcome.Refused? && u.id == calls[i].id
    ensures TimesCompleted(calls, u) == if u == CompletionTask(calls[i]) then 1 else 0
  {
    var others := calls[..|calls| - 1];
    if i == |calls| - 1 {
      NeverCompleted(others, u);
    } else {
      CompletedAtMostOnce(others, i, u);
    }
  }

  lemma {:induction false} CompletedOnce(calls: seq<Call>, i: nat)
    requires FreshIds(calls) && i < |calls| && !calls[i].outcome.Refused?
    ensures OnlyCompletion(multiset(AllEmitted(calls)), CompletionTask(calls[i]))
  {
    var t := CompletionTask(calls[i]);
    CountOfCompletions(calls, t);
    CompletedAtMostOnce(calls, i, t);
    forall u: Task | u in multiset(AllEmitted(calls)) && Completes(u, t.id) ensures u == t {
      CountOfCompletions(calls, u);
      CompletedAtMostOnce(calls, i, u);
    }
  }

  lemma {:induction false} EmittedArePlain(calls: seq<Call>)
    ensures AllPlain(AllEmitted(calls))
  {
    if calls != [] {
      EmittedArePlain(calls[..|calls| - 1]);
      EmittedIsPlain(calls[|calls| - 1]);
    }
  }

  lemma PlainPermutation(a: seq<Task>, b: seq<Task>)
    requires multiset(a) == multiset(b) && AllPlain(b)
    ensures AllPlain(a)
  {
    forall i | 0 <= i < |a| ensures Plain(a[i]) {
      assert a[i] in multiset(a);
      assert a[i] in multiset(b);
    }
  }

  lemma SameFields(a: Log, b: Log, id: string)
    requires Visible(a) == Visible(b)
    ensures FieldsAt(a, id) == FieldsAt(b, id)
  {
    assert id in a <==> id in Visible(a);
    assert id in b <==> id in Visible(b);
  }

  /** Once the pipeline is quiet, the row of every call that passed the group check holds its completion,
      merged into the row that was there before, if request IDs are fresh. */
  lemma QuietLogIsComplete(p: Pipe, workers: nat, capacity: nat, moves: seq<Move>, i: nat)
    requires Start(p, workers) && After(p, capacity, moves).Some? && Quiet(After(p, capacity, moves).value)
    requires var calls := After(p, capacity, moves).value.calls;
             FreshIds(calls) && i < |calls| && !calls[i].outcome.Refused?
    ensures var q := After(p, capacity, moves).value;
            var t := CompletionTask(q.calls[i]);
            FieldsAt(q.db.log, t.id) == Some(CompleteFields(FieldsAt(p.db.log, t.id), ItemOf(t)))
  {
    var q := After(p, capacity, moves).value;
    var t := CompletionTask(q.calls[i]);
    RunIsGood(p, workers, capacity, moves);
    assert Conserved(q, LogTable);
    QuietIsDone(q, LogTable);
    EmittedArePlain(q.calls);
    PlainPermutation(q.doneLog, AllEmitted(q.calls));
    CompletedOnce(q.calls, i);
    RowOfOnly(p.db.log, q.doneLog, t);
    SameFields(q.db.log, RunLog(p.db.log, LogOps(q.doneLog, 0)), t.id);
  }
}
