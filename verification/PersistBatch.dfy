/** Writing persist tasks to the store, one at a time (internal/app/app.go) or as a batch
    (internal/app/persist_batch.go), and why both leave the same tables. The store does not fail;
    a statement's NOW() is a parameter; `day` is the formatted date of StatTime. */
module PersistBatch {
  import opened Metrics
  import RequestOrder
  import opened Requests
  import opened Sequences
  import opened Wrappers

  datatype Kind = CreateRequest | CompleteRequest | RpcMetric | DeviceMetric | Unknown

  datatype Task = Task(kind: Kind, id: string, client: string, group: string, action: string, status: string,
                       httpCode: int, requestPayload: string, responsePayload: string, latency: int,
                       error: string, requester: Option<int>, day: string)

  datatype RpcKey = RpcKey(day: string, client: string, group: string, action: string)

  datatype DeviceKey = DeviceKey(day: string, client: string, group: string)

  datatype Db = Db(log: Log, rpc: map<RpcKey, Row>, devices: map<DeviceKey, Row>)

  function ItemOf(t: Task): Item {
    Item(t.id, t.group, t.action, t.client, t.requester, t.requestPayload,
         if t.kind == CreateRequest then "" else t.responsePayload, t.status, t.httpCode,
         if t.kind == CreateRequest then 0 else t.latency, if t.kind == CreateRequest then "" else t.error)
  }

  function RpcEvent(t: Task): Event<RpcKey> {
    Event(RpcKey(t.day, t.client, t.group, t.action), t.status, t.latency)
  }

  function DeviceEvent(t: Task): Event<DeviceKey> {
    Event(DeviceKey(t.day, t.client, t.group), t.status, t.latency)
  }

  // ---- One task ----

  /** `runPersistTask`; an unknown kind is an error that writes nothing. */
  function RunTask(db: Db, t: Task, now: nat): Db {
    match t.kind
    case CreateRequest => db.(log := Create(db.log, ItemOf(t)))
    case CompleteRequest => db.(log := Complete(db.log, ItemOf(t), now))
    case RpcMetric => var e := RpcEvent(t); db.(rpc := Upsert(db.rpc, e.key, One(e.status, e.latency)))
    case DeviceMetric => var e := DeviceEvent(t); db.(devices := Upsert(db.devices, e.key, One(e.status, e.latency)))
    case Unknown => db
  }

  function RunTasks(db: Db, tasks: seq<Task>, now: nat): Db
    decreases |tasks|
  {
    if tasks == [] then db else RunTasks(RunTask(db, tasks[0], now), tasks[1..], now)
  }

  // ---- What a list of tasks writes to each table ----

  function OpsOf(t: Task, now: nat): seq<LogOp> {
    if t.kind == CreateRequest || t.kind == CompleteRequest then [LogOp(t.kind == CompleteRequest, ItemOf(t), now)]
    else []
  }

  function LogOps(tasks: seq<Task>, now: nat): seq<LogOp> {
    if tasks == [] then [] else OpsOf(tasks[0], now) + LogOps(tasks[1..], now)
  }

  function RpcEvents(tasks: seq<Task>): seq<Event<RpcKey>> {
    if tasks == [] then []
    else (if tasks[0].kind == RpcMetric then [RpcEvent(tasks[0])] else []) + RpcEvents(tasks[1..])
  }

  function DeviceEvents(tasks: seq<Task>): seq<Event<DeviceKey>> {
    if tasks == [] then []
    else (if tasks[0].kind == DeviceMetric then [DeviceEvent(tasks[0])] else []) + DeviceEvents(tasks[1..])
  }

  lemma {:induction false} TasksByTable(db: Db, tasks: seq<Task>, now: nat)
    ensures RunTasks(db, tasks, now) ==
            Db(RunLog(db.log, LogOps(tasks, now)), RunSingly(db.rpc, RpcEvents(tasks)),
               RunSingly(db.devices, DeviceEvents(tasks)))
    decreases |tasks|
  {
    if tasks != [] {
      var rest := tasks[1..];
      TasksByTable(RunTask(db, tasks[0], now), rest, now);
      FirstOp(tasks, now);
    }
  }

  /** How the first task adds to the three lists. */
  lemma FirstOp(tasks: seq<Task>, now: nat)
    requires tasks != []
    ensures var t, ops := tasks[0], LogOps(tasks[1..], now);
            LogOps(tasks, now) ==
            if t.kind == CreateRequest then [LogOp(false, ItemOf(t), now)] + ops
            else if t.kind == CompleteRequest then [LogOp(true, ItemOf(t), now)] + ops else ops
    ensures RpcEvents(tasks) ==
            if tasks[0].kind == RpcMetric then [RpcEvent(tasks[0])] + RpcEvents(tasks[1..]) else RpcEvents(tasks[1..])
    ensures DeviceEvents(tasks) ==
            if tasks[0].kind == DeviceMetric then [DeviceEvent(tasks[0])] + DeviceEvents(tasks[1..])
            else DeviceEvents(tasks[1..])
  {
    NothingInFront(LogOps(tasks[1..], now));
    NothingInFront(RpcEvents(tasks[1..]));
    NothingInFront(DeviceEvents(tasks[1..]));
  }

  lemma NothingInFront<T>(s: seq<T>)
    ensures [] + s == s
  {
  }

  // ---- A batch ----

  predicate AllKnown(tasks: seq<Task>) {
    forall i :: 0 <= i < |tasks| ==> tasks[i].kind != Unknown
  }

  /** The log when a batch meets its first unknown kind: creates are written at once. */
  function CreatesUntilUnknown(log: Log, tasks: seq<Task>): Log
    decreases |tasks|
  {
    if tasks == [] || tasks[0].kind == Unknown then log
    else
      CreatesUntilUnknown(if tasks[0].kind == CreateRequest then Create(log, ItemOf(tasks[0])) else log, tasks[1..])
  }

  /** Main result on failing batches: exactly the creates before the first unknown kind have been written. */
  lemma {:induction false} UnknownKindStops(log: Log, before: seq<Task>, unknown: Task, after: seq<Task>, now: nat)
    requires AllKnown(before) && unknown.kind == Unknown
    ensures CreatesUntilUnknown(log, before + [unknown] + after) == RunLog(log, Creates(LogOps(before, now)))
    decreases |before|
  {
    var tasks := before + [unknown] + after;
    if before != [] {
      var t, rest := before[0], before[1..];
      assert tasks[1..] == rest + [unknown] + after;
      assert AllKnown(rest);
      UnknownKindStops(if t.kind == CreateRequest then Create(log, ItemOf(t)) else log, rest, unknown, after, now);
      FirstOp(before, now);
      PrependCreate(log, LogOp(t.kind == CompleteRequest, ItemOf(t), now), LogOps(rest, now));
    }
  }

  /** What a batch has done, and what it has put aside, after some of its tasks. */
  datatype Progress = Progress(log: Log, completions: seq<LogOp>, rpc: map<RpcKey, Row>, devices: map<DeviceKey, Row>)

  function CollectOne(p: Progress, t: Task, now: nat): Progress {
    match t.kind
    case CreateRequest => p.(log := Create(p.log, ItemOf(t)))
    case CompleteRequest => p.(completions := p.completions + [LogOp(true, ItemOf(t), now)])
    case RpcMetric => p.(rpc := Accumulate(p.rpc, RpcEvent(t)))
    case DeviceMetric => p.(devices := Accumulate(p.devices, DeviceEvent(t)))
    case Unknown => p
  }

  function CollectAll(p: Progress, tasks: seq<Task>, now: nat): Progress
    decreases |tasks|
  {
    if tasks == [] then p else CollectAll(CollectOne(p, tasks[0], now), tasks[1..], now)
  }

  lemma PrependCreate(log: Log, op: LogOp, ops: seq<LogOp>)
    ensures RunLog(log, Creates([op] + ops)) ==
            if op.completes then RunLog(log, Creates(ops)) else RunLog(Do(log, op), Creates(ops))
    ensures Completions([op] + ops) == if op.completes then [op] + Completions(ops) else Completions(ops)
  {
    assert ([op] + ops)[1..] == ops;
    assert [] + Creates(ops) == Creates(ops) && [] + Completions(ops) == Completions(ops);
    assert ([op] + Creates(ops))[1..] == Creates(ops);
  }

  function ByTable(p: Progress, tasks: seq<Task>, now: nat): Progress {
    Progress(RunLog(p.log, Creates(LogOps(tasks, now))), p.completions + Completions(LogOps(tasks, now)),
             AccumulateAll(p.rpc, RpcEvents(tasks)), AccumulateAll(p.devices, DeviceEvents(tasks)))
  }

  lemma {:induction false} LogTaskByTable(p: Progress, tasks: seq<Task>, now: nat)
    requires tasks != [] && (tasks[0].kind == CreateRequest || tasks[0].kind == CompleteRequest)
    ensures ByTable(p, tasks, now) == ByTable(CollectOne(p, tasks[0], now), tasks[1..], now)
  {
    var t, ops := tasks[0], LogOps(tasks[1..], now);
    FirstOp(tasks, now);
    var op := LogOp(t.kind == CompleteRequest, ItemOf(t), now);
    PrependCreate(p.log, op, ops);
    MoveNext(p.completions, op, Completions(ops));
  }

  lemma {:induction false} MetricTaskByTable(p: Progress, tasks: seq<Task>, now: nat)
    requires tasks != [] && tasks[0].kind != CreateRequest && tasks[0].kind != CompleteRequest
    ensures ByTable(p, tasks, now) == ByTable(CollectOne(p, tasks[0], now), tasks[1..], now)
  {
    FirstOp(tasks, now);
  }

  lemma {:induction false} CollectedByTable(p: Progress, tasks: seq<Task>, now: nat)
    ensures CollectAll(p, tasks, now) == ByTable(p, tasks, now)
    decreases |tasks|
  {
    if tasks == [] {
      assert p.completions + [] == p.completions;
    } else {
      CollectedByTable(CollectOne(p, tasks[0], now), tasks[1..], now);
      if tasks[0].kind == CreateRequest || tasks[0].kind == CompleteRequest {
        LogTaskByTable(p, tasks, now);
      } else {
        MetricTaskByTable(p, tasks, now);
      }
    }
  }

  ghost predicate MetricsAdded<K(!new)>(before: map<K, Row>, events: seq<Event<K>>, after: map<K, Row>) {
    exists items: seq<(K, Row)> :: Lists(items, AccumulateAll(map[], events)) && after == UpsertAll(before, items)
  }

  lemma AddedBy<K(!new)>(before: map<K, Row>, events: seq<Event<K>>, items: seq<(K, Row)>)
    requires Lists(items, AccumulateAll(map[], events))
    ensures MetricsAdded(before, events, UpsertAll(before, items))
  {
  }

  /** `runPersistBatch` on known kinds: creates at once, then completions, then the deltas of each
      table in some order. */
  ghost predicate BatchResult(before: Db, tasks: seq<Task>, now: nat, after: Db) {
    after.log == RunLog(RunLog(before.log, Creates(LogOps(tasks, now))), Completions(LogOps(tasks, now))) &&
    MetricsAdded(before.rpc, RpcEvents(tasks), after.rpc) &&
    MetricsAdded(before.devices, DeviceEvents(tasks), after.devices)
  }

  predicate NonNegative(tasks: seq<Task>) {
    forall i :: 0 <= i < |tasks| ==> tasks[i].latency >= 0
  }

  lemma {:induction false} EventsAreNonNegative(tasks: seq<Task>)
    requires NonNegative(tasks)
    ensures forall i :: 0 <= i < |RpcEvents(tasks)| ==> RpcEvents(tasks)[i].latency >= 0
    ensures forall i :: 0 <= i < |DeviceEvents(tasks)| ==> DeviceEvents(tasks)[i].latency >= 0
  {
    if tasks != [] {
      assert NonNegative(tasks[1..]);
      EventsAreNonNegative(tasks[1..]);
    }
  }

  /** Two conditions that are read off the tasks and are enough: the metric rows after a batch are those
      after its tasks one at a time, if no latency is negative; the log is, if late creates are
      compatible. The exact conditions follow. */
  lemma PlainBatchesAgree(before: Db, tasks: seq<Task>, now: nat, after: Db)
    requires BatchResult(before, tasks, now, after)
    ensures NonNegative(tasks) ==>
            after.rpc == RunTasks(before, tasks, now).rpc && after.devices == RunTasks(before, tasks, now).devices
    ensures LateCreatesCompatible(LogOps(tasks, now)) ==> after.log == RunTasks(before, tasks, now).log
  {
    TasksByTable(before, tasks, now);
    if NonNegative(tasks) {
      EventsAreNonNegative(tasks);
      var rpcItems: seq<(RpcKey, Row)> :|
        Lists(rpcItems, AccumulateAll(map[], RpcEvents(tasks))) && after.rpc == UpsertAll(before.rpc, rpcItems);
      NonNegativeBatch(before.rpc, RpcEvents(tasks), rpcItems);
      var deviceItems: seq<(DeviceKey, Row)> :|
        Lists(deviceItems, AccumulateAll(map[], DeviceEvents(tasks))) &&
        after.devices == UpsertAll(before.devices, deviceItems);
      NonNegativeBatch(before.devices, DeviceEvents(tasks), deviceItems);
    }
    if LateCreatesCompatible(LogOps(tasks, now)) {
      CreatesFirst(before.log, LogOps(tasks, now));
    }
  }

  /** With negative latencies too: the rows of RPC metrics agree exactly if each one touched has, or
      gets, a latency of 0 or more. */
  lemma RpcRowsAgreeExactly(before: Db, tasks: seq<Task>, now: nat, after: Db)
    requires BatchResult(before, tasks, now, after)
    ensures after.rpc == RunTasks(before, tasks, now).rpc <==>
            forall k: RpcKey :: Touched(RpcEvents(tasks), k) ==> MaximumAgrees(before.rpc, RpcEvents(tasks), k)
  {
    TasksByTable(before, tasks, now);
    var items: seq<(RpcKey, Row)> :|
      Lists(items, AccumulateAll(map[], RpcEvents(tasks))) && after.rpc == UpsertAll(before.rpc, items);
    BatchIsSequential(before.rpc, RpcEvents(tasks), items);
  }

  lemma DeviceRowsAgreeExactly(before: Db, tasks: seq<Task>, now: nat, after: Db)
    requires BatchResult(before, tasks, now, after)
    ensures after.devices == RunTasks(before, tasks, now).devices <==>
            forall k: DeviceKey ::
              Touched(DeviceEvents(tasks), k) ==> MaximumAgrees(before.devices, DeviceEvents(tasks), k)
  {
    TasksByTable(before, tasks, now);
    var items: seq<(DeviceKey, Row)> :|
      Lists(items, AccumulateAll(map[], DeviceEvents(tasks))) && after.devices == UpsertAll(before.devices, items);
    BatchIsSequential(before.devices, DeviceEvents(tasks), items);
  }

  /** The log agrees exactly if, in every merged column of every request, the last value in the given
      order is also the last one when the batch's creates go first. */
  lemma LogAgreesExactly(before: Db, tasks: seq<Task>, now: nat, after: Db)
    requires BatchResult(before, tasks, now, after)
    ensures after.log == RunTasks(before, tasks, now).log <==> RequestOrder.CompletionsPrevail(LogOps(tasks, now))
  {
    TasksByTable(before, tasks, now);
    RequestOrder.CreatesFirstExactly(before.log, LogOps(tasks, now));
  }

  /** Main result: a batch leaves exactly what its tasks leave one at a time if and only if, in every
      row of both metric tables that it touches, a latency of 0 or more was or is counted, and in the
      request log no create overwrites a value of an earlier completion. */
  lemma BatchRefinesSequential(before: Db, tasks: seq<Task>, now: nat, after: Db)
    requires BatchResult(before, tasks, now, after)
    ensures after == RunTasks(before, tasks, now) <==>
            RequestOrder.CompletionsPrevail(LogOps(tasks, now)) &&
            (forall k: RpcKey :: Touched(RpcEvents(tasks), k) ==> MaximumAgrees(before.rpc, RpcEvents(tasks), k)) &&
            (forall k: DeviceKey ::
               Touched(DeviceEvents(tasks), k) ==> MaximumAgrees(before.devices, DeviceEvents(tasks), k))
  {
    LogAgreesExactly(before, tasks, now, after);
    RpcRowsAgreeExactly(before, tasks, now, after);
    DeviceRowsAgreeExactly(before, tasks, now, after);
  }

  lemma {:induction false} TwoLogOps(first: Task, second: Task, now: nat)
    requires first.kind == CompleteRequest && second.kind == CreateRequest
    ensures LogOps([first, second], now) == [LogOp(true, ItemOf(first), now), LogOp(false, ItemOf(second), now)]
  {
    FirstOp([first, second], now);
    assert [first, second][1..] == [second];
    FirstOp([second], now);
  }

  /** The batches of two tasks that break it: a request completed for one group, then created for
      another. Whatever was stored before, the given order leaves the group of the create. */
  lemma {:induction false} LateCreateIsOverruled(before: Db, first: Task, second: Task, now: nat, after: Db)
    requires first.kind == CompleteRequest && second.kind == CreateRequest && first.id == second.id
    requires first.group != "" && second.group != "" && first.group != second.group
    requires BatchResult(before, [first, second], now, after)
    ensures !RequestOrder.CompletionsPrevail(LogOps([first, second], now))
    ensures after.log != RunTasks(before, [first, second], now).log
  {
    TwoLogOps(first, second, now);
    RequestOrder.LateCreateOverwrites(before.log, ItemOf(first), ItemOf(second), now);
    LogAgreesExactly(before, [first, second], now, after);
  }

  lemma {:induction false} OpsKeepTasks(tasks: seq<Task>, now: nat, later: nat)
    ensures SameButTimes(LogOps(tasks, now), LogOps(tasks, later))
  {
    if tasks != [] {
      OpsKeepTasks(tasks[1..], now, later);
      JoinSame(OpsOf(tasks[0], now), OpsOf(tasks[0], later), LogOps(tasks[1..], now), LogOps(tasks[1..], later));
    }
  }

  lemma JoinSame(a: seq<LogOp>, b: seq<LogOp>, c: seq<LogOp>, d: seq<LogOp>)
    requires SameButTimes(a, b) && SameButTimes(c, d)
    ensures SameButTimes(a + c, b + d)
  {
  }

  /** Apart from finishing times, nothing depends on when the statements ran. */
  lemma TimesDoNotMatter(db: Db, tasks: seq<Task>, now: nat, later: nat)
    ensures var a, b := RunTasks(db, tasks, now), RunTasks(db, tasks, later);
            Visible(a.log) == Visible(b.log) && a.rpc == b.rpc && a.devices == b.devices
  {
    TasksByTable(db, tasks, now);
    TasksByTable(db, tasks, later);
    OpsKeepTasks(tasks, now, later);
    TimesAreInvisible(db.log, db.log, LogOps(tasks, now), LogOps(tasks, later));
  }
}
