/** What the tables hold in every state of the pipeline, and once it is quiet
    (internal/app/app.go, internal/app/persist_batch.go, internal/store/store.go). */
module PipelineTables {
  import opened Metrics
  import opened PersistBatch
  import opened Pipeline
  import opened Requests
  import opened Sequences
  import opened Wrappers

  // ---- Tables that agree but for their maxima ----

  function Counters(r: Option<Row>): Option<Row> {
    if r.None? then None else Some(r.value.(maxLatency := 0))
  }

  ghost predicate SameCounters<K(!new)>(a: map<K, Row>, b: map<K, Row>) {
    forall k: K :: Counters(At(a, k)) == Counters(At(b, k))
  }

  lemma PlusCounters(a: Option<Row>, b: Option<Row>, d: Option<Row>)
    requires Counters(a) == Counters(b)
    ensures Counters(Plus(a, d)) == Counters(Plus(b, d))
  {
  }

  lemma SameAfterEvents<K(!new)>(a: map<K, Row>, b: map<K, Row>, events: seq<Event<K>>)
    requires SameCounters(a, b)
    ensures SameCounters(RunSingly(a, events), RunSingly(b, events))
  {
    forall k: K ensures Counters(At(RunSingly(a, events), k)) == Counters(At(RunSingly(b, events), k)) {
      assert Counters(At(a, k)) == Counters(At(b, k));
      SinglyAt(a, events, k);
      SinglyAt(b, events, k);
      PlusCounters(At(a, k), At(b, k), Tally(events, k));
    }
  }

  /** A batch adds the same counters as its events one at a time, whatever the latencies. */
  lemma BatchKeepsCounters<K(!new)>(t: map<K, Row>, events: seq<Event<K>>, after: map<K, Row>)
    requires MetricsAdded(t, events, after)
    ensures SameCounters(after, RunSingly(t, events))
    ensures (forall i :: 0 <= i < |events| ==> events[i].latency >= 0) ==> after == RunSingly(t, events)
  {
    var items: seq<(K, Row)> :| Lists(items, AccumulateAll(map[], events)) && after == UpsertAll(t, items);
    forall k: K ensures Counters(At(after, k)) == Counters(At(RunSingly(t, events), k)) {
      AgreeAt(t, events, items, k);
    }
    if forall i :: 0 <= i < |events| ==> events[i].latency >= 0 {
      NonNegativeBatch(t, events, items);
    }
  }

  // ---- The order of events does not matter ----

  lemma {:induction false} RpcEventsConcat(a: seq<Task>, b: seq<Task>)
    ensures RpcEvents(a + b) == RpcEvents(a) + RpcEvents(b)
  {
    if a == [] {
      assert a + b == b;
    } else {
      assert (a + b)[1..] == a[1..] + b;
      RpcEventsConcat(a[1..], b);
      Regroup(if a[0].kind == RpcMetric then [RpcEvent(a[0])] else [], RpcEvents(a[1..]), RpcEvents(b));
    }
  }

  lemma {:induction false} DeviceEventsConcat(a: seq<Task>, b: seq<Task>)
    ensures DeviceEvents(a + b) == DeviceEvents(a) + DeviceEvents(b)
  {
    if a == [] {
      assert a + b == b;
    } else {
      assert (a + b)[1..] == a[1..] + b;
      DeviceEventsConcat(a[1..], b);
      Regroup(if a[0].kind == DeviceMetric then [DeviceEvent(a[0])] else [], DeviceEvents(a[1..]), DeviceEvents(b));
    }
  }

  lemma Cancel<T(!new)>(t: T, a: multiset<T>, b: multiset<T>)
    requires multiset{t} + a == multiset{t} + b
    ensures a == b
  {
    forall x: T ensures a[x] == b[x] {
      assert (multiset{t} + a)[x] == multiset{t}[x] + a[x];
      assert (multiset{t} + b)[x] == multiset{t}[x] + b[x];
    }
  }

  lemma MovedToFront<T>(x: seq<T>, t: T, y: seq<T>)
    ensures multiset(x + [t] + y) == multiset{t} + multiset(x + y)
  {
  }

  lemma HeadFirst<T>(s: seq<T>)
    requires s != []
    ensures multiset(s) == multiset{s[0]} + multiset(s[1..])
  {
    assert s == [s[0]] + s[1..];
  }

  /** Where the first of some tasks is in another order of them. */
  lemma SplitAt<T(!new)>(a: seq<T>, b: seq<T>) returns (x: seq<T>, y: seq<T>)
    requires a != [] && multiset(a) == multiset(b)
    ensures b == x + [a[0]] + y && multiset(a[1..]) == multiset(x + y)
  {
    assert a[0] in multiset(a);
    var i :| 0 <= i < |b| && b[i] == a[0];
    x, y := b[..i], b[i + 1..];
    assert b == x + [a[0]] + y;
    MovedToFront(x, a[0], y);
    HeadFirst(a);
    Cancel(a[0], multiset(a[1..]), multiset(x + y));
  }

  lemma Swap(a: Option<Row>, b: Option<Row>, c: Option<Row>)
    ensures Plus(Plus(a, b), c) == Plus(b, Plus(a, c))
  {
  }

  lemma EmptyToo<T(!new)>(b: seq<T>)
    requires multiset(b) == multiset{}
    ensures b == []
  {
    assert |multiset(b)| == |b|;
  }

  /** Events in another order say the same about every key. */
  lemma {:induction false} OrderIsFree<K(!new)>(a: seq<Event<K>>, b: seq<Event<K>>, k: K)
    requires multiset(a) == multiset(b)
    ensures Tally(a, k) == Tally(b, k)
    decreases |a|
  {
    if a == [] {
      EmptyToo(b);
    } else {
      var x, y := SplitAt(a, b);
      OrderIsFree(a[1..], x + y, k);
      assert a == [a[0]] + a[1..];
      TallyConcat([a[0]], a[1..], k);
      TallyConcat(x + [a[0]], y, k);
      TallyConcat(x, [a[0]], k);
      TallyConcat(x, y, k);
      Swap(Tally(x, k), Tally([a[0]], k), Tally(y, k));
    }
  }

  lemma SameRows<K(!new)>(t: map<K, Row>, a: seq<Event<K>>, b: seq<Event<K>>)
    requires multiset(a) == multiset(b)
    ensures RunSingly(t, a) == RunSingly(t, b)
  {
    forall k: K ensures At(RunSingly(t, a), k) == At(RunSingly(t, b), k) {
      OrderIsFree(a, b, k);
      SinglyAt(t, a, k);
      SinglyAt(t, b, k);
    }
    SameEverywhere(RunSingly(t, a), RunSingly(t, b));
  }

  /** Tasks in another order make the same events, in some order. */
  lemma {:induction false} SameEvents(a: seq<Task>, b: seq<Task>)
    requires multiset(a) == multiset(b)
    ensures multiset(RpcEvents(a)) == multiset(RpcEvents(b))
    ensures multiset(DeviceEvents(a)) == multiset(DeviceEvents(b))
    decreases |a|
  {
    if a == [] {
      EmptyToo(b);
    } else {
      var x, y := SplitAt(a, b);
      SameEvents(a[1..], x + y);
      FirstEvents(a);
      EventsMoved(x, a[0], y);
    }
  }

  lemma FirstEvents(a: seq<Task>)
    requires a != []
    ensures multiset(RpcEvents(a)) == multiset(RpcEvents([a[0]])) + multiset(RpcEvents(a[1..]))
    ensures multiset(DeviceEvents(a)) == multiset(DeviceEvents([a[0]])) + multiset(DeviceEvents(a[1..]))
  {
    assert a == [a[0]] + a[1..];
    RpcEventsConcat([a[0]], a[1..]);
    DeviceEventsConcat([a[0]], a[1..]);
  }

  lemma MiddleFirst<T>(a: seq<T>, b: seq<T>, c: seq<T>)
    ensures multiset(a + b + c) == multiset(b) + multiset(a + c)
  {
  }

  lemma EventsMoved(x: seq<Task>, t: Task, y: seq<Task>)
    ensures multiset(RpcEvents(x + [t] + y)) == multiset(RpcEvents([t])) + multiset(RpcEvents(x + y))
    ensures multiset(DeviceEvents(x + [t] + y)) == multiset(DeviceEvents([t])) + multiset(DeviceEvents(x + y))
  {
    RpcEventsSplit(x, t, y);
    DeviceEventsSplit(x, t, y);
    MiddleFirst(RpcEvents(x), RpcEvents([t]), RpcEvents(y));
    MiddleFirst(DeviceEvents(x), DeviceEvents([t]), DeviceEvents(y));
  }

  lemma RpcEventsSplit(x: seq<Task>, t: Task, y: seq<Task>)
    ensures RpcEvents(x + [t] + y) == RpcEvents(x) + RpcEvents([t]) + RpcEvents(y)
    ensures RpcEvents(x + y) == RpcEvents(x) + RpcEvents(y)
  {
    RpcEventsConcat(x + [t], y);
    RpcEventsConcat(x, [t]);
    RpcEventsConcat(x, y);
  }

  lemma DeviceEventsSplit(x: seq<Task>, t: Task, y: seq<Task>)
    ensures DeviceEvents(x + [t] + y) == DeviceEvents(x) + DeviceEvents([t]) + DeviceEvents(y)
    ensures DeviceEvents(x + y) == DeviceEvents(x) + DeviceEvents(y)
  {
    DeviceEventsConcat(x + [t], y);
    DeviceEventsConcat(x, [t]);
    DeviceEventsConcat(x, y);
  }

  // ---- Every reachable state ----

  ghost predicate MetricFollows<K(!new)>(t: map<K, Row>, before: map<K, Row>, events: seq<Event<K>>, exact: bool) {
    SameCounters(t, RunSingly(before, events)) && (exact ==> t == RunSingly(before, events))
  }

  /** The metric tables are those of the events written so far, one at a time: always in their
      counters, and in their maxima too if no latency was negative. The log is that of the
      completions written so far, apart from finishing times. */
  ghost predicate TablesFollow(p: Pipe, init: Db) {
    MetricFollows(p.db.rpc, init.rpc, RpcEvents(p.doneRpc), NonNegative(p.doneRpc)) &&
    MetricFollows(p.db.devices, init.devices, DeviceEvents(p.doneDevices), NonNegative(p.doneDevices)) &&
    Visible(p.db.log) == Visible(RunLog(init.log, LogOps(p.doneLog, 0)))
  }

  lemma WrittenEvents<K(!new)>(t: map<K, Row>, init: map<K, Row>, done: seq<Event<K>>, events: seq<Event<K>>,
                               after: map<K, Row>, exact: bool, exactAfter: bool)
    requires MetricFollows(t, init, done, exact) && MetricsAdded(t, events, after)
    requires exactAfter ==> exact && forall i :: 0 <= i < |events| ==> events[i].latency >= 0
    ensures MetricFollows(after, init, done + events, exactAfter)
  {
    BatchKeepsCounters(t, events, after);
    SameAfterEvents(t, RunSingly(init, done), events);
    RunSinglyConcat(init, done, events);
    Chain(after, RunSingly(t, events), RunSingly(RunSingly(init, done), events));
  }

  lemma Chain<K(!new)>(a: map<K, Row>, b: map<K, Row>, c: map<K, Row>)
    requires SameCounters(a, b) && SameCounters(b, c)
    ensures SameCounters(a, c)
  {
    forall k: K ensures Counters(At(a, k)) == Counters(At(c, k)) {
      assert Counters(At(a, k)) == Counters(At(b, k)) && Counters(At(b, k)) == Counters(At(c, k));
    }
  }

  lemma WrittenSingly<K(!new)>(t: map<K, Row>, init: map<K, Row>, done: seq<Event<K>>, events: seq<Event<K>>,
                               exact: bool)
    requires MetricFollows(t, init, done, exact)
    ensures MetricFollows(RunSingly(t, events), init, done + events, exact)
  {
    SameAfterEvents(t, RunSingly(init, done), events);
    RunSinglyConcat(init, done, events);
  }

  lemma {:induction false} LogOpsConcat(a: seq<Task>, b: seq<Task>, now: nat)
    ensures LogOps(a + b, now) == LogOps(a, now) + LogOps(b, now)
  {
    if a == [] {
      assert a + b == b;
    } else {
      assert (a + b)[1..] == a[1..] + b;
      LogOpsConcat(a[1..], b, now);
      Regroup(OpsOf(a[0], now), LogOps(a[1..], now), LogOps(b, now));
    }
  }

  /** No call emits a create or an unknown kind. */
  predicate Plain(t: Task) {
    t.kind != CreateRequest && t.kind != Unknown
  }

  predicate AllPlain(tasks: seq<Task>) {
    forall i :: 0 <= i < |tasks| ==> Plain(tasks[i])
  }

  lemma {:induction false} PlainOps(tasks: seq<Task>, now: nat)
    requires AllPlain(tasks)
    ensures Creates(LogOps(tasks, now)) == [] && Completions(LogOps(tasks, now)) == LogOps(tasks, now)
  {
    if tasks != [] {
      PlainOps(tasks[1..], now);
      FirstOp(tasks, now);
    }
  }

  lemma LogWritten(log: Log, init: Log, done: seq<Task>, batch: seq<Task>, now: nat)
    requires Visible(log) == Visible(RunLog(init, LogOps(done, 0)))
    ensures Visible(RunLog(log, LogOps(batch, now))) == Visible(RunLog(init, LogOps(done + batch, 0)))
  {
    OpsKeepTasks(batch, now, 0);
    TimesAreInvisible(log, RunLog(init, LogOps(done, 0)), LogOps(batch, now), LogOps(batch, 0));
    LogOpsConcat(done, batch, 0);
    RunLogConcat(init, LogOps(done, 0), LogOps(batch, 0));
  }

  ghost predicate PlainEverywhere(p: Pipe) {
    (forall t: Task :: t in p.arriving || t in p.overflow ==> Plain(t)) && AllPlain(p.queue) &&
    forall w :: 0 <= w < |p.workers| ==> AllPlain(p.workers[w].batch)
  }

  lemma EmittedIsPlain(c: Call)
    ensures AllPlain(Emitted(c))
  {
  }

  lemma InvokeStaysPlain(p: Pipe, capacity: nat, m: Move)
    requires m.Invoke? && PlainEverywhere(p)
    ensures PlainEverywhere(Step(p, capacity, m))
  {
    EmittedIsPlain(m.c);
    var arriving := multiset(Emitted(m.c));
    forall t: Task | t in p.arriving + arriving ensures Plain(t) {
      assert t in p.arriving || t in arriving;
    }
  }

  lemma EnqueueStaysPlain(p: Pipe, capacity: nat, m: Move)
    requires Enabled(p, capacity, m) && PlainEverywhere(p) && m.Enqueue?
    ensures PlainEverywhere(Step(p, capacity, m))
  {
    var arriving, overflow := p.arriving - multiset{m.t}, p.overflow + multiset{m.t};
    assert forall t: Task :: t in arriving ==> t in p.arriving;
    assert forall t: Task :: t in overflow ==> t in p.overflow || t == m.t;
  }

  lemma OverflowStaysPlain(p: Pipe, capacity: nat, m: Move)
    requires Enabled(p, capacity, m) && PlainEverywhere(p) && (m.OverflowSend? || m.OverflowRun?)
    ensures PlainEverywhere(Step(p, capacity, m))
  {
    var overflow := p.overflow - multiset{m.t};
    assert forall t: Task :: t in overflow ==> t in p.overflow;
  }

  lemma StaysPlain(p: Pipe, capacity: nat, m: Move)
    requires Enabled(p, capacity, m) && PlainEverywhere(p)
    ensures PlainEverywhere(Step(p, capacity, m))
  {
    if m.Invoke? {
      InvokeStaysPlain(p, capacity, m);
    } else if m.Enqueue? {
      EnqueueStaysPlain(p, capacity, m);
    } else if m.OverflowSend? || m.OverflowRun? {
      OverflowStaysPlain(p, capacity, m);
    }
  }

  lemma NonNegativeParts(a: seq<Task>, b: seq<Task>)
    ensures NonNegative(a + b) <==> NonNegative(a) && NonNegative(b)
  {
    if NonNegative(a + b) {
      assert forall i :: 0 <= i < |a| ==> (a + b)[i] == a[i];
      assert forall i :: 0 <= i < |b| ==> (a + b)[|a| + i] == b[i];
    }
  }

  lemma SingleTask(db: Db, t: Task, now: nat)
    requires Plain(t)
    ensures RunTask(db, t, now) ==
            Db(RunLog(db.log, LogOps([t], now)), RunSingly(db.rpc, RpcEvents([t])),
               RunSingly(db.devices, DeviceEvents([t])))
  {
    TasksByTable(db, [t], now);
  }

  lemma RpcFollows(p: Pipe, init: Db, batch: seq<Task>, after: map<RpcKey, Row>)
    requires TablesFollow(p, init) && MetricsAdded(p.db.rpc, RpcEvents(batch), after)
    ensures MetricFollows(after, init.rpc, RpcEvents(p.doneRpc + batch), NonNegative(p.doneRpc + batch))
  {
    NonNegativeParts(p.doneRpc, batch);
    if NonNegative(batch) {
      EventsAreNonNegative(batch);
    }
    WrittenEvents(p.db.rpc, init.rpc, RpcEvents(p.doneRpc), RpcEvents(batch), after, NonNegative(p.doneRpc),
                  NonNegative(p.doneRpc + batch));
    RpcEventsConcat(p.doneRpc, batch);
  }

  lemma DevicesFollow(p: Pipe, init: Db, batch: seq<Task>, after: map<DeviceKey, Row>)
    requires TablesFollow(p, init) && MetricsAdded(p.db.devices, DeviceEvents(batch), after)
    ensures MetricFollows(after, init.devices, DeviceEvents(p.doneDevices + batch), NonNegative(p.doneDevices + batch))
  {
    NonNegativeParts(p.doneDevices, batch);
    if NonNegative(batch) {
      EventsAreNonNegative(batch);
    }
    WrittenEvents(p.db.devices, init.devices, DeviceEvents(p.doneDevices), DeviceEvents(batch), after,
                  NonNegative(p.doneDevices), NonNegative(p.doneDevices + batch));
    DeviceEventsConcat(p.doneDevices, batch);
  }

  lemma OverflowRunFollows(p: Pipe, init: Db, t: Task, now: nat)
    requires TablesFollow(p, init) && Plain(t)
    ensures var db := RunTask(p.db, t, now);
            MetricFollows(db.rpc, init.rpc, RpcEvents(p.doneRpc + [t]), NonNegative(p.doneRpc + [t])) &&
            MetricFollows(db.devices, init.devices, DeviceEvents(p.doneDevices + [t]),
                          NonNegative(p.doneDevices + [t])) &&
            Visible(db.log) == Visible(RunLog(init.log, LogOps(p.doneLog + [t], 0)))
  {
    SingleTask(p.db, t, now);
    LogWritten(p.db.log, init.log, p.doneLog, [t], now);
    NonNegativeParts(p.doneRpc, [t]);
    NonNegativeParts(p.doneDevices, [t]);
    RpcEventsConcat(p.doneRpc, [t]);
    DeviceEventsConcat(p.doneDevices, [t]);
    WrittenSingly(p.db.rpc, init.rpc, RpcEvents(p.doneRpc), RpcEvents([t]), NonNegative(p.doneRpc));
    WrittenSingly(p.db.devices, init.devices, DeviceEvents(p.doneDevices), DeviceEvents([t]),
                  NonNegative(p.doneDevices));
  }

  lemma StepFollows(p: Pipe, capacity: nat, m: Move, init: Db)
    requires Enabled(p, capacity, m) && PlainEverywhere(p) && TablesFollow(p, init)
    ensures TablesFollow(Step(p, capacity, m), init)
  {
    match m
    case Invoke(_) =>
    case Enqueue(_) =>
    case OverflowSend(_) =>
    case OverflowRun(t, now) => OverflowRunFollows(p, init, t, now);
    case Take(_) =>
    case Drain(_) =>
    case WriteLog(w, now) =>
      PlainOps(p.workers[w].batch, now);
      LogWritten(p.db.log, init.log, p.doneLog, p.workers[w].batch, now);
    case WriteRpc(w, rpc) => RpcFollows(p, init, p.workers[w].batch, rpc);
    case WriteDevices(w, devices) => DevicesFollow(p, init, p.workers[w].batch, devices);
  }
}
