/** From a call to the tables: the persist tasks that `InvokeRPC` emits, and the queue, the overflow
    goroutines and the workers that carry them to the store (internal/app/app.go). Each database
    transaction is one step. */
module Pipeline {
  import opened Metrics
  import opened PersistBatch
  import opened Requests
  import opened Wrappers

  // ---- What a call emits ----

  datatype HubError = NoOnlineClient | PreferredClientDown | ClientQueueFull | GroupSaturated | OtherError

  /** Refused is a failed group check; `client` is the actual client that the hub reports, or "". */
  datatype Outcome = Refused
                   | Failed(why: HubError, message: string, client: string)
                   | Replied(status: string, httpCode: int, latency: int, error: string, client: string)

  /** The stored texts and the dates of the metric rows are built elsewhere. */
  datatype Call = Call(id: string, group: string, action: string, preferred: string, requester: Option<int>,
                       requestText: string, responseText: string, rpcDay: string, deviceDay: string,
                       outcome: Outcome)

  function UsedClient(c: Call): string
    requires !c.outcome.Refused?
  {
    if c.outcome.client != "" then c.outcome.client else c.preferred
  }

  function FinalStatus(o: Outcome): string
    requires !o.Refused?
  {
    match o
    case Failed(why, _, _) =>
      if why == NoOnlineClient || why == PreferredClientDown then "no_client"
      else if why == ClientQueueFull || why == GroupSaturated then "rejected"
      else "timeout"
    case Replied(status, _, _, _, _) => if status == "" then "success" else status
  }

  function FinalCode(o: Outcome): int
    requires !o.Refused?
  {
    match o
    case Failed(why, _, _) =>
      if why == NoOnlineClient || why == PreferredClientDown then 502
      else if why == ClientQueueFull || why == GroupSaturated then 429
      else 504
    case Replied(_, httpCode, _, _, _) => if httpCode == 0 then 200 else httpCode
  }

  function FinalLatency(o: Outcome): int {
    if o.Replied? then o.latency else 0
  }

  function MetricTask(kind: Kind, c: Call, action: string, day: string): Task
    requires !c.outcome.Refused?
  {
    Task(kind, "", UsedClient(c), c.group, action, FinalStatus(c.outcome), 0, "", "", FinalLatency(c.outcome), "",
         None, day)
  }

  function CompletionTask(c: Call): Task
    requires !c.outcome.Refused?
  {
    Task(CompleteRequest, c.id, UsedClient(c), c.group, c.action, FinalStatus(c.outcome), FinalCode(c.outcome),
         c.requestText, c.responseText, FinalLatency(c.outcome),
         if c.outcome.Failed? then c.outcome.message else c.outcome.error, c.requester, "")
  }

  /** A failed call reads the clock once for both metrics. */
  function Emitted(c: Call): seq<Task> {
    if c.outcome.Refused? then []
    else
      [CompletionTask(c), MetricTask(RpcMetric, c, c.action, c.rpcDay)] +
      (if UsedClient(c) == "" then []
       else [MetricTask(DeviceMetric, c, "", if c.outcome.Failed? then c.rpcDay else c.deviceDay)])
  }

  function AllEmitted(calls: seq<Call>): seq<Task> {
    if calls == [] then [] else AllEmitted(calls[..|calls| - 1]) + Emitted(calls[|calls| - 1])
  }

  // ---- The way to the tables ----

  /** Which of its three transactions a worker has finished for the batch that it holds. */
  datatype Stage = Draining | LogWritten | RpcWritten

  datatype Worker = Worker(stage: Stage, batch: seq<Task>)

  const BATCH_SIZE := 256

  const IDLE := Worker(Draining, [])

  /** `arriving` are tasks between their call and the queue; the three `done` lists are the history
      of what each table has been given. */
  datatype Pipe = Pipe(calls: seq<Call>, arriving: multiset<Task>, queue: seq<Task>, overflow: multiset<Task>,
                       workers: seq<Worker>, db: Db, doneLog: seq<Task>, doneRpc: seq<Task>, doneDevices: seq<Task>)

  datatype Move = Invoke(c: Call)
                | Enqueue(t: Task)
                | OverflowSend(t: Task)
                | OverflowRun(t: Task, now: nat)
                | Take(w: nat)
                | Drain(w: nat)
                | WriteLog(w: nat, now: nat)
                | WriteRpc(w: nat, rpc: map<RpcKey, Row>)
                | WriteDevices(w: nat, devices: map<DeviceKey, Row>)

  ghost predicate Enabled(p: Pipe, capacity: nat, m: Move) {
    match m
    case Invoke(_) => true
    case Enqueue(t) => t in p.arriving
    case OverflowSend(t) => t in p.overflow && |p.queue| < capacity
    case OverflowRun(t, _) => t in p.overflow
    case Take(w) => w < |p.workers| && p.workers[w] == IDLE && p.queue != []
    case Drain(w) =>
      w < |p.workers| && p.workers[w].stage == Draining && 0 < |p.workers[w].batch| < BATCH_SIZE && p.queue != []
    case WriteLog(w, _) => w < |p.workers| && p.workers[w].stage == Draining && p.workers[w].batch != []
    case WriteRpc(w, rpc) =>
      w < |p.workers| && p.workers[w].stage == LogWritten &&
      MetricsAdded(p.db.rpc, RpcEvents(p.workers[w].batch), rpc)
    case WriteDevices(w, devices) =>
      w < |p.workers| && p.workers[w].stage == RpcWritten &&
      MetricsAdded(p.db.devices, DeviceEvents(p.workers[w].batch), devices)
  }

  ghost function Step(p: Pipe, capacity: nat, m: Move): Pipe
    requires Enabled(p, capacity, m)
  {
    match m
    case Invoke(c) => p.(calls := p.calls + [c], arriving := p.arriving + multiset(Emitted(c)))
    case Enqueue(t) =>
      var p' := p.(arriving := p.arriving - multiset{t});
      if |p.queue| < capacity then p'.(queue := p.queue + [t]) else p'.(overflow := p.overflow + multiset{t})
    case OverflowSend(t) => p.(overflow := p.overflow - multiset{t}, queue := p.queue + [t])
    case OverflowRun(t, now) =>
      p.(overflow := p.overflow - multiset{t}, db := RunTask(p.db, t, now), doneLog := p.doneLog + [t],
         doneRpc := p.doneRpc + [t], doneDevices := p.doneDevices + [t])
    case Take(w) => p.(queue := p.queue[1..], workers := p.workers[w := Worker(Draining, [p.queue[0]])])
    case Drain(w) =>
      p.(queue := p.queue[1..], workers := p.workers[w := Worker(Draining, p.workers[w].batch + [p.queue[0]])])
    case WriteLog(w, now) =>
      var ops := LogOps(p.workers[w].batch, now);
      p.(db := p.db.(log := RunLog(RunLog(p.db.log, Creates(ops)), Completions(ops))),
         doneLog := p.doneLog + p.workers[w].batch, workers := p.workers[w := p.workers[w].(stage := LogWritten)])
    case WriteRpc(w, rpc) =>
      p.(db := p.db.(rpc := rpc), doneRpc := p.doneRpc + p.workers[w].batch,
         workers := p.workers[w := p.workers[w].(stage := RpcWritten)])
    case WriteDevices(w, devices) =>
      p.(db := p.db.(devices := devices), doneDevices := p.doneDevices + p.workers[w].batch,
         workers := p.workers[w := IDLE])
  }

  predicate Start(p: Pipe, workers: nat) {
    p == Pipe([], multiset{}, [], multiset{}, seq(workers, _ => IDLE), p.db, [], [], [])
  }

  /** The states that a list of moves leads through, or None if one of them is not possible. */
  ghost function After(p: Pipe, capacity: nat, moves: seq<Move>): Option<Pipe>
    decreases |moves|
  {
    if moves == [] then Some(p)
    else
      match After(p, capacity, moves[..|moves| - 1])
      case None => None
      case Some(q) =>
        if Enabled(q, capacity, moves[|moves| - 1]) then Some(Step(q, capacity, moves[|moves| - 1])) else None
  }

  predicate Quiet(p: Pipe) {
    p.arriving == multiset{} && p.queue == [] && p.overflow == multiset{} &&
    forall w :: 0 <= w < |p.workers| ==> p.workers[w].batch == []
  }

  // ---- What is still to be written ----

  datatype Table = LogTable | RpcTable | DeviceTable

  function Held(w: Worker, t: Table): seq<Task> {
    match t
    case LogTable => if w.stage == Draining then w.batch else []
    case RpcTable => if w.stage == RpcWritten then [] else w.batch
    case DeviceTable => w.batch
  }

  function Pool(workers: seq<Worker>, t: Table): multiset<Task> {
    if workers == [] then multiset{} else multiset(Held(workers[0], t)) + Pool(workers[1..], t)
  }

  function Done(p: Pipe, t: Table): seq<Task> {
    match t
    case LogTable => p.doneLog
    case RpcTable => p.doneRpc
    case DeviceTable => p.doneDevices
  }

  /** How often x is still to be written to a table. */
  function Pending(p: Pipe, t: Table, x: Task): nat {
    p.arriving[x] + multiset(p.queue)[x] + p.overflow[x] + Pool(p.workers, t)[x]
  }

  lemma {:induction false} PoolUpdate(workers: seq<Worker>, w: nat, b: Worker, t: Table, x: Task)
    requires w < |workers|
    ensures Pool(workers[w := b], t)[x] + multiset(Held(workers[w], t))[x] ==
            Pool(workers, t)[x] + multiset(Held(b, t))[x]
  {
    if w == 0 {
      assert workers[w := b][1..] == workers[1..];
    } else {
      assert workers[w := b][1..] == workers[1..][w - 1 := b];
      PoolUpdate(workers[1..], w - 1, b, t, x);
    }
  }

  lemma {:induction false} PoolOfEmpty(workers: seq<Worker>, t: Table)
    requires forall w :: 0 <= w < |workers| ==> workers[w].batch == []
    ensures Pool(workers, t) == multiset{}
  {
    if workers != [] {
      PoolOfEmpty(workers[1..], t);
    }
  }

  // ---- Conservation ----

  /** Every task emitted so far has been given to a table exactly once, or still will be. */
  ghost predicate Conserved(p: Pipe, t: Table) {
    forall x: Task :: Balance(p, t, x) == 0
  }

  function Balance(p: Pipe, t: Table, x: Task): int {
    multiset(Done(p, t))[x] + Pending(p, t, x) - multiset(AllEmitted(p.calls))[x]
  }

  lemma Appended(s: seq<Task>, t: seq<Task>, x: Task)
    ensures multiset(s + t)[x] == multiset(s)[x] + multiset(t)[x]
  {
  }

  lemma Taken(q: seq<Task>, x: Task)
    requires q != []
    ensures multiset(q)[x] == multiset([q[0]])[x] + multiset(q[1..])[x]
  {
    assert q == [q[0]] + q[1..];
  }

  lemma EmittedLast(calls: seq<Call>, c: Call, x: Task)
    ensures multiset(AllEmitted(calls + [c]))[x] == multiset(AllEmitted(calls))[x] + multiset(Emitted(c))[x]
  {
    assert (calls + [c])[..|calls|] == calls;
    Appended(AllEmitted(calls), Emitted(c), x);
  }

  lemma {:induction false} InvokeConserves(p: Pipe, capacity: nat, m: Move, t: Table, x: Task)
    requires m.Invoke?
    ensures Balance(Step(p, capacity, m), t, x) == Balance(p, t, x)
  {
    EmittedLast(p.calls, m.c, x);
  }

  lemma EnqueueConserves(p: Pipe, capacity: nat, m: Move, t: Table, x: Task)
    requires Enabled(p, capacity, m) && m.Enqueue?
    ensures Balance(Step(p, capacity, m), t, x) == Balance(p, t, x)
  {
    Appended(p.queue, [m.t], x);
    assert (p.arriving - multiset{m.t})[x] == p.arriving[x] - multiset{m.t}[x];
  }

  lemma OverflowSendConserves(p: Pipe, capacity: nat, m: Move, t: Table, x: Task)
    requires Enabled(p, capacity, m) && m.OverflowSend?
    ensures Balance(Step(p, capacity, m), t, x) == Balance(p, t, x)
  {
    Appended(p.queue, [m.t], x);
    assert (p.overflow - multiset{m.t})[x] == p.overflow[x] - multiset{m.t}[x];
  }

  lemma OverflowRunConserves(p: Pipe, capacity: nat, m: Move, t: Table, x: Task)
    requires Enabled(p, capacity, m) && m.OverflowRun?
    ensures Balance(Step(p, capacity, m), t, x) == Balance(p, t, x)
  {
    Appended(Done(p, t), [m.t], x);
  }

  /** A worker takes the head of the queue. */
  lemma HeadIsTaken(workers: seq<Worker>, w: nat, queue: seq<Task>, batch: seq<Task>, t: Table, x: Task)
    requires w < |workers| && workers[w] == Worker(Draining, batch) && queue != []
    ensures var workers' := workers[w := Worker(Draining, batch + [queue[0]])];
            Pool(workers', t)[x] + multiset(queue[1..])[x] == Pool(workers, t)[x] + multiset(queue)[x]
  {
    PoolUpdate(workers, w, Worker(Draining, batch + [queue[0]]), t, x);
    Taken(queue, x);
    Appended(batch, [queue[0]], x);
  }

  lemma TakeConserves(p: Pipe, capacity: nat, m: Move, t: Table, x: Task)
    requires Enabled(p, capacity, m) && m.Take?
    ensures Balance(Step(p, capacity, m), t, x) == Balance(p, t, x)
  {
    assert [] + [p.queue[0]] == [p.queue[0]];
    HeadIsTaken(p.workers, m.w, p.queue, [], t, x);
  }

  lemma DrainConserves(p: Pipe, capacity: nat, m: Move, t: Table, x: Task)
    requires Enabled(p, capacity, m) && m.Drain?
    ensures Balance(Step(p, capacity, m), t, x) == Balance(p, t, x)
  {
    HeadIsTaken(p.workers, m.w, p.queue, p.workers[m.w].batch, t, x);
  }

  lemma WriteLogConserves(p: Pipe, capacity: nat, m: Move, t: Table, x: Task)
    requires Enabled(p, capacity, m) && m.WriteLog?
    ensures Balance(Step(p, capacity, m), t, x) == Balance(p, t, x)
  {
    PoolUpdate(p.workers, m.w, p.workers[m.w].(stage := LogWritten), t, x);
    Appended(Done(p, t), p.workers[m.w].batch, x);
  }

  lemma WriteRpcConserves(p: Pipe, capacity: nat, m: Move, t: Table, x: Task)
    requires Enabled(p, capacity, m) && m.WriteRpc?
    ensures Balance(Step(p, capacity, m), t, x) == Balance(p, t, x)
  {
    PoolUpdate(p.workers, m.w, p.workers[m.w].(stage := RpcWritten), t, x);
    Appended(Done(p, t), p.workers[m.w].batch, x);
  }

  lemma WriteDevicesConserves(p: Pipe, capacity: nat, m: Move, t: Table, x: Task)
    requires Enabled(p, capacity, m) && m.WriteDevices?
    ensures Balance(Step(p, capacity, m), t, x) == Balance(p, t, x)
  {
    PoolUpdate(p.workers, m.w, IDLE, t, x);
    Appended(Done(p, t), p.workers[m.w].batch, x);
  }

  lemma StepConserves(p: Pipe, capacity: nat, m: Move, t: Table)
    requires Enabled(p, capacity, m) && Conserved(p, t)
    ensures Conserved(Step(p, capacity, m), t)
  {
    forall x: Task ensures Balance(Step(p, capacity, m), t, x) == 0 {
      assert Balance(p, t, x) == 0;
      if m.Invoke? {
        InvokeConserves(p, capacity, m, t, x);
      } else if m.Enqueue? {
        EnqueueConserves(p, capacity, m, t, x);
      } else if m.OverflowSend? {
        OverflowSendConserves(p, capacity, m, t, x);
      } else if m.OverflowRun? {
        OverflowRunConserves(p, capacity, m, t, x);
      } else if m.Take? {
        TakeConserves(p, capacity, m, t, x);
      } else if m.Drain? {
        DrainConserves(p, capacity, m, t, x);
      } else if m.WriteLog? {
        WriteLogConserves(p, capacity, m, t, x);
      } else if m.WriteRpc? {
        WriteRpcConserves(p, capacity, m, t, x);
      } else {
        WriteDevicesConserves(p, capacity, m, t, x);
      }
    }
  }
}
