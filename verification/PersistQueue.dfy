/** The persist channel as `InvokeRPC`, `enqueuePersist` and one worker use it (internal/app/app.go),
    and how that matches the moves of the pipeline. */
module PersistQueue {
  import opened PersistBatch
  import opened Pipeline
  import opened Wrappers

  /** The channel and its overflow after some tasks have been put in, in order. */
  function EnqueueAll(queue: seq<Task>, overflow: multiset<Task>, capacity: nat, tasks: seq<Task>)
    : (seq<Task>, multiset<Task>)
    decreases |tasks|
  {
    if tasks == [] then (queue, overflow)
    else if |queue| < capacity then EnqueueAll(queue + [tasks[0]], overflow, capacity, tasks[1..])
    else EnqueueAll(queue, overflow + multiset{tasks[0]}, capacity, tasks[1..])
  }

  class App {
    const capacity: nat
    var queue: seq<Task>
    var overflow: multiset<Task>

    constructor (capacity: nat)
      ensures this.capacity == capacity && queue == [] && overflow == multiset{}
    {
      this.capacity := capacity;
      queue, overflow := [], multiset{};
    }

    /** A full channel leaves the task to a new goroutine. */
    method EnqueuePersist(t: Task)
      modifies this
      ensures (queue, overflow) == EnqueueAll(old(queue), old(overflow), capacity, [t])
    {
      if |queue| < capacity {
        queue := queue + [t];
      } else {
        overflow := overflow + multiset{t};
      }
    }

    /** `InvokeRPC` from the group check on; c.outcome is what the group check and the hub answered. */
    method InvokeRpc(c: Call)
      modifies this
      ensures (queue, overflow) == EnqueueAll(old(queue), old(overflow), capacity, Emitted(c))
    {
      if c.outcome.Refused? {
        return;
      }
      var client := c.preferred;
      if c.outcome.client != "" {
        client := c.outcome.client;
      }
      var createTask := Task(CreateRequest, c.id, client, c.group, c.action, "pending", 200, c.requestText, "", 0, "",
                             c.requester, "");
      if c.outcome.Failed? {
        var status, httpCode := "timeout", 504;
        var why := c.outcome.why;
        if why == NoOnlineClient || why == PreferredClientDown {
          status, httpCode := "no_client", 502;
        } else if why == ClientQueueFull || why == GroupSaturated {
          status, httpCode := "rejected", 429;
        }
        var completeTask := createTask.(kind := CompleteRequest, status := status, httpCode := httpCode,
                                        responsePayload := c.responseText, error := c.outcome.message);
        EnqueueTasks(c, completeTask, status, 0, client, c.rpcDay, c.rpcDay);
      } else {
        var status, httpCode := c.outcome.status, c.outcome.httpCode;
        if httpCode == 0 {
          httpCode := 200;
        }
        if status == "" {
          status := "success";
        }
        var completeTask := createTask.(kind := CompleteRequest, status := status, httpCode := httpCode,
                                        responsePayload := c.responseText, latency := c.outcome.latency,
                                        error := c.outcome.error);
        EnqueueTasks(c, completeTask, status, c.outcome.latency, client, c.rpcDay, c.deviceDay);
      }
    }

    /** The three calls of `enqueuePersist` that end both branches. */
    method EnqueueTasks(c: Call, completeTask: Task, status: string, latency: int, client: string, rpcDay: string,
                        deviceDay: string)
      modifies this
      ensures var rpc := Task(RpcMetric, "", client, c.group, c.action, status, 0, "", "", latency, "", None, rpcDay);
              var device :=
                Task(DeviceMetric, "", client, c.group, "", status, 0, "", "", latency, "", None, deviceDay);
              (queue, overflow) ==
              EnqueueAll(old(queue), old(overflow), capacity,
                         [completeTask, rpc] + (if client == "" then [] else [device]))
    {
      EnqueuePersist(completeTask);
      var rpc := Task(RpcMetric, "", client, c.group, c.action, status, 0, "", "", latency, "", None, rpcDay);
      EnqueueTwice(old(queue), old(overflow), capacity, [completeTask], [rpc]);
      EnqueuePersist(rpc);
      assert [completeTask] + [rpc] == [completeTask, rpc];
      if client != "" {
        var device := Task(DeviceMetric, "", client, c.group, "", status, 0, "", "", latency, "", None, deviceDay);
        EnqueueTwice(old(queue), old(overflow), capacity, [completeTask, rpc], [device]);
        EnqueuePersist(device);
      } else {
        assert [completeTask, rpc] + [] == [completeTask, rpc];
      }
    }

    /** One round of `persistWorker` up to the batch that it runs. */
    method NextBatch() returns (batch: seq<Task>)
      requires queue != []
      modifies `queue
      ensures 0 < |batch| <= 256 && batch + queue == old(queue)
      ensures |batch| < 256 ==> queue == []
    {
      batch := [queue[0]];
      queue := queue[1..];
      while |batch| < BATCH_SIZE
        invariant 0 < |batch| <= BATCH_SIZE && batch + queue == old(queue)
        decreases BATCH_SIZE - |batch|
      {
        if queue == [] {
          break;
        }
        batch := batch + [queue[0]];
        queue := queue[1..];
      }
    }
  }

  lemma {:induction false} EnqueueTwice(queue: seq<Task>, overflow: multiset<Task>, capacity: nat, a: seq<Task>,
                                        b: seq<Task>)
    ensures var (q, o) := EnqueueAll(queue, overflow, capacity, a);
            EnqueueAll(queue, overflow, capacity, a + b) == EnqueueAll(q, o, capacity, b)
    decreases |a|
  {
    if a == [] {
      assert a + b == b;
    } else {
      assert (a + b)[1..] == a[1..] + b;
      if |queue| < capacity {
        EnqueueTwice(queue + [a[0]], overflow, capacity, a[1..], b);
      } else {
        EnqueueTwice(queue, overflow + multiset{a[0]}, capacity, a[1..], b);
      }
    }
  }

  /** Nothing is lost or doubled on the way in, and the channel never holds more than its capacity. */
  lemma {:induction false} EnqueueConserves(queue: seq<Task>, overflow: multiset<Task>, capacity: nat,
                                            tasks: seq<Task>)
    ensures var (q, o) := EnqueueAll(queue, overflow, capacity, tasks);
            multiset(q) + o == multiset(queue) + overflow + multiset(tasks) &&
            (|queue| <= capacity ==> |q| <= capacity)
    decreases |tasks|
  {
    if tasks != [] {
      assert tasks == [tasks[0]] + tasks[1..];
      if |queue| < capacity {
        EnqueueConserves(queue + [tasks[0]], overflow, capacity, tasks[1..]);
      } else {
        EnqueueConserves(queue, overflow + multiset{tasks[0]}, capacity, tasks[1..]);
      }
    }
  }

  lemma OneOverflow(overflow: multiset<Task>, extra: seq<Task>)
    requires extra != []
    ensures overflow + multiset{extra[0]} + multiset(extra[1..]) == overflow + multiset(extra)
  {
    assert extra == [extra[0]] + extra[1..];
  }

  /** The channel is filled first, in order; only what finds it full overflows. */
  lemma {:induction false} ChannelFillsFirst(queue: seq<Task>, overflow: multiset<Task>, capacity: nat,
                                             fits: seq<Task>, extra: seq<Task>)
    requires |queue| + |fits| <= capacity && (extra != [] ==> |queue| + |fits| == capacity)
    ensures EnqueueAll(queue, overflow, capacity, fits + extra) == (queue + fits, overflow + multiset(extra))
    decreases |fits| + |extra|
  {
    var tasks := fits + extra;
    if fits != [] {
      assert tasks[1..] == fits[1..] + extra;
      ChannelFillsFirst(queue + [fits[0]], overflow, capacity, fits[1..], extra);
      assert queue + [fits[0]] + fits[1..] == queue + fits;
    } else {
      assert queue + fits == queue && tasks == extra;
      if extra != [] {
        assert fits + extra[1..] == extra[1..];
        OneOverflow(overflow, extra);
        ChannelFillsFirst(queue, overflow + multiset{extra[0]}, capacity, fits, extra[1..]);
      } else {
        assert overflow + multiset(extra) == overflow;
      }
    }
  }

  /** The moves of a worker that drains a batch of n tasks. */
  function DrainMoves(w: nat, n: nat): seq<Move>
    requires n > 0
  {
    if n == 1 then [Take(w)] else DrainMoves(w, n - 1) + [Move.Drain(w)]
  }

  /** Draining a batch is a run of the pipeline: an idle worker ends up with the front of the queue. */
  lemma {:induction false} NextBatchIsARun(p: Pipe, capacity: nat, w: nat, n: nat)
    requires w < |p.workers| && p.workers[w] == IDLE && 0 < n <= |p.queue| && n <= BATCH_SIZE
    ensures After(p, capacity, DrainMoves(w, n)) ==
            Some(p.(queue := p.queue[n..], workers := p.workers[w := Worker(Draining, p.queue[..n])]))
  {
    var moves := DrainMoves(w, n);
    if n == 1 {
      assert moves[..0] == [] && p.queue[..1] == [p.queue[0]];
    } else {
      NextBatchIsARun(p, capacity, w, n - 1);
      assert moves[..|moves| - 1] == DrainMoves(w, n - 1);
      assert p.queue[..n - 1] + [p.queue[n - 1]] == p.queue[..n];
      assert p.queue[n - 1..][1..] == p.queue[n..];
      var q := After(p, capacity, DrainMoves(w, n - 1)).value;
      assert moves[|moves| - 1] == Move.Drain(w) && Enabled(q, capacity, Move.Drain(w));
      assert q.workers[w := Worker(Draining, p.queue[..n])] == p.workers[w := Worker(Draining, p.queue[..n])];
    }
  }
}
