/** The pipeline never gets stuck: from every reachable state it can go on, without new calls, until
    nothing is on its way any more (internal/app/app.go). */
module PipelineDrain {
  import opened Metrics
  import opened PersistBatch
  import opened Pipeline
  import opened Wrappers

  // ---- Runs that go on ----

  lemma {:induction false} AfterConcat(p: Pipe, capacity: nat, a: seq<Move>, b: seq<Move>)
    requires After(p, capacity, a).Some?
    ensures After(p, capacity, a + b) == After(After(p, capacity, a).value, capacity, b)
    decreases |b|
  {
    if b == [] {
      assert a + b == a;
    } else {
      var front := b[..|b| - 1];
      AfterConcat(p, capacity, a, front);
      assert (a + b)[..|a + b| - 1] == a + front;
    }
  }

  lemma OneMove(p: Pipe, capacity: nat, m: Move)
    requires Enabled(p, capacity, m)
    ensures After(p, capacity, [m]) == Some(Step(p, capacity, m))
  {
    assert [m][..0] == [];
  }

  // ---- Some order of the deltas ----

  lemma {:induction false} SomeOrder<K(!new)>(deltas: map<K, Row>) returns (items: seq<(K, Row)>)
    ensures Lists(items, deltas)
    decreases |deltas|
  {
    if deltas == map[] {
      items := [];
    } else {
      var k :| k in deltas;
      var rest := SomeOrder(deltas - {k});
      items := [(k, deltas[k])] + rest;
      ListedFirst(deltas, k, rest);
    }
  }

  lemma ListedFirst<K(!new)>(deltas: map<K, Row>, k: K, rest: seq<(K, Row)>)
    requires k in deltas && Lists(rest, deltas - {k})
    ensures Lists([(k, deltas[k])] + rest, deltas)
  {
    var items := [(k, deltas[k])] + rest;
    forall key: K | key in deltas ensures exists i :: 0 <= i < |items| && items[i].0 == key {
      if key == k {
        assert items[0].0 == key;
      } else {
        assert key in deltas - {k};
        var i :| 0 <= i < |rest| && rest[i].0 == key;
        assert items[i + 1].0 == key;
      }
    }
  }

  lemma SomeResult<K(!new)>(before: map<K, Row>, events: seq<Event<K>>) returns (after: map<K, Row>)
    ensures MetricsAdded(before, events, after)
  {
    var items := SomeOrder(AccumulateAll(map[], events));
    AddedBy(before, events, items);
    after := UpsertAll(before, items);
  }

  // ---- How much is left to do ----

  function WorkLeft(w: Worker): nat {
    if w.batch == [] then 0
    else
      match w.stage
      case Draining => 3
      case LogWritten => 2
      case RpcWritten => 1
  }

  function WorkersLeft(workers: seq<Worker>): nat {
    if workers == [] then 0 else WorkLeft(workers[0]) + WorkersLeft(workers[1..])
  }

  function Left(p: Pipe): nat {
    5 * |p.arriving| + 4 * |p.queue| + 4 * |p.overflow| + WorkersLeft(p.workers)
  }

  /** A worker without a batch is idle. */
  predicate Tidy(p: Pipe) {
    forall w :: 0 <= w < |p.workers| && p.workers[w].batch == [] ==> p.workers[w] == IDLE
  }

  lemma StaysTidy(p: Pipe, capacity: nat, m: Move)
    requires Enabled(p, capacity, m) && Tidy(p)
    ensures Tidy(Step(p, capacity, m)) && |Step(p, capacity, m).workers| == |p.workers|
  {
  }

  lemma {:induction false} RunIsTidy(p: Pipe, workers: nat, capacity: nat, moves: seq<Move>)
    requires Start(p, workers) && After(p, capacity, moves).Some?
    ensures Tidy(After(p, capacity, moves).value) && |After(p, capacity, moves).value.workers| == workers
    decreases |moves|
  {
    if moves != [] {
      var front := moves[..|moves| - 1];
      RunIsTidy(p, workers, capacity, front);
      StaysTidy(After(p, capacity, front).value, capacity, moves[|moves| - 1]);
    }
  }

  lemma {:induction false} WorkUpdate(workers: seq<Worker>, w: nat, b: Worker)
    requires w < |workers|
    ensures WorkersLeft(workers[w := b]) + WorkLeft(workers[w]) == WorkersLeft(workers) + WorkLeft(b)
  {
    if w == 0 {
      assert workers[w := b][1..] == workers[1..];
    } else {
      assert workers[w := b][1..] == workers[1..][w - 1 := b];
      WorkUpdate(workers[1..], w - 1, b);
    }
  }

  /** A move that brings the end nearer. */
  ghost predicate Progress(p: Pipe, capacity: nat, m: Move) {
    Enabled(p, capacity, m) && Left(Step(p, capacity, m)) < Left(p) && Step(p, capacity, m).calls == p.calls
  }

  /** One worker has less to do, and the rest of the pipeline is as it was. */
  lemma LessToDo(p: Pipe, p': Pipe, w: nat, b: Worker)
    requires w < |p.workers| && WorkLeft(b) < WorkLeft(p.workers[w]) && p'.workers == p.workers[w := b]
    requires p'.arriving == p.arriving && p'.queue == p.queue && p'.overflow == p.overflow
    ensures Left(p') < Left(p)
  {
    WorkUpdate(p.workers, w, b);
  }

  lemma LogProgress(p: Pipe, capacity: nat, w: nat)
    requires w < |p.workers| && p.workers[w].batch != [] && p.workers[w].stage == Draining
    ensures Progress(p, capacity, WriteLog(w, 0))
  {
    LessToDo(p, Step(p, capacity, WriteLog(w, 0)), w, p.workers[w].(stage := LogWritten));
  }

  lemma RpcProgress(p: Pipe, capacity: nat, w: nat, rpc: map<RpcKey, Row>)
    requires w < |p.workers| && p.workers[w].batch != [] && p.workers[w].stage == LogWritten
    requires MetricsAdded(p.db.rpc, RpcEvents(p.workers[w].batch), rpc)
    ensures Progress(p, capacity, WriteRpc(w, rpc))
  {
    LessToDo(p, Step(p, capacity, WriteRpc(w, rpc)), w, p.workers[w].(stage := RpcWritten));
  }

  lemma DevicesProgress(p: Pipe, capacity: nat, w: nat, devices: map<DeviceKey, Row>)
    requires w < |p.workers| && p.workers[w].batch != [] && p.workers[w].stage == RpcWritten
    requires MetricsAdded(p.db.devices, DeviceEvents(p.workers[w].batch), devices)
    ensures Progress(p, capacity, WriteDevices(w, devices))
  {
    LessToDo(p, Step(p, capacity, WriteDevices(w, devices)), w, IDLE);
  }

  lemma NextOfWorker(p: Pipe, capacity: nat, w: nat) returns (m: Move)
    requires w < |p.workers| && p.workers[w].batch != []
    ensures Progress(p, capacity, m)
  {
    match p.workers[w].stage
    case Draining =>
      m := WriteLog(w, 0);
      LogProgress(p, capacity, w);
    case LogWritten =>
      var rpc := SomeResult(p.db.rpc, RpcEvents(p.workers[w].batch));
      m := WriteRpc(w, rpc);
      RpcProgress(p, capacity, w, rpc);
    case RpcWritten =>
      var devices := SomeResult(p.db.devices, DeviceEvents(p.workers[w].batch));
      m := WriteDevices(w, devices);
      DevicesProgress(p, capacity, w, devices);
  }

  lemma OneFewer(m: multiset<Task>, t: Task)
    requires t in m
    ensures |m - multiset{t}| == |m| - 1
  {
  }

  lemma EnqueueProgress(p: Pipe, capacity: nat, t: Task)
    requires t in p.arriving
    ensures Progress(p, capacity, Enqueue(t))
  {
    OneFewer(p.arriving, t);
    assert |p.overflow + multiset{t}| == |p.overflow| + 1;
  }

  lemma OverflowProgress(p: Pipe, capacity: nat, t: Task)
    requires t in p.overflow
    ensures Progress(p, capacity, OverflowRun(t, 0))
  {
    OneFewer(p.overflow, t);
  }

  lemma NextOfQueue(p: Pipe, capacity: nat) returns (m: Move)
    requires p.arriving != multiset{} || p.overflow != multiset{}
    ensures Progress(p, capacity, m)
  {
    if p.overflow != multiset{} {
      var t :| t in p.overflow;
      m := OverflowRun(t, 0);
      OverflowProgress(p, capacity, t);
    } else {
      var t :| t in p.arriving;
      m := Enqueue(t);
      EnqueueProgress(p, capacity, t);
    }
  }

  lemma NextMove(p: Pipe, capacity: nat) returns (m: Move)
    requires Tidy(p) && |p.workers| > 0 && !Quiet(p)
    ensures Progress(p, capacity, m)
  {
    if p.arriving != multiset{} || p.overflow != multiset{} {
      m := NextOfQueue(p, capacity);
    } else if w :| 0 <= w < |p.workers| && p.workers[w].batch != [] {
      m := NextOfWorker(p, capacity, w);
    } else {
      m := Take(0);
      WorkUpdate(p.workers, 0, Worker(Draining, [p.queue[0]]));
    }
  }

  lemma {:induction false} DrainFrom(p: Pipe, capacity: nat) returns (moves: seq<Move>)
    requires Tidy(p) && |p.workers| > 0
    ensures After(p, capacity, moves).Some? && Quiet(After(p, capacity, moves).value)
    ensures After(p, capacity, moves).value.calls == p.calls
    decreases Left(p)
  {
    if Quiet(p) {
      moves := [];
    } else {
      var m := NextMove(p, capacity);
      StaysTidy(p, capacity, m);
      var rest := DrainFrom(Step(p, capacity, m), capacity);
      OneMove(p, capacity, m);
      AfterConcat(p, capacity, [m], rest);
      moves := [m] + rest;
    }
  }

  /** Main result: every run with at least one worker can go on, without a new call, until nothing is
      on its way, whatever the capacity of the channel. */
  lemma CanAlwaysDrain(p: Pipe, workers: nat, capacity: nat, moves: seq<Move>)
    requires workers > 0 && Start(p, workers) && After(p, capacity, moves).Some?
    ensures exists more: seq<Move> ::
      After(p, capacity, moves + more).Some? && Quiet(After(p, capacity, moves + more).value) &&
      After(p, capacity, moves + more).value.calls == After(p, capacity, moves).value.calls
  {
    var q := After(p, capacity, moves).value;
    RunIsTidy(p, workers, capacity, moves);
    var more := DrainFrom(q, capacity);
    AfterConcat(p, capacity, moves, more);
  }
}
