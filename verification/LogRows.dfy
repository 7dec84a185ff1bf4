/** Which rows of the request log a run of the pipeline changes, and when
    (internal/app/app.go, internal/app/persist_batch.go, internal/store/store.go). */
module LogRows {
  import opened PersistBatch
  import opened Pipeline
  import opened PipelineRuns
  import opened PipelineTables
  import opened Requests
  import opened Wrappers

  function RowAt(log: Log, id: string): Option<RequestRow> {
    if id in log then Some(log[id]) else None
  }

  predicate CompletedIn(tasks: seq<Task>, id: string) {
    exists i :: 0 <= i < |tasks| && Completes(tasks[i], id)
  }

  function AfterTask(log: Log, t: Task, now: nat): Log {
    if t.kind == CompleteRequest then Complete(log, ItemOf(t), now) else log
  }

  lemma RowOfOneTask(log: Log, t: Task, now: nat, id: string)
    ensures var row := RowAt(AfterTask(log, t, now), id);
      if Completes(t, id) then row.Some? && row.value.finished == Some(now) else row == RowAt(log, id)
  {
  }

  lemma {:induction false} TaskByTask(log: Log, tasks: seq<Task>, now: nat)
    requires AllPlain(tasks) && tasks != []
    ensures RunLog(log, LogOps(tasks, now)) == RunLog(AfterTask(log, tasks[0], now), LogOps(tasks[1..], now))
  {
    FirstOp(tasks, now);
  }

  lemma CompletedFirst(tasks: seq<Task>, id: string)
    requires tasks != []
    ensures CompletedIn(tasks, id) <==> Completes(tasks[0], id) || CompletedIn(tasks[1..], id)
  {
    CompletedParts([tasks[0]], tasks[1..], id);
    assert tasks == [tasks[0]] + tasks[1..];
    assert CompletedIn([tasks[0]], id) <==> Completes([tasks[0]][0], id);
  }

  /** A transaction at time now leaves other rows alone and gives this time to those that it completes. */
  lemma {:induction false} RowsOfOneWrite(log: Log, tasks: seq<Task>, now: nat, id: string)
    requires AllPlain(tasks)
    ensures var row := RowAt(RunLog(log, LogOps(tasks, now)), id);
      if CompletedIn(tasks, id) then row.Some? && row.value.finished == Some(now) else row == RowAt(log, id)
    decreases |tasks|
  {
    if tasks != [] {
      TaskByTask(log, tasks, now);
      RowOfOneTask(log, tasks[0], now, id);
      RowsOfOneWrite(AfterTask(log, tasks[0], now), tasks[1..], now, id);
      CompletedFirst(tasks, id);
    }
  }

  lemma CompletedParts(a: seq<Task>, b: seq<Task>, id: string)
    ensures CompletedIn(a + b, id) <==> CompletedIn(a, id) || CompletedIn(b, id)
  {
    if CompletedIn(a, id) {
      var i :| 0 <= i < |a| && Completes(a[i], id);
      assert (a + b)[i] == a[i];
    }
    if CompletedIn(b, id) {
      var i :| 0 <= i < |b| && Completes(b[i], id);
      assert (a + b)[|a| + i] == b[i];
    }
  }

  /** The times at which the log was written. */
  function WriteTimes(moves: seq<Move>): set<nat> {
    if moves == [] then {}
    else
      var m := moves[|moves| - 1];
      WriteTimes(moves[..|moves| - 1]) +
      (if m.WriteLog? then {m.now} else if m.OverflowRun? then {m.now} else {})
  }

  ghost predicate RowFollows(row: Option<RequestRow>, before: Option<RequestRow>, completed: bool, times: set<nat>) {
    if completed then row.Some? && row.value.finished.Some? && row.value.finished.value in times
    else row == before
  }

  lemma WriteFollows(log: Log, init: Log, done: seq<Task>, batch: seq<Task>, now: nat, times: set<nat>, id: string)
    requires AllPlain(batch)
    requires RowFollows(RowAt(log, id), RowAt(init, id), CompletedIn(done, id), times)
    ensures RowFollows(RowAt(RunLog(log, LogOps(batch, now)), id), RowAt(init, id), CompletedIn(done + batch, id),
                       times + {now})
  {
    RowsOfOneWrite(log, batch, now, id);
    CompletedParts(done, batch, id);
  }

  lemma StepRows(p: Pipe, capacity: nat, m: Move, init: Log, times: set<nat>, id: string)
    requires Enabled(p, capacity, m) && PlainEverywhere(p)
    requires RowFollows(RowAt(p.db.log, id), RowAt(init, id), CompletedIn(p.doneLog, id), times)
    ensures var q := Step(p, capacity, m);
      var now: set<nat> := if m.WriteLog? then {m.now} else if m.OverflowRun? then {m.now} else {};
      RowFollows(RowAt(q.db.log, id), RowAt(init, id), CompletedIn(q.doneLog, id), times + now)
  {
    if m.WriteLog? {
      PlainOps(p.workers[m.w].batch, m.now);
      WriteFollows(p.db.log, init, p.doneLog, p.workers[m.w].batch, m.now, times, id);
    } else if m.OverflowRun? {
      SingleTask(p.db, m.t, m.now);
      WriteFollows(p.db.log, init, p.doneLog, [m.t], m.now, times, id);
    } else {
      assert times + {} == times;
    }
  }

  /** In every reachable state: the rows of requests that no task given to the log completes are those
      there before, finishing time included, and the other ones finished when the log was written. */
  lemma {:induction false} RowsFollow(p: Pipe, workers: nat, capacity: nat, moves: seq<Move>, id: string)
    requires Start(p, workers) && After(p, capacity, moves).Some?
    ensures var q := After(p, capacity, moves).value;
      RowFollows(RowAt(q.db.log, id), RowAt(p.db.log, id), CompletedIn(q.doneLog, id), WriteTimes(moves))
    decreases |moves|
  {
    if moves != [] {
      var before := moves[..|moves| - 1];
      RowsFollow(p, workers, capacity, before, id);
      RunIsGood(p, workers, capacity, before);
      StepRows(After(p, capacity, before).value, capacity, moves[|moves| - 1], p.db.log, WriteTimes(before), id);
    }
  }

  /** Some call with this request ID passed the group check. */
  predicate Accepted(calls: seq<Call>, id: string) {
    exists i :: 0 <= i < |calls| && calls[i].id == id && !calls[i].outcome.Refused?
  }

  lemma EmittedCompletes(c: Call, id: string)
    ensures CompletedIn(Emitted(c), id) <==> c.id == id && !c.outcome.Refused?
  {
    if !c.outcome.Refused? {
      assert Emitted(c)[0] == CompletionTask(c);
    }
  }

  lemma {:induction false} AcceptedAreCompleted(calls: seq<Call>, id: string)
    ensures CompletedIn(AllEmitted(calls), id) <==> Accepted(calls, id)
  {
    if calls != [] {
      var others, c := calls[..|calls| - 1], calls[|calls| - 1];
      AcceptedAreCompleted(others, id);
      EmittedCompletes(c, id);
      CompletedParts(AllEmitted(others), Emitted(c), id);
      AcceptedLast(others, c, id);
      assert calls == others + [c];
    }
  }

  lemma AcceptedLast(others: seq<Call>, c: Call, id: string)
    ensures Accepted(others + [c], id) <==> Accepted(others, id) || (c.id == id && !c.outcome.Refused?)
  {
    var calls := others + [c];
    if Accepted(others, id) {
      var i: nat :| i < |others| && others[i].id == id && !others[i].outcome.Refused?;
      assert calls[i] == others[i];
    }
    assert calls[|others|] == c;
  }

  lemma CompletedInAnyOrder(a: seq<Task>, b: seq<Task>, id: string)
    requires multiset(a) == multiset(b) && CompletedIn(a, id)
    ensures CompletedIn(b, id)
  {
    var i :| 0 <= i < |a| && Completes(a[i], id);
    assert a[i] in multiset(a);
    assert a[i] in multiset(b);
  }

  /** Main result: once the pipeline is quiet, the rows of requests without an accepted call are those
      there before, and every accepted call has a row that finished when the log was written. */
  lemma QuietRows(p: Pipe, workers: nat, capacity: nat, moves: seq<Move>, id: string)
    requires Start(p, workers) && After(p, capacity, moves).Some? && Quiet(After(p, capacity, moves).value)
    ensures var q := After(p, capacity, moves).value; var row := RowAt(q.db.log, id);
      if Accepted(q.calls, id) then
        row.Some? && row.value.finished.Some? && row.value.finished.value in WriteTimes(moves)
      else row == RowAt(p.db.log, id)
  {
    var q := After(p, capacity, moves).value;
    RunIsGood(p, workers, capacity, moves);
    assert Conserved(q, LogTable);
    QuietIsDone(q, LogTable);
    RowsFollow(p, workers, capacity, moves, id);
    AcceptedAreCompleted(q.calls, id);
    if CompletedIn(q.doneLog, id) {
      CompletedInAnyOrder(q.doneLog, AllEmitted(q.calls), id);
    }
    if CompletedIn(AllEmitted(q.calls), id) {
      CompletedInAnyOrder(AllEmitted(q.calls), q.doneLog, id);
    }
  }
}
