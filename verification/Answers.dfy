/** What a client is told that submits a result, from what has happened in the run (internal/rpc/hub.go). */
module Answers {
  import opened Wrappers
  import opened JobQueues
  import opened HubModel
  import opened Protocol
  import opened RequestSafety
  import opened Runs

  /** Tombstones are kept for ten minutes, in nanoseconds. */
  const TEN_MINUTES := 600_000_000_000

  // ---- When a request was over ----

  /** When the last delivery, expiry or late result of a request was, in the first n steps. */
  ghost function EndedAt(worlds: seq<World>, n: nat, r: RequestId): Option<Time>
    requires n < |worlds|
  {
    if n == 0 then None
    else if TallyOf(worlds[n].requestLog, r) != TallyOf(worlds[n - 1].requestLog, r) then Some(worlds[n - 1].clock)
    else EndedAt(worlds, n - 1, r)
  }

  /** There is a tombstone for as long as there has to be, with the time of the end. */
  ghost predicate Remembered(w: World, r: RequestId, ended: Option<Time>) {
    && (r in w.hub.completed ==> ended == Some(w.hub.completed[r].finishedAt))
    && (ended.Some? ==> ended.value <= w.clock)
    && (ended.Some? && w.clock - ended.value <= TEN_MINUTES ==> r in w.hub.completed)
  }

  /** Only old tombstones go, and time goes on. */
  lemma StillRemembered(w: World, w': World, r: RequestId, ended: Option<Time>)
    requires Remembered(w, r, ended) && w.clock <= w'.clock
    requires r in w'.hub.completed ==> r in w.hub.completed && w'.hub.completed[r] == w.hub.completed[r]
    requires r in w.hub.completed && w'.clock - w.hub.completed[r].finishedAt <= TEN_MINUTES ==> r in w'.hub.completed
    ensures Remembered(w', r, ended)
  {
  }

  ghost function EndedNow(w: World, w': World, r: RequestId, ended: Option<Time>): Option<Time> {
    if TallyOf(w'.requestLog, r) != TallyOf(w.requestLog, r) then Some(w.clock) else ended
  }

  lemma ExpireRemembers(w: World, i: nat, r: RequestId, ended: Option<Time>)
    requires Remembered(w, r, ended) && i < |w.invocations|
    ensures Remembered(DoExpire(w, i), r, EndedNow(w, DoExpire(w, i), r, ended))
  {
    var q := RequestOf(w.invocations, i);
    if q in w.hub.waiters {
      ExpiryTally(w.requestLog, q, r);
    }
    if q != r || q !in w.hub.waiters {
      StillRemembered(w, DoExpire(w, i), r, ended);
    }
  }

  lemma SubmitRemembers(w: World, c: ClientId, result: JobResult, r: RequestId, ended: Option<Time>)
    requires Remembered(w, r, ended) && Addresses(w)
    ensures Remembered(DoSubmit(w, c, result), r, EndedNow(w, DoSubmit(w, c, result), r, ended))
  {
    var answer := SubmitResult(w.hub, c, result, w.clock).1;
    var w' := DoSubmit(w, c, result);
    if answer == Ok(Delivered) {
      TallyAppend(w.requestLog, Delivery(c, result), r);
    } else if answer == Ok(LateResult) {
      TallyAppend(w.requestLog, LateArrival(result.requestID), r);
    } else {
      assert w'.requestLog == w.requestLog;
    }
    if r != result.requestID || (answer != Ok(Delivered) && answer != Ok(LateResult)) {
      StillRemembered(w, w', r, ended);
    }
  }

  lemma OtherRemembers(w: World, a: Action, r: RequestId, ended: Option<Time>)
    requires Remembered(w, r, ended) && Addresses(w) && Enabled(w, a) && !a.Expire? && !a.Submit?
    ensures Step(w, a).requestLog == w.requestLog && Remembered(Step(w, a), r, ended)
  {
    StillRemembered(w, Step(w, a), r, ended);
  }

  lemma StepRemembers(w: World, a: Action, r: RequestId, ended: Option<Time>)
    requires Remembered(w, r, ended) && Addresses(w) && Enabled(w, a)
    ensures Remembered(Step(w, a), r, EndedNow(w, Step(w, a), r, ended))
  {
    if a.Expire? {
      ExpireRemembers(w, a.i, r, ended);
    } else if a.Submit? {
      SubmitRemembers(w, a.client, a.result, r, ended);
    } else {
      OtherRemembers(w, a, r, ended);
    }
  }

  lemma {:induction false} RunRemembers(worlds: seq<World>, actions: seq<Action>, n: nat, r: RequestId)
    requires IsRun(worlds, actions) && n < |worlds|
    ensures Remembered(worlds[n], r, EndedAt(worlds, n, r))
  {
    if n > 0 {
      var w, a, ended := worlds[n - 1], actions[n - 1], EndedAt(worlds, n - 1, r);
      RunRemembers(worlds, actions, n - 1, r);
      assert Next(w, a, worlds[n - 1 + 1]);
      StepRemembers(w, a, r, ended);
    }
  }

  // ---- The answer ----

  /** Somebody still waits: the waiter is stored, the call is not over, and no result was delivered. */
  ghost predicate Waits(w: World, i: nat)
    requires i < |w.invocations|
  {
    InFlight(w.invocations[i].pc) && TallyOf(w.requestLog, RequestOf(w.invocations, i)).delivered == 0
  }

  ghost predicate Recent(w: World, ended: Option<Time>) {
    ended.Some? && w.clock - ended.value <= TEN_MINUTES
  }

  lemma AnswerInState(w: World, c: ClientId, result: JobResult, i: nat, ended: Option<Time>)
    requires Good(w) && Addresses(w) && Remembered(w, result.requestID, ended)
    requires i < |w.invocations| && RequestOf(w.invocations, i) == result.requestID
    ensures SubmitResult(w.hub, c, result, w.clock).1 ==
      var t := TallyOf(w.requestLog, result.requestID);
      if !Waits(w, i) && !Recent(w, ended) then Err(ResultNotWaiting)
      else if c != w.invocations[i].client then Err(ResultClientMismatch)
      else if Waits(w, i) then Ok(Delivered)
      else if t.expired == 1 && t.late == 0 then Ok(LateResult)
      else Ok(Duplicate)
  {
    assert InvocationOk(w, i);
  }

  /** Main result: a result is delivered exactly if its request still waits and it comes from the client that was
      picked. Within ten minutes after the end it is late, if the request has expired and none was late before,
      and a duplicate otherwise; from another client it is a mismatch. Before and after that nobody waits. */
  lemma AnsweredByHistory(worlds: seq<World>, actions: seq<Action>, n: nat, c: ClientId, result: JobResult)
    requires IsRun(worlds, actions) && n < |worlds|
    ensures Addresses(worlds[n])
    ensures var w, r := worlds[n], result.requestID;
      var answer := SubmitResult(w.hub, c, result, w.clock).1;
      (!Known(w, r) ==> answer == Err(ResultNotWaiting)) &&
      forall i: nat :: i < |w.invocations| && RequestOf(w.invocations, i) == r ==>
        var t, recent := TallyOf(w.requestLog, r), Recent(w, EndedAt(worlds, n, r));
        (answer == Ok(Delivered) <==> Waits(w, i) && c == w.invocations[i].client) &&
        (answer == Ok(LateResult) <==>
           !Waits(w, i) && recent && c == w.invocations[i].client && t.expired == 1 && t.late == 0) &&
        (answer == Ok(Duplicate) <==>
           !Waits(w, i) && recent && c == w.invocations[i].client && !(t.expired == 1 && t.late == 0)) &&
        (answer == Err(ResultClientMismatch) <==> (Waits(w, i) || recent) && c != w.invocations[i].client) &&
        (answer == Err(ResultNotWaiting) <==> !Waits(w, i) && !recent)
  {
    var w, r := worlds[n], result.requestID;
    RunIsGood(worlds, actions, n);
    RunRemembers(worlds, actions, n, r);
    if !Known(w, r) {
      assert Unseen(w, r);
    }
    forall i: nat | i < |w.invocations| && RequestOf(w.invocations, i) == r
      ensures SubmitResult(w.hub, c, result, w.clock).1 ==
        var t := TallyOf(w.requestLog, r);
        var recent := Recent(w, EndedAt(worlds, n, r));
        if !Waits(w, i) && !recent then Err(ResultNotWaiting)
        else if c != w.invocations[i].client then Err(ResultClientMismatch)
        else if Waits(w, i) then Ok(Delivered)
        else if t.expired == 1 && t.late == 0 then Ok(LateResult)
        else Ok(Duplicate)
    {
      AnswerInState(w, c, result, i, EndedAt(worlds, n, r));
    }
  }

  ghost predicate NoneOlder(h: Hub, now: Time) {
    forall r: RequestId :: r in h.completed ==> now - h.completed[r].finishedAt <= TEN_MINUTES
  }

  /** Whenever a waiter is stored or expires, or a result comes, tombstones older than ten minutes go. */
  lemma OldTombstonesGo(h: Hub, r: RequestId, c: ClientId, channel: nat, result: JobResult, now: Time)
    requires Pointers(h)
    ensures NoneOlder(StoreWaiter(h, r, c, channel, now), now)
    ensures r in h.waiters ==> NoneOlder(ExpireWaiter(h, r, now), now)
    ensures NoneOlder(SubmitResult(h, c, result, now).0, now)
  {
  }

  // ---- A job that comes back ----

  /** A requeued job is reported exactly if its client has gone or the queue is full of live jobs; otherwise it
      is at the tail of the queue of the client's session now, unless it has expired. */
  lemma RequeuedOrReported(h: Hub, c: ClientId, job: Job, now: Time)
    requires Pointers(h)
    ensures var (h', error) := Requeue(h, c, job, now);
      if c !in h.sessions then h' == h && error == Some(ClientSessionGone)
      else
        var a := h.sessions[c];
        var q, q' := h.heap[a].queue, h'.heap[a].queue;
        h' == WithQueue(h, a, q') &&
        if job.deadlineAt.Some? && now >= job.deadlineAt.value then q' == q && error == None
        else if |q.items| >= q.limit && |Live(q.items, now)| >= q.limit then
          q'.items == Live(q.items, now) && error == Some(ClientQueueFull)
        else
          error == None && q'.items != [] && q'.items[|q'.items| - 1] == job && q'.notify == q.notify + 1 &&
          q'.items[..|q'.items| - 1] == if |q.items| >= q.limit then Live(q.items, now) else q.items
  {
  }
}
