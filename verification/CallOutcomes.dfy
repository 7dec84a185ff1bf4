/** How calls of `Invoke` end: exactly when a delivered result reaches its caller, and runs in which
    it does not (internal/rpc/hub.go). */
module CallOutcomes {
  import opened Wrappers
  import opened JobQueues
  import opened HubModel
  import opened Protocol
  import opened RequestSafety
  import opened Routing
  import opened RoutingSteps
  import opened Runs

  // ---- The three ways off the course ----

  /** The caller's context ends before the push or while it waits, or the queue refuses the job. */
  ghost predicate Diverts(w: World, a: Action, i: nat)
    requires Addresses(w) && Enabled(w, a)
  {
    a == GiveUp(i) || a == Abort(i) || (a.PushJob? && a.i == i && InvokeAt(Step(w, a), i, Dropping))
  }

  ghost predicate DivertedAt(worlds: seq<World>, actions: seq<Action>, m: nat, i: nat)
    requires m < |actions| && m + 1 < |worlds|
  {
    Next(worlds[m], actions[m], worlds[m + 1]) && Diverts(worlds[m], actions[m], i)
  }

  ghost predicate OffCourse(pc: InvokePc) {
    pc.Dropping? || pc.Expiring? || pc.Failed? || pc.TimedOut?
  }

  ghost predicate Finished(pc: InvokePc) {
    pc.Returned? || pc.Failed? || pc.TimedOut?
  }

  lemma OthersKeepCourse(w: World, a: Action, i: nat)
    requires Addresses(w) && Enabled(w, a) && !CallMove(a) && !a.PushJob?
    ensures |w.invocations| <= |Step(w, a).invocations| && !Diverts(w, a, i)
    ensures i < |w.invocations| ==> Step(w, a).invocations[i].pc == w.invocations[i].pc
    ensures |w.invocations| <= i < |Step(w, a).invocations| ==> !OffCourse(Step(w, a).invocations[i].pc)
  {
  }

  lemma StepCourse(w: World, a: Action, i: nat)
    requires Addresses(w) && Enabled(w, a)
    ensures |w.invocations| <= |Step(w, a).invocations| && (i >= |w.invocations| ==> !Diverts(w, a, i))
    ensures i < |w.invocations| ==>
      (OffCourse(Step(w, a).invocations[i].pc) <==> OffCourse(w.invocations[i].pc) || Diverts(w, a, i))
    ensures |w.invocations| <= i < |Step(w, a).invocations| ==> !OffCourse(Step(w, a).invocations[i].pc)
  {
    if !CallMove(a) && !a.PushJob? {
      OthersKeepCourse(w, a, i);
    }
  }

  ghost predicate OffCourseIn(w: World, i: nat) {
    i < |w.invocations| && OffCourse(w.invocations[i].pc)
  }

  /** The call goes off its course in this step, and only then. */
  ghost predicate CourseStep(worlds: seq<World>, actions: seq<Action>, m: nat, i: nat)
    requires m < |actions| && m + 1 < |worlds|
  {
    OffCourseIn(worlds[m + 1], i) <==> OffCourseIn(worlds[m], i) || DivertedAt(worlds, actions, m, i)
  }

  lemma NextCourse(worlds: seq<World>, actions: seq<Action>, m: nat, i: nat)
    requires IsRun(worlds, actions) && m < |actions|
    ensures CourseStep(worlds, actions, m, i)
  {
    assert Next(worlds[m], actions[m], worlds[m + 1]);
    StepCourse(worlds[m], actions[m], i);
  }

  /** One of the first n steps diverts the call. */
  ghost predicate Diverted(worlds: seq<World>, actions: seq<Action>, n: nat, i: nat)
    requires |worlds| == |actions| + 1 && n < |worlds|
  {
    n > 0 && (Diverted(worlds, actions, n - 1, i) || DivertedAt(worlds, actions, n - 1, i))
  }

  lemma {:induction false} CourseOf(worlds: seq<World>, actions: seq<Action>, n: nat, i: nat)
    requires |worlds| == |actions| + 1 && n < |worlds| && worlds[0].invocations == []
    requires forall m: nat :: m < |actions| ==> CourseStep(worlds, actions, m, i)
    ensures OffCourseIn(worlds[n], i) <==> Diverted(worlds, actions, n, i)
    decreases n
  {
    if n > 0 {
      CourseOf(worlds, actions, n - 1, i);
      assert CourseStep(worlds, actions, n - 1, i);
    }
  }

  lemma CourseOfRun(worlds: seq<World>, actions: seq<Action>, n: nat, i: nat)
    requires IsRun(worlds, actions) && n < |worlds|
    ensures OffCourseIn(worlds[n], i) <==> Diverted(worlds, actions, n, i)
  {
    forall m: nat | m < |actions| ensures CourseStep(worlds, actions, m, i) {
      NextCourse(worlds, actions, m, i);
    }
    CourseOf(worlds, actions, n, i);
  }

  /** Main result: a call that has ended returned a result exactly if, on its way, its caller's context
      had not ended and its job had not been refused. With a delivery on record this is exactly when
      the delivered result reached the caller; without one the call cannot have returned. */
  lemma ReturnedExactlyIfOnCourse(worlds: seq<World>, actions: seq<Action>, n: nat, i: nat)
    requires IsRun(worlds, actions) && n < |worlds| && i < |worlds[n].invocations|
    requires Finished(worlds[n].invocations[i].pc)
    ensures var pc := worlds[n].invocations[i].pc;
      pc.Returned? <==> !Diverted(worlds, actions, n, i)
    ensures var t := TallyOf(worlds[n].requestLog, RequestOf(worlds[n].invocations, i));
      worlds[n].invocations[i].pc.Returned? ==> t == Tally(1, 0, 0)
  {
    CourseOfRun(worlds, actions, n, i);
    RunIsGood(worlds, actions, n);
    assert InvocationOk(worlds[n], i);
  }

  // ---- Runs in which a delivered result does not reach its caller ----

  lemma Begun(worlds: seq<World>, actions: seq<Action>, job: Job, c: ClientId)
    returns (worlds': seq<World>, actions': seq<Action>)
    requires IsRun(worlds, actions) && Good(worlds[|actions|])
    requires var w := worlds[|actions|]; c in w.hub.sessions && c != "" && !Known(w, job.requestID)
    ensures IsRun(worlds', actions') && Good(worlds'[|actions'|])
    ensures var w, w' := worlds[|actions|], worlds'[|actions'|];
      w'.hub == w.hub && w'.clock == w.clock &&
      w'.invocations == w.invocations + [Invocation(job.(clientID := c), c, w.hub.sessions[c], None, Picked)]
  {
    worlds', actions' := OneMoreStep(worlds, actions, Begin(job, c));
  }

  lemma WaiterStored(worlds: seq<World>, actions: seq<Action>, i: nat)
    returns (worlds': seq<World>, actions': seq<Action>)
    requires IsRun(worlds, actions) && Good(worlds[|actions|]) && InvokeAt(worlds[|actions|], i, Picked)
    ensures IsRun(worlds', actions') && Good(worlds'[|actions'|])
    ensures var w, w' := worlds[|actions|], worlds'[|actions'|];
      w'.hub.heap == w.hub.heap && w'.hub.sessions == w.hub.sessions && w'.clock == w.clock &&
      w'.invocations == w.invocations[i := w.invocations[i].(pc := Stored)] &&
      RequestOf(w.invocations, i) in w'.hub.waiters
  {
    worlds', actions' := OneMoreStep(worlds, actions, Store(i));
  }

  /** The result of a stored waiter's client arrives. */
  lemma Answered(worlds: seq<World>, actions: seq<Action>, i: nat, result: JobResult)
    returns (worlds': seq<World>, actions': seq<Action>)
    requires IsRun(worlds, actions) && Good(worlds[|actions|]) && i < |worlds[|actions|].invocations|
    requires var w := worlds[|actions|];
      RequestOf(w.invocations, i) == result.requestID && result.requestID in w.hub.waiters
    ensures IsRun(worlds', actions') && Good(worlds'[|actions'|]) && worlds <= worlds' && actions <= actions'
    ensures var w, w' := worlds[|actions|], worlds'[|actions'|];
      SameQueues(w.hub, w'.hub) && w'.clock == w.clock &&
      w'.invocations == w.invocations[i := w.invocations[i].(slot := Some(result))]
  {
    var w := worlds[|actions|];
    worlds', actions' := OneMoreStep(worlds, actions, Submit(w.invocations[i].client, result));
    assert InvocationOk(w, i);
    ArrivalAtWaiter(w, w.invocations[i].client, result, i);
    SubmitQueues(w.hub, w.invocations[i].client, result, w.clock);
  }

  /** A step that only moves the call on. */
  lemma Moved(worlds: seq<World>, actions: seq<Action>, i: nat, a: Action, pc: InvokePc)
    returns (worlds': seq<World>, actions': seq<Action>)
    requires IsRun(worlds, actions) && Good(worlds[|actions|]) && i < |worlds[|actions|].invocations|
    requires Enabled(worlds[|actions|], a)
    requires (a == Abort(i) && pc == Dropping) || (a == GiveUp(i) && pc == Expiring)
      || (a == Drop(i) && pc == Failed) || (a == Expire(i) && pc == TimedOut)
    ensures IsRun(worlds', actions') && Good(worlds'[|actions'|]) && worlds <= worlds' && actions <= actions'
    ensures |actions'| == |actions| + 1 && actions'[|actions|] == a
    ensures var w, w' := worlds[|actions|], worlds'[|actions'|];
      w'.invocations == w.invocations[i := w.invocations[i].(pc := pc)] &&
      (a == GiveUp(i) ==> w'.hub == w.hub && w'.clock == w.clock)
  {
    worlds', actions' := OneMoreStep(worlds, actions, a);
  }

  /** A run that ends with the call in this state, although its result was delivered. */
  ghost predicate EndsDelivered(worlds: seq<World>, actions: seq<Action>, i: nat, pc: InvokePc, r: RequestId) {
    IsRun(worlds, actions) && InvokeAt(worlds[|actions|], i, pc) && RequestOf(worlds[|actions|].invocations, i) == r &&
    TallyOf(worlds[|actions|].requestLog, r) == Tally(1, 0, 0)
  }

  lemma FilledSlotIsDelivered(w: World, i: nat)
    requires Good(w) && i < |w.invocations| && w.invocations[i].slot.Some?
    ensures TallyOf(w.requestLog, RequestOf(w.invocations, i)) == Tally(1, 0, 0)
  {
    assert InvocationOk(w, i);
  }

  /** When the caller gave up, its result had been delivered this often. */
  ghost predicate GaveUpAfter(worlds: seq<World>, actions: seq<Action>, i: nat, deliveries: nat, r: RequestId) {
    exists m :: 0 <= m < |actions| && m < |worlds| && actions[m] == GiveUp(i) &&
      TallyOf(worlds[m].requestLog, r).delivered == deliveries
  }

  /** The result is in the channel, the deadline has passed, and the select takes the deadline. */
  lemma SelectTakesTheDeadline(job: Job, result: JobResult)
    requires job.requestID == result.requestID
    ensures exists worlds: seq<World>, actions ::
      EndsDelivered(worlds, actions, 0, TimedOut, job.requestID) && GaveUpAfter(worlds, actions, 0, 1, job.requestID)
  {
    var worlds, actions := ACallCanWait(job);
    worlds, actions := Answered(worlds, actions, 0, result);
    var m := |actions|;
    FilledSlotIsDelivered(worlds[m], 0);
    worlds, actions := Moved(worlds, actions, 0, GiveUp(0), Expiring);
    worlds, actions := Moved(worlds, actions, 0, Expire(0), TimedOut);
    FilledSlotIsDelivered(worlds[|actions|], 0);
    assert actions[m] == GiveUp(0) && TallyOf(worlds[m].requestLog, job.requestID).delivered == 1;
    assert EndsDelivered(worlds, actions, 0, TimedOut, job.requestID);
  }

  /** The deadline is taken first, and the result arrives before `expireWaiter` has the lock. */
  lemma ResultComesAfterTheDeadline(job: Job, result: JobResult)
    requires job.requestID == result.requestID
    ensures exists worlds: seq<World>, actions ::
      EndsDelivered(worlds, actions, 0, TimedOut, job.requestID) && GaveUpAfter(worlds, actions, 0, 0, job.requestID)
  {
    var worlds, actions := ACallCanWait(job);
    var m := |actions|;
    assert InvocationOk(worlds[m], 0);
    worlds, actions := Moved(worlds, actions, 0, GiveUp(0), Expiring);
    worlds, actions := Answered(worlds, actions, 0, result);
    worlds, actions := Moved(worlds, actions, 0, Expire(0), TimedOut);
    FilledSlotIsDelivered(worlds[|actions|], 0);
    assert actions[m] == GiveUp(0) && TallyOf(worlds[m].requestLog, job.requestID).delivered == 0;
    assert EndsDelivered(worlds, actions, 0, TimedOut, job.requestID);
  }

  /** The result arrives between storing the waiter and finding that the context has ended. */
  lemma ContextEndsBeforeThePush(job: Job, result: JobResult)
    requires job.requestID == result.requestID
    ensures exists worlds: seq<World>, actions :: EndsDelivered(worlds, actions, 0, Failed, job.requestID)
  {
    var worlds, actions := Registering("client", job.group);
    worlds, actions := Begun(worlds, actions, job, "client");
    worlds, actions := WaiterStored(worlds, actions, 0);
    worlds, actions := Answered(worlds, actions, 0, result);
    worlds, actions := Moved(worlds, actions, 0, Abort(0), Dropping);
    worlds, actions := Moved(worlds, actions, 0, Drop(0), Failed);
    FilledSlotIsDelivered(worlds[|actions|], 0);
    assert EndsDelivered(worlds, actions, 0, Failed, job.requestID);
  }

  lemma Pushed(worlds: seq<World>, actions: seq<Action>, i: nat)
    returns (worlds': seq<World>, actions': seq<Action>)
    requires IsRun(worlds, actions) && Good(worlds[|actions|]) && InvokeAt(worlds[|actions|], i, Stored)
    requires worlds[|actions|].invocations[i].session in worlds[|actions|].hub.heap
    ensures IsRun(worlds', actions') && Good(worlds'[|actions'|])
    ensures var w, w' := worlds[|actions|], worlds'[|actions'|];
      var v := w.invocations[i];
      var (q, ok) := PushStep(w.hub.heap[v.session].queue, v.job, w.clock);
      w'.hub == WithQueue(w.hub, v.session, q) && w'.clock == w.clock &&
      w'.invocations == w.invocations[i := v.(pc := if ok then Waiting else Dropping)]
  {
    worlds', actions' := OneMoreStep(worlds, actions, Action.PushJob(i, worlds[|actions|].clock));
  }

  /** A client with an empty queue of one, and a call that has stored its waiter. */
  lemma FirstCallStored(first: Job) returns (worlds: seq<World>, actions: seq<Action>)
    ensures IsRun(worlds, actions) && Good(worlds[|actions|])
    ensures var w := worlds[|actions|]; var c: ClientId := "client";
      |w.invocations| == 1 && RequestOf(w.invocations, 0) == first.requestID &&
      c in w.hub.sessions && w.hub.sessions[c] in w.hub.heap &&
      w.invocations[0] == Invocation(first.(clientID := c), c, w.hub.sessions[c], None, Stored) &&
      w.hub.heap[w.hub.sessions[c]].queue == NewQueue(1)
  {
    worlds, actions := Registering("client", first.group);
    worlds, actions := Begun(worlds, actions, first, "client");
    worlds, actions := WaiterStored(worlds, actions, 0);
  }

  lemma PushFills(job: Job, now: Time)
    requires job.deadlineAt == None
    ensures PushStep(NewQueue(1), job, now) == (QueueState([job], 1, 1), true)
  {
    assert [] + [job] == [job];
  }

  /** The same client after its job has filled the queue. */
  lemma QueueFilled(first: Job) returns (worlds: seq<World>, actions: seq<Action>)
    requires first.deadlineAt == None
    ensures IsRun(worlds, actions) && Good(worlds[|actions|])
    ensures var w := worlds[|actions|];
      |w.invocations| == 1 && RequestOf(w.invocations, 0) == first.requestID &&
      "client" in w.hub.sessions && w.hub.sessions["client"] in w.hub.heap &&
      w.hub.heap[w.hub.sessions["client"]].queue == QueueState([first.(clientID := "client")], 1, 1)
  {
    worlds, actions := FirstCallStored(first);
    PushFills(first.(clientID := "client"), worlds[|actions|].clock);
    worlds, actions := Pushed(worlds, actions, 0);
  }

  /** A second call of the client, answered before its job is pushed. */
  lemma SecondCallAnswered(first: Job, job: Job, result: JobResult) returns (worlds: seq<World>, actions: seq<Action>)
    requires job.requestID == result.requestID != first.requestID && first.deadlineAt == None
    ensures IsRun(worlds, actions) && Good(worlds[|actions|])
    ensures var w := worlds[|actions|];
      InvokeAt(w, 1, Stored) && w.invocations[1].slot.Some? && w.invocations[1].job == job.(clientID := "client") &&
      w.invocations[1].session in w.hub.heap &&
      w.hub.heap[w.invocations[1].session].queue == QueueState([first.(clientID := "client")], 1, 1)
  {
    worlds, actions := QueueFilled(first);
    var queue := QueueState([first.(clientID := "client")], 1, 1);
    worlds, actions := Begun(worlds, actions, job, "client");
    worlds, actions := WaiterStored(worlds, actions, 1);
    assert worlds[|actions|].hub.heap[worlds[|actions|].invocations[1].session].queue == queue;
    worlds, actions := Answered(worlds, actions, 1, result);
  }

  /** One call's job fills a queue of one; the result of the next call arrives before its job is refused. */
  lemma JobIsRefused(first: Job, job: Job, result: JobResult)
    requires job.requestID == result.requestID != first.requestID
    requires first.deadlineAt == None && job.deadlineAt == None
    ensures exists worlds: seq<World>, actions :: EndsDelivered(worlds, actions, 1, Failed, job.requestID)
  {
    var worlds, actions := SecondCallAnswered(first, job, result);
    var queue := QueueState([first.(clientID := "client")], 1, 1);
    assert !PushStep(queue, job.(clientID := "client"), worlds[|actions|].clock).1;
    worlds, actions := Pushed(worlds, actions, 1);
    worlds, actions := Moved(worlds, actions, 1, Drop(1), Failed);
    FilledSlotIsDelivered(worlds[|actions|], 1);
    assert EndsDelivered(worlds, actions, 1, Failed, job.requestID);
  }
}
