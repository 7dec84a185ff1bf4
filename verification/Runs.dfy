/** What holds in every state of every run of the hub, whatever the interleaving of callers,
    consumers, clients and registrations (internal/rpc/hub.go, internal/web/client_ws.go). */
module Runs {
  import opened Wrappers
  import opened JobQueues
  import opened HubModel
  import opened HubIndex
  import opened Protocol
  import opened RequestSafety
  import opened SlotSafety
  import opened SlotSteps
  import opened Routing
  import opened RoutingSteps

  /** The log of slots and the log of requests tell the same story. */
  ghost predicate ReleasesMatch(w: World) {
    forall r :: Count(w.slotLog, ReleasedFor(r)) == TallyOf(w.requestLog, r).delivered + TallyOf(w.requestLog, r).late
  }

  ghost predicate Good(w: World) {
    SlotsOk(w) && RequestsOk(w) && JobsOk(w) && ReleasesMatch(w)
  }

  ghost predicate Next(w: World, a: Action, w': World) {
    Addresses(w) && Enabled(w, a) && w' == Step(w, a)
  }

  /** A run from an empty hub. */
  ghost predicate IsRun(worlds: seq<World>, actions: seq<Action>) {
    && |worlds| == |actions| + 1
    && (exists pendingSize, defaultMaxInFlight :: worlds[0] == Start(pendingSize, defaultMaxInFlight))
    && forall i :: 0 <= i < |actions| ==> Next(worlds[i], actions[i], worlds[i + 1])
  }

  lemma StartGood(pendingSize: int, defaultMaxInFlight: int)
    ensures Good(Start(pendingSize, defaultMaxInFlight))
  {
    StartSlotsOk(pendingSize, defaultMaxInFlight);
  }

  lemma CallMoveRequests(w: World, a: Action)
    requires RequestsOk(w) && Addresses(w) && Enabled(w, a) && CallMove(a)
    ensures RequestsOk(Step(w, a))
  {
    match a
    case Tick(_) => SameRequests(w, Step(w, a));
    case Store(i) => StoreSafe(w, i);
    case Abort(i) => MoveSafe(w, Step(w, a), i);
    case Drop(i) => DropSafe(w, i);
    case Receive(i) => ReceiveSafe(w, i);
    case GiveUp(i) => MoveSafe(w, Step(w, a), i);
    case Expire(i) => ExpireSafe(w, i);
  }

  lemma StepKeepsRequests(w: World, a: Action)
    requires RequestsOk(w) && Addresses(w) && Enabled(w, a)
    ensures RequestsOk(Step(w, a))
  {
    if CallMove(a) {
      CallMoveRequests(w, a);
    } else if a.Begin? {
      BeginSafe(w, a.job, a.preferred);
    } else if a.PushJob? {
      MoveSafe(w, Step(w, a), a.i);
    } else if a.Submit? {
      SubmitSafe(w, a.client, a.result);
    } else {
      SameRequests(w, Step(w, a));
    }
  }

  /** At most one event of each log, and none of them about the release for a result. */
  lemma UnrelatedEvents(w: World, w': World)
    requires ReleasesMatch(w)
    requires w'.slotLog == w.slotLog
             || exists e :: w'.slotLog == w.slotLog + [e] && !(e.GaveBack? && e.giver.ByResult?)
    requires w'.requestLog == w.requestLog || exists e :: w'.requestLog == w.requestLog + [e] && e.Expiry?
    ensures ReleasesMatch(w')
  {
    forall r
      ensures Count(w'.slotLog, ReleasedFor(r)) ==
              TallyOf(w'.requestLog, r).delivered + TallyOf(w'.requestLog, r).late
    {
      if w'.slotLog != w.slotLog {
        var e :| w'.slotLog == w.slotLog + [e] && !(e.GaveBack? && e.giver.ByResult?);
        CountAppend(w.slotLog, e, ReleasedFor(r));
      }
      if w'.requestLog != w.requestLog {
        var e :| w'.requestLog == w.requestLog + [e] && e.Expiry?;
        TallyAppend(w.requestLog, e, r);
      }
    }
  }

  /** A result gives a slot back exactly if it is recorded. */
  lemma ResultEvents(w: World, c: ClientId, result: JobResult)
    requires Addresses(w)
    ensures var w' := DoSubmit(w, c, result);
      var e := GaveBack(ReleasedFrom(w.hub, c), ByResult(result.requestID));
      (w'.slotLog == w.slotLog && w'.requestLog == w.requestLog) ||
      (w'.slotLog == w.slotLog + [e] &&
       (w'.requestLog == w.requestLog + [Delivery(c, result)] ||
        w'.requestLog == w.requestLog + [LateArrival(result.requestID)]))
  {
    assert w.slotLog + [] == w.slotLog && w.requestLog + [] == w.requestLog;
  }

  lemma SubmitReleases(w: World, c: ClientId, result: JobResult)
    requires ReleasesMatch(w) && Addresses(w)
    ensures ReleasesMatch(DoSubmit(w, c, result))
  {
    var w' := DoSubmit(w, c, result);
    ResultEvents(w, c, result);
    forall r
      ensures Count(w'.slotLog, ReleasedFor(r)) ==
              TallyOf(w'.requestLog, r).delivered + TallyOf(w'.requestLog, r).late
    {
      CountAppend(w.slotLog, GaveBack(ReleasedFrom(w.hub, c), ByResult(result.requestID)), ReleasedFor(r));
      TallyAppend(w.requestLog, Delivery(c, result), r);
      TallyAppend(w.requestLog, LateArrival(result.requestID), r);
    }
  }

  lemma StepKeepsReleases(w: World, a: Action)
    requires ReleasesMatch(w) && Addresses(w) && Enabled(w, a)
    ensures ReleasesMatch(Step(w, a))
  {
    if a.Submit? {
      SubmitReleases(w, a.client, a.result);
    } else {
      UnrelatedEvents(w, Step(w, a));
    }
  }

  lemma StepKeepsGood(w: World, a: Action)
    requires Good(w) && Enabled(w, a)
    ensures Good(Step(w, a))
  {
    StepKeepsSlots(w, a);
    StepKeepsRequests(w, a);
    StepKeepsJobs(w, a);
    StepKeepsReleases(w, a);
  }

  /** Main result: the whole invariant holds in every state of every run. */
  lemma {:induction false} RunIsGood(worlds: seq<World>, actions: seq<Action>, i: nat)
    requires IsRun(worlds, actions) && i < |worlds|
    ensures Good(worlds[i])
  {
    if i == 0 {
      var pendingSize, defaultMaxInFlight :| worlds[0] == Start(pendingSize, defaultMaxInFlight);
      StartGood(pendingSize, defaultMaxInFlight);
    } else {
      RunIsGood(worlds, actions, i - 1);
      assert Next(worlds[i - 1], actions[i - 1], worlds[i - 1 + 1]);
      StepKeepsGood(worlds[i - 1], actions[i - 1]);
    }
  }

  // ---- Delivery ----

  lemma {:induction false} TallyCounts(log: seq<RequestEvent>, r: RequestId, j: nat)
    requires j < |log| && log[j].Delivery? && log[j].result.requestID == r
    ensures TallyOf(log, r).delivered >= 1
    ensures forall k :: 0 <= k < j && log[k].Delivery? && log[k].result.requestID == r ==>
      TallyOf(log, r).delivered >= 2
  {
    var front := log[..|log| - 1];
    if j < |log| - 1 {
      TallyCounts(front, r, j);
      assert forall k :: 0 <= k < j ==> front[k] == log[k];
    } else {
      forall k | 0 <= k < j && log[k].Delivery? && log[k].result.requestID == r
        ensures TallyOf(log, r).delivered >= 2
      {
        TallyCounts(front, r, k);
      }
    }
  }

  /** Exactly one entry of the log delivers a result of request `r`, and it is this one. */
  ghost predicate OnlyDelivery(log: seq<RequestEvent>, c: ClientId, result: JobResult) {
    exists j :: 0 <= j < |log| && log[j] == Delivery(c, result)
      && forall k :: 0 <= k < |log| && log[k].Delivery? && log[k].result.requestID == result.requestID ==> k == j
  }

  /** Main result: a result that `Invoke` returns was submitted for its own request, by the client
      that `pickSession` chose for it, in the one submission that the hub ever delivered for it. */
  lemma DeliverySafety(worlds: seq<World>, actions: seq<Action>, n: nat, i: nat)
    requires IsRun(worlds, actions) && n < |worlds|
    requires i < |worlds[n].invocations| && worlds[n].invocations[i].pc.Returned?
    ensures var v := worlds[n].invocations[i];
      && v.pc.result.requestID == v.job.requestID
      && v.session in worlds[n].hub.heap && worlds[n].hub.heap[v.session].clientID == v.client
      && OnlyDelivery(worlds[n].requestLog, v.client, v.pc.result)
  {
    RunIsGood(worlds, actions, n);
    var w := worlds[n];
    var v := w.invocations[i];
    assert InvocationOk(w, i) && CallRouted(w, i);
    var j :| 0 <= j < |w.requestLog| && w.requestLog[j] == Delivery(v.client, v.pc.result);
    forall k | 0 <= k < |w.requestLog| && w.requestLog[k].Delivery? &&
               w.requestLog[k].result.requestID == v.job.requestID
      ensures k == j
    {
      TallyCounts(w.requestLog, v.job.requestID, j);
      TallyCounts(w.requestLog, v.job.requestID, k);
    }
  }

  /** Main result: no accepted result is lost. Whoever waits has an empty slot, so the send in
      `SubmitResult` always finds room; and a call that is still under way has its waiter, or has
      the one delivered result in its slot. */
  lemma NoResultIsLost(worlds: seq<World>, actions: seq<Action>, n: nat)
    requires IsRun(worlds, actions) && n < |worlds|
    ensures var w := worlds[n];
      && (forall r :: r in w.hub.waiters ==> var i := w.hub.waiters[r].channel;
            i < |w.invocations| && w.invocations[i].slot == None && RequestOf(w.invocations, i) == r
            && w.invocations[i].client == w.hub.waiters[r].clientID)
      && (forall i :: 0 <= i < |w.invocations| && InFlight(w.invocations[i].pc) ==>
            RequestOf(w.invocations, i) in w.hub.waiters
            || (w.invocations[i].slot.Some?
                && OnlyDelivery(w.requestLog, w.invocations[i].client, w.invocations[i].slot.value)))
  {
    RunIsGood(worlds, actions, n);
    var w := worlds[n];
    forall r | r in w.hub.waiters
      ensures var i := w.hub.waiters[r].channel;
        i < |w.invocations| && w.invocations[i].slot == None && RequestOf(w.invocations, i) == r
        && w.invocations[i].client == w.hub.waiters[r].clientID
    {
      assert Known(w, r);
      var i :| 0 <= i < |w.invocations| && RequestOf(w.invocations, i) == r;
      assert InvocationOk(w, i);
    }
    forall i | 0 <= i < |w.invocations| && w.invocations[i].slot.Some?
      ensures OnlyDelivery(w.requestLog, w.invocations[i].client, w.invocations[i].slot.value)
    {
      assert InvocationOk(w, i);
      SlotIsOnlyDelivery(w, i);
    }
    forall i | 0 <= i < |w.invocations| && InFlight(w.invocations[i].pc)
      ensures RequestOf(w.invocations, i) in w.hub.waiters || w.invocations[i].slot.Some?
    {
      assert InvocationOk(w, i);
    }
  }

  lemma SlotIsOnlyDelivery(w: World, i: nat)
    requires i < |w.invocations| && InvocationOk(w, i) && w.invocations[i].slot.Some?
    ensures OnlyDelivery(w.requestLog, w.invocations[i].client, w.invocations[i].slot.value)
  {
    var v, log := w.invocations[i], w.requestLog;
    var j :| 0 <= j < |log| && log[j] == Delivery(v.client, v.slot.value);
    forall k | 0 <= k < |log| && log[k].Delivery? && log[k].result.requestID == v.job.requestID
      ensures k == j
    {
      TallyCounts(log, v.job.requestID, j);
      TallyCounts(log, v.job.requestID, k);
    }
  }

  // ---- The life of a request ----

  /** Main result: over a whole run a request is delivered or expired, never both, and gives back
      at most one dispatch slot through its results; a waiter and a tombstone never coexist. */
  lemma LifecycleSafety(worlds: seq<World>, actions: seq<Action>, n: nat, r: RequestId)
    requires IsRun(worlds, actions) && n < |worlds|
    ensures var w := worlds[n]; var t := TallyOf(w.requestLog, r);
      && t.delivered + t.expired <= 1 && t.late <= t.expired
      && Count(w.slotLog, ReleasedFor(r)) <= 1
      && !(r in w.hub.waiters && r in w.hub.completed)
      && (r in w.hub.waiters ==> t == Tally(0, 0, 0))
      && (r in w.hub.completed ==> TombstoneFits(w.hub.completed[r].state, t))
  {
    RunIsGood(worlds, actions, n);
    var w := worlds[n];
    if Known(w, r) {
      var i :| 0 <= i < |w.invocations| && RequestOf(w.invocations, i) == r;
      assert InvocationOk(w, i);
    } else {
      assert Unseen(w, r);
    }
  }

  lemma HistoryGrows(w: World, a: Action)
    requires Addresses(w) && Enabled(w, a)
    ensures w.requestLog <= Step(w, a).requestLog
  {
  }

  lemma {:induction false} TallyGrows(log: seq<RequestEvent>, log': seq<RequestEvent>, r: RequestId)
    requires log <= log'
    ensures var t, t' := TallyOf(log, r), TallyOf(log', r);
      t.delivered <= t'.delivered && t.expired <= t'.expired && t.late <= t'.late
    decreases |log'|
  {
    if |log| < |log'| {
      TallyGrows(log, log'[..|log'| - 1], r);
    } else {
      assert log == log';
    }
  }

  lemma {:induction false} LogsGrow(worlds: seq<World>, actions: seq<Action>, m: nat, n: nat)
    requires IsRun(worlds, actions) && m <= n < |worlds|
    ensures worlds[m].requestLog <= worlds[n].requestLog
    decreases n
  {
    if m < n {
      LogsGrow(worlds, actions, m, n - 1);
      assert Next(worlds[n - 1], actions[n - 1], worlds[n - 1 + 1]);
      HistoryGrows(worlds[n - 1], actions[n - 1]);
    }
  }

  /** Main result: a request that has been delivered stays delivered, and one that has expired can
      only turn late, however long the run goes on and even after its tombstone is gone. */
  lemma LifecycleIsOneWay(worlds: seq<World>, actions: seq<Action>, m: nat, n: nat, r: RequestId)
    requires IsRun(worlds, actions) && m <= n < |worlds|
    ensures var t, t' := TallyOf(worlds[m].requestLog, r), TallyOf(worlds[n].requestLog, r);
      && (t.delivered == 1 ==> t' == Tally(1, 0, 0) && r !in worlds[n].hub.waiters)
      && (t.expired == 1 ==> t'.delivered == 0 && t'.expired == 1 && r !in worlds[n].hub.waiters)
  {
    LogsGrow(worlds, actions, m, n);
    TallyGrows(worlds[m].requestLog, worlds[n].requestLog, r);
    LifecycleSafety(worlds, actions, n, r);
  }

  /** Steps that write no tombstone. */
  ghost predicate KeepsTombstones(w: World, a: Action)
    requires Addresses(w) && Enabled(w, a)
  {
    w.clock <= Step(w, a).clock && Step(w, a).hub.completed == w.hub.completed
  }

  lemma ConsumersKeepTombstones(w: World, a: Action)
    requires Addresses(w) && Enabled(w, a)
    requires ConsumerMove(a) || a.Arrive?
    ensures KeepsTombstones(w, a)
  {
  }

  lemma SlotsKeepTombstones(w: World, a: Action)
    requires Addresses(w) && Enabled(w, a)
    requires a.AcquireFor? || a.PopFor? || a.ReleaseFor? || a.RequeueFor?
    ensures KeepsTombstones(w, a)
  {
  }

  lemma OthersKeepTombstones(w: World, a: Action)
    requires Addresses(w) && Enabled(w, a)
    requires RegistrationMove(a) || a.Begin? || a.PushJob? || a.Tick? || a.Abort? || a.Drop? || a.Receive? || a.GiveUp?
    ensures KeepsTombstones(w, a)
  {
  }

  /** What one step does to the tombstone of one request: it stays, it is written now, or it goes
      because it is older than the retention time. */
  ghost predicate TombstoneStep(w: World, w': World, r: RequestId) {
    && w.clock <= w'.clock
    && (r in w'.hub.completed ==>
          (r in w.hub.completed && w'.hub.completed[r] == w.hub.completed[r])
          || w'.hub.completed[r].finishedAt == w.clock)
    && (r in w.hub.completed && r !in w'.hub.completed ==> w.clock - w.hub.completed[r].finishedAt > RETENTION)
  }

  lemma TombstonesStep(w: World, a: Action, r: RequestId)
    requires Addresses(w) && Enabled(w, a)
    ensures TombstoneStep(w, Step(w, a), r)
  {
    if !a.Store? && !a.Expire? && !a.Submit? {
      if RegistrationMove(a) || a.Begin? || a.PushJob? || CallMove(a) {
        OthersKeepTombstones(w, a);
      } else if ConsumerMove(a) || a.Arrive? {
        ConsumersKeepTombstones(w, a);
      } else {
        SlotsKeepTombstones(w, a);
      }
    }
  }

  lemma {:induction false} FinishedInThePast(worlds: seq<World>, actions: seq<Action>, n: nat, r: RequestId)
    requires IsRun(worlds, actions) && n < |worlds| && r in worlds[n].hub.completed
    ensures worlds[n].hub.completed[r].finishedAt <= worlds[n].clock
  {
    if n > 0 {
      assert Next(worlds[n - 1], actions[n - 1], worlds[n - 1 + 1]);
      TombstonesStep(worlds[n - 1], actions[n - 1], r);
      if r in worlds[n - 1].hub.completed {
        FinishedInThePast(worlds, actions, n - 1, r);
      }
    }
  }

  /** Main result: over a whole run, a request that has a tombstone keeps one, never an older one,
      until the retention time has passed. */
  lemma {:induction false} TombstonesAreRetained(worlds: seq<World>, actions: seq<Action>, m: nat, n: nat, r: RequestId)
    requires IsRun(worlds, actions) && m <= n < |worlds| && r in worlds[m].hub.completed
    ensures var finishedAt := worlds[m].hub.completed[r].finishedAt;
      && finishedAt <= worlds[n].clock
      && (if r in worlds[n].hub.completed then worlds[n].hub.completed[r].finishedAt >= finishedAt
          else worlds[n].clock - finishedAt > RETENTION)
    decreases n
  {
    if m == n {
      FinishedInThePast(worlds, actions, m, r);
    } else {
      TombstonesAreRetained(worlds, actions, m, n - 1, r);
      assert Next(worlds[n - 1], actions[n - 1], worlds[n - 1 + 1]);
      TombstonesStep(worlds[n - 1], actions[n - 1], r);
    }
  }

  /** A caller can time out on a request that the hub reports as delivered: when its deadline has
      won the race and the result arrives before `expireWaiter` runs. */
  lemma DeliveredYetTimedOut(w: World, i: nat, result: JobResult)
    requires Good(w) && InvokeAt(w, i, Expiring) && RequestOf(w.invocations, i) in w.hub.waiters
    requires result.requestID == RequestOf(w.invocations, i)
    ensures var w1 := DoSubmit(w, w.invocations[i].client, result);
      && SubmitResult(w.hub, w.invocations[i].client, result, w.clock).1 == Ok(Delivered)
      && InvokeAt(w1, i, Expiring)
      && InvokeAt(DoExpire(w1, i), i, TimedOut)
      && TallyOf(DoExpire(w1, i).requestLog, result.requestID) == Tally(1, 0, 0)
  {
    var c := w.invocations[i].client;
    assert InvocationOk(w, i);
    ArrivalAtWaiter(w, c, result, i);
    SubmitTally(w, c, result, result.requestID);
    SubmitHub(w.hub, c, result, w.clock);
  }

  // ---- Slots and wake-ups ----

  /** Main result: in every state the slot count of every session is the slots taken from it less
      those given back to it, and lies between 0 and some limit the session has had, none of which
      exceeds the larger of 1024 and the hub's default. */
  lemma SlotAccounting(worlds: seq<World>, actions: seq<Action>, n: nat, a: Address)
    requires IsRun(worlds, actions) && n < |worlds| && a in worlds[n].hub.heap
    ensures var w := worlds[n]; var s := w.hub.heap[a];
      && s.inFlight == Count(w.slotLog, TakenFrom(a)) - Count(w.slotLog, ReturnedTo(a))
      && 0 <= s.inFlight <= LargestLimit(w.hub)
      && (exists m :: Limited(a, m) in w.slotLog && s.inFlight <= m)
  {
    RunIsGood(worlds, actions, n);
    assert SlotsAddUp(worlds[n].hub, worlds[n].slotLog, a);
  }

  /** Main result: a consumer that has ended has asked for the release of every slot it took, unless it
      handed a job out; then it took one slot and asked for no release. Which session a release gives
      a slot back to is another matter (SlotOwners.dfy). */
  lemma ReleaseAskedUnlessHandedOut(worlds: seq<World>, actions: seq<Action>, n: nat, k: nat)
    requires IsRun(worlds, actions) && n < |worlds| && k < |worlds[n].consumers| && worlds[n].consumers[k].pc.Done?
    ensures var w := worlds[n];
      Count(w.slotLog, TakenBy(k)) - Count(w.slotLog, ReturnedBy(k)) ==
        if w.consumers[k].pc.handedOut.Some? then 1 else 0
  {
    RunIsGood(worlds, actions, n);
    assert SlotBalance(worlds[n].consumers, worlds[n].slotLog, k);
  }

  /** Main result: no wake-up is lost. Who is parked on a session's current dispatch generation
      waits for a registered session without a free slot; who is parked on a queue's current
      generation waits on an empty queue. */
  lemma NoLostWakeUp(worlds: seq<World>, actions: seq<Action>, n: nat, k: nat)
    requires IsRun(worlds, actions) && n < |worlds| && k < |worlds[n].consumers|
    ensures var h, c := worlds[n].hub, worlds[n].consumers[k];
      match c.pc
      case ParkedForSlot(a, generation) =>
        a in h.heap && (generation == h.heap[a].ready ==>
          c.client in h.sessions && h.sessions[c.client] == a && h.heap[a].inFlight >= h.heap[a].maxInFlight)
      case ParkedForJob(a, generation) =>
        a in h.heap && (generation == h.heap[a].queue.notify ==> h.heap[a].queue.items == [])
      case _ => true
  {
    RunIsGood(worlds, actions, n);
    assert ParkedRightly(worlds[n].hub, worlds[n].consumers[k]);
  }

  /** Main result: the indexes agree in every state, and no queue exceeds its limit. */
  lemma IndexSafety(worlds: seq<World>, actions: seq<Action>, n: nat)
    requires IsRun(worlds, actions) && n < |worlds|
    ensures Coherent(worlds[n].hub)
    ensures forall a :: a in worlds[n].hub.heap ==>
      |worlds[n].hub.heap[a].queue.items| <= worlds[n].hub.heap[a].queue.limit
  {
    RunIsGood(worlds, actions, n);
    forall a | a in worlds[n].hub.heap
      ensures |worlds[n].hub.heap[a].queue.items| <= worlds[n].hub.heap[a].queue.limit
    {
      assert QueueBounded(worlds[n].hub, a);
    }
  }

  // ---- Dispatch ----

  /** Main result: the job of a call is handed out by at most one consumer, unchanged, and only by
      a consumer of the client that `pickSession` chose for the call. */
  lemma DispatchedAtMostOnce(worlds: seq<World>, actions: seq<Action>, n: nat, k: nat, job: Job)
    requires IsRun(worlds, actions) && n < |worlds| && k < |worlds[n].consumers|
    requires worlds[n].consumers[k].pc == Done(Some(job))
    ensures exists i :: 0 <= i < |worlds[n].invocations| && worlds[n].invocations[i].job == job
                        && worlds[n].invocations[i].client == worlds[n].consumers[k].client
    ensures forall l, other :: (0 <= l < |worlds[n].consumers| && worlds[n].consumers[l].pc == Done(Some(other))
                                && other.requestID == job.requestID) ==> l == k
  {
    RunIsGood(worlds, actions, n);
    var w := worlds[n];
    assert InHand(w.consumers, k, job);
    var i :| 0 <= i < |w.invocations| && w.invocations[i].job == job;
    assert CallRouted(w, i);
    forall l, other | 0 <= l < |w.consumers| && w.consumers[l].pc == Done(Some(other)) &&
                      other.requestID == job.requestID
      ensures l == k
    {
      assert InHand(w.consumers, l, other);
      var j :| 0 <= j < |w.invocations| && w.invocations[j].job == other;
      assert RequestOf(w.invocations, i) == RequestOf(w.invocations, j);
      assert i == j;
    }
  }

  // ---- Results do come back ----

  /** A run with one more step. */
  lemma OneMoreStep(worlds: seq<World>, actions: seq<Action>, a: Action)
    returns (worlds': seq<World>, actions': seq<Action>)
    requires IsRun(worlds, actions) && Good(worlds[|actions|]) && Enabled(worlds[|actions|], a)
    ensures IsRun(worlds', actions') && actions' == actions + [a] && worlds' == worlds + [Step(worlds[|actions|], a)]
    ensures worlds'[|actions'|] == Step(worlds[|actions|], a) && Good(worlds'[|actions'|])
  {
    var w := worlds[|actions|];
    StepKeepsGood(w, a);
    worlds', actions' := worlds + [Step(w, a)], actions + [a];
    forall i | 0 <= i < |actions'|
      ensures Next(worlds'[i], actions'[i], worlds'[i + 1])
    {
      if i < |actions| {
        assert Next(worlds[i], actions[i], worlds[i + 1]);
      }
    }
  }

  lemma Registering(c: ClientId, g: GroupName) returns (worlds: seq<World>, actions: seq<Action>)
    ensures IsRun(worlds, actions) && Good(worlds[|actions|])
    ensures var w := worlds[|actions|];
      && w.invocations == [] && c in w.hub.sessions && w.hub.sessions[c] in w.hub.heap
      && w.hub.heap[w.hub.sessions[c]].clientID == c && w.hub.heap[w.hub.sessions[c]].queue == NewQueue(1)
  {
    StartGood(1, 1);
    assert IsRun([Start(1, 1)], []);
    worlds, actions := OneMoreStep([Start(1, 1)], [], RegisterClient(c, g, 0, "", 1));
  }

  lemma Picking(worlds: seq<World>, actions: seq<Action>, job: Job, c: ClientId)
    returns (worlds': seq<World>, actions': seq<Action>)
    requires IsRun(worlds, actions) && Good(worlds[|actions|])
    requires var w := worlds[|actions|]; w.invocations == [] && c in w.hub.sessions && c != ""
    ensures IsRun(worlds', actions') && Good(worlds'[|actions'|])
    ensures var w, w' := worlds[|actions|], worlds'[|actions'|];
      && w'.hub == w.hub
      && w'.invocations == [Invocation(job.(clientID := c), c, w.hub.sessions[c], None, Picked)]
  {
    worlds', actions' := OneMoreStep(worlds, actions, Begin(job, c));
  }

  lemma Storing(worlds: seq<World>, actions: seq<Action>) returns (worlds': seq<World>, actions': seq<Action>)
    requires IsRun(worlds, actions) && Good(worlds[|actions|]) && InvokeAt(worlds[|actions|], 0, Picked)
    ensures IsRun(worlds', actions') && Good(worlds'[|actions'|])
    ensures var w, w' := worlds[|actions|], worlds'[|actions'|];
      && w'.hub.heap == w.hub.heap && w'.invocations == w.invocations[0 := w.invocations[0].(pc := Stored)]
      && RequestOf(w.invocations, 0) in w'.hub.waiters
  {
    worlds', actions' := OneMoreStep(worlds, actions, Store(0));
  }

  lemma Pushing(worlds: seq<World>, actions: seq<Action>) returns (worlds': seq<World>, actions': seq<Action>)
    requires IsRun(worlds, actions) && Good(worlds[|actions|]) && InvokeAt(worlds[|actions|], 0, Stored)
    requires var w := worlds[|actions|];
      w.invocations[0].session in w.hub.heap && w.hub.heap[w.invocations[0].session].queue == NewQueue(1)
    ensures IsRun(worlds', actions') && Good(worlds'[|actions'|])
    ensures var w, w' := worlds[|actions|], worlds'[|actions'|];
      && w'.hub.waiters == w.hub.waiters && w'.invocations == w.invocations[0 := w.invocations[0].(pc := Waiting)]
  {
    worlds', actions' := OneMoreStep(worlds, actions, Action.PushJob(0, worlds[|actions|].clock));
  }

  lemma Submitting(worlds: seq<World>, actions: seq<Action>, result: JobResult)
    returns (worlds': seq<World>, actions': seq<Action>)
    requires IsRun(worlds, actions) && Good(worlds[|actions|]) && InvokeAt(worlds[|actions|], 0, Waiting)
    requires RequestOf(worlds[|actions|].invocations, 0) == result.requestID
    requires result.requestID in worlds[|actions|].hub.waiters
    ensures IsRun(worlds', actions') && Good(worlds'[|actions'|])
    ensures var w, w' := worlds[|actions|], worlds'[|actions'|];
      w'.invocations == w.invocations[0 := w.invocations[0].(slot := Some(result))]
  {
    var w := worlds[|actions|];
    worlds', actions' := OneMoreStep(worlds, actions, Submit(w.invocations[0].client, result));
    assert InvocationOk(w, 0);
    ArrivalAtWaiter(w, w.invocations[0].client, result, 0);
  }

  lemma ACallCanWait(job: Job) returns (worlds: seq<World>, actions: seq<Action>)
    ensures IsRun(worlds, actions) && Good(worlds[|actions|]) && InvokeAt(worlds[|actions|], 0, Waiting)
    ensures RequestOf(worlds[|actions|].invocations, 0) == job.requestID
    ensures job.requestID in worlds[|actions|].hub.waiters
  {
    worlds, actions := Registering("client", job.group);
    worlds, actions := Picking(worlds, actions, job, "client");
    worlds, actions := Storing(worlds, actions);
    worlds, actions := Pushing(worlds, actions);
  }

  /** The six steps of an undisturbed call: register, pick, store, push, submit, receive. */
  lemma ACallCanReturn(job: Job, result: JobResult)
    requires job.requestID == result.requestID
    ensures exists worlds: seq<World>, actions :: (IsRun(worlds, actions)
      && worlds[|actions|].invocations != [] && worlds[|actions|].invocations[0].pc == Returned(result))
  {
    var worlds, actions := ACallCanWait(job);
    worlds, actions := Submitting(worlds, actions, result);
    worlds, actions := OneMoreStep(worlds, actions, Receive(0));
  }
}
