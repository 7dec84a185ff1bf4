/** What happens to a request, whatever the interleaving: a result is delivered at most once and
    only to the caller that asked, and a request never both completes and expires
    (internal/rpc/hub.go). */
module RequestSafety {
  import opened Wrappers
  import opened JobQueues
  import opened HubModel
  import opened Protocol

  /** How often the log delivered, expired, and saw a late result of one request. */
  datatype Tally = Tally(delivered: nat, expired: nat, late: nat)

  function Add(t: Tally, e: RequestEvent, r: RequestId): Tally {
    match e
    case Delivery(_, result) => if result.requestID == r then t.(delivered := t.delivered + 1) else t
    case LateArrival(q) => if q == r then t.(late := t.late + 1) else t
    case Expiry(q) => if q == r then t.(expired := t.expired + 1) else t
  }

  function TallyOf(log: seq<RequestEvent>, r: RequestId): Tally {
    if log == [] then Tally(0, 0, 0)
    else Add(TallyOf(log[..|log| - 1], r), log[|log| - 1], r)
  }

  lemma TallyAppend(log: seq<RequestEvent>, e: RequestEvent, r: RequestId)
    ensures TallyOf(log + [e], r) == Add(TallyOf(log, r), e, r)
  {
    assert (log + [e])[..|log|] == log;
  }

  ghost predicate InFlight(pc: InvokePc) {
    pc.Stored? || pc.Waiting? || pc.Dropping? || pc.Expiring?
  }

  ghost predicate TombstoneFits(state: TombstoneState, t: Tally) {
    match state
    case Completed => t == Tally(1, 0, 0)
    case Expired => t == Tally(0, 1, 0)
    case Late => t == Tally(0, 1, 1)
  }

  /** Everything there is to say about one call of `Invoke`. */
  ghost predicate InvocationOk(w: World, i: nat)
    requires i < |w.invocations|
  {
    var v, r := w.invocations[i], RequestOf(w.invocations, i);
    var t := TallyOf(w.requestLog, r);
    && (r in w.hub.waiters ==>
          w.hub.waiters[r] == Waiter(v.client, i) && r !in w.hub.completed && t == Tally(0, 0, 0)
          && v.slot == None && InFlight(v.pc))
    && (r in w.hub.completed ==>
          w.hub.completed[r].clientID == v.client && TombstoneFits(w.hub.completed[r].state, t) && !v.pc.Picked?)
    && t.delivered + t.expired <= 1 && t.late <= t.expired
    && (v.pc.Picked? ==> r !in w.hub.waiters && t == Tally(0, 0, 0) && v.slot == None)
    && (InFlight(v.pc) ==> r in w.hub.waiters || (t.delivered == 1 && v.slot.Some?))
    && (v.slot.Some? ==> t.delivered == 1 && WasDelivered(w, i, v.slot.value))
    && (v.pc.Returned? ==> t.delivered == 1 && WasDelivered(w, i, v.pc.result))
    && (v.pc.TimedOut? ==> t.delivered + t.expired == 1)
    && (v.pc.Failed? ==> t.expired == 0)
  }

  /** The log shows that the client chosen for the call submitted this result for its request. */
  ghost predicate WasDelivered(w: World, i: nat, result: JobResult)
    requires i < |w.invocations|
  {
    result.requestID == RequestOf(w.invocations, i) && Delivery(w.invocations[i].client, result) in w.requestLog
  }

  /** A request id that no call has used. */
  ghost predicate Unseen(w: World, r: RequestId) {
    r !in w.hub.waiters && r !in w.hub.completed && TallyOf(w.requestLog, r) == Tally(0, 0, 0)
  }

  ghost predicate RequestsOk(w: World) {
    && (forall i, j :: 0 <= i < j < |w.invocations| ==> RequestOf(w.invocations, i) != RequestOf(w.invocations, j))
    && (forall i :: 0 <= i < |w.invocations| ==> InvocationOk(w, i))
    && (forall r :: !Known(w, r) ==> Unseen(w, r))
  }

  // ---- Steps that touch no request ----

  lemma SameRequests(w: World, w': World)
    requires RequestsOk(w)
    requires w'.invocations == w.invocations && w'.requestLog == w.requestLog
    requires w'.hub.waiters == w.hub.waiters && w'.hub.completed == w.hub.completed
    ensures RequestsOk(w')
  {
    forall i | 0 <= i < |w'.invocations| ensures InvocationOk(w', i) {
      assert InvocationOk(w, i);
    }
    forall r | !Known(w', r) ensures Unseen(w', r) {
      assert !Known(w, r);
    }
  }

  // ---- Steps of one call ----

  /** A call is untouched by a step about another request, or about none. */
  lemma OtherInvocation(w: World, w': World, j: nat)
    requires j < |w.invocations| && j < |w'.invocations| && w'.invocations[j] == w.invocations[j]
    requires InvocationOk(w, j)
    requires var r := RequestOf(w.invocations, j);
      && (r in w'.hub.waiters <==> r in w.hub.waiters) && (r in w.hub.waiters ==> w'.hub.waiters[r] == w.hub.waiters[r])
      && (r in w'.hub.completed ==> r in w.hub.completed && w'.hub.completed[r] == w.hub.completed[r])
      && TallyOf(w'.requestLog, r) == TallyOf(w.requestLog, r)
    requires forall e :: e in w.requestLog ==> e in w'.requestLog
    ensures InvocationOk(w', j)
  {
  }

  /** Steps about request `q` leave every other request as it was. */
  ghost predicate OnlyAbout(w: World, w': World, q: RequestId) {
    forall r :: r != q ==>
      && (r in w'.hub.waiters <==> r in w.hub.waiters) && (r in w.hub.waiters ==> w'.hub.waiters[r] == w.hub.waiters[r])
      && (r in w'.hub.completed ==> r in w.hub.completed && w'.hub.completed[r] == w.hub.completed[r])
      && TallyOf(w'.requestLog, r) == TallyOf(w.requestLog, r)
  }

  /** Putting it together for a step of call `i`. */
  lemma OneInvocationChanged(w: World, w': World, i: nat)
    requires RequestsOk(w) && i < |w.invocations| == |w'.invocations|
    requires forall j :: 0 <= j < |w.invocations| && j != i ==> w'.invocations[j] == w.invocations[j]
    requires RequestOf(w'.invocations, i) == RequestOf(w.invocations, i)
    requires OnlyAbout(w, w', RequestOf(w.invocations, i))
    requires forall e :: e in w.requestLog ==> e in w'.requestLog
    requires InvocationOk(w', i)
    ensures RequestsOk(w')
  {
    forall j | 0 <= j < |w'.invocations|
      ensures InvocationOk(w', j) && RequestOf(w'.invocations, j) == RequestOf(w.invocations, j)
    {
      if j != i {
        assert RequestOf(w.invocations, j) != RequestOf(w.invocations, i);
        OtherInvocation(w, w', j);
      }
    }
    forall r | !Known(w', r) ensures Unseen(w', r) {
      assert RequestOf(w'.invocations, i) == RequestOf(w.invocations, i);
      assert forall j :: 0 <= j < |w.invocations| ==> RequestOf(w'.invocations, j) == RequestOf(w.invocations, j);
      assert !Known(w, r) && r != RequestOf(w.invocations, i);
    }
  }

  lemma BeginSafe(w: World, job: Job, preferred: ClientId)
    requires RequestsOk(w) && Addresses(w) && Enabled(w, Begin(job, preferred))
    ensures RequestsOk(DoBegin(w, job, preferred))
  {
    var w' := DoBegin(w, job, preferred);
    if w'.invocations == w.invocations {
      SameRequests(w, w');
    } else {
      var n := |w.invocations|;
      assert Unseen(w, job.requestID);
      forall j | 0 <= j < n
        ensures InvocationOk(w', j) && RequestOf(w'.invocations, j) == RequestOf(w.invocations, j) != job.requestID
      {
        OtherInvocation(w, w', j);
      }
      assert RequestOf(w'.invocations, n) == job.requestID;
      forall r | !Known(w', r) ensures Unseen(w', r) {
        assert forall j :: 0 <= j < n ==> RequestOf(w.invocations, j) == RequestOf(w'.invocations, j) != r;
        assert !Known(w, r);
      }
    }
  }

  lemma StoreSafe(w: World, i: nat)
    requires RequestsOk(w) && InvokeAt(w, i, Picked)
    ensures RequestsOk(DoStore(w, i))
  {
    assert InvocationOk(w, i);
    OneInvocationChanged(w, DoStore(w, i), i);
  }

  /** The call moves on, but its waiter, its slot and its history stay. */
  lemma MoveSafe(w: World, w': World, i: nat)
    requires RequestsOk(w) && i < |w.invocations| == |w'.invocations|
    requires w'.requestLog == w.requestLog && w'.hub.waiters == w.hub.waiters && w'.hub.completed == w.hub.completed
    requires w'.invocations == w.invocations[i := w.invocations[i].(pc := w'.invocations[i].pc)]
    requires InFlight(w.invocations[i].pc) && InFlight(w'.invocations[i].pc)
    ensures RequestsOk(w')
  {
    assert InvocationOk(w, i);
    OneInvocationChanged(w, w', i);
  }

  lemma DropSafe(w: World, i: nat)
    requires RequestsOk(w) && InvokeAt(w, i, Dropping)
    ensures RequestsOk(DoDrop(w, i))
  {
    assert InvocationOk(w, i);
    OneInvocationChanged(w, DoDrop(w, i), i);
  }

  lemma ReceiveSafe(w: World, i: nat)
    requires RequestsOk(w) && InvokeAt(w, i, Waiting) && w.invocations[i].slot.Some?
    ensures RequestsOk(DoReceive(w, i))
  {
    assert InvocationOk(w, i);
    OneInvocationChanged(w, DoReceive(w, i), i);
  }

  lemma ExpiryTally(log: seq<RequestEvent>, r: RequestId, q: RequestId)
    ensures TallyOf(log + [Expiry(r)], q) ==
            if q == r then TallyOf(log, q).(expired := TallyOf(log, q).expired + 1) else TallyOf(log, q)
  {
    TallyAppend(log, Expiry(r), q);
  }

  lemma ExpiryOnlyAbout(w: World, w': World, r: RequestId)
    requires w'.hub.waiters == w.hub.waiters - {r}
    requires forall q :: q != r && q in w'.hub.completed ==>
      q in w.hub.completed && w'.hub.completed[q] == w.hub.completed[q]
    requires w'.requestLog == w.requestLog + [Expiry(r)]
    ensures OnlyAbout(w, w', r)
  {
    forall q ensures q != r ==> TallyOf(w'.requestLog, q) == TallyOf(w.requestLog, q) {
      ExpiryTally(w.requestLog, r, q);
    }
  }

  /** The deadline finds the waiter still there. */
  lemma ExpireWaitingSafe(w: World, i: nat)
    requires RequestsOk(w) && InvokeAt(w, i, Expiring) && RequestOf(w.invocations, i) in w.hub.waiters
    ensures RequestsOk(DoExpire(w, i))
  {
    var w', r := DoExpire(w, i), RequestOf(w.invocations, i);
    assert InvocationOk(w, i);
    ExpiryTally(w.requestLog, r, r);
    ExpiryOnlyAbout(w, w', r);
    OneInvocationChanged(w, w', i);
  }

  /** The deadline finds that a result was delivered before. */
  lemma ExpireDeliveredSafe(w: World, i: nat)
    requires RequestsOk(w) && InvokeAt(w, i, Expiring) && RequestOf(w.invocations, i) !in w.hub.waiters
    ensures RequestsOk(DoExpire(w, i))
  {
    assert InvocationOk(w, i);
    OneInvocationChanged(w, DoExpire(w, i), i);
  }

  lemma ExpireSafe(w: World, i: nat)
    requires RequestsOk(w) && InvokeAt(w, i, Expiring)
    ensures RequestsOk(DoExpire(w, i))
  {
    if RequestOf(w.invocations, i) in w.hub.waiters {
      ExpireWaitingSafe(w, i);
    } else {
      ExpireDeliveredSafe(w, i);
    }
  }

  // ---- Results coming in ----

  /** The result of a request that somebody waits for goes to that caller's empty slot. */
  lemma ArrivalAtWaiter(w: World, c: ClientId, result: JobResult, i: nat)
    requires RequestsOk(w) && Addresses(w) && i < |w.invocations| && RequestOf(w.invocations, i) == result.requestID
    ensures var (h', answer, sent) := SubmitResult(w.hub, c, result, w.clock);
      answer == Ok(Delivered) ==>
        && sent == Some(i) && c == w.invocations[i].client && w.invocations[i].slot == None
        && DoSubmit(w, c, result).invocations == w.invocations[i := w.invocations[i].(slot := Some(result))]
        && DoSubmit(w, c, result).requestLog == w.requestLog + [Delivery(c, result)]
  {
    assert InvocationOk(w, i);
  }

  lemma SubmitHub(h: Hub, c: ClientId, result: JobResult, now: Time)
    requires Pointers(h)
    ensures var (h', answer, sent) := SubmitResult(h, c, result, now); var r := result.requestID;
      && h'.waiters == (if answer == Ok(Delivered) then h.waiters - {r} else h.waiters)
      && (forall q :: q != r && q in h'.completed ==> q in h.completed && h'.completed[q] == h.completed[q])
      && (answer == Ok(Delivered) ==> r in h'.completed && h'.completed[r] == Tombstone(c, Completed, now))
      && (answer == Ok(LateResult) ==>
            r in h.completed && h.completed[r].state == Expired && h.completed[r].clientID == c
            && r in h'.completed && h'.completed[r] == Tombstone(c, Late, now))
      && (answer != Ok(Delivered) && answer != Ok(LateResult) ==>
            r in h'.completed ==> r in h.completed && h'.completed[r] == h.completed[r])
      && (answer == Ok(Delivered) <==> sent.Some?)
      && (answer == Ok(Delivered) ==> r in h.waiters && h.waiters[r] == Waiter(c, sent.value))
      && (answer == Ok(LateResult) ==> r !in h.waiters)
  {
  }

  /** What a submission adds to the history of every request. */
  lemma SubmitTally(w: World, c: ClientId, result: JobResult, q: RequestId)
    requires Addresses(w)
    ensures var answer := SubmitResult(w.hub, c, result, w.clock).1; var r := result.requestID;
      TallyOf(DoSubmit(w, c, result).requestLog, q) ==
        if answer == Ok(Delivered) then Add(TallyOf(w.requestLog, q), Delivery(c, result), q)
        else if answer == Ok(LateResult) then Add(TallyOf(w.requestLog, q), LateArrival(r), q)
        else TallyOf(w.requestLog, q)
    ensures forall e :: e in w.requestLog ==> e in DoSubmit(w, c, result).requestLog
  {
    TallyAppend(w.requestLog, Delivery(c, result), q);
    TallyAppend(w.requestLog, LateArrival(result.requestID), q);
    assert w.requestLog + [] == w.requestLog;
  }

  lemma SubmitSafe(w: World, c: ClientId, result: JobResult)
    requires RequestsOk(w) && Addresses(w)
    ensures RequestsOk(DoSubmit(w, c, result))
  {
    var w' := DoSubmit(w, c, result);
    var r := result.requestID;
    if Known(w, r) {
      var i :| 0 <= i < |w.invocations| && RequestOf(w.invocations, i) == r;
      SubmitSafeAt(w, c, result, i);
    } else {
      assert Unseen(w, r);
      SubmitHub(w.hub, c, result, w.clock);
      assert w'.invocations == w.invocations;
      assert w'.requestLog == w.requestLog;
      forall j | 0 <= j < |w.invocations| ensures InvocationOk(w', j) {
        OtherInvocation(w, w', j);
      }
      forall q | !Known(w', q) ensures Unseen(w', q) {
        assert !Known(w, q);
      }
    }
  }

  lemma SubmitSafeAt(w: World, c: ClientId, result: JobResult, i: nat)
    requires RequestsOk(w) && Addresses(w) && i < |w.invocations| && RequestOf(w.invocations, i) == result.requestID
    ensures RequestsOk(DoSubmit(w, c, result))
  {
    var w' := DoSubmit(w, c, result);
    var r := result.requestID;
    SubmitHub(w.hub, c, result, w.clock);
    ArrivalAtWaiter(w, c, result, i);
    forall q | q != r ensures TallyOf(w'.requestLog, q) == TallyOf(w.requestLog, q) {
      SubmitTally(w, c, result, q);
    }
    SubmitTally(w, c, result, r);
    SubmittedInvocation(w, c, result, i);
    OneInvocationChanged(w, w', i);
  }

  lemma SubmittedInvocation(w: World, c: ClientId, result: JobResult, i: nat)
    requires Addresses(w) && i < |w.invocations| && RequestOf(w.invocations, i) == result.requestID
    requires RequestsOk(w)
    ensures i < |DoSubmit(w, c, result).invocations|
    ensures InvocationOk(DoSubmit(w, c, result), i)
  {
    assert InvocationOk(w, i);
    SubmitHub(w.hub, c, result, w.clock);
    SubmitTally(w, c, result, result.requestID);
    ArrivalAtWaiter(w, c, result, i);
  }
}
