/** Whose slot a release gives back. `releaseDispatchLocked` looks the client up again, so a release or
    a result can reach another session than the one the slot was taken from
    (internal/rpc/hub.go, internal/web/client_ws.go). */
module SlotOwners {
  import opened Wrappers
  import opened JobQueues
  import opened HubModel
  import opened Protocol
  import opened RequestSafety
  import opened SlotSafety
  import opened Routing
  import opened Runs

  // ---- Who occupies a session ----

  /** A consumer in this state has a slot that neither it nor the result of its job has given back. */
  predicate Owes(pc: ConsumerPc, log: seq<SlotEvent>) {
    match pc
    case Wanting => false
    case ParkedForSlot(_, _) => false
    case Requeueing(_) => false
    case Done(handedOut) => handedOut.Some? && Count(log, ReleasedFor(handedOut.value.requestID)) == 0
    case _ => true
  }

  /** The consumers that took their slot from session a and still owe it. */
  function Occupants(consumers: seq<Consumer>, log: seq<SlotEvent>, a: Address): set<nat> {
    set k: nat | k < |consumers| && Owes(consumers[k].pc, log) && Took(a, k) in log
  }

  /** Every session counts exactly its occupants. */
  ghost predicate Matched(w: World) {
    forall a: Address :: a in w.hub.heap ==> w.hub.heap[a].inFlight == |Occupants(w.consumers, w.slotLog, a)|
  }

  // ---- Every consumer takes one slot at most ----

  predicate BeforeTaking(pc: ConsumerPc) {
    pc.Wanting? || pc.ParkedForSlot?
  }

  ghost predicate TookFor(pc: ConsumerPc, k: nat, log: seq<SlotEvent>) {
    match pc
    case Holding(a) => Took(a, k) in log
    case ParkedForJob(a, _) => Took(a, k) in log
    case Got(a, _) => Took(a, k) in log
    case Releasing(_) => exists a: Address :: Took(a, k) in log
    case Done(handedOut) => handedOut.Some? ==> exists a: Address :: Took(a, k) in log
    case _ => true
  }

  ghost predicate TakesOk(w: World) {
    && (forall a: Address, k: nat :: Took(a, k) in w.slotLog ==> a in w.hub.heap && k < |w.consumers|)
    && (forall a: Address, b: Address, k: nat :: Took(a, k) in w.slotLog && Took(b, k) in w.slotLog ==> a == b)
    && (forall a: Address, k: nat :: k < |w.consumers| && BeforeTaking(w.consumers[k].pc) ==> Took(a, k) !in w.slotLog)
    && (forall k: nat :: k < |w.consumers| ==> TookFor(w.consumers[k].pc, k, w.slotLog))
  }

  // ---- Steps that go astray ----

  /** The session that a consumer took its slot from. */
  ghost function Origin(w: World, k: nat): Option<Address> {
    if exists a: Address :: Took(a, k) in w.slotLog then
      var a: Address :| Took(a, k) in w.slotLog;
      Some(a)
    else None
  }

  ghost predicate HandedOutBy(w: World, k: nat, r: RequestId) {
    k < |w.consumers| && w.consumers[k].pc.Done? && w.consumers[k].pc.handedOut.Some? &&
    w.consumers[k].pc.handedOut.value.requestID == r
  }

  /** The session whose slot the job of a request occupies since it was handed out. */
  ghost function OriginOfRequest(w: World, r: RequestId): Option<Address> {
    if exists k: nat :: HandedOutBy(w, k, r) then
      var k: nat :| HandedOutBy(w, k, r);
      Origin(w, k)
    else None
  }

  ghost predicate Releases(w: World, c: ClientId, result: JobResult)
    requires Addresses(w)
  {
    var answer := SubmitResult(w.hub, c, result, w.clock).1;
    answer == Ok(Delivered) || answer == Ok(LateResult)
  }

  /** A release or a result takes a slot from another session than its own, or from none although it
      has one; or a job is handed out whose result has already come, so that nothing will give its
      slot back. */
  ghost predicate Astray(w: World, a: Action)
    requires Addresses(w) && Enabled(w, a)
  {
    match a
    case ReleaseFor(k) => ReleasedFrom(w.hub, w.consumers[k].client) != Origin(w, k)
    case Submit(c, result) => Releases(w, c, result) && ReleasedFrom(w.hub, c) != OriginOfRequest(w, result.requestID)
    case HandOut(k) => Count(w.slotLog, ReleasedFor(w.consumers[k].pc.job.requestID)) > 0
    case _ => false
  }

  // ---- Takes: what every step keeps ----

  /** No slot is taken, and no consumer goes back to where it had none. */
  lemma TakesStay(w: World, w': World)
    requires TakesOk(w)
    requires forall a: Address, k: nat :: Took(a, k) in w'.slotLog <==> Took(a, k) in w.slotLog
    requires forall a: Address :: a in w.hub.heap ==> a in w'.hub.heap
    requires |w.consumers| <= |w'.consumers|
    requires forall k: nat :: k < |w'.consumers| ==>
      if k < |w.consumers| then
        (BeforeTaking(w'.consumers[k].pc) ==> BeforeTaking(w.consumers[k].pc)) &&
        (w'.consumers[k].pc != w.consumers[k].pc ==> TookFor(w'.consumers[k].pc, k, w.slotLog))
      else w'.consumers[k].pc.Wanting?
    ensures TakesOk(w')
  {
    forall k: nat | k < |w'.consumers| ensures TookFor(w'.consumers[k].pc, k, w'.slotLog) {
      if k < |w.consumers| {
        assert TookFor(w.consumers[k].pc, k, w.slotLog);
      }
    }
  }

  lemma NewTake(w: World, k: nat)
    requires TakesOk(w) && Addresses(w) && k < |w.consumers| && w.consumers[k].pc.Wanting?
    requires AcquireSlot(w.hub, w.consumers[k].client).1.Acquired?
    ensures TakesOk(DoAcquire(w, k))
  {
    var w', a := DoAcquire(w, k), w.hub.sessions[w.consumers[k].client];
    assert w'.slotLog == w.slotLog + [Took(a, k)];
    forall b: Address, j: nat | j < |w'.consumers| && BeforeTaking(w'.consumers[j].pc)
      ensures Took(b, j) !in w'.slotLog
    {
      assert j != k;
    }
    forall j: nat | j < |w'.consumers| ensures TookFor(w'.consumers[j].pc, j, w'.slotLog) {
      assert TookFor(w.consumers[j].pc, j, w.slotLog);
      if j == k {
        assert Took(a, k) in w'.slotLog;
      }
    }
  }

  /** One consumer moves on, and nothing that concerns slots changes. */
  lemma MovedTakes(w: World, w': World, k: nat, pc: ConsumerPc)
    requires TakesOk(w) && k < |w.consumers| && w'.consumers == w.consumers[k := w.consumers[k].(pc := pc)]
    requires w'.slotLog == w.slotLog && w'.hub.heap == w.hub.heap
    requires BeforeTaking(pc) ==> BeforeTaking(w.consumers[k].pc)
    requires TookFor(pc, k, w.slotLog)
    ensures TakesOk(w')
  {
    TakesStay(w, w');
  }

  lemma ConsumerMoveTakes(w: World, a: Action)
    requires TakesOk(w) && Addresses(w) && Enabled(w, a) && ConsumerMove(a)
    ensures TakesOk(Step(w, a))
  {
    var k := match a
      case WakeForSlot(k) => k
      case CancelForSlot(k) => k
      case WakeForJob(k) => k
      case CancelForJob(k) => k
      case HandOut(k) => k
      case Refuse(k) => k;
    assert TookFor(w.consumers[k].pc, k, w.slotLog);
    MovedTakes(w, Step(w, a), k, Step(w, a).consumers[k].pc);
  }

  /** Steps in which a consumer uses the hub. */
  ghost predicate HubMove(a: Action) {
    a.AcquireFor? || a.PopFor? || a.ReleaseFor? || a.RequeueFor?
  }

  lemma AcquireTakes(w: World, k: nat)
    requires TakesOk(w) && Addresses(w) && k < |w.consumers| && w.consumers[k].pc.Wanting?
    ensures TakesOk(DoAcquire(w, k))
  {
    if AcquireSlot(w.hub, w.consumers[k].client).1.Acquired? {
      NewTake(w, k);
    } else {
      TakesStay(w, DoAcquire(w, k));
    }
  }

  lemma HubMoveTakes(w: World, a: Action)
    requires TakesOk(w) && Addresses(w) && Enabled(w, a) && HubMove(a)
    ensures TakesOk(Step(w, a))
  {
    if a.AcquireFor? {
      AcquireTakes(w, a.k);
    } else {
      assert TookFor(w.consumers[a.k].pc, a.k, w.slotLog);
      TakesStay(w, Step(w, a));
    }
  }

  lemma SubmitTakes(w: World, c: ClientId, result: JobResult)
    requires TakesOk(w) && Addresses(w)
    ensures TakesOk(DoSubmit(w, c, result))
  {
    SubmitHeap(w.hub, c, result, w.clock);
    TakesStay(w, DoSubmit(w, c, result));
  }

  lemma OtherStepTakes(w: World, a: Action)
    requires TakesOk(w) && Addresses(w) && Enabled(w, a)
    requires CallMove(a) || RegistrationMove(a) || a.Begin? || a.PushJob? || a.Arrive?
    ensures TakesOk(Step(w, a))
  {
    TakesStay(w, Step(w, a));
  }

  lemma StepKeepsTakes(w: World, a: Action)
    requires TakesOk(w) && Addresses(w) && Enabled(w, a)
    ensures TakesOk(Step(w, a))
  {
    if ConsumerMove(a) {
      ConsumerMoveTakes(w, a);
    } else if HubMove(a) {
      HubMoveTakes(w, a);
    } else if a.Submit? {
      SubmitTakes(w, a.client, a.result);
    } else {
      OtherStepTakes(w, a);
    }
  }

  // ---- Matching: what one step does ----

  lemma SameOccupants(w: World, w': World, a: Address)
    requires |w.consumers| <= |w'.consumers|
    requires forall k: nat :: k < |w.consumers| ==>
      (Owes(w'.consumers[k].pc, w'.slotLog) && Took(a, k) in w'.slotLog <==>
       Owes(w.consumers[k].pc, w.slotLog) && Took(a, k) in w.slotLog)
    requires forall k: nat :: |w.consumers| <= k < |w'.consumers| ==> Took(a, k) !in w'.slotLog
    ensures Occupants(w'.consumers, w'.slotLog, a) == Occupants(w.consumers, w.slotLog, a)
  {
  }

  /** Neither counts nor occupants change; a session may be new. */
  lemma SameMatch(w: World, w': World)
    requires forall a: Address :: a in w.hub.heap ==>
      a in w'.hub.heap && w'.hub.heap[a].inFlight == w.hub.heap[a].inFlight &&
      Occupants(w'.consumers, w'.slotLog, a) == Occupants(w.consumers, w.slotLog, a)
    requires forall a: Address :: a in w'.hub.heap && a !in w.hub.heap ==>
      w'.hub.heap[a].inFlight == 0 && Occupants(w'.consumers, w'.slotLog, a) == {}
    ensures Matched(w') <==> Matched(w)
  {
    if Matched(w') {
      forall a: Address | a in w.hub.heap ensures w.hub.heap[a].inFlight == |Occupants(w.consumers, w.slotLog, a)| {
        assert a in w'.hub.heap;
      }
    }
  }

  /** Steps that change neither a consumer's pc nor what was taken or given back. */
  lemma StillMatched(w: World, w': World)
    requires TakesOk(w) && w.consumers <= w'.consumers
    requires forall k: nat :: |w.consumers| <= k < |w'.consumers| ==> w'.consumers[k].pc.Wanting?
    requires forall a: Address, k: nat :: Took(a, k) in w'.slotLog <==> Took(a, k) in w.slotLog
    requires forall r :: Count(w'.slotLog, ReleasedFor(r)) == Count(w.slotLog, ReleasedFor(r))
    requires forall a: Address :: a in w.hub.heap ==>
      a in w'.hub.heap && w'.hub.heap[a].inFlight == w.hub.heap[a].inFlight
    requires forall a: Address :: a in w'.hub.heap && a !in w.hub.heap ==> w'.hub.heap[a].inFlight == 0
    ensures Matched(w') <==> Matched(w)
  {
    forall a: Address
      ensures Occupants(w'.consumers, w'.slotLog, a) == Occupants(w.consumers, w.slotLog, a)
      ensures a !in w.hub.heap ==> Occupants(w'.consumers, w'.slotLog, a) == {}
    {
      SameOccupants(w, w', a);
    }
    SameMatch(w, w');
  }

  lemma QuietStepMatches(w: World, a: Action)
    requires TakesOk(w) && Addresses(w) && Enabled(w, a)
    requires CallMove(a) || a.Begin? || a.PushJob? || a.Arrive? || a.UnregisterClient? || a.TouchClient?
    ensures Matched(Step(w, a)) <==> Matched(w)
  {
    StillMatched(w, Step(w, a));
  }

  lemma RegisterMatches(w: World, c: ClientId, g: GroupName, userID: int, platform: string, max: int)
    requires TakesOk(w) && Addresses(w)
    ensures Matched(DoRegister(w, c, g, userID, platform, max)) <==> Matched(w)
  {
    var e := Limited(RegisteredAs(w.hub, w.made, c), NormalizeMaxInFlight(w.hub, max));
    forall r ensures Count(w.slotLog + [e], ReleasedFor(r)) == Count(w.slotLog, ReleasedFor(r)) {
      CountAppend(w.slotLog, e, ReleasedFor(r));
    }
    StillMatched(w, DoRegister(w, c, g, userID, platform, max));
  }

  /** A consumer moves on by itself and owes what it owed. */
  lemma MoveMatches(w: World, w': World, k: nat)
    requires k < |w.consumers| && |w'.consumers| == |w.consumers| && w'.slotLog == w.slotLog
    requires forall j: nat :: j < |w.consumers| && j != k ==> w'.consumers[j] == w.consumers[j]
    requires Owes(w'.consumers[k].pc, w.slotLog) == Owes(w.consumers[k].pc, w.slotLog)
    requires w'.hub.heap.Keys == w.hub.heap.Keys
    requires forall a: Address :: a in w.hub.heap ==> w'.hub.heap[a].inFlight == w.hub.heap[a].inFlight
    ensures Matched(w') <==> Matched(w)
  {
    forall a: Address ensures Occupants(w'.consumers, w'.slotLog, a) == Occupants(w.consumers, w.slotLog, a) {
      SameOccupants(w, w', a);
    }
    SameMatch(w, w');
  }

  /** The set of occupants with one more, or one fewer, and all other sets as they were. */
  lemma OneChanges(w: World, w': World, k: nat, b: Address)
    requires k < |w.consumers| && |w'.consumers| == |w.consumers|
    requires forall a: Address, j: nat :: a != b || j != k ==>
      (j < |w.consumers| && Owes(w'.consumers[j].pc, w'.slotLog) && Took(a, j) in w'.slotLog <==>
       j < |w.consumers| && Owes(w.consumers[j].pc, w.slotLog) && Took(a, j) in w.slotLog)
    ensures forall a: Address :: a != b ==>
      Occupants(w'.consumers, w'.slotLog, a) == Occupants(w.consumers, w.slotLog, a)
    ensures Occupants(w'.consumers, w'.slotLog, b) - {k} == Occupants(w.consumers, w.slotLog, b) - {k}
  {
  }

  lemma SetSizes(before: set<nat>, after: set<nat>, k: nat)
    requires before - {k} == after - {k}
    ensures |after| == |before| + (if k in after then 1 else 0) - (if k in before then 1 else 0)
  {
    assert |before - {k}| == |before| - (if k in before then 1 else 0);
    assert |after - {k}| == |after| - (if k in after then 1 else 0);
  }

  lemma ReleasedCounts(h: Hub, c: ClientId)
    requires Pointers(h)
    ensures ReleaseSlot(h, c).heap.Keys == h.heap.Keys
    ensures forall a: Address :: a in h.heap ==>
      ReleaseSlot(h, c).heap[a].inFlight == h.heap[a].inFlight - (if ReleasedFrom(h, c) == Some(a) then 1 else 0)
    ensures ReleasedFrom(h, c).Some? ==> ReleasedFrom(h, c).value in h.heap
  {
  }

  /** One occupant of b goes; the counts stay matched exactly if the slot comes back to b. */
  lemma OneLess(w: World, w': World, k: nat, b: Address, from: Option<Address>)
    requires Matched(w) && b in w.hub.heap && w'.hub.heap.Keys == w.hub.heap.Keys
    requires forall a: Address :: a in w.hub.heap ==>
      w'.hub.heap[a].inFlight == w.hub.heap[a].inFlight - (if from == Some(a) then 1 else 0)
    requires forall a: Address :: a != b ==>
      Occupants(w'.consumers, w'.slotLog, a) == Occupants(w.consumers, w.slotLog, a)
    requires Occupants(w'.consumers, w'.slotLog, b) - {k} == Occupants(w.consumers, w.slotLog, b) - {k}
    requires k in Occupants(w.consumers, w.slotLog, b) && k !in Occupants(w'.consumers, w'.slotLog, b)
    ensures Matched(w') <==> from == Some(b)
  {
    SetSizes(Occupants(w.consumers, w.slotLog, b), Occupants(w'.consumers, w'.slotLog, b), k);
    if from == Some(b) {
      forall a: Address | a in w'.hub.heap
        ensures w'.hub.heap[a].inFlight == |Occupants(w'.consumers, w'.slotLog, a)|
      {
        assert w.hub.heap[a].inFlight == |Occupants(w.consumers, w.slotLog, a)|;
      }
    } else {
      assert w.hub.heap[b].inFlight == |Occupants(w.consumers, w.slotLog, b)|;
      assert w'.hub.heap[b].inFlight != |Occupants(w'.consumers, w'.slotLog, b)|;
    }
  }

  lemma OriginIs(w: World, k: nat, a: Address)
    requires TakesOk(w) && Took(a, k) in w.slotLog
    ensures Origin(w, k) == Some(a)
  {
  }

  /** What was taken and which results have come is as it was. */
  ghost predicate SameRecord(log: seq<SlotEvent>, log': seq<SlotEvent>) {
    (forall a: Address, k: nat :: Took(a, k) in log' <==> Took(a, k) in log) &&
    (forall r :: Count(log', ReleasedFor(r)) == Count(log, ReleasedFor(r)))
  }

  lemma ReleaseIsNoResult(log: seq<SlotEvent>, from: Option<Address>, k: nat)
    ensures SameRecord(log, log + [GaveBack(from, ByConsumer(k))])
  {
    var e := GaveBack(from, ByConsumer(k));
    forall r ensures Count(log + [e], ReleasedFor(r)) == Count(log, ReleasedFor(r)) {
      CountAppend(log, e, ReleasedFor(r));
    }
  }

  /** A consumer that owed its slot to b owes none any more. */
  lemma OwesNoMore(w: World, w': World, k: nat, b: Address)
    requires TakesOk(w) && SameRecord(w.slotLog, w'.slotLog) && |w'.consumers| == |w.consumers|
    requires k < |w.consumers| && Took(b, k) in w.slotLog
    requires forall j: nat :: j < |w.consumers| && j != k ==> w'.consumers[j] == w.consumers[j]
    requires Owes(w.consumers[k].pc, w.slotLog) && !Owes(w'.consumers[k].pc, w'.slotLog)
    ensures forall a: Address :: a != b ==>
      Occupants(w'.consumers, w'.slotLog, a) == Occupants(w.consumers, w.slotLog, a)
    ensures Occupants(w'.consumers, w'.slotLog, b) - {k} == Occupants(w.consumers, w.slotLog, b) - {k}
    ensures k in Occupants(w.consumers, w.slotLog, b) && k !in Occupants(w'.consumers, w'.slotLog, b)
  {
    OneChanges(w, w', k, b);
  }

  lemma ReleasedMatches(w: World, w': World, k: nat, b: Address, from: Option<Address>)
    requires Matched(w) && TakesOk(w) && k < |w.consumers| && w.consumers[k].pc.Releasing? && Took(b, k) in w.slotLog
    requires |w'.consumers| == |w.consumers| && (w'.consumers[k].pc.Requeueing? || w'.consumers[k].pc == Done(None))
    requires forall j: nat :: j < |w.consumers| && j != k ==> w'.consumers[j] == w.consumers[j]
    requires w'.slotLog == w.slotLog + [GaveBack(from, ByConsumer(k))] && w'.hub.heap.Keys == w.hub.heap.Keys
    requires forall a: Address :: a in w.hub.heap ==>
      w'.hub.heap[a].inFlight == w.hub.heap[a].inFlight - (if from == Some(a) then 1 else 0)
    ensures Matched(w') <==> from == Some(b)
  {
    ReleaseIsNoResult(w.slotLog, from, k);
    OwesNoMore(w, w', k, b);
    OneLess(w, w', k, b, from);
  }

  lemma ReleaseMatches(w: World, k: nat)
    requires Matched(w) && TakesOk(w) && Addresses(w) && k < |w.consumers| && w.consumers[k].pc.Releasing?
    ensures Matched(DoRelease(w, k)) <==> ReleasedFrom(w.hub, w.consumers[k].client) == Origin(w, k)
  {
    assert TookFor(w.consumers[k].pc, k, w.slotLog);
    var b: Address :| Took(b, k) in w.slotLog;
    OriginIs(w, k, b);
    ReleasedCounts(w.hub, w.consumers[k].client);
    ReleasedMatches(w, DoRelease(w, k), k, b, ReleasedFrom(w.hub, w.consumers[k].client));
  }

  lemma TakeIsNoResult(log: seq<SlotEvent>, a: Address, k: nat)
    ensures forall r :: Count(log + [Took(a, k)], ReleasedFor(r)) == Count(log, ReleasedFor(r))
  {
    forall r ensures Count(log + [Took(a, k)], ReleasedFor(r)) == Count(log, ReleasedFor(r)) {
      CountAppend(log, Took(a, k), ReleasedFor(r));
    }
  }

  lemma AcquiredMatches(w: World, w': World, k: nat, b: Address)
    requires Matched(w) && TakesOk(w) && |w'.consumers| == |w.consumers| && b in w.hub.heap
    requires w'.slotLog == w.slotLog + [Took(b, k)] && k < |w.consumers| && w.consumers[k].pc.Wanting?
    requires w'.consumers == w.consumers[k := w.consumers[k].(pc := Holding(b))]
    requires w'.hub.heap == w.hub.heap[b := SlotTaken(w.hub.heap[b])]
    ensures Matched(w')
  {
    TakeIsNoResult(w.slotLog, b, k);
    OneChanges(w, w', k, b);
    SetSizes(Occupants(w.consumers, w.slotLog, b), Occupants(w'.consumers, w'.slotLog, b), k);
    forall a: Address | a in w'.hub.heap
      ensures w'.hub.heap[a].inFlight == |Occupants(w'.consumers, w'.slotLog, a)|
    {
      assert w.hub.heap[a].inFlight == |Occupants(w.consumers, w.slotLog, a)|;
    }
  }

  lemma AcquireMatches(w: World, k: nat)
    requires Matched(w) && TakesOk(w) && Addresses(w) && k < |w.consumers| && w.consumers[k].pc.Wanting?
    ensures Matched(DoAcquire(w, k))
  {
    var c := w.consumers[k].client;
    if AcquireSlot(w.hub, c).1.Acquired? {
      AcquiredMatches(w, DoAcquire(w, k), k, w.hub.sessions[c]);
    } else {
      MoveMatches(w, DoAcquire(w, k), k);
    }
  }

  lemma ConsumerMoveMatches(w: World, a: Action)
    requires Matched(w) && TakesOk(w) && Addresses(w) && Enabled(w, a) && ConsumerMove(a) && !a.HandOut?
    ensures Matched(Step(w, a))
  {
    match a
    case WakeForSlot(k) => MoveMatches(w, Step(w, a), k);
    case CancelForSlot(k) => MoveMatches(w, Step(w, a), k);
    case WakeForJob(k) => MoveMatches(w, Step(w, a), k);
    case CancelForJob(k) => MoveMatches(w, Step(w, a), k);
    case Refuse(k) => MoveMatches(w, Step(w, a), k);
  }

  lemma QueueMoveMatches(w: World, a: Action)
    requires Matched(w) && TakesOk(w) && Addresses(w) && Enabled(w, a) && (a.PopFor? || a.RequeueFor?)
    ensures Matched(Step(w, a))
  {
    MoveMatches(w, Step(w, a), a.k);
  }

  lemma HandOutMatches(w: World, k: nat)
    requires Matched(w) && TakesOk(w) && Addresses(w) && k < |w.consumers| && w.consumers[k].pc.Got?
    ensures Matched(Step(w, HandOut(k))) <==> !Astray(w, HandOut(k))
  {
    var w' := Step(w, HandOut(k));
    if Astray(w, HandOut(k)) {
      var b := w.consumers[k].pc.session;
      assert TookFor(w.consumers[k].pc, k, w.slotLog);
      OneChanges(w, w', k, b);
      OneLess(w, w', k, b, None);
    } else {
      MoveMatches(w, w', k);
    }
  }

  lemma ReleasedAtMostOnce(w: World, r: RequestId)
    requires Good(w)
    ensures Count(w.slotLog, ReleasedFor(r)) <= 1
  {
    if Known(w, r) {
      var i :| 0 <= i < |w.invocations| && RequestOf(w.invocations, i) == r;
      assert InvocationOk(w, i);
    } else {
      assert Unseen(w, r);
    }
  }

  lemma OnePlace(w: World, j: nat, k: nat, job: Job, other: Job)
    requires Good(w) && InHand(w.consumers, j, job) && InHand(w.consumers, k, other) && job.requestID == other.requestID
    ensures j == k
  {
    var i :| 0 <= i < |w.invocations| && w.invocations[i].job == job;
    var l :| 0 <= l < |w.invocations| && w.invocations[l].job == other;
    assert RequestOf(w.invocations, i) == RequestOf(w.invocations, l);
    assert i == l;
  }

  lemma HandedOutOnce(w: World, k: nat, l: nat, r: RequestId)
    requires Good(w) && HandedOutBy(w, k, r) && HandedOutBy(w, l, r)
    ensures k == l
  {
    OnePlace(w, k, l, w.consumers[k].pc.handedOut.value, w.consumers[l].pc.handedOut.value);
  }

  /** How the log grows by the release of a result. */
  lemma ResultLogged(w: World, c: ClientId, result: JobResult)
    requires Good(w) && Good(DoSubmit(w, c, result)) && Releases(w, c, result)
    ensures var w' := DoSubmit(w, c, result);
      Count(w.slotLog, ReleasedFor(result.requestID)) == 0 &&
      Count(w'.slotLog, ReleasedFor(result.requestID)) == 1 &&
      (forall r :: r != result.requestID ==> Count(w'.slotLog, ReleasedFor(r)) == Count(w.slotLog, ReleasedFor(r))) &&
      (forall a: Address, j: nat :: Took(a, j) in w'.slotLog <==> Took(a, j) in w.slotLog) &&
      w'.consumers == w.consumers && w'.hub.heap == ReleaseSlot(w.hub, c).heap
  {
    var w', e := DoSubmit(w, c, result), GaveBack(ReleasedFrom(w.hub, c), ByResult(result.requestID));
    SubmitHeap(w.hub, c, result, w.clock);
    assert w'.slotLog == w.slotLog + [e];
    forall r ensures Count(w'.slotLog, ReleasedFor(r)) ==
                     Count(w.slotLog, ReleasedFor(r)) + (if r == result.requestID then 1 else 0) {
      CountAppend(w.slotLog, e, ReleasedFor(r));
    }
    ReleasedAtMostOnce(w', result.requestID);
  }

  lemma OriginOfHanded(w: World, k: nat, r: RequestId)
    requires Good(w) && TakesOk(w) && HandedOutBy(w, k, r)
    ensures OriginOfRequest(w, r) == Origin(w, k) && Origin(w, k).Some? && Took(Origin(w, k).value, k) in w.slotLog
  {
    assert TookFor(w.consumers[k].pc, k, w.slotLog);
    var l: nat :| HandedOutBy(w, l, r) && OriginOfRequest(w, r) == Origin(w, l);
    HandedOutOnce(w, k, l, r);
  }

  /** The result of the job that k handed out has come, and k is the only one it concerns. */
  lemma ResultFreesOne(w: World, w': World, k: nat, b: Address, r: RequestId)
    requires TakesOk(w) && w'.consumers == w.consumers && Took(b, k) in w.slotLog && HandedOutBy(w, k, r)
    requires forall a: Address, j: nat :: Took(a, j) in w'.slotLog <==> Took(a, j) in w.slotLog
    requires Count(w.slotLog, ReleasedFor(r)) == 0 && Count(w'.slotLog, ReleasedFor(r)) == 1
    requires forall q :: q != r ==> Count(w'.slotLog, ReleasedFor(q)) == Count(w.slotLog, ReleasedFor(q))
    requires forall j: nat :: HandedOutBy(w, j, r) ==> j == k
    ensures forall a: Address :: a != b ==>
      Occupants(w'.consumers, w'.slotLog, a) == Occupants(w.consumers, w.slotLog, a)
    ensures Occupants(w'.consumers, w'.slotLog, b) - {k} == Occupants(w.consumers, w.slotLog, b) - {k}
    ensures k in Occupants(w.consumers, w.slotLog, b) && k !in Occupants(w'.consumers, w'.slotLog, b)
  {
    forall j: nat | j < |w.consumers| && j != k
      ensures Owes(w'.consumers[j].pc, w'.slotLog) == Owes(w.consumers[j].pc, w.slotLog)
    {
      assert !HandedOutBy(w, j, r);
    }
    OneChanges(w, w', k, b);
  }

  lemma OwnedResultMatches(w: World, c: ClientId, result: JobResult, k: nat)
    requires Matched(w) && TakesOk(w) && Good(w) && Good(DoSubmit(w, c, result)) && Releases(w, c, result)
    requires HandedOutBy(w, k, result.requestID)
    ensures Matched(DoSubmit(w, c, result)) <==> ReleasedFrom(w.hub, c) == OriginOfRequest(w, result.requestID)
  {
    var w', r := DoSubmit(w, c, result), result.requestID;
    OriginOfHanded(w, k, r);
    ResultLogged(w, c, result);
    ReleasedCounts(w.hub, c);
    forall j: nat | HandedOutBy(w, j, r) ensures j == k {
      HandedOutOnce(w, k, j, r);
    }
    var b := Origin(w, k).value;
    ResultFreesOne(w, w', k, b, r);
    OneLess(w, w', k, b, ReleasedFrom(w.hub, c));
  }

  /** A result that no consumer waits for changes no occupants. */
  lemma ResultFreesNone(w: World, w': World, r: RequestId)
    requires w'.consumers == w.consumers
    requires forall a: Address, j: nat :: Took(a, j) in w'.slotLog <==> Took(a, j) in w.slotLog
    requires forall q :: q != r ==> Count(w'.slotLog, ReleasedFor(q)) == Count(w.slotLog, ReleasedFor(q))
    requires forall k: nat :: !HandedOutBy(w, k, r)
    ensures forall a: Address :: Occupants(w'.consumers, w'.slotLog, a) == Occupants(w.consumers, w.slotLog, a)
  {
    forall k: nat | k < |w.consumers|
      ensures Owes(w'.consumers[k].pc, w'.slotLog) == Owes(w.consumers[k].pc, w.slotLog)
    {
      assert !HandedOutBy(w, k, r);
    }
    forall a: Address ensures Occupants(w'.consumers, w'.slotLog, a) == Occupants(w.consumers, w.slotLog, a) {
      SameOccupants(w, w', a);
    }
  }

  /** No occupant goes; the counts stay matched exactly if no slot comes back. */
  lemma NoneLess(w: World, w': World, from: Option<Address>)
    requires Matched(w) && w'.hub.heap.Keys == w.hub.heap.Keys && (from.Some? ==> from.value in w.hub.heap)
    requires forall a: Address :: a in w.hub.heap ==>
      w'.hub.heap[a].inFlight == w.hub.heap[a].inFlight - (if from == Some(a) then 1 else 0)
    requires forall a: Address :: Occupants(w'.consumers, w'.slotLog, a) == Occupants(w.consumers, w.slotLog, a)
    ensures Matched(w') <==> from == None
  {
    if from == None {
      SameMatch(w, w');
    } else {
      assert w.hub.heap[from.value].inFlight == |Occupants(w.consumers, w.slotLog, from.value)|;
      assert w'.hub.heap[from.value].inFlight != |Occupants(w'.consumers, w'.slotLog, from.value)|;
    }
  }

  lemma UnownedResultMatches(w: World, c: ClientId, result: JobResult)
    requires Matched(w) && TakesOk(w) && Good(w) && Good(DoSubmit(w, c, result)) && Releases(w, c, result)
    requires forall k: nat :: !HandedOutBy(w, k, result.requestID)
    ensures Matched(DoSubmit(w, c, result)) <==> ReleasedFrom(w.hub, c) == None
  {
    ResultLogged(w, c, result);
    ReleasedCounts(w.hub, c);
    ResultFreesNone(w, DoSubmit(w, c, result), result.requestID);
    NoneLess(w, DoSubmit(w, c, result), ReleasedFrom(w.hub, c));
  }

  lemma SubmitMatches(w: World, c: ClientId, result: JobResult)
    requires Matched(w) && TakesOk(w) && Good(w) && Good(DoSubmit(w, c, result))
    ensures Matched(DoSubmit(w, c, result)) <==> !Astray(w, Submit(c, result))
  {
    if !Releases(w, c, result) {
      SubmitHeap(w.hub, c, result, w.clock);
      assert w.slotLog + [] == w.slotLog;
      StillMatched(w, DoSubmit(w, c, result));
    } else if k: nat :| HandedOutBy(w, k, result.requestID) {
      OwnedResultMatches(w, c, result, k);
    } else {
      UnownedResultMatches(w, c, result);
    }
  }

  lemma StepMatches(w: World, a: Action)
    requires Matched(w) && TakesOk(w) && Good(w) && Enabled(w, a)
    ensures Matched(Step(w, a)) <==> !Astray(w, a)
  {
    StepKeepsGood(w, a);
    if a.Submit? {
      SubmitMatches(w, a.client, a.result);
    } else if a.ReleaseFor? {
      ReleaseMatches(w, a.k);
    } else if a.HandOut? {
      HandOutMatches(w, a.k);
    } else if a.AcquireFor? {
      AcquireMatches(w, a.k);
    } else if a.RegisterClient? {
      RegisterMatches(w, a.client, a.group, a.userID, a.platform, a.maxInFlight);
    } else if ConsumerMove(a) {
      ConsumerMoveMatches(w, a);
    } else if a.PopFor? || a.RequeueFor? {
      QueueMoveMatches(w, a);
    } else {
      QuietStepMatches(w, a);
    }
  }

  // ---- Main results ----

  lemma {:induction false} RunTakesOk(worlds: seq<World>, actions: seq<Action>, n: nat)
    requires IsRun(worlds, actions) && n < |worlds|
    ensures TakesOk(worlds[n])
  {
    if n > 0 {
      RunTakesOk(worlds, actions, n - 1);
      assert Next(worlds[n - 1], actions[n - 1], worlds[n - 1 + 1]);
      StepKeepsTakes(worlds[n - 1], actions[n - 1]);
    }
  }

  ghost predicate AstrayAt(worlds: seq<World>, actions: seq<Action>, m: nat)
    requires IsRun(worlds, actions) && m < |actions|
  {
    Next(worlds[m], actions[m], worlds[m + 1]) && Astray(worlds[m], actions[m])
  }

  /** The counts match the occupants in the first n + 1 states. */
  ghost predicate AlwaysMatched(worlds: seq<World>, n: nat)
    requires n < |worlds|
  {
    Matched(worlds[n]) && (n > 0 ==> AlwaysMatched(worlds, n - 1))
  }

  /** None of the first n steps goes astray. */
  ghost predicate NeverAstray(worlds: seq<World>, actions: seq<Action>, n: nat)
    requires IsRun(worlds, actions) && n < |worlds|
  {
    n > 0 ==> !AstrayAt(worlds, actions, n - 1) && NeverAstray(worlds, actions, n - 1)
  }

  /** Main result: the slot counts of all sessions are the numbers of consumers that occupy them, in
      every state so far, exactly if no release and no result has gone astray so far. */
  lemma {:induction false} CountsAreOccupantsExactly(worlds: seq<World>, actions: seq<Action>, n: nat)
    requires IsRun(worlds, actions) && n < |worlds|
    ensures AlwaysMatched(worlds, n) <==> NeverAstray(worlds, actions, n)
  {
    if n == 0 {
      assert Matched(worlds[0]);
    } else {
      CountsAreOccupantsExactly(worlds, actions, n - 1);
      assert Next(worlds[n - 1], actions[n - 1], worlds[n - 1 + 1]);
      RunTakesOk(worlds, actions, n - 1);
      RunIsGood(worlds, actions, n - 1);
      if Matched(worlds[n - 1]) {
        StepMatches(worlds[n - 1], actions[n - 1]);
      }
    }
  }

  /** Main result: as long as none has, the occupants of a session stay within a limit it has had. */
  lemma OccupantsStayWithinLimit(worlds: seq<World>, actions: seq<Action>, n: nat, a: Address)
    requires IsRun(worlds, actions) && n < |worlds| && a in worlds[n].hub.heap && NeverAstray(worlds, actions, n)
    ensures var w := worlds[n];
      var held := |Occupants(w.consumers, w.slotLog, a)|;
      held <= LargestLimit(w.hub) && exists m :: Limited(a, m) in w.slotLog && held <= m
  {
    CountsAreOccupantsExactly(worlds, actions, n);
    SlotAccounting(worlds, actions, n, a);
  }

  /** Main result: while the counts match, a consumer's release gives its own slot back exactly if the
      session it was taken from is still the client's registered one. In any state it does so exactly
      if, besides, the count of that session is positive. */
  lemma ReleaseIsItsOwnExactly(worlds: seq<World>, actions: seq<Action>, n: nat, k: nat)
    requires IsRun(worlds, actions) && n < |worlds| && k < |worlds[n].consumers|
    requires worlds[n].consumers[k].pc.Releasing?
    ensures Addresses(worlds[n])
    ensures var w := worlds[n];
      var c, origin := w.consumers[k].client, Origin(w, k);
      origin.Some? && origin.value in w.hub.heap &&
      (!Astray(w, ReleaseFor(k)) <==>
         c in w.hub.sessions && w.hub.sessions[c] == origin.value && w.hub.heap[origin.value].inFlight > 0) &&
      (Matched(w) ==> w.hub.heap[origin.value].inFlight > 0)
  {
    var w := worlds[n];
    RunTakesOk(worlds, actions, n);
    RunIsGood(worlds, actions, n);
    assert TookFor(w.consumers[k].pc, k, w.slotLog);
    var b: Address :| Took(b, k) in w.slotLog;
    OriginIs(w, k, b);
    if Matched(w) {
      assert k in Occupants(w.consumers, w.slotLog, b);
    }
  }

  lemma OccupiedIsPositive(w: World, k: nat, a: Address)
    requires Matched(w) && k < |w.consumers| && a in w.hub.heap && Took(a, k) in w.slotLog
    requires Owes(w.consumers[k].pc, w.slotLog)
    ensures w.hub.heap[a].inFlight > 0
  {
    assert k in Occupants(w.consumers, w.slotLog, a);
  }

  lemma OriginStillCounts(w: World, c: ClientId, result: JobResult, k: nat)
    requires Matched(w) && TakesOk(w) && Good(w) && Releases(w, c, result) && HandedOutBy(w, k, result.requestID)
    ensures var origin := OriginOfRequest(w, result.requestID);
      origin.Some? && origin.value in w.hub.heap && w.hub.heap[origin.value].inFlight > 0
  {
    OriginOfHanded(w, k, result.requestID);
    StepKeepsGood(w, Submit(c, result));
    ResultLogged(w, c, result);
    OccupiedIsPositive(w, k, Origin(w, k).value);
  }

  /** The same for a result that gives a slot back: it is the slot of its own job exactly if the job was
      handed out from the client's registered session, while the counts match. A result whose job no
      consumer has handed out takes a slot that is not its own exactly if there is one. */
  lemma ResultIsItsOwnExactly(worlds: seq<World>, actions: seq<Action>, n: nat, c: ClientId, result: JobResult)
    requires IsRun(worlds, actions) && n < |worlds| && Matched(worlds[n])
    requires Addresses(worlds[n]) && Releases(worlds[n], c, result)
    ensures var w := worlds[n];
      var origin := OriginOfRequest(w, result.requestID);
      !Astray(w, Submit(c, result)) <==>
        if origin.Some? then c in w.hub.sessions && w.hub.sessions[c] == origin.value
        else c in w.hub.sessions ==> w.hub.heap[w.hub.sessions[c]].inFlight == 0
  {
    var w, r := worlds[n], result.requestID;
    RunTakesOk(worlds, actions, n);
    RunIsGood(worlds, actions, n);
    if c in w.hub.sessions {
      assert SlotsAddUp(w.hub, w.slotLog, w.hub.sessions[c]);
    }
    if k: nat :| HandedOutBy(w, k, r) {
      OriginStillCounts(w, c, result, k);
    }
  }

  // ---- A run in which a release goes astray ----

  /** The client's registered session is a, with limit 1 and this count. */
  ghost predicate RegisteredWith(h: Hub, c: ClientId, a: Address, inFlight: int) {
    c in h.sessions && h.sessions[c] == a && a in h.heap && h.heap[a].maxInFlight == 1 && h.heap[a].inFlight == inFlight
  }

  lemma Waiting(c: ClientId, g: GroupName) returns (worlds: seq<World>, actions: seq<Action>)
    ensures IsRun(worlds, actions) && Good(worlds[|actions|])
    ensures var w := worlds[|actions|];
      w.made == 1 && w.hub.defaultMaxInFlight == 1 && RegisteredWith(w.hub, c, 0, 0) &&
      w.hub.heap[0].queue.items == [] && w.consumers == [Consumer(c, Wanting)] && w.slotLog == [Limited(0, 1)]
  {
    StartGood(1, 1);
    assert IsRun([Start(1, 1)], []);
    worlds, actions := OneMoreStep([Start(1, 1)], [], RegisterClient(c, g, 0, "", 1));
    worlds, actions := OneMoreStep(worlds, actions, Arrive(c));
  }

  lemma FirstHolds(c: ClientId, g: GroupName) returns (worlds: seq<World>, actions: seq<Action>)
    ensures IsRun(worlds, actions) && Good(worlds[|actions|])
    ensures var w := worlds[|actions|];
      w.made == 1 && w.hub.defaultMaxInFlight == 1 && RegisteredWith(w.hub, c, 0, 1) &&
      w.hub.heap[0].queue.items == [] && w.consumers == [Consumer(c, Holding(0))] &&
      w.slotLog == [Limited(0, 1), Took(0, 0)]
  {
    worlds, actions := Waiting(c, g);
    worlds, actions := OneMoreStep(worlds, actions, AcquireFor(0));
  }

  /** One session of limit 1, and a consumer that is parked on its queue. */
  lemma ParkedConsumer(c: ClientId, g: GroupName) returns (worlds: seq<World>, actions: seq<Action>)
    ensures IsRun(worlds, actions) && Good(worlds[|actions|])
    ensures var w := worlds[|actions|];
      w.made == 1 && w.hub.defaultMaxInFlight == 1 && RegisteredWith(w.hub, c, 0, 1) &&
      |w.consumers| == 1 && w.consumers[0].client == c && w.consumers[0].pc.ParkedForJob? &&
      w.slotLog == [Limited(0, 1), Took(0, 0)]
  {
    worlds, actions := FirstHolds(c, g);
    worlds, actions := OneMoreStep(worlds, actions, PopFor(0));
  }

  lemma Unregistered(c: ClientId, g: GroupName) returns (worlds: seq<World>, actions: seq<Action>)
    ensures IsRun(worlds, actions) && Good(worlds[|actions|])
    ensures var w := worlds[|actions|];
      w.made == 1 && w.hub.defaultMaxInFlight == 1 && c !in w.hub.sessions && 0 in w.hub.heap &&
      w.hub.heap[0].inFlight == 1 && |w.consumers| == 1 && w.consumers[0].client == c &&
      w.consumers[0].pc.ParkedForJob? && w.slotLog == [Limited(0, 1), Took(0, 0)]
  {
    worlds, actions := ParkedConsumer(c, g);
    worlds, actions := OneMoreStep(worlds, actions, UnregisterClient(c));
  }

  lemma RegisteredAgain(c: ClientId, g: GroupName) returns (worlds: seq<World>, actions: seq<Action>)
    ensures IsRun(worlds, actions) && Good(worlds[|actions|])
    ensures var w := worlds[|actions|];
      RegisteredWith(w.hub, c, 1, 0) && 0 in w.hub.heap && w.hub.heap[0].inFlight == 1 &&
      |w.consumers| == 1 && w.consumers[0].client == c && w.consumers[0].pc.ParkedForJob? &&
      w.slotLog == [Limited(0, 1), Took(0, 0), Limited(1, 1)]
  {
    worlds, actions := Unregistered(c, g);
    worlds, actions := OneMoreStep(worlds, actions, RegisterClient(c, g, 0, "", 1));
  }

  lemma SecondArrives(c: ClientId, g: GroupName) returns (worlds: seq<World>, actions: seq<Action>)
    ensures IsRun(worlds, actions) && Good(worlds[|actions|])
    ensures var w := worlds[|actions|];
      RegisteredWith(w.hub, c, 1, 0) && 0 in w.hub.heap && w.hub.heap[0].inFlight == 1 &&
      |w.consumers| == 2 && w.consumers[0].client == c && w.consumers[0].pc.ParkedForJob? &&
      w.consumers[1] == Consumer(c, Wanting) && w.slotLog == [Limited(0, 1), Took(0, 0), Limited(1, 1)]
  {
    worlds, actions := RegisteredAgain(c, g);
    worlds, actions := OneMoreStep(worlds, actions, Arrive(c));
  }

  /** The client has registered again, and a second consumer has taken the slot of the new session. */
  lemma ReplacedSession(c: ClientId, g: GroupName) returns (worlds: seq<World>, actions: seq<Action>)
    ensures IsRun(worlds, actions) && Good(worlds[|actions|])
    ensures var w := worlds[|actions|];
      RegisteredWith(w.hub, c, 1, 1) && 0 in w.hub.heap && w.hub.heap[0].inFlight == 1 &&
      |w.consumers| == 2 && w.consumers[0].client == c && w.consumers[0].pc.ParkedForJob? &&
      w.consumers[1] == Consumer(c, Holding(1)) &&
      w.slotLog == [Limited(0, 1), Took(0, 0), Limited(1, 1), Took(1, 1)]
  {
    worlds, actions := SecondArrives(c, g);
    worlds, actions := OneMoreStep(worlds, actions, AcquireFor(1));
  }

  lemma Cancelled(c: ClientId, g: GroupName) returns (worlds: seq<World>, actions: seq<Action>)
    ensures IsRun(worlds, actions) && Good(worlds[|actions|])
    ensures var w := worlds[|actions|];
      RegisteredWith(w.hub, c, 1, 1) && 0 in w.hub.heap && w.hub.heap[0].inFlight == 1 &&
      w.consumers == [Consumer(c, Releasing(None)), Consumer(c, Holding(1))] &&
      w.slotLog == [Limited(0, 1), Took(0, 0), Limited(1, 1), Took(1, 1)]
  {
    worlds, actions := ReplacedSession(c, g);
    worlds, actions := OneMoreStep(worlds, actions, CancelForJob(0));
  }

  lemma ReleasedTheOther(c: ClientId, g: GroupName) returns (worlds: seq<World>, actions: seq<Action>)
    ensures IsRun(worlds, actions) && Good(worlds[|actions|])
    ensures var w := worlds[|actions|];
      RegisteredWith(w.hub, c, 1, 0) && 0 in w.hub.heap && w.hub.heap[0].inFlight == 1 &&
      w.consumers == [Consumer(c, Done(None)), Consumer(c, Holding(1))] &&
      w.slotLog == [Limited(0, 1), Took(0, 0), Limited(1, 1), Took(1, 1), GaveBack(Some(1), ByConsumer(0))]
  {
    worlds, actions := Cancelled(c, g);
    worlds, actions := OneMoreStep(worlds, actions, ReleaseFor(0));
  }

  lemma ThirdArrives(c: ClientId, g: GroupName) returns (worlds: seq<World>, actions: seq<Action>)
    ensures IsRun(worlds, actions) && Good(worlds[|actions|])
    ensures var w := worlds[|actions|];
      RegisteredWith(w.hub, c, 1, 0) && 0 in w.hub.heap && w.hub.heap[0].inFlight == 1 &&
      w.consumers == [Consumer(c, Done(None)), Consumer(c, Holding(1)), Consumer(c, Wanting)] &&
      w.slotLog == [Limited(0, 1), Took(0, 0), Limited(1, 1), Took(1, 1), GaveBack(Some(1), ByConsumer(0))]
  {
    worlds, actions := ReleasedTheOther(c, g);
    worlds, actions := OneMoreStep(worlds, actions, Arrive(c));
  }

  lemma BothHold(c: ClientId, g: GroupName) returns (worlds: seq<World>, actions: seq<Action>)
    ensures IsRun(worlds, actions) && Good(worlds[|actions|])
    ensures var w := worlds[|actions|];
      RegisteredWith(w.hub, c, 1, 1) && 0 in w.hub.heap && w.hub.heap[0].inFlight == 1 &&
      w.consumers == [Consumer(c, Done(None)), Consumer(c, Holding(1)), Consumer(c, Holding(1))] &&
      w.slotLog == [Limited(0, 1), Took(0, 0), Limited(1, 1), Took(1, 1), GaveBack(Some(1), ByConsumer(0)), Took(1, 2)]
  {
    worlds, actions := ThirdArrives(c, g);
    worlds, actions := OneMoreStep(worlds, actions, AcquireFor(2));
  }

  /** The consumer of the replaced session gives its slot back: it comes off the new session, whose
      limit of 1 then admits a second consumer, while the old session keeps a slot for nobody. */
  lemma ReleaseGoesAstray(c: ClientId, g: GroupName) returns (worlds: seq<World>, actions: seq<Action>)
    ensures IsRun(worlds, actions) && |worlds[|actions|].consumers| == 3
    ensures var w := worlds[|actions|];
      w.consumers[0].pc == Done(None) &&
      0 in w.hub.heap && w.hub.heap[0].inFlight == 1 && Occupants(w.consumers, w.slotLog, 0) == {} &&
      1 in w.hub.heap && (forall m :: Limited(1, m) in w.slotLog ==> m == 1) &&
      Occupants(w.consumers, w.slotLog, 1) == {1, 2}
  {
    worlds, actions := BothHold(c, g);
  }
}
