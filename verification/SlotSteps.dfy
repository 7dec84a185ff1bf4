/** Every step of the protocol keeps the slot accounts, the indexes and the wake-ups. */
module SlotSteps {
  import opened Wrappers
  import opened JobQueues
  import opened HubModel
  import opened HubIndex
  import opened Protocol
  import opened SlotSafety

  ghost predicate SlotsOk(w: World) {
    && Addresses(w)
    && Coherent(w.hub)
    && SessionsOk(w.hub, w.slotLog)
    && ConsumersOk(w.hub, w.consumers, w.slotLog)
  }

  lemma StartSlotsOk(pendingSize: int, defaultMaxInFlight: int)
    ensures SlotsOk(Start(pendingSize, defaultMaxInFlight))
  {
    NewHubCoherent<Address, nat>(pendingSize, defaultMaxInFlight);
    var w := Start(pendingSize, defaultMaxInFlight);
    assert w.hub.heap == map[] && w.made == 0;
    AddressesFollow(w);
  }

  ghost predicate SessionsExist(w: World) {
    && (forall a: Address :: a in w.hub.heap <==> a < w.made)
    && (forall i :: 0 <= i < |w.invocations| ==> w.invocations[i].session < w.made)
  }

  lemma AddressesFollow(w: World)
    requires Coherent(w.hub) && SessionsExist(w) && ConsumersOk(w.hub, w.consumers, w.slotLog)
    ensures Addresses(w)
  {
    forall k | 0 <= k < |w.consumers| ensures AddressesOf(w.consumers[k].pc) < w.made + 1 {
      assert ParkedRightly(w.hub, w.consumers[k]);
    }
  }

  /** A step that changes at most the hub and the calls, and takes or returns no slot. */
  lemma QuietStep(w: World, w': World)
    requires SlotsOk(w) && w'.consumers == w.consumers && w'.slotLog == w.slotLog
    requires Coherent(w'.hub) && HubGrows(w.hub, w'.hub) && SameSlots(w.hub, w'.hub) && SessionsExist(w')
    requires forall a :: a in w.hub.heap && w'.hub.heap[a].queue != w.hub.heap[a].queue ==> QueueBounded(w'.hub, a)
    ensures SlotsOk(w')
  {
    SessionsStay(w.hub, w'.hub, w.slotLog);
    ConsumersStay(w.hub, w'.hub, w.consumers, w.slotLog, w.slotLog);
    AddressesFollow(w');
  }

  /** A step of one consumer that takes or returns no slot. */
  lemma ConsumerStep(w: World, w': World, k: nat, pc: ConsumerPc)
    requires SlotsOk(w) && k < |w.consumers| && w' == ConsumerTo(w.(hub := w'.hub), k, pc)
    requires Coherent(w'.hub) && HubGrows(w.hub, w'.hub) && SameSlots(w.hub, w'.hub)
    requires forall a :: a in w.hub.heap && w'.hub.heap[a].queue != w.hub.heap[a].queue ==> QueueBounded(w'.hub, a)
    requires HoldsSlot(pc) == HoldsSlot(w.consumers[k].pc)
    requires ParkedRightly(w'.hub, w.consumers[k].(pc := pc))
    ensures SlotsOk(w')
  {
    SessionsStay(w.hub, w'.hub, w.slotLog);
    assert SlotBalance(w.consumers, w.slotLog, k);
    ConsumerMoved(w.hub, w'.hub, w.consumers, k, pc, w.slotLog, w.slotLog);
    AddressesFollow(w');
  }

  lemma RegisterSlots(w: World, c: ClientId, g: GroupName, userID: int, platform: string, max: int)
    requires SlotsOk(w)
    ensures SlotsOk(DoRegister(w, c, g, userID, platform, max))
  {
    var w' := DoRegister(w, c, g, userID, platform, max);
    var e := Limited(RegisteredAs(w.hub, w.made, c), NormalizeMaxInFlight(w.hub, max));
    assert w.made !in w.hub.heap;
    RegisterCoherent(w.hub, w.made, c, g, userID, platform, max, w.clock);
    RegisterGrows(w.hub, w.made, c, g, userID, platform, max, w.clock);
    RegisterKeepsSessions(w.hub, w.slotLog, w.made, c, g, userID, platform, max, w.clock);
    ConsumerCounts(w.slotLog, e);
    ConsumersStay(w.hub, w'.hub, w.consumers, w.slotLog, w'.slotLog);
    AddressesFollow(w');
  }

  lemma UnregisterSlots(w: World, c: ClientId)
    requires SlotsOk(w)
    ensures SlotsOk(w.(hub := Unregister(w.hub, c)))
  {
    UnregisterCoherent(w.hub, c);
    UnregisterGrows(w.hub, c);
    QuietStep(w, w.(hub := Unregister(w.hub, c)));
  }

  lemma TouchSlots(w: World, c: ClientId)
    requires SlotsOk(w)
    ensures SlotsOk(w.(hub := Touch(w.hub, c, w.clock)))
  {
    var h' := Touch(w.hub, c, w.clock);
    TouchKeepsIndex(w.hub, c, w.clock);
    SameIndexCoherent(w.hub, h');
    TouchGrows(w.hub, c, w.clock);
    QuietStep(w, w.(hub := h'));
  }

  lemma BeginSlots(w: World, job: Job, preferred: ClientId)
    requires SlotsOk(w)
    ensures SlotsOk(DoBegin(w, job, preferred))
  {
    var w' := DoBegin(w, job, preferred);
    PickCoherent(w.hub, job.group, preferred);
    SameSessionsGrow(w.hub, w'.hub);
    QuietStep(w, w');
  }

  /** Steps that touch waiters and tombstones only. */
  lemma TableSlots(w: World, w': World)
    requires SlotsOk(w) && w'.consumers == w.consumers && w'.slotLog == w.slotLog && w'.made == w.made
    requires w'.hub == w.hub.(waiters := w'.hub.waiters, completed := w'.hub.completed)
    requires |w'.invocations| == |w.invocations|
    requires forall i :: 0 <= i < |w.invocations| ==> w'.invocations[i].session == w.invocations[i].session
    ensures SlotsOk(w')
  {
    SameIndexCoherent(w.hub, w'.hub);
    SameSessionsGrow(w.hub, w'.hub);
    QuietStep(w, w');
  }

  lemma PushSlots(w: World, i: nat, read: Time)
    requires SlotsOk(w) && i < |w.invocations|
    ensures SlotsOk(DoPush(w, i, read))
  {
    var w' := DoPush(w, i, read);
    var a := w.invocations[i].session;
    assert QueueBounded(w.hub, a);
    PushKeepsBound(w.hub, a, w.invocations[i].job, read);
    PushGrows(w.hub, a, w.invocations[i].job, read);
    SameIndexCoherent(w.hub, w'.hub);
    QuietStep(w, w');
  }

  lemma SubmitSlots(w: World, c: ClientId, result: JobResult)
    requires SlotsOk(w)
    ensures SlotsOk(DoSubmit(w, c, result))
  {
    var w' := DoSubmit(w, c, result);
    SubmitKeepsIndex(w.hub, c, result, w.clock);
    SameIndexCoherent(w.hub, w'.hub);
    SubmitGrows(w.hub, c, result, w.clock);
    SubmitHeap(w.hub, c, result, w.clock);
    var e := GaveBack(ReleasedFrom(w.hub, c), ByResult(result.requestID));
    ConsumerCounts(w.slotLog, e);
    ConsumersStay(w.hub, w'.hub, w.consumers, w.slotLog, w.slotLog + [e]);
    ConsumersStay(w.hub, w'.hub, w.consumers, w.slotLog, w.slotLog);
    assert w.slotLog + [] == w.slotLog;
    if w'.slotLog == w.slotLog + [e] {
      ReleaseKeepsSessions(w.hub, w.slotLog, c, ByResult(result.requestID));
      SessionsStay(ReleaseSlot(w.hub, c), w'.hub, w.slotLog + [e]);
    } else {
      SessionsStay(w.hub, w'.hub, w.slotLog);
    }
    AddressesFollow(w');
  }

  lemma ArriveSlots(w: World, c: ClientId)
    requires SlotsOk(w)
    ensures SlotsOk(w.(consumers := w.consumers + [Consumer(c, Wanting)]))
  {
    var w' := w.(consumers := w.consumers + [Consumer(c, Wanting)]);
    forall k: nat ensures SlotBalance(w'.consumers, w.slotLog, k) {
      assert SlotBalance(w.consumers, w.slotLog, k);
    }
    AddressesFollow(w');
  }

  lemma AcquireSlots(w: World, k: nat)
    requires SlotsOk(w) && k < |w.consumers| && w.consumers[k].pc.Wanting?
    ensures SlotsOk(DoAcquire(w, k))
  {
    var w' := DoAcquire(w, k);
    if AcquireSlot(w.hub, w.consumers[k].client).1.Acquired? {
      AcquiredSlots(w, k);
    } else {
      SameSessionsGrow(w.hub, w'.hub);
      ConsumerStep(w, w', k, w'.consumers[k].pc);
    }
  }

  lemma AcquiredSlots(w: World, k: nat)
    requires SlotsOk(w) && k < |w.consumers| && w.consumers[k].pc.Wanting?
    requires AcquireSlot(w.hub, w.consumers[k].client).1.Acquired?
    ensures SlotsOk(DoAcquire(w, k))
  {
    var w' := DoAcquire(w, k);
    var c := w.consumers[k].client;
    var a := w.hub.sessions[c];
    var e := Took(a, k);
    AcquireKeepsIndex(w.hub, c);
    SameIndexCoherent(w.hub, w'.hub);
    AcquireGrows(w.hub, c);
    AcquireKeepsSessions(w.hub, w.slotLog, c, k);
    assert SlotBalance(w.consumers, w.slotLog, k);
    ConsumerCounts(w.slotLog, e);
    ConsumerMoved(w.hub, w'.hub, w.consumers, k, Holding(a), w.slotLog, w.slotLog + [e]);
    AddressesFollow(w');
  }

  lemma PopSlots(w: World, k: nat)
    requires SlotsOk(w) && k < |w.consumers| && w.consumers[k].pc.Holding?
    ensures SlotsOk(DoPop(w, k))
  {
    var w' := DoPop(w, k);
    var a := w.consumers[k].pc.session;
    assert ParkedRightly(w.hub, w.consumers[k]) && QueueBounded(w.hub, a);
    PopGrows(w.hub, a, w.clock);
    SameIndexCoherent(w.hub, w'.hub);
    ConsumerStep(w, w', k, w'.consumers[k].pc);
  }

  lemma ReleaseSlots(w: World, k: nat)
    requires SlotsOk(w) && k < |w.consumers| && w.consumers[k].pc.Releasing?
    ensures SlotsOk(DoRelease(w, k))
  {
    var w' := DoRelease(w, k);
    var c := w.consumers[k].client;
    assert SlotBalance(w.consumers, w.slotLog, k);
    ReleaseKeepsIndex(w.hub, c);
    SameIndexCoherent(w.hub, w'.hub);
    ReleaseGrows(w.hub, c);
    ReleaseKeepsSessions(w.hub, w.slotLog, c, ByConsumer(k));
    var e := GaveBack(ReleasedFrom(w.hub, c), ByConsumer(k));
    ConsumerCounts(w.slotLog, e);
    ConsumerMoved(w.hub, w'.hub, w.consumers, k, w'.consumers[k].pc, w.slotLog, w'.slotLog);
    AddressesFollow(w');
  }

  lemma RequeueSlots(w: World, k: nat, read: Time)
    requires SlotsOk(w) && k < |w.consumers| && w.consumers[k].pc.Requeueing?
    ensures SlotsOk(DoRequeue(w, k, read))
  {
    var w' := DoRequeue(w, k, read);
    var c, job := w.consumers[k].client, w.consumers[k].pc.job;
    if c in w.hub.sessions {
      var a := w.hub.sessions[c];
      assert QueueBounded(w.hub, a);
      PushKeepsBound(w.hub, a, job, read);
      PushGrows(w.hub, a, job, read);
      SameIndexCoherent(w.hub, w'.hub);
    } else {
      SameSessionsGrow(w.hub, w'.hub);
    }
    ConsumerStep(w, w', k, Done(None));
  }

  /** A consumer that moves on by itself. */
  lemma MoveSlots(w: World, k: nat, pc: ConsumerPc)
    requires SlotsOk(w) && k < |w.consumers|
    requires HoldsSlot(pc) == HoldsSlot(w.consumers[k].pc)
    requires ParkedRightly(w.hub, w.consumers[k].(pc := pc))
    ensures SlotsOk(ConsumerTo(w, k, pc))
  {
    SameSessionsGrow(w.hub, w.hub);
    ConsumerStep(w, ConsumerTo(w, k, pc), k, pc);
  }

  lemma ConsumerMoveSlots(w: World, a: Action)
    requires SlotsOk(w) && Enabled(w, a) && ConsumerMove(a)
    ensures SlotsOk(Step(w, a))
  {
    match a
    case WakeForSlot(k) => MoveSlots(w, k, Wanting);
    case CancelForSlot(k) => MoveSlots(w, k, Done(None));
    case WakeForJob(k) =>
      assert ParkedRightly(w.hub, w.consumers[k]);
      MoveSlots(w, k, Holding(w.consumers[k].pc.session));
    case CancelForJob(k) => MoveSlots(w, k, Releasing(None));
    case HandOut(k) => MoveSlots(w, k, Done(Some(w.consumers[k].pc.job)));
    case Refuse(k) => MoveSlots(w, k, Releasing(Some(w.consumers[k].pc.job)));
  }

  lemma RegistrationSlots(w: World, a: Action)
    requires SlotsOk(w) && Enabled(w, a) && RegistrationMove(a)
    ensures SlotsOk(Step(w, a))
  {
    match a
    case RegisterClient(c, g, userID, platform, max) => RegisterSlots(w, c, g, userID, platform, max);
    case UnregisterClient(c) => UnregisterSlots(w, c);
    case TouchClient(c) => TouchSlots(w, c);
  }

  /** Main result: every step keeps all of it. */
  lemma StepKeepsSlots(w: World, a: Action)
    requires SlotsOk(w) && Enabled(w, a)
    ensures SlotsOk(Step(w, a))
  {
    if ConsumerMove(a) {
      ConsumerMoveSlots(w, a);
    } else if CallMove(a) {
      TableSlots(w, Step(w, a));
    } else if RegistrationMove(a) {
      RegistrationSlots(w, a);
    } else {
      match a
      case Begin(job, preferred) => BeginSlots(w, job, preferred);
      case PushJob(i, read) => PushSlots(w, i, read);
      case Submit(c, result) => SubmitSlots(w, c, result);
      case Arrive(c) => ArriveSlots(w, c);
      case AcquireFor(k) => AcquireSlots(w, k);
      case PopFor(k) => PopSlots(w, k);
      case ReleaseFor(k) => ReleaseSlots(w, k);
      case RequeueFor(k, read) => RequeueSlots(w, k, read);
    }
  }
}
