/** The hub in use: callers of `Invoke`, consumers that fetch jobs (`Hub.Poll` and the websocket
    writer loop), clients that submit results and the registrations around them, interleaved one
    lock-held section at a time (internal/rpc/hub.go, internal/web/client_ws.go).
    Sessions and result channels are numbered: a session by the order in which it was made, a
    channel by the call of `Invoke` that made it. */
module Protocol {
  import opened Wrappers
  import opened JobQueues
  import opened HubModel

  type Address = nat
  type Hub = HubState<Address, nat>

  /** Where a call of `Invoke` stands: between which two of its lock-held sections. */
  datatype InvokePc =
    | Picked                        // a session is chosen, no waiter is stored
    | Stored                        // the waiter is stored, the job is not pushed
    | Waiting                       // parked on the result channel or the deadline
    | Dropping                      // the job could not be queued; the waiter is to be dropped
    | Expiring                      // the deadline won; the waiter is to be expired
    | Returned(result: JobResult)
    | Failed
    | TimedOut

  datatype Invocation = Invocation(job: Job, client: ClientId, session: Address, slot: Option<JobResult>, pc: InvokePc)

  datatype ConsumerPc =
    | Wanting                                             // about to ask for a dispatch slot
    | ParkedForSlot(session: Address, generation: nat)
    | Holding(session: Address)                           // has a slot, about to pop
    | ParkedForJob(session: Address, generation: nat)
    | Got(session: Address, job: Job)
    | Releasing(requeue: Option<Job>)                     // must give the slot back
    | Requeueing(job: Job)
    | Done(handedOut: Option<Job>)

  datatype Consumer = Consumer(client: ClientId, pc: ConsumerPc)

  datatype RequestEvent = Delivery(client: ClientId, result: JobResult) | LateArrival(request: RequestId)
                        | Expiry(request: RequestId)

  datatype Giver = ByConsumer(consumer: nat) | ByResult(request: RequestId)

  /** `from` is the session whose count went down, if any did. */
  datatype SlotEvent = Took(session: Address, consumer: nat) | GaveBack(from: Option<Address>, giver: Giver)
                     | Limited(session: Address, limit: int)

  /** The two logs are history: nothing in the protocol reads them. */
  datatype World = World(hub: Hub, made: nat, clock: Time, invocations: seq<Invocation>, consumers: seq<Consumer>,
                         requestLog: seq<RequestEvent>, slotLog: seq<SlotEvent>)

  function Start(pendingSize: int, defaultMaxInFlight: int): World {
    World(NewHub(pendingSize, defaultMaxInFlight), 0, 0, [], [], [], [])
  }

  datatype Action =
    | Tick(now: Time)
    | RegisterClient(client: ClientId, group: GroupName, userID: int, platform: string, maxInFlight: int)
    | UnregisterClient(client: ClientId)
    | TouchClient(client: ClientId)
    | Begin(job: Job, preferred: ClientId)
    | Store(i: nat)
    | Abort(i: nat)
    | PushJob(i: nat, read: Time)
    | Drop(i: nat)
    | Receive(i: nat)
    | GiveUp(i: nat)
    | Expire(i: nat)
    | Submit(client: ClientId, result: JobResult)
    | Arrive(client: ClientId)
    | AcquireFor(k: nat)
    | WakeForSlot(k: nat)
    | CancelForSlot(k: nat)
    | PopFor(k: nat)
    | WakeForJob(k: nat)
    | CancelForJob(k: nat)
    | HandOut(k: nat)
    | Refuse(k: nat)
    | ReleaseFor(k: nat)
    | RequeueFor(k: nat, read: Time)

  function RequestOf(invocations: seq<Invocation>, i: nat): RequestId
    requires i < |invocations|
  {
    invocations[i].job.requestID
  }

  ghost predicate Known(w: World, r: RequestId) {
    exists i :: 0 <= i < |w.invocations| && RequestOf(w.invocations, i) == r
  }

  ghost predicate InvokeAt(w: World, i: nat, pc: InvokePc) {
    i < |w.invocations| && w.invocations[i].pc == pc
  }

  /** Pointers that every step may follow; part of the invariant proved in SlotSafety.dfy. */
  ghost predicate Addresses(w: World) {
    && Pointers(w.hub)
    && (forall a: Address :: a in w.hub.heap <==> a < w.made)
    && (forall i :: 0 <= i < |w.invocations| ==> w.invocations[i].session < w.made)
    && (forall k :: 0 <= k < |w.consumers| ==> AddressesOf(w.consumers[k].pc) < w.made + 1)
  }

  /** One more than the session a consumer holds on to, or 0. */
  function AddressesOf(pc: ConsumerPc): nat {
    match pc
    case ParkedForSlot(a, _) => a + 1
    case Holding(a) => a + 1
    case ParkedForJob(a, _) => a + 1
    case Got(a, _) => a + 1
    case _ => 0
  }

  // ---- When a step can be taken. Fresh request ids are the one assumption: they are random. ----

  ghost predicate Enabled(w: World, a: Action)
    requires Addresses(w)
  {
    match a
    case Tick(now) => w.clock <= now
    case RegisterClient(_, _, _, _, _) => true
    case UnregisterClient(_) => true
    case TouchClient(_) => true
    case Begin(job, _) => !Known(w, job.requestID)
    case Store(i) => InvokeAt(w, i, Picked)
    case Abort(i) => InvokeAt(w, i, Stored)
    case PushJob(i, read) => InvokeAt(w, i, Stored) && read <= w.clock
    case Drop(i) => InvokeAt(w, i, Dropping)
    case Receive(i) => InvokeAt(w, i, Waiting) && w.invocations[i].slot.Some?
    case GiveUp(i) => InvokeAt(w, i, Waiting)
    case Expire(i) => InvokeAt(w, i, Expiring)
    case Submit(_, _) => true
    case Arrive(_) => true
    case AcquireFor(k) => k < |w.consumers| && w.consumers[k].pc.Wanting?
    case WakeForSlot(k) => k < |w.consumers| && w.consumers[k].pc.ParkedForSlot?
                           && w.hub.heap[w.consumers[k].pc.session].ready != w.consumers[k].pc.generation
    case CancelForSlot(k) => k < |w.consumers| && w.consumers[k].pc.ParkedForSlot?
    case PopFor(k) => k < |w.consumers| && w.consumers[k].pc.Holding?
    case WakeForJob(k) => k < |w.consumers| && w.consumers[k].pc.ParkedForJob?
                          && w.hub.heap[w.consumers[k].pc.session].queue.notify != w.consumers[k].pc.generation
    case CancelForJob(k) => k < |w.consumers| && w.consumers[k].pc.ParkedForJob?
    case HandOut(k) => k < |w.consumers| && w.consumers[k].pc.Got?
    case Refuse(k) => k < |w.consumers| && w.consumers[k].pc.Got?
    case ReleaseFor(k) => k < |w.consumers| && w.consumers[k].pc.Releasing?
    case RequeueFor(k, read) => k < |w.consumers| && w.consumers[k].pc.Requeueing? && read <= w.clock
  }

  // ---- What a step does ----

  function InvokeTo(w: World, i: nat, pc: InvokePc): World
    requires i < |w.invocations|
  {
    w.(invocations := w.invocations[i := w.invocations[i].(pc := pc)])
  }

  function ConsumerTo(w: World, k: nat, pc: ConsumerPc): World
    requires k < |w.consumers|
  {
    w.(consumers := w.consumers[k := w.consumers[k].(pc := pc)])
  }

  ghost function DoRegister(w: World, c: ClientId, g: GroupName, userID: int, platform: string, max: int): World
    requires Addresses(w)
  {
    w.(hub := Register(w.hub, w.made, c, g, userID, platform, max, w.clock),
       made := if c in w.hub.sessions then w.made else w.made + 1,
       slotLog := w.slotLog + [Limited(RegisteredAs(w.hub, w.made, c), NormalizeMaxInFlight(w.hub, max))])
  }

  ghost function DoBegin(w: World, job: Job, preferred: ClientId): World
    requires Addresses(w)
  {
    var (h, r) := PickSession(w.hub, job.group, preferred);
    match r
    case Err(_) => w.(hub := h)
    case Ok(a) =>
      if a !in w.hub.heap then w.(hub := h)
      else
        var c := w.hub.heap[a].clientID;
        w.(hub := h, invocations := w.invocations + [Invocation(job.(clientID := c), c, a, None, Picked)])
  }

  ghost function DoStore(w: World, i: nat): World
    requires i < |w.invocations|
  {
    var h := StoreWaiter(w.hub, RequestOf(w.invocations, i), w.invocations[i].client, i, w.clock);
    InvokeTo(w.(hub := h), i, Stored)
  }

  ghost function DoPush(w: World, i: nat, read: Time): World
    requires Addresses(w) && i < |w.invocations|
  {
    var v := w.invocations[i];
    var (q, ok) := PushStep(w.hub.heap[v.session].queue, v.job, read);
    InvokeTo(w.(hub := WithQueue(w.hub, v.session, q)), i, if ok then Waiting else Dropping)
  }

  ghost function DoDrop(w: World, i: nat): World
    requires i < |w.invocations|
  {
    InvokeTo(w.(hub := DropWaiter(w.hub, RequestOf(w.invocations, i))), i, Failed)
  }

  ghost function DoReceive(w: World, i: nat): World
    requires i < |w.invocations| && w.invocations[i].slot.Some?
  {
    var v := w.invocations[i];
    w.(invocations := w.invocations[i := v.(slot := None, pc := Returned(v.slot.value))])
  }

  ghost function DoExpire(w: World, i: nat): World
    requires i < |w.invocations|
  {
    var r := RequestOf(w.invocations, i);
    var w1 := w.(hub := ExpireWaiter(w.hub, r, w.clock),
                 requestLog := if r in w.hub.waiters then w.requestLog + [Expiry(r)] else w.requestLog);
    InvokeTo(w1, i, TimedOut)
  }

  /** A send that never blocks: a result that finds the slot taken is lost. */
  function Send(invocations: seq<Invocation>, channel: Option<nat>, result: JobResult): seq<Invocation> {
    if channel.Some? && channel.value < |invocations| && invocations[channel.value].slot == None
    then invocations[channel.value := invocations[channel.value].(slot := Some(result))]
    else invocations
  }

  /** The session whose count a release by client `c` brings down. */
  ghost function ReleasedFrom(h: Hub, c: ClientId): Option<Address>
    requires Pointers(h)
  {
    if c in h.sessions && h.heap[h.sessions[c]].inFlight > 0 then Some(h.sessions[c]) else None
  }

  ghost function DoSubmit(w: World, c: ClientId, result: JobResult): World
    requires Addresses(w)
  {
    var (h, answer, sent) := SubmitResult(w.hub, c, result, w.clock);
    var r := result.requestID;
    w.(hub := h,
       invocations := Send(w.invocations, sent, result),
       requestLog := w.requestLog + (if answer == Ok(Delivered) then [Delivery(c, result)]
                                     else if answer == Ok(LateResult) then [LateArrival(r)] else []),
       slotLog := w.slotLog + (if answer == Ok(Delivered) || answer == Ok(LateResult)
                               then [GaveBack(ReleasedFrom(w.hub, c), ByResult(r))] else []))
  }

  ghost function DoAcquire(w: World, k: nat): World
    requires Addresses(w) && k < |w.consumers|
  {
    var (h, r) := AcquireSlot(w.hub, w.consumers[k].client);
    match r
    case Acquired(a) => ConsumerTo(w.(hub := h, slotLog := w.slotLog + [Took(a, k)]), k, Holding(a))
    case Parked(a, generation) => ConsumerTo(w.(hub := h), k, ParkedForSlot(a, generation))
    case Gone => ConsumerTo(w.(hub := h), k, Done(None))
  }

  ghost function DoPop(w: World, k: nat): World
    requires Addresses(w) && k < |w.consumers| && w.consumers[k].pc.Holding?
  {
    var a := w.consumers[k].pc.session;
    var (q, job) := PopStep(w.hub.heap[a].queue, w.clock);
    ConsumerTo(w.(hub := WithQueue(w.hub, a, q)), k,
               if job.Some? then Got(a, job.value) else ParkedForJob(a, q.notify))
  }

  ghost function DoRelease(w: World, k: nat): World
    requires Addresses(w) && k < |w.consumers| && w.consumers[k].pc.Releasing?
  {
    var c, requeue := w.consumers[k].client, w.consumers[k].pc.requeue;
    ConsumerTo(w.(hub := ReleaseSlot(w.hub, c),
                  slotLog := w.slotLog + [GaveBack(ReleasedFrom(w.hub, c), ByConsumer(k))]),
               k, if requeue.Some? then Requeueing(requeue.value) else Done(None))
  }

  ghost function DoRequeue(w: World, k: nat, read: Time): World
    requires Addresses(w) && k < |w.consumers| && w.consumers[k].pc.Requeueing?
  {
    ConsumerTo(w.(hub := Requeue(w.hub, w.consumers[k].client, w.consumers[k].pc.job, read).0), k, Done(None))
  }

  ghost function Step(w: World, a: Action): World
    requires Addresses(w) && Enabled(w, a)
  {
    match a
    case Tick(now) => w.(clock := now)
    case RegisterClient(c, g, userID, platform, max) => DoRegister(w, c, g, userID, platform, max)
    case UnregisterClient(c) => w.(hub := Unregister(w.hub, c))
    case TouchClient(c) => w.(hub := Touch(w.hub, c, w.clock))
    case Begin(job, preferred) => DoBegin(w, job, preferred)
    case Store(i) => DoStore(w, i)
    case Abort(i) => InvokeTo(w, i, Dropping)
    case PushJob(i, read) => DoPush(w, i, read)
    case Drop(i) => DoDrop(w, i)
    case Receive(i) => DoReceive(w, i)
    case GiveUp(i) => InvokeTo(w, i, Expiring)
    case Expire(i) => DoExpire(w, i)
    case Submit(c, result) => DoSubmit(w, c, result)
    case Arrive(c) => w.(consumers := w.consumers + [Consumer(c, Wanting)])
    case AcquireFor(k) => DoAcquire(w, k)
    case WakeForSlot(k) => ConsumerTo(w, k, Wanting)
    case CancelForSlot(k) => ConsumerTo(w, k, Done(None))
    case PopFor(k) => DoPop(w, k)
    case WakeForJob(k) => ConsumerTo(w, k, Holding(w.consumers[k].pc.session))
    case CancelForJob(k) => ConsumerTo(w, k, Releasing(None))
    case HandOut(k) => ConsumerTo(w, k, Done(Some(w.consumers[k].pc.job)))
    case Refuse(k) => ConsumerTo(w, k, Releasing(Some(w.consumers[k].pc.job)))
    case ReleaseFor(k) => DoRelease(w, k)
    case RequeueFor(k, read) => DoRequeue(w, k, read)
  }

  /** Steps in which a consumer only moves on by itself. */
  ghost predicate ConsumerMove(a: Action) {
    a.WakeForSlot? || a.CancelForSlot? || a.WakeForJob? || a.CancelForJob? || a.HandOut? || a.Refuse?
  }

  /** Steps that change one client's registration. */
  ghost predicate RegistrationMove(a: Action) {
    a.RegisterClient? || a.UnregisterClient? || a.TouchClient?
  }

  /** Steps of one call of `Invoke` that leave the session it uses alone, and the clock. */
  ghost predicate CallMove(a: Action) {
    a.Tick? || a.Store? || a.Abort? || a.Drop? || a.Receive? || a.GiveUp? || a.Expire?
  }
}
