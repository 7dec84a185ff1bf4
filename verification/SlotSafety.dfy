/** Dispatch slots, wake-ups and the session indexes, whatever the interleaving
    (internal/rpc/hub.go, internal/web/client_ws.go). */
module SlotSafety {
  import opened Wrappers
  import opened JobQueues
  import opened HubModel
  import opened HubIndex
  import opened Protocol

  // ---- Counting slot events ----

  datatype Kind = TakenFrom(session: Address) | ReturnedTo(session: Address)
                | TakenBy(consumer: nat) | ReturnedBy(consumer: nat) | ReleasedFor(request: RequestId)

  predicate Is(e: SlotEvent, kind: Kind) {
    match kind
    case TakenFrom(a) => e.Took? && e.session == a
    case ReturnedTo(a) => e.GaveBack? && e.from == Some(a)
    case TakenBy(k) => e.Took? && e.consumer == k
    case ReturnedBy(k) => e.GaveBack? && e.giver == ByConsumer(k)
    case ReleasedFor(r) => e.GaveBack? && e.giver == ByResult(r)
  }

  function Count(log: seq<SlotEvent>, kind: Kind): nat {
    if log == [] then 0 else Count(log[..|log| - 1], kind) + (if Is(log[|log| - 1], kind) then 1 else 0)
  }

  lemma CountAppend(log: seq<SlotEvent>, e: SlotEvent, kind: Kind)
    ensures Count(log + [e], kind) == Count(log, kind) + (if Is(e, kind) then 1 else 0)
  {
    assert (log + [e])[..|log|] == log;
  }

  /** How one more event changes what each consumer has taken and returned. */
  lemma ConsumerCounts(log: seq<SlotEvent>, e: SlotEvent)
    ensures forall k: nat :: Count(log + [e], TakenBy(k)) == Count(log, TakenBy(k)) + if Is(e, TakenBy(k)) then 1 else 0
    ensures forall k: nat ::
      Count(log + [e], ReturnedBy(k)) == Count(log, ReturnedBy(k)) + if Is(e, ReturnedBy(k)) then 1 else 0
  {
    forall k: nat
      ensures Count(log + [e], TakenBy(k)) == Count(log, TakenBy(k)) + if Is(e, TakenBy(k)) then 1 else 0
      ensures Count(log + [e], ReturnedBy(k)) == Count(log, ReturnedBy(k)) + if Is(e, ReturnedBy(k)) then 1 else 0
    {
      CountAppend(log, e, TakenBy(k));
      CountAppend(log, e, ReturnedBy(k));
    }
  }

  // ---- What holds of one session and of one consumer ----

  function LargestLimit(h: Hub): int {
    if h.defaultMaxInFlight > MAX_IN_FLIGHT_CAP then h.defaultMaxInFlight else MAX_IN_FLIGHT_CAP
  }

  /** The slot count of a session is what was taken from it less what was given back to it, and
      lies between 0 and some limit that the session has had. */
  ghost predicate SlotsAddUp(h: Hub, log: seq<SlotEvent>, a: Address) {
    if a in h.heap then
      var s := h.heap[a];
      && s.inFlight == Count(log, TakenFrom(a)) - Count(log, ReturnedTo(a))
      && 0 <= s.inFlight
      && Limited(a, s.maxInFlight) in log
      && (exists m :: Limited(a, m) in log && s.inFlight <= m)
    else
      Count(log, TakenFrom(a)) == 0 && Count(log, ReturnedTo(a)) == 0
  }

  ghost predicate QueueBounded(h: Hub, a: Address) {
    a in h.heap ==> |h.heap[a].queue.items| <= h.heap[a].queue.limit
  }

  ghost predicate LimitsBounded(h: Hub, log: seq<SlotEvent>) {
    forall e :: e in log && e.Limited? ==> e.limit <= LargestLimit(h)
  }

  ghost predicate Registered(h: Hub, a: Address) {
    a in h.heap && h.heap[a].clientID in h.sessions && h.sessions[h.heap[a].clientID] == a
  }

  /** Does a consumer in this state hold a slot that it or its job's result has to give back? */
  predicate HoldsSlot(pc: ConsumerPc) {
    match pc
    case Wanting => false
    case ParkedForSlot(_, _) => false
    case Requeueing(_) => false
    case Done(handedOut) => handedOut.Some?
    case _ => true
  }

  ghost predicate SlotBalance(consumers: seq<Consumer>, log: seq<SlotEvent>, k: nat) {
    Count(log, TakenBy(k)) - Count(log, ReturnedBy(k)) ==
      if k < |consumers| && HoldsSlot(consumers[k].pc) then 1 else 0
  }

  /** No wake-up is lost: who is parked on the current generation has nothing to wake up for. */
  ghost predicate ParkedRightly(h: Hub, c: Consumer) {
    match c.pc
    case ParkedForSlot(a, generation) =>
      && a in h.heap && h.heap[a].clientID == c.client
      && generation <= h.heap[a].ready
      && (generation == h.heap[a].ready ==> Registered(h, a) && h.heap[a].inFlight >= h.heap[a].maxInFlight)
    case ParkedForJob(a, generation) =>
      && a in h.heap && h.heap[a].clientID == c.client
      && generation <= h.heap[a].queue.notify
      && (generation == h.heap[a].queue.notify ==> h.heap[a].queue.items == [])
    case Holding(a) => a in h.heap && h.heap[a].clientID == c.client
    case Got(a, _) => a in h.heap && h.heap[a].clientID == c.client
    case _ => true
  }

  // ---- How a hub may change under a parked consumer ----

  /** The later session keeps the promises made to whoever is parked on the earlier one. */
  ghost predicate SessionGrows(h: Hub, h': Hub, a: Address)
    requires a in h.heap && a in h'.heap
  {
    var s, s' := h.heap[a], h'.heap[a];
    && s'.clientID == s.clientID && s'.ready >= s.ready && s'.queue.notify >= s.queue.notify
    && (s'.ready == s.ready && Registered(h, a) && s.inFlight >= s.maxInFlight ==>
          Registered(h', a) && s'.inFlight >= s'.maxInFlight)
    && (s'.queue.notify == s.queue.notify && s.queue.items == [] ==> s'.queue.items == [])
  }

  ghost predicate HubGrows(h: Hub, h': Hub) {
    forall a :: a in h.heap ==> a in h'.heap && SessionGrows(h, h', a)
  }

  lemma StillParkedRightly(h: Hub, h': Hub, c: Consumer)
    requires HubGrows(h, h') && ParkedRightly(h, c)
    ensures ParkedRightly(h', c)
  {
  }

  lemma RegisterGrows(h: Hub, newcomer: Address, c: ClientId, g: GroupName, userID: int, platform: string, max: int,
                      now: Time)
    requires Coherent(h) && newcomer !in h.heap
    ensures HubGrows(h, Register(h, newcomer, c, g, userID, platform, max, now))
  {
  }

  lemma UnregisterGrows(h: Hub, c: ClientId)
    requires Coherent(h)
    ensures HubGrows(h, Unregister(h, c))
  {
  }

  lemma TouchGrows(h: Hub, c: ClientId, now: Time)
    requires Pointers(h)
    ensures HubGrows(h, Touch(h, c, now))
  {
  }

  lemma AcquireGrows(h: Hub, c: ClientId)
    requires Pointers(h)
    ensures HubGrows(h, AcquireSlot(h, c).0)
  {
  }

  lemma ReleaseGrows(h: Hub, c: ClientId)
    requires Pointers(h)
    ensures HubGrows(h, ReleaseSlot(h, c))
  {
  }

  lemma SameSessionsGrow(h: Hub, h': Hub)
    requires h'.heap == h.heap && h'.sessions == h.sessions
    ensures HubGrows(h, h')
  {
  }

  lemma SubmitGrows(h: Hub, c: ClientId, result: JobResult, now: Time)
    requires Pointers(h)
    ensures HubGrows(h, SubmitResult(h, c, result, now).0)
  {
    SubmitHeap(h, c, result, now);
    ReleaseGrows(h, c);
  }

  /** A submission changes sessions only by giving one slot of its client back. */
  lemma SubmitHeap(h: Hub, c: ClientId, result: JobResult, now: Time)
    requires Pointers(h)
    ensures var (h', answer, _) := SubmitResult(h, c, result, now);
      && h'.sessions == h.sessions && h'.defaultMaxInFlight == h.defaultMaxInFlight
      && h'.heap == if answer == Ok(Delivered) || answer == Ok(LateResult) then ReleaseSlot(h, c).heap else h.heap
  {
  }

  lemma PushGrows(h: Hub, a: Address, job: Job, now: Time)
    requires a in h.heap
    ensures HubGrows(h, WithQueue(h, a, PushStep(h.heap[a].queue, job, now).0))
  {
    LiveFacts(h.heap[a].queue.items, now);
  }

  lemma PopGrows(h: Hub, a: Address, now: Time)
    requires a in h.heap
    ensures HubGrows(h, WithQueue(h, a, PopStep(h.heap[a].queue, now).0))
  {
  }

  // ---- Sessions: every step keeps the accounts ----

  ghost predicate SessionsOk(h: Hub, log: seq<SlotEvent>) {
    && (forall a: Address :: SlotsAddUp(h, log, a))
    && (forall a: Address :: QueueBounded(h, a))
    && LimitsBounded(h, log)
    && h.defaultMaxInFlight > 0
  }

  ghost predicate SameSlots(h: Hub, h': Hub) {
    && h'.heap.Keys == h.heap.Keys && h'.defaultMaxInFlight == h.defaultMaxInFlight
    && (forall a :: a in h.heap ==> h'.heap[a].inFlight == h.heap[a].inFlight
                                    && h'.heap[a].maxInFlight == h.heap[a].maxInFlight)
  }

  lemma SessionsStay(h: Hub, h': Hub, log: seq<SlotEvent>)
    requires SessionsOk(h, log) && SameSlots(h, h')
    requires forall a :: a in h.heap && h'.heap[a].queue != h.heap[a].queue ==> QueueBounded(h', a)
    ensures SessionsOk(h', log)
  {
    forall a: Address ensures SlotsAddUp(h', log, a) {
      assert SlotsAddUp(h, log, a);
    }
    forall a: Address ensures QueueBounded(h', a) {
      assert QueueBounded(h, a);
    }
  }

  lemma RegisterKeepsSessions(h: Hub, log: seq<SlotEvent>, newcomer: Address, c: ClientId, g: GroupName, userID: int,
                              platform: string, max: int, now: Time)
    requires SessionsOk(h, log) && Pointers(h) && newcomer !in h.heap
    ensures SessionsOk(Register(h, newcomer, c, g, userID, platform, max, now),
                       log + [Limited(RegisteredAs(h, newcomer, c), NormalizeMaxInFlight(h, max))])
  {
    var h' := Register(h, newcomer, c, g, userID, platform, max, now);
    var e := Limited(RegisteredAs(h, newcomer, c), NormalizeMaxInFlight(h, max));
    forall a: Address ensures SlotsAddUp(h', log + [e], a) {
      assert SlotsAddUp(h, log, a);
      CountAppend(log, e, TakenFrom(a));
      CountAppend(log, e, ReturnedTo(a));
      if a in h.heap {
        var m :| Limited(a, m) in log && h.heap[a].inFlight <= m;
        assert Limited(a, m) in log + [e];
      }
      assert e in log + [e];
      assert a == newcomer && c !in h.sessions ==> 0 <= e.limit;
    }
    forall a: Address ensures QueueBounded(h', a) {
      assert QueueBounded(h, a);
    }
  }

  lemma AcquireKeepsSessions(h: Hub, log: seq<SlotEvent>, c: ClientId, k: nat)
    requires SessionsOk(h, log) && Pointers(h)
    requires AcquireSlot(h, c).1.Acquired?
    ensures SessionsOk(AcquireSlot(h, c).0, log + [Took(h.sessions[c], k)])
  {
    var h' := AcquireSlot(h, c).0;
    var e := Took(h.sessions[c], k);
    forall a: Address ensures SlotsAddUp(h', log + [e], a) {
      assert SlotsAddUp(h, log, a);
      CountAppend(log, e, TakenFrom(a));
      CountAppend(log, e, ReturnedTo(a));
      if a in h.heap {
        var m :| Limited(a, m) in log && h.heap[a].inFlight <= m;
        assert Limited(a, m) in log + [e];
        assert Limited(a, h.heap[a].maxInFlight) in log + [e];
      }
    }
    forall a: Address ensures QueueBounded(h', a) {
      assert QueueBounded(h, a);
    }
  }

  lemma ReleaseKeepsSessions(h: Hub, log: seq<SlotEvent>, c: ClientId, giver: Giver)
    requires SessionsOk(h, log) && Pointers(h)
    ensures SessionsOk(ReleaseSlot(h, c), log + [GaveBack(ReleasedFrom(h, c), giver)])
  {
    var h' := ReleaseSlot(h, c);
    var e := GaveBack(ReleasedFrom(h, c), giver);
    forall a: Address ensures SlotsAddUp(h', log + [e], a) {
      assert SlotsAddUp(h, log, a);
      CountAppend(log, e, TakenFrom(a));
      CountAppend(log, e, ReturnedTo(a));
      if a in h.heap {
        var m :| Limited(a, m) in log && h.heap[a].inFlight <= m;
        assert Limited(a, m) in log + [e];
      }
    }
    forall a: Address ensures QueueBounded(h', a) {
      assert QueueBounded(h, a);
    }
  }

  lemma PushKeepsBound(h: Hub, a: Address, job: Job, now: Time)
    requires a in h.heap && QueueBounded(h, a)
    ensures QueueBounded(WithQueue(h, a, PushStep(h.heap[a].queue, job, now).0), a)
  {
    LiveFacts(h.heap[a].queue.items, now);
  }

  // ---- Consumers: every step keeps the balance and the parking ----

  ghost predicate ConsumersOk(h: Hub, consumers: seq<Consumer>, log: seq<SlotEvent>) {
    && (forall k: nat :: SlotBalance(consumers, log, k))
    && (forall k :: 0 <= k < |consumers| ==> ParkedRightly(h, consumers[k]))
  }

  /** No consumer takes part in the step. */
  lemma ConsumersStay(h: Hub, h': Hub, consumers: seq<Consumer>, log: seq<SlotEvent>, log': seq<SlotEvent>)
    requires ConsumersOk(h, consumers, log) && HubGrows(h, h')
    requires forall k: nat :: Count(log', TakenBy(k)) == Count(log, TakenBy(k))
                              && Count(log', ReturnedBy(k)) == Count(log, ReturnedBy(k))
    ensures ConsumersOk(h', consumers, log')
  {
    forall k: nat ensures SlotBalance(consumers, log', k) {
      assert SlotBalance(consumers, log, k);
    }
    forall k | 0 <= k < |consumers| ensures ParkedRightly(h', consumers[k]) {
      StillParkedRightly(h, h', consumers[k]);
    }
  }

  /** One consumer moves on. */
  lemma ConsumerMoved(h: Hub, h': Hub, consumers: seq<Consumer>, k: nat, pc: ConsumerPc, log: seq<SlotEvent>,
                      log': seq<SlotEvent>)
    requires ConsumersOk(h, consumers, log) && HubGrows(h, h') && k < |consumers|
    requires forall j: nat :: j != k ==> Count(log', TakenBy(j)) == Count(log, TakenBy(j))
                                         && Count(log', ReturnedBy(j)) == Count(log, ReturnedBy(j))
    requires Count(log', TakenBy(k)) - Count(log', ReturnedBy(k)) == if HoldsSlot(pc) then 1 else 0
    requires ParkedRightly(h', consumers[k].(pc := pc))
    ensures ConsumersOk(h', consumers[k := consumers[k].(pc := pc)], log')
  {
    var consumers' := consumers[k := consumers[k].(pc := pc)];
    forall j: nat ensures SlotBalance(consumers', log', j) {
      assert SlotBalance(consumers, log, j);
    }
    forall j | 0 <= j < |consumers'| ensures ParkedRightly(h', consumers'[j]) {
      if j != k {
        StillParkedRightly(h, h', consumers[j]);
      }
    }
  }
}
