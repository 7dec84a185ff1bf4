/** Where a job goes: only to consumers of the client that `pickSession` chose, and never to two
    of them (internal/rpc/hub.go, internal/web/client_ws.go). */
module Routing {
  import opened Wrappers
  import opened JobQueues
  import opened HubModel
  import opened Protocol

  /** The job that a consumer has in hand, has handed out, or is about to put back. */
  function Held(pc: ConsumerPc): Option<Job> {
    match pc
    case Got(_, job) => Some(job)
    case Releasing(requeue) => requeue
    case Requeueing(job) => Some(job)
    case Done(handedOut) => handedOut
    case _ => None
  }

  ghost predicate Queued(h: Hub, a: Address, job: Job) {
    a in h.heap && job in h.heap[a].queue.items
  }

  ghost predicate InHand(consumers: seq<Consumer>, k: nat, job: Job) {
    k < |consumers| && Held(consumers[k].pc) == Some(job)
  }

  /** The job of some call of `Invoke` that has been pushed, made for client `c`. */
  ghost predicate PushedFor(w: World, job: Job, c: ClientId) {
    job.clientID == c &&
    exists i :: 0 <= i < |w.invocations| && w.invocations[i].job == job
                && !w.invocations[i].pc.Picked? && !w.invocations[i].pc.Stored?
  }

  ghost predicate JobsRouted(w: World) {
    && (forall i :: 0 <= i < |w.invocations| ==> CallRouted(w, i))
    && (forall a, job :: Queued(w.hub, a, job) ==> PushedFor(w, job, w.hub.heap[a].clientID))
    && (forall k: nat, job :: InHand(w.consumers, k, job) ==> PushedFor(w, job, w.consumers[k].client))
  }

  /** Every job is in at most one place. */
  ghost predicate JobsUnique(h: Hub, consumers: seq<Consumer>) {
    && (forall a, job :: Queued(h, a, job) ==> multiset(h.heap[a].queue.items)[job] == 1)
    && (forall a, b, job :: Queued(h, a, job) && Queued(h, b, job) ==> a == b)
    && (forall a, k: nat, job :: Queued(h, a, job) ==> !InHand(consumers, k, job))
    && (forall j: nat, k: nat, job :: InHand(consumers, j, job) && InHand(consumers, k, job) ==> j == k)
  }

  ghost predicate JobsOk(w: World) {
    JobsRouted(w) && JobsUnique(w.hub, w.consumers)
  }

  // ---- What a queue operation adds and takes ----

  lemma PushBag(q: QueueState, job: Job, now: Time)
    ensures multiset(PushStep(q, job, now).0.items) <= multiset(q.items) + multiset{job}
  {
    LiveFacts(q.items, now);
  }

  lemma PopBag(q: QueueState, now: Time)
    ensures var (q', job) := PopStep(q, now);
      multiset(q'.items) + (if job.Some? then multiset{job.value} else multiset{}) <= multiset(q.items)
  {
    PopConserves(q, now);
  }

  // ---- Uniqueness of places ----

  ghost predicate Nowhere(h: Hub, consumers: seq<Consumer>, job: Job) {
    (forall a :: !Queued(h, a, job)) && (forall k: nat :: !InHand(consumers, k, job))
  }

  lemma PushUnique(h: Hub, a: Address, q: QueueState, consumers: seq<Consumer>, job: Job)
    requires JobsUnique(h, consumers) && a in h.heap && Nowhere(h, consumers, job)
    requires multiset(q.items) <= multiset(h.heap[a].queue.items) + multiset{job}
    ensures JobsUnique(WithQueue(h, a, q), consumers)
  {
    var h' := WithQueue(h, a, q);
    var bag, bag' := multiset(h.heap[a].queue.items), multiset(q.items);
    forall b, x | Queued(h', b, x)
      ensures Queued(h, b, x) || (b == a && x == job)
      ensures multiset(h'.heap[b].queue.items)[x] == 1
    {
      if b == a {
        assert x in bag' && bag'[x] <= (bag + multiset{job})[x];
        assert x in bag <==> Queued(h, a, x);
      }
    }
  }

  lemma PopUnique(h: Hub, a: Address, q: QueueState, consumers: seq<Consumer>, k: nat, pc: ConsumerPc)
    requires JobsUnique(h, consumers) && a in h.heap && k < |consumers| && Held(consumers[k].pc) == None
    requires multiset(q.items) + (if Held(pc).Some? then multiset{Held(pc).value} else multiset{}) <=
             multiset(h.heap[a].queue.items)
    ensures JobsUnique(WithQueue(h, a, q), consumers[k := consumers[k].(pc := pc)])
  {
    var h' := WithQueue(h, a, q);
    var consumers' := consumers[k := consumers[k].(pc := pc)];
    var bag, bag' := multiset(h.heap[a].queue.items), multiset(q.items);
    var taken := if Held(pc).Some? then multiset{Held(pc).value} else multiset{};
    forall x ensures bag'[x] + taken[x] <= bag[x] {
      assert (bag' + taken)[x] <= bag[x];
    }
    forall b, x | Queued(h', b, x)
      ensures Queued(h, b, x) && multiset(h'.heap[b].queue.items)[x] == 1
    {
      if b == a {
        assert x in bag' && x in bag;
        assert Queued(h, a, x);
      }
    }
    if Held(pc).Some? {
      var job := Held(pc).value;
      assert taken[job] == 1 && job in bag;
      assert Queued(h, a, job) && bag[job] == 1 && job !in bag';
      assert forall b :: !Queued(h', b, job);
      assert forall j: nat :: !InHand(consumers, j, job);
    }
    forall j: nat, x | InHand(consumers', j, x)
      ensures if j == k then Held(pc) == Some(x) else InHand(consumers, j, x)
    {
    }
  }

  /** A consumer lets go of its job: the job is nowhere. */
  lemma LetGo(h: Hub, consumers: seq<Consumer>, k: nat, pc: ConsumerPc, job: Job)
    requires JobsUnique(h, consumers) && InHand(consumers, k, job) && Held(pc) == None
    ensures JobsUnique(h, consumers[k := consumers[k].(pc := pc)])
    ensures Nowhere(h, consumers[k := consumers[k].(pc := pc)], job)
  {
    var consumers' := consumers[k := consumers[k].(pc := pc)];
    forall j: nat, x | InHand(consumers', j, x) ensures j != k && InHand(consumers, j, x) {
    }
  }

  // ---- Steps ----

  /** Calls may move on but are not unpushed, and no job changes its contents. */
  ghost predicate CallsMoveOn(w: World, w': World) {
    && |w'.invocations| >= |w.invocations|
    && (forall i :: 0 <= i < |w.invocations| ==> var v, v' := w.invocations[i], w'.invocations[i];
          v'.job == v.job && v'.client == v.client && v'.session == v.session
          && (!v.pc.Picked? && !v.pc.Stored? ==> !v'.pc.Picked? && !v'.pc.Stored?))
  }

  /** Every queue is as before, and new sessions start with an empty one. */
  ghost predicate SameQueues(h: Hub, h': Hub) {
    && (forall a :: a in h.heap ==>
          a in h'.heap && h'.heap[a].clientID == h.heap[a].clientID && h'.heap[a].queue == h.heap[a].queue)
    && (forall a :: a in h'.heap && a !in h.heap ==> h'.heap[a].queue.items == [])
  }

  lemma StillPushed(w: World, w': World, job: Job, c: ClientId)
    requires PushedFor(w, job, c) && CallsMoveOn(w, w')
    ensures PushedFor(w', job, c)
  {
    var i :| 0 <= i < |w.invocations| && w.invocations[i].job == job
             && !w.invocations[i].pc.Picked? && !w.invocations[i].pc.Stored?;
    assert w'.invocations[i].job == job;
  }

  ghost predicate CallRouted(w: World, i: nat)
    requires i < |w.invocations|
  {
    var v := w.invocations[i];
    v.session in w.hub.heap && v.client == w.hub.heap[v.session].clientID == v.job.clientID
  }

  /** Whatever is queued or held later was queued or held by the same client before. */
  lemma RoutedStill(w: World, w': World)
    requires JobsRouted(w) && CallsMoveOn(w, w')
    requires forall a :: a in w.hub.heap ==> a in w'.hub.heap && w'.hub.heap[a].clientID == w.hub.heap[a].clientID
    requires forall i :: |w.invocations| <= i < |w'.invocations| ==> CallRouted(w', i)
    requires forall a, job :: Queued(w'.hub, a, job) ==>
      PushedFor(w, job, w'.hub.heap[a].clientID) || PushedFor(w', job, w'.hub.heap[a].clientID)
    requires forall k: nat, job :: InHand(w'.consumers, k, job) ==> PushedFor(w, job, w'.consumers[k].client)
    ensures JobsRouted(w')
  {
    forall i | 0 <= i < |w'.invocations| ensures CallRouted(w', i) {
      if i < |w.invocations| {
        assert CallRouted(w, i);
      }
    }
    forall a, job | Queued(w'.hub, a, job) ensures PushedFor(w', job, w'.hub.heap[a].clientID) {
      if PushedFor(w, job, w'.hub.heap[a].clientID) {
        StillPushed(w, w', job, w'.hub.heap[a].clientID);
      }
    }
    forall k: nat, job | InHand(w'.consumers, k, job) ensures PushedFor(w', job, w'.consumers[k].client) {
      StillPushed(w, w', job, w'.consumers[k].client);
    }
  }

  /** A step that moves no job. */
  lemma NoJobMoves(w: World, w': World)
    requires JobsOk(w) && CallsMoveOn(w, w') && SameQueues(w.hub, w'.hub)
    requires forall i :: |w.invocations| <= i < |w'.invocations| ==> CallRouted(w', i)
    requires |w'.consumers| >= |w.consumers|
    requires forall k :: 0 <= k < |w.consumers| ==> w'.consumers[k].client == w.consumers[k].client
    requires forall k: nat, job :: InHand(w'.consumers, k, job) ==> InHand(w.consumers, k, job)
    ensures JobsOk(w')
  {
    forall a, job | Queued(w'.hub, a, job) ensures Queued(w.hub, a, job) {
    }
    RoutedStill(w, w');
  }
}
