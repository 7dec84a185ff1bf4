/** Every step of the protocol keeps every job in one place and on its way to the chosen client. */
module RoutingSteps {
  import opened Wrappers
  import opened JobQueues
  import opened HubModel
  import opened Protocol
  import opened RequestSafety
  import opened SlotSafety
  import opened SlotSteps
  import opened Routing

  // ---- The hub's own operations leave the queues alone ----

  lemma SubmitQueues(h: Hub, c: ClientId, result: JobResult, now: Time)
    requires Pointers(h)
    ensures SameQueues(h, SubmitResult(h, c, result, now).0)
  {
    SubmitHeap(h, c, result, now);
    ReleaseQueues(h, c);
  }

  lemma ReleaseQueues(h: Hub, c: ClientId)
    requires Pointers(h)
    ensures SameQueues(h, ReleaseSlot(h, c))
  {
  }

  lemma SubmitJobs(w: World, c: ClientId, result: JobResult)
    requires JobsOk(w) && SlotsOk(w)
    ensures JobsOk(DoSubmit(w, c, result))
  {
    SubmitQueues(w.hub, c, result, w.clock);
    NoJobMoves(w, DoSubmit(w, c, result));
  }

  lemma BeginJobs(w: World, job: Job, preferred: ClientId)
    requires JobsOk(w) && SlotsOk(w)
    ensures JobsOk(DoBegin(w, job, preferred))
  {
    var w' := DoBegin(w, job, preferred);
    NoJobMoves(w, w');
  }

  /** A job that has not been pushed is nowhere. */
  lemma UnpushedIsNowhere(w: World, i: nat)
    requires JobsOk(w) && RequestsOk(w) && InvokeAt(w, i, Stored)
    ensures Nowhere(w.hub, w.consumers, w.invocations[i].job)
  {
    var job := w.invocations[i].job;
    forall c ensures !PushedFor(w, job, c) {
      forall j | 0 <= j < |w.invocations| && w.invocations[j].job == job ensures j == i {
        assert RequestOf(w.invocations, j) == RequestOf(w.invocations, i);
      }
    }
  }

  lemma PushJobs(w: World, i: nat, read: Time)
    requires JobsOk(w) && RequestsOk(w) && SlotsOk(w) && InvokeAt(w, i, Stored)
    ensures JobsOk(DoPush(w, i, read))
  {
    var w' := DoPush(w, i, read);
    var v := w.invocations[i];
    var q := w.hub.heap[v.session].queue;
    UnpushedIsNowhere(w, i);
    PushBag(q, v.job, read);
    PushUnique(w.hub, v.session, PushStep(q, v.job, read).0, w.consumers, v.job);
    assert CallRouted(w, i);
    forall a, job | Queued(w'.hub, a, job)
      ensures PushedFor(w, job, w'.hub.heap[a].clientID) || PushedFor(w', job, w'.hub.heap[a].clientID)
    {
      PushedOrQueued(w, i, read, a, job);
    }
    RoutedStill(w, w');
  }

  lemma PushedOrQueued(w: World, i: nat, read: Time, a: Address, job: Job)
    requires JobsRouted(w) && Addresses(w) && InvokeAt(w, i, Stored) && Queued(DoPush(w, i, read).hub, a, job)
    ensures a in w.hub.heap
    ensures PushedFor(w, job, w.hub.heap[a].clientID) || PushedFor(DoPush(w, i, read), job, w.hub.heap[a].clientID)
  {
    var w' := DoPush(w, i, read);
    var v := w.invocations[i];
    var q := w.hub.heap[v.session].queue;
    assert CallRouted(w, i);
    if a == v.session && !Queued(w.hub, a, job) {
      PushBag(q, v.job, read);
      assert job in multiset(PushStep(q, v.job, read).0.items);
      assert job in multiset(q.items) + multiset{v.job};
      assert job == v.job;
      assert w'.invocations[i].job == v.job;
    }
  }

  lemma PopJobs(w: World, k: nat)
    requires JobsOk(w) && SlotsOk(w) && k < |w.consumers| && w.consumers[k].pc.Holding?
    ensures JobsOk(DoPop(w, k))
  {
    var w' := DoPop(w, k);
    var a := w.consumers[k].pc.session;
    assert ParkedRightly(w.hub, w.consumers[k]);
    var q := w.hub.heap[a].queue;
    PopBag(q, w.clock);
    PopUnique(w.hub, a, PopStep(q, w.clock).0, w.consumers, k, w'.consumers[k].pc);
    forall b, job | Queued(w'.hub, b, job) ensures Queued(w.hub, b, job) {
      if b == a {
        assert job in multiset(w'.hub.heap[a].queue.items);
        assert job in multiset(q.items);
      }
    }
    forall j: nat, job | InHand(w'.consumers, j, job)
      ensures PushedFor(w, job, w'.consumers[j].client)
    {
      if j == k {
        assert job in multiset(q.items);
        assert Queued(w.hub, a, job);
      } else {
        assert InHand(w.consumers, j, job);
      }
    }
    RoutedStill(w, w');
  }

  lemma RequeueJobs(w: World, k: nat, read: Time)
    requires JobsOk(w) && SlotsOk(w) && k < |w.consumers| && w.consumers[k].pc.Requeueing?
    ensures JobsOk(DoRequeue(w, k, read))
  {
    var w' := DoRequeue(w, k, read);
    var c, job := w.consumers[k].client, w.consumers[k].pc.job;
    assert InHand(w.consumers, k, job);
    LetGo(w.hub, w.consumers, k, Done(None), job);
    assert forall j: nat, x :: InHand(w'.consumers, j, x) ==> InHand(w.consumers, j, x);
    if c in w.hub.sessions {
      var a := w.hub.sessions[c];
      var q := w.hub.heap[a].queue;
      PushBag(q, job, read);
      PushUnique(w.hub, a, PushStep(q, job, read).0, w'.consumers, job);
      forall b, x | Queued(w'.hub, b, x) ensures PushedFor(w, x, w'.hub.heap[b].clientID) {
        if !Queued(w.hub, b, x) {
          assert x in multiset(w'.hub.heap[a].queue.items) && x in multiset(q.items) + multiset{job};
        }
      }
    }
    RoutedStill(w, w');
  }

  lemma HubActionJobs(w: World, w': World)
    requires JobsOk(w) && CallsMoveOn(w, w') && |w'.invocations| == |w.invocations| && SameQueues(w.hub, w'.hub)
    requires w'.consumers == w.consumers
    ensures JobsOk(w')
  {
    NoJobMoves(w, w');
  }

  lemma ConsumerActionJobs(w: World, w': World, k: nat, pc: ConsumerPc)
    requires JobsOk(w) && k < |w.consumers| && w'.consumers == w.consumers[k := w.consumers[k].(pc := pc)]
    requires w'.invocations == w.invocations && SameQueues(w.hub, w'.hub)
    requires Held(pc).Some? ==> Held(pc) == Held(w.consumers[k].pc)
    ensures JobsOk(w')
  {
    NoJobMoves(w, w');
  }

  lemma ConsumerMoveJobs(w: World, a: Action)
    requires JobsOk(w) && SlotsOk(w) && Enabled(w, a) && ConsumerMove(a)
    ensures JobsOk(Step(w, a))
  {
    match a
    case WakeForSlot(k) => ConsumerActionJobs(w, Step(w, a), k, Wanting);
    case CancelForSlot(k) => ConsumerActionJobs(w, Step(w, a), k, Done(None));
    case WakeForJob(k) => ConsumerActionJobs(w, Step(w, a), k, Holding(w.consumers[k].pc.session));
    case CancelForJob(k) => ConsumerActionJobs(w, Step(w, a), k, Releasing(None));
    case HandOut(k) => ConsumerActionJobs(w, Step(w, a), k, Done(Some(w.consumers[k].pc.job)));
    case Refuse(k) => ConsumerActionJobs(w, Step(w, a), k, Releasing(Some(w.consumers[k].pc.job)));
  }

  lemma CallMoveJobs(w: World, a: Action)
    requires JobsOk(w) && SlotsOk(w) && Enabled(w, a) && CallMove(a)
    ensures JobsOk(Step(w, a))
  {
    HubActionJobs(w, Step(w, a));
  }

  lemma RegistrationJobs(w: World, a: Action)
    requires JobsOk(w) && SlotsOk(w) && Enabled(w, a) && RegistrationMove(a)
    ensures JobsOk(Step(w, a))
  {
    HubActionJobs(w, Step(w, a));
  }

  lemma SlotMoveJobs(w: World, a: Action)
    requires JobsOk(w) && SlotsOk(w) && Enabled(w, a) && (a.AcquireFor? || a.ReleaseFor?)
    ensures JobsOk(Step(w, a))
  {
    var w' := Step(w, a);
    if a.ReleaseFor? {
      ReleaseQueues(w.hub, w.consumers[a.k].client);
    }
    ConsumerActionJobs(w, w', a.k, w'.consumers[a.k].pc);
  }

  /** Main result: every step keeps all of it. */
  lemma StepKeepsJobs(w: World, a: Action)
    requires JobsOk(w) && RequestsOk(w) && SlotsOk(w) && Enabled(w, a)
    ensures JobsOk(Step(w, a))
  {
    if ConsumerMove(a) {
      ConsumerMoveJobs(w, a);
    } else if CallMove(a) {
      CallMoveJobs(w, a);
    } else if RegistrationMove(a) {
      RegistrationJobs(w, a);
    } else if a.AcquireFor? || a.ReleaseFor? {
      SlotMoveJobs(w, a);
    } else {
      match a
      case Begin(job, preferred) => BeginJobs(w, job, preferred);
      case PushJob(i, read) => PushJobs(w, i, read);
      case Submit(c, result) => SubmitJobs(w, c, result);
      case Arrive(c) => NoJobMoves(w, Step(w, a));
      case PopFor(k) => PopJobs(w, k);
      case RequeueFor(k, read) => RequeueJobs(w, k, read);
    }
  }
}
