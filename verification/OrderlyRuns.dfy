/** A discipline of clients under which no release and no result reaches another slot than its own
    (internal/rpc/hub.go). */
module OrderlyRuns {
  import opened HubModel
  import opened Protocol
  import opened RequestSafety
  import opened SlotSafety
  import opened Routing
  import opened Runs
  import opened SlotOwners

  /** A client unregisters only while its session counts no slot, and submits a result only after the job
      was handed out. */
  ghost predicate Orderly(w: World, a: Action)
    requires Addresses(w)
  {
    match a
    case UnregisterClient(c) => c in w.hub.sessions ==> w.hub.heap[w.hub.sessions[c]].inFlight == 0
    case Submit(_, result) => exists k: nat :: HandedOutBy(w, k, result.requestID)
    case _ => true
  }

  // ---- What orderly steps keep ----

  ghost predicate SlotsAtHome(w: World) {
    forall a: Address, k: nat ::
      k < |w.consumers| && Owes(w.consumers[k].pc, w.slotLog) && Took(a, k) in w.slotLog ==>
      w.consumers[k].client in w.hub.sessions && w.hub.sessions[w.consumers[k].client] == a
  }

  ghost predicate ResultsHandedOut(w: World) {
    forall r: RequestId :: Count(w.slotLog, ReleasedFor(r)) > 0 ==> exists k: nat :: HandedOutBy(w, k, r)
  }

  /** No consumer comes to owe a slot, and no client loses its session. */
  lemma StillAtHome(w: World, w': World)
    requires SlotsAtHome(w)
    requires forall c: ClientId :: c in w.hub.sessions ==>
      c in w'.hub.sessions && w'.hub.sessions[c] == w.hub.sessions[c]
    requires forall a: Address, k: nat :: Took(a, k) in w'.slotLog <==> Took(a, k) in w.slotLog
    requires forall k: nat :: k < |w'.consumers| && Owes(w'.consumers[k].pc, w'.slotLog) ==>
      k < |w.consumers| && w'.consumers[k].client == w.consumers[k].client && Owes(w.consumers[k].pc, w.slotLog)
    ensures SlotsAtHome(w')
  {
  }

  lemma StillHandedOut(w: World, w': World)
    requires ResultsHandedOut(w)
    requires forall r: RequestId :: Count(w'.slotLog, ReleasedFor(r)) > 0 ==>
      Count(w.slotLog, ReleasedFor(r)) > 0 || exists k: nat :: HandedOutBy(w, k, r)
    requires forall r: RequestId, k: nat :: HandedOutBy(w, k, r) ==> HandedOutBy(w', k, r)
    ensures ResultsHandedOut(w')
  {
    forall r: RequestId | Count(w'.slotLog, ReleasedFor(r)) > 0 ensures exists k: nat :: HandedOutBy(w', k, r) {
      var k: nat :| HandedOutBy(w, k, r);
      assert HandedOutBy(w', k, r);
    }
  }

  // ---- Orderly steps are not astray ----

  lemma ReleaseIsOwn(w: World, k: nat)
    requires SlotsAtHome(w) && Matched(w) && TakesOk(w) && Addresses(w) && Enabled(w, ReleaseFor(k))
    ensures !Astray(w, ReleaseFor(k))
  {
    assert TookFor(w.consumers[k].pc, k, w.slotLog);
    var b: Address :| Took(b, k) in w.slotLog;
    OriginIs(w, k, b);
    OccupiedIsPositive(w, k, b);
  }

  /** A result that counts comes from the client whose consumer handed the job out. */
  lemma SubmitterIsPicked(w: World, c: ClientId, result: JobResult, k: nat)
    requires Good(w) && Releases(w, c, result) && HandedOutBy(w, k, result.requestID)
    ensures w.consumers[k].client == c
  {
    var job := w.consumers[k].pc.handedOut.value;
    assert InHand(w.consumers, k, job);
    var i :| 0 <= i < |w.invocations| && w.invocations[i].job == job;
    assert CallRouted(w, i);
    assert InvocationOk(w, i);
  }

  lemma ResultIsOwn(w: World, c: ClientId, result: JobResult)
    requires SlotsAtHome(w) && Matched(w) && TakesOk(w) && Good(w) && Orderly(w, Submit(c, result))
    ensures !Astray(w, Submit(c, result))
  {
    if Releases(w, c, result) {
      var k: nat :| HandedOutBy(w, k, result.requestID);
      StepKeepsGood(w, Submit(c, result));
      ResultLogged(w, c, result);
      OriginOfHanded(w, k, result.requestID);
      SubmitterIsPicked(w, c, result, k);
      OccupiedIsPositive(w, k, Origin(w, k).value);
    }
  }

  lemma HandOutComesFirst(w: World, k: nat)
    requires ResultsHandedOut(w) && Good(w) && Enabled(w, HandOut(k))
    ensures !Astray(w, HandOut(k))
  {
    var job := w.consumers[k].pc.job;
    if l: nat :| HandedOutBy(w, l, job.requestID) {
      OnePlace(w, k, l, job, w.consumers[l].pc.handedOut.value);
      assert false;
    }
  }

  lemma OrderlyIsNotAstray(w: World, a: Action)
    requires SlotsAtHome(w) && ResultsHandedOut(w) && Matched(w) && TakesOk(w) && Good(w)
    requires Enabled(w, a) && Orderly(w, a)
    ensures !Astray(w, a)
  {
    match a
    case ReleaseFor(k) => ReleaseIsOwn(w, k);
    case Submit(c, result) => ResultIsOwn(w, c, result);
    case HandOut(k) => HandOutComesFirst(w, k);
    case _ =>
  }

  // ---- Every step ----

  /** Steps that leave consumers, the log of slots and the registrations alone. */
  lemma QuietStepSettled(w: World, a: Action)
    requires SlotsAtHome(w) && ResultsHandedOut(w) && Addresses(w) && Enabled(w, a)
    requires CallMove(a) || a.Begin? || a.PushJob? || a.Arrive? || a.TouchClient?
    ensures SlotsAtHome(Step(w, a)) && ResultsHandedOut(Step(w, a))
  {
    StillAtHome(w, Step(w, a));
    StillHandedOut(w, Step(w, a));
  }

  /** One consumer moves on and owes nothing that it did not owe. */
  lemma MovedSettled(w: World, w': World, k: nat, pc: ConsumerPc)
    requires SlotsAtHome(w) && ResultsHandedOut(w) && k < |w.consumers| && !w.consumers[k].pc.Done?
    requires w'.consumers == w.consumers[k := w.consumers[k].(pc := pc)] && w'.hub.sessions == w.hub.sessions
    requires SameRecord(w.slotLog, w'.slotLog)
    requires Owes(pc, w'.slotLog) ==> Owes(w.consumers[k].pc, w.slotLog)
    ensures SlotsAtHome(w') && ResultsHandedOut(w')
  {
    StillAtHome(w, w');
    StillHandedOut(w, w');
  }

  lemma ConsumerStepSettled(w: World, a: Action)
    requires SlotsAtHome(w) && ResultsHandedOut(w) && Addresses(w) && Enabled(w, a)
    requires ConsumerMove(a) || a.PopFor? || a.RequeueFor?
    ensures SlotsAtHome(Step(w, a)) && ResultsHandedOut(Step(w, a))
  {
    var k := match a
      case WakeForSlot(k) => k
      case CancelForSlot(k) => k
      case PopFor(k) => k
      case WakeForJob(k) => k
      case CancelForJob(k) => k
      case HandOut(k) => k
      case Refuse(k) => k
      case RequeueFor(k, _) => k;
    MovedSettled(w, Step(w, a), k, Step(w, a).consumers[k].pc);
  }

  lemma ReleaseSettled(w: World, k: nat)
    requires SlotsAtHome(w) && ResultsHandedOut(w) && Addresses(w) && Enabled(w, ReleaseFor(k))
    ensures SlotsAtHome(DoRelease(w, k)) && ResultsHandedOut(DoRelease(w, k))
  {
    ReleaseIsNoResult(w.slotLog, ReleasedFrom(w.hub, w.consumers[k].client), k);
    MovedSettled(w, DoRelease(w, k), k, DoRelease(w, k).consumers[k].pc);
  }

  lemma AcquireSettled(w: World, k: nat)
    requires SlotsAtHome(w) && ResultsHandedOut(w) && TakesOk(w) && Addresses(w) && Enabled(w, AcquireFor(k))
    ensures SlotsAtHome(DoAcquire(w, k)) && ResultsHandedOut(DoAcquire(w, k))
  {
    var c := w.consumers[k].client;
    if AcquireSlot(w.hub, c).1.Acquired? {
      TakeIsNoResult(w.slotLog, w.hub.sessions[c], k);
      NewTakeAtHome(w, DoAcquire(w, k), k, w.hub.sessions[c]);
      StillHandedOut(w, DoAcquire(w, k));
    } else {
      MovedSettled(w, DoAcquire(w, k), k, DoAcquire(w, k).consumers[k].pc);
    }
  }

  lemma NewTakeAtHome(w: World, w': World, k: nat, b: Address)
    requires SlotsAtHome(w) && TakesOk(w) && k < |w.consumers| && w.consumers[k].pc.Wanting?
    requires w'.consumers == w.consumers[k := w.consumers[k].(pc := Holding(b))]
    requires w'.slotLog == w.slotLog + [Took(b, k)] && w'.hub.sessions == w.hub.sessions
    requires forall r :: Count(w'.slotLog, ReleasedFor(r)) == Count(w.slotLog, ReleasedFor(r))
    requires w.consumers[k].client in w.hub.sessions && w.hub.sessions[w.consumers[k].client] == b
    ensures SlotsAtHome(w')
  {
    forall a: Address, j: nat
      | j < |w'.consumers| && Owes(w'.consumers[j].pc, w'.slotLog) && Took(a, j) in w'.slotLog
      ensures w'.consumers[j].client in w'.hub.sessions && w'.hub.sessions[w'.consumers[j].client] == a
    {
      if j != k {
        assert Owes(w.consumers[j].pc, w.slotLog) && Took(a, j) in w.slotLog;
      } else {
        assert Took(a, k) !in w.slotLog;
      }
    }
  }

  lemma RegisterSettled(w: World, c: ClientId, g: GroupName, userID: int, platform: string, max: int)
    requires SlotsAtHome(w) && ResultsHandedOut(w) && Addresses(w)
    ensures var w' := DoRegister(w, c, g, userID, platform, max); SlotsAtHome(w') && ResultsHandedOut(w')
  {
    var w' := DoRegister(w, c, g, userID, platform, max);
    var e := Limited(RegisteredAs(w.hub, w.made, c), NormalizeMaxInFlight(w.hub, max));
    forall r ensures Count(w.slotLog + [e], ReleasedFor(r)) == Count(w.slotLog, ReleasedFor(r)) {
      CountAppend(w.slotLog, e, ReleasedFor(r));
    }
    StillAtHome(w, w');
    StillHandedOut(w, w');
  }

  lemma UnregisterSettled(w: World, c: ClientId)
    requires SlotsAtHome(w) && ResultsHandedOut(w) && Matched(w) && TakesOk(w) && Addresses(w)
    requires Orderly(w, UnregisterClient(c))
    ensures var w' := Step(w, UnregisterClient(c)); SlotsAtHome(w') && ResultsHandedOut(w')
  {
    var w' := Step(w, UnregisterClient(c));
    forall a: Address, k: nat
      | k < |w.consumers| && Owes(w.consumers[k].pc, w.slotLog) && Took(a, k) in w.slotLog
      ensures w.consumers[k].client != c
    {
      OccupiedIsPositive(w, k, a);
    }
    StillHandedOut(w, w');
  }

  lemma SubmitSettled(w: World, c: ClientId, result: JobResult)
    requires SlotsAtHome(w) && ResultsHandedOut(w) && Good(w) && Orderly(w, Submit(c, result))
    ensures SlotsAtHome(DoSubmit(w, c, result)) && ResultsHandedOut(DoSubmit(w, c, result))
  {
    var w' := DoSubmit(w, c, result);
    SubmitHeap(w.hub, c, result, w.clock);
    if Releases(w, c, result) {
      StepKeepsGood(w, Submit(c, result));
      ResultLogged(w, c, result);
    } else {
      assert w'.slotLog == w.slotLog;
    }
    StillAtHome(w, w');
    StillHandedOut(w, w');
  }

  lemma StepSettled(w: World, a: Action)
    requires SlotsAtHome(w) && ResultsHandedOut(w) && Matched(w) && TakesOk(w) && Good(w)
    requires Enabled(w, a) && Orderly(w, a)
    ensures SlotsAtHome(Step(w, a)) && ResultsHandedOut(Step(w, a))
  {
    if a.Submit? {
      SubmitSettled(w, a.client, a.result);
    } else if a.UnregisterClient? {
      UnregisterSettled(w, a.client);
    } else if a.RegisterClient? {
      RegisterSettled(w, a.client, a.group, a.userID, a.platform, a.maxInFlight);
    } else if a.AcquireFor? {
      AcquireSettled(w, a.k);
    } else if a.ReleaseFor? {
      ReleaseSettled(w, a.k);
    } else if ConsumerMove(a) || a.PopFor? || a.RequeueFor? {
      ConsumerStepSettled(w, a);
    } else {
      QuietStepSettled(w, a);
    }
  }

  // ---- Main results ----

  ghost predicate OrderlyAt(worlds: seq<World>, actions: seq<Action>, m: nat)
    requires IsRun(worlds, actions) && m < |actions|
  {
    Next(worlds[m], actions[m], worlds[m + 1]) && Orderly(worlds[m], actions[m])
  }

  /** The first n steps are orderly. */
  ghost predicate AlwaysOrderly(worlds: seq<World>, actions: seq<Action>, n: nat)
    requires IsRun(worlds, actions) && n < |worlds|
  {
    n > 0 ==> OrderlyAt(worlds, actions, n - 1) && AlwaysOrderly(worlds, actions, n - 1)
  }

  lemma {:induction false} OrderlyRunSettled(worlds: seq<World>, actions: seq<Action>, n: nat)
    requires IsRun(worlds, actions) && n < |worlds| && AlwaysOrderly(worlds, actions, n)
    ensures SlotsAtHome(worlds[n]) && ResultsHandedOut(worlds[n]) && NeverAstray(worlds, actions, n)
  {
    if n > 0 {
      var w, a := worlds[n - 1], actions[n - 1];
      OrderlyRunSettled(worlds, actions, n - 1);
      CountsAreOccupantsExactly(worlds, actions, n - 1);
      RunTakesOk(worlds, actions, n - 1);
      RunIsGood(worlds, actions, n - 1);
      assert OrderlyAt(worlds, actions, n - 1);
      StepSettled(w, a);
      OrderlyIsNotAstray(w, a);
    }
  }

  /** Main result: in an orderly run every release and every result takes its own slot, every count is the
      number of occupants, and these stay within a limit that their session has had. */
  lemma OrderlyRunsAreMatched(worlds: seq<World>, actions: seq<Action>, n: nat)
    requires IsRun(worlds, actions) && n < |worlds| && AlwaysOrderly(worlds, actions, n)
    ensures NeverAstray(worlds, actions, n) && AlwaysMatched(worlds, n)
    ensures forall a: Address :: a in worlds[n].hub.heap ==>
      |Occupants(worlds[n].consumers, worlds[n].slotLog, a)| <= LargestLimit(worlds[n].hub)
    ensures forall a: Address :: a in worlds[n].hub.heap ==>
      exists m :: Limited(a, m) in worlds[n].slotLog && |Occupants(worlds[n].consumers, worlds[n].slotLog, a)| <= m
  {
    OrderlyRunSettled(worlds, actions, n);
    CountsAreOccupantsExactly(worlds, actions, n);
    forall a: Address | a in worlds[n].hub.heap
      ensures |Occupants(worlds[n].consumers, worlds[n].slotLog, a)| <= LargestLimit(worlds[n].hub)
      ensures exists m :: Limited(a, m) in worlds[n].slotLog &&
                          |Occupants(worlds[n].consumers, worlds[n].slotLog, a)| <= m
    {
      OccupantsStayWithinLimit(worlds, actions, n, a);
    }
  }

  // ---- The same read off the actions ----

  /** Step j hands out the job of a request. */
  ghost predicate HandsOut(worlds: seq<World>, actions: seq<Action>, j: nat, r: RequestId)
    requires j < |actions| < |worlds|
  {
    actions[j].HandOut? && actions[j].k < |worlds[j].consumers| && worlds[j].consumers[actions[j].k].pc.Got? &&
    worlds[j].consumers[actions[j].k].pc.job.requestID == r
  }

  /** Nobody unregisters, and every result is submitted after its job was handed out. */
  ghost predicate HandOutsBeforeResults(worlds: seq<World>, actions: seq<Action>, n: nat)
    requires n <= |actions| < |worlds|
  {
    forall m: nat :: m < n ==>
      !actions[m].UnregisterClient? &&
      (actions[m].Submit? ==> exists j: nat :: j < m && HandsOut(worlds, actions, j, actions[m].result.requestID))
  }

  lemma DoneStays(w: World, a: Action, k: nat)
    requires Addresses(w) && Enabled(w, a) && k < |w.consumers| && w.consumers[k].pc.Done?
    ensures k < |Step(w, a).consumers| && Step(w, a).consumers[k] == w.consumers[k]
  {
  }

  lemma {:induction false} StaysHandedOut(worlds: seq<World>, actions: seq<Action>, j: nat, m: nat, r: RequestId)
    requires IsRun(worlds, actions) && j < m <= |actions| && HandsOut(worlds, actions, j, r)
    ensures HandedOutBy(worlds[m], actions[j].k, r)
    decreases m
  {
    assert Next(worlds[m - 1], actions[m - 1], worlds[m - 1 + 1]);
    if j < m - 1 {
      StaysHandedOut(worlds, actions, j, m - 1, r);
      DoneStays(worlds[m - 1], actions[m - 1], actions[j].k);
    }
  }

  lemma {:induction false} OrderlyByActions(worlds: seq<World>, actions: seq<Action>, n: nat)
    requires IsRun(worlds, actions) && n <= |actions| && HandOutsBeforeResults(worlds, actions, n)
    ensures AlwaysOrderly(worlds, actions, n)
  {
    if n > 0 {
      var m := n - 1;
      OrderlyByActions(worlds, actions, m);
      assert Next(worlds[m], actions[m], worlds[m + 1]);
      if actions[m].Submit? {
        var r := actions[m].result.requestID;
        var j: nat :| j < m && HandsOut(worlds, actions, j, r);
        StaysHandedOut(worlds, actions, j, m, r);
      }
    }
  }
}
