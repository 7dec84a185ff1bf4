/** The RPC hub as the program runs it: maps of session objects that every lock-held section
    updates in place (internal/rpc/hub.go). Each method is proved against the function of the
    same name in HubModel.dfy, with the session objects themselves as addresses. */
module HubServer {
  import opened Sequences
  import opened Wrappers
  import opened JobQueues
  import opened HubModel
  import opened HubIndex

  /** A one-slot buffered channel. */
  class ResultChannel {
    var slot: Option<JobResult>

    constructor ()
      ensures slot == None
    {
      slot := None;
    }
  }

  class ClientSession {
    const clientID: ClientId
    var group: GroupName
    var userID: int
    var platform: string
    var lastSeenAt: Time
    const pending: JobQueue
    var maxInFlight: int
    var inFlight: int
    var ready: nat

    ghost function Value(): Session
      reads this, pending
    {
      Session(clientID, group, userID, platform, lastSeenAt, maxInFlight, inFlight, ready, pending.State())
    }

    constructor (clientID: ClientId, group: GroupName, userID: int, platform: string, maxInFlight: int,
                 pending: JobQueue, now: Time)
      ensures this.pending == pending
      ensures Value() == Session(clientID, group, userID, platform, now, maxInFlight, 0, 0, pending.State())
    {
      this.clientID, this.group, this.userID, this.platform := clientID, group, userID, platform;
      this.maxInFlight, this.pending, lastSeenAt := maxInFlight, pending, now;
      inFlight, ready := 0, 0;
    }

    method Signal()
      modifies `ready
      ensures Value() == Signalled(old(Value()))
    {
      ready := ready + 1;
    }

    method Touch(now: Time)
      modifies `lastSeenAt
      ensures Value() == Touched(old(Value()), now)
    {
      lastSeenAt := now;
    }

    method TakeSlot()
      modifies `inFlight
      ensures Value() == SlotTaken(old(Value()))
    {
      inFlight := inFlight + 1;
    }

    method ReturnSlot()
      modifies `inFlight, `ready
      ensures Value() == SlotReturned(old(Value()))
    {
      if inFlight > 0 {
        inFlight := inFlight - 1;
      }
      Signal();
    }

    method Renew(group: GroupName, userID: int, platform: string, limit: int, now: Time)
      modifies this
      ensures Value() == Renewed(old(Value()), group, userID, platform, limit, now)
    {
      this.group := group;
      this.userID := userID;
      this.platform := platform;
      lastSeenAt := now;
      maxInFlight := limit;
      Signal();
    }
  }

  class Hub {
    const pendingSize: int
    const defaultMaxInFlight: int
    var sessions: map<ClientId, ClientSession>
    var groups: map<GroupName, map<ClientId, ClientSession>>
    var groupOrder: map<GroupName, seq<ClientId>>
    var groupCursor: map<GroupName, nat>
    var waiters: map<RequestId, Waiter<ResultChannel>>
    var completed: map<RequestId, Tombstone>
    /** What every session ever made looks like, registered or not. */
    ghost var heap: map<ClientSession, Session>

    ghost function Index(): GroupIndex<ClientSession>
      reads `groups, `groupOrder, `groupCursor
    {
      GroupIndex(groups, groupOrder, groupCursor)
    }

    ghost function State(): HubState<ClientSession, ResultChannel>
      reads this
    {
      HubState(pendingSize, defaultMaxInFlight, heap, sessions, Index(), waiters, completed)
    }

    /** The objects are what `heap` says, and none of them shares its queue. */
    ghost predicate Shape()
      reads this, heap.Keys, set s | s in heap :: s.pending
    {
      && pendingSize > 0
      && Pointers(State())
      && (forall s :: s in heap ==> heap[s] == s.Value() && s.pending.Valid())
      && (forall s, t :: s in heap && t in heap && s != t ==> s.pending != t.pending)
    }

    /** One session object, or its queue, has just changed and `heap` does not know yet. */
    ghost predicate ShapeBut(changed: ClientSession)
      reads this, heap.Keys, set s | s in heap :: s.pending
    {
      && pendingSize > 0
      && Pointers(State())
      && changed in heap
      && (forall s :: s in heap ==> (s == changed || heap[s] == s.Value()) && s.pending.Valid())
      && (forall s, t :: s in heap && t in heap && s != t ==> s.pending != t.pending)
    }

    ghost method Observe(changed: ClientSession)
      requires ShapeBut(changed)
      modifies `heap
      ensures Shape() && heap == old(heap)[changed := changed.Value()]
    {
      heap := heap[changed := changed.Value()];
    }

    ghost predicate Valid()
      reads this, heap.Keys, set s | s in heap :: s.pending
    {
      Shape() && Coherent(State())
    }

    constructor (pendingSize: int, defaultMaxInFlight: int)
      ensures Valid()
      ensures State() == NewHub(pendingSize, defaultMaxInFlight)
    {
      this.pendingSize := if pendingSize <= 0 then 2048 else pendingSize;
      this.defaultMaxInFlight := if defaultMaxInFlight <= 0 then 256 else defaultMaxInFlight;
      sessions, groups, groupOrder, groupCursor, waiters, completed := map[], map[], map[], map[], map[], map[];
      heap := map[];
      new;
      NewHubCoherent<ClientSession, ResultChannel>(pendingSize, defaultMaxInFlight);
    }

    // ---- The group index ----

    method EnsureGroup(group: GroupName)
      modifies `groups
      ensures groups == old(groups)[group := if group in old(groups) then old(groups)[group] else map[]]
    {
      if group !in groups {
        groups := groups[group := map[]];
      }
    }

    method EnsureOrder(group: GroupName, clientID: ClientId)
      modifies `groupOrder
      ensures var order := if group in old(groupOrder) then old(groupOrder)[group] else [];
        groupOrder == if clientID in order then old(groupOrder) else old(groupOrder)[group := order + [clientID]]
    {
      var order := if group in groupOrder then groupOrder[group] else [];
      for i := 0 to |order|
        invariant groupOrder == old(groupOrder)
        invariant clientID !in order[..i]
      {
        if order[i] == clientID {
          return;
        }
      }
      assert order == order[..|order|];
      groupOrder := groupOrder[group := order + [clientID]];
    }

    method AddClientToGroup(group: GroupName, clientID: ClientId, session: ClientSession)
      modifies `groups, `groupOrder
      ensures Index() == AddToGroup(old(Index()), group, clientID, session)
      ensures old(Shape()) ==> Shape()
    {
      AddMember(group, clientID, session);
      EnsureOrder(group, clientID);
    }

    method AddMember(group: GroupName, clientID: ClientId, session: ClientSession)
      modifies `groups
      ensures groups == AddToGroup(old(Index()), group, clientID, session).groups
    {
      EnsureGroup(group);
      var members := groups[group];
      groups := groups[group := members[clientID := session]];
    }

    method FilterOut(order: seq<ClientId>, clientID: ClientId) returns (filtered: seq<ClientId>)
      ensures filtered == Without(order, clientID)
    {
      filtered := [];
      for i := 0 to |order|
        invariant filtered + Without(order[i..], clientID) == Without(order, clientID)
      {
        var rest := Without(order[i + 1..], clientID);
        assert order[i..][1..] == order[i + 1..];
        if order[i] != clientID {
          MoveNext(filtered, order[i], rest);
          filtered := filtered + [order[i]];
        }
      }
      assert order[|order|..] == [] && filtered + [] == filtered;
    }

    method RemoveClientFromGroup(group: GroupName, clientID: ClientId)
      modifies `groups, `groupOrder, `groupCursor
      ensures Index() == RemoveFromGroup(old(Index()), group, clientID)
      ensures old(Shape()) ==> Shape()
    {
      RemoveMember(group, clientID);
      RemoveFromOrder(group, clientID);
    }

    method RemoveMember(group: GroupName, clientID: ClientId)
      modifies `groups
      ensures groups == RemoveFromGroup(old(Index()), group, clientID).groups
      ensures old(Shape()) ==> Shape()
    {
      if group in groups {
        var members := groups[group] - {clientID};
        groups := groups[group := members];
        if members.Keys == {} {
          groups := groups - {group};
        }
      }
    }

    method RemoveFromOrder(group: GroupName, clientID: ClientId)
      modifies `groupOrder, `groupCursor
      ensures groupOrder == RemoveFromGroup(old(Index()), group, clientID).order
      ensures groupCursor == RemoveFromGroup(old(Index()), group, clientID).cursor
      ensures old(Shape()) ==> Shape()
    {
      var order := if group in groupOrder then groupOrder[group] else [];
      var filtered := FilterOut(order, clientID);
      if |filtered| == 0 {
        groupOrder := groupOrder - {group};
        groupCursor := groupCursor - {group};
        return;
      }
      groupOrder := groupOrder[group := filtered];
      var cursor := if group in groupCursor then groupCursor[group] else 0;
      if cursor >= |filtered| {
        groupCursor := groupCursor[group := 0];
      }
    }

    // ---- Sessions ----

    method NormalizeMaxInFlight(maxInFlight: int) returns (limit: int)
      ensures limit == HubModel.NormalizeMaxInFlight(State(), maxInFlight)
    {
      if maxInFlight <= 0 {
        return defaultMaxInFlight;
      }
      if maxInFlight > MAX_IN_FLIGHT_CAP {
        return MAX_IN_FLIGHT_CAP;
      }
      return maxInFlight;
    }

    method Register(clientID: ClientId, group: GroupName, userID: int, platform: string, maxInFlight: int, now: Time)
      returns (session: ClientSession)
      requires Valid()
      modifies this, heap.Keys
      ensures Valid()
      ensures clientID in old(sessions) ==> session == old(sessions)[clientID]
      ensures clientID !in old(sessions) ==> fresh(session) && fresh(session.pending)
      ensures State() == HubModel.Register(old(State()), session, clientID, group, userID, platform, maxInFlight, now)
    {
      var limit := NormalizeMaxInFlight(maxInFlight);
      if clientID in sessions {
        session := sessions[clientID];
        Reregister(clientID, session, group, userID, platform, limit, now);
      } else {
        session := AddSession(clientID, group, userID, platform, limit, now);
      }
      RegisterCoherent(old(State()), session, clientID, group, userID, platform, maxInFlight, now);
    }

    method CreateSession(clientID: ClientId, group: GroupName, userID: int, platform: string, limit: int, now: Time)
      returns (session: ClientSession)
      requires Shape()
      modifies `sessions, `heap
      ensures Shape() && fresh(session) && fresh(session.pending)
      ensures heap == old(heap)[session := NewSession(clientID, group, userID, platform, limit, now, pendingSize)]
      ensures sessions == old(sessions)[clientID := session]
    {
      var pending := new JobQueue(pendingSize);
      session := new ClientSession(clientID, group, userID, platform, limit, pending, now);
      heap := heap[session := session.Value()];
      sessions := sessions[clientID := session];
    }

    /** The branch of `Register` for a client that is not there yet. */
    method AddSession(clientID: ClientId, group: GroupName, userID: int, platform: string, limit: int, now: Time)
      returns (session: ClientSession)
      requires Shape()
      modifies `sessions, `groups, `groupOrder, `groupCursor, `heap
      ensures Shape() && fresh(session) && fresh(session.pending)
      ensures heap == old(heap)[session := NewSession(clientID, group, userID, platform, limit, now, pendingSize)]
      ensures sessions == old(sessions)[clientID := session]
      ensures Index() == AddToGroup(old(Index()), group, clientID, session)
    {
      session := CreateSession(clientID, group, userID, platform, limit, now);
      AddClientToGroup(group, clientID, session);
    }

    /** The branch of `Register` for a client that is already there. */
    method Reregister(clientID: ClientId, existing: ClientSession, group: GroupName, userID: int, platform: string,
                      limit: int, now: Time)
      requires Shape() && existing in heap
      modifies existing, `groups, `groupOrder, `groupCursor, `heap
      ensures Shape()
      ensures heap == old(heap)[existing := Renewed(old(heap)[existing], group, userID, platform, limit, now)]
      ensures Index() == AddToGroup(
                if old(heap)[existing].group != group
                then RemoveFromGroup(old(Index()), old(heap)[existing].group, clientID) else old(Index()),
                group, clientID, existing)
    {
      if existing.group != group {
        RemoveClientFromGroup(existing.group, clientID);
      }
      RenewSession(existing, group, userID, platform, limit, now);
      AddClientToGroup(group, clientID, existing);
    }

    method RenewSession(existing: ClientSession, group: GroupName, userID: int, platform: string, limit: int, now: Time)
      requires Shape() && existing in heap
      modifies existing, `heap
      ensures Shape()
      ensures heap == old(heap)[existing := Renewed(old(heap)[existing], group, userID, platform, limit, now)]
    {
      existing.Renew(group, userID, platform, limit, now);
      Observe(existing);
    }

    method SignalDispatch(session: ClientSession)
      requires Shape() && session in heap
      modifies session, `heap
      ensures Shape()
      ensures heap == old(heap)[session := Signalled(old(heap)[session])]
    {
      session.Signal();
      Observe(session);
    }

    method Touch(clientID: ClientId, now: Time)
      requires Valid()
      modifies `heap, heap.Keys
      ensures Valid() && State() == HubModel.Touch(old(State()), clientID, now)
    {
      if clientID in sessions {
        var session := sessions[clientID];
        session.Touch(now);
        Observe(session);
      }
      TouchKeepsIndex(old(State()), clientID, now);
      SameIndexCoherent(old(State()), State());
    }

    method Unregister(clientID: ClientId)
      requires Valid()
      modifies this, heap.Keys
      ensures Valid() && State() == HubModel.Unregister(old(State()), clientID)
    {
      if clientID in sessions {
        RemoveSession(clientID);
      }
      UnregisterCoherent(old(State()), clientID);
    }

    method RemoveSession(clientID: ClientId)
      requires Shape() && clientID in sessions
      modifies `sessions, `groups, `groupOrder, `groupCursor, `heap, sessions[clientID]
      ensures Shape()
      ensures sessions == old(sessions) - {clientID}
      ensures var s := old(sessions)[clientID];
        && heap == old(heap)[s := Signalled(old(heap)[s])]
        && Index() == RemoveFromGroup(old(Index()), old(heap)[s].group, clientID)
    {
      var session := sessions[clientID];
      sessions := sessions - {clientID};
      RemoveClientFromGroup(session.group, clientID);
      SignalDispatch(session);
    }

    // ---- Dispatch slots ----

    /** One turn of the loop in `AcquireDispatchSlot`, between two waits. */
    method TryAcquireSlot(clientID: ClientId) returns (r: Acquire<ClientSession>)
      requires Valid()
      modifies `heap, heap.Keys
      ensures Valid() && (State(), r) == AcquireSlot(old(State()), clientID)
    {
      if clientID !in sessions {
        return Gone;
      }
      var session := sessions[clientID];
      if session.inFlight < session.maxInFlight {
        session.TakeSlot();
        Observe(session);
        AcquireKeepsIndex(old(State()), clientID);
        SameIndexCoherent(old(State()), State());
        return Acquired(session);
      }
      return Parked(session, session.ready);
    }

    method ReleaseDispatch(clientID: ClientId)
      requires Shape()
      modifies `heap, heap.Keys
      ensures Shape() && (old(Valid()) ==> Valid())
      ensures State() == ReleaseSlot(old(State()), clientID)
    {
      if clientID in sessions {
        var session := sessions[clientID];
        session.ReturnSlot();
        Observe(session);
      }
      ReleaseKeepsIndex(old(State()), clientID);
      if Coherent(old(State())) {
        SameIndexCoherent(old(State()), State());
      }
    }

    // ---- Choosing a session ----

    method PickSession(group: GroupName, preferred: ClientId) returns (r: Result<ClientSession, HubError>)
      requires Valid()
      modifies `groupCursor
      ensures Valid()
      ensures (State(), r) == HubModel.PickSession(old(State()), group, preferred)
    {
      r := PickSessionLocked(group, preferred);
      PickCoherent(old(State()), group, preferred);
    }

    method PickSessionLocked(group: GroupName, preferred: ClientId) returns (r: Result<ClientSession, HubError>)
      requires Shape()
      modifies `groupCursor
      ensures Shape()
      ensures (State(), r) == HubModel.PickSession(old(State()), group, preferred)
    {
      if preferred != "" {
        if preferred !in sessions {
          return Err(PreferredClientDown);
        }
        return Ok(sessions[preferred]);
      }
      var order := if group in groupOrder then groupOrder[group] else [];
      if |order| == 0 {
        return Err(NoOnlineClient);
      }
      var start := if group in groupCursor then groupCursor[group] else 0;
      if start >= |order| {
        start := 0;
      }
      r := PickFromOrder(group, order, start);
    }

    /** The loop of `PickSession` and the choice made after it. */
    method PickFromOrder(group: GroupName, order: seq<ClientId>, start: nat)
      returns (r: Result<ClientSession, HubError>)
      requires Shape() && order == OrderOf(Index(), group) != [] && start == StartOf(State(), group)
      modifies `groupCursor
      ensures Shape()
      ensures (State(), r) == HubModel.PickSession(old(State()), group, "")
    {
      var found := FindFree(group, order, start);
      match found {
        case Found(idx) =>
          MoveCursor(group, (idx + 1) % |order|);
          r := Ok(sessions[order[idx]]);
        case NothingFree(sawOnline) =>
          r := Err(if sawOnline then GroupSaturated else NoOnlineClient);
      }
    }

    method MoveCursor(group: GroupName, next: nat)
      requires Shape()
      modifies `groupCursor
      ensures Shape() && State() == WithCursor(old(State()), group, next)
    {
      groupCursor := groupCursor[group := next];
    }

    /** The loop of `PickSession`. */
    method FindFree(group: GroupName, order: seq<ClientId>, start: nat) returns (r: Scan)
      requires Shape() && order == OrderOf(Index(), group)
      ensures r == ScanFrom(State(), group, start, 0, false)
    {
      var sawOnline := false;
      for offset := 0 to |order|
        invariant ScanFrom(State(), group, start, offset, sawOnline) == ScanFrom(State(), group, start, 0, false)
      {
        var idx := (start + offset) % |order|;
        var clientID := order[idx];
        if clientID !in sessions || sessions[clientID].group != group {
          continue;
        }
        sawOnline := true;
        var session := sessions[clientID];
        if session.pending.count >= session.pending.limit {
          continue;
        }
        return Found(idx);
      }
      return NothingFree(sawOnline);
    }

    // ---- Waiters and tombstones ----

    method CleanupCompleted(now: Time)
      requires Shape()
      modifies `completed
      ensures Shape() && State() == Cleanup(old(State()), now)
    {
      var left := completed.Keys;
      while left != {}
        invariant Shape() && left <= completed.Keys
        invariant completed == map r | r in old(completed)
                    && (r in left || now - old(completed)[r].finishedAt <= RETENTION) :: old(completed)[r]
      {
        var r :| r in left;
        left := left - {r};
        if now - completed[r].finishedAt > RETENTION {
          completed := completed - {r};
        }
      }
    }

    method StoreWaiter(requestID: RequestId, clientID: ClientId, channel: ResultChannel, now: Time)
      requires Valid()
      modifies `waiters, `completed
      ensures Valid() && State() == HubModel.StoreWaiter(old(State()), requestID, clientID, channel, now)
    {
      CleanupCompleted(now);
      waiters := waiters[requestID := Waiter(clientID, channel)];
      SameIndexCoherent(old(State()), State());
    }

    method DropWaiter(requestID: RequestId)
      requires Valid()
      modifies `waiters
      ensures Valid() && State() == HubModel.DropWaiter(old(State()), requestID)
    {
      waiters := waiters - {requestID};
      SameIndexCoherent(old(State()), State());
    }

    method ExpireWaiter(requestID: RequestId, now: Time)
      requires Valid()
      modifies `waiters, `completed
      ensures Valid() && State() == HubModel.ExpireWaiter(old(State()), requestID, now)
    {
      if requestID !in waiters {
        return;
      }
      var waiter := waiters[requestID];
      waiters := waiters - {requestID};
      completed := completed[requestID := Tombstone(waiter.clientID, Expired, now)];
      CleanupCompleted(now);
      SameIndexCoherent(old(State()), State());
    }

    // ---- Results ----

    /** The channels that somebody waits on. */
    ghost function Channels(): set<ResultChannel>
      reads `waiters
    {
      set r | r in waiters :: waiters[r].channel
    }

    method SubmitResult(clientID: ClientId, result: JobResult, now: Time) returns (r: Result<SubmitOutcome, HubError>)
      requires Valid()
      modifies this, heap.Keys, Channels()
      ensures Valid()
      ensures (State(), r) == (HubModel.SubmitResult(old(State()), clientID, result, now).0,
                               HubModel.SubmitResult(old(State()), clientID, result, now).1)
      ensures SentTo(old(Channels()), HubModel.SubmitResult(old(State()), clientID, result, now).2, result)
    {
      r := SubmitResultLocked(clientID, result, now);
      SubmitKeepsIndex(old(State()), clientID, result, now);
      SameIndexCoherent(old(State()), State());
    }

    /** A send that never blocks: the channel takes the result if its one slot is free. */
    twostate predicate SentTo(channels: set<ResultChannel>, sent: Option<ResultChannel>, result: JobResult)
      reads channels
    {
      forall ch :: ch in channels ==>
        ch.slot == if sent == Some(ch) && old(ch.slot) == None then Some(result) else old(ch.slot)
    }

    method SubmitResultLocked(clientID: ClientId, result: JobResult, now: Time)
      returns (r: Result<SubmitOutcome, HubError>)
      requires Shape()
      modifies this, heap.Keys, Channels()
      ensures Shape()
      ensures (State(), r) == (HubModel.SubmitResult(old(State()), clientID, result, now).0,
                               HubModel.SubmitResult(old(State()), clientID, result, now).1)
      ensures SentTo(old(Channels()), HubModel.SubmitResult(old(State()), clientID, result, now).2, result)
    {
      CleanupCompleted(now);
      var requestID := result.requestID;
      if requestID in waiters {
        var waiter := waiters[requestID];
        if waiter.clientID != clientID {
          return Err(ResultClientMismatch);
        }
        AcceptResult(clientID, waiter.channel, result, now);
        return Ok(Delivered);
      }
      if requestID in completed {
        var tombstone := completed[requestID];
        if tombstone.clientID != clientID {
          return Err(ResultClientMismatch);
        }
        if tombstone.state == Expired {
          FinishRequest(clientID, requestID, Late, now);
          return Ok(LateResult);
        }
        return Ok(Duplicate);
      }
      return Err(ResultNotWaiting);
    }

    method AcceptResult(clientID: ClientId, channel: ResultChannel, result: JobResult, now: Time)
      requires Shape()
      modifies `waiters, `completed, `heap, heap.Keys, channel
      ensures Shape()
      ensures State() ==
        Finish(HubModel.DropWaiter(old(State()), result.requestID), clientID, result.requestID, Completed, now)
      ensures channel.slot == if old(channel.slot) == None then Some(result) else old(channel.slot)
    {
      waiters := waiters - {result.requestID};
      FinishRequest(clientID, result.requestID, Completed, now);
      Send(channel, result);
    }

    method Send(channel: ResultChannel, result: JobResult)
      modifies channel
      ensures channel.slot == if old(channel.slot) == None then Some(result) else old(channel.slot)
    {
      if channel.slot == None {
        channel.slot := Some(result);
      }
    }

    method FinishRequest(clientID: ClientId, requestID: RequestId, state: TombstoneState, now: Time)
      requires Shape()
      modifies `completed, `heap, heap.Keys
      ensures Shape()
      ensures State() == Finish(old(State()), clientID, requestID, state, now)
    {
      ReleaseDispatch(clientID);
      completed := completed[requestID := Tombstone(clientID, state, now)];
    }

    // ---- The queue of a session, reached without the hub's lock ----

    method PushJob(session: ClientSession, job: Job, now: Time) returns (accepted: bool)
      requires Valid() && session in heap
      modifies session.pending, `heap
      ensures Valid()
      ensures var (q, ok) := PushStep(old(heap)[session].queue, job, now);
        accepted == ok && State() == WithQueue(old(State()), session, q)
    {
      accepted := session.pending.Push(job, now);
      Observe(session);
      SameIndexCoherent(old(State()), State());
    }

    method PopJob(session: ClientSession, now: Time) returns (job: Option<Job>, parkedOn: nat)
      requires Valid() && session in heap
      modifies session.pending, `heap
      ensures Valid()
      ensures var (q, popped) := PopStep(old(heap)[session].queue, now);
        job == popped && parkedOn == q.notify && State() == WithQueue(old(State()), session, q)
    {
      job, parkedOn := session.pending.PopOrWait(now);
      Observe(session);
      SameIndexCoherent(old(State()), State());
    }

    /** The job goes to the tail of the queue of whatever session the client has now. */
    method Requeue(clientID: ClientId, job: Job, now: Time) returns (r: Option<HubError>)
      requires Valid()
      modifies `heap, set s | s in heap :: s.pending
      ensures Valid()
      ensures (State(), r) == HubModel.Requeue(old(State()), clientID, job, now)
    {
      if clientID !in sessions {
        return Some(ClientSessionGone);
      }
      var accepted := PushJob(sessions[clientID], job, now);
      return if accepted then None else Some(ClientQueueFull);
    }
  }
}
