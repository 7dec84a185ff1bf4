/** What each lock-held section of the RPC hub does to the hub's state (internal/rpc/hub.go).
    `A` is the type of session addresses and `C` the type of result-channel addresses: the class
    in Hub.dfy uses object references for both, the protocol in Protocol.dfy uses numbers. */
module HubModel {
  import opened Wrappers
  import opened JobQueues

  type ClientId = string
  type GroupName = string
  type RequestId = string

  /** 10 minutes in nanoseconds. */
  const RETENTION: Time := 600_000_000_000
  const MAX_IN_FLIGHT_CAP := 1024

  datatype JobResult = JobResult(requestID: RequestId, status: string, httpCode: int, payload: string,
                                 error: string, latencyMs: int)

  /** `ready` counts how often the dispatch-ready channel was closed and replaced. */
  datatype Session = Session(clientID: ClientId, group: GroupName, userID: int, platform: string,
                             lastSeenAt: Time, maxInFlight: int, inFlight: int, ready: nat,
                             queue: QueueState)

  datatype Waiter<C> = Waiter(clientID: ClientId, channel: C)

  datatype TombstoneState = Completed | Expired | Late

  datatype Tombstone = Tombstone(clientID: ClientId, state: TombstoneState, finishedAt: Time)

  datatype SubmitOutcome = Delivered | Duplicate | LateResult

  datatype HubError = ResultClientMismatch | ResultNotWaiting | NoOnlineClient | PreferredClientDown
                    | ClientQueueFull | GroupSaturated | ClientSessionGone

  datatype Acquire<A> = Acquired(session: A) | Parked(session: A, generation: nat) | Gone

  /** The clients of each group, by id and in the order they came, and where the next pick starts. */
  datatype GroupIndex<A(==)> = GroupIndex(
    groups: map<GroupName, map<ClientId, A>>,
    order: map<GroupName, seq<ClientId>>,
    cursor: map<GroupName, nat>)

  datatype HubState<A(==), C> = HubState(
    pendingSize: int,
    defaultMaxInFlight: int,
    heap: map<A, Session>,
    sessions: map<ClientId, A>,
    index: GroupIndex<A>,
    waiters: map<RequestId, Waiter<C>>,
    completed: map<RequestId, Tombstone>)

  function NewHub<A(==), C>(pendingSize: int, defaultMaxInFlight: int): HubState<A, C> {
    HubState(if pendingSize <= 0 then 2048 else pendingSize,
             if defaultMaxInFlight <= 0 then 256 else defaultMaxInFlight,
             map[], map[], GroupIndex(map[], map[], map[]), map[], map[])
  }

  /** Every registered session is a session that exists. */
  ghost predicate Pointers<A, C>(h: HubState<A, C>) {
    forall c :: c in h.sessions ==> h.sessions[c] in h.heap
  }

  // ---- Reading a Go map yields the zero value for a missing key ----

  function OrderOf<A>(ix: GroupIndex<A>, g: GroupName): seq<ClientId> {
    if g in ix.order then ix.order[g] else []
  }

  function CursorOf<A>(ix: GroupIndex<A>, g: GroupName): nat {
    if g in ix.cursor then ix.cursor[g] else 0
  }

  function MembersOf<A>(ix: GroupIndex<A>, g: GroupName): map<ClientId, A> {
    if g in ix.groups then ix.groups[g] else map[]
  }

  // ---- The group index ----

  function Without(order: seq<ClientId>, c: ClientId): seq<ClientId> {
    if order == [] then []
    else if order[0] == c then Without(order[1..], c)
    else [order[0]] + Without(order[1..], c)
  }

  function RemoveFromGroup<A(==)>(ix: GroupIndex<A>, g: GroupName, c: ClientId): GroupIndex<A> {
    var members := MembersOf(ix, g) - {c};
    var filtered := Without(OrderOf(ix, g), c);
    GroupIndex(
      if members.Keys == {} then ix.groups - {g} else ix.groups[g := members],
      if filtered == [] then ix.order - {g} else ix.order[g := filtered],
      if filtered == [] then ix.cursor - {g}
      else if CursorOf(ix, g) >= |filtered| then ix.cursor[g := 0] else ix.cursor)
  }

  function AddToGroup<A(==)>(ix: GroupIndex<A>, g: GroupName, c: ClientId, a: A): GroupIndex<A> {
    var order := OrderOf(ix, g);
    GroupIndex(
      ix.groups[g := MembersOf(ix, g)[c := a]],
      if c in order then ix.order else ix.order[g := order + [c]],
      ix.cursor)
  }

  // ---- Sessions ----

  function NormalizeMaxInFlight<A, C>(h: HubState<A, C>, max: int): int {
    if max <= 0 then h.defaultMaxInFlight
    else if max > MAX_IN_FLIGHT_CAP then MAX_IN_FLIGHT_CAP
    else max
  }

  function NewSession(c: ClientId, g: GroupName, userID: int, platform: string, limit: int, now: Time,
                      pendingSize: int): Session {
    Session(c, g, userID, platform, now, limit, 0, 0, NewQueue(pendingSize))
  }

  /** A session registered again: its slots and its queue stay, and parked acquirers wake up. */
  function Renewed(s: Session, g: GroupName, userID: int, platform: string, limit: int, now: Time): Session {
    s.(group := g, userID := userID, platform := platform, lastSeenAt := now, maxInFlight := limit,
       ready := s.ready + 1)
  }

  function Signalled(s: Session): Session {
    s.(ready := s.ready + 1)
  }

  function Touched(s: Session, now: Time): Session {
    s.(lastSeenAt := now)
  }

  function SlotTaken(s: Session): Session {
    s.(inFlight := s.inFlight + 1)
  }

  function SlotReturned(s: Session): Session {
    Signalled(s.(inFlight := if s.inFlight > 0 then s.inFlight - 1 else s.inFlight))
  }

  /** `newcomer` is the address of the session object made when the client is not registered. */
  function Register<A(==), C>(h: HubState<A, C>, newcomer: A, c: ClientId, g: GroupName, userID: int,
                              platform: string, max: int, now: Time): HubState<A, C>
    requires Pointers(h)
  {
    var limit := NormalizeMaxInFlight(h, max);
    if c in h.sessions then
      var a := h.sessions[c];
      var s := h.heap[a];
      var left := if s.group != g then RemoveFromGroup(h.index, s.group, c) else h.index;
      h.(heap := h.heap[a := Renewed(s, g, userID, platform, limit, now)], index := AddToGroup(left, g, c, a))
    else
      var s := NewSession(c, g, userID, platform, limit, now, h.pendingSize);
      h.(heap := h.heap[newcomer := s], sessions := h.sessions[c := newcomer],
         index := AddToGroup(h.index, g, c, newcomer))
  }

  function RegisteredAs<A, C>(h: HubState<A, C>, newcomer: A, c: ClientId): A {
    if c in h.sessions then h.sessions[c] else newcomer
  }

  function Touch<A(==), C>(h: HubState<A, C>, c: ClientId, now: Time): HubState<A, C>
    requires Pointers(h)
  {
    if c !in h.sessions then h
    else var a := h.sessions[c]; h.(heap := h.heap[a := Touched(h.heap[a], now)])
  }

  /** The session object stays in the heap: callers may still hold it. */
  function Unregister<A(==), C>(h: HubState<A, C>, c: ClientId): HubState<A, C>
    requires Pointers(h)
  {
    if c !in h.sessions then h
    else
      var a := h.sessions[c];
      var s := h.heap[a];
      h.(heap := h.heap[a := Signalled(s)], sessions := h.sessions - {c},
         index := RemoveFromGroup(h.index, s.group, c))
  }

  // ---- Dispatch slots ----

  function AcquireSlot<A(==), C>(h: HubState<A, C>, c: ClientId): (HubState<A, C>, Acquire<A>)
    requires Pointers(h)
  {
    if c !in h.sessions then (h, Gone)
    else
      var a := h.sessions[c];
      var s := h.heap[a];
      if s.inFlight < s.maxInFlight
      then (h.(heap := h.heap[a := SlotTaken(s)]), Acquired(a))
      else (h, Parked(a, s.ready))
  }

  function ReleaseSlot<A(==), C>(h: HubState<A, C>, c: ClientId): HubState<A, C>
    requires Pointers(h)
  {
    if c !in h.sessions then h
    else
      var a := h.sessions[c];
      var s := h.heap[a];
      h.(heap := h.heap[a := SlotReturned(s)])
  }

  // ---- Choosing a session ----

  predicate Full(s: Session) {
    |s.queue.items| >= s.queue.limit
  }

  predicate Online<A(==), C>(h: HubState<A, C>, g: GroupName, c: ClientId)
    requires Pointers(h)
  {
    c in h.sessions && h.heap[h.sessions[c]].group == g
  }

  datatype Scan = Found(index: nat) | NothingFree(sawOnline: bool)

  function ScanFrom<A(==), C>(h: HubState<A, C>, g: GroupName, start: nat, offset: nat, sawOnline: bool): (r: Scan)
    requires Pointers(h) && offset <= |OrderOf(h.index, g)|
    ensures r.Found? ==> r.index < |OrderOf(h.index, g)| && Online(h, g, OrderOf(h.index, g)[r.index])
    decreases |OrderOf(h.index, g)| - offset
  {
    var order := OrderOf(h.index, g);
    if offset == |order| then NothingFree(sawOnline)
    else
      var index := (start + offset) % |order|;
      if !Online(h, g, order[index]) then ScanFrom(h, g, start, offset + 1, sawOnline)
      else if Full(h.heap[h.sessions[order[index]]]) then ScanFrom(h, g, start, offset + 1, true)
      else Found(index)
  }

  function StartOf<A, C>(h: HubState<A, C>, g: GroupName): nat {
    if CursorOf(h.index, g) >= |OrderOf(h.index, g)| then 0 else CursorOf(h.index, g)
  }

  function WithCursor<A(==), C>(h: HubState<A, C>, g: GroupName, place: nat): HubState<A, C> {
    h.(index := h.index.(cursor := h.index.cursor[g := place]))
  }

  /** The empty string means that the caller prefers no client. */
  function PickSession<A(==), C>(h: HubState<A, C>, g: GroupName, preferred: ClientId)
    : (HubState<A, C>, Result<A, HubError>)
    requires Pointers(h)
  {
    if preferred != "" then
      if preferred in h.sessions then (h, Ok(h.sessions[preferred])) else (h, Err(PreferredClientDown))
    else if OrderOf(h.index, g) == [] then (h, Err(NoOnlineClient))
    else
      match ScanFrom(h, g, StartOf(h, g), 0, false)
      case Found(index) =>
        var order := OrderOf(h.index, g);
        (WithCursor(h, g, (index + 1) % |order|), Ok(h.sessions[order[index]]))
      case NothingFree(sawOnline) => (h, Err(if sawOnline then GroupSaturated else NoOnlineClient))
  }

  // ---- Waiters and tombstones ----

  function Cleanup<A(==), C>(h: HubState<A, C>, now: Time): HubState<A, C> {
    h.(completed := map r | r in h.completed && now - h.completed[r].finishedAt <= RETENTION :: h.completed[r])
  }

  function StoreWaiter<A(==), C>(h: HubState<A, C>, r: RequestId, c: ClientId, channel: C, now: Time): HubState<A, C> {
    var h1 := Cleanup(h, now);
    h1.(waiters := h1.waiters[r := Waiter(c, channel)])
  }

  function DropWaiter<A(==), C>(h: HubState<A, C>, r: RequestId): HubState<A, C> {
    h.(waiters := h.waiters - {r})
  }

  function ExpireWaiter<A(==), C>(h: HubState<A, C>, r: RequestId, now: Time): HubState<A, C> {
    if r !in h.waiters then h
    else
      var w := h.waiters[r];
      Cleanup(h.(waiters := h.waiters - {r}, completed := h.completed[r := Tombstone(w.clientID, Expired, now)]), now)
  }

  /** What an arriving result meets: the waiter of its request, the tombstone of a request whose
      caller has given up, or neither. */
  datatype Arrival<C> = AtWaiter(channel: C) | AtExpired | NoEffect(answer: Result<SubmitOutcome, HubError>)

  function ArrivalOf<A, C>(h: HubState<A, C>, c: ClientId, r: RequestId): Arrival<C> {
    if r in h.waiters then
      if h.waiters[r].clientID != c then NoEffect(Err(ResultClientMismatch)) else AtWaiter(h.waiters[r].channel)
    else if r in h.completed then
      if h.completed[r].clientID != c then NoEffect(Err(ResultClientMismatch))
      else if h.completed[r].state == Expired then AtExpired
      else NoEffect(Ok(Duplicate))
    else NoEffect(Err(ResultNotWaiting))
  }

  /** A request is over: one dispatch slot of the client comes back and a tombstone is left. */
  function Finish<A(==), C>(h: HubState<A, C>, c: ClientId, r: RequestId, state: TombstoneState, now: Time)
    : HubState<A, C>
    requires Pointers(h)
  {
    var h1 := ReleaseSlot(h, c);
    h1.(completed := h1.completed[r := Tombstone(c, state, now)])
  }

  /** The new state, the answer to the client, and the channel that the result is sent to, if any. */
  function SubmitResult<A(==), C>(h: HubState<A, C>, c: ClientId, result: JobResult, now: Time)
    : (HubState<A, C>, Result<SubmitOutcome, HubError>, Option<C>)
    requires Pointers(h)
  {
    var h1 := Cleanup(h, now);
    var r := result.requestID;
    match ArrivalOf(h1, c, r)
    case AtWaiter(channel) => (Finish(DropWaiter(h1, r), c, r, Completed, now), Ok(Delivered), Some(channel))
    case AtExpired => (Finish(h1, c, r, Late, now), Ok(LateResult), None)
    case NoEffect(answer) => (h1, answer, None)
  }

  // ---- The queue of a session is guarded by its own lock ----

  function WithQueue<A(==), C>(h: HubState<A, C>, a: A, q: QueueState): HubState<A, C>
    requires a in h.heap
  {
    h.(heap := h.heap[a := h.heap[a].(queue := q)])
  }

  /** The job goes to the tail of the queue of whatever session the client has now. */
  function Requeue<A(==), C>(h: HubState<A, C>, c: ClientId, job: Job, now: Time): (HubState<A, C>, Option<HubError>)
    requires Pointers(h)
  {
    if c !in h.sessions then (h, Some(ClientSessionGone))
    else
      var a := h.sessions[c];
      var (q, ok) := PushStep(h.heap[a].queue, job, now);
      (WithQueue(h, a, q), if ok then None else Some(ClientQueueFull))
  }
}
