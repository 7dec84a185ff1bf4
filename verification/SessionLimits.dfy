/** What a registration asks for is what the session gets, in every run (internal/rpc/hub.go). */
module SessionLimits {
  import opened Wrappers
  import opened JobQueues
  import opened HubModel
  import opened Protocol
  import opened SlotSafety
  import opened Runs

  // ---- What steps leave alone ----

  /** What a registration decides. */
  datatype Profile = Profile(client: ClientId, group: GroupName, userID: int, platform: string, limit: int,
                             queueSize: int)

  function ProfileOf(s: Session): Profile {
    Profile(s.clientID, s.group, s.userID, s.platform, s.maxInFlight, s.queue.limit)
  }

  ghost predicate SameProfiles(h: Hub, h': Hub) {
    h'.sessions == h.sessions && h'.heap.Keys == h.heap.Keys && SameSizes(h, h') &&
    forall a: Address :: a in h.heap ==> ProfileOf(h'.heap[a]) == ProfileOf(h.heap[a])
  }

  ghost predicate SameSizes(h: Hub, h': Hub) {
    h'.pendingSize == h.pendingSize && h'.defaultMaxInFlight == h.defaultMaxInFlight
  }

  /** No count grows beyond the limit of its session. */
  ghost predicate CountsBounded(h: Hub, h': Hub) {
    forall a: Address :: a in h.heap && a in h'.heap ==>
      h'.heap[a].inFlight <= h.heap[a].inFlight || h'.heap[a].inFlight <= h.heap[a].maxInFlight
  }

  lemma QueueStepProfiles(h: Hub, a: Address, q: QueueState)
    requires a in h.heap && q.limit == h.heap[a].queue.limit
    ensures SameProfiles(h, WithQueue(h, a, q)) && CountsBounded(h, WithQueue(h, a, q))
  {
  }

  lemma SubmitProfiles(w: World, c: ClientId, result: JobResult)
    requires Addresses(w)
    ensures SameProfiles(w.hub, DoSubmit(w, c, result).hub) && CountsBounded(w.hub, DoSubmit(w, c, result).hub)
  {
    SubmitHeap(w.hub, c, result, w.clock);
  }

  lemma PushProfiles(w: World, i: nat, read: Time)
    requires Addresses(w) && Enabled(w, PushJob(i, read))
    ensures SameProfiles(w.hub, DoPush(w, i, read).hub) && CountsBounded(w.hub, DoPush(w, i, read).hub)
  {
    var v := w.invocations[i];
    QueueStepProfiles(w.hub, v.session, PushStep(w.hub.heap[v.session].queue, v.job, read).0);
  }

  lemma AcquireProfiles(h: Hub, c: ClientId)
    requires Pointers(h)
    ensures SameProfiles(h, AcquireSlot(h, c).0) && CountsBounded(h, AcquireSlot(h, c).0)
  {
  }

  lemma ReleaseProfiles(h: Hub, c: ClientId)
    requires Pointers(h)
    ensures SameProfiles(h, ReleaseSlot(h, c)) && CountsBounded(h, ReleaseSlot(h, c))
  {
  }

  lemma TouchProfiles(h: Hub, c: ClientId, now: Time)
    requires Pointers(h)
    ensures SameProfiles(h, Touch(h, c, now)) && CountsBounded(h, Touch(h, c, now))
  {
  }

  ghost predicate SameSessions(h: Hub, h': Hub) {
    h'.heap == h.heap && h'.sessions == h.sessions && SameSizes(h, h')
  }

  lemma BeginSessions(w: World, job: Job, preferred: ClientId)
    requires Addresses(w)
    ensures SameSessions(w.hub, DoBegin(w, job, preferred).hub)
  {
  }

  lemma TableSessions(w: World, i: nat)
    requires i < |w.invocations|
    ensures SameSessions(w.hub, DoStore(w, i).hub) && SameSessions(w.hub, DoDrop(w, i).hub)
    ensures SameSessions(w.hub, DoExpire(w, i).hub)
  {
  }

  /** Steps that leave the hub alone. */
  lemma NoHubStep(w: World, a: Action)
    requires Addresses(w) && Enabled(w, a)
    requires a.Tick? || a.Abort? || a.Receive? || a.GiveUp? || a.Arrive? || ConsumerMove(a)
    ensures Step(w, a).hub == w.hub
  {
  }

  lemma QuietSessions(w: World, a: Action)
    requires Addresses(w) && Enabled(w, a) && (a.Begin? || a.Store? || a.Drop? || a.Expire?)
    ensures SameSessions(w.hub, Step(w, a).hub)
  {
    if a.Begin? {
      BeginSessions(w, a.job, a.preferred);
    } else {
      TableSessions(w, a.i);
    }
  }

  lemma SameSessionsProfiles(h: Hub, h': Hub)
    requires SameSessions(h, h')
    ensures SameProfiles(h, h') && CountsBounded(h, h')
  {
  }

  lemma PopProfiles(w: World, k: nat)
    requires Addresses(w) && Enabled(w, PopFor(k))
    ensures SameProfiles(w.hub, DoPop(w, k).hub) && CountsBounded(w.hub, DoPop(w, k).hub)
  {
    var a := w.consumers[k].pc.session;
    QueueStepProfiles(w.hub, a, PopStep(w.hub.heap[a].queue, w.clock).0);
  }

  lemma RequeueProfiles(w: World, k: nat, read: Time)
    requires Addresses(w) && Enabled(w, RequeueFor(k, read))
    ensures SameProfiles(w.hub, DoRequeue(w, k, read).hub) && CountsBounded(w.hub, DoRequeue(w, k, read).hub)
  {
    var c, job := w.consumers[k].client, w.consumers[k].pc.job;
    if c in w.hub.sessions {
      var a := w.hub.sessions[c];
      QueueStepProfiles(w.hub, a, PushStep(w.hub.heap[a].queue, job, read).0);
    }
  }

  lemma StepProfiles(w: World, a: Action)
    requires Addresses(w) && Enabled(w, a) && !a.RegisterClient? && !a.UnregisterClient?
    ensures SameProfiles(w.hub, Step(w, a).hub) && CountsBounded(w.hub, Step(w, a).hub)
  {
    if a.Submit? {
      SubmitProfiles(w, a.client, a.result);
    } else if a.PushJob? {
      PushProfiles(w, a.i, a.read);
    } else if a.AcquireFor? {
      AcquireProfiles(w.hub, w.consumers[a.k].client);
    } else if a.ReleaseFor? {
      ReleaseProfiles(w.hub, w.consumers[a.k].client);
    } else if a.PopFor? {
      PopProfiles(w, a.k);
    } else if a.RequeueFor? {
      RequeueProfiles(w, a.k, a.read);
    } else if a.TouchClient? {
      TouchProfiles(w.hub, a.client, w.clock);
    } else {
      if a.Begin? || a.Store? || a.Drop? || a.Expire? {
        QuietSessions(w, a);
      } else {
        NoHubStep(w, a);
      }
      SameSessionsProfiles(w.hub, Step(w, a).hub);
    }
  }

  // ---- The last registration of a client ----

  function LastRegistration(actions: seq<Action>, c: ClientId): Option<Action> {
    if actions == [] then None
    else
      var last := actions[|actions| - 1];
      if last.RegisterClient? && last.client == c then Some(last)
      else LastRegistration(actions[..|actions| - 1], c)
  }

  /** What a client gets that asks for `max`: that, if it is between 1 and 1024, 1024 if it is more, and the
      hub's default if it is 0 or less. */
  predicate Granted(max: int, default: int, limit: int) {
    (1 <= max <= 1024 ==> limit == max) && (max > 1024 ==> limit == 1024) && (max <= 0 ==> limit == default)
  }

  ghost predicate AsAsked(h: Hub, actions: seq<Action>, c: ClientId)
    requires c in h.sessions && h.sessions[c] in h.heap
  {
    var s, last := h.heap[h.sessions[c]], LastRegistration(actions, c);
    last.Some? && last.value.RegisterClient? &&
    s.clientID == c && s.group == last.value.group && s.userID == last.value.userID &&
    s.platform == last.value.platform && Granted(last.value.maxInFlight, h.defaultMaxInFlight, s.maxInFlight)
  }

  ghost predicate AllAsAsked(h: Hub, actions: seq<Action>) {
    forall c: ClientId :: c in h.sessions ==> h.sessions[c] in h.heap && AsAsked(h, actions, c)
  }

  /** The session that a registration makes or renews, and those of others. */
  lemma RegisterGrants(h: Hub, newcomer: Address, a: Action, now: Time)
    requires Pointers(h) && newcomer !in h.heap && a.RegisterClient?
    requires a.client in h.sessions ==> h.heap[h.sessions[a.client]].clientID == a.client
    ensures var h' := Register(h, newcomer, a.client, a.group, a.userID, a.platform, a.maxInFlight, now);
      && a.client in h'.sessions && h'.sessions[a.client] in h'.heap && SameSizes(h, h')
      && (var s := h'.heap[h'.sessions[a.client]];
          s.clientID == a.client && s.group == a.group && s.userID == a.userID && s.platform == a.platform &&
          Granted(a.maxInFlight, h.defaultMaxInFlight, s.maxInFlight))
      && (forall c: ClientId :: c != a.client ==> (c in h'.sessions <==> c in h.sessions))
      && (forall c: ClientId :: c != a.client && c in h.sessions ==> h'.sessions[c] == h.sessions[c])
      && (forall x: Address :: x in h.heap && (a.client in h.sessions ==> x != h.sessions[a.client]) ==>
            x in h'.heap && h'.heap[x] == h.heap[x])
  {
  }

  lemma RegisterAsAsked(w: World, actions: seq<Action>, a: Action)
    requires Addresses(w) && AllAsAsked(w.hub, actions) && a.RegisterClient?
    ensures AllAsAsked(Step(w, a).hub, actions + [a])
  {
    var h, h' := w.hub, Step(w, a).hub;
    assert a.client in h.sessions ==> AsAsked(h, actions, a.client);
    RegisterGrants(h, w.made, a, w.clock);
    assert (actions + [a])[..|actions|] == actions;
    forall c: ClientId | c in h'.sessions ensures h'.sessions[c] in h'.heap && AsAsked(h', actions + [a], c) {
      if c != a.client {
        assert AsAsked(h, actions, c);
      }
    }
  }

  lemma UnregisterAsAsked(w: World, actions: seq<Action>, a: Action)
    requires Addresses(w) && AllAsAsked(w.hub, actions) && a.UnregisterClient?
    ensures AllAsAsked(Step(w, a).hub, actions + [a])
  {
    var h' := Step(w, a).hub;
    assert (actions + [a])[..|actions|] == actions;
    forall c: ClientId | c in h'.sessions ensures h'.sessions[c] in h'.heap && AsAsked(h', actions + [a], c) {
      assert AsAsked(w.hub, actions, c);
    }
  }

  lemma StillAsAsked(h: Hub, h': Hub, actions: seq<Action>, a: Action)
    requires AllAsAsked(h, actions) && SameProfiles(h, h') && !a.RegisterClient?
    ensures AllAsAsked(h', actions + [a])
  {
    assert (actions + [a])[..|actions|] == actions;
    forall c: ClientId | c in h'.sessions ensures h'.sessions[c] in h'.heap && AsAsked(h', actions + [a], c) {
      assert AsAsked(h, actions, c);
      assert ProfileOf(h'.heap[h.sessions[c]]) == ProfileOf(h.heap[h.sessions[c]]);
    }
  }

  lemma StepAsAsked(w: World, actions: seq<Action>, a: Action)
    requires Addresses(w) && Enabled(w, a) && AllAsAsked(w.hub, actions)
    ensures AllAsAsked(Step(w, a).hub, actions + [a])
  {
    if a.RegisterClient? {
      RegisterAsAsked(w, actions, a);
    } else if a.UnregisterClient? {
      UnregisterAsAsked(w, actions, a);
    } else {
      StepProfiles(w, a);
      StillAsAsked(w.hub, Step(w, a).hub, actions, a);
    }
  }

  /** Main result: in every reachable state a registered session has the client, the group, the user and the
      platform of its client's last registration, and the limit that this registration asked for. */
  lemma {:induction false} RegisteredAsAsked(worlds: seq<World>, actions: seq<Action>, n: nat)
    requires IsRun(worlds, actions) && n < |worlds|
    ensures AllAsAsked(worlds[n].hub, actions[..n])
  {
    if n > 0 {
      var w, a := worlds[n - 1], actions[n - 1];
      RegisteredAsAsked(worlds, actions, n - 1);
      assert Next(w, a, worlds[n - 1 + 1]);
      assert actions[..n] == actions[..n - 1] + [a];
      StepAsAsked(w, actions[..n - 1], a);
    }
  }

  // ---- Bounds over a whole run ----

  /** Every registration of the client asks for 1 to m. */
  predicate AsksAtMost(actions: seq<Action>, c: ClientId, m: int) {
    forall i :: 0 <= i < |actions| && actions[i].RegisterClient? && actions[i].client == c ==>
      1 <= actions[i].maxInFlight <= m
  }

  ghost predicate Capped(h: Hub, c: ClientId, m: int) {
    forall a: Address :: a in h.heap && h.heap[a].clientID == c ==>
      h.heap[a].inFlight <= m && h.heap[a].maxInFlight <= m
  }

  lemma RegisterCapped(w: World, a: Action, c: ClientId, m: int)
    requires Addresses(w) && a.RegisterClient? && Capped(w.hub, c, m) && 0 <= m
    requires forall d: ClientId :: d in w.hub.sessions ==> w.hub.heap[w.hub.sessions[d]].clientID == d
    requires a.client == c ==> 1 <= a.maxInFlight <= m
    ensures Capped(Step(w, a).hub, c, m)
  {
  }

  lemma UnregisterCapped(w: World, a: Action, c: ClientId, m: int)
    requires Addresses(w) && a.UnregisterClient? && Capped(w.hub, c, m)
    ensures Capped(Step(w, a).hub, c, m)
  {
  }

  lemma StillCapped(h: Hub, h': Hub, c: ClientId, m: int)
    requires Capped(h, c, m) && SameProfiles(h, h') && CountsBounded(h, h')
    ensures Capped(h', c, m)
  {
    forall a: Address | a in h'.heap && h'.heap[a].clientID == c
      ensures h'.heap[a].inFlight <= m && h'.heap[a].maxInFlight <= m
    {
      assert ProfileOf(h'.heap[a]) == ProfileOf(h.heap[a]);
    }
  }

  /** Main result: if every registration of a client in a run asks for between 1 and m slots, then no session of
      the client ever counts more than m. */
  lemma {:induction false} NeverMoreThanAsked(worlds: seq<World>, actions: seq<Action>, n: nat, c: ClientId, m: nat)
    requires IsRun(worlds, actions) && n < |worlds| && AsksAtMost(actions, c, m)
    ensures Capped(worlds[n].hub, c, m)
  {
    if n > 0 {
      var w, a := worlds[n - 1], actions[n - 1];
      NeverMoreThanAsked(worlds, actions, n - 1, c, m);
      assert Next(w, a, worlds[n - 1 + 1]);
      if a.RegisterClient? {
        RegisteredAsAsked(worlds, actions, n - 1);
        assert forall d: ClientId :: d in w.hub.sessions ==> AsAsked(w.hub, actions[..n - 1], d);
        RegisterCapped(w, a, c, m);
      } else if a.UnregisterClient? {
        UnregisterCapped(w, a, c, m);
      } else {
        StepProfiles(w, a);
        StillCapped(w.hub, worlds[n].hub, c, m);
      }
    }
  }

  // ---- Sizes ----

  ghost predicate SizesAre(h: Hub, size: int, default: int) {
    h.pendingSize == size && h.defaultMaxInFlight == default &&
    forall a: Address :: a in h.heap ==> h.heap[a].queue.limit == size
  }

  lemma StepSizes(w: World, a: Action, size: int, default: int)
    requires Addresses(w) && Enabled(w, a) && SizesAre(w.hub, size, default) && size > 0
    ensures SizesAre(Step(w, a).hub, size, default)
  {
    if !a.RegisterClient? && !a.UnregisterClient? {
      StepProfiles(w, a);
      var h, h' := w.hub, Step(w, a).hub;
      forall x: Address | x in h'.heap ensures h'.heap[x].queue.limit == size {
        assert ProfileOf(h'.heap[x]) == ProfileOf(h.heap[x]);
      }
    }
  }

  /** Main result: the size of every queue, and the default for slots, are those the hub was made with, or 2048
      and 256 where these are not positive. */
  lemma {:induction false} SizesStay(worlds: seq<World>, actions: seq<Action>, n: nat, pendingSize: int, slots: int)
    requires IsRun(worlds, actions) && n < |worlds| && worlds[0] == Start(pendingSize, slots)
    ensures SizesAre(worlds[n].hub, if pendingSize >= 1 then pendingSize else 2048, if slots >= 1 then slots else 256)
  {
    if n > 0 {
      SizesStay(worlds, actions, n - 1, pendingSize, slots);
      assert Next(worlds[n - 1], actions[n - 1], worlds[n - 1 + 1]);
      StepSizes(worlds[n - 1], actions[n - 1], if pendingSize >= 1 then pendingSize else 2048,
                if slots >= 1 then slots else 256);
    }
  }

  // ---- When a client was last seen ----

  /** The time of the last registration or touch of a client in the first n steps. */
  ghost function LastSeen(worlds: seq<World>, actions: seq<Action>, n: nat, c: ClientId): Option<Time>
    requires n <= |actions| < |worlds|
  {
    if n == 0 then None
    else
      var a := actions[n - 1];
      if (a.RegisterClient? || a.TouchClient?) && a.client == c then Some(worlds[n - 1].clock)
      else LastSeen(worlds, actions, n - 1, c)
  }

  ghost predicate SeenAt(h: Hub, c: ClientId, seen: Option<Time>) {
    c in h.sessions ==>
      h.sessions[c] in h.heap && h.heap[h.sessions[c]].clientID == c && Some(h.heap[h.sessions[c]].lastSeenAt) == seen
  }

  /** Sessions that stay, with the times they were last seen. */
  ghost predicate SameTimes(h: Hub, h': Hub) {
    SameProfiles(h, h') && forall a: Address :: a in h.heap ==> h'.heap[a].lastSeenAt == h.heap[a].lastSeenAt
  }

  lemma SlotTimes(h: Hub, c: ClientId)
    requires Pointers(h)
    ensures SameTimes(h, AcquireSlot(h, c).0) && SameTimes(h, ReleaseSlot(h, c))
  {
    AcquireProfiles(h, c);
    ReleaseProfiles(h, c);
  }

  lemma SubmitTimes(w: World, c: ClientId, result: JobResult)
    requires Addresses(w)
    ensures SameTimes(w.hub, DoSubmit(w, c, result).hub)
  {
    SubmitProfiles(w, c, result);
    SubmitHeap(w.hub, c, result, w.clock);
    SlotTimes(w.hub, c);
  }

  lemma QueueTimes(w: World, a: Action)
    requires Addresses(w) && Enabled(w, a) && (a.PushJob? || a.PopFor? || a.RequeueFor?)
    ensures SameTimes(w.hub, Step(w, a).hub)
  {
    StepProfiles(w, a);
  }

  lemma StepTimes(w: World, a: Action)
    requires Addresses(w) && Enabled(w, a) && !RegistrationMove(a)
    ensures SameTimes(w.hub, Step(w, a).hub)
  {
    if a.Submit? {
      SubmitTimes(w, a.client, a.result);
    } else if a.AcquireFor? || a.ReleaseFor? {
      SlotTimes(w.hub, w.consumers[a.k].client);
    } else if a.PushJob? || a.PopFor? || a.RequeueFor? {
      QueueTimes(w, a);
    } else {
      OtherTimes(w, a);
    }
  }

  lemma OtherTimes(w: World, a: Action)
    requires Addresses(w) && Enabled(w, a) && !RegistrationMove(a) && !a.Submit? && !a.AcquireFor? && !a.ReleaseFor?
    requires !a.PushJob? && !a.PopFor? && !a.RequeueFor?
    ensures SameTimes(w.hub, Step(w, a).hub)
  {
    if a.Begin? || a.Store? || a.Drop? || a.Expire? {
      QuietSessions(w, a);
    } else {
      NoHubStep(w, a);
    }
  }

  lemma RegistrationTimes(w: World, a: Action, c: ClientId, seen: Option<Time>)
    requires Addresses(w) && RegistrationMove(a) && SeenAt(w.hub, c, seen)
    requires OwnSessions(w.hub)
    ensures SeenAt(Step(w, a).hub, c, if !a.UnregisterClient? && a.client == c then Some(w.clock) else seen)
  {
  }

  lemma StillSeen(h: Hub, h': Hub, c: ClientId, seen: Option<Time>)
    requires SeenAt(h, c, seen) && SameTimes(h, h')
    ensures SeenAt(h', c, seen)
  {
    assert c in h.sessions ==> ProfileOf(h'.heap[h.sessions[c]]) == ProfileOf(h.heap[h.sessions[c]]);
  }

  ghost predicate OwnSessions(h: Hub)
    requires Pointers(h)
  {
    forall d: ClientId :: d in h.sessions ==> h.heap[h.sessions[d]].clientID == d
  }

  lemma StepSeen(w: World, a: Action, c: ClientId, seen: Option<Time>)
    requires Addresses(w) && Enabled(w, a) && SeenAt(w.hub, c, seen) && OwnSessions(w.hub)
    ensures SeenAt(Step(w, a).hub, c,
                   if (a.RegisterClient? || a.TouchClient?) && a.client == c then Some(w.clock) else seen)
  {
    if RegistrationMove(a) {
      RegistrationTimes(w, a, c, seen);
    } else {
      StepTimes(w, a);
      StillSeen(w.hub, Step(w, a).hub, c, seen);
    }
  }

  lemma RunHasOwnSessions(worlds: seq<World>, actions: seq<Action>, n: nat)
    requires IsRun(worlds, actions) && n < |worlds|
    ensures Pointers(worlds[n].hub) && OwnSessions(worlds[n].hub)
  {
    RunIsGood(worlds, actions, n);
  }

  ghost predicate SeenStep(worlds: seq<World>, actions: seq<Action>, m: nat, c: ClientId)
    requires m < |actions| < |worlds|
  {
    SeenAt(worlds[m].hub, c, LastSeen(worlds, actions, m, c)) ==>
    SeenAt(worlds[m + 1].hub, c, LastSeen(worlds, actions, m + 1, c))
  }

  lemma NextSeen(worlds: seq<World>, actions: seq<Action>, m: nat, c: ClientId)
    requires IsRun(worlds, actions) && m < |actions|
    ensures SeenStep(worlds, actions, m, c)
  {
    assert Next(worlds[m], actions[m], worlds[m + 1]);
    RunHasOwnSessions(worlds, actions, m);
    if SeenAt(worlds[m].hub, c, LastSeen(worlds, actions, m, c)) {
      StepSeen(worlds[m], actions[m], c, LastSeen(worlds, actions, m, c));
    }
  }

  lemma {:induction false} SeenSoFar(worlds: seq<World>, actions: seq<Action>, n: nat, c: ClientId)
    requires n <= |actions| < |worlds| && SeenAt(worlds[0].hub, c, None)
    requires forall m: nat :: m < |actions| ==> SeenStep(worlds, actions, m, c)
    ensures SeenAt(worlds[n].hub, c, LastSeen(worlds, actions, n, c))
    decreases n
  {
    if n > 0 {
      SeenSoFar(worlds, actions, n - 1, c);
      assert SeenStep(worlds, actions, n - 1, c);
    }
  }

  /** Main result: in every reachable state a registered session was last seen when its client last registered or
      was touched. */
  lemma SeenWhenTouched(worlds: seq<World>, actions: seq<Action>, n: nat, c: ClientId)
    requires IsRun(worlds, actions) && n < |worlds|
    ensures SeenAt(worlds[n].hub, c, LastSeen(worlds, actions, n, c))
  {
    forall m: nat | m < |actions| ensures SeenStep(worlds, actions, m, c) {
      NextSeen(worlds, actions, m, c);
    }
    SeenSoFar(worlds, actions, n, c);
  }
}
