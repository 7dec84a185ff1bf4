/** Which client `pickSession` chooses, and how evenly a group's clients are chosen
    (internal/rpc/hub.go). */
module RoundRobin {
  import opened Wrappers
  import opened JobQueues
  import opened HubModel
  import opened HubIndex
  import opened Arith

  ghost predicate FullMember<A, C>(h: HubState<A, C>, c: ClientId)
    requires Pointers(h)
  {
    c in h.sessions && Full(h.heap[h.sessions[c]])
  }

  /** The member `k` places after the cursor, going round. */
  function Nth(order: seq<ClientId>, start: nat, k: nat): ClientId
    requires order != []
  {
    order[(start + k) % |order|]
  }

  /** Looking round from `start`, the member at `k` is the first from `offset` on that has room. */
  ghost predicate StopsAt<A, C>(h: HubState<A, C>, order: seq<ClientId>, start: nat, offset: nat, k: nat)
    requires Pointers(h)
  {
    && offset <= k < |order|
    && !FullMember(h, Nth(order, start, k))
    && forall j :: offset <= j < k ==> FullMember(h, Nth(order, start, j))
  }

  /** In a coherent hub the loop never meets an id that is offline or in another group. */
  lemma {:induction false} ScanSkipsFullOnly<A, C>(h: HubState<A, C>, g: GroupName, start: nat, offset: nat, saw: bool)
    requires Pointers(h) && GroupCoherent(h, g) && offset <= |OrderOf(h.index, g)|
    ensures var order := OrderOf(h.index, g);
      match ScanFrom(h, g, start, offset, saw)
      case Found(index) =>
        exists k: nat :: StopsAt(h, order, start, offset, k) && index == (start + k) % |order|
      case NothingFree(sawOnline) =>
        && (forall j :: offset <= j < |order| ==> FullMember(h, Nth(order, start, j)))
        && (sawOnline <==> saw || offset < |order|)
    decreases |OrderOf(h.index, g)| - offset
  {
    var order := OrderOf(h.index, g);
    if offset < |order| {
      var c := Nth(order, start, offset);
      assert c in order && Online(h, g, c);
      if FullMember(h, c) {
        ScanSkipsFullOnly(h, g, start, offset + 1, true);
        var r := ScanFrom(h, g, start, offset + 1, true);
        if r.Found? {
          var k: nat :| StopsAt(h, order, start, offset + 1, k) && r.index == (start + k) % |order|;
          assert StopsAt(h, order, start, offset, k);
        }
      } else {
        assert StopsAt(h, order, start, offset, offset);
      }
    }
  }

  /** Going round from any place meets every index. */
  lemma RoundCovers(n: nat, start: nat, index: nat) returns (k: nat)
    requires start < n && index < n
    ensures k < n && (start + k) % n == index
  {
    k := if index >= start then index - start else index + n - start;
    if index < start {
      assert start + k == index + n;
      WrapMod(index, n);
    }
  }

  lemma AllFullIffScanFull<A, C>(h: HubState<A, C>, g: GroupName, start: nat)
    requires Pointers(h) && GroupCoherent(h, g) && start < |OrderOf(h.index, g)|
    requires forall j :: 0 <= j < |OrderOf(h.index, g)| ==> FullMember(h, Nth(OrderOf(h.index, g), start, j))
    ensures forall c :: Online(h, g, c) ==> FullMember(h, c)
  {
    var order := OrderOf(h.index, g);
    forall c | Online(h, g, c)
      ensures FullMember(h, c)
    {
      assert c in order;
      var index :| 0 <= index < |order| && order[index] == c;
      var k := RoundCovers(|order|, start, index);
      assert Nth(order, start, k) == c;
    }
  }

  /** What `pickSession` hands back when it takes the member `k` places after the cursor. */
  ghost predicate Takes<A, C>(h: HubState<A, C>, g: GroupName, k: nat, h': HubState<A, C>, a: A)
    requires Pointers(h)
  {
    && StopsAt(h, OrderOf(h.index, g), StartOf(h, g), 0, k)
    && var order := OrderOf(h.index, g); var c := Nth(order, StartOf(h, g), k);
       && Online(h, g, c) && h.sessions[c] == a
       && h' == WithCursor(h, g, (StartOf(h, g) + k + 1) % |order|)
  }

  lemma FoundIsTaken<A, C>(h: HubState<A, C>, g: GroupName, index: nat, k: nat)
    requires Pointers(h) && GroupCoherent(h, g)
    requires index < |OrderOf(h.index, g)| && Online(h, g, OrderOf(h.index, g)[index])
    requires StopsAt(h, OrderOf(h.index, g), StartOf(h, g), 0, k)
    requires index == (StartOf(h, g) + k) % |OrderOf(h.index, g)|
    ensures var order := OrderOf(h.index, g);
      Takes(h, g, k, WithCursor(h, g, (index + 1) % |order|), h.sessions[order[index]])
  {
    NextIndex(StartOf(h, g) + k, |OrderOf(h.index, g)|);
  }

  lemma ScanFound<A, C>(h: HubState<A, C>, g: GroupName, index: nat) returns (k: nat)
    requires Coherent(h) && OrderOf(h.index, g) != [] && ScanFrom(h, g, StartOf(h, g), 0, false) == Found(index)
    ensures var order := OrderOf(h.index, g);
      StopsAt(h, order, StartOf(h, g), 0, k) && index == (StartOf(h, g) + k) % |order| && Online(h, g, order[index])
  {
    var order, start := OrderOf(h.index, g), StartOf(h, g);
    assert GroupCoherent(h, g);
    ScanSkipsFullOnly(h, g, start, 0, false);
    k :| StopsAt(h, order, start, 0, k) && index == (start + k) % |order|;
    assert order[index] in order;
  }

  lemma PickFound<A, C>(h: HubState<A, C>, g: GroupName, index: nat)
    requires Coherent(h) && OrderOf(h.index, g) != [] && ScanFrom(h, g, StartOf(h, g), 0, false) == Found(index)
    ensures var (h', r) := PickSession(h, g, ""); r.Ok? && exists k: nat :: Takes(h, g, k, h', r.value)
  {
    var k := ScanFound(h, g, index);
    assert GroupCoherent(h, g);
    FoundIsTaken(h, g, index, k);
  }

  lemma PickNothing<A, C>(h: HubState<A, C>, g: GroupName)
    requires Coherent(h) && OrderOf(h.index, g) != [] && ScanFrom(h, g, StartOf(h, g), 0, false).NothingFree?
    ensures PickSession(h, g, "") == (h, Err(GroupSaturated))
    ensures exists c :: Online(h, g, c)
    ensures forall c :: Online(h, g, c) ==> FullMember(h, c)
  {
    var order := OrderOf(h.index, g);
    assert GroupCoherent(h, g);
    assert order[0] in order && Online(h, g, order[0]);
    ScanSkipsFullOnly(h, g, StartOf(h, g), 0, false);
    AllFullIffScanFull(h, g, StartOf(h, g));
  }

  lemma PickNobody<A, C>(h: HubState<A, C>, g: GroupName)
    requires Coherent(h) && OrderOf(h.index, g) == []
    ensures PickSession(h, g, "") == (h, Err(NoOnlineClient))
    ensures forall c :: !Online(h, g, c)
  {
    assert GroupCoherent(h, g);
  }

  /** Main result: without a preference, `pickSession` takes the first client with room in cyclic
      order and moves the cursor just past it; it reports that no client is online exactly when
      the group has none, and saturation exactly when it has some and all their queues are full. */
  lemma PickIsFirstFree<A, C>(h: HubState<A, C>, g: GroupName)
    requires Coherent(h)
    ensures var (h', r) := PickSession(h, g, "");
      match r
      case Ok(a) => exists k: nat :: Takes(h, g, k, h', a)
      case Err(e) =>
        && h' == h
        && ((e == NoOnlineClient && forall c :: !Online(h, g, c))
            || (e == GroupSaturated && (exists c :: Online(h, g, c))
                && forall c :: Online(h, g, c) ==> FullMember(h, c)))
  {
    if OrderOf(h.index, g) == [] {
      PickNobody(h, g);
    } else {
      match ScanFrom(h, g, StartOf(h, g), 0, false)
      case Found(index) => PickFound(h, g, index);
      case NothingFree(_) => PickNothing(h, g);
    }
  }

  /** How many jobs a registered client may still be sent. */
  ghost function RoomOf<A, C>(h: HubState<A, C>, c: ClientId): int
    requires Pointers(h) && c in h.sessions
  {
    var q := h.heap[h.sessions[c]].queue;
    q.limit - |q.items|
  }

  /** Main result, in numbers: a client that holds fewer jobs than its limit is never passed over, neither for
      one that comes after it nor for an error. */
  lemma NoneWithRoomIsPassedOver<A, C>(h: HubState<A, C>, g: GroupName)
    requires Coherent(h)
    ensures var r := PickSession(h, g, "").1;
      match r
      case Ok(a) =>
        a in h.heap && h.heap[a].queue.limit > |h.heap[a].queue.items| &&
        exists k: nat :: Takes(h, g, k, PickSession(h, g, "").0, a) &&
          forall j: nat :: j < k ==>
            var c := Nth(OrderOf(h.index, g), StartOf(h, g), j); c in h.sessions && RoomOf(h, c) <= 0
      case Err(_) => forall c :: Online(h, g, c) ==> RoomOf(h, c) <= 0
  {
    PickIsFirstFree(h, g);
    var (h', r) := PickSession(h, g, "");
    if r.Ok? {
      var k: nat :| Takes(h, g, k, h', r.value);
      forall j: nat | j < k
        ensures var c := Nth(OrderOf(h.index, g), StartOf(h, g), j); c in h.sessions && RoomOf(h, c) <= 0
      {
        assert FullMember(h, Nth(OrderOf(h.index, g), StartOf(h, g), j));
      }
    } else {
      forall c | Online(h, g, c) ensures RoomOf(h, c) <= 0 {
        assert FullMember(h, c);
      }
    }
  }

  /** A preferred client is taken as soon as it is registered, whatever its group and its queue. */
  lemma PreferredIsNotCheckedAgainstGroup<A, C>(h: HubState<A, C>, g: GroupName, preferred: ClientId)
    requires Coherent(h) && preferred != ""
    ensures PickSession(h, g, preferred).1.Ok? <==> exists home :: Online(h, home, preferred)
    ensures !PickSession(h, g, preferred).1.Ok? ==> PickSession(h, g, preferred).1 == Err(PreferredClientDown)
    ensures PickSession(h, g, preferred).0 == h
    ensures PickSession(h, g, preferred).1.Ok? ==>
      h.heap[PickSession(h, g, preferred).1.value].clientID == preferred
  {
    if preferred in h.sessions {
      assert Online(h, h.heap[h.sessions[preferred]].group, preferred);
    }
  }

  lemma PickedIsRegistered<A, C>(h: HubState<A, C>, g: GroupName, preferred: ClientId)
    requires Coherent(h) && PickSession(h, g, preferred).1.Ok?
    ensures var a := PickSession(h, g, preferred).1.value;
      a in h.heap && h.heap[a].clientID in h.sessions && h.sessions[h.heap[a].clientID] == a
  {
    if preferred == "" {
      PickIsFirstFree(h, g);
      var k: nat :| Takes(h, g, k, PickSession(h, g, "").0, PickSession(h, g, "").1.value);
    }
  }

  /** Main result: the picked client belongs to the group exactly if none was preferred or the preferred
      one does, and has room in its queue exactly if none was preferred or the preferred one has. */
  lemma PickedIsInGroupExactly<A, C>(h: HubState<A, C>, g: GroupName, preferred: ClientId)
    requires Coherent(h) && PickSession(h, g, preferred).1.Ok?
    ensures var c := h.heap[PickSession(h, g, preferred).1.value].clientID;
      (Online(h, g, c) <==> preferred == "" || Online(h, g, preferred)) &&
      (!FullMember(h, c) <==> preferred == "" || !FullMember(h, preferred))
  {
    PickedIsRegistered(h, g, preferred);
    if preferred == "" {
      PickIsFirstFree(h, g);
      var k: nat :| Takes(h, g, k, PickSession(h, g, "").0, PickSession(h, g, "").1.value);
    }
  }

  /** A hub in which one client, registered in group `home`, has a queue of one that is full. */
  function BusyHub(c: ClientId, home: GroupName, job: Job): HubState<nat, nat> {
    var h := Register(NewHub<nat, nat>(1, 1), 0, c, home, 0, "", 1, 0);
    WithQueue(h, 0, QueueState([job], 1, 1))
  }

  /** That client is picked for another group, and with its queue full. */
  lemma ForeignAndFullIsPicked(c: ClientId, home: GroupName, g: GroupName, job: Job)
    requires c != "" && home != g
    ensures var h := BusyHub(c, home, job);
      Coherent(h) && PickSession(h, g, c).1 == Ok(0) && h.heap[0].clientID == c && !Online(h, g, c) && FullMember(h, c)
  {
    NewHubCoherent<nat, nat>(1, 1);
    var h := Register(NewHub<nat, nat>(1, 1), 0, c, home, 0, "", 1, 0);
    RegisterCoherent(NewHub<nat, nat>(1, 1), 0, c, home, 0, "", 1, 0);
    SameIndexCoherent(h, BusyHub(c, home, job));
  }

  // ---- Fairness ----

  /** States just before consecutive picks from group `g`. Between two picks anything may happen
      to the hub that leaves the group's order and cursor alone and leaves room in its queues. */
  ghost predicate PickRun<A, C>(g: GroupName, order: seq<ClientId>, before: seq<HubState<A, C>>) {
    && order != []
    && (forall i :: 0 <= i < |before| ==>
          Coherent(before[i]) && OrderOf(before[i].index, g) == order
          && (forall c :: c in order ==> !FullMember(before[i], c)))
    && (forall i :: 0 <= i < |before| - 1 ==>
          CursorOf(before[i + 1].index, g) == CursorOf(PickSession(before[i], g, "").0.index, g))
  }

  /** The client that each pick of the run chooses. */
  ghost function Picks<A, C>(g: GroupName, order: seq<ClientId>, before: seq<HubState<A, C>>): (picks: seq<ClientId>)
    requires PickRun(g, order, before)
    ensures |picks| == |before|
  {
    seq(|before|, i requires 0 <= i < |before| =>
      var r := PickSession(before[i], g, "").1;
      if r.Ok? && r.value in before[i].heap then before[i].heap[r.value].clientID else "")
  }

  lemma PickTakesCursor<A, C>(h: HubState<A, C>, g: GroupName)
    requires Coherent(h) && OrderOf(h.index, g) != []
    requires forall c :: c in OrderOf(h.index, g) ==> !FullMember(h, c)
    ensures var order, start := OrderOf(h.index, g), StartOf(h, g); var (h', r) := PickSession(h, g, "");
      && start < |order|
      && r.Ok? && r.value in h.heap && h.heap[r.value].clientID == order[start]
      && CursorOf(h'.index, g) == (start + 1) % |order|
  {
    var order, start := OrderOf(h.index, g), StartOf(h, g);
    assert GroupCoherent(h, g);
    assert order[0] in order && Online(h, g, order[0]);
    assert !FullMember(h, order[0]);
    PickIsFirstFree(h, g);
    SmallMod(start, |order|);
    assert Nth(order, start, 0) == order[start] && order[start] in order;
    assert !FullMember(h, Nth(order, start, 0));
    var k: nat :| Takes(h, g, k, PickSession(h, g, "").0, PickSession(h, g, "").1.value);
  }

  lemma PickAdvances<A, C>(h: HubState<A, C>, next: HubState<A, C>, g: GroupName)
    requires Coherent(h) && Coherent(next) && OrderOf(h.index, g) != [] && OrderOf(next.index, g) == OrderOf(h.index, g)
    requires forall c :: c in OrderOf(h.index, g) ==> !FullMember(h, c)
    requires CursorOf(next.index, g) == CursorOf(PickSession(h, g, "").0.index, g)
    ensures StartOf(next, g) == (StartOf(h, g) + 1) % |OrderOf(h.index, g)|
  {
    PickTakesCursor(h, g);
  }

  lemma {:induction false} StartsGoRound<A, C>(g: GroupName, order: seq<ClientId>, before: seq<HubState<A, C>>, i: nat)
    requires PickRun(g, order, before) && i < |before|
    ensures StartOf(before[i], g) == (StartOf(before[0], g) + i) % |order|
  {
    if i == 0 {
      PickTakesCursor(before[0], g);
      SmallMod(StartOf(before[0], g), |order|);
    } else {
      StartsGoRound(g, order, before, i - 1);
      assert CursorOf(before[i - 1 + 1].index, g) == CursorOf(PickSession(before[i - 1], g, "").0.index, g);
      PickAdvances(before[i - 1], before[i], g);
      NextIndex(StartOf(before[0], g) + (i - 1), |order|);
    }
  }

  lemma PicksGoRound<A, C>(g: GroupName, order: seq<ClientId>, before: seq<HubState<A, C>>, i: nat)
    requires PickRun(g, order, before) && i < |before|
    ensures Picks(g, order, before)[i] == Nth(order, StartOf(before[0], g), i)
  {
    StartsGoRound(g, order, before, i);
    PickTakesCursor(before[i], g);
  }

  /** How often a place comes up in m steps round a ring of n, if it first comes up at step `off`. */
  function Turns(m: nat, n: nat, off: nat): nat
    requires n > 0
  {
    m / n + (if off < m % n then 1 else 0)
  }

  lemma OneTurnMore(m: nat, n: nat, off: nat)
    requires off < n
    ensures Turns(m + 1, n, off) == Turns(m, n, off) + (if m % n == off then 1 else 0)
  {
    StepDivMod(m, n);
  }

  lemma NoTurns(n: nat, off: nat)
    requires n > 0
    ensures Turns(0, n, off) == 0
  {
    SmallMod(0, n);
  }

  lemma OneMoreOf<T>(s: seq<T>, x: T)
    requires s != []
    ensures multiset(s)[x] == multiset(s[..|s| - 1])[x] + (if s[|s| - 1] == x then 1 else 0)
  {
    assert s == s[..|s| - 1] + [s[|s| - 1]];
  }

  /** How often index `j` of `n` comes up in `m` steps round the ring from `start`. */
  lemma {:induction false} TurnsAreEven(order: seq<ClientId>, start: nat, picks: seq<ClientId>, j: nat)
    requires NoDuplicates(order) && start < |order| && j < |order|
    requires forall i :: 0 <= i < |picks| ==> picks[i] == Nth(order, start, i)
    ensures multiset(picks)[order[j]] == Turns(|picks|, |order|, (j + |order| - start) % |order|)
  {
    var n, m := |order|, |picks|;
    if m == 0 {
      NoTurns(n, (j + n - start) % n);
    } else {
      TurnsAreEven(order, start, picks[..m - 1], j);
      OneMoreOf(picks, order[j]);
      TurnIs(n, start, j, m - 1);
      OneTurnMore(m - 1, n, (j + n - start) % n);
      assert picks[m - 1] == order[(start + (m - 1)) % n];
    }
  }

  /** Main result: as long as the membership of a group stays fixed and no queue is full, any `m`
      consecutive picks give each of its `n` clients either m/n jobs or one more. */
  lemma RoundRobinIsFair<A, C>(g: GroupName, order: seq<ClientId>, before: seq<HubState<A, C>>, c: ClientId)
    requires PickRun(g, order, before) && c in order && before != []
    ensures var share := multiset(Picks(g, order, before))[c];
      share == |before| / |order| || share == |before| / |order| + 1
    ensures |before| % |order| == 0 ==> multiset(Picks(g, order, before))[c] == |before| / |order|
  {
    var picks := Picks(g, order, before);
    var start := StartOf(before[0], g);
    assert GroupCoherent(before[0], g);
    forall i | 0 <= i < |picks|
      ensures picks[i] == Nth(order, start, i)
    {
      PicksGoRound(g, order, before, i);
    }
    var j :| 0 <= j < |order| && order[j] == c;
    TurnsAreEven(order, start, picks, j);
  }
}
