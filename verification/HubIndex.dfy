/** The three indexes of the hub agree: `sessions`, `groups` and `groupOrder` with its cursor
    (internal/rpc/hub.go). */
module HubIndex {
  import opened JobQueues
  import opened HubModel

  ghost predicate NoDuplicates(s: seq<ClientId>) {
    forall i, j :: 0 <= i < j < |s| ==> s[i] != s[j]
  }

  /** One group's entries: never empty, without duplicates, cursor in range, and holding exactly
      the registered clients whose session names this group. */
  ghost predicate GroupCoherent<A, C>(h: HubState<A, C>, g: GroupName)
    requires Pointers(h)
  {
    var order, members := OrderOf(h.index, g), MembersOf(h.index, g);
    && (g in h.index.order ==> order != [])
    && (g in h.index.groups <==> g in h.index.order)
    && (g in h.index.cursor ==> h.index.cursor[g] < |order|)
    && NoDuplicates(order)
    && (forall c :: c in order <==> Online(h, g, c))
    && (forall c :: c in members <==> Online(h, g, c))
    && (forall c :: c in members ==> members[c] == h.sessions[c])
  }

  ghost predicate Coherent<A, C>(h: HubState<A, C>) {
    && Pointers(h)
    && (forall c :: c in h.sessions ==> h.heap[h.sessions[c]].clientID == c)
    && (forall g :: GroupCoherent(h, g))
  }

  lemma NewHubCoherent<A, C>(pendingSize: int, defaultMaxInFlight: int)
    ensures Coherent(NewHub<A, C>(pendingSize, defaultMaxInFlight))
  {
  }

  lemma {:induction false} WithoutFacts(order: seq<ClientId>, c: ClientId)
    ensures forall d :: d in Without(order, c) <==> d in order && d != c
    ensures NoDuplicates(order) ==> NoDuplicates(Without(order, c))
    ensures |Without(order, c)| <= |order|
  {
    if order != [] {
      WithoutFacts(order[1..], c);
      assert order == [order[0]] + order[1..];
      assert forall d :: d in order <==> d == order[0] || d in order[1..];
      if NoDuplicates(order) {
        assert NoDuplicates(order[1..]);
        assert order[0] !in Without(order[1..], c);
      }
    }
  }

  /** The hub with client `c` taken out of the indexes of group `g`, whether it leaves the group
      or the hub. */
  lemma RemovedFromGroup<A, C>(h: HubState<A, C>, g: GroupName, c: ClientId, h': HubState<A, C>)
    requires Pointers(h) && Pointers(h')
    requires GroupCoherent(h, g)
    requires h'.index == RemoveFromGroup(h.index, g, c)
    requires forall d :: Online(h', g, d) <==> Online(h, g, d) && d != c
    requires forall d :: d in h.sessions && d != c ==> d in h'.sessions && h'.sessions[d] == h.sessions[d]
    ensures GroupCoherent(h', g)
  {
    WithoutFacts(OrderOf(h.index, g), c);
    var members := MembersOf(h.index, g) - {c};
    var filtered := Without(OrderOf(h.index, g), c);
    assert forall d :: d in members <==> Online(h', g, d);
    assert forall d :: d in filtered <==> Online(h', g, d);
    if filtered == [] {
      assert members.Keys == {};
    } else {
      assert filtered[0] in members;
    }
    assert OrderOf(h'.index, g) == filtered;
    assert MembersOf(h'.index, g) == members;
  }

  /** The hub with client `c` put into the indexes of group `g`. */
  lemma AddedToGroup<A, C>(h: HubState<A, C>, g: GroupName, c: ClientId, a: A, h': HubState<A, C>)
    requires Pointers(h) && Pointers(h')
    requires GroupCoherent(h, g)
    requires h'.index == AddToGroup(h.index, g, c, a)
    requires c in h'.sessions && h'.sessions[c] == a
    requires forall d :: Online(h', g, d) <==> Online(h, g, d) || d == c
    requires forall d :: d in h.sessions && d != c ==> d in h'.sessions && h'.sessions[d] == h.sessions[d]
    ensures GroupCoherent(h', g)
  {
    var order := OrderOf(h.index, g);
    assert OrderOf(h'.index, g) == if c in order then order else order + [c];
    assert MembersOf(h'.index, g) == MembersOf(h.index, g)[c := a];
  }

  /** A group that an operation does not touch. */
  lemma UntouchedGroup<A, C>(h: HubState<A, C>, g: GroupName, h': HubState<A, C>)
    requires Pointers(h) && Pointers(h')
    requires GroupCoherent(h, g)
    requires g in h'.index.groups <==> g in h.index.groups
    requires g in h'.index.order <==> g in h.index.order
    requires g in h'.index.cursor <==> g in h.index.cursor
    requires OrderOf(h'.index, g) == OrderOf(h.index, g) && MembersOf(h'.index, g) == MembersOf(h.index, g)
    requires CursorOf(h'.index, g) == CursorOf(h.index, g)
    requires forall d :: Online(h', g, d) <==> Online(h, g, d)
    requires forall d :: Online(h, g, d) ==> d in h'.sessions && h'.sessions[d] == h.sessions[d]
    ensures GroupCoherent(h', g)
  {
  }

  /** Addresses in use are not handed out again. */
  ghost predicate Newcomer<A, C>(h: HubState<A, C>, a: A) {
    a !in h.heap
  }

  lemma DistinctSessions<A, C>(h: HubState<A, C>, c: ClientId, d: ClientId)
    requires Coherent(h) && c in h.sessions && d in h.sessions && c != d
    ensures h.sessions[c] != h.sessions[d]
  {
  }

  lemma RegisterNewCoherent<A, C>(h: HubState<A, C>, newcomer: A, c: ClientId, g: GroupName, userID: int,
                                        platform: string, max: int, now: Time)
    requires Coherent(h) && Newcomer(h, newcomer) && c !in h.sessions
    ensures Coherent(Register(h, newcomer, c, g, userID, platform, max, now))
  {
    var h' := Register(h, newcomer, c, g, userID, platform, max, now);
    assert Pointers(h');
    forall k ensures GroupCoherent(h', k) {
      assert GroupCoherent(h, k);
      if k == g {
        AddedToGroup(h, g, c, newcomer, h');
      } else {
        UntouchedGroup(h, k, h');
      }
    }
  }

  /** A registered client keeps its session object, and only its own group changes. */
  lemma RegisterAgainOnline<A, C>(h: HubState<A, C>, newcomer: A, c: ClientId, g: GroupName, userID: int,
                                        platform: string, max: int, now: Time)
    requires Coherent(h) && c in h.sessions
    ensures var h' := Register(h, newcomer, c, g, userID, platform, max, now);
      && h'.sessions == h.sessions && Pointers(h')
      && (forall d :: d in h.sessions ==> h'.heap[h.sessions[d]].clientID == d)
      && (forall k, d :: Online(h', k, d) <==> if d == c then k == g else Online(h, k, d))
  {
    forall d | d in h.sessions && d != c
      ensures h.sessions[d] != h.sessions[c]
    {
      DistinctSessions(h, c, d);
    }
  }

  /** The group the client moves into, if it moves. */
  lemma MovedInto<A, C>(h: HubState<A, C>, h': HubState<A, C>, from: GroupName, c: ClientId, g: GroupName)
    requires Coherent(h) && Pointers(h') && c in h.sessions && h'.sessions == h.sessions && from != g
    requires forall d :: Online(h', g, d) <==> d == c || Online(h, g, d)
    requires h'.index == AddToGroup(RemoveFromGroup(h.index, from, c), g, c, h.sessions[c])
    ensures GroupCoherent(h', g)
  {
    var h1 := h.(index := RemoveFromGroup(h.index, from, c));
    assert GroupCoherent(h, g);
    UntouchedGroup(h, g, h1);
    AddedToGroup(h1, g, c, h.sessions[c], h');
  }

  lemma MovedAway<A, C>(h: HubState<A, C>, h': HubState<A, C>, from: GroupName, c: ClientId, g: GroupName)
    requires Pointers(h) && GroupCoherent(h, from)
    requires Pointers(h') && c in h.sessions && h'.sessions == h.sessions && from != g
    requires forall d :: Online(h', from, d) <==> Online(h, from, d) && d != c
    requires h'.index == AddToGroup(RemoveFromGroup(h.index, from, c), g, c, h.sessions[c])
    ensures GroupCoherent(h', from)
  {
    var h2 := h'.(index := RemoveFromGroup(h.index, from, c));
    RemovedFromGroup(h, from, c, h2);
    UntouchedGroup(h2, from, h');
  }

  lemma MovedElsewhere<A, C>(h: HubState<A, C>, h': HubState<A, C>, from: GroupName, c: ClientId, g: GroupName,
                             k: GroupName)
    requires Pointers(h) && GroupCoherent(h, k)
    requires Pointers(h') && c in h.sessions && h'.sessions == h.sessions && k != g && k != from
    requires forall d :: Online(h', k, d) <==> Online(h, k, d)
    requires h'.index == AddToGroup(RemoveFromGroup(h.index, from, c), g, c, h.sessions[c])
    ensures GroupCoherent(h', k)
  {
    UntouchedGroup(h, k, h');
  }

  lemma RegisterAgainCoherent<A, C>(h: HubState<A, C>, newcomer: A, c: ClientId, g: GroupName, userID: int,
                                          platform: string, max: int, now: Time)
    requires Coherent(h) && c in h.sessions
    ensures Coherent(Register(h, newcomer, c, g, userID, platform, max, now))
  {
    RegisterAgainOnline(h, newcomer, c, g, userID, platform, max, now);
    var h' := Register(h, newcomer, c, g, userID, platform, max, now);
    forall k ensures GroupCoherent(h', k) {
      var from := h.heap[h.sessions[c]].group;
      if from == g {
        assert GroupCoherent(h, k);
        if k == g {
          AddedToGroup(h, g, c, h.sessions[c], h');
        } else {
          UntouchedGroup(h, k, h');
        }
      } else if k == g {
        MovedInto(h, h', from, c, g);
      } else {
        assert GroupCoherent(h, k);
        if k == from {
          MovedAway(h, h', from, c, g);
        } else {
          MovedElsewhere(h, h', from, c, g, k);
        }
      }
    }
  }

  lemma RegisterCoherent<A, C>(h: HubState<A, C>, newcomer: A, c: ClientId, g: GroupName, userID: int,
                                     platform: string, max: int, now: Time)
    requires Coherent(h) && (c in h.sessions || Newcomer(h, newcomer))
    ensures Coherent(Register(h, newcomer, c, g, userID, platform, max, now))
  {
    if c in h.sessions {
      RegisterAgainCoherent(h, newcomer, c, g, userID, platform, max, now);
    } else {
      RegisterNewCoherent(h, newcomer, c, g, userID, platform, max, now);
    }
  }

  lemma UnregisterOnline<A, C>(h: HubState<A, C>, c: ClientId)
    requires Coherent(h) && c in h.sessions
    ensures var h' := Unregister(h, c);
      && h'.sessions == h.sessions - {c} && Pointers(h')
      && (forall d :: d in h'.sessions ==> h'.heap[h'.sessions[d]] == h.heap[h.sessions[d]])
      && (forall k, d :: Online(h', k, d) <==> Online(h, k, d) && d != c)
  {
    forall d | d in h.sessions && d != c
      ensures h.sessions[d] != h.sessions[c]
    {
      DistinctSessions(h, c, d);
    }
  }

  lemma UnregisterCoherent<A, C>(h: HubState<A, C>, c: ClientId)
    requires Coherent(h)
    ensures Coherent(Unregister(h, c))
  {
    if c in h.sessions {
      UnregisterOnline(h, c);
      var h' := Unregister(h, c);
      var g := h.heap[h.sessions[c]].group;
      forall k ensures GroupCoherent(h', k) {
        assert GroupCoherent(h, k);
        if k == g {
          RemovedFromGroup(h, g, c, h');
        } else {
          UntouchedGroup(h, k, h');
        }
      }
    }
  }

  /** Operations that keep every registration, the group of every session, and the orders. */
  ghost predicate SameIndex<A, C>(h: HubState<A, C>, h': HubState<A, C>) {
    && h'.sessions == h.sessions && h'.index == h.index
    && (forall a :: a in h.heap ==> a in h'.heap && h'.heap[a].clientID == h.heap[a].clientID
                                    && h'.heap[a].group == h.heap[a].group)
  }

  lemma SameIndexCoherent<A, C>(h: HubState<A, C>, h': HubState<A, C>)
    requires Coherent(h) && SameIndex(h, h')
    ensures Coherent(h')
  {
    forall g ensures GroupCoherent(h', g) {
      assert GroupCoherent(h, g);
    }
  }

  lemma AcquireKeepsIndex<A, C>(h: HubState<A, C>, c: ClientId)
    requires Pointers(h)
    ensures SameIndex(h, AcquireSlot(h, c).0)
  {
  }

  lemma ReleaseKeepsIndex<A, C>(h: HubState<A, C>, c: ClientId)
    requires Pointers(h)
    ensures SameIndex(h, ReleaseSlot(h, c))
  {
  }

  lemma TouchKeepsIndex<A, C>(h: HubState<A, C>, c: ClientId, now: Time)
    requires Pointers(h)
    ensures SameIndex(h, Touch(h, c, now))
  {
  }

  lemma FinishKeepsIndex<A, C>(h: HubState<A, C>, c: ClientId, r: RequestId, state: TombstoneState, now: Time)
    requires Pointers(h)
    ensures SameIndex(h, Finish(h, c, r, state, now))
  {
    ReleaseKeepsIndex(h, c);
  }

  lemma SubmitKeepsIndex<A, C>(h: HubState<A, C>, c: ClientId, result: JobResult, now: Time)
    requires Pointers(h)
    ensures SameIndex(h, SubmitResult(h, c, result, now).0)
  {
    var h1, r := Cleanup(h, now), result.requestID;
    match ArrivalOf(h1, c, r)
    case AtWaiter(_) => FinishKeepsIndex(DropWaiter(h1, r), c, r, Completed, now);
    case AtExpired => FinishKeepsIndex(h1, c, r, Late, now);
    case NoEffect(_) =>
  }

  /** Only `pickSession` moves a cursor without changing the group. */
  lemma PickCoherent<A, C>(h: HubState<A, C>, g: GroupName, preferred: ClientId)
    requires Coherent(h)
    ensures Coherent(PickSession(h, g, preferred).0)
  {
    var h' := PickSession(h, g, preferred).0;
    if h' != h {
      forall k ensures GroupCoherent(h', k) {
        assert GroupCoherent(h, k);
      }
    }
  }

  // ---- Where clients stand in the order of a group ----

  lemma {:induction false} WithoutOther(order: seq<ClientId>, c: ClientId)
    requires c !in order
    ensures Without(order, c) == order
  {
    if order != [] {
      WithoutOther(order[1..], c);
    }
  }

  lemma {:induction false} WithoutMiddle(before: seq<ClientId>, c: ClientId, after: seq<ClientId>)
    requires c !in before && c !in after
    ensures Without(before + [c] + after, c) == before + after
  {
    var order := before + [c] + after;
    if before == [] {
      assert order[0] == c && order[1..] == after && before + after == after;
      WithoutOther(after, c);
    } else {
      assert order[0] == before[0] && order[1..] == before[1..] + [c] + after;
      WithoutMiddle(before[1..], c, after);
    }
  }

  /** A client that is not in the group yet goes to the end of its order; the cursor stays where it is. */
  lemma NewcomerGoesLast<A, C>(h: HubState<A, C>, newcomer: A, c: ClientId, g: GroupName, userID: int, platform: string,
                               max: int, now: Time)
    requires Coherent(h) && !Online(h, g, c)
    ensures var h' := Register(h, newcomer, c, g, userID, platform, max, now);
      OrderOf(h'.index, g) == OrderOf(h.index, g) + [c] && CursorOf(h'.index, g) == CursorOf(h.index, g)
  {
    assert GroupCoherent(h, g);
  }

  /** A client that registers again in its group keeps its place. */
  lemma RegisteringAgainKeepsPlace<A, C>(h: HubState<A, C>, newcomer: A, c: ClientId, g: GroupName, userID: int,
                                         platform: string, max: int, now: Time)
    requires Coherent(h) && Online(h, g, c)
    ensures var h' := Register(h, newcomer, c, g, userID, platform, max, now);
      forall other: GroupName ::
        OrderOf(h'.index, other) == OrderOf(h.index, other) && CursorOf(h'.index, other) == CursorOf(h.index, other)
  {
    assert GroupCoherent(h, g);
  }

  lemma PlaceInOrder<A, C>(h: HubState<A, C>, home: GroupName, before: seq<ClientId>, c: ClientId, after: seq<ClientId>)
    requires Pointers(h) && GroupCoherent(h, home) && OrderOf(h.index, home) == before + [c] + after
    ensures c !in before && c !in after && Online(h, home, c)
  {
    var order := OrderOf(h.index, home);
    assert order[|before|] == c;
    forall i | 0 <= i < |before| ensures before[i] != c {
      assert order[i] == before[i];
    }
    forall i | 0 <= i < |after| ensures after[i] != c {
      assert order[|before| + 1 + i] == after[i];
    }
  }

  /** A client that leaves a group leaves the others in their order; a cursor beyond the end goes back to the start. */
  lemma LeaverLeavesOrder<A, C>(h: HubState<A, C>, home: GroupName, before: seq<ClientId>, c: ClientId,
                                after: seq<ClientId>)
    requires Coherent(h) && OrderOf(h.index, home) == before + [c] + after
    ensures var index := RemoveFromGroup(h.index, home, c);
      OrderOf(index, home) == before + after &&
      CursorOf(index, home) == (if CursorOf(h.index, home) < |before + after| then CursorOf(h.index, home) else 0) &&
      forall other: GroupName :: other != home ==>
        OrderOf(index, other) == OrderOf(h.index, other) && CursorOf(index, other) == CursorOf(h.index, other)
    ensures Online(h, home, c) && Unregister(h, c).index == RemoveFromGroup(h.index, home, c)
  {
    assert GroupCoherent(h, home);
    PlaceInOrder(h, home, before, c, after);
    WithoutMiddle(before, c, after);
  }

  /** A client that moves leaves its old group's order in the same way. */
  lemma MoverLeavesOrder<A, C>(h: HubState<A, C>, newcomer: A, home: GroupName, c: ClientId, g: GroupName, userID: int,
                               platform: string, max: int, now: Time)
    requires Coherent(h) && Online(h, home, c) && g != home
    ensures var h' := Register(h, newcomer, c, g, userID, platform, max, now);
      OrderOf(h'.index, home) == OrderOf(RemoveFromGroup(h.index, home, c), home) &&
      CursorOf(h'.index, home) == CursorOf(RemoveFromGroup(h.index, home, c), home)
  {
  }
}
