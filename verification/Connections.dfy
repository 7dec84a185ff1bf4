/** The table of current WebSocket connections, one per client (internal/web/client_ws.go). */
module Connections {
  import opened Wrappers

  datatype Table = Table(nextId: nat, items: map<string, nat>)

  datatype Op = Replace(client: string) | Clear(client: string, connId: nat)

  /** The binding of this client is that of this connection. */
  predicate Current(t: Table, client: string, connId: nat) {
    client in t.items && t.items[client] == connId
  }

  function Apply(t: Table, op: Op): Table {
    match op
    case Replace(client) => Table(t.nextId + 1, t.items[client := t.nextId + 1])
    case Clear(client, connId) => if Current(t, client, connId) then t.(items := t.items - {client}) else t
  }

  function Run(t: Table, ops: seq<Op>): Table
    decreases |ops|
  {
    if ops == [] then t else Run(Apply(t, ops[0]), ops[1..])
  }

  class ClientSessions {
    var nextId: nat
    var items: map<string, nat>

    ghost function State(): Table
      reads this
    {
      Table(nextId, items)
    }

    constructor ()
      ensures State() == Table(0, map[])
    {
      nextId, items := 0, map[];
    }

    /** `previous` is the connection that the caller cancels and closes. */
    method ReplaceBinding(client: string) returns (connId: nat, previous: Option<nat>)
      modifies this
      ensures State() == Apply(old(State()), Replace(client))
      ensures connId == nextId && Current(State(), client, connId)
      ensures previous == if client in old(items) then Some(old(items)[client]) else None
    {
      nextId := nextId + 1;
      connId := nextId;
      previous := if client in items then Some(items[client]) else None;
      items := items[client := connId];
    }

    method ClearIfCurrent(client: string, connId: nat) returns (cleared: bool)
      modifies this
      ensures State() == Apply(old(State()), Clear(client, connId))
      ensures cleared == Current(old(State()), client, connId)
    {
      if client !in items || items[client] != connId {
        return false;
      }
      items := items - {client};
      return true;
    }
  }

  // ---- Every run ----

  /** Connection IDs only grow: what a later replace hands out is larger than all before. */
  lemma {:induction false} IdsGrow(t: Table, ops: seq<Op>)
    ensures Run(t, ops).nextId >= t.nextId
    ensures forall client: string :: Apply(Run(t, ops), Replace(client)).nextId > t.nextId
    decreases |ops|
  {
    if ops != [] {
      IdsGrow(Apply(t, ops[0]), ops[1..]);
    }
  }

  /** A connection that was handed out and is not current is never current again. */
  lemma {:induction false} NeverAgain(t: Table, ops: seq<Op>, client: string, connId: nat)
    requires connId <= t.nextId && !Current(t, client, connId)
    ensures !Current(Run(t, ops), client, connId)
    decreases |ops|
  {
    if ops != [] {
      NeverAgain(Apply(t, ops[0]), ops[1..], client, connId);
    }
  }

  predicate Handed(t: Table) {
    forall client: string :: client in t.items ==> t.items[client] <= t.nextId
  }

  lemma {:induction false} RunStaysHanded(t: Table, ops: seq<Op>)
    requires Handed(t)
    ensures Handed(Run(t, ops))
    decreases |ops|
  {
    if ops != [] {
      RunStaysHanded(Apply(t, ops[0]), ops[1..]);
    }
  }

  /** Once a client has connected again, or its connection has cleared the binding, that connection
      clears nothing any more, whatever happens in between. */
  lemma SupersededNeverClears(before: seq<Op>, client: string, connId: nat, next: Op, after: seq<Op>)
    requires Current(Run(Table(0, map[]), before), client, connId)
    requires next == Replace(client) || next == Clear(client, connId)
    ensures !Current(Run(Apply(Run(Table(0, map[]), before), next), after), client, connId)
  {
    var t := Run(Table(0, map[]), before);
    RunStaysHanded(Table(0, map[]), before);
    NeverAgain(Apply(t, next), after, client, connId);
  }

  /** Until then it stays current: only its own clear or the client's next connection ends it. */
  lemma {:induction false} StaysCurrent(t: Table, ops: seq<Op>, client: string, connId: nat)
    requires Current(t, client, connId)
    requires forall i :: 0 <= i < |ops| ==> ops[i] != Replace(client) && ops[i] != Clear(client, connId)
    ensures Current(Run(t, ops), client, connId)
    decreases |ops|
  {
    if ops != [] {
      StaysCurrent(Apply(t, ops[0]), ops[1..], client, connId);
    }
  }

  function Replaces(ops: seq<Op>): nat {
    if ops == [] then 0 else (if ops[0].Replace? then 1 else 0) + Replaces(ops[1..])
  }

  /** The n-th connection of all gets the number n. */
  lemma {:induction false} NumbersAreCounts(t: Table, ops: seq<Op>, client: string)
    ensures Run(t, ops).nextId == t.nextId + Replaces(ops)
    ensures Current(Apply(Run(t, ops), Replace(client)), client, t.nextId + Replaces(ops) + 1)
    decreases |ops|
  {
    if ops != [] {
      NumbersAreCounts(Apply(t, ops[0]), ops[1..], client);
    }
  }
}
