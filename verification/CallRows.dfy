/** What a finished call leaves in the request log and in the metric tables, told from the call and from what
    the hub answered (internal/app/app.go, internal/app/persist_batch.go, internal/store/store.go). */
module CallRows {
  import opened PersistBatch
  import opened Pipeline
  import opened PipelineRuns
  import opened Requests
  import opened Wrappers

  // ---- Status and code ----

  /** Nobody to call: the group is empty, or the preferred client is not there. */
  predicate Unreachable(c: Call) {
    c.outcome.Failed? && (c.outcome.why == NoOnlineClient || c.outcome.why == PreferredClientDown)
  }

  predicate TurnedAway(c: Call) {
    c.outcome.Failed? && (c.outcome.why == ClientQueueFull || c.outcome.why == GroupSaturated)
  }

  /** Any other error: the deadline, or the end of the caller's context. */
  predicate Late(c: Call) {
    c.outcome.Failed? && c.outcome.why == OtherError
  }

  /** The status and the code that a call ends with. */
  predicate EndsWith(c: Call, status: string, code: int) {
    (Unreachable(c) ==> status == "no_client" && code == 502) &&
    (TurnedAway(c) ==> status == "rejected" && code == 429) &&
    (Late(c) ==> status == "timeout" && code == 504) &&
    (c.outcome.Replied? ==>
       status == (if c.outcome.status == "" then "success" else c.outcome.status) &&
       code == (if c.outcome.httpCode == 0 then 200 else c.outcome.httpCode))
  }

  /** The client that the hub reports, or else the one that was asked for. */
  predicate CalledClient(c: Call, client: string)
    requires !c.outcome.Refused?
  {
    client == if c.outcome.client != "" then c.outcome.client else c.preferred
  }

  /** Main result: the completion carries the status and code of the hub's answer, its latency and error, and
      the texts of the call; the metrics carry the same status, client, group and latency. */
  lemma TasksOfCall(c: Call)
    requires !c.outcome.Refused?
    ensures var t := Emitted(c)[0];
      t.kind == CompleteRequest && t.id == c.id && EndsWith(c, t.status, t.httpCode) && CalledClient(c, t.client) &&
      t.group == c.group && t.action == c.action && t.requester == c.requester &&
      t.requestPayload == c.requestText && t.responsePayload == c.responseText &&
      t.latency == (if c.outcome.Replied? then c.outcome.latency else 0) &&
      t.error == (if c.outcome.Replied? then c.outcome.error else c.outcome.message)
    ensures forall i :: 1 <= i < |Emitted(c)| ==>
      var t, first := Emitted(c)[i], Emitted(c)[0];
      t.kind == (if i == 1 then RpcMetric else DeviceMetric) && t.status == first.status && t.client == first.client &&
      t.group == c.group && t.latency == first.latency && (i == 1 ==> t.action == c.action) &&
      t.day == (if i == 1 || c.outcome.Failed? then c.rpcDay else c.deviceDay)
    ensures |Emitted(c)| == if c.outcome.client == "" && c.preferred == "" then 2 else 3
  {
  }

  // ---- The row of a call ----

  predicate WhiteSpace(s: string) {
    forall i :: 0 <= i < |s| ==> Space(s[i])
  }

  /** The White_Space property of Unicode. */
  lemma Spaces(c: char)
    ensures Space(c) <==>
      0x09 <= c as int <= 0x0D || 0x2000 <= c as int <= 0x200A ||
      c as int in {0x20, 0x85, 0xA0, 0x1680, 0x2028, 0x2029, 0x202F, 0x205F, 0x3000}
  {
  }

  /** What was there before, or nothing. */
  function Before(f: Option<Fields>): Fields {
    if f.Some? then f.value else Fields("", "", "", None, None, None, "", 0, 0, "")
  }

  /** The row f of a call, if earlier was there before. */
  predicate RowOfCall(c: Call, earlier: Fields, f: Fields)
    requires !c.outcome.Refused?
  {
    EndsWith(c, f.status, f.httpCode) &&
    f.latency == (if c.outcome.Replied? then c.outcome.latency else 0) &&
    f.error == (if c.outcome.Replied? then c.outcome.error else c.outcome.message) &&
    f.response == (if WhiteSpace(c.responseText) then None else Some(c.responseText)) &&
    f.request == (if WhiteSpace(c.requestText) then earlier.request else Some(c.requestText)) &&
    f.requester == (if c.requester == None then earlier.requester else c.requester) &&
    f.group == (if c.group == "" then earlier.group else c.group) &&
    f.action == (if c.action == "" then earlier.action else c.action) &&
    f.client == (if c.outcome.client != "" then c.outcome.client
                 else if c.preferred != "" then c.preferred else earlier.client)
  }

  lemma {:induction false} CompletionRow(c: Call, earlier: Option<Fields>)
    requires !c.outcome.Refused?
    ensures RowOfCall(c, Before(earlier), CompleteFields(earlier, ItemOf(CompletionTask(c))))
  {
  }

  /** A create leaves no finishing time, no response, no latency and no error. */
  lemma CreatedRow(db: Db, t: Task, now: nat)
    requires t.kind == CreateRequest && t.id !in db.log
    ensures RunTask(db, t, now).log == db.log[t.id :=
      RequestRow(Fields(t.group, t.action, t.client, t.requester,
                        if WhiteSpace(t.requestPayload) then None else Some(t.requestPayload), None, t.status,
                        t.httpCode, 0, ""), None)]
  {
    assert WhiteSpace("");
  }

  /** Main result: once the pipeline is quiet, the log row of every call past the group check holds its status,
      code, latency, error and response, and its other values over those that were there, if request IDs are
      fresh. */
  lemma QuietRowOfCall(p: Pipe, workers: nat, capacity: nat, moves: seq<Move>, i: nat)
    requires Start(p, workers) && After(p, capacity, moves).Some? && Quiet(After(p, capacity, moves).value)
    requires var calls := After(p, capacity, moves).value.calls;
             FreshIds(calls) && i < |calls| && !calls[i].outcome.Refused?
    ensures var q := After(p, capacity, moves).value; var c := q.calls[i];
            c.id in q.db.log && RowOfCall(c, Before(FieldsAt(p.db.log, c.id)), q.db.log[c.id].fields)
  {
    var q := After(p, capacity, moves).value;
    QuietLogIsComplete(p, workers, capacity, moves, i);
    CompletionRow(q.calls[i], FieldsAt(p.db.log, q.calls[i].id));
  }
}
