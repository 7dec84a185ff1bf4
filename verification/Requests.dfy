/** Rows of the request log and the two upserts that write them (internal/store/store.go). */
module Requests {
  import opened Wrappers

  /** A request row without its finishing time. A JSON column is None where it is NULL. */
  datatype Fields = Fields(group: string, action: string, client: string, requester: Option<int>,
                           request: Option<string>, response: Option<string>, status: string,
                           httpCode: int, latency: int, error: string)

  datatype RequestRow = RequestRow(fields: Fields, finished: Option<nat>)

  /** What is bound to a statement; the JSON texts come from the caller as they are. */
  datatype Item = Item(id: string, group: string, action: string, client: string, requester: Option<int>,
                       request: string, response: string, status: string, httpCode: int, latency: int,
                       error: string)

  type Log = map<string, RequestRow>

  predicate Space(c: char) {
    c in " \t\n\r" || c in ['\U{000B}', '\U{000C}', '\U{0085}', '\U{00A0}', '\U{1680}', '\U{2028}', '\U{2029}',
                            '\U{202F}', '\U{205F}', '\U{3000}'] || '\U{2000}' <= c <= '\U{200A}'
  }

  /** `nullableJSON`: a text of nothing but white space is stored as NULL. */
  function NullableJson(raw: string): Option<string> {
    if forall i :: 0 <= i < |raw| ==> Space(raw[i]) then None else Some(raw)
  }

  function Inserted(item: Item): Fields {
    Fields(item.group, item.action, item.client, item.requester, NullableJson(item.request),
           NullableJson(item.response), item.status, item.httpCode, item.latency, item.error)
  }

  /** CASE WHEN VALUES(c) <> '' THEN VALUES(c) ELSE c END */
  function NonEmpty(value: string, current: string): string {
    if value != "" then value else current
  }

  /** COALESCE(VALUES(c), c) */
  function Coalesce<T>(value: Option<T>, current: Option<T>): Option<T> {
    if value.Some? then value else current
  }

  /** The columns that both upserts merge: a value that is there replaces, a missing one does not. */
  function MergeFields(f: Fields, item: Item): Fields {
    f.(group := NonEmpty(item.group, f.group),
       action := NonEmpty(item.action, f.action),
       client := NonEmpty(item.client, f.client),
       requester := Coalesce(item.requester, f.requester),
       request := Coalesce(NullableJson(item.request), f.request))
  }

  function Create(log: Log, item: Item): Log {
    log[item.id :=
      if item.id in log then log[item.id].(fields := MergeFields(log[item.id].fields, item))
      else RequestRow(Inserted(item), None)]
  }

  function CompleteFields(current: Option<Fields>, item: Item): Fields {
    match current
    case None => Inserted(item)
    case Some(f) =>
      MergeFields(f, item).(response := NullableJson(item.response), status := item.status,
                            httpCode := item.httpCode, latency := item.latency, error := item.error)
  }

  function FieldsAt(log: Log, id: string): Option<Fields> {
    if id in log then Some(log[id].fields) else None
  }

  function Complete(log: Log, item: Item, now: nat): Log {
    log[item.id := RequestRow(CompleteFields(FieldsAt(log, item.id), item), Some(now))]
  }

  /** The log apart from finishing times. */
  function Visible(log: Log): map<string, Fields> {
    map id | id in log :: log[id].fields
  }

  // ---- The algebra of the two upserts ----

  /** A second completion of the same request only moves the finishing time. */
  lemma CompletingTwice(log: Log, item: Item, first: nat, second: nat)
    ensures Complete(Complete(log, item, first), item, second) == Complete(log, item, second)
    ensures Visible(Complete(Complete(log, item, first), item, second)) == Visible(Complete(log, item, first))
  {
  }

  lemma CreatingTwice(log: Log, item: Item)
    ensures Create(Create(log, item), item) == Create(log, item)
  {
    var f := Inserted(item);
    assert MergeFields(f, item) == f;
    if item.id in log {
      var g := log[item.id].fields;
      assert MergeFields(MergeFields(g, item), item) == MergeFields(g, item);
    }
  }

  /** Each of the five merged columns is the same in both, or missing from one of them. */
  predicate Compatible(a: Item, b: Item) {
    (a.group == b.group || a.group == "" || b.group == "") &&
    (a.action == b.action || a.action == "" || b.action == "") &&
    (a.client == b.client || a.client == "" || b.client == "") &&
    (a.requester == b.requester || a.requester == None || b.requester == None) &&
    (NullableJson(a.request) == NullableJson(b.request) || NullableJson(a.request) == None ||
     NullableJson(b.request) == None)
  }

  lemma MergesCommute(f: Fields, a: Item, b: Item)
    ensures MergeFields(MergeFields(f, a), b) == MergeFields(MergeFields(f, b), a) <==> Compatible(a, b)
  {
  }

  /** A late create never undoes a completion: every column that the completion decided stays, a
      merged column changes only where the create has a value, and the finishing time stays. */
  lemma LateCreateKeepsCompletion(log: Log, created: Item, completed: Item, now: nat)
    requires created.id == completed.id
    ensures var before := Complete(log, completed, now)[completed.id];
            var after := Create(Complete(log, completed, now), created)[completed.id];
            after.finished == Some(now) &&
            after.fields == before.fields.(group := after.fields.group, action := after.fields.action,
                                           client := after.fields.client, requester := after.fields.requester,
                                           request := after.fields.request) &&
            after.fields.response == NullableJson(completed.response) && after.fields.status == completed.status &&
            after.fields.httpCode == completed.httpCode && after.fields.latency == completed.latency &&
            after.fields.error == completed.error
  {
  }

  /** Creating and completing one request can change places exactly if their columns are compatible. */
  lemma CreateAndCompleteCommute(log: Log, created: Item, completed: Item, now: nat)
    requires created.id == completed.id
    ensures Create(Complete(log, completed, now), created) == Complete(Create(log, created), completed, now) <==>
            Compatible(created, completed)
  {
    var id := created.id;
    var left, right := Create(Complete(log, completed, now), created), Complete(Create(log, created), completed, now);
    assert left == log[id := left[id]] && right == log[id := right[id]];
    assert left == right <==> left[id] == right[id];
    if id in log {
      MergesCommute(log[id].fields, created, completed);
    } else {
      InsertsCommute(created, completed);
    }
  }

  lemma InsertsCommute(a: Item, b: Item)
    ensures MergeFields(Inserted(b), a) == CompleteFields(Some(Inserted(a)), b) <==> Compatible(a, b)
  {
  }

  lemma OtherRequestsCommute(log: Log, created: Item, completed: Item, now: nat)
    requires created.id != completed.id
    ensures Create(Complete(log, completed, now), created) == Complete(Create(log, created), completed, now)
  {
    assert FieldsAt(Create(log, created), completed.id) == FieldsAt(log, completed.id);
  }

  // ---- Many upserts ----

  /** A create, or a completion at a time. */
  datatype LogOp = LogOp(completes: bool, item: Item, now: nat)

  function Do(log: Log, op: LogOp): Log {
    if op.completes then Complete(log, op.item, op.now) else Create(log, op.item)
  }

  function RunLog(log: Log, ops: seq<LogOp>): Log
    decreases |ops|
  {
    if ops == [] then log else RunLog(Do(log, ops[0]), ops[1..])
  }

  function Creates(ops: seq<LogOp>): seq<LogOp> {
    if ops == [] then [] else (if ops[0].completes then [] else [ops[0]]) + Creates(ops[1..])
  }

  function Completions(ops: seq<LogOp>): seq<LogOp> {
    if ops == [] then [] else (if ops[0].completes then [ops[0]] else []) + Completions(ops[1..])
  }

  predicate MayPass(completion: LogOp, create: LogOp) {
    completion.item.id == create.item.id ==> Compatible(create.item, completion.item)
  }

  /** A create that comes after a completion of the same request has compatible columns. */
  predicate LateCreatesCompatible(ops: seq<LogOp>) {
    forall i, j :: 0 <= i < j < |ops| && ops[i].completes && !ops[j].completes ==> MayPass(ops[i], ops[j])
  }

  lemma {:induction false} RunLogConcat(log: Log, a: seq<LogOp>, b: seq<LogOp>)
    ensures RunLog(log, a + b) == RunLog(RunLog(log, a), b)
    decreases |a|
  {
    if a == [] {
      assert a + b == b;
    } else {
      assert (a + b)[1..] == a[1..] + b;
      RunLogConcat(Do(log, a[0]), a[1..], b);
    }
  }

  lemma {:induction false} CreatesAreLate(ops: seq<LogOp>, completion: LogOp)
    requires forall j :: 0 <= j < |ops| && !ops[j].completes ==> MayPass(completion, ops[j])
    ensures forall j :: 0 <= j < |Creates(ops)| ==> !Creates(ops)[j].completes && MayPass(completion, Creates(ops)[j])
  {
    if ops != [] {
      CreatesAreLate(ops[1..], completion);
    }
  }

  /** A completion may be moved behind creates that may pass it. */
  lemma {:induction false} MoveBehind(log: Log, completion: LogOp, creates: seq<LogOp>)
    requires completion.completes
    requires forall j :: 0 <= j < |creates| ==> !creates[j].completes && MayPass(completion, creates[j])
    ensures RunLog(Do(log, completion), creates) == Do(RunLog(log, creates), completion)
    decreases |creates|
  {
    if creates != [] {
      var create := creates[0];
      if create.item.id == completion.item.id {
        CreateAndCompleteCommute(log, create.item, completion.item, completion.now);
      } else {
        OtherRequestsCommute(log, create.item, completion.item, completion.now);
      }
      MoveBehind(Do(log, create), completion, creates[1..]);
    }
  }

  /** Running all creates first and all completions after them leaves the log that the given order
      leaves, if late creates are compatible. */
  lemma {:induction false} CreatesFirst(log: Log, ops: seq<LogOp>)
    requires LateCreatesCompatible(ops)
    ensures RunLog(RunLog(log, Creates(ops)), Completions(ops)) == RunLog(log, ops)
    decreases |ops|
  {
    if ops != [] {
      var rest := ops[1..];
      CreatesFirst(Do(log, ops[0]), rest);
      if ops[0].completes {
        assert [] + Creates(rest) == Creates(rest);
        CreatesAreLate(rest, ops[0]);
        MoveBehind(log, ops[0], Creates(rest));
        RunLogConcat(RunLog(log, Creates(rest)), [ops[0]], Completions(rest));
      } else {
        assert [] + Completions(rest) == Completions(rest);
        RunLogConcat(log, [ops[0]], Creates(rest));
      }
    }
  }

  /** The same upserts at other times. */
  predicate SameButTimes(a: seq<LogOp>, b: seq<LogOp>) {
    |a| == |b| && forall i :: 0 <= i < |a| ==> a[i].completes == b[i].completes && a[i].item == b[i].item
  }

  lemma {:induction false} TimesAreInvisible(a: Log, b: Log, opsA: seq<LogOp>, opsB: seq<LogOp>)
    requires Visible(a) == Visible(b) && SameButTimes(opsA, opsB)
    ensures Visible(RunLog(a, opsA)) == Visible(RunLog(b, opsB))
    decreases |opsA|
  {
    if opsA != [] {
      VisibleStep(a, b, opsA[0], opsB[0]);
      TimesAreInvisible(Do(a, opsA[0]), Do(b, opsB[0]), opsA[1..], opsB[1..]);
    }
  }

  lemma VisibleStep(a: Log, b: Log, opA: LogOp, opB: LogOp)
    requires Visible(a) == Visible(b) && opA.completes == opB.completes && opA.item == opB.item
    ensures Visible(Do(a, opA)) == Visible(Do(b, opB))
  {
    var id := opA.item.id;
    assert forall k :: k in a <==> k in Visible(a);
    assert forall k :: k in b <==> k in Visible(b);
    assert FieldsAt(a, id) == (if id in Visible(a) then Some(Visible(a)[id]) else None);
    assert FieldsAt(b, id) == FieldsAt(a, id);
    var f := Do(a, opA)[id].fields;
    assert Visible(Do(a, opA)) == Visible(a)[id := f];
    assert Visible(Do(b, opB)) == Visible(b)[id := f];
  }
}
