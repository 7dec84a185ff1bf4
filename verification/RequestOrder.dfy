/** Exactly which lists of creates and completions leave the same request log when all creates are run
    first, as a batch does (internal/app/persist_batch.go, internal/store/store.go). */
module RequestOrder {
  import opened Requests
  import opened Wrappers

  /** The five columns that both upserts merge; None is a value that replaces nothing. */
  datatype Columns = Columns(group: Option<string>, action: Option<string>, client: Option<string>,
                             requester: Option<int>, request: Option<string>)

  const NOTHING := Columns(None, None, None, None, None)

  function Valued(s: string): Option<string> {
    if s == "" then None else Some(s)
  }

  function ColumnsOf(item: Item): Columns {
    Columns(Valued(item.group), Valued(item.action), Valued(item.client), item.requester, NullableJson(item.request))
  }

  function Stored(f: Fields): Columns {
    Columns(Valued(f.group), Valued(f.action), Valued(f.client), f.requester, f.request)
  }

  /** Later values over earlier ones. */
  function Over(earlier: Columns, later: Columns): Columns {
    Columns(Coalesce(later.group, earlier.group), Coalesce(later.action, earlier.action),
            Coalesce(later.client, earlier.client), Coalesce(later.requester, earlier.requester),
            Coalesce(later.request, earlier.request))
  }

  function ValuesFor(op: LogOp, id: string): Columns {
    if op.item.id == id then ColumnsOf(op.item) else NOTHING
  }

  /** For each column of one request, the value of the last operation that has one. */
  function LastValues(ops: seq<LogOp>, id: string): Columns {
    if ops == [] then NOTHING
    else Over(ValuesFor(ops[0], id), LastValues(ops[1..], id))
  }

  /** The last value of every column of every request is that of a completion, if any completion has
      one: then it does not matter whether a create comes later. */
  ghost predicate CompletionsPrevail(ops: seq<LogOp>) {
    forall id: string :: LastValues(ops, id) == Over(LastValues(Creates(ops), id), LastValues(Completions(ops), id))
  }

  lemma OverAssociates(a: Columns, b: Columns, c: Columns)
    ensures Over(Over(a, b), c) == Over(a, Over(b, c))
  {
  }

  // ---- What the five columns hold after a run ----

  function StoredAt(log: Log, id: string): Columns {
    if id in log then Stored(log[id].fields) else NOTHING
  }

  lemma StoredAfterOne(log: Log, op: LogOp, id: string)
    ensures StoredAt(Do(log, op), id) ==
            Over(StoredAt(log, id), ValuesFor(op, id))
  {
  }

  lemma {:induction false} StoredAfter(log: Log, ops: seq<LogOp>, id: string)
    ensures StoredAt(RunLog(log, ops), id) == Over(StoredAt(log, id), LastValues(ops, id))
    decreases |ops|
  {
    if ops != [] {
      var first := ValuesFor(ops[0], id);
      StoredAfterOne(log, ops[0], id);
      StoredAfter(Do(log, ops[0]), ops[1..], id);
      OverAssociates(StoredAt(log, id), first, LastValues(ops[1..], id));
    }
  }

  // ---- Everything else does not depend on where the creates stand ----

  function WithoutColumns(r: RequestRow): RequestRow {
    r.(fields := r.fields.(group := "", action := "", client := "", requester := None, request := None))
  }

  ghost predicate SameButColumns(a: Log, b: Log) {
    a.Keys == b.Keys && forall id: string :: id in a ==> WithoutColumns(a[id]) == WithoutColumns(b[id])
  }

  lemma RespectsRest(a: Log, b: Log, op: LogOp)
    requires SameButColumns(a, b)
    ensures SameButColumns(Do(a, op), Do(b, op))
  {
  }

  lemma {:induction false} RunRespectsRest(a: Log, b: Log, ops: seq<LogOp>)
    requires SameButColumns(a, b)
    ensures SameButColumns(RunLog(a, ops), RunLog(b, ops))
    decreases |ops|
  {
    if ops != [] {
      RespectsRest(a, b, ops[0]);
      RunRespectsRest(Do(a, ops[0]), Do(b, ops[0]), ops[1..]);
    }
  }

  lemma RestCommutes(log: Log, completion: LogOp, create: LogOp)
    requires completion.completes && !create.completes
    ensures SameButColumns(Do(Do(log, completion), create), Do(Do(log, create), completion))
  {
    if create.item.id != completion.item.id {
      OtherRequestsCommute(log, create.item, completion.item, completion.now);
    }
  }

  lemma RestChains(a: Log, b: Log, c: Log)
    requires SameButColumns(a, b) && SameButColumns(b, c)
    ensures SameButColumns(a, c)
  {
  }

  lemma {:induction false} RestMovesBehind(log: Log, completion: LogOp, creates: seq<LogOp>)
    requires completion.completes && forall j :: 0 <= j < |creates| ==> !creates[j].completes
    ensures SameButColumns(RunLog(Do(log, completion), creates), Do(RunLog(log, creates), completion))
    decreases |creates|
  {
    if creates != [] {
      var create, rest := creates[0], creates[1..];
      RestCommutes(log, completion, create);
      RunRespectsRest(Do(Do(log, completion), create), Do(Do(log, create), completion), rest);
      RestMovesBehind(Do(log, create), completion, rest);
      RestChains(RunLog(Do(Do(log, completion), create), rest), RunLog(Do(Do(log, create), completion), rest),
                 Do(RunLog(Do(log, create), rest), completion));
    }
  }

  lemma {:induction false} OnlyCreates(ops: seq<LogOp>)
    ensures forall j :: 0 <= j < |Creates(ops)| ==> !Creates(ops)[j].completes
  {
    if ops != [] {
      OnlyCreates(ops[1..]);
    }
  }

  function CreatesFirstOf(ops: seq<LogOp>): seq<LogOp> {
    Creates(ops) + Completions(ops)
  }

  /** A leading completion among the creates first, or a leading create. */
  lemma HeadOfCreatesFirst(log: Log, ops: seq<LogOp>)
    requires ops != []
    ensures var rest := ops[1..];
      RunLog(log, CreatesFirstOf(ops)) ==
      if ops[0].completes then RunLog(Do(RunLog(log, Creates(rest)), ops[0]), Completions(rest))
      else RunLog(Do(log, ops[0]), CreatesFirstOf(rest))
  {
    var rest := ops[1..];
    RunLogConcat(log, Creates(ops), Completions(ops));
    if ops[0].completes {
      assert Creates(ops) == Creates(rest) && Completions(ops) == [ops[0]] + Completions(rest);
      assert ([ops[0]] + Completions(rest))[1..] == Completions(rest);
    } else {
      assert Creates(ops) == [ops[0]] + Creates(rest) && Completions(ops) == Completions(rest);
      assert ([ops[0]] + Creates(rest))[1..] == Creates(rest);
      RunLogConcat(Do(log, ops[0]), Creates(rest), Completions(rest));
    }
  }

  lemma {:induction false} RestIsTheSame(log: Log, ops: seq<LogOp>)
    ensures SameButColumns(RunLog(log, ops), RunLog(log, CreatesFirstOf(ops)))
    decreases |ops|
  {
    if ops != [] {
      var rest := ops[1..];
      HeadOfCreatesFirst(log, ops);
      RestIsTheSame(Do(log, ops[0]), rest);
      if ops[0].completes {
        OnlyCreates(rest);
        RestMovesBehind(log, ops[0], Creates(rest));
        RunLogConcat(Do(log, ops[0]), Creates(rest), Completions(rest));
        RunRespectsRest(RunLog(Do(log, ops[0]), Creates(rest)), Do(RunLog(log, Creates(rest)), ops[0]),
                        Completions(rest));
        RestChains(RunLog(log, ops), RunLog(Do(log, ops[0]), CreatesFirstOf(rest)), RunLog(log, CreatesFirstOf(ops)));
      }
    }
  }

  // ---- The columns decide ----

  predicate SameDefined(a: Columns, b: Columns) {
    a.group.Some? == b.group.Some? && a.action.Some? == b.action.Some? && a.client.Some? == b.client.Some? &&
    a.requester.Some? == b.requester.Some? && a.request.Some? == b.request.Some?
  }

  lemma {:induction false} LastValuesConcat(a: seq<LogOp>, b: seq<LogOp>, id: string)
    ensures LastValues(a + b, id) == Over(LastValues(a, id), LastValues(b, id))
  {
    if a == [] {
      assert a + b == b;
    } else {
      assert (a + b)[1..] == a[1..] + b;
      LastValuesConcat(a[1..], b, id);
      OverAssociates(ValuesFor(a[0], id), LastValues(a[1..], id), LastValues(b, id));
    }
  }

  lemma LastOfOne(op: LogOp, id: string)
    ensures LastValues([op], id) == ValuesFor(op, id)
  {
    assert [op][1..] == [];
  }

  lemma {:induction false} HeadValues(ops: seq<LogOp>, id: string)
    requires ops != []
    ensures var first, rest := ValuesFor(ops[0], id), ops[1..];
      LastValues(Creates(ops), id) ==
        (if ops[0].completes then LastValues(Creates(rest), id) else Over(first, LastValues(Creates(rest), id))) &&
      LastValues(Completions(ops), id) ==
        (if ops[0].completes then Over(first, LastValues(Completions(rest), id)) else LastValues(Completions(rest), id))
  {
    LastOfOne(ops[0], id);
    LastValuesConcat([ops[0]], Creates(ops[1..]), id);
    LastValuesConcat([ops[0]], Completions(ops[1..]), id);
    assert [] + Creates(ops[1..]) == Creates(ops[1..]) && [] + Completions(ops[1..]) == Completions(ops[1..]);
  }

  lemma SameDefinedOver(first: Columns, rest: Columns, creates: Columns, completions: Columns)
    requires SameDefined(rest, Over(creates, completions))
    ensures SameDefined(Over(first, rest), Over(Over(first, creates), completions))
    ensures SameDefined(Over(first, rest), Over(creates, Over(first, completions)))
  {
  }

  lemma {:induction false} SameDefinedEitherWay(ops: seq<LogOp>, id: string)
    ensures SameDefined(LastValues(ops, id), Over(LastValues(Creates(ops), id), LastValues(Completions(ops), id)))
  {
    if ops != [] {
      var rest := ops[1..];
      SameDefinedEitherWay(rest, id);
      HeadValues(ops, id);
      SameDefinedOver(ValuesFor(ops[0], id), LastValues(rest, id), LastValues(Creates(rest), id),
                      LastValues(Completions(rest), id));
    }
  }

  lemma OverIsInjective(base: Columns, a: Columns, b: Columns)
    requires SameDefined(a, b)
    ensures Over(base, a) == Over(base, b) <==> a == b
  {
  }

  lemma RowsFromParts(a: RequestRow, b: RequestRow)
    ensures a == b <==> WithoutColumns(a) == WithoutColumns(b) && Stored(a.fields) == Stored(b.fields)
  {
  }

  lemma SameRowExactly(log: Log, ops: seq<LogOp>, id: string)
    ensures var inOrder, creates := RunLog(log, ops), RunLog(log, CreatesFirstOf(ops));
      (id in inOrder <==> id in creates) &&
      ((id in inOrder ==> inOrder[id] == creates[id]) <==>
       LastValues(ops, id) == Over(LastValues(Creates(ops), id), LastValues(Completions(ops), id)))
  {
    var inOrder, creates := RunLog(log, ops), RunLog(log, CreatesFirstOf(ops));
    RestIsTheSame(log, ops);
    StoredAfter(log, ops, id);
    StoredAfter(log, CreatesFirstOf(ops), id);
    LastValuesConcat(Creates(ops), Completions(ops), id);
    SameDefinedEitherWay(ops, id);
    OverIsInjective(StoredAt(log, id), LastValues(ops, id), LastValues(CreatesFirstOf(ops), id));
    if id in inOrder {
      RowsFromParts(inOrder[id], creates[id]);
    }
  }

  /** Main result: running all creates first leaves the log of the given order exactly if, in every
      merged column of every request, no create overwrites an earlier completion's value. */
  lemma CreatesFirstExactly(log: Log, ops: seq<LogOp>)
    ensures RunLog(RunLog(log, Creates(ops)), Completions(ops)) == RunLog(log, ops) <==> CompletionsPrevail(ops)
  {
    RunLogConcat(log, Creates(ops), Completions(ops));
    forall id: string
      ensures var inOrder, creates := RunLog(log, ops), RunLog(log, CreatesFirstOf(ops));
        (id in inOrder <==> id in creates) &&
        ((id in inOrder ==> inOrder[id] == creates[id]) <==>
         LastValues(ops, id) == Over(LastValues(Creates(ops), id), LastValues(Completions(ops), id)))
    {
      SameRowExactly(log, ops, id);
    }
  }

  /** A batch that breaks it: a completion of a request, and a create of it with another group. */
  lemma LateCreateOverwrites(log: Log, completed: Item, created: Item, now: nat)
    requires completed.id == created.id && completed.group != created.group
    requires completed.group != "" && created.group != ""
    ensures var ops := [LogOp(true, completed, now), LogOp(false, created, now)];
      !CompletionsPrevail(ops) && RunLog(RunLog(log, Creates(ops)), Completions(ops)) != RunLog(log, ops)
  {
    var a, b := LogOp(true, completed, now), LogOp(false, created, now);
    var ops, id := [a, b], created.id;
    assert ops == [a] + [b];
    LastValuesConcat([a], [b], id);
    LastOfOne(a, id);
    LastOfOne(b, id);
    assert ops[1..] == [b] && [b][1..] == [];
    HeadValues(ops, id);
    HeadValues([b], id);
    assert LastValues(ops, id).group == Some(created.group);
    assert Over(LastValues(Creates(ops), id), LastValues(Completions(ops), id)).group == Some(completed.group);
    CreatesFirstExactly(log, ops);
  }
}
