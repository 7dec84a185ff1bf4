/** The job queue hands jobs out in the order in which they came, and none from its deadline on
    (internal/rpc/hub.go). */
module QueueOrder {
  import opened JobQueues
  import opened Sequences
  import opened Wrappers

  // ---- Subsequences ----

  /** a is b with some items left out. */
  predicate Sub(a: seq<Job>, b: seq<Job>) {
    a == [] || (b != [] && if a[0] == b[0] then Sub(a[1..], b[1..]) else Sub(a, b[1..]))
  }

  lemma {:induction false} SubDropFirst(a: seq<Job>, b: seq<Job>)
    requires a != [] && Sub(a, b)
    ensures Sub(a[1..], b)
    decreases |b|, 0
  {
    if a[0] == b[0] {
      SubMore(a[1..], b[0], b[1..]);
      assert b == [b[0]] + b[1..];
    } else {
      SubDropFirst(a, b[1..]);
      SubMore(a[1..], b[0], b[1..]);
      assert b == [b[0]] + b[1..];
    }
  }

  lemma {:induction false} SubMore(a: seq<Job>, x: Job, b: seq<Job>)
    requires Sub(a, b)
    ensures Sub(a, [x] + b)
    decreases |b|, 1
  {
    assert ([x] + b)[1..] == b;
    if a != [] && a[0] == x {
      SubDropFirst(a, b);
    }
  }

  lemma {:induction false} SubSame(a: seq<Job>)
    ensures Sub(a, a)
  {
    if a != [] {
      SubSame(a[1..]);
    }
  }

  lemma {:induction false} SubConcat(a: seq<Job>, b: seq<Job>, c: seq<Job>, d: seq<Job>)
    requires Sub(a, b) && Sub(c, d)
    ensures Sub(a + c, b + d)
    decreases |b|
  {
    if a == [] {
      assert a + c == c;
      SubBehind(c, b, d);
    } else {
      assert (b + d)[1..] == b[1..] + d;
      if a[0] == b[0] {
        assert (a + c)[1..] == a[1..] + c;
        SubConcat(a[1..], b[1..], c, d);
      } else {
        SubConcat(a, b[1..], c, d);
      }
    }
  }

  lemma {:induction false} SubBehind(c: seq<Job>, b: seq<Job>, d: seq<Job>)
    requires Sub(c, d)
    ensures Sub(c, b + d)
    decreases |b|
  {
    if b == [] {
      assert b + d == d;
    } else {
      SubBehind(c, b[1..], d);
      SubMore(c, b[0], b[1..] + d);
      assert b + d == [b[0]] + (b[1..] + d);
    }
  }

  lemma {:induction false} SubOfSub(a: seq<Job>, b: seq<Job>, c: seq<Job>)
    requires Sub(a, b) && Sub(b, c)
    ensures Sub(a, c)
    decreases |c|
  {
    if a != [] {
      if b[0] == c[0] {
        if a[0] == b[0] {
          SubOfSub(a[1..], b[1..], c[1..]);
        } else {
          SubOfSub(a, b[1..], c[1..]);
        }
      } else {
        SubOfSub(a, b, c[1..]);
        SubMore(a, c[0], c[1..]);
        assert c == [c[0]] + c[1..];
      }
    }
  }

  // ---- Runs ----

  /** The jobs that a run offers to the queue, in order. */
  function Offered(run: seq<Timed>): seq<Job> {
    if run == [] then [] else (if run[0].op.PushOp? then [run[0].op.job] else []) + Offered(run[1..])
  }

  /** The jobs that it hands out, in order. */
  function HandedOut(outcomes: seq<Outcome>): seq<Job> {
    if outcomes == [] then []
    else
      (if outcomes[0].Popped? && outcomes[0].job.Some? then [outcomes[0].job.value] else []) + HandedOut(outcomes[1..])
  }

  lemma {:induction false} LiveInOrder(items: seq<Job>, now: Time)
    ensures Sub(Live(items, now), items)
  {
    if items != [] {
      LiveInOrder(items[1..], now);
      if ExpiredAt(items[0], now) {
        SubMore(Live(items, now), items[0], items[1..]);
        assert items == [items[0]] + items[1..];
      }
    }
  }

  lemma {:induction false} SkipInOrder(items: seq<Job>, now: Time)
    ensures Sub(SkipExpired(items, now), items)
  {
    if items != [] && ExpiredAt(items[0], now) {
      SkipInOrder(items[1..], now);
      SubMore(SkipExpired(items, now), items[0], items[1..]);
      assert items == [items[0]] + items[1..];
    } else {
      SubSame(items);
    }
  }

  lemma {:induction false} PushInOrder(q: QueueState, job: Job, now: Time)
    ensures Sub(PushStep(q, job, now).0.items, q.items + [job])
  {
    SubSame(q.items);
    LiveInOrder(q.items, now);
    var kept := if |q.items| >= q.limit && !ExpiredAt(job, now) then Live(q.items, now) else q.items;
    SubConcat(kept, q.items, [job], [job]);
    SubConcat(kept, q.items, [], [job]);
    assert kept + [] == kept;
  }

  lemma {:induction false} PopInOrder(q: QueueState, now: Time)
    ensures var (q', job) := PopStep(q, now);
      Sub((if job.Some? then [job.value] else []) + q'.items, q.items)
  {
    SkipInOrder(q.items, now);
    var rest := SkipExpired(q.items, now);
    if rest != [] {
      assert rest == [rest[0]] + rest[1..];
    }
  }

  /** One step: what it hands out and what is left stand in the order of what was there and what came. */
  lemma StepInOrder(q: QueueState, t: Timed)
    ensures var (q', o) := LazyStep(q, t);
      Sub((if o.Popped? && o.job.Some? then [o.job.value] else []) + q'.items,
          q.items + (if t.op.PushOp? then [t.op.job] else []))
  {
    match t.op
    case PushOp(job) =>
      PushInOrder(q, job, t.now);
      var items := PushStep(q, job, t.now).0.items;
      assert [] + items == items;
    case PopOp =>
      PopInOrder(q, t.now);
      assert q.items + [] == q.items;
  }

  /** Main result, for any clock: the jobs handed out, followed by those still held, are the jobs held at first,
      followed by those offered, with some left out. So no job overtakes another. */
  lemma {:induction false} FirstInFirstOut(q: QueueState, run: seq<Timed>)
    ensures var (q', outcomes) := LazyRun(q, run);
      Sub(HandedOut(outcomes) + q'.items, q.items + Offered(run))
    decreases |run|
  {
    if run == [] {
      assert [] + q.items == q.items && q.items + [] == q.items;
      SubSame(q.items);
    } else {
      var (q1, o) := LazyStep(q, run[0]);
      var (q2, outcomes) := LazyRun(q1, run[1..]);
      assert LazyRun(q, run) == (q2, [o] + outcomes);
      var handed: seq<Job> := if o.Popped? && o.job.Some? then [o.job.value] else [];
      var offered: seq<Job> := if run[0].op.PushOp? then [run[0].op.job] else [];
      FirstInFirstOut(q1, run[1..]);
      StepInOrder(q, run[0]);
      assert ([o] + outcomes)[1..] == outcomes;
      assert HandedOut([o] + outcomes) == handed + HandedOut(outcomes);
      OneStepMore(handed, HandedOut(outcomes), q2.items, q1.items, q.items, offered, Offered(run[1..]));
    }
  }

  lemma OneStepMore(handed: seq<Job>, later: seq<Job>, left: seq<Job>, middle: seq<Job>, held: seq<Job>,
                    offered: seq<Job>, rest: seq<Job>)
    requires Sub(handed + middle, held + offered) && Sub(later + left, middle + rest)
    ensures Sub(handed + later + left, held + (offered + rest))
  {
    SubSame(handed);
    SubSame(rest);
    SubConcat(handed, handed, later + left, middle + rest);
    SubConcat(handed + middle, held + offered, rest, rest);
    Regroup(handed, later, left);
    Regroup(handed, middle, rest);
    Regroup(held, offered, rest);
    SubOfSub(handed + later + left, handed + middle + rest, held + (offered + rest));
  }

  /** A new queue is empty and holds at least one job. */
  lemma NewQueueHolds(limit: int)
    ensures NewQueue(limit) == QueueState([], if limit >= 1 then limit else 1, 0)
  {
  }

  // ---- Deadlines ----

  /** Main result: the only job of a queue is handed out exactly before its deadline, and a job is queued exactly
      if it is offered before its deadline and there is room. */
  lemma HandedOutBeforeDeadline(job: Job, limit: int, notify: nat, now: Time)
    requires limit >= 1
    ensures PopStep(QueueState([job], limit, notify), now).1 ==
            if job.deadlineAt.None? || now < job.deadlineAt.value then Some(job) else None
    ensures PushStep(QueueState([], limit, notify), job, now) ==
            if job.deadlineAt.None? || now < job.deadlineAt.value then (QueueState([job], limit, notify + 1), true)
            else (QueueState([], limit, notify), true)
  {
    assert [job][1..] == [] && [] + [job] == [job];
  }
}
