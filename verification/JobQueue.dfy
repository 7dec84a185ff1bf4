/** The bounded job queue that each client session owns (internal/rpc/hub.go, `jobQueue`).
    Expired jobs are not removed when they expire: `Pop` skips them when they reach the head,
    and `Push` throws them out only when the queue looks full. */
module JobQueues {
  import opened Sequences
  import opened Wrappers

  /** Nanoseconds on the server's clock. */
  type Time = nat

  /** `deadlineAt` is None for Go's zero time, which never expires. */
  datatype Job = Job(requestID: string, group: string, action: string, clientID: string,
                     payload: string, createdAt: Time, deadlineAt: Option<Time>)

  predicate ExpiredAt(job: Job, now: Time) {
    job.deadlineAt.Some? && now >= job.deadlineAt.value
  }

  /** `notify` counts how often the wake-up channel was closed and replaced. */
  datatype QueueState = QueueState(items: seq<Job>, limit: int, notify: nat)

  function NewQueue(limit: int): QueueState {
    QueueState([], if limit <= 0 then 1 else limit, 0)
  }

  /** The jobs of a queue that have not expired, in order. */
  function Live(items: seq<Job>, now: Time): seq<Job> {
    if items == [] then []
    else if ExpiredAt(items[0], now) then Live(items[1..], now)
    else [items[0]] + Live(items[1..], now)
  }

  /** The complement of `Live`. */
  function Dead(items: seq<Job>, now: Time): seq<Job> {
    if items == [] then []
    else if ExpiredAt(items[0], now) then [items[0]] + Dead(items[1..], now)
    else Dead(items[1..], now)
  }

  /** The queue from its first unexpired job on. */
  function SkipExpired(items: seq<Job>, now: Time): (rest: seq<Job>)
    ensures |rest| <= |items|
  {
    if items != [] && ExpiredAt(items[0], now) then SkipExpired(items[1..], now) else items
  }

  /** State after `Push` and whether it returned nil (as opposed to ErrClientQueueFull). */
  function PushStep(q: QueueState, job: Job, now: Time): (QueueState, bool) {
    if ExpiredAt(job, now) then (q, true)
    else
      var kept := if |q.items| >= q.limit then Live(q.items, now) else q.items;
      if |kept| >= q.limit then (q.(items := kept), false)
      else (q.(items := kept + [job], notify := q.notify + 1), true)
  }

  /** State after `popOrWaitLocked`; None means the caller parks on generation `q.notify`. */
  function PopStep(q: QueueState, now: Time): (QueueState, Option<Job>) {
    var rest := SkipExpired(q.items, now);
    if rest == [] then (q.(items := []), None)
    else (q.(items := rest[1..]), Some(rest[0]))
  }

  class JobQueue {
    var items: seq<Job>
    var count: int
    var notify: nat
    const limit: int

    ghost predicate Valid()
      reads this
    {
      count == |items| <= limit && 1 <= limit
    }

    ghost function State(): QueueState
      reads this
    {
      QueueState(items, limit, notify)
    }

    constructor (limit: int)
      ensures Valid() && State() == NewQueue(limit)
    {
      this.limit := if limit <= 0 then 1 else limit;
      items, count, notify := [], 0, 0;
    }

    method Push(job: Job, now: Time) returns (accepted: bool)
      requires Valid()
      modifies this
      ensures Valid()
      ensures (State(), accepted) == PushStep(old(State()), job, now)
    {
      if ExpiredAt(job, now) {
        return true;
      }
      if count >= limit {
        PruneExpired(now);
        if count >= limit {
          return false;
        }
      }
      items := items + [job];
      count := count + 1;
      Signal();
      return true;
    }

    method PopOrWait(now: Time) returns (job: Option<Job>, parkedOn: nat)
      requires Valid()
      modifies this
      ensures Valid()
      ensures (State(), job) == PopStep(old(State()), now)
      ensures parkedOn == notify
    {
      while |items| > 0
        invariant Valid() && notify == old(notify)
        invariant SkipExpired(items, now) == SkipExpired(old(items), now)
        decreases |items|
      {
        var head := items[0];
        items := items[1..];
        count := count - 1;
        if ExpiredAt(head, now) {
          continue;
        }
        return Some(head), notify;
      }
      return None, notify;
    }

    method PruneExpired(now: Time)
      requires Valid()
      modifies this
      ensures Valid()
      ensures State() == old(State()).(items := Live(old(items), now))
    {
      if |items| == 0 {
        return;
      }
      var filtered: seq<Job> := [];
      for i := 0 to |items|
        invariant Valid() && items == old(items) && notify == old(notify)
        invariant |filtered| <= i
        invariant filtered + Live(items[i..], now) == Live(items, now)
      {
        assert items[i..][1..] == items[i + 1..];
        if ExpiredAt(items[i], now) {
          continue;
        }
        MoveNext(filtered, items[i], Live(items[i + 1..], now));
        filtered := filtered + [items[i]];
      }
      items := filtered;
      count := |filtered|;
    }

    method Signal()
      modifies this
      ensures items == old(items) && count == old(count) && notify == old(notify) + 1
    {
      notify := notify + 1;
    }
  }

  // ---- Properties of the filters ----

  lemma {:induction false} LiveConcat(a: seq<Job>, b: seq<Job>, now: Time)
    ensures Live(a + b, now) == Live(a, now) + Live(b, now)
  {
    if a == [] {
      assert a + b == b;
    } else {
      assert (a + b)[1..] == a[1..] + b;
      LiveConcat(a[1..], b, now);
    }
  }

  /** Filtering early loses nothing that a later filter would keep. */
  lemma {:induction false} LiveLater(items: seq<Job>, early: Time, late: Time)
    requires early <= late
    ensures Live(Live(items, early), late) == Live(items, late)
  {
    if items != [] {
      LiveLater(items[1..], early, late);
      if !ExpiredAt(items[0], early) {
        assert Live(items, early)[1..] == Live(items[1..], early);
      }
    }
  }

  lemma {:induction false} LiveFacts(items: seq<Job>, now: Time)
    ensures |Live(items, now)| <= |items|
    ensures multiset(items) == multiset(Live(items, now)) + multiset(Dead(items, now))
    ensures forall job :: job in Dead(items, now) ==> ExpiredAt(job, now)
    ensures forall job :: job in Live(items, now) ==> !ExpiredAt(job, now)
  {
    if items != [] {
      LiveFacts(items[1..], now);
      assert items == [items[0]] + items[1..];
    }
  }

  lemma {:induction false} SkipExpiredIsLive(items: seq<Job>, now: Time)
    ensures var rest := SkipExpired(items, now);
      && Live(rest, now) == Live(items, now)
      && (rest == [] <==> Live(items, now) == [])
      && (rest != [] ==> Live(items, now) == [rest[0]] + Live(rest[1..], now))
  {
    if items != [] && ExpiredAt(items[0], now) {
      SkipExpiredIsLive(items[1..], now);
    }
  }

  // ---- One step: which jobs are accepted, and in which order they leave ----

  /** `Push` of a live job is refused exactly when `limit` unexpired jobs are already held,
      whatever number of expired ones the queue still carries. */
  lemma PushAcceptsIffRoom(q: QueueState, job: Job, now: Time)
    requires |q.items| <= q.limit && !ExpiredAt(job, now)
    ensures PushStep(q, job, now).1 <==> |Live(q.items, now)| < q.limit
    ensures PushStep(q, job, now).1 ==> Live(PushStep(q, job, now).0.items, now) == Live(q.items, now) + [job]
    ensures !PushStep(q, job, now).1 ==> PushStep(q, job, now).0 == q
  {
    LiveFacts(q.items, now);
    LiveLater(q.items, now, now);
    LiveConcat(q.items, [job], now);
    LiveConcat(Live(q.items, now), [job], now);
    if |Live(q.items, now)| == |q.items| {
      LiveAll(q.items, now);
    }
  }

  lemma {:induction false} LiveAll(items: seq<Job>, now: Time)
    requires |Live(items, now)| == |items|
    ensures Live(items, now) == items
  {
    if items != [] {
      LiveFacts(items[1..], now);
      LiveAll(items[1..], now);
    }
  }

  // ---- Whole runs: the lazy queue against one that never holds an expired job ----

  datatype Op = PushOp(job: Job) | PopOp

  datatype Outcome = Pushed(accepted: bool) | Popped(job: Option<Job>)

  datatype Timed = Timed(op: Op, now: Time)

  function LazyStep(q: QueueState, t: Timed): (QueueState, Outcome) {
    match t.op
    case PushOp(job) => var (q', ok) := PushStep(q, job, t.now); (q', Pushed(ok))
    case PopOp => var (q', job) := PopStep(q, t.now); (q', Popped(job))
  }

  /** The reference: expired jobs leave the moment the clock passes their deadline. */
  function EagerStep(live: seq<Job>, limit: int, t: Timed): (seq<Job>, Outcome) {
    var held := Live(live, t.now);
    match t.op
    case PushOp(job) =>
      if ExpiredAt(job, t.now) then (held, Pushed(true))
      else if |held| >= limit then (held, Pushed(false))
      else (held + [job], Pushed(true))
    case PopOp =>
      if held == [] then ([], Popped(None)) else (held[1..], Popped(Some(held[0])))
  }

  function LazyRun(q: QueueState, run: seq<Timed>): (QueueState, seq<Outcome>)
    decreases |run|
  {
    if run == [] then (q, [])
    else
      var (q1, o) := LazyStep(q, run[0]);
      var (q2, os) := LazyRun(q1, run[1..]);
      (q2, [o] + os)
  }

  function EagerRun(live: seq<Job>, limit: int, run: seq<Timed>): (seq<Job>, seq<Outcome>)
    decreases |run|
  {
    if run == [] then (live, [])
    else
      var (l1, o) := EagerStep(live, limit, run[0]);
      var (l2, os) := EagerRun(l1, limit, run[1..]);
      (l2, [o] + os)
  }

  predicate ClockFrom(start: Time, run: seq<Timed>)
    decreases |run|
  {
    run == [] || (start <= run[0].now && ClockFrom(run[0].now, run[1..]))
  }

  lemma StepRefines(q: QueueState, live: seq<Job>, since: Time, t: Timed)
    requires |q.items| <= q.limit && since <= t.now
    requires Live(q.items, since) == Live(live, since)
    ensures var (q', o) := LazyStep(q, t);
      var (live', o') := EagerStep(live, q.limit, t);
      o == o' && q'.limit == q.limit && |q'.items| <= q.limit && Live(q'.items, t.now) == Live(live', t.now)
  {
    LiveLater(q.items, since, t.now);
    LiveLater(live, since, t.now);
    LiveFacts(q.items, t.now);
    LiveLater(live, t.now, t.now);
    match t.op
    case PushOp(job) =>
      if !ExpiredAt(job, t.now) {
        PushAcceptsIffRoom(q, job, t.now);
        LiveConcat(Live(live, t.now), [job], t.now);
      }
    case PopOp =>
      SkipExpiredIsLive(q.items, t.now);
      SkipExpiredSuffix(q.items, t.now);
      var held := Live(live, t.now);
      if held != [] {
        LiveTail(live, t.now);
      }
  }

  lemma {:induction false} LiveTail(items: seq<Job>, now: Time)
    requires Live(items, now) != []
    ensures Live(Live(items, now)[1..], now) == Live(items, now)[1..]
  {
    var held := Live(items, now);
    LiveLater(items, now, now);
    assert held == [held[0]] + held[1..];
    LiveConcat([held[0]], held[1..], now);
    LiveFacts(items, now);
    assert Live([held[0]], now) == [held[0]];
  }

  /** Main result: with a clock that never runs backwards, no caller can tell the lazy queue
      from one that drops every job at its deadline, over any run of pushes and pops. */
  lemma {:induction false} LazyRefinesEager(q: QueueState, live: seq<Job>, since: Time, run: seq<Timed>)
    requires |q.items| <= q.limit
    requires Live(q.items, since) == Live(live, since)
    requires ClockFrom(since, run)
    ensures LazyRun(q, run).1 == EagerRun(live, q.limit, run).1
    decreases |run|
  {
    if run != [] {
      StepRefines(q, live, since, run[0]);
      LazyRefinesEager(LazyStep(q, run[0]).0, EagerStep(live, q.limit, run[0]).0, run[0].now, run[1..]);
    }
  }

  /** `Push` reads the clock before it takes the lock, so its reading can be older than one that
      another caller has already used. Then the two queues can be told apart: here the last push
      is refused although the only job held expired at 5 and the clock has already shown 6. */
  lemma StaleClockIsVisible(a: Job, x: Job, b: Job)
    requires a.deadlineAt == Some(5) && x.deadlineAt == Some(5) && b.deadlineAt == None
    ensures var run := [Timed(PushOp(a), 0), Timed(PushOp(x), 6), Timed(PushOp(b), 1)];
      && LazyRun(NewQueue(1), run).1 == [Pushed(true), Pushed(true), Pushed(false)]
      && EagerRun([], 1, run).1 == [Pushed(true), Pushed(true), Pushed(true)]
  {
    var run := [Timed(PushOp(a), 0), Timed(PushOp(x), 6), Timed(PushOp(b), 1)];
    var tail := [Timed(PushOp(x), 6), Timed(PushOp(b), 1)];
    var last := [Timed(PushOp(b), 1)];
    assert run[1..] == tail && tail[1..] == last && last[1..] == [];
    var q := QueueState([a], 1, 1);
    assert Live([a], 1) == [a] && Live([a], 6) == [];
    assert [] + [a] == [a];
    assert LazyStep(NewQueue(1), run[0]) == (q, Pushed(true));
    assert LazyRun(q, last).1 == [Pushed(false)];
    assert LazyRun(q, tail).1 == [Pushed(true)] + LazyRun(q, last).1;
    assert EagerStep([], 1, run[0]) == ([a], Pushed(true));
    assert EagerStep([a], 1, tail[0]) == ([], Pushed(true));
    assert EagerRun([], 1, last).1 == [Pushed(true)];
  }

  // ---- Conservation ----

  /** The jobs that a step throws away because they have expired. */
  function Dropped(q: QueueState, t: Timed): seq<Job> {
    match t.op
    case PushOp(job) =>
      if ExpiredAt(job, t.now) then [job]
      else if |q.items| >= q.limit then Dead(q.items, t.now) else []
    case PopOp => q.items[..|q.items| - |SkipExpired(q.items, t.now)|]
  }

  function Entered(t: Timed, o: Outcome): seq<Job> {
    if t.op.PushOp? && o == Pushed(true) then [t.op.job] else []
  }

  function Handed(o: Outcome): seq<Job> {
    if o.Popped? && o.job.Some? then [o.job.value] else []
  }

  /** Everything a run took in, handed out and threw away. */
  datatype Ledger = Ledger(entered: multiset<Job>, handed: multiset<Job>, dropped: multiset<Job>)

  function LedgerOf(q: QueueState, run: seq<Timed>): Ledger
    decreases |run|
  {
    if run == [] then Ledger(multiset{}, multiset{}, multiset{})
    else
      var (q1, o) := LazyStep(q, run[0]);
      var rest := LedgerOf(q1, run[1..]);
      Ledger(multiset(Entered(run[0], o)) + rest.entered,
             multiset(Handed(o)) + rest.handed,
             multiset(Dropped(q, run[0])) + rest.dropped)
  }

  lemma {:induction false} SkipExpiredSuffix(items: seq<Job>, now: Time)
    ensures |SkipExpired(items, now)| <= |items|
    ensures items[|items| - |SkipExpired(items, now)|..] == SkipExpired(items, now)
    ensures forall job :: job in items[..|items| - |SkipExpired(items, now)|] ==> ExpiredAt(job, now)
  {
    if items != [] && ExpiredAt(items[0], now) {
      SkipExpiredSuffix(items[1..], now);
      var k := |items| - |SkipExpired(items, now)|;
      assert items[..k] == [items[0]] + items[1..][..k - 1];
    }
  }

  lemma PushConserves(q: QueueState, job: Job, now: Time)
    ensures var t := Timed(PushOp(job), now); var (q', ok) := PushStep(q, job, now);
      multiset(q.items) + multiset(Entered(t, Pushed(ok))) == multiset(q'.items) + multiset(Dropped(q, t))
    ensures forall d :: d in Dropped(q, Timed(PushOp(job), now)) ==> ExpiredAt(d, now)
  {
    LiveFacts(q.items, now);
    var kept := if |q.items| >= q.limit then Live(q.items, now) else q.items;
    assert multiset(kept + [job]) == multiset(kept) + multiset([job]);
  }

  lemma PopConserves(q: QueueState, now: Time)
    ensures var t := Timed(PopOp, now); var (q', job) := PopStep(q, now);
      multiset(q.items) == multiset(q'.items) + multiset(Handed(Popped(job))) + multiset(Dropped(q, t))
    ensures forall d :: d in Dropped(q, Timed(PopOp, now)) ==> ExpiredAt(d, now)
  {
    SkipExpiredSuffix(q.items, now);
    var rest := SkipExpired(q.items, now);
    var gone := q.items[..|q.items| - |rest|];
    assert q.items == gone + rest;
    if rest != [] {
      assert rest == [rest[0]] + rest[1..];
    }
  }

  lemma StepConserves(q: QueueState, t: Timed)
    ensures var (q', o) := LazyStep(q, t);
      multiset(q.items) + multiset(Entered(t, o)) == multiset(q'.items) + multiset(Handed(o)) + multiset(Dropped(q, t))
    ensures forall job :: job in Dropped(q, t) ==> ExpiredAt(job, t.now)
  {
    match t.op
    case PushOp(job) => PushConserves(q, job, t.now);
    case PopOp => PopConserves(q, t.now);
  }

  lemma AddLedgers(before: multiset<Job>, middle: multiset<Job>, after: multiset<Job>, first: Ledger, rest: Ledger)
    requires before + first.entered == middle + first.handed + first.dropped
    requires middle + rest.entered == after + rest.handed + rest.dropped
    ensures before + (first.entered + rest.entered)
         == after + (first.handed + rest.handed) + (first.dropped + rest.dropped)
  {
    forall job: Job
      ensures (before + (first.entered + rest.entered))[job]
           == (after + (first.handed + rest.handed) + (first.dropped + rest.dropped))[job]
    {
      assert (before + first.entered)[job] == (middle + first.handed + first.dropped)[job];
      assert (middle + rest.entered)[job] == (after + rest.handed + rest.dropped)[job];
    }
  }

  /** Main result, for any clock: each accepted job is still queued, was handed out once, or was
      dropped, with exact multiplicities. */
  lemma {:induction false} JobsAreConserved(q: QueueState, run: seq<Timed>)
    ensures var l := LedgerOf(q, run);
      multiset(q.items) + l.entered == multiset(LazyRun(q, run).0.items) + l.handed + l.dropped
    decreases |run|
  {
    if run != [] {
      var q1 := LazyStep(q, run[0]).0;
      var o := LazyStep(q, run[0]).1;
      var rest := LedgerOf(q1, run[1..]);
      StepConserves(q, run[0]);
      JobsAreConserved(q1, run[1..]);
      AddLedgers(multiset(q.items), multiset(q1.items), multiset(LazyRun(q1, run[1..]).0.items),
                 Ledger(multiset(Entered(run[0], o)), multiset(Handed(o)), multiset(Dropped(q, run[0]))), rest);
    }
  }

  lemma {:induction false} OnlyExpiredJobsAreDropped(q: QueueState, run: seq<Timed>, job: Job)
    requires job in LedgerOf(q, run).dropped
    ensures exists i :: 0 <= i < |run| && ExpiredAt(job, run[i].now)
    decreases |run|
  {
    StepConserves(q, run[0]);
    if job in Dropped(q, run[0]) {
      assert ExpiredAt(job, run[0].now);
    } else {
      OnlyExpiredJobsAreDropped(LazyStep(q, run[0]).0, run[1..], job);
      var i :| 0 <= i < |run[1..]| && ExpiredAt(job, run[1..][i].now);
      assert run[i + 1] == run[1..][i];
    }
  }
}
