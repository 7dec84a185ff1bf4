/** Which clock readings let a caller tell the lazy queue from one that drops every job at its
    deadline (internal/rpc/hub.go, `jobQueue`). `Push` reads the clock before it takes the lock, so
    readings need not come in order. */
module QueueClocks {
  import opened JobQueues
  import opened Wrappers

  function AtTimes(ops: seq<Op>, times: seq<Time>): seq<Timed>
    requires |ops| == |times|
  {
    seq(|ops|, i requires 0 <= i < |ops| => Timed(ops[i], times[i]))
  }

  /** Both queues give the same answers, from the same jobs. */
  predicate SameOutcomes(q: QueueState, ops: seq<Op>, times: seq<Time>)
    requires |ops| == |times|
  {
    LazyRun(q, AtTimes(ops, times)).1 == EagerRun(q.items, q.limit, AtTimes(ops, times)).1
  }

  predicate InOrder(times: seq<Time>) {
    forall i :: 0 <= i < |times| - 1 ==> times[i] <= times[i + 1]
  }

  /** `Pop` reads the clock under the lock, so only a reading of `Push` can be behind another one. */
  predicate OnlyPushesLag(ops: seq<Op>, times: seq<Time>)
    requires |ops| == |times|
  {
    forall i, j :: 0 <= i < j < |ops| && ops[j].PopOp? ==> times[i] <= times[j]
  }

  // ---- Readings in order ----

  lemma {:induction false} InOrderIsClock(start: Time, run: seq<Timed>)
    requires forall i :: 0 <= i < |run| - 1 ==> run[i].now <= run[i + 1].now
    requires run == [] || start <= run[0].now
    ensures ClockFrom(start, run)
    decreases |run|
  {
    if run != [] {
      InOrderIsClock(run[0].now, run[1..]);
    }
  }

  lemma OrderedRunsAgree(q: QueueState, ops: seq<Op>, times: seq<Time>)
    requires |ops| == |times| && |q.items| <= q.limit && InOrder(times)
    ensures SameOutcomes(q, ops, times)
  {
    InOrderIsClock(0, AtTimes(ops, times));
    LazyRefinesEager(q, q.items, 0, AtTimes(ops, times));
  }

  // ---- A reading that falls back ----

  function Until(deadline: Option<Time>): Job {
    Job("", "", "", "", "", 0, deadline)
  }

  const DEAD := PushOp(Until(Some(0)))
  const FRESH := PushOp(Until(None))

  /** Pushes of a job that expired long ago, but for one push of a job without a deadline. */
  function PushesBut(n: nat, k: nat): seq<Op> {
    seq(n, i => if i == k then FRESH else DEAD)
  }

  lemma LiveOne(job: Job, now: Time)
    ensures Live([job], now) == if ExpiredAt(job, now) then [] else [job]
  {
  }

  /** The only job held expires at `deadline`. A reading at or after it empties the eager queue; a
      later push whose reading is before it finds the lazy queue full. */
  lemma {:induction false} FallIsVisible(q: QueueState, live: seq<Job>, run: seq<Timed>, deadline: Time, i: int, k: nat)
    requires q.items == [Until(Some(deadline))] && q.limit == 1 && (live == q.items || live == [])
    requires k < |run| && run[k].op == FRESH && run[k].now < deadline
    requires forall m :: 0 <= m < k ==> run[m].op == DEAD
    requires live == [] || (0 <= i < k && run[i].now >= deadline)
    ensures LazyRun(q, run).1 != EagerRun(live, 1, run).1
    decreases k
  {
    var (q1, o1) := LazyStep(q, run[0]);
    var (l1, o2) := EagerStep(live, 1, run[0]);
    LiveOne(Until(Some(deadline)), run[0].now);
    if k == 0 {
      assert o1 == Pushed(false) && o2 == Pushed(true);
    } else {
      assert q1 == q && o1 == o2 == Pushed(true);
      FallIsVisible(q1, l1, run[1..], deadline, i - 1, k - 1);
    }
    FirstAnswer(q, live, run);
  }

  /** Two runs that start alike differ if they differ later, and runs that start differently differ. */
  lemma FirstAnswer(q: QueueState, live: seq<Job>, run: seq<Timed>)
    requires run != []
    ensures var (q1, o1) := LazyStep(q, run[0]);
            var (l1, o2) := EagerStep(live, q.limit, run[0]);
            LazyRun(q, run).1 == EagerRun(live, q.limit, run).1 <==>
            (o1 == o2 && LazyRun(q1, run[1..]).1 == EagerRun(l1, q.limit, run[1..]).1)
  {
    var (q1, o1) := LazyStep(q, run[0]);
    var (l1, o2) := EagerStep(live, q.limit, run[0]);
    SameHeads(o1, LazyRun(q1, run[1..]).1, o2, EagerRun(l1, q.limit, run[1..]).1);
  }

  lemma SameHeads(a: Outcome, later: seq<Outcome>, b: Outcome, later': seq<Outcome>)
    ensures [a] + later == [b] + later' <==> a == b && later == later'
  {
    if [a] + later == [b] + later' {
      assert ([a] + later)[0] == ([b] + later')[0];
      assert ([a] + later)[1..] == later && ([b] + later')[1..] == later';
    }
  }

  lemma FallSeparates(times: seq<Time>, i: nat) returns (q: QueueState, ops: seq<Op>)
    requires i + 1 < |times| && times[i + 1] < times[i]
    ensures |q.items| <= q.limit && |ops| == |times| && OnlyPushesLag(ops, times) && !SameOutcomes(q, ops, times)
  {
    q, ops := QueueState([Until(Some(times[i]))], 1, 0), PushesBut(|times|, i + 1);
    FallIsVisible(q, q.items, AtTimes(ops, times), times[i], i, i + 1);
  }

  /** Main result: for given clock readings, both queues agree in all operations from all states,
      also if only pushes may lag, exactly if the readings are in order. */
  lemma AgreeExactlyInOrder(times: seq<Time>)
    ensures InOrder(times) <==>
      forall q: QueueState, ops: seq<Op> :: |q.items| <= q.limit && |ops| == |times| ==> SameOutcomes(q, ops, times)
    ensures InOrder(times) <==>
      forall q: QueueState, ops: seq<Op> ::
        |q.items| <= q.limit && |ops| == |times| && OnlyPushesLag(ops, times) ==> SameOutcomes(q, ops, times)
  {
    if InOrder(times) {
      forall q: QueueState, ops: seq<Op> | |q.items| <= q.limit && |ops| == |times|
        ensures SameOutcomes(q, ops, times)
      {
        OrderedRunsAgree(q, ops, times);
      }
    } else {
      var i: nat :| i < |times| - 1 && times[i] > times[i + 1];
      var q, ops := FallSeparates(times, i);
    }
  }

  // ---- From a new queue ----

  /** Readings may fall at first; once one is above an earlier one, none falls below it again. */
  predicate Valley(times: seq<Time>) {
    forall j, i, k :: 0 <= j < i < k < |times| && times[j] < times[i] ==> times[k] >= times[i]
  }

  /** Nothing held has expired yet at `since`, and both queues hold the same. */
  predicate AllLive(q: QueueState, live: seq<Job>, since: Time) {
    q.items == live && Live(live, since) == live
  }

  lemma {:induction false} LiveEarlier(items: seq<Job>, early: Time, late: Time)
    requires early <= late && Live(items, late) == items
    ensures Live(items, early) == items
  {
    if items != [] {
      LiveFacts(items[1..], late);
      LiveEarlier(items[1..], early, late);
    }
  }

  lemma FallKeepsAllLive(q: QueueState, live: seq<Job>, since: Time, t: Timed)
    requires |q.items| <= q.limit && AllLive(q, live, since) && t.now <= since
    ensures var (q', o) := LazyStep(q, t); var (live', o') := EagerStep(live, q.limit, t);
      o == o' && q'.limit == q.limit && |q'.items| <= q.limit && AllLive(q', live', t.now)
  {
    LiveEarlier(live, t.now, since);
    match t.op
    case PushOp(job) =>
      LiveConcat(live, [job], t.now);
    case PopOp =>
      SkipExpiredIsLive(live, t.now);
      if live != [] {
        LiveTail(live, t.now);
      }
  }

  lemma ValleyTail(times: seq<Time>)
    requires Valley(times) && |times| > 0
    ensures Valley(times[1..])
    ensures |times| > 1 && times[0] < times[1] ==> InOrder(times)
  {
    var tail := times[1..];
    forall j, i, k | 0 <= j < i < k < |tail| && tail[j] < tail[i] ensures tail[k] >= tail[i] {
      assert times[j + 1] == tail[j] && times[i + 1] == tail[i] && times[k + 1] == tail[k];
    }
    if |times| > 1 && times[0] < times[1] {
      forall m | 0 <= m < |times| - 1 ensures times[m] <= times[m + 1] {
        if m >= 1 {
          assert m == 1 || times[m] >= times[1];
        }
      }
    }
  }

  lemma RisenRunsAgree(q: QueueState, live: seq<Job>, since: Time, ops: seq<Op>, times: seq<Time>)
    requires |ops| == |times| && |q.items| <= q.limit && AllLive(q, live, since)
    requires times != [] && InOrder([since] + times)
    ensures LazyRun(q, AtTimes(ops, times)).1 == EagerRun(live, q.limit, AtTimes(ops, times)).1
  {
    var run, extended := AtTimes(ops, times), [since] + times;
    forall i | 0 <= i < |run| - 1 ensures run[i].now <= run[i + 1].now {
      assert extended[i + 1] <= extended[i + 2];
    }
    assert extended[0] <= extended[1];
    InOrderIsClock(since, run);
    LazyRefinesEager(q, live, since, run);
  }

  lemma TailOf(since: Time, ops: seq<Op>, times: seq<Time>)
    requires |ops| == |times| && times != []
    ensures AtTimes(ops, times)[0] == Timed(ops[0], times[0])
    ensures AtTimes(ops, times)[1..] == AtTimes(ops[1..], times[1..])
    ensures ([since] + times)[1..] == [times[0]] + times[1..]
  {
  }

  lemma {:induction false} ValleyRunsAgree(q: QueueState, live: seq<Job>, since: Time, ops: seq<Op>, times: seq<Time>)
    requires |ops| == |times| && |q.items| <= q.limit && AllLive(q, live, since) && Valley([since] + times)
    ensures LazyRun(q, AtTimes(ops, times)).1 == EagerRun(live, q.limit, AtTimes(ops, times)).1
    decreases |times|
  {
    if times != [] {
      ValleyTail([since] + times);
      if since < times[0] {
        RisenRunsAgree(q, live, since, ops, times);
      } else {
        var first := Timed(ops[0], times[0]);
        FallKeepsAllLive(q, live, since, first);
        TailOf(since, ops, times);
        ValleyRunsAgree(LazyStep(q, first).0, EagerStep(live, q.limit, first).0, times[0], ops[1..], times[1..]);
        FirstAnswer(q, live, AtTimes(ops, times));
      }
    }
  }

  /** A job pushed before the peak that expires at it, and a push after it. */
  lemma {:induction false} PeakIsVisible(q: QueueState, run: seq<Timed>, deadline: Time, j: nat, i: nat, k: nat)
    requires q.items == [] && q.limit == 1 && j < i < k < |run|
    requires run[j].now < deadline && run[i].now >= deadline && run[k].now < deadline
    requires run[j].op == PushOp(Until(Some(deadline))) && run[k].op == FRESH
    requires forall m :: 0 <= m < k && m != j ==> run[m].op == DEAD
    ensures LazyRun(q, run).1 != EagerRun([], 1, run).1
    decreases j
  {
    var (q1, o1) := LazyStep(q, run[0]);
    var (l1, o2) := EagerStep([], 1, run[0]);
    assert [] + [Until(Some(deadline))] == [Until(Some(deadline))];
    assert o1 == o2 == Pushed(true);
    if j == 0 {
      FallIsVisible(q1, l1, run[1..], deadline, i - 1, k - 1);
    } else {
      PeakIsVisible(q1, run[1..], deadline, j - 1, i - 1, k - 1);
    }
    FirstAnswer(q, [], run);
  }

  lemma PeakSeparates(times: seq<Time>, j: nat, i: nat, k: nat) returns (ops: seq<Op>)
    requires j < i < k < |times| && times[j] < times[i] && times[k] < times[i]
    ensures |ops| == |times| && OnlyPushesLag(ops, times) && !SameOutcomes(NewQueue(1), ops, times)
  {
    ops := PushesBut(|times|, k)[j := PushOp(Until(Some(times[i])))];
    PeakIsVisible(NewQueue(1), AtTimes(ops, times), times[i], j, i, k);
  }

  /** Main result for a queue that starts empty: both queues agree in all operations, under every
      limit, exactly if no reading falls below an earlier one that had itself risen. */
  lemma NewQueuesAgreeExactlyInValleys(times: seq<Time>)
    ensures Valley(times) <==>
      forall limit: int, ops: seq<Op> ::
        |ops| == |times| && OnlyPushesLag(ops, times) ==> SameOutcomes(NewQueue(limit), ops, times)
    ensures Valley(times) <==>
      forall limit: int, ops: seq<Op> :: |ops| == |times| ==> SameOutcomes(NewQueue(limit), ops, times)
  {
    if Valley(times) {
      forall limit: int, ops: seq<Op> | |ops| == |times| ensures SameOutcomes(NewQueue(limit), ops, times) {
        if times != [] {
          var extended := [times[0]] + times;
          forall j, i, k | 0 <= j < i < k < |extended| && extended[j] < extended[i] ensures extended[k] >= extended[i] {
            assert extended[i] == times[i - 1] && extended[k] == times[k - 1];
            assert extended[j] == times[if j == 0 then 0 else j - 1];
          }
          ValleyRunsAgree(NewQueue(limit), [], times[0], ops, times);
        }
      }
    } else {
      var j: nat, i: nat, k: nat :| j < i < k < |times| && times[j] < times[i] && times[k] < times[i];
      var ops := PeakSeparates(times, j, i, k);
    }
  }
}
