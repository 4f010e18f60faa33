/**
 The bounded queue with its drop policy, and the single worker's retry loop.
 */
module Dispatcher {
  import opened Deliveries

  /** One message owed to one channel, against one recorded delivery. */
  datatype Job = Job(id: int, channel: string, kind: Kind)

  // ---------- the queue ----------

  function FirstOf(jobs: seq<Job>, kind: Kind): (i: nat)
    ensures i <= |jobs|
    ensures i < |jobs| ==> jobs[i].kind == kind
    ensures forall k :: 0 <= k < i ==> jobs[k].kind != kind
  {
    if jobs == [] || jobs[0].kind == kind then 0 else 1 + FirstOf(jobs[1..], kind)
  }

  /** Which queued job a full queue gives up: the oldest reminder, else the oldest fired, else the oldest. */
  function Victim(jobs: seq<Job>): (i: nat)
    requires jobs != []
    ensures i < |jobs|
  {
    if FirstOf(jobs, Reminder) < |jobs| then FirstOf(jobs, Reminder)
    else if FirstOf(jobs, Fired) < |jobs| then FirstOf(jobs, Fired)
    else 0
  }

  function Without(jobs: seq<Job>, i: nat): seq<Job>
    requires i < |jobs|
  {
    jobs[..i] + jobs[i + 1..]
  }

  /** The queue once j has entered it, and what it gave up. */
  function Entered(jobs: seq<Job>, cap: nat, j: Job): (seq<Job>, seq<Job>) {
    if |jobs| >= cap && jobs != [] then (Without(jobs, Victim(jobs)) + [j], [jobs[Victim(jobs)]]) else (jobs + [j], [])
  }

  function EnteredAll(jobs: seq<Job>, cap: nat, batch: seq<Job>): (seq<Job>, seq<Job>) {
    if batch == [] then (jobs, [])
    else
      var n := |batch| - 1;
      var (before, lost) := EnteredAll(jobs, cap, batch[..n]);
      var (after, more) := Entered(before, cap, batch[n]);
      (after, lost + more)
  }

  function FailAll(rows: Rows, dropped: seq<Job>, now: int): Rows {
    if dropped == [] then rows
    else
      var n := |dropped| - 1;
      Closed(FailAll(rows, dropped[..n], now), dropped[n].id, Failed, 0, "queue full", now)
  }

  /** The row of a job given up is failed, unsent; every other row is as it was. */
  lemma {:induction false} FailAllFails(rows: Rows, dropped: seq<Job>, now: int, id: int)
    ensures id in FailAll(rows, dropped, now) <==> id in rows
    ensures id in rows ==>
              FailAll(rows, dropped, now)[id] ==
                if exists k :: 0 <= k < |dropped| && dropped[k].id == id
                then rows[id].(state := State.Failed, attempts := 0, lastError := "queue full", updatedAt := now) else rows[id]
  {
    if dropped != [] {
      var n := |dropped| - 1;
      FailAllFails(rows, dropped[..n], now, id);
      assert forall k :: 0 <= k < n ==> dropped[..n][k] == dropped[k];
    }
  }

  // ---------- every interleaving of Enqueue and pop ----------

  datatype Op = Enter(job: Job) | Pop

  /** A job given up, and the queue it was chosen from. */
  datatype Drop = Drop(job: Job, from: seq<Job>)

  datatype History = History(arrived: seq<Job>, queue: seq<Job>, popped: seq<Job>, dropped: seq<Drop>)

  function Step(cap: nat, h: History, op: Op): History {
    match op
    case Pop => if h.queue == [] then h else h.(queue := h.queue[1..], popped := h.popped + [h.queue[0]])
    case Enter(j) =>
      var (queue, lost) := Entered(h.queue, cap, j);
      History(h.arrived + [j], queue, h.popped, if lost == [] then h.dropped else h.dropped + [Drop(lost[0], h.queue)])
  }

  function Replay(cap: nat, ops: seq<Op>): History {
    if ops == [] then History([], [], [], []) else Step(cap, Replay(cap, ops[..|ops| - 1]), ops[|ops| - 1])
  }

  /** a is b with some elements left out: f says where each element of a sits in b. */
  ghost predicate Embeds(f: seq<nat>, a: seq<Job>, b: seq<Job>) {
    && |f| == |a|
    && (forall k :: 0 <= k < |a| ==> f[k] < |b| && a[k] == b[f[k]])
    && forall j, k :: 0 <= j < k < |f| ==> f[j] < f[k]
  }

  ghost predicate InOrderOf(a: seq<Job>, b: seq<Job>) {
    exists f :: Embeds(f, a, b)
  }

  function JobsOf(drops: seq<Drop>): (jobs: seq<Job>)
    ensures |jobs| == |drops|
    ensures forall k :: 0 <= k < |drops| ==> jobs[k] == drops[k].job
  {
    if drops == [] then [] else JobsOf(drops[..|drops| - 1]) + [drops[|drops| - 1].job]
  }

  /** What a drop may cost: a fired job only when no reminder was queued, a recovery only when nothing else was, and
      always the oldest of its kind. */
  predicate Affordable(d: Drop) {
    && d.job in d.from
    && (d.job.kind == Fired ==> forall k :: 0 <= k < |d.from| ==> d.from[k].kind != Reminder)
    && (d.job.kind == Resolved ==> forall k :: 0 <= k < |d.from| ==> d.from[k].kind == Resolved)
    && exists i :: 0 <= i < |d.from| && d.from[i] == d.job && forall k :: 0 <= k < i ==> d.from[k].kind != d.job.kind
  }

  ghost predicate Conserved(cap: nat, h: History) {
    |h.queue| <= cap && InOrderOf(h.popped + h.queue, h.arrived) && AllAccounted(h) && DropsAffordable(cap, h.dropped)
  }

  predicate AllAccounted(h: History) {
    multiset(h.arrived) == multiset(h.popped) + multiset(h.queue) + multiset(JobsOf(h.dropped))
  }

  predicate DropsAffordable(cap: nat, drops: seq<Drop>) {
    forall k :: 0 <= k < |drops| ==> |drops[k].from| == cap && Affordable(drops[k])
  }

  /** The queue never exceeds its bound; what is popped and what still waits keep arrival order; every job that arrived
      is popped, waiting or dropped, exactly once; and every drop was affordable. */
  lemma {:induction false} QueueConserves(cap: nat, ops: seq<Op>)
    requires cap > 0
    ensures Conserved(cap, Replay(cap, ops))
  {
    if ops == [] {
      assert Embeds([], [] + [], []);
    } else {
      QueueConserves(cap, ops[..|ops| - 1]);
      var h := Replay(cap, ops[..|ops| - 1]);
      match ops[|ops| - 1]
      case Pop => PopConserves(cap, h);
      case Enter(j) => EnterConserves(cap, h, j);
    }
  }

  lemma PopConserves(cap: nat, h: History)
    requires Conserved(cap, h)
    ensures Conserved(cap, Step(cap, h, Pop))
  {
    if h.queue != [] {
      MoveOne(h.popped, h.queue);
    }
  }

  lemma MoveOne(popped: seq<Job>, queue: seq<Job>)
    requires queue != []
    ensures popped + [queue[0]] + queue[1..] == popped + queue
    ensures multiset(popped + [queue[0]]) + multiset(queue[1..]) == multiset(popped) + multiset(queue)
  {
    assert queue == [queue[0]] + queue[1..];
  }

  lemma EnterConserves(cap: nat, h: History, j: Job)
    requires Conserved(cap, h) && cap > 0
    ensures Conserved(cap, Step(cap, h, Enter(j)))
  {
    EnterInOrder(cap, h, j);
    EnterAccounts(cap, h, j);
    EnterKeepsAll(h.queue, cap, j);
    EnterDropsAffordable(cap, h, j);
  }

  lemma EnterInOrder(cap: nat, h: History, j: Job)
    requires InOrderOf(h.popped + h.queue, h.arrived) && cap > 0
    ensures InOrderOf(Step(cap, h, Enter(j)).popped + Step(cap, h, Enter(j)).queue, Step(cap, h, Enter(j)).arrived)
  {
    var f :| Embeds(f, h.popped + h.queue, h.arrived);
    EnterKeepsOrder(f, h, cap, j);
  }

  lemma EnterDropsAffordable(cap: nat, h: History, j: Job)
    requires DropsAffordable(cap, h.dropped) && |h.queue| <= cap && cap > 0
    ensures DropsAffordable(cap, Step(cap, h, Enter(j)).dropped)
  {
    if |h.queue| == cap {
      VictimIsAffordable(h.queue);
    }
  }

  lemma EnterAccounts(cap: nat, h: History, j: Job)
    requires AllAccounted(h) && cap > 0
    ensures AllAccounted(Step(cap, h, Enter(j)))
  {
    var (queue, lost) := Entered(h.queue, cap, j);
    EnterKeepsAll(h.queue, cap, j);
    Rebalance(multiset(h.arrived), multiset(h.popped), multiset(h.queue), multiset(JobsOf(h.dropped)),
              multiset(queue), multiset(lost), multiset{j});
    StepEnters(cap, h, j);
    assert multiset(h.arrived + [j]) == multiset(h.arrived) + multiset{j};
    assert multiset(JobsOf(h.dropped) + lost) == multiset(JobsOf(h.dropped)) + multiset(lost);
  }

  lemma Rebalance(arrived: multiset<Job>, popped: multiset<Job>, queue: multiset<Job>, dropped: multiset<Job>,
                  queue': multiset<Job>, lost: multiset<Job>, j: multiset<Job>)
    requires arrived == popped + queue + dropped && queue' + lost == queue + j
    ensures arrived + j == popped + queue' + (dropped + lost)
  {
    assert arrived + j == popped + dropped + (queue + j);
  }

  /** What a batch did to a history: the queue it left, and the drops it added. */
  predicate Took(h: History, after: History, queue: seq<Job>, lost: seq<Job>) {
    after.queue == queue && JobsOf(after.dropped) == JobsOf(h.dropped) + lost
  }

  /** A batch handed to Enqueue is its jobs entering one by one, with nothing popped in between. */
  lemma {:induction false} BatchEnters(cap: nat, ops: seq<Op>, batch: seq<Job>)
    ensures var (queue, lost) := EnteredAll(Replay(cap, ops).queue, cap, batch);
            Took(Replay(cap, ops), Replay(cap, ops + Enters(batch)), queue, lost)
  {
    if batch == [] {
      assert ops + Enters(batch) == ops;
    } else {
      var n := |batch| - 1;
      BatchEnters(cap, ops, batch[..n]);
      var before := ops + Enters(batch[..n]);
      assert ops + Enters(batch) == before + [Enter(batch[n])];
      ReplaySnoc(cap, before, Enter(batch[n]));
      var (queue, lost) := EnteredAll(Replay(cap, ops).queue, cap, batch[..n]);
      TookOneMore(cap, Replay(cap, ops), Replay(cap, before), queue, lost, batch[n]);
    }
  }

  lemma TookOneMore(cap: nat, h: History, before: History, queue: seq<Job>, lost: seq<Job>, j: Job)
    requires Took(h, before, queue, lost)
    ensures Took(h, Step(cap, before, Enter(j)), Entered(queue, cap, j).0, lost + Entered(queue, cap, j).1)
  {
    StepEnters(cap, before, j);
    assert JobsOf(h.dropped) + lost + Entered(queue, cap, j).1 == JobsOf(h.dropped) + (lost + Entered(queue, cap, j).1);
  }

  lemma ReplaySnoc(cap: nat, ops: seq<Op>, op: Op)
    ensures Replay(cap, ops + [op]) == Step(cap, Replay(cap, ops), op)
  {
    assert (ops + [op])[..|ops|] == ops;
  }

  lemma StepEnters(cap: nat, h: History, j: Job)
    ensures Step(cap, h, Enter(j)).queue == Entered(h.queue, cap, j).0
    ensures JobsOf(Step(cap, h, Enter(j)).dropped) == JobsOf(h.dropped) + Entered(h.queue, cap, j).1
  {
    var lost := Entered(h.queue, cap, j).1;
    if lost != [] {
      assert (h.dropped + [Drop(lost[0], h.queue)])[..|h.dropped|] == h.dropped;
    }
  }

  function Enters(batch: seq<Job>): (ops: seq<Op>)
    ensures |ops| == |batch|
  {
    if batch == [] then [] else Enters(batch[..|batch| - 1]) + [Enter(batch[|batch| - 1])]
  }

  lemma EnterKeepsOrder(f: seq<nat>, was: History, cap: nat, j: Job)
    requires Embeds(f, was.popped + was.queue, was.arrived) && cap > 0
    ensures InOrderOf(was.popped + Entered(was.queue, cap, j).0, was.arrived + [j])
  {
    if |was.queue| >= cap {
      var i := Victim(was.queue);
      LeaveOut(f, was.popped, was.queue, was.arrived, i);
      var kept := Without(was.queue, i);
      Append(Leaving(f, |was.popped| + i), was.popped + kept, was.arrived, j);
      assert was.popped + kept + [j] == was.popped + (kept + [j]);
    } else {
      assert was.popped + was.queue + [j] == was.popped + (was.queue + [j]);
      Append(f, was.popped + was.queue, was.arrived, j);
    }
  }

  function Leaving(f: seq<nat>, i: nat): seq<nat>
    requires i < |f|
  {
    f[..i] + f[i + 1..]
  }

  lemma LeaveOut(f: seq<nat>, popped: seq<Job>, queue: seq<Job>, b: seq<Job>, i: nat)
    requires i < |queue| && Embeds(f, popped + queue, b)
    ensures Embeds(Leaving(f, |popped| + i), popped + Without(queue, i), b)
  {
  }

  lemma Append(f: seq<nat>, a: seq<Job>, b: seq<Job>, j: Job)
    requires Embeds(f, a, b)
    ensures InOrderOf(a + [j], b + [j])
  {
    assert Embeds(f + [|b|], a + [j], b + [j]);
  }

  lemma EnterKeepsAll(queue: seq<Job>, cap: nat, j: Job)
    requires cap > 0
    ensures multiset(Entered(queue, cap, j).0) + multiset(Entered(queue, cap, j).1) == multiset(queue) + multiset{j}
    ensures |queue| <= cap ==> |Entered(queue, cap, j).0| <= cap
  {
    if |queue| >= cap {
      var i := Victim(queue);
      assert queue == queue[..i] + [queue[i]] + queue[i + 1..];
    }
  }

  lemma VictimIsAffordable(queue: seq<Job>)
    requires queue != []
    ensures Affordable(Drop(queue[Victim(queue)], queue))
  {
  }

  // ---------- one delivery ----------

  datatype Answer = Accepted | Refused(reason: string) | Retry(reason: string)

  datatype Outcome = Delivered | GivenUp(reason: string) | Interrupted

  /** How the retry loop ends from one attempt on, and after how many sends in all. */
  function Worked(send: nat -> Answer, slept: nat -> bool, attempts: nat, attempt: nat): (nat, Outcome)
    requires attempt <= attempts
    decreases attempts - attempt
  {
    match send(attempt)
    case Accepted => (attempt, Delivered)
    case Refused(r) => (attempt, GivenUp(r))
    case Retry(r) =>
      if attempt == attempts then (attempt, GivenUp(r))
      else if !slept(attempt) then (attempt, Interrupted)
      else Worked(send, slept, attempts, attempt + 1)
  }

  /** Every send but the last failed in a way worth retrying, and each was followed by a full wait; the last one settles
      the outcome. */
  lemma {:induction false} WorkedCounts(send: nat -> Answer, slept: nat -> bool, attempts: nat, attempt: nat)
    requires attempt <= attempts
    ensures var (used, outcome) := Worked(send, slept, attempts, attempt);
            && attempt <= used <= attempts
            && (forall k :: attempt <= k < used ==> send(k).Retry? && slept(k))
            && (outcome.Delivered? <==> send(used).Accepted?)
            && (outcome.Interrupted? <==> send(used).Retry? && used < attempts && !slept(used))
            && (outcome.GivenUp? <==> send(used).Refused? || (send(used).Retry? && used == attempts))
            && (outcome.GivenUp? ==> outcome.reason == send(used).reason)
    decreases attempts - attempt
  {
    if send(attempt).Retry? && attempt < attempts && slept(attempt) {
      WorkedCounts(send, slept, attempts, attempt + 1);
    }
  }

  /** Every send before `used` failed in a way worth retrying and was waited out, and the one numbered `used` settles it:
      accepted, refused, the last there may be, or not waited out. */
  predicate Settles(send: nat -> Answer, slept: nat -> bool, attempts: nat, used: nat, outcome: Outcome) {
    && 1 <= used <= attempts
    && (forall k :: 1 <= k < used ==> send(k).Retry? && slept(k))
    && match outcome
       case Delivered => send(used).Accepted?
       case GivenUp(reason) => send(used) == Refused(reason) || (send(used) == Retry(reason) && used == attempts)
       case Interrupted => send(used).Retry? && used < attempts && !slept(used)
  }

  /** There is one way to settle a delivery; in particular it is delivered as soon as a send is accepted, if all before it
      failed in a way worth retrying and were waited out. */
  lemma SettlesOneWay(send: nat -> Answer, slept: nat -> bool, attempts: nat, used: nat, outcome: Outcome)
    requires attempts > 0
    ensures Settles(send, slept, attempts, used, outcome) <==> Worked(send, slept, attempts, 1) == (used, outcome)
  {
    WorkedCounts(send, slept, attempts, 1);
    var (n, o) := Worked(send, slept, attempts, 1);
    assert Settles(send, slept, attempts, n, o);
  }

  function Pow(b: int, e: nat): int {
    if e == 0 then 1 else Pow(b, e - 1) * b
  }

  function Sum(xs: seq<int>): int {
    if xs == [] then 0 else Sum(xs[..|xs| - 1]) + xs[|xs| - 1]
  }

  /** The waits of a delivery, in order. */
  predicate BacksOff(waits: seq<int>, base: int, factor: int) {
    forall k :: 0 <= k < |waits| ==> waits[k] == base * Pow(factor, k)
  }

  lemma {:induction false} TotalWait(waits: seq<int>, base: int, factor: int)
    requires BacksOff(waits, base, factor)
    ensures (factor - 1) * Sum(waits) == base * (Pow(factor, |waits|) - 1)
  {
    if waits != [] {
      var n := |waits| - 1;
      var p := Pow(factor, n);
      TotalWait(waits[..n], base, factor);
      OneMoreWait(Sum(waits[..n]), base, factor, p);
    }
  }

  lemma OneMoreWait(sum: int, base: int, factor: int, p: int)
    requires (factor - 1) * sum == base * (p - 1)
    ensures (factor - 1) * (sum + base * p) == base * (p * factor - 1)
  {
    calc {
      (factor - 1) * (sum + base * p);
      (factor - 1) * sum + (factor - 1) * (base * p);
      base * (p - 1) + (factor * (base * p) - base * p);
      base * p - base + factor * (base * p) - base * p;
      { assert factor * (base * p) == base * (p * factor); }
      base * (p * factor) - base;
    }
  }

  class Dispatcher {
    const rec: DeliveryTable
    const cap: nat
    const attempts: nat
    const base: int
    const factor: int
    var jobs: seq<Job>

    constructor (rec: DeliveryTable, queue: int, attempts: int, base: int, factor: int)
      ensures this.rec == rec && jobs == []
      ensures cap == if queue <= 0 then 256 else queue
      ensures this.attempts == if attempts <= 0 then 4 else attempts
      ensures this.base == if base <= 0 then 1_000_000_000 else base
      ensures this.factor == if factor <= 0 then 5 else factor
    {
      this.rec := rec;
      this.cap := if queue <= 0 then 256 else queue;
      this.attempts := if attempts <= 0 then 4 else attempts;
      this.base := if base <= 0 then 1_000_000_000 else base;
      this.factor := if factor <= 0 then 5 else factor;
      this.jobs := [];
    }

    method Backoff(attempt: nat) returns (w: int)
      requires attempt > 0
      ensures w == base * Pow(factor, attempt - 1)
    {
      w := base;
      for i := 1 to attempt
        invariant w == base * Pow(factor, i - 1)
      {
        w := w * factor;
      }
    }

    method VictimIndex() returns (i: nat)
      requires jobs != []
      ensures i == Victim(jobs)
    {
      for k := 0 to |jobs|
        invariant forall m :: 0 <= m < k ==> jobs[m].kind != Reminder
      {
        if jobs[k].kind == Reminder {
          return k;
        }
      }
      for k := 0 to |jobs|
        invariant forall m :: 0 <= m < k ==> jobs[m].kind != Fired
      {
        if jobs[k].kind == Fired {
          return k;
        }
      }
      return 0;
    }

    method Enqueue(batch: seq<Job>, now: int)
      requires cap > 0
      modifies this, rec
      ensures jobs == EnteredAll(old(jobs), cap, batch).0
      ensures rec.rows == FailAll(old(rec.rows), EnteredAll(old(jobs), cap, batch).1, now)
    {
      var dropped: seq<Job> := [];
      for i := 0 to |batch|
        invariant jobs == EnteredAll(old(jobs), cap, batch[..i]).0
        invariant dropped == EnteredAll(old(jobs), cap, batch[..i]).1
        invariant rec.rows == old(rec.rows)
      {
        assert batch[..i + 1][..i] == batch[..i];
        ghost var before := jobs;
        ghost var lost := dropped;
        if |jobs| >= cap {
          var v := VictimIndex();
          dropped := dropped + [jobs[v]];
          jobs := jobs[..v] + jobs[v + 1..];
        }
        jobs := jobs + [batch[i]];
        assert jobs == Entered(before, cap, batch[i]).0 && dropped == lost + Entered(before, cap, batch[i]).1;
      }
      assert batch[..|batch|] == batch;
      for i := 0 to |dropped|
        invariant jobs == EnteredAll(old(jobs), cap, batch).0
        invariant rec.rows == FailAll(old(rec.rows), dropped[..i], now)
      {
        assert dropped[..i + 1][..i] == dropped[..i];
        rec.MarkDeliveryFailed(dropped[i].id, now, 0, "queue full");
      }
      assert dropped[..|dropped|] == dropped;
    }

    method PopJob() returns (j: Job, ok: bool)
      modifies this
      ensures ok == (old(jobs) != [])
      ensures if ok then old(jobs) == [j] + jobs else jobs == old(jobs)
    {
      if |jobs| == 0 {
        return Job(0, "", Fired), false;
      }
      j, ok := jobs[0], true;
      jobs := jobs[1..];
    }

    /** Sends one job, retrying. The row records exactly how many sends were made; an interrupted wait records nothing,
        and the row stays for the next boot. */
    method Deliver(j: Job, now: int, send: nat -> Answer, slept: nat -> bool)
      returns (used: nat, outcome: Outcome, ghost waits: seq<int>)
      requires attempts > 0
      modifies rec
      ensures (used, outcome) == Worked(send, slept, attempts, 1)
      ensures Settles(send, slept, attempts, used, outcome)
      ensures forall k :: 1 <= k <= attempts && send(k).Accepted? && (forall j :: 1 <= j < k ==> send(j).Retry? && slept(j))
                ==> outcome.Delivered? && used == k
      ensures |waits| == used - 1 && BacksOff(waits, base, factor)
      ensures rec.rows == match outcome
                case Delivered => Closed(old(rec.rows), j.id, Sent, used, "", now)
                case GivenUp(reason) => Closed(old(rec.rows), j.id, Failed, used, reason, now)
                case Interrupted => old(rec.rows)
    {
      var (n, settled) := Worked(send, slept, attempts, 1);
      SettlesOneWay(send, slept, attempts, n, settled);
      var last := "";
      used, waits := 0, [];
      var attempt := 1;
      while attempt <= attempts
        invariant 1 <= attempt <= attempts
        invariant Worked(send, slept, attempts, 1) == Worked(send, slept, attempts, attempt)
        invariant |waits| == attempt - 1 && BacksOff(waits, base, factor)
        invariant rec.rows == old(rec.rows)
      {
        used := attempt;
        var err := send(attempt);
        if err.Accepted? {
          rec.MarkDeliverySent(j.id, now, used);
          return used, Delivered, waits;
        }
        last := err.reason;
        if !err.Retry? || attempt == attempts {
          break;
        }
        var w := Backoff(attempt);
        if !slept(attempt) {
          return used, Interrupted, waits;
        }
        waits := waits + [w];
        attempt := attempt + 1;
      }
      rec.MarkDeliveryFailed(j.id, now, used, last);
      outcome := GivenUp(last);
    }
  }
}
