/**
 The delivery pipeline as a whole: rows in the store, jobs in memory, one worker, and crashes between any two steps.

 A job is staged while the routine that wrote its row has not handed it to the dispatcher yet, queued, or with the worker;
 a job the queue gave up is being retired until its row says so. All of those are lost in a crash; the rows are not.
 */
module Pipeline {
  import opened Deliveries
  import opened Dispatcher

  datatype Worker = Idle | Sending(job: Job, used: nat) | Answered(job: Job, used: nat) | Failing(job: Job, used: nat)

  /** What happened to one row since it was written: sends a channel accepted, and crashes. */
  datatype Past = Past(sends: nat, crashes: nat)

  datatype Hub = Hub(
    rows: Rows,
    staged: multiset<Job>,
    queue: seq<Job>,
    retiring: multiset<Job>,
    worker: Worker,
    enabled: set<string>,
    past: map<int, Past>
  )

  /** Fixed when the dispatcher is built. */
  datatype Limits = Limits(cap: nat, attempts: nat)

  function JobOf(rows: Rows, id: int): Job
    requires id in rows
  {
    Job(id, rows[id].channel, rows[id].kind)
  }

  predicate PendingJob(rows: Rows, j: Job) {
    j.id in rows && rows[j.id].state == Pending && j == JobOf(rows, j.id)
  }

  function Count(b: bool): nat {
    if b then 1 else 0
  }

  /** How many times a job is in memory. */
  function Live(h: Hub, j: Job): nat {
    h.staged[j] + multiset(h.queue)[j] + h.retiring[j] + Count(!h.worker.Idle? && h.worker.job == j)
  }

  // ---------- steps ----------

  /** notify, notifyGuardrails and remind: one row, and a job unless the channel is in its quiet hours. */
  predicate Create(h: Hub, h': Hub, event: EventRef, channel: string, kind: Kind, held: bool, now: int) {
    var id := NextId(h.rows.Keys);
    var rows := Added(h.rows, SpecRow(event, channel, kind, held, now));
    h' == h.(rows := rows,
             staged := if held then h.staged else h.staged + multiset{JobOf(rows, id)},
             past := h.past[id := Past(0, 0)])
  }

  /** Enqueue: some staged jobs enter the queue together. */
  predicate Hand(lim: Limits, h: Hub, h': Hub, batch: seq<Job>) {
    && multiset(batch) <= h.staged
    && h' == h.(staged := h.staged - multiset(batch),
                queue := EnteredAll(h.queue, lim.cap, batch).0,
                retiring := h.retiring + multiset(EnteredAll(h.queue, lim.cap, batch).1))
  }

  /** The tail of Enqueue: a job the queue gave up is recorded as failed. */
  predicate Retire(h: Hub, h': Hub, j: Job, now: int) {
    && j in h.retiring
    && h' == h.(retiring := h.retiring - multiset{j}, rows := Closed(h.rows, j.id, Failed, 0, "queue full", now))
  }

  predicate Take(h: Hub, h': Hub) {
    h.worker.Idle? && h.queue != [] && h' == h.(queue := h.queue[1..], worker := Sending(h.queue[0], 0))
  }

  /** One send and what the retry loop makes of the answer. */
  predicate SendOne(lim: Limits, h: Hub, h': Hub, answer: Answer) {
    && h.worker.Sending?
    && h.worker.job.id in h.past
    && var (j, used) := (h.worker.job, h.worker.used + 1);
       var p := h.past[j.id];
       match answer
       case Accepted => h' == h.(worker := Answered(j, used), past := h.past[j.id := p.(sends := p.sends + 1)])
       case Refused(_) => h' == h.(worker := Failing(j, used))
       case Retry(_) => h' == h.(worker := if used >= lim.attempts then Failing(j, used) else Sending(j, used))
  }

  predicate Settle(h: Hub, h': Hub, reason: string, now: int) {
    match h.worker
    case Answered(j, used) => h' == h.(worker := Idle, rows := Closed(h.rows, j.id, Sent, used, "", now))
    case Failing(j, used) => h' == h.(worker := Idle, rows := Closed(h.rows, j.id, Failed, used, reason, now))
    case _ => false
  }

  /** releaseHeld, one row: quiet hours are over. */
  predicate Release(h: Hub, h': Hub, id: int, now: int) {
    && id in h.rows && h.rows[id].state == Held && h.rows[id].channel in h.enabled
    && h' == h.(rows := Released(h.rows, id, now), staged := h.staged + multiset{JobOf(h.rows, id)})
  }

  /** releaseHeld, one row whose channel was switched off. */
  predicate GiveUpHeld(h: Hub, h': Hub, id: int, now: int) {
    && id in h.rows && h.rows[id].state == Held && h.rows[id].channel !in h.enabled
    && h' == h.(rows := Closed(h.rows, id, Failed, 0, "channel disabled", now))
  }

  predicate Purge(h: Hub, h': Hub, before: int) {
    h' == h.(rows := Purged(h.rows, before))
  }

  predicate Configure(h: Hub, h': Hub, enabled: set<string>) {
    h' == h.(enabled := enabled)
  }

  /** The hub dies and comes back: memory is lost, and the boot replay takes every pending row in id order. */
  predicate Crash(lim: Limits, h: Hub, h': Hub, now: int) {
    var (rows, jobs) := Replayed(h.rows, h.enabled, StateIds(h.rows, Pending), now);
    h' == Hub(rows, multiset{}, EnteredAll([], lim.cap, jobs).0, multiset(EnteredAll([], lim.cap, jobs).1), Idle, h.enabled,
              map id | id in h.past :: Past(h.past[id].sends, h.past[id].crashes + 1))
  }

  /** replayPendingDeliveries: a job for each row whose channel is still on, the others retired. */
  function Replayed(rows: Rows, enabled: set<string>, ids: seq<int>, now: int): (Rows, seq<Job>)
    requires forall k :: 0 <= k < |ids| ==> ids[k] in rows
  {
    if ids == [] then (rows, [])
    else
      var n := |ids| - 1;
      var (rows', jobs) := Replayed(rows, enabled, ids[..n], now);
      if rows[ids[n]].channel in enabled then (rows', jobs + [JobOf(rows, ids[n])])
      else (Closed(rows', ids[n], Failed, 0, "channel disabled", now), jobs)
  }

  datatype Step =
    | Creating(event: EventRef, channel: string, kind: Kind, held: bool, now: int)
    | Handing(batch: seq<Job>)
    | Retiring(j: Job, now: int)
    | Taking
    | Trying(answer: Answer)
    | Settling(reason: string, now: int)
    | Releasing(id: int, now: int)
    | GivingUp(id: int, now: int)
    | Purging(before: int)
    | Configuring(enabled: set<string>)
    | Crashing(now: int)

  predicate Does(lim: Limits, h: Hub, step: Step, h': Hub) {
    match step
    case Creating(event, channel, kind, held, now) => Create(h, h', event, channel, kind, held, now)
    case Handing(batch) => Hand(lim, h, h', batch)
    case Retiring(j, now) => Retire(h, h', j, now)
    case Taking => Take(h, h')
    case Trying(answer) => SendOne(lim, h, h', answer)
    case Settling(reason, now) => Settle(h, h', reason, now)
    case Releasing(id, now) => Release(h, h', id, now)
    case GivingUp(id, now) => GiveUpHeld(h, h', id, now)
    case Purging(before) => Purge(h, h', before)
    case Configuring(enabled) => Configure(h, h', enabled)
    case Crashing(now) => Crash(lim, h, h', now)
  }

  ghost predicate Next(lim: Limits, h: Hub, h': Hub) {
    exists step :: Does(lim, h, step, h')
  }

  predicate Init(h: Hub) {
    h.rows == map[] && h.past == map[] && h.staged == multiset{} && h.queue == [] && h.retiring == multiset{} && h.worker.Idle?
  }

  ghost predicate IsRun(lim: Limits, run: seq<Hub>) {
    && run != [] && Init(run[0])
    && forall k :: 0 <= k < |run| - 1 ==> StepAt(lim, run, k)
  }

  ghost predicate StepAt(lim: Limits, run: seq<Hub>, k: int)
    requires 0 <= k < |run| - 1
  {
    Next(lim, run[k], run[k + 1])
  }

  // ---------- the invariant ----------

  /** The pending rows are exactly those with one live job. */
  ghost predicate OneJobEach(h: Hub) {
    forall j :: Live(h, j) == Count(PendingJob(h.rows, j))
  }

  predicate SendsBounded(h: Hub, id: int)
    requires id in h.rows && id in h.past
  {
    var p := h.past[id];
    match h.rows[id].state
    case Held => p.sends == 0
    case Sent => 1 <= p.sends <= p.crashes + 1
    case Failed => p.sends <= p.crashes
    case Pending =>
      if h.worker.Answered? && h.worker.job.id == id then 1 <= p.sends <= p.crashes + 1 else p.sends <= p.crashes
  }

  ghost predicate AllBounded(h: Hub) {
    forall id :: id in h.rows ==> id in h.past && SendsBounded(h, id)
  }

  ghost predicate Inv(lim: Limits, h: Hub) {
    && OneJobEach(h)
    && |h.queue| <= lim.cap
    && AllBounded(h)
  }

  predicate MayBecome(a: State, b: State) {
    a == b || (a == Held && b == Pending) || (a == Held && b == Failed) || (a == Pending && (b == Sent || b == Failed))
  }

  /** Nothing about a row changes but its state, moving forward; only settled rows disappear. */
  ghost predicate RowsAdvance(h: Hub, h': Hub) {
    forall id :: id in h.rows ==>
      if id in h'.rows then
        && h'.rows[id].event == h.rows[id].event && h'.rows[id].channel == h.rows[id].channel
        && h'.rows[id].kind == h.rows[id].kind && h'.rows[id].createdAt == h.rows[id].createdAt
        && MayBecome(h.rows[id].state, h'.rows[id].state)
      else Settled(h.rows[id])
  }

  // ---------- every step keeps it ----------

  lemma EnteredCounts(queue: seq<Job>, cap: nat, entering: Job, j: Job)
    requires cap > 0 && |queue| <= cap
    ensures var (after, lost) := Entered(queue, cap, entering);
            |after| <= cap && multiset(after)[j] + multiset(lost)[j] == multiset(queue)[j] + Count(j == entering)
  {
    EnterKeepsAll(queue, cap, entering);
    var (after, lost) := Entered(queue, cap, entering);
    assert (multiset(after) + multiset(lost))[j] == (multiset(queue) + multiset{entering})[j];
  }

  lemma {:induction false} EnteredAllCounts(queue: seq<Job>, cap: nat, batch: seq<Job>, j: Job)
    requires cap > 0 && |queue| <= cap
    ensures var (after, lost) := EnteredAll(queue, cap, batch);
            |after| <= cap && multiset(after)[j] + multiset(lost)[j] == multiset(queue)[j] + multiset(batch)[j]
  {
    if batch != [] {
      var n := |batch| - 1;
      CountLast(batch, j);
      EnteredAllCounts(queue, cap, batch[..n], j);
      var (before, lost) := EnteredAll(queue, cap, batch[..n]);
      EnteredCounts(before, cap, batch[n], j);
      CountConcat(lost, Entered(before, cap, batch[n]).1, j);
    }
  }

  lemma CountLast(jobs: seq<Job>, j: Job)
    requires jobs != []
    ensures multiset(jobs)[j] == multiset(jobs[..|jobs| - 1])[j] + Count(j == jobs[|jobs| - 1])
  {
    assert jobs == jobs[..|jobs| - 1] + [jobs[|jobs| - 1]];
  }

  lemma CountConcat(a: seq<Job>, b: seq<Job>, j: Job)
    ensures multiset(a + b)[j] == multiset(a)[j] + multiset(b)[j]
  {
  }

  lemma EnteredAllKeepsAll(queue: seq<Job>, cap: nat, batch: seq<Job>)
    requires cap > 0 && |queue| <= cap
    ensures var (after, lost) := EnteredAll(queue, cap, batch);
            && |after| <= cap
            && forall j :: multiset(after)[j] + multiset(lost)[j] == multiset(queue)[j] + multiset(batch)[j]
  {
    forall j: Job {
      EnteredAllCounts(queue, cap, batch, j);
    }
  }

  /** A live job is its row's, and the row is pending. */
  lemma LiveIsPending(h: Hub, j: Job)
    requires OneJobEach(h) && Live(h, j) > 0
    ensures PendingJob(h.rows, j) && Live(h, j) == 1
  {
  }

  lemma CreateKeepsJobs(h: Hub, h': Hub, event: EventRef, channel: string, kind: Kind, held: bool, now: int)
    requires OneJobEach(h) && Create(h, h', event, channel, kind, held, now)
    ensures OneJobEach(h')
  {
    var id := NextId(h.rows.Keys);
    forall j
      ensures Live(h', j) == Count(PendingJob(h'.rows, j))
    {
      assert Live(h, j) == Count(PendingJob(h.rows, j));
    }
  }

  lemma CreateKeeps(lim: Limits, h: Hub, h': Hub, event: EventRef, channel: string, kind: Kind, held: bool, now: int)
    requires Inv(lim, h) && Create(h, h', event, channel, kind, held, now)
    ensures Inv(lim, h') && RowsAdvance(h, h')
  {
    CreateKeepsJobs(h, h', event, channel, kind, held, now);
    if h.worker != Idle {
      LiveIsPending(h, h.worker.job);
    }
    forall id | id in h'.rows
      ensures id in h'.past && SendsBounded(h', id)
    {
      assert id in h.rows ==> SendsBounded(h, id);
    }
  }

  lemma HandKeeps(lim: Limits, h: Hub, h': Hub, batch: seq<Job>)
    requires lim.cap > 0 && Inv(lim, h) && Hand(lim, h, h', batch)
    ensures Inv(lim, h') && RowsAdvance(h, h')
  {
    EnteredAllKeepsAll(h.queue, lim.cap, batch);
    forall j
      ensures Live(h', j) == Count(PendingJob(h'.rows, j))
    {
      assert Live(h, j) == Count(PendingJob(h.rows, j));
    }
    SameBounds(h, h');
  }

  lemma SameBounds(h: Hub, h': Hub)
    requires AllBounded(h) && h'.rows == h.rows && h'.past == h.past
    requires h'.worker == h.worker || (!h.worker.Answered? && !h'.worker.Answered?)
    ensures AllBounded(h')
  {
    forall id | id in h'.rows
      ensures id in h'.past && SendsBounded(h', id)
    {
      assert SendsBounded(h, id);
    }
  }

  /** One pending row settles, and its job leaves memory: by being retired, or by the worker. */
  lemma ClosingKeeps(lim: Limits, h: Hub, h': Hub, j: Job, st: State, attempts: nat, reason: string, now: int)
    requires Inv(lim, h) && PendingJob(h.rows, j) && (st == Failed || st == Sent)
    requires h'.rows == Closed(h.rows, j.id, st, attempts, reason, now)
    requires h'.past == h.past && h'.queue == h.queue
    requires forall k :: Live(h', k) == Live(h, k) - Count(k == j)
    requires h'.worker == h.worker || (h'.worker.Idle? && h.worker.job == j)
    requires st == Sent <==> h.worker.Answered? && h.worker.job.id == j.id
    ensures Inv(lim, h') && RowsAdvance(h, h')
  {
    forall k
      ensures Live(h', k) == Count(PendingJob(h'.rows, k))
    {
      assert Live(h, k) == Count(PendingJob(h.rows, k));
    }
    forall id | id in h'.rows
      ensures id in h'.past && SendsBounded(h', id)
    {
      assert SendsBounded(h, id);
    }
  }

  lemma RetireKeeps(lim: Limits, h: Hub, h': Hub, j: Job, now: int)
    requires Inv(lim, h) && Retire(h, h', j, now)
    ensures Inv(lim, h') && RowsAdvance(h, h')
  {
    LiveIsPending(h, j);
    if !h.worker.Idle? {
      LiveIsPending(h, h.worker.job);
    }
    ClosingKeeps(lim, h, h', j, Failed, 0, "queue full", now);
  }

  lemma SettleKeeps(lim: Limits, h: Hub, h': Hub, reason: string, now: int)
    requires Inv(lim, h) && Settle(h, h', reason, now)
    ensures Inv(lim, h') && RowsAdvance(h, h')
  {
    var j := h.worker.job;
    LiveIsPending(h, j);
    var st := if h.worker.Answered? then Sent else Failed;
    ClosingKeeps(lim, h, h', j, st, h.worker.used, if st == Sent then "" else reason, now);
  }

  lemma TakeKeeps(lim: Limits, h: Hub, h': Hub)
    requires Inv(lim, h) && Take(h, h')
    ensures Inv(lim, h') && RowsAdvance(h, h')
  {
    assert h.queue == [h.queue[0]] + h.queue[1..];
    forall j
      ensures Live(h', j) == Live(h, j)
    {
    }
    forall j
      ensures Live(h', j) == Count(PendingJob(h'.rows, j))
    {
      assert Live(h, j) == Count(PendingJob(h.rows, j));
    }
    SameBounds(h, h');
  }

  lemma SendKeeps(lim: Limits, h: Hub, h': Hub, answer: Answer)
    requires Inv(lim, h) && SendOne(lim, h, h', answer)
    ensures Inv(lim, h') && RowsAdvance(h, h')
  {
    LiveIsPending(h, h.worker.job);
    forall j
      ensures Live(h', j) == Count(PendingJob(h'.rows, j))
    {
      assert Live(h, j) == Count(PendingJob(h.rows, j));
    }
    forall id | id in h'.rows
      ensures id in h'.past && SendsBounded(h', id)
    {
      assert SendsBounded(h, id);
    }
  }

  lemma HeldKeeps(lim: Limits, h: Hub, h': Hub, id: int, now: int)
    requires Inv(lim, h) && (Release(h, h', id, now) || GiveUpHeld(h, h', id, now))
    ensures Inv(lim, h') && RowsAdvance(h, h')
  {
    forall j
      ensures Live(h', j) == Count(PendingJob(h'.rows, j))
    {
      assert Live(h, j) == Count(PendingJob(h.rows, j));
    }
    if !h.worker.Idle? {
      LiveIsPending(h, h.worker.job);
    }
    forall k | k in h'.rows
      ensures k in h'.past && SendsBounded(h', k)
    {
      assert SendsBounded(h, k);
    }
  }

  lemma PurgeKeeps(lim: Limits, h: Hub, h': Hub, before: int)
    requires Inv(lim, h) && Purge(h, h', before)
    ensures Inv(lim, h') && RowsAdvance(h, h')
  {
    forall j
      ensures Live(h', j) == Count(PendingJob(h'.rows, j))
    {
      assert Live(h, j) == Count(PendingJob(h.rows, j));
    }
    forall k | k in h'.rows
      ensures k in h'.past && SendsBounded(h', k)
    {
      assert SendsBounded(h, k);
    }
  }

  /** What the boot replay makes of the rows named by ids. */
  lemma {:induction false} ReplayedRows(rows: Rows, enabled: set<string>, ids: seq<int>, now: int)
    requires forall k :: 0 <= k < |ids| ==> ids[k] in rows
    requires forall j, k :: 0 <= j < k < |ids| ==> ids[j] < ids[k]
    ensures var (after, jobs) := Replayed(rows, enabled, ids, now);
            && after.Keys == rows.Keys
            && (forall id :: id in rows ==> after[id] == AfterReplay(rows, enabled, ids, id, now))
            && (forall j :: multiset(jobs)[j] == Count(j.id in ids && j == JobOf(rows, j.id) && j.channel in enabled))
  {
    if ids != [] {
      var n := |ids| - 1;
      ReplayedRows(rows, enabled, ids[..n], now);
      assert ids == ids[..n] + [ids[n]];
    }
  }

  function AfterReplay(rows: Rows, enabled: set<string>, ids: seq<int>, id: int, now: int): Delivery
    requires id in rows
  {
    if id in ids && rows[id].channel !in enabled
    then rows[id].(state := Failed, attempts := 0, lastError := "channel disabled", updatedAt := now)
    else rows[id]
  }

  lemma CrashKeeps(lim: Limits, h: Hub, h': Hub, now: int)
    requires lim.cap > 0 && Inv(lim, h) && Crash(lim, h, h', now)
    ensures Inv(lim, h') && RowsAdvance(h, h')
  {
    var ids := StateIds(h.rows, Pending);
    forall j
      ensures Live(h', j) == Count(PendingJob(h'.rows, j))
    {
      CrashRebuilds(lim, h, h', now, j);
    }
    EnteredAllKeepsAll([], lim.cap, Replayed(h.rows, h.enabled, ids, now).1);
    ReplayedRows(h.rows, h.enabled, ids, now);
    CrashedRowsKeep(h, h', ids, now);
  }

  lemma CrashedRowsKeep(h: Hub, h': Hub, ids: seq<int>, now: int)
    requires AllBounded(h) && h'.worker.Idle? && h'.rows.Keys == h.rows.Keys
    requires forall id :: id in h.rows ==> h'.rows[id] == AfterReplay(h.rows, h.enabled, ids, id, now)
    requires forall k :: 0 <= k < |ids| ==> ids[k] in h.rows && h.rows[ids[k]].state == Pending
    requires h'.past == map id | id in h.past :: Past(h.past[id].sends, h.past[id].crashes + 1)
    ensures AllBounded(h') && RowsAdvance(h, h')
  {
    forall id | id in h'.rows
      ensures id in h'.past && SendsBounded(h', id)
    {
      assert SendsBounded(h, id);
    }
  }

  /** The replay leaves each pending row of an enabled channel exactly one job, and no other. */
  lemma CrashRebuilds(lim: Limits, h: Hub, h': Hub, now: int, j: Job)
    requires lim.cap > 0 && Crash(lim, h, h', now)
    ensures Live(h', j) == Count(PendingJob(h'.rows, j))
  {
    var ids := StateIds(h.rows, Pending);
    ReplayedRows(h.rows, h.enabled, ids, now);
    var (rows, jobs) := Replayed(h.rows, h.enabled, ids, now);
    assert Live(h', j) == multiset(jobs)[j] by {
      EnteredAllCounts([], lim.cap, jobs, j);
    }
    if j.id in h.rows {
      assert rows[j.id] == AfterReplay(h.rows, h.enabled, ids, j.id, now);
    }
  }

  lemma StepKeeps(lim: Limits, h: Hub, step: Step, h': Hub)
    requires lim.cap > 0 && Inv(lim, h) && Does(lim, h, step, h')
    ensures Inv(lim, h') && RowsAdvance(h, h')
  {
    match step
    case Creating(event, channel, kind, held, now) => CreateKeeps(lim, h, h', event, channel, kind, held, now);
    case Handing(batch) => HandKeeps(lim, h, h', batch);
    case Retiring(j, now) => RetireKeeps(lim, h, h', j, now);
    case Taking => TakeKeeps(lim, h, h');
    case Trying(answer) => SendKeeps(lim, h, h', answer);
    case Settling(reason, now) => SettleKeeps(lim, h, h', reason, now);
    case Releasing(id, now) => HeldKeeps(lim, h, h', id, now);
    case GivingUp(id, now) => HeldKeeps(lim, h, h', id, now);
    case Purging(before) => PurgeKeeps(lim, h, h', before);
    case Configuring(enabled) => ConfigureKeeps(lim, h, h', enabled);
    case Crashing(now) => CrashKeeps(lim, h, h', now);
  }

  lemma ConfigureKeeps(lim: Limits, h: Hub, h': Hub, enabled: set<string>)
    requires Inv(lim, h) && Configure(h, h', enabled)
    ensures Inv(lim, h') && RowsAdvance(h, h')
  {
    forall j
      ensures Live(h', j) == Count(PendingJob(h'.rows, j))
    {
      assert Live(h, j) == Count(PendingJob(h.rows, j));
    }
    SameBounds(h, h');
  }

  lemma NextKeeps(lim: Limits, h: Hub, h': Hub)
    requires lim.cap > 0 && Inv(lim, h) && Next(lim, h, h')
    ensures Inv(lim, h') && RowsAdvance(h, h')
  {
    var step :| Does(lim, h, step, h');
    StepKeeps(lim, h, step, h');
  }

  // ---------- every run ----------

  /** At every point of every run, with crashes anywhere: exactly one live job per pending row and none besides, a bounded
      queue, and sends per row bounded by its state. */
  lemma {:induction false} RunsKeepInv(lim: Limits, run: seq<Hub>, k: nat)
    requires lim.cap > 0 && IsRun(lim, run) && k < |run|
    ensures Inv(lim, run[k])
  {
    if k > 0 {
      RunsKeepInv(lim, run, k - 1);
      assert StepAt(lim, run, k - 1);
      NextKeeps(lim, run[k - 1], run[k]);
    }
  }

  /** A sent row was accepted at least once since it was written, and no row more often than once plus its crashes. */
  lemma AtLeastOnceBounded(lim: Limits, run: seq<Hub>, k: nat, id: int)
    requires lim.cap > 0 && IsRun(lim, run) && k < |run| && id in run[k].rows
    ensures id in run[k].past && run[k].past[id].sends <= run[k].past[id].crashes + 1
    ensures run[k].rows[id].state == Sent ==> run[k].past[id].sends >= 1
    ensures run[k].rows[id].state == Held ==> run[k].past[id].sends == 0
  {
    RunsKeepInv(lim, run, k);
    assert SendsBounded(run[k], id);
  }

  predicate Reaches(a: State, b: State) {
    a == b || a == Held || (a == Pending && (b == Sent || b == Failed))
  }

  lemma StepAdvances(lim: Limits, run: seq<Hub>, k: nat, id: int)
    requires lim.cap > 0 && IsRun(lim, run) && k + 1 < |run| && id in run[k].rows && id in run[k + 1].rows
    ensures run[k + 1].rows[id].event == run[k].rows[id].event && run[k + 1].rows[id].channel == run[k].rows[id].channel
    ensures MayBecome(run[k].rows[id].state, run[k + 1].rows[id].state)
  {
    RunsKeepInv(lim, run, k);
    assert StepAt(lim, run, k);
    NextKeeps(lim, run[k], run[k + 1]);
  }

  /** Over any stretch a row lives through, it keeps its event and channel, its state only moves forward, and a settled
      row stays as it is. */
  lemma {:induction false} RowsOnlyAdvance(lim: Limits, run: seq<Hub>, i: nat, k: nat, id: int)
    requires lim.cap > 0 && IsRun(lim, run) && i <= k < |run|
    requires forall m :: i <= m <= k ==> id in run[m].rows
    ensures run[k].rows[id].event == run[i].rows[id].event && run[k].rows[id].channel == run[i].rows[id].channel
    ensures Reaches(run[i].rows[id].state, run[k].rows[id].state)
    decreases k - i
  {
    if i < k {
      RowsOnlyAdvance(lim, run, i, k - 1, id);
      StepAdvances(lim, run, k - 1, id);
    }
  }

  /** Nothing owed is lost: a row that is not settled is still there after any step. */
  lemma OwedRowsRemain(lim: Limits, run: seq<Hub>, k: nat, id: int)
    requires lim.cap > 0 && IsRun(lim, run) && k + 1 < |run|
    requires id in run[k].rows && !Settled(run[k].rows[id])
    ensures id in run[k + 1].rows
    ensures run[k + 1].rows[id].state == Pending ==> Live(run[k + 1], JobOf(run[k + 1].rows, id)) == 1
  {
    RunsKeepInv(lim, run, k);
    assert StepAt(lim, run, k);
    NextKeeps(lim, run[k], run[k + 1]);
  }
}
