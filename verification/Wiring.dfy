/**
 The hub's own methods are runs of the pipeline's steps, so what every run keeps, the code keeps: notifying, reminding,
 releasing, and one delivery from the first send to its row.
 */
module Wiring {
  import opened Deliveries
  import opened Dispatcher
  import opened Notify
  import P = Pipeline
  import QuietHours

  ghost predicate IsPath(lim: P.Limits, run: seq<P.Hub>, h: P.Hub, h': P.Hub) {
    && run != [] && run[0] == h && run[|run| - 1] == h'
    && forall k :: 0 <= k < |run| - 1 ==> P.StepAt(lim, run, k)
  }

  ghost predicate Leads(lim: P.Limits, h: P.Hub, h': P.Hub) {
    exists run :: IsPath(lim, run, h, h')
  }

  lemma Stays(lim: P.Limits, h: P.Hub)
    ensures Leads(lim, h, h)
  {
    assert IsPath(lim, [h], h, h);
  }

  lemma StepsOn(lim: P.Limits, h: P.Hub, m: P.Hub, h': P.Hub)
    requires Leads(lim, h, m) && P.Next(lim, m, h')
    ensures Leads(lim, h, h')
  {
    var run :| IsPath(lim, run, h, m);
    PathGrows(lim, run, h, m, h');
  }

  lemma PathGrows(lim: P.Limits, run: seq<P.Hub>, h: P.Hub, m: P.Hub, h': P.Hub)
    requires IsPath(lim, run, h, m) && P.Next(lim, m, h')
    ensures IsPath(lim, run + [h'], h, h')
  {
    var longer := run + [h'];
    forall k | 0 <= k < |longer| - 1
      ensures P.StepAt(lim, longer, k)
    {
      assert longer[k] == run[k];
      if k < |run| - 1 {
        assert P.StepAt(lim, run, k);
        assert longer[k + 1] == run[k + 1];
      }
    }
  }

  /** What Inv says of one state it says of every state led to. */
  lemma {:induction false} LeadsKeepInv(lim: P.Limits, run: seq<P.Hub>, h: P.Hub, h': P.Hub)
    requires lim.cap > 0 && P.Inv(lim, h) && IsPath(lim, run, h, h')
    ensures P.Inv(lim, h')
    decreases |run|
  {
    if |run| > 1 {
      var n := |run| - 1;
      forall k | 0 <= k < n - 1
        ensures P.StepAt(lim, run[..n], k)
      {
        assert P.StepAt(lim, run, k);
      }
      LeadsKeepInv(lim, run[..n], h, run[n - 1]);
      assert P.StepAt(lim, run, n - 1);
      P.NextKeeps(lim, run[n - 1], run[n]);
    }
  }

  /** Only rows, staged jobs and what is known of rows have changed. */
  predicate SameElse(h: P.Hub, h': P.Hub) {
    h'.queue == h.queue && h'.retiring == h.retiring && h'.worker == h.worker && h'.enabled == h.enabled
  }

  // ---------- rows being written ----------

  function Created(h: P.Hub, event: EventRef, ch: string, kind: Kind, held: bool, now: int): P.Hub {
    var id := NextId(h.rows.Keys);
    var rows := Added(h.rows, SpecRow(event, ch, kind, held, now));
    h.(rows := rows, staged := if held then h.staged else h.staged + multiset{P.JobOf(rows, id)}, past := h.past[id := P.Past(0, 0)])
  }

  lemma {:induction false} NotifyOneLeads(lim: P.Limits, start: P.Hub, h: P.Hub, cfg: Config, chans: seq<string>, event: EventRef,
                                          kind: Kind, offline: bool, now: int) returns (h': P.Hub)
    requires Leads(lim, start, h)
    ensures Leads(lim, start, h') && SameElse(h, h')
    ensures var (rows, jobs) := NotifyOne(h.rows, cfg, chans, event, kind, offline, now);
            h'.rows == rows && h'.staged == h.staged + multiset(jobs)
  {
    h' := h;
    if chans != [] {
      var n := |chans| - 1;
      var m := NotifyOneLeads(lim, start, h, cfg, chans[..n], event, kind, offline, now);
      var held := Waits(cfg, chans[n], offline, now);
      h' := Created(m, event, chans[n], kind, held, now);
      assert P.Does(lim, m, P.Creating(event, chans[n], kind, held, now), h');
      StepsOn(lim, start, m, h');
    }
  }

  lemma {:induction false} NotifyAllLeads(lim: P.Limits, start: P.Hub, h: P.Hub, cfg: Config, chans: seq<string>,
                                          notices: seq<Notice>, now: int) returns (h': P.Hub)
    requires Leads(lim, start, h)
    ensures Leads(lim, start, h') && SameElse(h, h')
    ensures var (rows, jobs) := NotifyAll(h.rows, cfg, chans, notices, now);
            h'.rows == rows && h'.staged == h.staged + multiset(jobs)
    decreases |notices|
  {
    h' := h;
    if notices != [] {
      var n := |notices| - 1;
      var m := NotifyAllLeads(lim, start, h, cfg, chans, notices[..n], now);
      var last := notices[n];
      h' := NotifyOneLeads(lim, start, m, cfg, NoticeChannels(m.rows, chans, last), last.event, last.kind, last.offline, now);
    }
  }

  lemma {:induction false} RemindOneLeads(lim: P.Limits, start: P.Hub, h: P.Hub, cfg: Config, chans: seq<string>, event: EventRef,
                                          offline: bool, now: int) returns (h': P.Hub)
    requires Leads(lim, start, h)
    ensures Leads(lim, start, h') && SameElse(h, h')
    ensures var (rows, jobs) := RemindOne(h.rows, cfg, chans, event, offline, now);
            h'.rows == rows && h'.staged == h.staged + multiset(jobs)
  {
    h' := h;
    if chans != [] {
      var n := |chans| - 1;
      var m := RemindOneLeads(lim, start, h, cfg, chans[..n], event, offline, now);
      h' := m;
      if !Waits(cfg, chans[n], offline, now) {
        h' := Created(m, event, chans[n], Reminder, false, now);
        assert P.Does(lim, m, P.Creating(event, chans[n], Reminder, false, now), h');
        StepsOn(lim, start, m, h');
      }
    }
  }

  lemma {:induction false} RemindAllLeads(lim: P.Limits, start: P.Hub, h: P.Hub, cfg: Config, chans: seq<string>,
                                          recalls: seq<Recall>, now: int) returns (h': P.Hub)
    requires Leads(lim, start, h)
    ensures Leads(lim, start, h') && SameElse(h, h')
    ensures var (rows, jobs) := RemindAll(h.rows, cfg, chans, recalls, now);
            h'.rows == rows && h'.staged == h.staged + multiset(jobs)
    decreases |recalls|
  {
    h' := h;
    if recalls != [] {
      var n := |recalls| - 1;
      var m := RemindAllLeads(lim, start, h, cfg, chans, recalls[..n], now);
      h' := m;
      var r := recalls[n];
      if Due(m.rows, r.notice.event, r.firedAt, r.every, now) {
        h' := RemindOneLeads(lim, start, m, cfg, NoticeChannels(m.rows, chans, r.notice), r.notice.event, r.notice.offline, now);
      }
    }
  }

  // ---------- jobs being handed over ----------

  lemma {:induction false} RetireLeads(lim: P.Limits, start: P.Hub, h: P.Hub, lost: seq<Job>, now: int) returns (h': P.Hub)
    requires Leads(lim, start, h) && multiset(lost) <= h.retiring
    ensures Leads(lim, start, h')
    ensures h' == h.(rows := FailAll(h.rows, lost, now), retiring := h.retiring - multiset(lost))
  {
    h' := h;
    if lost != [] {
      var n := |lost| - 1;
      assert lost == lost[..n] + [lost[n]];
      var m := RetireLeads(lim, start, h, lost[..n], now);
      h' := m.(retiring := m.retiring - multiset{lost[n]}, rows := Closed(m.rows, lost[n].id, Failed, 0, "queue full", now));
      assert P.Does(lim, m, P.Retiring(lost[n], now), h');
      StepsOn(lim, start, m, h');
    }
  }

  /** Enqueue: the whole batch enters, then the rows of what the queue gave up are closed. */
  lemma EnqueueLeads(lim: P.Limits, start: P.Hub, h: P.Hub, batch: seq<Job>, now: int) returns (h': P.Hub)
    requires Leads(lim, start, h) && multiset(batch) <= h.staged
    ensures Leads(lim, start, h')
    ensures var (queue, lost) := EnteredAll(h.queue, lim.cap, batch);
            h' == h.(rows := FailAll(h.rows, lost, now), staged := h.staged - multiset(batch), queue := queue)
  {
    var (queue, lost) := EnteredAll(h.queue, lim.cap, batch);
    var m := h.(staged := h.staged - multiset(batch), queue := queue, retiring := h.retiring + multiset(lost));
    assert P.Does(lim, h, P.Handing(batch), m);
    StepsOn(lim, start, h, m);
    h' := RetireLeads(lim, start, m, lost, now);
  }

  /** What handing over has to leave, in the words of the hub's methods. */
  predicate Delivers(lim: P.Limits, h: P.Hub, h': P.Hub, rows: Rows, jobs: seq<Job>, now: int) {
    var (queue, lost) := EnteredAll(h.queue, lim.cap, jobs);
    && h'.rows == FailAll(rows, lost, now) && h'.queue == queue
    && h'.staged == h.staged && h'.retiring == h.retiring && h'.worker == h.worker && h'.enabled == h.enabled
  }

  /** Announce, and with it notify and notifyGuardrails, is a run of the pipeline's steps. */
  lemma AnnounceLeads(lim: P.Limits, h: P.Hub, cfg: Config, chans: seq<string>, notices: seq<Notice>, now: int) returns (h': P.Hub)
    ensures var (rows, jobs) := NotifyAll(h.rows, cfg, chans, notices, now);
            Leads(lim, h, h') && Delivers(lim, h, h', rows, jobs, now)
  {
    Stays(lim, h);
    var m := NotifyAllLeads(lim, h, h, cfg, chans, notices, now);
    h' := EnqueueLeads(lim, h, m, NotifyAll(h.rows, cfg, chans, notices, now).1, now);
  }

  /** So is remind. */
  lemma RemindLeads(lim: P.Limits, h: P.Hub, cfg: Config, chans: seq<string>, recalls: seq<Recall>, now: int) returns (h': P.Hub)
    ensures var (rows, jobs) := RemindAll(h.rows, cfg, chans, recalls, now);
            Leads(lim, h, h') && Delivers(lim, h, h', rows, jobs, now)
  {
    Stays(lim, h);
    var m := RemindAllLeads(lim, h, h, cfg, chans, recalls, now);
    h' := EnqueueLeads(lim, h, m, RemindAll(h.rows, cfg, chans, recalls, now).1, now);
  }

  // ---------- held rows ----------

  lemma {:induction false} AfterReleaseLeads(lim: P.Limits, start: P.Hub, h: P.Hub, cfg: Config, chans: seq<string>, ids: seq<int>,
                                             now: int) returns (h': P.Hub)
    requires Leads(lim, start, h) && h.enabled == Names(chans) && QuietHours.HeldIds(h.rows, ids)
    ensures Leads(lim, start, h') && SameElse(h, h') && h'.past == h.past
    ensures var (rows, jobs) := AfterRelease(h.rows, cfg, chans, ids, now);
            h'.rows == rows && h'.staged == h.staged + multiset(jobs)
  {
    h' := h;
    if ids != [] {
      var n := |ids| - 1;
      var id := ids[n];
      var m := AfterReleaseLeads(lim, start, h, cfg, chans, ids[..n], now);
      QuietHours.ReleaseDecides(h.rows, cfg, chans, ids[..n], now, id);
      assert m.rows[id] == h.rows[id];
      h' := ReleaseStep(lim, start, m, cfg, chans, id, now);
    }
  }

  lemma ReleaseStep(lim: P.Limits, start: P.Hub, m: P.Hub, cfg: Config, chans: seq<string>, id: int, now: int) returns (h': P.Hub)
    requires Leads(lim, start, m) && m.enabled == Names(chans) && id in m.rows && m.rows[id].state == Held
    ensures Leads(lim, start, h') && SameElse(m, h') && h'.past == m.past
    ensures var (rows, jobs) := ReleaseOne(m.rows, cfg, chans, id, now);
            h'.rows == rows && h'.staged == m.staged + multiset(jobs)
  {
    h' := m;
    if m.rows[id].channel !in chans {
      h' := m.(rows := Closed(m.rows, id, Failed, 0, "channel disabled", now));
      assert P.Does(lim, m, P.GivingUp(id, now), h');
      StepsOn(lim, start, m, h');
    } else if !Quiet(cfg, m.rows[id].channel, now) {
      h' := m.(rows := Released(m.rows, id, now), staged := m.staged + multiset{P.JobOf(m.rows, id)});
      assert P.Does(lim, m, P.Releasing(id, now), h');
      StepsOn(lim, start, m, h');
    }
  }

  /** And so is releaseHeld. */
  lemma ReleaseHeldLeads(lim: P.Limits, h: P.Hub, cfg: Config, chans: seq<string>, now: int) returns (h': P.Hub)
    requires h.enabled == Names(chans)
    ensures var (rows, jobs) := AfterRelease(h.rows, cfg, chans, StateIds(h.rows, Held), now);
            Leads(lim, h, h') && Delivers(lim, h, h', rows, jobs, now)
  {
    Stays(lim, h);
    var ids := StateIds(h.rows, Held);
    var m := AfterReleaseLeads(lim, h, h, cfg, chans, ids, now);
    h' := EnqueueLeads(lim, h, m, AfterRelease(h.rows, cfg, chans, ids, now).1, now);
  }

  /** A crash, and then the boot's replayPendingDeliveries on an empty queue, to its last row. */
  lemma BootLeads(lim: P.Limits, h: P.Hub, now: int) returns (h': P.Hub)
    ensures var (rows, jobs) := P.Replayed(h.rows, h.enabled, StateIds(h.rows, Pending), now);
            var (queue, lost) := EnteredAll([], lim.cap, jobs);
            && Leads(lim, h, h') && h'.rows == FailAll(rows, lost, now) && h'.queue == queue
            && h'.staged == multiset{} && h'.retiring == multiset{} && h'.worker.Idle?
  {
    var (rows, jobs) := P.Replayed(h.rows, h.enabled, StateIds(h.rows, Pending), now);
    var (queue, lost) := EnteredAll([], lim.cap, jobs);
    var m := P.Hub(rows, multiset{}, queue, multiset(lost), P.Idle, h.enabled,
                   map id | id in h.past :: P.Past(h.past[id].sends, h.past[id].crashes + 1));
    assert P.Does(lim, h, P.Crashing(now), m);
    Stays(lim, h);
    StepsOn(lim, h, h, m);
    h' := RetireLeads(lim, h, m, lost, now);
  }

  // ---------- one delivery ----------

  /** The k-th step of a delivery sends, and is answered what `send` answers. */
  ghost predicate SendsAt(lim: P.Limits, run: seq<P.Hub>, send: nat -> Answer, attempt: nat, k: nat)
    requires k < |run| - 1
  {
    P.Does(lim, run[k], P.Trying(send(attempt + k)), run[k + 1])
  }

  /** One send after another, each answered as `send` says, `used` being the number of the last; then the row says how it
      went, unless the wait was cut short. */
  ghost predicate IsDelivery(lim: P.Limits, run: seq<P.Hub>, send: nat -> Answer, attempt: nat, used: nat, outcome: Outcome, now: int) {
    && attempt <= used && |run| == used - attempt + 2 + (if outcome.Interrupted? then 0 else 1)
    && (forall k :: 0 <= k <= used - attempt ==> SendsAt(lim, run, send, attempt, k))
    && match outcome
       case Delivered => P.Does(lim, run[|run| - 2], P.Settling("", now), run[|run| - 1])
       case GivenUp(reason) => P.Does(lim, run[|run| - 2], P.Settling(reason, now), run[|run| - 1])
       case Interrupted => true
  }

  /** deliver, from one attempt on, is a path of the pipeline's steps that takes the very answers it gets. */
  lemma {:induction false} DeliverLeads(lim: P.Limits, h: P.Hub, j: Job, send: nat -> Answer, slept: nat -> bool, attempt: nat,
                                        now: int) returns (run: seq<P.Hub>)
    requires 1 <= attempt <= lim.attempts && j.id in h.past && h.worker == P.Sending(j, attempt - 1)
    ensures var (used, outcome) := Worked(send, slept, lim.attempts, attempt);
            && IsDelivery(lim, run, send, attempt, used, outcome, now) && run[0] == h
            && var h' := run[|run| - 1];
               && h'.queue == h.queue && h'.staged == h.staged && h'.retiring == h.retiring
               && h'.rows == match outcome
                    case Delivered => Closed(h.rows, j.id, Sent, used, "", now)
                    case GivenUp(reason) => Closed(h.rows, j.id, Failed, used, reason, now)
                    case Interrupted => h.rows
    decreases lim.attempts - attempt
  {
    var p := h.past[j.id];
    var m := match send(attempt)
      case Accepted => h.(worker := P.Answered(j, attempt), past := h.past[j.id := p.(sends := p.sends + 1)])
      case Refused(_) => h.(worker := P.Failing(j, attempt))
      case Retry(_) => h.(worker := if attempt >= lim.attempts then P.Failing(j, attempt) else P.Sending(j, attempt));
    assert P.Does(lim, h, P.Trying(send(attempt)), m);
    if m.worker.Sending? && slept(attempt) {
      var rest := DeliverLeads(lim, m, j, send, slept, attempt + 1, now);
      run := [h] + rest;
      SendFirst(lim, h, rest, run, send, slept, attempt, now);
    } else if m.worker.Sending? {
      run := [h, m];
      assert SendsAt(lim, run, send, attempt, 0);
    } else {
      run := [h, m, Settled(m, if send(attempt).Accepted? then "" else send(attempt).reason, now)];
      assert SendsAt(lim, run, send, attempt, 0);
    }
  }

  function Settled(m: P.Hub, reason: string, now: int): P.Hub
    requires m.worker.Answered? || m.worker.Failing?
  {
    m.(worker := P.Idle,
       rows := if m.worker.Answered? then Closed(m.rows, m.worker.job.id, Sent, m.worker.used, "", now)
               else Closed(m.rows, m.worker.job.id, Failed, m.worker.used, reason, now))
  }

  lemma SendFirst(lim: P.Limits, h: P.Hub, rest: seq<P.Hub>, run: seq<P.Hub>, send: nat -> Answer, slept: nat -> bool, attempt: nat,
                  now: int)
    requires attempt < lim.attempts && send(attempt).Retry? && slept(attempt) && run == [h] + rest && rest != []
    requires P.Does(lim, h, P.Trying(send(attempt)), rest[0])
    requires var (used, outcome) := Worked(send, slept, lim.attempts, attempt + 1);
             IsDelivery(lim, rest, send, attempt + 1, used, outcome, now)
    ensures var (used, outcome) := Worked(send, slept, lim.attempts, attempt);
            IsDelivery(lim, run, send, attempt, used, outcome, now)
  {
    var (used, outcome) := Worked(send, slept, lim.attempts, attempt + 1);
    forall k | 0 <= k <= used - attempt
      ensures SendsAt(lim, run, send, attempt, k)
    {
      if k > 0 {
        assert SendsAt(lim, rest, send, attempt + 1, k - 1);
        assert attempt + 1 + (k - 1) == attempt + k;
      }
    }
  }

  /** The worker's turn: the oldest job is taken and delivered, from its first send on. */
  lemma WorkLeads(lim: P.Limits, h: P.Hub, send: nat -> Answer, slept: nat -> bool, now: int) returns (run: seq<P.Hub>)
    requires lim.attempts > 0 && h.worker.Idle? && h.queue != [] && h.queue[0].id in h.past
    ensures |run| > 1 && run[0] == h && P.Does(lim, run[0], P.Taking, run[1])
    ensures var j := h.queue[0];
            var (used, outcome) := Worked(send, slept, lim.attempts, 1);
            && IsDelivery(lim, run[1..], send, 1, used, outcome, now) && Settles(send, slept, lim.attempts, used, outcome)
            && run[|run| - 1].queue == h.queue[1..]
            && run[|run| - 1].rows == match outcome
                 case Delivered => Closed(h.rows, j.id, Sent, used, "", now)
                 case GivenUp(reason) => Closed(h.rows, j.id, Failed, used, reason, now)
                 case Interrupted => h.rows
  {
    var m := h.(queue := h.queue[1..], worker := P.Sending(h.queue[0], 0));
    var rest := DeliverLeads(lim, m, h.queue[0], send, slept, 1, now);
    var (used, outcome) := Worked(send, slept, lim.attempts, 1);
    SettlesOneWay(send, slept, lim.attempts, used, outcome);
    run := [h] + rest;
    assert run[1..] == rest;
  }
}
