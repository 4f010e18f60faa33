/**
 Reminders over runs of the whole pipeline: what the hub does to the reminders of one event is one round after another and,
 in between, nothing but settling their rows and, thirty days on, purging them.
 */
module Pacing {
  import opened Deliveries
  import opened Notify
  import opened Reminders
  import opened Wiring
  import P = Pipeline

  /** Every date a step writes is the moment it is taken at, and the hourly purge goes by it. */
  predicate Dated(step: P.Step, now: int) {
    match step
    case Creating(_, _, _, _, at) => at == now
    case Retiring(_, at) => at == now
    case Settling(_, at) => at == now
    case Releasing(_, at) => at == now
    case GivingUp(_, at) => at == now
    case Purging(before) => before == now - KEEP
    case Crashing(at) => at == now
    case _ => true
  }

  predicate Reminds(step: P.Step, e: EventRef) {
    step.Creating? && step.event == e && step.kind == Reminder
  }

  /** Every step but creating a reminder of the event leaves its reminders alone. */
  lemma StepRests(lim: P.Limits, h: P.Hub, step: P.Step, h': P.Hub, e: EventRef, now: int)
    requires P.Does(lim, h, step, h') && Dated(step, now) && !Reminds(step, e)
    ensures Rest(h.rows, h'.rows, e, now)
  {
    match step
    case Creating(event, channel, kind, held, at) => CreatingRests(h, h', event, channel, kind, held, at, e);
    case Retiring(j, at) => SettlingRests(h.rows, j.id, Failed, 0, "queue full", e, at);
    case Settling(reason, at) => ClosingRests(h, h', reason, at, e);
    case Releasing(id, at) => SettlingRests(h.rows, id, Failed, 0, "", e, at);
    case GivingUp(id, at) => SettlingRests(h.rows, id, Failed, 0, "channel disabled", e, at);
    case Purging(before) => PurgingRests(h.rows, e, now);
    case Crashing(at) => CrashRests(lim, h, h', at, e);
    case _ => SameRests(h.rows, e, now);
  }

  lemma SameRests(rows: Rows, e: EventRef, now: int)
    ensures Rest(rows, rows, e, now)
  {
  }

  lemma CreatingRests(h: P.Hub, h': P.Hub, event: EventRef, channel: string, kind: Kind, held: bool, now: int, e: EventRef)
    requires P.Create(h, h', event, channel, kind, held, now) && !(event == e && kind == Reminder)
    ensures Rest(h.rows, h'.rows, e, now)
  {
    AddingRests(h.rows, h'.rows, e, 0, 0, now);
  }

  lemma ClosingRests(h: P.Hub, h': P.Hub, reason: string, now: int, e: EventRef)
    requires P.Settle(h, h', reason, now)
    ensures Rest(h.rows, h'.rows, e, now)
  {
    SettlingRests(h.rows, h.worker.job.id, Sent, h.worker.used, "", e, now);
    SettlingRests(h.rows, h.worker.job.id, Failed, h.worker.used, reason, e, now);
  }

  lemma CrashRests(lim: P.Limits, h: P.Hub, h': P.Hub, now: int, e: EventRef)
    requires P.Crash(lim, h, h', now)
    ensures Rest(h.rows, h'.rows, e, now)
  {
    var ids := StateIds(h.rows, Pending);
    P.ReplayedRows(h.rows, h.enabled, ids, now);
    forall id | id in h.rows
      ensures h'.rows[id] == P.AfterReplay(h.rows, h.enabled, ids, id, now)
    {
    }
  }

  // ---------- runs ----------

  /** A step of the pipeline, or remind on one fired event. */
  datatype Move = Ordinary(step: P.Step) | Recalling(recall: Recall, cfg: Config, chans: seq<string>)

  /** What remind does for one recall, up to handing over its jobs: a run of the pipeline's steps, too. */
  ghost predicate Recalled(lim: P.Limits, h: P.Hub, h': P.Hub, r: Recall, cfg: Config, chans: seq<string>, now: int) {
    Leads(lim, h, h') && h'.rows == RemindOf(h.rows, cfg, chans, r, now).0
  }

  /** There is such a state whenever the hub reminds. */
  lemma RecallLeads(lim: P.Limits, h: P.Hub, r: Recall, cfg: Config, chans: seq<string>, now: int) returns (h': P.Hub)
    ensures Recalled(lim, h, h', r, cfg, chans, now)
    ensures h'.staged == h.staged + multiset(RemindOf(h.rows, cfg, chans, r, now).1) && SameElse(h, h')
  {
    Stays(lim, h);
    h' := h;
    if Due(h.rows, r.notice.event, r.firedAt, r.every, now) {
      h' := RemindOneLeads(lim, h, h, cfg, NoticeChannels(h.rows, chans, r.notice), r.notice.event, r.notice.offline, now);
    }
  }

  /** Moves at their moments, the clock never going back. The event's reminders only come from remind, which recalls it with
      one firing time and one interval. */
  datatype Paced = Paced(hubs: seq<P.Hub>, times: seq<int>, moves: seq<Move>)

  ghost predicate MoveAt(lim: P.Limits, p: Paced, e: EventRef, firedAt: int, every: int, k: int)
    requires |p.hubs| == |p.times| == |p.moves| + 1 && 0 <= k < |p.moves|
  {
    && p.times[k] <= p.times[k + 1]
    && match p.moves[k]
       case Ordinary(step) => P.Does(lim, p.hubs[k], step, p.hubs[k + 1]) && Dated(step, p.times[k + 1]) && !Reminds(step, e)
       case Recalling(r, cfg, chans) =>
         && Recalled(lim, p.hubs[k], p.hubs[k + 1], r, cfg, chans, p.times[k + 1])
         && (r.notice.event == e ==> r.firedAt == firedAt && r.every == every)
  }

  ghost predicate IsPaced(lim: P.Limits, p: Paced, e: EventRef, firedAt: int, every: int) {
    && |p.hubs| == |p.times| == |p.moves| + 1
    && firedAt <= p.times[0] && NeverReminded(p.hubs[0].rows, e)
    && forall k :: 0 <= k < |p.moves| ==> MoveAt(lim, p, e, firedAt, every, k)
  }

  function Moments(p: Paced, n: nat): (run: seq<Moment>)
    requires n <= |p.hubs| && |p.hubs| == |p.times|
    ensures |run| == n && forall k :: 0 <= k < n ==> run[k] == Moment(p.times[k], p.hubs[k].rows)
  {
    if n == 0 then [] else Moments(p, n - 1) + [Moment(p.times[n - 1], p.hubs[n - 1].rows)]
  }

  /** Reminding of one event is a round of it, and adds nothing for any other. */
  lemma RecallIsRound(rows: Rows, r: Recall, cfg: Config, chans: seq<string>, now: int, e: EventRef, firedAt: int, every: int)
    requires r.notice.event == e ==> r.firedAt == firedAt && r.every == every
    ensures var after := RemindOf(rows, cfg, chans, r, now).0;
            Round(rows, after, e, firedAt, every, now) || Rest(rows, after, e, now)
  {
    var after := RemindOf(rows, cfg, chans, r, now).0;
    SameRests(rows, e, now);
    if Due(rows, r.notice.event, r.firedAt, r.every, now) {
      RemindOneAdds(rows, cfg, NoticeChannels(rows, chans, r.notice), r.notice.event, r.notice.offline, now);
      AddsOrRests(rows, after, r.notice.event, now, e, firedAt, every);
    }
  }

  lemma AddsOrRests(rows: Rows, after: Rows, due: EventRef, now: int, e: EventRef, firedAt: int, every: int)
    requires Reminded(rows, after, due, now) && (due == e ==> Due(rows, e, firedAt, every, now))
    ensures Round(rows, after, e, firedAt, every, now) || Rest(rows, after, e, now)
  {
    if exists id :: id in after && id !in rows && Repeats(after[id], e) {
    } else {
      AddingRests(rows, after, e, firedAt, every, now);
    }
  }

  lemma PacedIsRun(lim: P.Limits, p: Paced, e: EventRef, firedAt: int, every: int)
    requires IsPaced(lim, p, e, firedAt, every)
    ensures Reminders.IsRun(Moments(p, |p.hubs|), e, firedAt, every)
  {
    var run := Moments(p, |p.hubs|);
    forall k | 0 <= k < |run| - 1
      ensures Reminders.StepAt(run, e, firedAt, every, k)
    {
      assert MoveAt(lim, p, e, firedAt, every, k);
      match p.moves[k]
      case Ordinary(step) => StepRests(lim, p.hubs[k], step, p.hubs[k + 1], e, p.times[k + 1]);
      case Recalling(r, cfg, chans) =>
        RecallIsRound(p.hubs[k].rows, r, cfg, chans, p.times[k + 1], e, firedAt, every);
    }
  }

  /** Over any run of the hub from the moment an event fired, with crashes, purges, quiet hours and the life of every other
      row anywhere in it, the first reminder comes at least the interval after the firing, and any two rounds are at least
      that far apart. */
  lemma RunsAreSpaced(lim: P.Limits, p: Paced, e: EventRef, firedAt: int, every: int)
    requires every <= 2_592_000_000_000_001 && IsPaced(lim, p, e, firedAt, every)
    ensures Spaced(Moments(p, |p.hubs|), e, firedAt, every)
  {
    PacedIsRun(lim, p, e, firedAt, every);
    Reminders.RunsAreSpaced(Moments(p, |p.hubs|), e, firedAt, every);
  }
}
