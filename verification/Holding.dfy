/**
 Held rows over runs of the whole pipeline: only a release pass touches one, so quiet hours the settings page accepted end
 for every row within a week, whatever else the hub does between two ticks, crashes and reconfigurations included.
 */
module Holding {
  import opened Zone
  import opened Deliveries
  import opened Dispatcher
  import opened Notify
  import opened QuietHours
  import opened Wiring
  import P = Pipeline
  import Timeline
  import Week

  predicate Frees(step: P.Step, id: int) {
    (step.Releasing? || step.GivingUp?) && step.id == id
  }

  predicate IsHeld(rows: Rows, id: int) {
    id in rows && rows[id].state == Held
  }

  predicate Untouched(rows: Rows, rows': Rows, id: int)
    requires id in rows
  {
    id in rows' && rows'[id] == rows[id]
  }

  /** No step touches a held row but releasing it or giving it up. */
  lemma HeldStays(lim: P.Limits, h: P.Hub, step: P.Step, h': P.Hub, id: int)
    requires P.Inv(lim, h) && P.Does(lim, h, step, h') && IsHeld(h.rows, id)
    ensures Untouched(h.rows, h'.rows, id) <==> !Frees(step, id)
  {
    match step
    case Retiring(j, now) => HeldThroughClosing(h, h', j, id);
    case Settling(_, _) => HeldThroughClosing(h, h', h.worker.job, id);
    case _ => HeldThroughOther(lim, h, step, h', id);
  }

  lemma HeldThroughOther(lim: P.Limits, h: P.Hub, step: P.Step, h': P.Hub, id: int)
    requires P.Does(lim, h, step, h') && IsHeld(h.rows, id) && !step.Retiring? && !step.Settling?
    ensures Untouched(h.rows, h'.rows, id) <==> !Frees(step, id)
  {
    match step
    case Crashing(now) => HeldThroughCrash(lim, h, h', now, id);
    case _ =>
  }

  /** A job in memory is not a held row's. */
  lemma HeldThroughClosing(h: P.Hub, h': P.Hub, j: Job, id: int)
    requires P.OneJobEach(h) && P.Live(h, j) > 0 && IsHeld(h.rows, id)
    requires forall k :: k in h.rows && k != j.id ==> k in h'.rows && h'.rows[k] == h.rows[k]
    ensures Untouched(h.rows, h'.rows, id)
  {
    P.LiveIsPending(h, j);
  }

  lemma HeldThroughCrash(lim: P.Limits, h: P.Hub, h': P.Hub, now: int, id: int)
    requires P.Crash(lim, h, h', now) && IsHeld(h.rows, id)
    ensures Untouched(h.rows, h'.rows, id)
  {
    P.ReplayedRows(h.rows, h.enabled, StateIds(h.rows, Pending), now);
  }

  // ---------- between two ticks ----------

  predicate Passes(step: P.Step) {
    step.Releasing? || step.GivingUp?
  }

  ghost predicate OtherAt(lim: P.Limits, run: seq<P.Hub>, k: int)
    requires 0 <= k < |run| - 1
  {
    exists step :: P.Does(lim, run[k], step, run[k + 1]) && !Passes(step)
  }

  /** A stretch of the pipeline without a release pass. */
  ghost predicate IsBetween(lim: P.Limits, run: seq<P.Hub>, h: P.Hub, h': P.Hub) {
    && run != [] && run[0] == h && run[|run| - 1] == h'
    && forall k :: 0 <= k < |run| - 1 ==> OtherAt(lim, run, k)
  }

  lemma {:induction false} BetweenKeeps(lim: P.Limits, run: seq<P.Hub>, h: P.Hub, h': P.Hub)
    requires lim.cap > 0 && P.Inv(lim, h) && IsBetween(lim, run, h, h')
    ensures P.Inv(lim, h')
    ensures forall id :: IsHeld(h.rows, id) ==> Untouched(h.rows, h'.rows, id)
    decreases |run|
  {
    if |run| > 1 {
      var n := |run| - 1;
      forall k | 0 <= k < n - 1
        ensures OtherAt(lim, run[..n], k)
      {
        assert OtherAt(lim, run, k);
      }
      BetweenKeeps(lim, run[..n], h, run[n - 1]);
      assert OtherAt(lim, run, n - 1);
      var step :| P.Does(lim, run[n - 1], step, run[n]) && !Passes(step);
      P.StepKeeps(lim, run[n - 1], step, run[n]);
      forall id | IsHeld(h.rows, id)
        ensures Untouched(h.rows, h'.rows, id)
      {
        HeldStays(lim, run[n - 1], step, run[n], id);
      }
    }
  }

  // ---------- a run of ticks ----------

  /** What a release pass leaves, before its jobs are handed over; one cut short has only got to its first n rows. */
  ghost function Passed(h: P.Hub, cfg: Config, chans: seq<string>, now: int, n: nat): P.Hub {
    var (rows, jobs) := Pass(h.rows, cfg, chans, now, n);
    h.(rows := rows, staged := h.staged + multiset(jobs))
  }

  /** It is a run of the pipeline's steps. */
  lemma PassLeads(lim: P.Limits, h: P.Hub, cfg: Config, chans: seq<string>, now: int, n: nat)
    requires h.enabled == Names(chans)
    ensures Leads(lim, h, Passed(h, cfg, chans, now, n))
  {
    Stays(lim, h);
    var h' := AfterReleaseLeads(lim, h, h, cfg, chans, Reached(h.rows, n), now);
    assert h' == Passed(h, cfg, chans, now, n);
  }

  /** Minute ticks of a hub: the state each finds, the channels then on, how many held rows its pass gets to, and what the hub
      goes through until the next. A hub that dies in the middle of a pass goes through a crash. */
  datatype Ticked = Ticked(ticks: seq<int>, found: seq<P.Hub>, chans: seq<seq<string>>, reach: seq<nat>,
                           between: seq<seq<P.Hub>>)

  predicate Fits(t: Ticked) {
    |t.found| == |t.ticks| == |t.chans| == |t.reach| == |t.between|
  }

  ghost function After(t: Ticked, cfg: Config, k: int): P.Hub
    requires Fits(t) && 0 <= k < |t.ticks|
  {
    Passed(t.found[k], cfg, t.chans[k], t.ticks[k], t.reach[k])
  }

  ghost predicate TickAt(lim: P.Limits, t: Ticked, cfg: Config, k: int)
    requires Fits(t) && 0 <= k < |t.ticks|
  {
    && t.found[k].enabled == Names(t.chans[k])
    && (k + 1 < |t.ticks| ==> IsBetween(lim, t.between[k], After(t, cfg, k), t.found[k + 1]))
  }

  ghost predicate IsTicked(lim: P.Limits, t: Ticked, cfg: Config, since: int) {
    && Fits(t) && Timeline.EveryMinute(since, t.ticks)
    && forall k :: 0 <= k < |t.ticks| ==> TickAt(lim, t, cfg, k)
  }

  ghost predicate Reachable(lim: P.Limits, h: P.Hub) {
    exists run, k :: ReachedAt(lim, run, k, h)
  }

  ghost predicate ReachedAt(lim: P.Limits, run: seq<P.Hub>, k: nat, h: P.Hub) {
    P.IsRun(lim, run) && k < |run| && run[k] == h
  }

  lemma ReachableKeeps(lim: P.Limits, h: P.Hub)
    requires lim.cap > 0 && Reachable(lim, h)
    ensures P.Inv(lim, h)
  {
    var run, k: nat :| ReachedAt(lim, run, k, h);
    P.RunsKeepInv(lim, run, k);
  }

  lemma PassKeeps(lim: P.Limits, h: P.Hub, cfg: Config, chans: seq<string>, now: int, n: nat)
    requires lim.cap > 0 && P.Inv(lim, h) && h.enabled == Names(chans)
    ensures P.Inv(lim, Passed(h, cfg, chans, now, n))
  {
    PassLeads(lim, h, cfg, chans, now, n);
    var run :| IsPath(lim, run, h, Passed(h, cfg, chans, now, n));
    LeadsKeepInv(lim, run, h, Passed(h, cfg, chans, now, n));
  }

  lemma {:induction false} TicksKeep(lim: P.Limits, t: Ticked, cfg: Config, since: int, k: nat)
    requires lim.cap > 0 && IsTicked(lim, t, cfg, since) && k < |t.ticks| && P.Inv(lim, t.found[0])
    ensures P.Inv(lim, t.found[k])
  {
    if k > 0 {
      TicksKeep(lim, t, cfg, since, k - 1);
      assert TickAt(lim, t, cfg, k - 1);
      PassKeeps(lim, t.found[k - 1], cfg, t.chans[k - 1], t.ticks[k - 1], t.reach[k - 1]);
      BetweenKeeps(lim, t.between[k - 1], After(t, cfg, k - 1), t.found[k]);
    }
  }

  ghost function RowsFound(found: seq<P.Hub>): (rows: seq<Rows>)
    ensures |rows| == |found| && forall k :: 0 <= k < |found| ==> rows[k] == found[k].rows
  {
    if found == [] then [] else RowsFound(found[..|found| - 1]) + [found[|found| - 1].rows]
  }

  ghost function MinutesOf(t: Ticked): Minutes {
    Minutes(t.ticks, RowsFound(t.found), t.chans, t.reach)
  }

  /** So between the ticks of a hub held rows are left alone. */
  lemma HubLeavesHeld(lim: P.Limits, t: Ticked, cfg: Config, since: int)
    requires lim.cap > 0 && IsTicked(lim, t, cfg, since) && (t.ticks != [] ==> P.Inv(lim, t.found[0]))
    ensures WellTicked(MinutesOf(t), cfg, since)
  {
    forall k | 0 <= k < |t.ticks| - 1
      ensures LeavesHeld(MinutesOf(t), cfg, k)
    {
      TicksKeep(lim, t, cfg, since, k);
      assert TickAt(lim, t, cfg, k);
      PassKeeps(lim, t.found[k], cfg, t.chans[k], t.ticks[k], t.reach[k]);
      BetweenKeeps(lim, t.between[k], After(t, cfg, k), t.found[k + 1]);
      var after := Pass(t.found[k].rows, cfg, t.chans[k], t.ticks[k], t.reach[k]).0;
      forall id | id in after && after[id].state == Held
        ensures id in t.found[k + 1].rows && t.found[k + 1].rows[id] == after[id]
      {
        assert IsHeld(After(t, cfg, k).rows, id);
      }
    }
  }

  /** A row on a channel that stays on, in a hub some run can reach, stays as it is up to the first minute tick outside its
      channel's quiet hours whose pass gets to it, whatever the hub does in between, and is set free there with one job. */
  lemma HeldUntilReached(lim: P.Limits, t: Ticked, cfg: Config, since: int, id: int, ch: string, k: nat)
    requires lim.cap > 0 && IsTicked(lim, t, cfg, since) && t.ticks != [] && Reachable(lim, t.found[0])
    requires IsHeld(t.found[0].rows, id) && t.found[0].rows[id].channel == ch
    requires (forall j :: 0 <= j < |t.ticks| ==> ch in t.chans[j]) && k < |t.ticks|
    requires forall j :: 0 <= j < k ==> Quiet(cfg, ch, t.ticks[j]) || !GetsTo(MinutesOf(t), id, j)
    ensures forall j :: 0 <= j <= k ==> IsHeld(t.found[j].rows, id) && t.found[j].rows[id] == t.found[0].rows[id]
    ensures !Quiet(cfg, ch, t.ticks[k]) && GetsTo(MinutesOf(t), id, k) ==> FreedAt(MinutesOf(t), cfg, id, ch, k)
  {
    ReachableKeeps(lim, t.found[0]);
    HubLeavesHeld(lim, t, cfg, since);
    FreedWhenReached(MinutesOf(t), cfg, since, id, ch, k);
    forall j | 0 <= j <= k
      ensures IsHeld(t.found[j].rows, id) && t.found[j].rows[id] == t.found[0].rows[id]
    {
      assert StillHeld(MinutesOf(t), id, j) && MinutesOf(t).found[j] == t.found[j].rows;
    }
  }

  /** Quiet hours the settings page accepted hold nothing for a week: the first such tick comes within seven days, and only a
      hub that dies in that very pass, before it gets to the row, leaves it held any longer. */
  lemma BoundedHold(lim: P.Limits, t: Ticked, cfg: Config, since: int, id: int, ch: string) returns (k: nat)
    requires lim.cap > 0 && IsTicked(lim, t, cfg, since) && t.ticks != [] && Reachable(lim, t.found[0])
    requires cfg.zone == Fixed(cfg.zone.before) && cfg.zone.before % MINUTE == 0
    requires ch in cfg.quiet && Acceptable(cfg.quiet[ch]) && Quiet(cfg, ch, since)
    requires IsHeld(t.found[0].rows, id) && t.found[0].rows[id].channel == ch
    requires forall j :: 0 <= j < |t.ticks| ==> ch in t.chans[j]
    requires Timeline.LastTick(since, t.ticks) >= since + Week.WEEK
    ensures k < |t.ticks| && t.ticks[k] < since + Week.WEEK && !Quiet(cfg, ch, t.ticks[k])
    ensures forall j :: 0 <= j <= k ==> IsHeld(t.found[j].rows, id) && t.found[j].rows[id] == t.found[0].rows[id]
    ensures forall j :: 0 <= j < k ==> Quiet(cfg, ch, t.ticks[j])
    ensures if GetsTo(MinutesOf(t), id, k) then FreedAt(MinutesOf(t), cfg, id, ch, k)
            else t.reach[k] < |StateIds(t.found[k].rows, Held)|
  {
    k := HoldEnds(MinutesOf(t), cfg, since, ch);
    HeldUntilReached(lim, t, cfg, since, id, ch, k);
  }
}
