/**
 How long quiet hours keep anyone waiting: what the settings page accepts, and what that promises every held row.
 */
module QuietHours {
  import opened Zone
  import opened Deliveries
  import opened Dispatcher
  import opened Notify
  import opened Week
  import Schedule
  import Timeline
  import Sets

  type Quiets = map<string, seq<Schedule.Window>>

  /** A window list is refused when one of its windows does not parse, or when together they leave nothing of the week. */
  ghost predicate Acceptable(ws: seq<Schedule.Window>) {
    (forall k :: 0 <= k < |ws| ==> Schedule.ValidWindow(ws[k])) && !OffAllWeek(ws)
  }

  ghost predicate Accepted(asked: Quiets, known: set<string>, done: set<string>, out: Quiets) {
    && (forall ch :: ch in done ==> ch in asked && ch in known && Acceptable(asked[ch]))
    && (forall ch :: ch in out <==> ch in done && asked[ch] != [])
    && (forall ch :: ch in out ==> Schedule.SameMeaning(asked[ch], out[ch]) && Acceptable(out[ch]))
  }

  lemma SameMeaningAcceptable(ws: seq<Schedule.Window>, ws': seq<Schedule.Window>)
    requires Schedule.SameMeaning(ws, ws') && Acceptable(ws)
    ensures Acceptable(ws')
  {
    var t :| !OffInUtc(ws, t);
    Schedule.SameWindowsSameTimeline(ws, ws', Fixed(0), t);
    assert !OffInUtc(ws', t);
    forall k | 0 <= k < |ws'|
      ensures Schedule.ValidWindow(ws'[k])
    {
      assert Schedule.SameWindow(ws[k], ws'[k]) && Schedule.ValidWindow(ws[k]);
      SameDays(ws[k].days, ws'[k].days);
    }
  }

  lemma SameDays(a: seq<int>, b: seq<int>)
    requires multiset(a) == multiset(b)
    ensures |a| == |b| && forall d :: d in b ==> d in a
  {
    assert |multiset(a)| == |multiset(b)|;
    forall d | d in b
      ensures d in a
    {
      assert d in multiset(b);
    }
  }

  /** The settings page's check, channel by channel in whatever order the map gives. */
  method QuietInput(asked: Quiets, known: set<string>) returns (ok: bool, out: Quiets)
    ensures ok <==> forall ch :: ch in asked ==> ch in known && Acceptable(asked[ch])
    ensures ok ==> Accepted(asked, known, asked.Keys, out)
  {
    out := map[];
    var remaining := asked.Keys;
    while remaining != {}
      invariant remaining <= asked.Keys
      invariant Accepted(asked, known, asked.Keys - remaining, out)
    {
      Sets.SomeMember(remaining);
      var ch :| ch in remaining;
      remaining := remaining - {ch};
      if ch !in known {
        return false, map[];
      }
      var parsed := Schedule.ParseWindows(asked[ch]);
      if parsed.Err? {
        return false, map[];
      }
      var whole := CoversWholeWeek(parsed.value);
      if whole {
        assert !Acceptable(asked[ch]) by {
          forall t
            ensures OffInUtc(asked[ch], t)
          {
            assert OffInUtc(parsed.value, t);
            Schedule.SameWindowsSameTimeline(asked[ch], parsed.value, Fixed(0), t);
          }
        }
        return false, map[];
      }
      assert Acceptable(asked[ch]) by {
        var t :| !OffInUtc(parsed.value, t);
        Schedule.SameWindowsSameTimeline(asked[ch], parsed.value, Fixed(0), t);
        assert !OffInUtc(asked[ch], t);
      }
      SameMeaningAcceptable(asked[ch], parsed.value);
      if |parsed.value| > 0 {
        out := out[ch := parsed.value];
      }
    }
    assert asked.Keys - remaining == asked.Keys;
    ok := true;
  }

  // ---------- one tick ----------

  /** What a release pass over all held rows makes of one row. */
  ghost function Decided(d: Delivery, cfg: Config, chans: seq<string>, now: int): Delivery {
    if d.state != Held then d
    else if d.channel !in chans then d.(state := Failed, attempts := 0, lastError := "channel disabled", updatedAt := now)
    else if Quiet(cfg, d.channel, now) then d
    else d.(state := Pending, updatedAt := now)
  }

  ghost predicate Frees(d: Delivery, cfg: Config, chans: seq<string>, now: int) {
    d.state == Held && d.channel in chans && !Quiet(cfg, d.channel, now)
  }

  predicate HeldIds(rows: Rows, ids: seq<int>) {
    && (forall k :: 0 <= k < |ids| ==> ids[k] in rows && rows[ids[k]].state == Held)
    && forall j, k :: 0 <= j < k < |ids| ==> ids[j] < ids[k]
  }

  /** Each held row is decided on its own. */
  lemma {:induction false} ReleaseDecides(rows: Rows, cfg: Config, chans: seq<string>, ids: seq<int>, now: int, id: int)
    requires HeldIds(rows, ids) && id in rows
    ensures AfterRelease(rows, cfg, chans, ids, now).0[id] == if id in ids then Decided(rows[id], cfg, chans, now) else rows[id]
  {
    if ids != [] {
      var n := |ids| - 1;
      ReleaseDecides(rows, cfg, chans, ids[..n], now, ids[n]);
      ReleaseDecides(rows, cfg, chans, ids[..n], now, id);
      assert ids == ids[..n] + [ids[n]];
    }
  }

  function Mine(j: Job, id: int): nat {
    if j.id == id then 1 else 0
  }

  /** How many jobs name a row. */
  function JobsFor(jobs: seq<Job>, id: int): nat {
    if jobs == [] then 0 else JobsFor(jobs[..|jobs| - 1], id) + Mine(jobs[|jobs| - 1], id)
  }

  lemma JobsForMore(jobs: seq<Job>, more: seq<Job>, id: int)
    requires |more| <= 1
    ensures JobsFor(jobs + more, id) == JobsFor(jobs, id) + if more == [] then 0 else Mine(more[0], id)
  {
    if more == [] {
      assert jobs + more == jobs;
    } else {
      assert (jobs + more)[..|jobs|] == jobs;
    }
  }

  lemma ReleaseOneJobs(rows: Rows, cfg: Config, chans: seq<string>, one: int, now: int, id: int)
    requires one in rows && rows[one].state == Held
    ensures var more := ReleaseOne(rows, cfg, chans, one, now).1;
            && |more| <= 1 && (more == [] ==> one != id || !Frees(rows[one], cfg, chans, now))
            && (more != [] ==> more[0] == Job(one, rows[one].channel, rows[one].kind) && Frees(rows[one], cfg, chans, now))
  {
  }

  /** And the rows set free have exactly one job each. */
  lemma {:induction false} ReleaseJobs(rows: Rows, cfg: Config, chans: seq<string>, ids: seq<int>, now: int, id: int)
    requires HeldIds(rows, ids) && id in rows
    ensures var jobs := AfterRelease(rows, cfg, chans, ids, now).1;
            && JobsFor(jobs, id) == (if id in ids && Frees(rows[id], cfg, chans, now) then 1 else 0)
            && forall j :: j in jobs && j.id == id ==> j == Job(id, rows[id].channel, rows[id].kind)
  {
    if ids != [] {
      var n := |ids| - 1;
      ReleaseJobs(rows, cfg, chans, ids[..n], now, id);
      ReleaseDecides(rows, cfg, chans, ids[..n], now, ids[n]);
      LastId(ids, id);
      var (before, jobs) := AfterRelease(rows, cfg, chans, ids[..n], now);
      assert before[ids[n]] == rows[ids[n]];
      ReleaseOneJobs(before, cfg, chans, ids[n], now, id);
      JobsForMore(jobs, ReleaseOne(before, cfg, chans, ids[n], now).1, id);
    }
  }

  lemma LastId(ids: seq<int>, id: int)
    requires ids != [] && forall j, k :: 0 <= j < k < |ids| ==> ids[j] < ids[k]
    ensures id in ids <==> id in ids[..|ids| - 1] || id == ids[|ids| - 1]
    ensures ids[|ids| - 1] !in ids[..|ids| - 1]
  {
    assert ids == ids[..|ids| - 1] + [ids[|ids| - 1]];
  }

  /** The held rows a pass gets to, oldest first: all of them, or the first n when the hub dies in the middle. */
  function Reached(rows: Rows, n: nat): (ids: seq<int>)
    ensures HeldIds(rows, ids)
  {
    var ids := StateIds(rows, Held);
    if n < |ids| then ids[..n] else ids
  }

  ghost function Pass(rows: Rows, cfg: Config, chans: seq<string>, now: int, n: nat): (Rows, seq<Job>) {
    AfterRelease(rows, cfg, chans, Reached(rows, n), now)
  }

  // ---------- a run of ticks ----------

  /** The rows a run of minute ticks finds, the channels switched on at each, and how many rows each release pass gets to.
      Between two ticks anything may happen that leaves held rows alone; that the rest of the hub does is shown in
      Holding. */
  datatype Minutes = Minutes(ticks: seq<int>, found: seq<Rows>, enabled: seq<seq<string>>, reach: seq<nat>)

  predicate Aligned(m: Minutes) {
    |m.found| == |m.ticks| == |m.enabled| == |m.reach|
  }

  ghost predicate WellTicked(m: Minutes, cfg: Config, since: int) {
    && Aligned(m)
    && Timeline.EveryMinute(since, m.ticks)
    && forall k :: 0 <= k < |m.ticks| - 1 ==> LeavesHeld(m, cfg, k)
  }

  ghost predicate LeavesHeld(m: Minutes, cfg: Config, k: int)
    requires Aligned(m) && 0 <= k < |m.ticks| - 1
  {
    var after := Pass(m.found[k], cfg, m.enabled[k], m.ticks[k], m.reach[k]).0;
    forall id :: id in after && after[id].state == Held ==> id in m.found[k + 1] && m.found[k + 1][id] == after[id]
  }

  predicate GetsTo(m: Minutes, id: int, k: int)
    requires Aligned(m) && 0 <= k < |m.ticks|
  {
    id in Reached(m.found[k], m.reach[k])
  }

  /** A row waiting on a channel that stays on. */
  predicate WaitsOn(m: Minutes, id: int, ch: string)
    requires Aligned(m)
  {
    && m.ticks != [] && id in m.found[0] && m.found[0][id].state == Held && m.found[0][id].channel == ch
    && forall k :: 0 <= k < |m.ticks| ==> ch in m.enabled[k]
  }

  ghost predicate StillHeld(m: Minutes, id: int, k: int)
    requires Aligned(m) && 0 <= k < |m.ticks| && id in m.found[0]
  {
    id in m.found[k] && m.found[k][id] == m.found[0][id]
  }

  /** Up to tick k it is quiet for the channel, or the pass does not get to the row. */
  ghost predicate Passable(m: Minutes, cfg: Config, id: int, ch: string, k: int)
    requires Aligned(m) && k <= |m.ticks|
  {
    forall j :: 0 <= j < k ==> Quiet(cfg, ch, m.ticks[j]) || !GetsTo(m, id, j)
  }

  /** Through ticks that are quiet, or whose pass does not get to it, a held row does not move. */
  lemma {:induction false} StaysHeld(m: Minutes, cfg: Config, since: int, id: int, ch: string, k: nat)
    requires WellTicked(m, cfg, since) && WaitsOn(m, id, ch) && k < |m.ticks|
    requires Passable(m, cfg, id, ch, k)
    ensures StillHeld(m, id, k)
  {
    if k > 0 {
      StaysHeld(m, cfg, since, id, ch, k - 1);
      HeldOneMore(m, cfg, since, id, ch, k - 1);
    }
  }

  lemma HeldOneMore(m: Minutes, cfg: Config, since: int, id: int, ch: string, k: nat)
    requires WellTicked(m, cfg, since) && WaitsOn(m, id, ch) && k < |m.ticks| - 1 && StillHeld(m, id, k)
    requires Quiet(cfg, ch, m.ticks[k]) || !GetsTo(m, id, k)
    ensures StillHeld(m, id, k + 1)
  {
    assert LeavesHeld(m, cfg, k);
    PassLeaves(m.found[k], cfg, m.enabled[k], m.ticks[k], m.reach[k], id);
  }

  lemma PassLeaves(rows: Rows, cfg: Config, chans: seq<string>, now: int, n: nat, id: int)
    requires id in rows && rows[id].state == Held && rows[id].channel in chans
    requires Quiet(cfg, rows[id].channel, now) || id !in Reached(rows, n)
    ensures id in Pass(rows, cfg, chans, now, n).0 && Pass(rows, cfg, chans, now, n).0[id] == rows[id]
  {
    ReleaseDecides(rows, cfg, chans, Reached(rows, n), now, id);
  }

  lemma {:induction false} FirstOpen(cfg: Config, ch: string, ticks: seq<int>, k: nat) returns (first: nat)
    requires k < |ticks| && !Quiet(cfg, ch, ticks[k])
    ensures first <= k && !Quiet(cfg, ch, ticks[first])
    ensures forall j :: 0 <= j < first ==> Quiet(cfg, ch, ticks[j])
  {
    if j :| 0 <= j < k && !Quiet(cfg, ch, ticks[j]) {
      first := FirstOpen(cfg, ch, ticks, j);
    } else {
      first := k;
    }
  }

  ghost predicate FreedAt(m: Minutes, cfg: Config, id: int, ch: string, k: int)
    requires Aligned(m) && 0 <= k < |m.ticks|
  {
    && id in m.found[k] && m.found[k][id].state == Held
    && var (after, jobs) := Pass(m.found[k], cfg, m.enabled[k], m.ticks[k], m.reach[k]);
       after[id].state == Pending && JobsFor(jobs, id) == 1
  }

  /** It stays as it is up to the first tick outside its channel's quiet hours whose pass gets to it, and is set free there,
      with one job. */
  lemma FreedWhenReached(m: Minutes, cfg: Config, since: int, id: int, ch: string, k: nat)
    requires WellTicked(m, cfg, since) && WaitsOn(m, id, ch) && k < |m.ticks|
    requires Passable(m, cfg, id, ch, k)
    ensures forall j :: 0 <= j <= k ==> StillHeld(m, id, j)
    ensures !Quiet(cfg, ch, m.ticks[k]) && GetsTo(m, id, k) ==> FreedAt(m, cfg, id, ch, k)
  {
    forall j | 0 <= j <= k
      ensures StillHeld(m, id, j)
    {
      StaysHeld(m, cfg, since, id, ch, j);
    }
    assert StillHeld(m, id, k);
    ReleaseDecides(m.found[k], cfg, m.enabled[k], Reached(m.found[k], m.reach[k]), m.ticks[k], id);
    ReleaseJobs(m.found[k], cfg, m.enabled[k], Reached(m.found[k], m.reach[k]), m.ticks[k], id);
  }

  /** Quiet hours the settings page accepted hold nothing for a week: for a row held at `since`, the first tick outside its
      channel's quiet hours comes within seven days. */
  lemma HoldEnds(m: Minutes, cfg: Config, since: int, ch: string) returns (k: nat)
    requires cfg.zone == Fixed(cfg.zone.before) && cfg.zone.before % MINUTE == 0
    requires ch in cfg.quiet && Acceptable(cfg.quiet[ch]) && Quiet(cfg, ch, since)
    requires Timeline.EveryMinute(since, m.ticks) && Timeline.LastTick(since, m.ticks) >= since + WEEK
    ensures k < |m.ticks| && m.ticks[k] < since + WEEK && !Quiet(cfg, ch, m.ticks[k])
    ensures forall j :: 0 <= j < k ==> Quiet(cfg, ch, m.ticks[j])
  {
    var on := OnMinuteWithinAWeek(cfg.quiet[ch], cfg.zone.before, since);
    var late := TickInMinute(since, m.ticks, on);
    k := FirstOpen(cfg, ch, m.ticks, late);
    TicksAscend(since, m.ticks, k, late);
  }

  lemma {:induction false} TicksAscend(since: int, ticks: seq<int>, j: nat, k: nat)
    requires Timeline.EveryMinute(since, ticks) && j <= k < |ticks|
    ensures since <= ticks[j] <= ticks[k]
    decreases |ticks|
  {
    if j > 0 {
      TicksAscend(ticks[0], ticks[1..], j - 1, k - 1);
    } else if k > 0 {
      TicksAscend(ticks[0], ticks[1..], 0, k - 1);
    }
  }
}
