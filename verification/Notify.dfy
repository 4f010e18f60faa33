/**
 Who is owed what: the rows a transition or a reminder gives rise to, what waits for quiet hours, and what a boot replays.
 */
module Notify {
  import opened Options
  import opened Zone
  import opened Deliveries
  import opened Sets
  import opened Dispatcher
  import Journal
  import Alerts
  import Schedule
  import Pipeline

  /** Everyone is a nil route: every enabled channel, one enabled tomorrow included. */
  datatype Route = Everyone | Only(names: seq<string>)

  datatype RuleSettings = RuleSettings(route: Route, remind: int)

  datatype Config = Config(offlineRoute: Route, guardrailRoute: Route, offlineRemind: int, guardrailRemind: int,
                           quiet: map<string, seq<Schedule.Window>>, zone: Zone)

  type GuardrailKey = Journal.GuardrailKey

  type Log<K> = seq<Journal.Entry<K>>

  // ---------- routes ----------

  predicate Owed(ch: string, route: Route, also: set<string>) {
    route.Everyone? || ch in route.names || ch in also
  }

  /** The enabled channels a transition is owed. */
  function Routed(chans: seq<string>, route: Route, also: set<string>): (out: seq<string>)
    ensures forall ch :: ch in out <==> ch in chans && Owed(ch, route, also)
    ensures Distinct(chans) ==> Distinct(out)
  {
    if chans == [] then []
    else
      var n := |chans| - 1;
      var before := Routed(chans[..n], route, also);
      assert chans == chans[..n] + [chans[n]];
      if Owed(chans[n], route, also) then before + [chans[n]] else before
  }

  function Names(chans: seq<string>): set<string> {
    set ch | ch in chans
  }

  predicate Distinct(xs: seq<string>) {
    forall j, k :: 0 <= j < k < |xs| ==> xs[j] != xs[k]
  }

  method RouteChannels(chans: seq<string>, route: Route, also: set<string>) returns (out: seq<string>)
    ensures out == Routed(chans, route, also)
  {
    out := [];
    for i := 0 to |chans|
      invariant out == Routed(chans[..i], route, also)
    {
      assert chans[..i + 1][..i] == chans[..i];
      if Owed(chans[i], route, also) {
        out := out + [chans[i]];
      }
    }
    assert chans[..|chans|] == chans;
  }

  /** Every channel the hub knows, in its own order. */
  const CHANNELS: seq<string> := ["smtp", "webhook", "teams"]

  /** Refused when it names a channel nobody knows; else the same channels in the hub's order, each once. Everyone stays
      everyone. */
  method NormalizeRoute(route: Route) returns (r: Option<Route>)
    ensures route.Everyone? ==> r == Some(Everyone)
    ensures route.Only? ==> (r.Some? <==> forall ch :: ch in route.names ==> ch in CHANNELS)
    ensures route.Only? && r.Some? ==> r.value.Only? && r.value.names == Routed(CHANNELS, route, {}) && Distinct(r.value.names)
    ensures route.Only? && r.Some? ==> forall ch :: ch in r.value.names <==> ch in route.names
  {
    if route.Everyone? {
      return Some(Everyone);
    }
    for i := 0 to |route.names|
      invariant forall k :: 0 <= k < i ==> route.names[k] in CHANNELS
    {
      if route.names[i] !in CHANNELS {
        return None;
      }
    }
    assert Distinct(CHANNELS);
    var out := RouteChannels(CHANNELS, route, {});
    return Some(Only(out));
  }

  /** A rule deleted since the event goes everywhere. */
  function AlertRoute(cfg: Config, rule: int, rules: map<int, RuleSettings>): Route {
    if rule == Alerts.STATUS_RULE then cfg.offlineRoute else if rule in rules then rules[rule].route else Everyone
  }

  /** The id of the key's last fired entry below `before`, 0 when there is none; an entry's id is its place, from 1. */
  function LastFired<K(==)>(log: Log<K>, k: K, before: nat): (id: nat)
    requires before <= |log| + 1
    ensures id < before || id == 0
    ensures id > 0 ==> log[id - 1].key == k && log[id - 1].change == Journal.Fired
    ensures forall i :: id <= i < before - 1 ==> !(log[i].key == k && log[i].change == Journal.Fired)
  {
    if before <= 1 then 0
    else if log[before - 2].key == k && log[before - 2].change == Journal.Fired then before - 1
    else LastFired(log, k, before - 1)
  }

  /** Every channel with a row for an event, whatever became of it. */
  function ChannelsOf(rows: Rows, event: EventRef): set<string> {
    set id | id in rows && rows[id].event == event :: rows[id].channel
  }

  // ---------- quiet hours ----------

  ghost predicate Quiet(cfg: Config, ch: string, now: int) {
    && ch in cfg.quiet && cfg.quiet[ch] != []
    && (forall k :: 0 <= k < |cfg.quiet[ch]| ==> Schedule.ValidWindow(cfg.quiet[ch][k]))
    && Schedule.OffTimeline(cfg.quiet[ch], cfg.zone, now)
  }

  /** Windows that do not parse are no quiet hours: the hub over-notifies rather than hold everything. */
  method QuietNow(cfg: Config, ch: string, now: int) returns (r: bool)
    requires Regular(cfg.zone)
    ensures r <==> Quiet(cfg, ch, now)
  {
    if ch !in cfg.quiet {
      return false;
    }
    var ws := Schedule.ParseWindows(cfg.quiet[ch]);
    if ws.Err? || |ws.value| == 0 {
      return false;
    }
    Schedule.SameWindowsSameTimeline(cfg.quiet[ch], ws.value, cfg.zone, now);
    r := Schedule.Off(ws.value, cfg.zone, now);
  }

  ghost predicate Waits(cfg: Config, ch: string, offline: bool, now: int) {
    !offline && Quiet(cfg, ch, now)
  }

  // ---------- what one event gives rise to ----------

  /** One row per channel, held or with a job. */
  ghost function NotifyOne(rows: Rows, cfg: Config, chans: seq<string>, event: EventRef, kind: Kind, offline: bool, now: int)
    : (Rows, seq<Job>)
  {
    if chans == [] then (rows, [])
    else
      var n := |chans| - 1;
      var (before, jobs) := NotifyOne(rows, cfg, chans[..n], event, kind, offline, now);
      var held := Waits(cfg, chans[n], offline, now);
      (Added(before, SpecRow(event, chans[n], kind, held, now)),
       if held then jobs else jobs + [Job(NextId(before.Keys), chans[n], kind)])
  }

  /** One reminder per channel that is not in its quiet hours. */
  ghost function RemindOne(rows: Rows, cfg: Config, chans: seq<string>, event: EventRef, offline: bool, now: int)
    : (Rows, seq<Job>)
  {
    if chans == [] then (rows, [])
    else
      var n := |chans| - 1;
      var (before, jobs) := RemindOne(rows, cfg, chans[..n], event, offline, now);
      if Waits(cfg, chans[n], offline, now) then (before, jobs)
      else (Added(before, SpecRow(event, chans[n], Reminder, false, now)), jobs + [Job(NextId(before.Keys), chans[n], Reminder)])
  }

  function KindOf(c: Journal.Change): Kind {
    if c == Journal.Fired then Fired else Resolved
  }

  /** What a journal entry has to say and to whom: its route, and for a resolved also the channels of the fired it ends. */
  datatype Notice = Notice(event: EventRef, kind: Kind, route: Route, ended: Option<EventRef>, offline: bool)

  function FiredBefore<K(==)>(log: Log<K>, k: K, before: nat, ref: int -> EventRef): Option<EventRef>
    requires before <= |log| + 1
  {
    var id := LastFired(log, k, before);
    if id == 0 then None else Some(ref(id))
  }

  function AlertNotice(log: Log<Alerts.Key>, cfg: Config, rules: map<int, RuleSettings>, id: nat): Notice
    requires 1 <= id <= |log|
  {
    var e := log[id - 1];
    Notice(OfAlert(id), KindOf(e.change), AlertRoute(cfg, e.key.rule, rules),
           if e.change == Journal.Resolved then FiredBefore(log, e.key, id, i => OfAlert(i)) else None,
           e.key.rule == Alerts.STATUS_RULE)
  }

  function GuardrailNotice(log: Log<GuardrailKey>, cfg: Config, id: nat): Notice
    requires 1 <= id <= |log|
  {
    var e := log[id - 1];
    Notice(OfGuardrail(id), KindOf(e.change), cfg.guardrailRoute,
           if e.change == Journal.Resolved then FiredBefore(log, e.key, id, i => OfGuardrail(i)) else None, false)
  }

  function AlertNotices(log: Log<Alerts.Key>, cfg: Config, rules: map<int, RuleSettings>, ids: seq<nat>): (notices: seq<Notice>)
    requires forall k :: 0 <= k < |ids| ==> 1 <= ids[k] <= |log|
    ensures |notices| == |ids| && forall k :: 0 <= k < |ids| ==> notices[k] == AlertNotice(log, cfg, rules, ids[k])
  {
    if ids == [] then [] else AlertNotices(log, cfg, rules, ids[..|ids| - 1]) + [AlertNotice(log, cfg, rules, ids[|ids| - 1])]
  }

  function GuardrailNotices(log: Log<GuardrailKey>, cfg: Config, ids: seq<nat>): (notices: seq<Notice>)
    requires forall k :: 0 <= k < |ids| ==> 1 <= ids[k] <= |log|
    ensures |notices| == |ids| && forall k :: 0 <= k < |ids| ==> notices[k] == GuardrailNotice(log, cfg, ids[k])
  {
    if ids == [] then [] else GuardrailNotices(log, cfg, ids[..|ids| - 1]) + [GuardrailNotice(log, cfg, ids[|ids| - 1])]
  }

  function NoticeChannels(rows: Rows, chans: seq<string>, n: Notice): seq<string> {
    Routed(chans, n.route, if n.ended.Some? then ChannelsOf(rows, n.ended.value) else {})
  }

  ghost function NotifyOf(rows: Rows, cfg: Config, chans: seq<string>, n: Notice, now: int): (Rows, seq<Job>) {
    NotifyOne(rows, cfg, NoticeChannels(rows, chans, n), n.event, n.kind, n.offline, now)
  }

  /** One notice after another: a fired and its resolved may come in one batch. */
  ghost function NotifyAll(rows: Rows, cfg: Config, chans: seq<string>, notices: seq<Notice>, now: int): (Rows, seq<Job>)
    decreases |notices|
  {
    if notices == [] then (rows, [])
    else
      var n := |notices| - 1;
      var (before, jobs) := NotifyAll(rows, cfg, chans, notices[..n], now);
      var (after, more) := NotifyOf(before, cfg, chans, notices[n], now);
      (after, jobs + more)
  }

  // ---------- what quiet hours held ----------

  /** releaseHeld on one row: given up when its channel is off, left while it is quiet there, else released with a job. */
  ghost function ReleaseOne(rows: Rows, cfg: Config, chans: seq<string>, id: int, now: int): (Rows, seq<Job>)
    requires id in rows
  {
    if rows[id].channel !in chans then (Closed(rows, id, Failed, 0, "channel disabled", now), [])
    else if Quiet(cfg, rows[id].channel, now) then (rows, [])
    else (Released(rows, id, now), if rows[id].state == Held then [Job(id, rows[id].channel, rows[id].kind)] else [])
  }

  /** releaseHeld over the rows named by ids. */
  ghost function AfterRelease(rows: Rows, cfg: Config, chans: seq<string>, ids: seq<int>, now: int): (Rows, seq<Job>)
    requires forall k :: 0 <= k < |ids| ==> ids[k] in rows
    ensures AfterRelease(rows, cfg, chans, ids, now).0.Keys == rows.Keys
  {
    if ids == [] then (rows, [])
    else
      var n := |ids| - 1;
      var (before, jobs) := AfterRelease(rows, cfg, chans, ids[..n], now);
      var (after, more) := ReleaseOne(before, cfg, chans, ids[n], now);
      (after, jobs + more)
  }

  // ---------- reminders ----------

  /** Whether a fired event is to be repeated: the last reminder counts from the rows, not from memory. */
  function Due(rows: Rows, event: EventRef, firedAt: int, every: int, now: int): bool {
    var times := RemindersOf(rows, event);
    now - (if times == {} then firedAt else MaxOf(times)) >= every
  }

  /** How often an alert is repeated; 0 is never, and so is a rule deleted while firing. */
  function RemindEvery(cfg: Config, rule: int, rules: map<int, RuleSettings>): int {
    if rule == Alerts.STATUS_RULE then cfg.offlineRemind else if rule in rules then rules[rule].remind else 0
  }

  /** An entry is its key's last. */
  predicate IsLatest<K(==)>(log: Log<K>, id: nat)
    requires 1 <= id <= |log|
  {
    forall i :: id <= i < |log| ==> log[i].key != log[id - 1].key
  }

  /** A fired entry that may be repeated: what it says and to whom, since when, and how often. */
  datatype Recall = Recall(notice: Notice, firedAt: int, every: int)

  /** The key's state is fired, the interval is set, and for an alert the host is not muted. */
  function AlertRecall(log: Log<Alerts.Key>, cfg: Config, rules: map<int, RuleSettings>, muted: set<int>, id: nat): Option<Recall>
    requires 1 <= id <= |log|
  {
    var e := log[id - 1];
    var every := RemindEvery(cfg, e.key.rule, rules);
    if !IsLatest(log, id) || e.change == Journal.Resolved || every <= 0 || e.key.host in muted then None
    else
      Some(Recall(AlertNotice(log, cfg, rules, id).(ended := FiredBefore(log, e.key, id + 1, i => OfAlert(i))), e.at, every))
  }

  function GuardrailRecall(log: Log<GuardrailKey>, cfg: Config, id: nat): Option<Recall>
    requires 1 <= id <= |log|
  {
    var e := log[id - 1];
    if !IsLatest(log, id) || e.change == Journal.Resolved || cfg.guardrailRemind <= 0 then None
    else
      Some(Recall(GuardrailNotice(log, cfg, id).(ended := FiredBefore(log, e.key, id + 1, i => OfGuardrail(i))), e.at,
                  cfg.guardrailRemind))
  }

  function Listed(r: Option<Recall>): seq<Recall> {
    if r.None? then [] else [r.value]
  }

  function AlertRecalls(log: Log<Alerts.Key>, cfg: Config, rules: map<int, RuleSettings>, muted: set<int>, upTo: nat): seq<Recall>
    requires upTo <= |log|
  {
    if upTo == 0 then [] else AlertRecalls(log, cfg, rules, muted, upTo - 1) + Listed(AlertRecall(log, cfg, rules, muted, upTo))
  }

  function GuardrailRecalls(log: Log<GuardrailKey>, cfg: Config, upTo: nat): seq<Recall>
    requires upTo <= |log|
  {
    if upTo == 0 then [] else GuardrailRecalls(log, cfg, upTo - 1) + Listed(GuardrailRecall(log, cfg, upTo))
  }

  /** The same recalls, each once, in an order of the map's choosing. */
  ghost predicate Reorders(order: seq<Recall>, listed: seq<Recall>) {
    (forall r :: r in order <==> r in listed) && forall j, k :: 0 <= j < k < |order| ==> order[j] != order[k]
  }

  method InAnyOrder(listed: seq<Recall>) returns (order: seq<Recall>)
    ensures Reorders(order, listed)
  {
    order := [];
    var remaining := set r | r in listed;
    while remaining != {}
      invariant forall r :: r in listed <==> r in order || r in remaining
      invariant forall r :: r in order ==> r !in remaining
      invariant forall j, k :: 0 <= j < k < |order| ==> order[j] != order[k]
    {
      SomeMember(remaining);
      var r :| r in remaining;
      order := order + [r];
      remaining := remaining - {r};
    }
  }

  ghost function RemindOf(rows: Rows, cfg: Config, chans: seq<string>, r: Recall, now: int): (Rows, seq<Job>) {
    if Due(rows, r.notice.event, r.firedAt, r.every, now) then
      RemindOne(rows, cfg, NoticeChannels(rows, chans, r.notice), r.notice.event, r.notice.offline, now)
    else (rows, [])
  }

  ghost function RemindAll(rows: Rows, cfg: Config, chans: seq<string>, recalls: seq<Recall>, now: int): (Rows, seq<Job>)
    decreases |recalls|
  {
    if recalls == [] then (rows, [])
    else
      var n := |recalls| - 1;
      var (before, jobs) := RemindAll(rows, cfg, chans, recalls[..n], now);
      var (after, more) := RemindOf(before, cfg, chans, recalls[n], now);
      (after, jobs + more)
  }

  // ---------- the hub's own loops ----------

  class Hub {
    const store: DeliveryTable
    const dispatch: Dispatcher
    var channels: seq<string>
    var cfg: Config
    var alertLog: Log<Alerts.Key>
    var guardrailLog: Log<GuardrailKey>
    var rules: map<int, RuleSettings>
    var muted: set<int>

    constructor (dispatch: Dispatcher, channels: seq<string>, cfg: Config)
      requires dispatch.cap > 0 && Regular(cfg.zone)
      ensures Valid() && this.dispatch == dispatch && this.channels == channels && this.cfg == cfg
      ensures alertLog == [] && guardrailLog == [] && rules == map[] && muted == {}
    {
      this.store, this.dispatch, this.channels, this.cfg := dispatch.rec, dispatch, channels, cfg;
      alertLog, guardrailLog, rules, muted := [], [], map[], {};
    }

    ghost predicate Valid()
      reads this
    {
      dispatch.rec == store && dispatch.cap > 0 && Regular(cfg.zone)
    }

    /** What handing jobs to the dispatcher leaves behind, given the rows written first. */
    twostate predicate Handed(new jobs: seq<Job>, rows: Rows, now: int)
      reads this, store, dispatch
    {
      var (queue, dropped) := EnteredAll(old(dispatch.jobs), dispatch.cap, jobs);
      dispatch.jobs == queue && store.rows == FailAll(rows, dropped, now)
    }

    twostate predicate HandedReminders(recalls: seq<Recall>, now: int)
      reads this, store, dispatch
    {
      var (rows, jobs) := RemindAll(old(store.rows), old(cfg), old(channels), recalls, now);
      Handed(jobs, rows, now)
    }

    method AddRows(chans: seq<string>, event: EventRef, kind: Kind, offline: bool, now: int) returns (jobs: seq<Job>)
      requires Valid()
      modifies store
      ensures (store.rows, jobs) == NotifyOne(old(store.rows), cfg, chans, event, kind, offline, now)
    {
      jobs := [];
      for i := 0 to |chans|
        invariant (store.rows, jobs) == NotifyOne(old(store.rows), cfg, chans[..i], event, kind, offline, now)
      {
        assert chans[..i + 1][..i] == chans[..i];
        var quiet := QuietNow(cfg, chans[i], now);
        var held := !offline && quiet;
        var id := store.AddDelivery(event, chans[i], kind, held, now);
        if !held {
          jobs := jobs + [Job(id, chans[i], kind)];
        }
      }
      assert chans[..|chans|] == chans;
    }

    method NoticeRoute(n: Notice) returns (chans: seq<string>)
      requires Valid()
      ensures chans == NoticeChannels(store.rows, channels, n)
    {
      var also: set<string> := {};
      if n.ended.Some? {
        also := ChannelsOf(store.rows, n.ended.value);
      }
      chans := RouteChannels(channels, n.route, also);
    }

    method AddBatch(notices: seq<Notice>, now: int) returns (jobs: seq<Job>)
      requires Valid()
      modifies store
      ensures (store.rows, jobs) == NotifyAll(old(store.rows), cfg, channels, notices, now)
    {
      jobs := [];
      for i := 0 to |notices|
        invariant (store.rows, jobs) == NotifyAll(old(store.rows), cfg, channels, notices[..i], now)
      {
        assert notices[..i + 1][..i] == notices[..i];
        var chans := NoticeRoute(notices[i]);
        var more := AddRows(chans, notices[i].event, notices[i].kind, notices[i].offline, now);
        jobs := jobs + more;
      }
      assert notices[..|notices|] == notices;
    }

    /** Rows first, then the dispatcher: a crash in between leaves pending rows, not silence. */
    method Announce(notices: seq<Notice>, now: int)
      requires Valid()
      modifies store, dispatch
      ensures channels == [] || notices == [] ==> store.rows == old(store.rows) && dispatch.jobs == old(dispatch.jobs)
      ensures channels != [] && notices != [] ==>
                var (rows, jobs) := NotifyAll(old(store.rows), cfg, channels, notices, now);
                Handed(jobs, rows, now)
    {
      if |channels| == 0 || |notices| == 0 {
        return;
      }
      var jobs := AddBatch(notices, now);
      dispatch.Enqueue(jobs, now);
    }

    /** Alert entries just logged. */
    method NotifyAlertEvents(ids: seq<nat>, now: int)
      requires Valid() && forall k :: 0 <= k < |ids| ==> 1 <= ids[k] <= |alertLog|
      modifies store, dispatch
      ensures channels == [] || ids == [] ==> store.rows == old(store.rows) && dispatch.jobs == old(dispatch.jobs)
      ensures channels != [] && ids != [] ==>
                var (rows, jobs) := NotifyAll(old(store.rows), cfg, channels, AlertNotices(alertLog, cfg, rules, ids), now);
                Handed(jobs, rows, now)
    {
      Announce(AlertNotices(alertLog, cfg, rules, ids), now);
    }

    /** Guardrail entries just logged. */
    method NotifyGuardrailEvents(ids: seq<nat>, now: int)
      requires Valid() && forall k :: 0 <= k < |ids| ==> 1 <= ids[k] <= |guardrailLog|
      modifies store, dispatch
      ensures channels == [] || ids == [] ==> store.rows == old(store.rows) && dispatch.jobs == old(dispatch.jobs)
      ensures channels != [] && ids != [] ==>
                var (rows, jobs) := NotifyAll(old(store.rows), cfg, channels, GuardrailNotices(guardrailLog, cfg, ids), now);
                Handed(jobs, rows, now)
    {
      Announce(GuardrailNotices(guardrailLog, cfg, ids), now);
    }

    method ReleaseRow(id: int, now: int) returns (jobs: seq<Job>)
      requires Valid() && id in store.rows
      modifies store
      ensures (store.rows, jobs) == ReleaseOne(old(store.rows), cfg, channels, id, now)
    {
      var d := store.rows[id];
      if d.channel !in channels {
        store.MarkDeliveryFailed(id, now, 0, "channel disabled");
        return [];
      }
      var quiet := QuietNow(cfg, d.channel, now);
      if quiet {
        return [];
      }
      var found := store.ReleaseDelivery(id, now);
      return if found then [Job(id, d.channel, d.kind)] else [];
    }

    method ReleaseRows(ids: seq<int>, now: int) returns (jobs: seq<Job>)
      requires Valid() && forall k :: 0 <= k < |ids| ==> ids[k] in store.rows
      modifies store
      ensures (store.rows, jobs) == AfterRelease(old(store.rows), cfg, channels, ids, now)
    {
      jobs := [];
      for i := 0 to |ids|
        invariant (store.rows, jobs) == AfterRelease(old(store.rows), cfg, channels, ids[..i], now)
      {
        assert ids[..i + 1][..i] == ids[..i];
        var more := ReleaseRow(ids[i], now);
        jobs := jobs + more;
      }
      assert ids[..|ids|] == ids;
    }

    method ReleaseHeld(now: int)
      requires Valid()
      modifies store, dispatch
      ensures var (rows, jobs) := AfterRelease(old(store.rows), cfg, channels, StateIds(old(store.rows), Held), now);
              Handed(jobs, rows, now)
    {
      var jobs := ReleaseRows(StateIds(store.rows, Held), now);
      dispatch.Enqueue(jobs, now);
    }

    /** A pending row of an enabled channel becomes a job again; the others can never be delivered. */
    method ReplayRow(id: int, now: int) returns (jobs: seq<Job>)
      requires Valid() && id in store.rows
      modifies store
      ensures jobs == if old(store.rows)[id].channel in channels then [Pipeline.JobOf(old(store.rows), id)] else []
      ensures store.rows == if old(store.rows)[id].channel in channels then old(store.rows)
                            else Closed(old(store.rows), id, Failed, 0, "channel disabled", now)
    {
      var d := store.rows[id];
      if d.channel !in channels {
        store.MarkDeliveryFailed(id, now, 0, "channel disabled");
        return [];
      }
      return [Job(id, d.channel, d.kind)];
    }

    method ReplayRows(ids: seq<int>, now: int) returns (jobs: seq<Job>)
      requires Valid() && forall k :: 0 <= k < |ids| ==> ids[k] in store.rows
      requires forall j, k :: 0 <= j < k < |ids| ==> ids[j] < ids[k]
      modifies store
      ensures (store.rows, jobs) == Pipeline.Replayed(old(store.rows), Names(channels), ids, now)
    {
      jobs := [];
      for i := 0 to |ids|
        invariant store.rows.Keys == old(store.rows).Keys
        invariant forall k :: i <= k < |ids| ==> store.rows[ids[k]] == old(store.rows)[ids[k]]
        invariant (store.rows, jobs) == Pipeline.Replayed(old(store.rows), Names(channels), ids[..i], now)
      {
        assert ids[..i + 1][..i] == ids[..i];
        var more := ReplayRow(ids[i], now);
        assert jobs + [] == jobs;
        jobs := jobs + more;
      }
      assert ids[..|ids|] == ids;
    }

    method ReplayPendingDeliveries(now: int)
      requires Valid()
      modifies store, dispatch
      ensures var (rows, jobs) := Pipeline.Replayed(old(store.rows), Names(channels), StateIds(old(store.rows), Pending), now);
              Handed(jobs, rows, now)
    {
      var jobs := ReplayRows(StateIds(store.rows, Pending), now);
      dispatch.Enqueue(jobs, now);
    }

    method AddReminders(chans: seq<string>, event: EventRef, offline: bool, now: int) returns (jobs: seq<Job>)
      requires Valid()
      modifies store
      ensures (store.rows, jobs) == RemindOne(old(store.rows), cfg, chans, event, offline, now)
    {
      jobs := [];
      for i := 0 to |chans|
        invariant (store.rows, jobs) == RemindOne(old(store.rows), cfg, chans[..i], event, offline, now)
      {
        assert chans[..i + 1][..i] == chans[..i];
        var quiet := QuietNow(cfg, chans[i], now);
        if !offline && quiet {
          continue;
        }
        var id := store.AddDelivery(event, chans[i], Reminder, false, now);
        jobs := jobs + [Job(id, chans[i], Reminder)];
      }
      assert chans[..|chans|] == chans;
    }

    method RemindBatch(recalls: seq<Recall>, now: int) returns (jobs: seq<Job>)
      requires Valid()
      modifies store
      ensures (store.rows, jobs) == RemindAll(old(store.rows), cfg, channels, recalls, now)
    {
      jobs := [];
      for i := 0 to |recalls|
        invariant (store.rows, jobs) == RemindAll(old(store.rows), cfg, channels, recalls[..i], now)
      {
        assert recalls[..i + 1][..i] == recalls[..i];
        var r := recalls[i];
        var more: seq<Job> := [];
        if Due(store.rows, r.notice.event, r.firedAt, r.every, now) {
          var chans := NoticeRoute(r.notice);
          more := AddReminders(chans, r.notice.event, r.notice.offline, now);
        }
        jobs := jobs + more;
      }
      assert recalls[..|recalls|] == recalls;
    }

    /** Every fired alert and guardrail whose interval has passed; a channel in its quiet hours is skipped, not held. */
    method Remind(now: int)
      requires Valid()
      modifies store, dispatch
      ensures channels == [] ==> store.rows == old(store.rows) && dispatch.jobs == old(dispatch.jobs)
      ensures channels != [] ==>
                exists alerts, guardrails ::
                  && Reorders(alerts, AlertRecalls(alertLog, cfg, rules, muted, |alertLog|))
                  && Reorders(guardrails, GuardrailRecalls(guardrailLog, cfg, |guardrailLog|))
                  && HandedReminders(alerts + guardrails, now)
    {
      if |channels| == 0 {
        return;
      }
      var alerts := InAnyOrder(AlertRecalls(alertLog, cfg, rules, muted, |alertLog|));
      var guardrails := InAnyOrder(GuardrailRecalls(guardrailLog, cfg, |guardrailLog|));
      var jobs := RemindBatch(alerts + guardrails, now);
      dispatch.Enqueue(jobs, now);
      assert HandedReminders(alerts + guardrails, now);
    }
  }
}
