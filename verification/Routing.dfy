/**
 Who is written to, read off the journal and the settings themselves: the rows a batch of transitions adds, no more and no
 fewer, and the reminders one tick adds.
 */
module Routing {
  import opened Options
  import opened Deliveries
  import opened Notify
  import Journal
  import Alerts
  import Owed
  import Reminders
  import Schedule
  import Zone

  predicate Takes(route: Route, ch: string) {
    route.Everyone? || ch in route.names
  }

  /** In a zone of one offset quiet hours are hours of the week. */
  lemma QuietIsWeekly(cfg: Config, ch: string, now: int)
    requires cfg.zone == Zone.Fixed(cfg.zone.before)
    ensures Quiet(cfg, ch, now) <==>
              && ch in cfg.quiet && (forall k :: 0 <= k < |cfg.quiet[ch]| ==> Schedule.ValidWindow(cfg.quiet[ch][k]))
              && Schedule.OffByTheWeek(cfg.quiet[ch], now + cfg.zone.before)
  {
    if ch in cfg.quiet {
      Schedule.OffIsWeekly(cfg.quiet[ch], cfg.zone.before, now);
    }
  }

  // ---------- transitions ----------

  /** The row is one the notice accounts for. */
  ghost predicate FromNotice(rows: Rows, d: Delivery, cfg: Config, chans: seq<string>, n: Notice, now: int) {
    && d.channel in chans && Owed.IsOwed(rows, n, d.channel)
    && d.event == n.event && d.kind == n.kind && d.attempts == 0 && d.lastError == "" && d.createdAt == d.updatedAt == now
    && d.state == if !n.offline && Quiet(cfg, d.channel, now) then Held else Pending
  }

  ghost predicate FromSome(rows: Rows, d: Delivery, cfg: Config, chans: seq<string>, notices: seq<Notice>, now: int) {
    exists k :: 0 <= k < |notices| && FromNotice(rows, d, cfg, chans, notices[k], now)
  }

  lemma NoticeRows(rows: Rows, cfg: Config, chans: seq<string>, n: Notice, now: int)
    ensures var rows' := NotifyOf(rows, cfg, chans, n, now).0;
            && Owed.Grows(rows, rows')
            && forall id :: id in rows' && id !in rows ==> FromNotice(rows', rows'[id], cfg, chans, n, now)
  {
    var owed := NoticeChannels(rows, chans, n);
    var rows' := NotifyOf(rows, cfg, chans, n, now).0;
    Owed.NotifyOneWrites(rows, cfg, owed, n.event, n.kind, n.offline, now);
    forall id | id in rows' && id !in rows
      ensures FromNotice(rows', rows'[id], cfg, chans, n, now)
    {
      var d := rows'[id];
      assert Owed.IsNew(d, cfg, owed, n.event, n.kind, n.offline, now);
      if n.ended.Some? && d.channel in ChannelsOf(rows, n.ended.value) {
        var i :| i in rows && rows[i].event == n.ended.value && rows[i].channel == d.channel;
        assert rows'[i].channel == d.channel;
      }
    }
  }

  lemma StillOwed(rows: Rows, rows': Rows, d: Delivery, cfg: Config, chans: seq<string>, n: Notice, now: int)
    requires Owed.Grows(rows, rows') && FromNotice(rows, d, cfg, chans, n, now)
    ensures FromNotice(rows', d, cfg, chans, n, now)
  {
    if n.ended.Some? && Owed.HasRow(rows, n.ended.value, d.channel) {
      Owed.RowStays(rows, rows', n.ended.value, d.channel);
    }
  }

  /** Nothing is written to anyone a notice of the batch is not owed to. */
  lemma {:induction false} OnlyTheOwed(rows: Rows, cfg: Config, chans: seq<string>, notices: seq<Notice>, now: int)
    ensures var rows' := NotifyAll(rows, cfg, chans, notices, now).0;
            && Owed.Grows(rows, rows')
            && forall id :: id in rows' && id !in rows ==> FromSome(rows', rows'[id], cfg, chans, notices, now)
    decreases |notices|
  {
    if notices != [] {
      var n := |notices| - 1;
      var before, rows' := NotifyAll(rows, cfg, chans, notices[..n], now).0, NotifyAll(rows, cfg, chans, notices, now).0;
      OnlyTheOwed(rows, cfg, chans, notices[..n], now);
      NoticeRows(before, cfg, chans, notices[n], now);
      forall id | id in rows' && id !in rows
        ensures FromSome(rows', rows'[id], cfg, chans, notices, now)
      {
        if id in before {
          var k :| 0 <= k < n && FromNotice(before, before[id], cfg, chans, notices[..n][k], now);
          StillOwed(before, rows', before[id], cfg, chans, notices[k], now);
        } else {
          assert FromNotice(rows', rows'[id], cfg, chans, notices[n], now);
        }
      }
    }
  }

  /** The entry a resolved one ends: its key's last fired before it. */
  predicate Ends<K(==)>(log: Log<K>, fired: int, id: int)
    requires 1 <= id <= |log|
  {
    && 1 <= fired < id && log[id - 1].change == Journal.Resolved && log[fired - 1].key == log[id - 1].key
    && log[fired - 1].change == Journal.Fired
    && forall j :: fired <= j < id - 1 && log[j].key == log[id - 1].key ==> log[j].change != Journal.Fired
  }

  /** An alert entry goes where its rule says, the offline rule's where the setting says, a deleted rule's everywhere; and a
      resolved one also wherever its fired went. */
  ghost predicate AlertGoesTo(rows: Rows, log: Log<Alerts.Key>, cfg: Config, rules: map<int, RuleSettings>, id: int, ch: string)
    requires 1 <= id <= |log|
  {
    var rule := log[id - 1].key.rule;
    || (rule == 0 && Takes(cfg.offlineRoute, ch))
    || (rule != 0 && rule in rules && Takes(rules[rule].route, ch))
    || (rule != 0 && rule !in rules)
    || exists fired :: Ends(log, fired, id) && Owed.HasRow(rows, OfAlert(fired), ch)
  }

  ghost predicate GuardrailGoesTo(rows: Rows, log: Log<GuardrailKey>, cfg: Config, id: int, ch: string)
    requires 1 <= id <= |log|
  {
    Takes(cfg.guardrailRoute, ch) || exists fired :: Ends(log, fired, id) && Owed.HasRow(rows, OfGuardrail(fired), ch)
  }

  /** A row as it is first written: what it says, and whether it waits. */
  predicate Fresh(d: Delivery, kind: Kind, waits: bool, now: int) {
    && d.kind == kind && d.state == (if waits then Held else Pending)
    && d.attempts == 0 && d.lastError == "" && d.createdAt == d.updatedAt == now
  }

  ghost predicate AlertRowOf(rows: Rows, d: Delivery, log: Log<Alerts.Key>, cfg: Config, rules: map<int, RuleSettings>, id: int, now: int)
    requires 1 <= id <= |log|
  {
    var e := log[id - 1];
    && d.event == OfAlert(id) && AlertGoesTo(rows, log, cfg, rules, id, d.channel)
    && Fresh(d, if e.change == Journal.Resolved then Resolved else Fired, e.key.rule != 0 && Quiet(cfg, d.channel, now), now)
  }

  ghost predicate GuardrailRowOf(rows: Rows, d: Delivery, log: Log<GuardrailKey>, cfg: Config, id: int, now: int)
    requires 1 <= id <= |log|
  {
    && d.event == OfGuardrail(id) && GuardrailGoesTo(rows, log, cfg, id, d.channel)
    && Fresh(d, if log[id - 1].change == Journal.Resolved then Resolved else Fired, Quiet(cfg, d.channel, now), now)
  }

  lemma EndsIsLastFired<K>(log: Log<K>, id: nat, fired: int)
    requires 1 <= id <= |log| && log[id - 1].change == Journal.Resolved
    ensures Ends(log, fired, id) <==> fired > 0 && LastFired(log, log[id - 1].key, id) == fired
  {
  }

  lemma AlertIsOwed(rows: Rows, log: Log<Alerts.Key>, cfg: Config, rules: map<int, RuleSettings>, id: nat, ch: string)
    requires 1 <= id <= |log|
    ensures Owed.IsOwed(rows, AlertNotice(log, cfg, rules, id), ch) <==> AlertGoesTo(rows, log, cfg, rules, id, ch)
  {
    if log[id - 1].change == Journal.Resolved {
      var fired := LastFired(log, log[id - 1].key, id);
      EndsIsLastFired(log, id, fired);
      assert Ends(log, fired, id) ==> AlertNotice(log, cfg, rules, id).ended == Some(OfAlert(fired));
      forall f
        ensures Ends(log, f, id) ==> f == fired
      {
        EndsIsLastFired(log, id, f);
      }
    }
  }

  lemma GuardrailIsOwed(rows: Rows, log: Log<GuardrailKey>, cfg: Config, id: nat, ch: string)
    requires 1 <= id <= |log|
    ensures Owed.IsOwed(rows, GuardrailNotice(log, cfg, id), ch) <==> GuardrailGoesTo(rows, log, cfg, id, ch)
  {
    if log[id - 1].change == Journal.Resolved {
      var fired := LastFired(log, log[id - 1].key, id);
      EndsIsLastFired(log, id, fired);
      assert Ends(log, fired, id) ==> GuardrailNotice(log, cfg, id).ended == Some(OfGuardrail(fired));
      forall f
        ensures Ends(log, f, id) ==> f == fired
      {
        EndsIsLastFired(log, id, f);
      }
    }
  }

  ghost predicate FromAlert(rows: Rows, d: Delivery, log: Log<Alerts.Key>, cfg: Config, rules: map<int, RuleSettings>, ids: seq<nat>,
                            now: int)
    requires forall j :: 0 <= j < |ids| ==> 1 <= ids[j] <= |log|
  {
    exists k :: 0 <= k < |ids| && AlertRowOf(rows, d, log, cfg, rules, ids[k], now)
  }

  ghost predicate FromGuardrail(rows: Rows, d: Delivery, log: Log<GuardrailKey>, cfg: Config, ids: seq<nat>, now: int)
    requires forall j :: 0 <= j < |ids| ==> 1 <= ids[j] <= |log|
  {
    exists k :: 0 <= k < |ids| && GuardrailRowOf(rows, d, log, cfg, ids[k], now)
  }

  /** Notifying of logged alert entries: every row added is of one of them, to an enabled channel it goes to, held exactly when
      the channel has its quiet hours and the alert is not one of a host gone offline or back; and every enabled channel an
      entry goes to has its row. */
  lemma AlertRowsExactly(rows: Rows, log: Log<Alerts.Key>, cfg: Config, rules: map<int, RuleSettings>, chans: seq<string>,
                         ids: seq<nat>, now: int)
    requires forall j :: 0 <= j < |ids| ==> 1 <= ids[j] <= |log|
    ensures var rows' := NotifyAll(rows, cfg, chans, AlertNotices(log, cfg, rules, ids), now).0;
            && Owed.Grows(rows, rows')
            && (forall i :: i in rows' && i !in rows ==>
                  rows'[i].channel in chans && FromAlert(rows', rows'[i], log, cfg, rules, ids, now))
            && forall k, ch :: 0 <= k < |ids| && ch in chans && AlertGoesTo(rows, log, cfg, rules, ids[k], ch)
                 ==> Owed.HasRow(rows', OfAlert(ids[k]), ch)
  {
    var notices := AlertNotices(log, cfg, rules, ids);
    var rows' := NotifyAll(rows, cfg, chans, notices, now).0;
    OnlyTheOwed(rows, cfg, chans, notices, now);
    Owed.NotifyReaches(rows, cfg, chans, notices, now);
    forall i | i in rows' && i !in rows
      ensures rows'[i].channel in chans && FromAlert(rows', rows'[i], log, cfg, rules, ids, now)
    {
      var k :| 0 <= k < |notices| && FromNotice(rows', rows'[i], cfg, chans, notices[k], now);
      AlertIsOwed(rows', log, cfg, rules, ids[k], rows'[i].channel);
      assert AlertRowOf(rows', rows'[i], log, cfg, rules, ids[k], now);
    }
    forall k, ch | 0 <= k < |ids| && ch in chans && AlertGoesTo(rows, log, cfg, rules, ids[k], ch)
      ensures Owed.HasRow(rows', OfAlert(ids[k]), ch)
    {
      AlertIsOwed(rows, log, cfg, rules, ids[k], ch);
      assert Owed.IsOwed(rows, notices[k], ch) && notices[k].event == OfAlert(ids[k]);
    }
  }

  lemma GuardrailRowsExactly(rows: Rows, log: Log<GuardrailKey>, cfg: Config, chans: seq<string>, ids: seq<nat>, now: int)
    requires forall j :: 0 <= j < |ids| ==> 1 <= ids[j] <= |log|
    ensures var rows' := NotifyAll(rows, cfg, chans, GuardrailNotices(log, cfg, ids), now).0;
            && Owed.Grows(rows, rows')
            && (forall i :: i in rows' && i !in rows ==>
                  rows'[i].channel in chans && FromGuardrail(rows', rows'[i], log, cfg, ids, now))
            && forall k, ch :: 0 <= k < |ids| && ch in chans && GuardrailGoesTo(rows, log, cfg, ids[k], ch)
                 ==> Owed.HasRow(rows', OfGuardrail(ids[k]), ch)
  {
    var notices := GuardrailNotices(log, cfg, ids);
    var rows' := NotifyAll(rows, cfg, chans, notices, now).0;
    OnlyTheOwed(rows, cfg, chans, notices, now);
    Owed.NotifyReaches(rows, cfg, chans, notices, now);
    forall i | i in rows' && i !in rows
      ensures rows'[i].channel in chans && FromGuardrail(rows', rows'[i], log, cfg, ids, now)
    {
      var k :| 0 <= k < |notices| && FromNotice(rows', rows'[i], cfg, chans, notices[k], now);
      GuardrailIsOwed(rows', log, cfg, ids[k], rows'[i].channel);
      assert GuardrailRowOf(rows', rows'[i], log, cfg, ids[k], now);
    }
    forall k, ch | 0 <= k < |ids| && ch in chans && GuardrailGoesTo(rows, log, cfg, ids[k], ch)
      ensures Owed.HasRow(rows', OfGuardrail(ids[k]), ch)
    {
      GuardrailIsOwed(rows, log, cfg, ids[k], ch);
      assert Owed.IsOwed(rows, notices[k], ch) && notices[k].event == OfGuardrail(ids[k]);
    }
  }

  // ---------- reminders ----------

  ghost predicate RemindedThrough(rows: Rows, rows': Rows, e: EventRef, ch: string) {
    exists id :: id in rows' && id !in rows && Reminders.Repeats(rows'[id], e) && rows'[id].channel == ch
  }

  /** New reminders of the event are dated now and wait for nothing. */
  ghost predicate FreshReminders(rows: Rows, rows': Rows, e: EventRef, now: int) {
    Owed.Grows(rows, rows') && forall id :: id in rows' && id !in rows && rows'[id].event == e ==> Fresh(rows'[id], Reminder, false, now)
  }

  ghost predicate OthersOnly(rows: Rows, rows': Rows, e: EventRef) {
    Owed.Grows(rows, rows') && forall id :: id in rows' && id !in rows ==> rows'[id].event != e
  }

  lemma {:induction false} OneReminds(rows: Rows, cfg: Config, chans: seq<string>, e: EventRef, offline: bool, now: int)
    ensures var rows' := RemindOne(rows, cfg, chans, e, offline, now).0;
            && FreshReminders(rows, rows', e, now)
            && (forall id :: id in rows' && id !in rows ==> rows'[id].event == e)
            && forall ch :: RemindedThrough(rows, rows', e, ch) <==> ch in chans && !Waits(cfg, ch, offline, now)
  {
    if chans != [] {
      var n := |chans| - 1;
      var before := RemindOne(rows, cfg, chans[..n], e, offline, now).0;
      OneReminds(rows, cfg, chans[..n], e, offline, now);
      assert chans == chans[..n] + [chans[n]];
      if !Waits(cfg, chans[n], offline, now) {
        OneChannelMore(rows, before, e, chans[n], now);
      }
    }
  }

  lemma OneChannelMore(rows: Rows, before: Rows, e: EventRef, through: string, now: int)
    requires FreshReminders(rows, before, e, now) && forall id :: id in before && id !in rows ==> before[id].event == e
    ensures var rows' := Added(before, SpecRow(e, through, Reminder, false, now));
            && FreshReminders(rows, rows', e, now)
            && (forall id :: id in rows' && id !in rows ==> rows'[id].event == e)
            && forall ch :: RemindedThrough(rows, rows', e, ch) <==> RemindedThrough(rows, before, e, ch) || ch == through
  {
    var rows' := Added(before, SpecRow(e, through, Reminder, false, now));
    assert rows'[NextId(before.Keys)].channel == through;
    forall ch
      ensures RemindedThrough(rows, rows', e, ch) <==> RemindedThrough(rows, before, e, ch) || ch == through
    {
      if RemindedThrough(rows, before, e, ch) {
        var id :| id in before && id !in rows && Reminders.Repeats(before[id], e) && before[id].channel == ch;
        assert rows'[id] == before[id];
      }
    }
  }

  /** Long enough since the last reminder, or since it fired when there has been none. */
  ghost predicate Overdue(rows: Rows, e: EventRef, firedAt: int, every: int, now: int) {
    if exists id :: id in rows && Reminders.Repeats(rows[id], e)
    then forall id :: id in rows && Reminders.Repeats(rows[id], e) ==> now - rows[id].createdAt >= every
    else now - firedAt >= every
  }

  lemma DueIsOverdue(rows: Rows, e: EventRef, firedAt: int, every: int, now: int)
    ensures Due(rows, e, firedAt, every, now) <==> Overdue(rows, e, firedAt, every, now)
  {
    var times := RemindersOf(rows, e);
    if id :| id in rows && Reminders.Repeats(rows[id], e) {
      assert rows[id].createdAt in times;
      forall i | i in rows && Reminders.Repeats(rows[i], e)
        ensures rows[i].createdAt in times
      {
      }
    } else {
      assert times == {};
    }
  }

  /** Rows of other events change nothing for this one. */
  lemma OthersChangeNothing(rows: Rows, rows': Rows, e: EventRef, firedAt: int, every: int, now: int, ch: string)
    requires OthersOnly(rows, rows', e)
    ensures Due(rows', e, firedAt, every, now) <==> Due(rows, e, firedAt, every, now)
    ensures Owed.HasRow(rows', e, ch) <==> Owed.HasRow(rows, e, ch)
  {
    forall id
      ensures id in rows' && rows'[id].event == e <==> id in rows && rows[id].event == e
    {
    }
    assert RemindersOf(rows', e) == RemindersOf(rows, e) by {
      Reminders.AddingRests(rows, rows', e, firedAt, every, now);
    }
    if Owed.HasRow(rows, e, ch) {
      Owed.RowStays(rows, rows', e, ch);
    }
  }

  /** What one recall of an event adds through one channel. */
  ghost predicate Recalls(rows: Rows, cfg: Config, chans: seq<string>, r: Recall, now: int, ch: string) {
    && Due(rows, r.notice.event, r.firedAt, r.every, now)
    && ch in chans && (Takes(r.notice.route, ch) || Owed.HasRow(rows, r.notice.event, ch))
    && !Waits(cfg, ch, r.notice.offline, now)
  }

  /** Recalls repeat what they recall, and none of them twice. */
  predicate WellRecalled(recalls: seq<Recall>, e: EventRef) {
    && (forall k :: 0 <= k < |recalls| ==> recalls[k].notice.ended == Some(recalls[k].notice.event))
    && forall j, k :: 0 <= j < k < |recalls| ==> recalls[j].notice.event != e || recalls[k].notice.event != e
  }

  lemma RecallReminds(rows: Rows, cfg: Config, chans: seq<string>, r: Recall, now: int, e: EventRef)
    requires r.notice.ended == Some(r.notice.event)
    ensures var rows' := RemindOf(rows, cfg, chans, r, now).0;
            if r.notice.event != e then OthersOnly(rows, rows', e)
            else FreshReminders(rows, rows', e, now)
                 && forall ch :: RemindedThrough(rows, rows', e, ch) <==> Recalls(rows, cfg, chans, r, now, ch)
  {
    if Due(rows, r.notice.event, r.firedAt, r.every, now) {
      OneReminds(rows, cfg, NoticeChannels(rows, chans, r.notice), r.notice.event, r.notice.offline, now);
      forall ch
        ensures ch in ChannelsOf(rows, r.notice.event) <==> Owed.HasRow(rows, r.notice.event, ch)
      {
      }
    }
  }

  /** What a tick has added for the event, if anything: what its recall adds. */
  ghost predicate AddsFor(rows: Rows, rows': Rows, cfg: Config, chans: seq<string>, recalls: seq<Recall>, now: int, e: EventRef) {
    && FreshReminders(rows, rows', e, now)
    && forall ch :: RemindedThrough(rows, rows', e, ch) <==> SomeRecalls(rows, cfg, chans, recalls, now, e, ch)
  }

  ghost predicate SomeRecalls(rows: Rows, cfg: Config, chans: seq<string>, recalls: seq<Recall>, now: int, e: EventRef, ch: string) {
    exists k :: 0 <= k < |recalls| && recalls[k].notice.event == e && Recalls(rows, cfg, chans, recalls[k], now, ch)
  }

  lemma {:induction false} TickReminds(rows: Rows, cfg: Config, chans: seq<string>, recalls: seq<Recall>, now: int, e: EventRef)
    requires WellRecalled(recalls, e)
    ensures var rows' := RemindAll(rows, cfg, chans, recalls, now).0;
            && AddsFor(rows, rows', cfg, chans, recalls, now, e)
            && ((forall k :: 0 <= k < |recalls| ==> recalls[k].notice.event != e) ==> OthersOnly(rows, rows', e))
    decreases |recalls|
  {
    if recalls != [] {
      var n := |recalls| - 1;
      var before := RemindAll(rows, cfg, chans, recalls[..n], now).0;
      TickReminds(rows, cfg, chans, recalls[..n], now, e);
      RecallReminds(before, cfg, chans, recalls[n], now, e);
      var rows' := RemindAll(rows, cfg, chans, recalls, now).0;
      if recalls[n].notice.event == e {
        assert OthersOnly(rows, before, e);
        OwnRecall(rows, before, rows', cfg, chans, recalls, now, e);
      } else {
        OthersRecall(rows, before, rows', cfg, chans, recalls, now, e);
      }
    }
  }

  lemma OwnRecall(rows: Rows, before: Rows, rows': Rows, cfg: Config, chans: seq<string>, recalls: seq<Recall>, now: int, e: EventRef)
    requires recalls != [] && WellRecalled(recalls, e) && OthersOnly(rows, before, e)
    requires var r := recalls[|recalls| - 1];
             && r.notice.event == e && FreshReminders(before, rows', e, now)
             && forall ch :: RemindedThrough(before, rows', e, ch) <==> Recalls(before, cfg, chans, r, now, ch)
    ensures AddsFor(rows, rows', cfg, chans, recalls, now, e)
  {
    var n := |recalls| - 1;
    var r := recalls[n];
    forall ch
      ensures RemindedThrough(rows, rows', e, ch) <==> RemindedThrough(before, rows', e, ch)
      ensures Recalls(before, cfg, chans, r, now, ch) <==> Recalls(rows, cfg, chans, r, now, ch)
    {
      OthersChangeNothing(rows, before, e, r.firedAt, r.every, now, ch);
      if RemindedThrough(rows, rows', e, ch) {
        var id :| id in rows' && id !in rows && Reminders.Repeats(rows'[id], e) && rows'[id].channel == ch;
        assert id !in before;
      }
    }
  }

  lemma OthersRecall(rows: Rows, before: Rows, rows': Rows, cfg: Config, chans: seq<string>, recalls: seq<Recall>, now: int,
                     e: EventRef)
    requires recalls != [] && recalls[|recalls| - 1].notice.event != e && OthersOnly(before, rows', e)
    requires AddsFor(rows, before, cfg, chans, recalls[..|recalls| - 1], now, e)
    ensures AddsFor(rows, rows', cfg, chans, recalls, now, e)
  {
    var n := |recalls| - 1;
    forall ch
      ensures RemindedThrough(rows, rows', e, ch) <==> RemindedThrough(rows, before, e, ch)
    {
      if RemindedThrough(rows, before, e, ch) {
        var id :| id in before && id !in rows && Reminders.Repeats(before[id], e) && before[id].channel == ch;
        assert rows'[id] == before[id];
      }
    }
    forall ch
      ensures SomeRecalls(rows, cfg, chans, recalls, now, e, ch) <==> SomeRecalls(rows, cfg, chans, recalls[..n], now, e, ch)
    {
      if k :| 0 <= k < |recalls| && recalls[k].notice.event == e && Recalls(rows, cfg, chans, recalls[k], now, ch) {
        assert recalls[..n][k] == recalls[k];
      }
    }
  }

  /** The key's state is fired by this entry. */
  predicate StillFires<K(==)>(log: Log<K>, id: int)
    requires 1 <= id <= |log|
  {
    log[id - 1].change == Journal.Fired && forall i :: id <= i < |log| ==> log[i].key != log[id - 1].key
  }

  predicate Paced(cfg: Config, rules: map<int, RuleSettings>, rule: int, every: int) {
    && every > 0
    && if rule == 0 then every == cfg.offlineRemind else rule in rules && every == rules[rule].remind
  }

  lemma AlertRecallIs(log: Log<Alerts.Key>, cfg: Config, rules: map<int, RuleSettings>, muted: set<int>, id: nat)
    requires 1 <= id <= |log|
    ensures var r, e := AlertRecall(log, cfg, rules, muted, id), log[id - 1];
            && (r.Some? <==> StillFires(log, id) && e.key.host !in muted && exists every :: Paced(cfg, rules, e.key.rule, every))
            && (r.Some? ==>
                  && r.value.notice.event == OfAlert(id) && r.value.notice.ended == Some(OfAlert(id)) && r.value.firedAt == e.at
                  && Paced(cfg, rules, e.key.rule, r.value.every)
                  && (r.value.notice.offline <==> e.key.rule == 0)
                  && forall ch :: Takes(r.value.notice.route, ch)
                       <==> if e.key.rule == 0 then Takes(cfg.offlineRoute, ch) else Takes(rules[e.key.rule].route, ch))
  {
    var rule := log[id - 1].key.rule;
    assert Paced(cfg, rules, rule, RemindEvery(cfg, rule, rules)) <==> exists every :: Paced(cfg, rules, rule, every);
  }

  lemma {:induction false} AlertRecallsAre(log: Log<Alerts.Key>, cfg: Config, rules: map<int, RuleSettings>, muted: set<int>, upTo: nat,
                                           r: Recall)
    requires upTo <= |log|
    ensures r in AlertRecalls(log, cfg, rules, muted, upTo) <==> exists id :: 1 <= id <= upTo && AlertRecall(log, cfg, rules, muted, id) == Some(r)
  {
    if upTo > 0 {
      AlertRecallsAre(log, cfg, rules, muted, upTo - 1, r);
    }
  }

  lemma GuardrailRecallIs(log: Log<GuardrailKey>, cfg: Config, id: nat)
    requires 1 <= id <= |log|
    ensures var r, e := GuardrailRecall(log, cfg, id), log[id - 1];
            && (r.Some? <==> StillFires(log, id) && cfg.guardrailRemind > 0)
            && (r.Some? ==>
                  && r.value.notice.event == OfGuardrail(id) && r.value.notice.ended == Some(OfGuardrail(id))
                  && r.value.firedAt == e.at && r.value.every == cfg.guardrailRemind && !r.value.notice.offline
                  && r.value.notice.route == cfg.guardrailRoute)
  {
  }

  lemma {:induction false} GuardrailRecallsAre(log: Log<GuardrailKey>, cfg: Config, upTo: nat, r: Recall)
    requires upTo <= |log|
    ensures r in GuardrailRecalls(log, cfg, upTo) <==> exists id :: 1 <= id <= upTo && GuardrailRecall(log, cfg, id) == Some(r)
  {
    if upTo > 0 {
      GuardrailRecallsAre(log, cfg, upTo - 1, r);
    }
  }

  /** A tick's recalls, in the orders its two maps are read. */
  ghost predicate TickRecalls(alerts: Log<Alerts.Key>, guardrails: Log<GuardrailKey>, cfg: Config, rules: map<int, RuleSettings>,
                              muted: set<int>, a: seq<Recall>, b: seq<Recall>) {
    Reorders(a, AlertRecalls(alerts, cfg, rules, muted, |alerts|)) && Reorders(b, GuardrailRecalls(guardrails, cfg, |guardrails|))
  }

  lemma FromAlerts(log: Log<Alerts.Key>, cfg: Config, rules: map<int, RuleSettings>, muted: set<int>, a: seq<Recall>, k: nat)
    returns (id: nat)
    requires Reorders(a, AlertRecalls(log, cfg, rules, muted, |log|)) && k < |a|
    ensures 1 <= id <= |log| && AlertRecall(log, cfg, rules, muted, id) == Some(a[k]) && a[k].notice.event == OfAlert(id)
    ensures a[k].notice.ended == Some(a[k].notice.event)
  {
    AlertRecallsAre(log, cfg, rules, muted, |log|, a[k]);
    assert a[k] in a;
    id :| 1 <= id <= |log| && AlertRecall(log, cfg, rules, muted, id) == Some(a[k]);
    AlertRecallIs(log, cfg, rules, muted, id);
  }

  lemma FromGuardrails(log: Log<GuardrailKey>, cfg: Config, b: seq<Recall>, k: nat) returns (id: nat)
    requires Reorders(b, GuardrailRecalls(log, cfg, |log|)) && k < |b|
    ensures 1 <= id <= |log| && GuardrailRecall(log, cfg, id) == Some(b[k]) && b[k].notice.event == OfGuardrail(id)
    ensures b[k].notice.ended == Some(b[k].notice.event)
  {
    GuardrailRecallsAre(log, cfg, |log|, b[k]);
    assert b[k] in b;
    id :| 1 <= id <= |log| && GuardrailRecall(log, cfg, id) == Some(b[k]);
    GuardrailRecallIs(log, cfg, id);
  }

  lemma TickIsWellRecalled(alerts: Log<Alerts.Key>, guardrails: Log<GuardrailKey>, cfg: Config, rules: map<int, RuleSettings>,
                           muted: set<int>, a: seq<Recall>, b: seq<Recall>, e: EventRef)
    requires TickRecalls(alerts, guardrails, cfg, rules, muted, a, b)
    ensures WellRecalled(a + b, e)
  {
    var all := a + b;
    forall k | 0 <= k < |all|
      ensures all[k].notice.ended == Some(all[k].notice.event)
    {
      if k < |a| {
        var id := FromAlerts(alerts, cfg, rules, muted, a, k);
      } else {
        var id := FromGuardrails(guardrails, cfg, b, k - |a|);
      }
    }
    forall j, k | 0 <= j < k < |all|
      ensures all[j].notice.event != e || all[k].notice.event != e
    {
      if k < |a| {
        var i := FromAlerts(alerts, cfg, rules, muted, a, j);
        var m := FromAlerts(alerts, cfg, rules, muted, a, k);
      } else if j >= |a| {
        var i := FromGuardrails(guardrails, cfg, b, j - |a|);
        var m := FromGuardrails(guardrails, cfg, b, k - |a|);
      } else {
        var i := FromAlerts(alerts, cfg, rules, muted, a, j);
        var m := FromGuardrails(guardrails, cfg, b, k - |a|);
      }
    }
  }

  /** An alert is repeated through a channel: its entry is its key's last and a fired one, its host is not muted, the interval of
      its rule has passed since it fired or was last repeated, and the channel is enabled, on its route or already told of it,
      and not in its quiet hours, which nobody's offline alert waits for. */
  ghost predicate AlertRepeats(rows: Rows, log: Log<Alerts.Key>, cfg: Config, rules: map<int, RuleSettings>, muted: set<int>,
                               chans: seq<string>, now: int, id: int, ch: string)
    requires 1 <= id <= |log|
  {
    var e, rule := log[id - 1], log[id - 1].key.rule;
    && StillFires(log, id) && e.key.host !in muted
    && (exists every :: Paced(cfg, rules, rule, every) && Overdue(rows, OfAlert(id), e.at, every, now))
    && ch in chans
    && ((rule == 0 && Takes(cfg.offlineRoute, ch)) || (rule != 0 && rule in rules && Takes(rules[rule].route, ch))
        || Owed.HasRow(rows, OfAlert(id), ch))
    && (rule == 0 || !Quiet(cfg, ch, now))
  }

  ghost predicate GuardrailRepeats(rows: Rows, log: Log<GuardrailKey>, cfg: Config, chans: seq<string>, now: int, id: int, ch: string)
    requires 1 <= id <= |log|
  {
    && StillFires(log, id) && cfg.guardrailRemind > 0
    && Overdue(rows, OfGuardrail(id), log[id - 1].at, cfg.guardrailRemind, now)
    && ch in chans && (Takes(cfg.guardrailRoute, ch) || Owed.HasRow(rows, OfGuardrail(id), ch)) && !Quiet(cfg, ch, now)
  }

  lemma RecallRepeatsAlert(rows: Rows, log: Log<Alerts.Key>, cfg: Config, rules: map<int, RuleSettings>, muted: set<int>,
                           chans: seq<string>, now: int, id: nat, ch: string)
    requires 1 <= id <= |log|
    ensures var r := AlertRecall(log, cfg, rules, muted, id);
            AlertRepeats(rows, log, cfg, rules, muted, chans, now, id, ch) <==> r.Some? && Recalls(rows, cfg, chans, r.value, now, ch)
  {
    var r, e := AlertRecall(log, cfg, rules, muted, id), log[id - 1];
    AlertRecallIs(log, cfg, rules, muted, id);
    if r.Some? {
      DueIsOverdue(rows, OfAlert(id), e.at, r.value.every, now);
      assert forall every :: Paced(cfg, rules, e.key.rule, every) ==> every == r.value.every;
    }
  }

  lemma RecallRepeatsGuardrail(rows: Rows, log: Log<GuardrailKey>, cfg: Config, chans: seq<string>, now: int, id: nat, ch: string)
    requires 1 <= id <= |log|
    ensures var r := GuardrailRecall(log, cfg, id);
            GuardrailRepeats(rows, log, cfg, chans, now, id, ch) <==> r.Some? && Recalls(rows, cfg, chans, r.value, now, ch)
  {
    GuardrailRecallIs(log, cfg, id);
    DueIsOverdue(rows, OfGuardrail(id), log[id - 1].at, cfg.guardrailRemind, now);
  }

  /** One tick repeats an alert through exactly the channels it repeats through, whatever else is repeated and in whatever
      order. */
  lemma AlertRemindedExactly(rows: Rows, log: Log<Alerts.Key>, guardrails: Log<GuardrailKey>, cfg: Config,
                             rules: map<int, RuleSettings>, muted: set<int>, chans: seq<string>, now: int, id: nat, a: seq<Recall>,
                             b: seq<Recall>, ch: string)
    requires 1 <= id <= |log| && TickRecalls(log, guardrails, cfg, rules, muted, a, b)
    ensures var rows' := RemindAll(rows, cfg, chans, a + b, now).0;
            && FreshReminders(rows, rows', OfAlert(id), now)
            && (RemindedThrough(rows, rows', OfAlert(id), ch) <==> AlertRepeats(rows, log, cfg, rules, muted, chans, now, id, ch))
  {
    TickIsWellRecalled(log, guardrails, cfg, rules, muted, a, b, OfAlert(id));
    TickReminds(rows, cfg, chans, a + b, now, OfAlert(id));
    RecallRepeatsAlert(rows, log, cfg, rules, muted, chans, now, id, ch);
    AlertIsListed(log, guardrails, cfg, rules, muted, id, a, b);
  }

  /** The tick's recalls of an entry are the one it has, or none. */
  lemma AlertIsListed(log: Log<Alerts.Key>, guardrails: Log<GuardrailKey>, cfg: Config, rules: map<int, RuleSettings>, muted: set<int>,
                      id: nat, a: seq<Recall>, b: seq<Recall>)
    requires 1 <= id <= |log| && TickRecalls(log, guardrails, cfg, rules, muted, a, b)
    ensures var r := AlertRecall(log, cfg, rules, muted, id);
            && (forall k :: 0 <= k < |a + b| && (a + b)[k].notice.event == OfAlert(id) ==> r == Some((a + b)[k]))
            && (r.Some? ==> exists k :: 0 <= k < |a + b| && (a + b)[k] == r.value && (a + b)[k].notice.event == OfAlert(id))
  {
    forall k | 0 <= k < |a + b| && (a + b)[k].notice.event == OfAlert(id)
      ensures AlertRecall(log, cfg, rules, muted, id) == Some((a + b)[k])
    {
      if k < |a| {
        var i := FromAlerts(log, cfg, rules, muted, a, k);
      } else {
        var i := FromGuardrails(guardrails, cfg, b, k - |a|);
      }
    }
    var r := AlertRecall(log, cfg, rules, muted, id);
    if r.Some? {
      AlertRecallIs(log, cfg, rules, muted, id);
      AlertRecallsAre(log, cfg, rules, muted, |log|, r.value);
      assert r.value in a;
      var k :| 0 <= k < |a| && a[k] == r.value;
      assert (a + b)[k] == r.value;
    }
  }

  lemma GuardrailRemindedExactly(rows: Rows, alerts: Log<Alerts.Key>, log: Log<GuardrailKey>, cfg: Config,
                                 rules: map<int, RuleSettings>, muted: set<int>, chans: seq<string>, now: int, id: nat,
                                 a: seq<Recall>, b: seq<Recall>, ch: string)
    requires 1 <= id <= |log| && TickRecalls(alerts, log, cfg, rules, muted, a, b)
    ensures var rows' := RemindAll(rows, cfg, chans, a + b, now).0;
            && FreshReminders(rows, rows', OfGuardrail(id), now)
            && (RemindedThrough(rows, rows', OfGuardrail(id), ch) <==> GuardrailRepeats(rows, log, cfg, chans, now, id, ch))
  {
    TickIsWellRecalled(alerts, log, cfg, rules, muted, a, b, OfGuardrail(id));
    TickReminds(rows, cfg, chans, a + b, now, OfGuardrail(id));
    RecallRepeatsGuardrail(rows, log, cfg, chans, now, id, ch);
    GuardrailIsListed(alerts, log, cfg, rules, muted, id, a, b);
  }

  lemma GuardrailIsListed(alerts: Log<Alerts.Key>, log: Log<GuardrailKey>, cfg: Config, rules: map<int, RuleSettings>, muted: set<int>,
                          id: nat, a: seq<Recall>, b: seq<Recall>)
    requires 1 <= id <= |log| && TickRecalls(alerts, log, cfg, rules, muted, a, b)
    ensures var r := GuardrailRecall(log, cfg, id);
            && (forall k :: 0 <= k < |a + b| && (a + b)[k].notice.event == OfGuardrail(id) ==> r == Some((a + b)[k]))
            && (r.Some? ==> exists k :: 0 <= k < |a + b| && (a + b)[k] == r.value && (a + b)[k].notice.event == OfGuardrail(id))
  {
    forall k | 0 <= k < |a + b| && (a + b)[k].notice.event == OfGuardrail(id)
      ensures GuardrailRecall(log, cfg, id) == Some((a + b)[k])
    {
      if k < |a| {
        var i := FromAlerts(alerts, cfg, rules, muted, a, k);
      } else {
        var i := FromGuardrails(log, cfg, b, k - |a|);
      }
    }
    var r := GuardrailRecall(log, cfg, id);
    if r.Some? {
      GuardrailRecallIs(log, cfg, id);
      GuardrailRecallsAre(log, cfg, |log|, r.value);
      assert r.value in b;
      var k :| 0 <= k < |b| && b[k] == r.value;
      assert (a + b)[|a| + k] == r.value;
    }
  }
}
