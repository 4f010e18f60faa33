/**
 Who hears what, over re-routing: a channel that was owed the start of an alert is owed its end.
 */
module Owed {
  import opened Options
  import opened Deliveries
  import opened Dispatcher
  import opened Notify
  import Journal
  import Alerts

  ghost predicate HasRow(rows: Rows, event: EventRef, ch: string) {
    exists id :: id in rows && rows[id].event == event && rows[id].channel == ch
  }

  ghost predicate Grows(rows: Rows, rows': Rows) {
    forall id :: id in rows ==> id in rows' && rows'[id] == rows[id]
  }

  /** Rows were added for one event only: one through each channel, held exactly when the channel is waiting. */
  ghost predicate Wrote(rows: Rows, rows': Rows, cfg: Config, chans: seq<string>, event: EventRef, kind: Kind, offline: bool, now: int) {
    && Grows(rows, rows')
    && (forall ch :: ch in chans ==> HasRow(rows', event, ch))
    && (forall id :: id in rows' && id !in rows ==> IsNew(rows'[id], cfg, chans, event, kind, offline, now))
    && |rows'| == |rows| + |chans|
  }

  ghost predicate IsNew(d: Delivery, cfg: Config, chans: seq<string>, event: EventRef, kind: Kind, offline: bool, now: int) {
    && d.channel in chans
    && d == SpecRow(event, d.channel, kind, Waits(cfg, d.channel, offline, now), now)
  }

  lemma {:induction false} NotifyOneWrites(rows: Rows, cfg: Config, chans: seq<string>, event: EventRef, kind: Kind, offline: bool,
                                           now: int)
    ensures Wrote(rows, NotifyOne(rows, cfg, chans, event, kind, offline, now).0, cfg, chans, event, kind, offline, now)
  {
    if chans != [] {
      var n := |chans| - 1;
      NotifyOneWrites(rows, cfg, chans[..n], event, kind, offline, now);
      var before := NotifyOne(rows, cfg, chans[..n], event, kind, offline, now).0;
      assert chans == chans[..n] + [chans[n]];
      WroteOneMore(rows, before, cfg, chans[..n], chans[n], event, kind, offline, now);
    }
  }

  lemma WroteOneMore(rows: Rows, before: Rows, cfg: Config, chans: seq<string>, ch: string, event: EventRef, kind: Kind,
                     offline: bool, now: int)
    requires Wrote(rows, before, cfg, chans, event, kind, offline, now)
    ensures Wrote(rows, Added(before, SpecRow(event, ch, kind, Waits(cfg, ch, offline, now), now)), cfg, chans + [ch], event, kind,
                  offline, now)
  {
    var d := SpecRow(event, ch, kind, Waits(cfg, ch, offline, now), now);
    var rows' := Added(before, d);
    AddedOne(before, d);
    forall c | c in chans + [ch]
      ensures HasRow(rows', event, c)
    {
      if c in chans {
        RowStays(before, rows', event, c);
      } else {
        assert rows'[NextId(before.Keys)] == d;
      }
    }
    forall id | id in rows' && id !in rows
      ensures IsNew(rows'[id], cfg, chans + [ch], event, kind, offline, now)
    {
      if id in before {
        assert IsNew(before[id], cfg, chans, event, kind, offline, now);
      }
    }
  }

  lemma AddedOne(rows: Rows, d: Delivery)
    ensures Grows(rows, Added(rows, d)) && |Added(rows, d)| == |rows| + 1
    ensures forall id :: id in Added(rows, d) && id !in rows ==> Added(rows, d)[id] == d
    ensures NextId(rows.Keys) in Added(rows, d)
  {
  }

  /** A channel a notice is owed through: its route, or a row of the fired it ends, whatever became of that row. */
  ghost predicate IsOwed(rows: Rows, n: Notice, ch: string) {
    || n.route.Everyone? || ch in n.route.names
    || (n.ended.Some? && HasRow(rows, n.ended.value, ch))
  }

  /** Every enabled channel a notice of the batch is owed through has its row. */
  ghost predicate Reached(rows: Rows, rows': Rows, chans: seq<string>, notices: seq<Notice>) {
    forall k, ch :: 0 <= k < |notices| && ch in chans && IsOwed(rows, notices[k], ch) ==> HasRow(rows', notices[k].event, ch)
  }

  /** Besides its route, a resolved reaches every enabled channel with a row of the fired it ends. */
  lemma {:induction false} NotifyReaches(rows: Rows, cfg: Config, chans: seq<string>, notices: seq<Notice>, now: int)
    ensures Grows(rows, NotifyAll(rows, cfg, chans, notices, now).0)
    ensures Reached(rows, NotifyAll(rows, cfg, chans, notices, now).0, chans, notices)
    decreases |notices|
  {
    if notices != [] {
      var n := |notices| - 1;
      NotifyReaches(rows, cfg, chans, notices[..n], now);
      ReachesOneMore(rows, NotifyAll(rows, cfg, chans, notices[..n], now).0, cfg, chans, notices, now);
    }
  }

  lemma ReachesOneMore(rows: Rows, before: Rows, cfg: Config, chans: seq<string>, notices: seq<Notice>, now: int)
    requires notices != [] && Grows(rows, before) && Reached(rows, before, chans, notices[..|notices| - 1])
    ensures var rows' := NotifyOf(before, cfg, chans, notices[|notices| - 1], now).0;
            Grows(rows, rows') && Reached(rows, rows', chans, notices)
  {
    var n := |notices| - 1;
    var last := notices[n];
    var rows' := NotifyOf(before, cfg, chans, last, now).0;
    NotifyOneWrites(before, cfg, NoticeChannels(before, chans, last), last.event, last.kind, last.offline, now);
    forall k, ch | 0 <= k < |notices| && ch in chans && IsOwed(rows, notices[k], ch)
      ensures HasRow(rows', notices[k].event, ch)
    {
      if k < n {
        assert notices[..n][k] == notices[k];
        RowStays(before, rows', notices[k].event, ch);
      } else if last.ended.Some? && HasRow(rows, last.ended.value, ch) {
        RowStays(rows, before, last.ended.value, ch);
      }
    }
  }

  lemma RowStays(rows: Rows, rows': Rows, event: EventRef, ch: string)
    requires Grows(rows, rows') && HasRow(rows, event, ch)
    ensures HasRow(rows', event, ch)
  {
    var id :| id in rows && rows[id].event == event && rows[id].channel == ch;
    assert rows'[id] == rows[id];
  }

  /** A full queue may fail some of the rows at once, but it removes none and moves none to another event or channel. */
  lemma {:induction false} FailingKeepsRows(rows: Rows, dropped: seq<Job>, now: int, event: EventRef, ch: string)
    requires HasRow(rows, event, ch)
    ensures HasRow(FailAll(rows, dropped, now), event, ch)
  {
    if dropped != [] {
      var n := |dropped| - 1;
      FailingKeepsRows(rows, dropped[..n], now, event, ch);
      var before := FailAll(rows, dropped[..n], now);
      var id :| id in before && before[id].event == event && before[id].channel == ch;
      assert FailAll(rows, dropped, now)[id].channel == ch;
    }
  }

  // ---------- which fired a resolved ends ----------

  /** Where the key's last entry is. */
  lemma {:induction false} LastEntry<K>(log: Log<K>, k: K) returns (i: nat)
    requires Journal.ChangesOf(log, k) != []
    ensures i < |log| && log[i].key == k && forall j :: i < j < |log| ==> log[j].key != k
    ensures var changes := Journal.ChangesOf(log, k); changes[|changes| - 1] == log[i].change
  {
    var n := |log| - 1;
    if log[n].key == k {
      i := n;
    } else {
      i := LastEntry(log[..n], k);
      assert forall j :: i < j < n ==> log[..n][j] == log[j];
    }
  }

  lemma {:induction false} LastFiredIs<K>(log: Log<K>, k: K, before: nat, i: nat)
    requires before <= |log| + 1 && i + 1 < before
    requires log[i].key == k && log[i].change == Journal.Fired
    requires forall j :: i < j < before - 1 ==> log[j].key != k
    ensures LastFired(log, k, before) == i + 1
  {
    if before > i + 2 {
      LastFiredIs(log, k, before - 1, i);
    }
  }

  /** In an alternating log, the fired a resolved looks up is the key's entry just before it. */
  lemma ResolvedEndsItsFired<K>(log: Log<K>, id: nat)
    requires 1 <= id <= |log| && log[id - 1].change == Journal.Resolved
    requires Journal.Alternating(Journal.ChangesOf(log, log[id - 1].key))
    ensures var f := LastFired(log, log[id - 1].key, id);
            0 < f < id && log[f - 1].key == log[id - 1].key && log[f - 1].change == Journal.Fired
            && forall j :: f <= j < id - 1 ==> log[j].key != log[id - 1].key
  {
    var k := log[id - 1].key;
    var past := log[..id - 1];
    assert log == past + [log[id - 1]] + log[id..];
    Journal.ChangesConcat(past + [log[id - 1]], log[id..], k);
    Journal.ChangesSnoc(past, log[id - 1], k);
    var changes := Journal.ChangesOf(log, k);
    var n := |Journal.ChangesOf(past, k)|;
    assert changes[n] == Journal.Resolved;
    assert changes[n - 1] == Journal.Fired;
    assert Journal.ChangesOf(past, k)[n - 1] == changes[n - 1];
    var i := LastEntry(past, k);
    assert forall j :: i < j < id - 1 ==> past[j] == log[j];
    LastFiredIs(log, k, id, i);
  }

  /** So a channel that heard an alert start, and is still switched on, hears it end, however the rule was re-routed. */
  lemma AlertEndIsHeard(rows: Rows, log: Log<Alerts.Key>, cfg: Config, rules: map<int, RuleSettings>, chans: seq<string>,
                        ids: seq<nat>, now: int, k: nat, ch: string) returns (fired: nat)
    requires forall j :: 0 <= j < |ids| ==> 1 <= ids[j] <= |log|
    requires k < |ids| && log[ids[k] - 1].change == Journal.Resolved && ch in chans
    requires Journal.Alternating(Journal.ChangesOf(log, log[ids[k] - 1].key))
    ensures 0 < fired < ids[k] && log[fired - 1].key == log[ids[k] - 1].key && log[fired - 1].change == Journal.Fired
    ensures forall j :: fired <= j < ids[k] - 1 ==> log[j].key != log[ids[k] - 1].key
    ensures HasRow(rows, OfAlert(fired), ch) ==>
              HasRow(NotifyAll(rows, cfg, chans, AlertNotices(log, cfg, rules, ids), now).0, OfAlert(ids[k]), ch)
  {
    ResolvedEndsItsFired(log, ids[k]);
    fired := LastFired(log, log[ids[k] - 1].key, ids[k]);
    var notices := AlertNotices(log, cfg, rules, ids);
    NotifyReaches(rows, cfg, chans, notices, now);
    assert notices[k] == AlertNotice(log, cfg, rules, ids[k]) && notices[k].ended == Some(OfAlert(fired));
    assert HasRow(rows, OfAlert(fired), ch) ==> IsOwed(rows, notices[k], ch);
  }

  lemma GuardrailEndIsHeard(rows: Rows, log: Log<GuardrailKey>, cfg: Config, chans: seq<string>, ids: seq<nat>, now: int, k: nat,
                            ch: string) returns (fired: nat)
    requires forall j :: 0 <= j < |ids| ==> 1 <= ids[j] <= |log|
    requires k < |ids| && log[ids[k] - 1].change == Journal.Resolved && ch in chans
    requires Journal.Alternating(Journal.ChangesOf(log, log[ids[k] - 1].key))
    ensures 0 < fired < ids[k] && log[fired - 1].key == log[ids[k] - 1].key && log[fired - 1].change == Journal.Fired
    ensures forall j :: fired <= j < ids[k] - 1 ==> log[j].key != log[ids[k] - 1].key
    ensures HasRow(rows, OfGuardrail(fired), ch) ==>
              HasRow(NotifyAll(rows, cfg, chans, GuardrailNotices(log, cfg, ids), now).0, OfGuardrail(ids[k]), ch)
  {
    ResolvedEndsItsFired(log, ids[k]);
    fired := LastFired(log, log[ids[k] - 1].key, ids[k]);
    var notices := GuardrailNotices(log, cfg, ids);
    NotifyReaches(rows, cfg, chans, notices, now);
    assert notices[k] == GuardrailNotice(log, cfg, ids[k]) && notices[k].ended == Some(OfGuardrail(fired));
    assert HasRow(rows, OfGuardrail(fired), ch) ==> IsOwed(rows, notices[k], ch);
  }
}
