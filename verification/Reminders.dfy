/**
 How far apart reminders are: the last one is read from the delivery rows, which a purge removes, so spacing rests on how
 long the rows are kept.
 */
module Reminders {
  import opened Deliveries
  import opened Sets
  import opened Notify
  import Alerts
  import Owed

  /** Thirty days, after which settled rows go. */
  const KEEP: int := 2_592_000_000_000_000

  predicate Repeats(d: Delivery, e: EventRef) {
    d.event == e && d.kind == Reminder
  }

  // ---------- what a step may do to the reminders of one event ----------

  /** A reminder round: due, and at least one row more, dated now. */
  ghost predicate Round(rows: Rows, rows': Rows, e: EventRef, firedAt: int, every: int, now: int) {
    && Due(rows, e, firedAt, every, now)
    && Owed.Grows(rows, rows')
    && (forall id :: id in rows' && id !in rows && Repeats(rows'[id], e) ==> rows'[id].createdAt == rows'[id].updatedAt == now)
    && exists id :: id in rows' && id !in rows && Repeats(rows'[id], e)
  }

  /** Anything else: no new reminder of the event, and an old one only disappears once it has not changed for thirty days. */
  ghost predicate Rest(rows: Rows, rows': Rows, e: EventRef, now: int) {
    && (forall id :: id in rows' && Repeats(rows'[id], e) ==> id in rows && Persists(rows[id], rows'[id], e, now))
    && forall id :: id in rows && Repeats(rows[id], e) ==> MayGo(rows[id], now) || (id in rows' && Repeats(rows'[id], e))
  }

  predicate Persists(d: Delivery, d': Delivery, e: EventRef, now: int) {
    Repeats(d, e) && d'.createdAt == d.createdAt && (d'.updatedAt == d.updatedAt || d'.updatedAt == now)
  }

  predicate MayGo(d: Delivery, now: int) {
    d.updatedAt < now - KEEP
  }

  // ---------- what the hub does is one or the other ----------

  lemma SettlingRests(rows: Rows, id: int, st: State, attempts: nat, reason: string, e: EventRef, now: int)
    ensures Rest(rows, Closed(rows, id, st, attempts, reason, now), e, now)
    ensures Rest(rows, Released(rows, id, now), e, now)
  {
  }

  lemma PurgingRests(rows: Rows, e: EventRef, now: int)
    ensures Rest(rows, Purged(rows, now - KEEP), e, now)
  {
  }

  /** Rows are added, none of them a reminder of the event. */
  ghost predicate OnlyAdds(rows: Rows, rows': Rows, e: EventRef) {
    Owed.Grows(rows, rows') && forall id :: id in rows' && Repeats(rows'[id], e) ==> id in rows
  }

  lemma AddingRests(rows: Rows, rows': Rows, e: EventRef, firedAt: int, every: int, now: int)
    requires OnlyAdds(rows, rows', e)
    ensures Rest(rows, rows', e, now) && RemindersOf(rows', e) == RemindersOf(rows, e)
    ensures Due(rows', e, firedAt, every, now) <==> Due(rows, e, firedAt, every, now)
  {
    forall t | t in RemindersOf(rows', e)
      ensures t in RemindersOf(rows, e)
    {
      var id :| id in rows' && rows'[id].event == e && rows'[id].kind == Reminder && rows'[id].createdAt == t;
      assert Repeats(rows'[id], e);
    }
    forall t | t in RemindersOf(rows, e)
      ensures t in RemindersOf(rows', e)
    {
      var id :| id in rows && rows[id].event == e && rows[id].kind == Reminder && rows[id].createdAt == t;
      assert rows'[id] == rows[id];
    }
  }

  /** The rows one reminder adds. */
  ghost predicate Reminded(rows: Rows, rows': Rows, e: EventRef, now: int) {
    && Owed.Grows(rows, rows')
    && forall id :: id in rows' && id !in rows ==>
         Repeats(rows'[id], e) && rows'[id].createdAt == rows'[id].updatedAt == now
  }

  lemma {:induction false} RemindOneAdds(rows: Rows, cfg: Config, chans: seq<string>, e: EventRef, offline: bool, now: int)
    ensures Reminded(rows, RemindOne(rows, cfg, chans, e, offline, now).0, e, now)
  {
    if chans != [] {
      RemindOneAdds(rows, cfg, chans[..|chans| - 1], e, offline, now);
    }
  }

  /** A tick of remind, seen from one fired event: either its reminder round, or nothing to it. */
  ghost predicate RoundOrLess(rows: Rows, rows': Rows, e: EventRef, firedAt: int, every: int, now: int) {
    OnlyAdds(rows, rows', e) || Round(rows, rows', e, firedAt, every, now)
  }

  /** Each fired event is recalled once, with one firing time and one interval. */
  predicate RecalledAs(recalls: seq<Recall>, e: EventRef, firedAt: int, every: int) {
    && (forall k :: 0 <= k < |recalls| && recalls[k].notice.event == e ==> recalls[k].firedAt == firedAt && recalls[k].every == every)
    && forall j, k :: 0 <= j < k < |recalls| ==> recalls[j].notice.event != e || recalls[k].notice.event != e
  }

  lemma {:induction false} RemindTick(rows: Rows, cfg: Config, chans: seq<string>, recalls: seq<Recall>, now: int, e: EventRef,
                                      firedAt: int, every: int)
    requires RecalledAs(recalls, e, firedAt, every)
    ensures var after := RemindAll(rows, cfg, chans, recalls, now).0;
            && RoundOrLess(rows, after, e, firedAt, every, now)
            && ((forall k :: 0 <= k < |recalls| ==> recalls[k].notice.event != e) ==> OnlyAdds(rows, after, e))
    decreases |recalls|
  {
    if recalls != [] {
      var n := |recalls| - 1;
      RemindTick(rows, cfg, chans, recalls[..n], now, e, firedAt, every);
      var before := RemindAll(rows, cfg, chans, recalls[..n], now).0;
      var notice := recalls[n].notice;
      if Due(before, notice.event, recalls[n].firedAt, recalls[n].every, now) {
        RemindOneAdds(before, cfg, NoticeChannels(before, chans, notice), notice.event, notice.offline, now);
        OneMoreReminded(rows, before, RemindAll(rows, cfg, chans, recalls, now).0, notice.event, e, firedAt, every, now);
      }
    }
  }

  lemma OneMoreReminded(rows: Rows, before: Rows, after: Rows, due: EventRef, e: EventRef, firedAt: int, every: int, now: int)
    requires RoundOrLess(rows, before, e, firedAt, every, now) && Reminded(before, after, due, now)
    requires due == e ==> OnlyAdds(rows, before, e) && Due(before, e, firedAt, every, now)
    ensures RoundOrLess(rows, after, e, firedAt, every, now)
    ensures due != e && OnlyAdds(rows, before, e) ==> OnlyAdds(rows, after, e)
  {
    if due == e {
      AddingRests(rows, before, e, firedAt, every, now);
      if id :| id in after && id !in rows && Repeats(after[id], e) {
        assert Round(rows, after, e, firedAt, every, now);
      }
    } else if Round(rows, before, e, firedAt, every, now) {
      var id :| id in before && id !in rows && Repeats(before[id], e);
      assert after[id] == before[id];
    }
  }

  /** The hub's own list recalls each of its events as the journal dates it. */
  lemma {:induction false} AlertRecalledAs(log: Log<Alerts.Key>, cfg: Config, rules: map<int, RuleSettings>, muted: set<int>,
                                           upTo: nat, id: nat)
    requires upTo <= |log| && 1 <= id <= |log|
    ensures RecalledAs(AlertRecalls(log, cfg, rules, muted, upTo), OfAlert(id), log[id - 1].at,
                       RemindEvery(cfg, log[id - 1].key.rule, rules))
    ensures forall r :: r in AlertRecalls(log, cfg, rules, muted, upTo) ==> r.notice.event.OfAlert? && r.notice.event.id <= upTo
  {
    if upTo > 0 {
      AlertRecalledAs(log, cfg, rules, muted, upTo - 1, id);
    }
  }

  lemma {:induction false} GuardrailRecalledAs(log: Log<GuardrailKey>, cfg: Config, upTo: nat, id: nat)
    requires upTo <= |log| && 1 <= id <= |log|
    ensures RecalledAs(GuardrailRecalls(log, cfg, upTo), OfGuardrail(id), log[id - 1].at, cfg.guardrailRemind)
    ensures forall r :: r in GuardrailRecalls(log, cfg, upTo) ==> r.notice.event.OfGuardrail? && r.notice.event.id <= upTo
  {
    if upTo > 0 {
      GuardrailRecalledAs(log, cfg, upTo - 1, id);
    }
  }

  lemma RecalledOnOneSide(a: seq<Recall>, b: seq<Recall>, e: EventRef, firedAt: int, every: int)
    requires RecalledAs(a, e, firedAt, every) && RecalledAs(b, e, firedAt, every)
    requires (forall r :: r in a ==> r.notice.event != e) || (forall r :: r in b ==> r.notice.event != e)
    ensures RecalledAs(a + b, e, firedAt, every)
  {
    var all := a + b;
    forall k | 0 <= k < |all| && all[k].notice.event == e
      ensures all[k].firedAt == firedAt && all[k].every == every
    {
      assert if k < |a| then all[k] == a[k] else all[k] == b[k - |a|];
    }
    forall j, k | 0 <= j < k < |all|
      ensures all[j].notice.event != e || all[k].notice.event != e
    {
      assert if j < |a| then all[j] == a[j] else all[j] == b[j - |a|];
      assert if k < |a| then all[k] == a[k] else all[k] == b[k - |a|];
      assert j < |a| ==> a[j] in a;
      assert k >= |a| ==> b[k - |a|] in b;
    }
  }

  lemma ReorderedRecalledAs(listed: seq<Recall>, order: seq<Recall>, e: EventRef, firedAt: int, every: int)
    requires RecalledAs(listed, e, firedAt, every) && Reorders(order, listed)
    ensures RecalledAs(order, e, firedAt, every)
  {
    forall j, k | 0 <= j < k < |order|
      ensures order[j].notice.event != e || order[k].notice.event != e
    {
      assert order[j] in order && order[k] in order;
      var m :| 0 <= m < |listed| && listed[m] == order[j];
      var n :| 0 <= n < |listed| && listed[n] == order[k];
      assert m != n;
    }
    forall k | 0 <= k < |order| && order[k].notice.event == e
      ensures order[k].firedAt == firedAt && order[k].every == every
    {
      assert order[k] in order;
    }
  }

  /** What a tick does to the reminders of an alert entry that still fires, dated and paced by its own entry and rule. */
  lemma AlertTick(rows: Rows, log: Log<Alerts.Key>, guardrails: Log<GuardrailKey>, cfg: Config, rules: map<int, RuleSettings>,
                  muted: set<int>, chans: seq<string>, now: int, id: nat, a: seq<Recall>, b: seq<Recall>)
    requires 1 <= id <= |log|
    requires Reorders(a, AlertRecalls(log, cfg, rules, muted, |log|))
    requires Reorders(b, GuardrailRecalls(guardrails, cfg, |guardrails|))
    ensures RoundOrLess(rows, RemindAll(rows, cfg, chans, a + b, now).0, OfAlert(id), log[id - 1].at,
                        RemindEvery(cfg, log[id - 1].key.rule, rules), now)
  {
    var firedAt, every := log[id - 1].at, RemindEvery(cfg, log[id - 1].key.rule, rules);
    AlertRecalledAs(log, cfg, rules, muted, |log|, id);
    if guardrails != [] {
      GuardrailRecalledAs(guardrails, cfg, |guardrails|, 1);
    }
    ReorderedRecalledAs(AlertRecalls(log, cfg, rules, muted, |log|), a, OfAlert(id), firedAt, every);
    assert forall k :: 0 <= k < |b| ==> b[k] in b;
    RecalledOnOneSide(a, b, OfAlert(id), firedAt, every);
    RemindTick(rows, cfg, chans, a + b, now, OfAlert(id), firedAt, every);
  }

  lemma GuardrailTick(rows: Rows, alerts: Log<Alerts.Key>, log: Log<GuardrailKey>, cfg: Config, rules: map<int, RuleSettings>,
                      muted: set<int>, chans: seq<string>, now: int, id: nat, a: seq<Recall>, b: seq<Recall>)
    requires 1 <= id <= |log|
    requires Reorders(a, AlertRecalls(alerts, cfg, rules, muted, |alerts|))
    requires Reorders(b, GuardrailRecalls(log, cfg, |log|))
    ensures RoundOrLess(rows, RemindAll(rows, cfg, chans, a + b, now).0, OfGuardrail(id), log[id - 1].at, cfg.guardrailRemind, now)
  {
    GuardrailRecalledAs(log, cfg, |log|, id);
    if alerts != [] {
      AlertRecalledAs(alerts, cfg, rules, muted, |alerts|, 1);
    }
    ReorderedRecalledAs(GuardrailRecalls(log, cfg, |log|), b, OfGuardrail(id), log[id - 1].at, cfg.guardrailRemind);
    assert forall k :: 0 <= k < |a| ==> a[k] in a;
    RecalledOnOneSide(a, b, OfGuardrail(id), log[id - 1].at, cfg.guardrailRemind);
    RemindTick(rows, cfg, chans, a + b, now, OfGuardrail(id), log[id - 1].at, cfg.guardrailRemind);
  }

  // ---------- every run ----------

  datatype Moment = Moment(at: int, rows: Rows)

  ghost predicate RoundAt(run: seq<Moment>, e: EventRef, firedAt: int, every: int, k: int)
    requires 0 <= k < |run| - 1
  {
    Round(run[k].rows, run[k + 1].rows, e, firedAt, every, run[k + 1].at)
  }

  ghost predicate StepAt(run: seq<Moment>, e: EventRef, firedAt: int, every: int, k: int)
    requires 0 <= k < |run| - 1
  {
    && run[k].at <= run[k + 1].at
    && (RoundAt(run, e, firedAt, every, k) || Rest(run[k].rows, run[k + 1].rows, e, run[k + 1].at))
  }

  predicate NeverReminded(rows: Rows, e: EventRef) {
    forall id :: id in rows ==> !Repeats(rows[id], e)
  }

  /** From the moment the event fired: purges, restarts, quiet hours and the life of every other row anywhere. */
  ghost predicate IsRun(run: seq<Moment>, e: EventRef, firedAt: int, every: int) {
    && run != [] && firedAt <= run[0].at && NeverReminded(run[0].rows, e)
    && forall k :: 0 <= k < |run| - 1 ==> StepAt(run, e, firedAt, every, k)
  }

  /** A reminder is dated between the firing and now, and its row was last touched no earlier. */
  predicate WellDated(d: Delivery, firedAt: int, now: int) {
    firedAt <= d.createdAt <= d.updatedAt && d.createdAt <= now
  }

  ghost predicate Remembered(run: seq<Moment>, e: EventRef, k: int, t: int)
    requires 0 <= k < |run|
  {
    t < run[k].at - KEEP || exists id :: id in run[k].rows && Repeats(run[k].rows[id], e) && run[k].rows[id].createdAt == t
  }

  lemma {:induction false} DatesHold(run: seq<Moment>, e: EventRef, firedAt: int, every: int, k: nat, id: int)
    requires IsRun(run, e, firedAt, every) && k < |run| && id in run[k].rows && Repeats(run[k].rows[id], e)
    ensures WellDated(run[k].rows[id], firedAt, run[k].at) && firedAt <= run[k].at
  {
    if k > 0 {
      assert StepAt(run, e, firedAt, every, k - 1);
      if id in run[k - 1].rows && Repeats(run[k - 1].rows[id], e) {
        DatesHold(run, e, firedAt, every, k - 1, id);
      } else {
        TimesAscend(run, e, firedAt, every, 0, k);
      }
    }
  }

  lemma {:induction false} TimesAscend(run: seq<Moment>, e: EventRef, firedAt: int, every: int, j: nat, k: nat)
    requires IsRun(run, e, firedAt, every) && j <= k < |run|
    ensures run[j].at <= run[k].at
  {
    if j < k {
      TimesAscend(run, e, firedAt, every, j, k - 1);
      assert StepAt(run, e, firedAt, every, k - 1);
    }
  }

  /** As long as it could still be needed, every round leaves a row dated by it. */
  lemma {:induction false} RoundsRemembered(run: seq<Moment>, e: EventRef, firedAt: int, every: int, j: nat, k: nat)
    requires IsRun(run, e, firedAt, every) && j < k < |run| && RoundAt(run, e, firedAt, every, j)
    ensures Remembered(run, e, k, run[j + 1].at)
  {
    var t := run[j + 1].at;
    if k == j + 1 {
      var id :| id in run[k].rows && id !in run[j].rows && Repeats(run[k].rows[id], e);
    } else {
      RoundsRemembered(run, e, firedAt, every, j, k - 1);
      assert StepAt(run, e, firedAt, every, k - 1);
      if t >= run[k].at - KEEP {
        var id :| id in run[k - 1].rows && Repeats(run[k - 1].rows[id], e) && run[k - 1].rows[id].createdAt == t;
        DatesHold(run, e, firedAt, every, k - 1, id);
        assert !MayGo(run[k - 1].rows[id], run[k].at);
        assert id in run[k].rows && Repeats(run[k].rows[id], e) && run[k].rows[id].createdAt == t;
      }
    }
  }

  /** The first round comes at least the interval after the firing, and any two are at least the interval apart. */
  ghost predicate Spaced(run: seq<Moment>, e: EventRef, firedAt: int, every: int) {
    forall k :: 0 <= k < |run| - 1 && RoundAt(run, e, firedAt, every, k) ==>
      && run[k + 1].at - firedAt >= every
      && forall j :: 0 <= j < k && RoundAt(run, e, firedAt, every, j) ==> run[k + 1].at - run[j + 1].at >= every
  }

  lemma RoundIsLate(run: seq<Moment>, e: EventRef, firedAt: int, every: int, k: nat)
    requires IsRun(run, e, firedAt, every) && k < |run| - 1 && RoundAt(run, e, firedAt, every, k)
    ensures run[k + 1].at - firedAt >= every
    ensures forall t :: t in RemindersOf(run[k].rows, e) ==> run[k + 1].at - t >= every
  {
    var times := RemindersOf(run[k].rows, e);
    if times != {} {
      var id :| id in run[k].rows && run[k].rows[id].event == e && run[k].rows[id].kind == Reminder
                && run[k].rows[id].createdAt == MaxOf(times);
      DatesHold(run, e, firedAt, every, k, id);
    }
  }

  lemma RoundsApart(run: seq<Moment>, e: EventRef, firedAt: int, every: int, j: nat, k: nat)
    requires every <= KEEP + 1 && IsRun(run, e, firedAt, every) && j < k < |run| - 1
    requires RoundAt(run, e, firedAt, every, j) && RoundAt(run, e, firedAt, every, k)
    ensures run[k + 1].at - run[j + 1].at >= every
  {
    RoundIsLate(run, e, firedAt, every, k);
    RoundsRemembered(run, e, firedAt, every, j, k);
    assert StepAt(run, e, firedAt, every, k);
    if run[j + 1].at >= run[k].at - KEEP {
      assert run[j + 1].at in RemindersOf(run[k].rows, e);
    }
  }

  lemma RunsAreSpaced(run: seq<Moment>, e: EventRef, firedAt: int, every: int)
    requires every <= KEEP + 1 && IsRun(run, e, firedAt, every)
    ensures Spaced(run, e, firedAt, every)
  {
    forall k | 0 <= k < |run| - 1 && RoundAt(run, e, firedAt, every, k)
      ensures run[k + 1].at - firedAt >= every
      ensures forall j :: 0 <= j < k && RoundAt(run, e, firedAt, every, j) ==> run[k + 1].at - run[j + 1].at >= every
    {
      RoundIsLate(run, e, firedAt, every, k);
      forall j | 0 <= j < k && RoundAt(run, e, firedAt, every, j)
        ensures run[k + 1].at - run[j + 1].at >= every
      {
        RoundsApart(run, e, firedAt, every, j, k);
      }
    }
  }

  /** Sent at once, purged thirty days on, due again by the firing itself. */
  function ForgottenRun(e: EventRef, firedAt: int, every: int): seq<Moment> {
    var first, second := firedAt + every, firedAt + every + KEEP + 1;
    var sent := map[1 := SpecRow(e, "smtp", Reminder, false, first)];
    var settled := Closed(sent, 1, Sent, 1, "", first);
    [Moment(firedAt, map[]), Moment(first, sent), Moment(first, settled), Moment(second, Purged(settled, second - KEEP)),
     Moment(second, map[1 := SpecRow(e, "smtp", Reminder, false, second)])]
  }

  lemma ForgottenRunMisspaced(e: EventRef, firedAt: int, every: int)
    requires every > KEEP + 1
    ensures IsRun(ForgottenRun(e, firedAt, every), e, firedAt, every)
    ensures !Spaced(ForgottenRun(e, firedAt, every), e, firedAt, every)
  {
    var run := ForgottenRun(e, firedAt, every);
    assert run[3].rows == map[];
    FirstRound(run[0].rows, run[1].rows, e, firedAt, every, run[1].at);
    FirstRound(run[3].rows, run[4].rows, e, firedAt, every, run[4].at);
    SettlingRests(run[1].rows, 1, Sent, 1, "", e, run[2].at);
    PurgingRests(run[2].rows, e, run[3].at);
    assert StepAt(run, e, firedAt, every, 1) && StepAt(run, e, firedAt, every, 2);
    assert RoundAt(run, e, firedAt, every, 0) && RoundAt(run, e, firedAt, every, 3);
    assert run[4].at - run[1].at < every;
  }

  lemma FirstRound(rows: Rows, rows': Rows, e: EventRef, firedAt: int, every: int, now: int)
    requires rows == map[] && rows' == map[1 := SpecRow(e, "smtp", Reminder, false, now)] && now - firedAt >= every
    ensures Round(rows, rows', e, firedAt, every, now)
  {
    assert Repeats(rows'[1], e);
  }

  /** Reminders keep their interval over every run if and only if the interval is no longer than rows are kept. */
  lemma SpacingExact(e: EventRef, firedAt: int, every: int)
    ensures every <= 2_592_000_000_000_001 <==> forall run :: IsRun(run, e, firedAt, every) ==> Spaced(run, e, firedAt, every)
  {
    if every <= KEEP + 1 {
      forall run | IsRun(run, e, firedAt, every)
        ensures Spaced(run, e, firedAt, every)
      {
        RunsAreSpaced(run, e, firedAt, every);
      }
    } else {
      ForgottenRunMisspaced(e, firedAt, every);
    }
  }
}
