/**
 One guardrail journal, three writers. A cost sync and an inventory sweep run side by side, each at most once at a time:
 they read the journal, and insert what changed entry by entry while the others insert theirs. Schedule outcomes come in
 between. A crash drops what was not inserted yet.
 */
module Writers {
  import opened Journal
  import opened Guardrails
  import Actions
  import Deliveries
  import Notify
  import Owed

  /** The journal, and what the evaluation and the sweep under way have still to insert. */
  datatype Desk = Desk(log: Log, budget: Log, sweep: Log)

  datatype Step =
    | Evaluating(input: BudgetInput, lapsed: seq<Key>)
    | Sweeping(reasons: map<string, string>, wants: seq<Want>, now: int)
    | InsertingBudget
    | InsertingOrphan
    | Noting(resource: string, failed: bool, now: int)
    | Crashing

  ghost predicate Does(d: Desk, step: Step, d': Desk) {
    match step
    case Evaluating(input, lapsed) =>
      && d.budget == [] && input.firing == FiringKeys(d.log) && DistinctInput(input) && ListsLapsed(input, lapsed)
      && d' == d.(budget := TransitionsOf(BudgetWants(input, lapsed), input.firing, input.now))
    case Sweeping(reasons, wants, now) =>
      && d.sweep == [] && OrphanWants(reasons, FiringKeys(d.log), wants)
      && d' == d.(sweep := TransitionsOf(wants, FiringKeys(d.log), now))
    case InsertingBudget => d.budget != [] && d' == d.(log := d.log + [d.budget[0]], budget := d.budget[1..])
    case InsertingOrphan => d.sweep != [] && d' == d.(log := d.log + [d.sweep[0]], sweep := d.sweep[1..])
    case Noting(resource, failed, now) => d' == d.(log := Actions.Noted(d.log, resource, failed, now))
    case Crashing => d' == d.(budget := [], sweep := [])
  }

  ghost predicate IsRun(run: seq<Desk>, steps: seq<Step>) {
    && |run| == |steps| + 1 && run[0] == Desk([], [], [])
    && forall k :: 0 <= k < |steps| ==> DoneAt(run, steps, k)
  }

  ghost predicate DoneAt(run: seq<Desk>, steps: seq<Step>, k: int)
    requires 0 <= k < |steps| < |run|
  {
    Does(run[k], steps[k], run[k + 1])
  }

  // ---------- what every step keeps ----------

  /** Entries still to come turn each of their keys over once. */
  ghost predicate Turns(log: Log, rest: Log) {
    forall k :: TurnsKey(log, rest, k)
  }

  predicate TurnsKey(log: Log, rest: Log, k: Key) {
    ChangesOf(rest, k) == [] || ChangesOf(rest, k) == [if FiringIn(log, k) then Resolved else Fired]
  }

  predicate AllOf(log: Log, budget: bool) {
    forall i :: 0 <= i < |log| ==> if budget then IsBudgetRule(log[i].key.rule) else log[i].key.rule == ORPHAN
  }

  ghost predicate Inv(d: Desk) {
    AllAlternate(d.log) && Turns(d.log, d.budget) && Turns(d.log, d.sweep) && AllOf(d.budget, true) && AllOf(d.sweep, false)
  }

  lemma NoneOf(log: Log, k: Key)
    requires forall i :: 0 <= i < |log| ==> log[i].key != k
    ensures ChangesOf(log, k) == []
  {
    if ChangesOf(log, k) != [] {
      var i := HasEntry(log, k);
    }
  }

  lemma TurnsStart(log: Log, wants: seq<Want>, now: int)
    requires OnePerKey(wants)
    ensures Turns(log, TransitionsOf(wants, FiringKeys(log), now))
  {
    forall k
      ensures TurnsKey(log, TransitionsOf(wants, FiringKeys(log), now), k)
    {
      TurnsOf(wants, FiringKeys(log), now, k);
    }
  }

  predicate Wanted(wants: seq<Want>, k: Key) {
    exists j :: 0 <= j < |wants| && wants[j].key == k
  }

  lemma {:induction false} TurnHasWant(wants: seq<Want>, firing: set<Key>, now: int, i: nat)
    requires i < |TransitionsOf(wants, firing, now)|
    ensures Wanted(wants, TransitionsOf(wants, firing, now)[i].key)
  {
    var n := |wants| - 1;
    if i < |TransitionsOf(wants[..n], firing, now)| {
      TurnHasWant(wants[..n], firing, now, i);
      var key := TransitionsOf(wants[..n], firing, now)[i].key;
      var j :| 0 <= j < n && wants[..n][j].key == key;
      assert wants[j].key == key;
    } else {
      assert wants[n].key == TransitionsOf(wants, firing, now)[i].key;
    }
  }

  lemma TurnKeys(wants: seq<Want>, firing: set<Key>, now: int)
    ensures var out := TransitionsOf(wants, firing, now);
            forall i :: 0 <= i < |out| ==> Wanted(wants, out[i].key)
  {
    forall i | 0 <= i < |TransitionsOf(wants, firing, now)|
      ensures Wanted(wants, TransitionsOf(wants, firing, now)[i].key)
    {
      TurnHasWant(wants, firing, now, i);
    }
  }

  lemma BudgetKeys(input: BudgetInput, lapsed: seq<Key>)
    requires ListsLapsed(input, lapsed)
    ensures AllOf(TransitionsOf(BudgetWants(input, lapsed), input.firing, input.now), true)
  {
    var wants := BudgetWants(input, lapsed);
    forall j | 0 <= j < |wants|
      ensures IsBudgetRule(wants[j].key.rule)
    {
      BudgetWantRule(input, lapsed, j);
    }
    TurnKeys(wants, input.firing, input.now);
  }

  lemma BudgetWantRule(input: BudgetInput, lapsed: seq<Key>, j: nat)
    requires ListsLapsed(input, lapsed) && j < |BudgetWants(input, lapsed)|
    ensures IsBudgetRule(BudgetWants(input, lapsed)[j].key.rule)
  {
    var wants := BudgetWants(input, lapsed);
    var spoken := |wants| - |lapsed|;
    if j >= spoken {
      assert wants[j] == Offs(lapsed)[j - spoken];
      assert lapsed[j - spoken] in lapsed;
    } else {
      RulesOf(input);
      var ab := ThresholdWants(input, |input.thresholds|) + ProjectionWants(input);
      assert wants[j] == if j < |ab| then ab[j] else RowWants(input, |input.rows|)[j - |ab|];
    }
  }

  lemma SweepKeys(reasons: map<string, string>, firing: set<Key>, wants: seq<Want>, now: int)
    requires OrphanWants(reasons, firing, wants)
    ensures AllOf(TransitionsOf(wants, firing, now), false)
  {
    assert forall j :: 0 <= j < |wants| ==> wants[j] in wants && wants[j].key.rule == ORPHAN;
    TurnKeys(wants, firing, now);
  }

  /** One entry inserted: its key is turned over, every other one is as it was. */
  lemma Inserted(log: Log, rest: Log, k: Key)
    requires rest != [] && Alternating(ChangesOf(log, k)) && TurnsKey(log, rest, k)
    ensures Alternating(ChangesOf(log + [rest[0]], k)) && TurnsKey(log + [rest[0]], rest[1..], k)
    ensures k != rest[0].key ==> FiringIn(log + [rest[0]], k) == FiringIn(log, k)
  {
    ChangesConcat([rest[0]], rest[1..], k);
    assert [rest[0]] + rest[1..] == rest;
    ChangesSnoc([], rest[0], k);
    assert [] + [rest[0]] == [rest[0]];
    AlternatesOn(log, [rest[0]], k);
  }

  lemma InsertKeeps(log: Log, rest: Log, other: Log, budget: bool)
    requires rest != [] && AllAlternate(log) && Turns(log, rest) && Turns(log, other)
    requires AllOf(rest, budget) && AllOf(other, !budget)
    ensures var log' := log + [rest[0]];
            AllAlternate(log') && Turns(log', rest[1..]) && Turns(log', other) && AllOf(rest[1..], budget)
  {
    var log' := log + [rest[0]];
    forall k
      ensures Alternating(ChangesOf(log', k)) && TurnsKey(log', rest[1..], k) && TurnsKey(log', other, k)
    {
      assert TurnsKey(log, rest, k) && TurnsKey(log, other, k);
      Inserted(log, rest, k);
      if k == rest[0].key {
        NoneOf(other, k);
      }
    }
  }

  lemma NotingKeeps(log: Log, rest: Log, resource: string, failed: bool, now: int, budget: bool)
    requires AllAlternate(log) && Turns(log, rest) && AllOf(rest, budget)
    ensures Turns(Actions.Noted(log, resource, failed, now), rest)
  {
    var log' := Actions.Noted(log, resource, failed, now);
    forall k
      ensures TurnsKey(log', rest, k)
    {
      assert TurnsKey(log, rest, k);
      if k == Actions.FailureKey(resource) {
        NoneOf(rest, k);
      } else if log' != log {
        ChangesSnoc(log, log'[|log|], k);
      }
    }
  }

  lemma StepKeeps(d: Desk, step: Step, d': Desk)
    requires Inv(d) && Does(d, step, d')
    ensures Inv(d')
  {
    match step
    case Evaluating(input, lapsed) =>
      BudgetWantsOnce(input, lapsed);
      TurnsStart(d.log, BudgetWants(input, lapsed), input.now);
      BudgetKeys(input, lapsed);
    case Sweeping(reasons, wants, now) =>
      TurnsStart(d.log, wants, now);
      SweepKeys(reasons, FiringKeys(d.log), wants, now);
    case InsertingBudget => InsertKeeps(d.log, d.budget, d.sweep, true);
    case InsertingOrphan => InsertKeeps(d.log, d.sweep, d.budget, false);
    case Noting(resource, failed, now) =>
      Actions.NotedAlternates(d.log, resource, failed, now);
      NotingKeeps(d.log, d.budget, resource, failed, now, true);
      NotingKeeps(d.log, d.sweep, resource, failed, now, false);
    case Crashing =>
  }

  lemma {:induction false} RunsKeepInv(run: seq<Desk>, steps: seq<Step>, k: nat)
    requires IsRun(run, steps) && k < |run|
    ensures Inv(run[k])
  {
    if k > 0 {
      RunsKeepInv(run, steps, k - 1);
      assert DoneAt(run, steps, k - 1);
      StepKeeps(run[k - 1], steps[k - 1], run[k]);
    }
  }

  /** Every history of the one journal alternates, fired first, at every point of every run of its three writers. */
  lemma JournalAlternates(run: seq<Desk>, steps: seq<Step>, k: nat)
    requires IsRun(run, steps) && k < |run|
    ensures AllAlternate(run[k].log)
  {
    RunsKeepInv(run, steps, k);
  }

  /** So a channel that heard a guardrail fire, and is still switched on, hears it resolve, over any such run. */
  lemma EndIsHeard(run: seq<Desk>, steps: seq<Step>, n: nat, rows: Deliveries.Rows, cfg: Notify.Config, chans: seq<string>,
                   ids: seq<nat>, now: int, k: nat, ch: string) returns (fired: nat)
    requires IsRun(run, steps) && n < |run| && forall j :: 0 <= j < |ids| ==> 1 <= ids[j] <= |run[n].log|
    requires k < |ids| && run[n].log[ids[k] - 1].change == Resolved && ch in chans
    ensures var log := run[n].log;
            && 0 < fired < ids[k] && log[fired - 1].key == log[ids[k] - 1].key && log[fired - 1].change == Fired
            && (forall j :: fired <= j < ids[k] - 1 ==> log[j].key != log[ids[k] - 1].key)
            && (Owed.HasRow(rows, Deliveries.OfGuardrail(fired), ch) ==>
                  Owed.HasRow(Notify.NotifyAll(rows, cfg, chans, Notify.GuardrailNotices(log, cfg, ids), now).0,
                              Deliveries.OfGuardrail(ids[k]), ch))
  {
    JournalAlternates(run, steps, n);
    fired := Owed.GuardrailEndIsHeard(rows, run[n].log, cfg, chans, ids, now, k, ch);
  }
}
