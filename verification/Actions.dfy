/**
 Starting and stopping resources: the action rows, the one call behind each, and the schedules that ask for them.
 */
module Actions {
  import opened Options
  import opened Zone
  import opened Schedule
  import opened Journal
  import Deliveries
  import Dispatcher
  import Timeline

  // ---------- the rows ----------

  datatype Status = Pending | Running | Succeeded | Failed | Interrupted

  datatype Verb = Start | Stop | Restart

  datatype Origin = ByUser | BySchedule

  datatype Action = Action(resource: string, verb: Verb, origin: Origin, status: Status, error: string,
                           stateBefore: Option<string>, stateAfter: Option<string>, requestedAt: int, finishedAt: Option<int>)

  type ActionRows = map<int, Action>

  predicate InFlight(a: Action) {
    a.status == Pending || a.status == Running
  }

  predicate Busy(rows: ActionRows, resource: string) {
    exists id :: id in rows && rows[id].resource == resource && InFlight(rows[id])
  }

  /** What the partial unique index keeps: at most one action in flight per resource. */
  predicate OneInFlight(rows: ActionRows) {
    forall i, j :: i in rows && j in rows && InFlight(rows[i]) && InFlight(rows[j]) && rows[i].resource == rows[j].resource ==> i == j
  }

  function NewAction(resource: string, verb: Verb, origin: Origin, before: Option<string>, now: int): Action {
    Action(resource, verb, origin, Pending, "", before, None, now, None)
  }

  function Ran(rows: ActionRows, id: int): ActionRows {
    if id in rows && rows[id].status == Pending then rows[id := rows[id].(status := Running)] else rows
  }

  function Finished(rows: ActionRows, id: int, status: Status, error: string, after: Option<string>, now: int): ActionRows {
    if id in rows then rows[id := rows[id].(status := status, error := error, stateAfter := after, finishedAt := Some(now))]
    else rows
  }

  function InterruptedAll(rows: ActionRows, now: int): ActionRows {
    map id | id in rows :: if InFlight(rows[id]) then rows[id].(status := Interrupted, finishedAt := Some(now)) else rows[id]
  }

  /** The azure_actions table. Rows are never deleted, so ids are never reused. */
  class ActionTable {
    var rows: ActionRows

    constructor ()
      ensures rows == map[]
    {
      rows := map[];
    }

    /** None is the unique index's refusal. */
    method StartAzureAction(resource: string, verb: Verb, origin: Origin, before: Option<string>, now: int) returns (id: Option<int>)
      modifies this
      ensures id.None? <==> Busy(old(rows), resource)
      ensures id.None? ==> rows == old(rows)
      ensures id.Some? ==> id.value !in old(rows) && (forall i :: i in old(rows) ==> i < id.value)
                           && rows == old(rows)[id.value := Action(resource, verb, origin, Pending, "", before, None, now, None)]
      ensures id.Some? ==> id.value == Deliveries.NextId(old(rows).Keys)
      ensures OneInFlight(old(rows)) ==> OneInFlight(rows)
    {
      if Busy(rows, resource) {
        return None;
      }
      var next := Deliveries.NextId(rows.Keys);
      rows := rows[next := NewAction(resource, verb, origin, before, now)];
      return Some(next);
    }

    method MarkAzureActionRunning(id: int)
      modifies this
      ensures rows == Ran(old(rows), id)
      ensures rows == if id in old(rows) && old(rows)[id].status == Pending then old(rows)[id := old(rows)[id].(status := Running)]
                      else old(rows)
      ensures OneInFlight(old(rows)) ==> OneInFlight(rows)
    {
      if id in rows && rows[id].status == Pending {
        rows := rows[id := rows[id].(status := Running)];
      }
    }

    method FinishAzureAction(id: int, status: Status, error: string, after: Option<string>, now: int)
      modifies this
      ensures rows == Finished(old(rows), id, status, error, after, now)
    {
      if id in rows {
        rows := rows[id := rows[id].(status := status, error := error, stateAfter := after, finishedAt := Some(now))];
      }
    }

    method InterruptAzureActions(now: int)
      modifies this
      ensures rows == InterruptedAll(old(rows), now)
      ensures rows.Keys == old(rows).Keys
      ensures forall id :: id in rows ==>
                if old(rows)[id].status == Pending || old(rows)[id].status == Running
                then rows[id] == old(rows)[id].(status := Interrupted, finishedAt := Some(now)) else rows[id] == old(rows)[id]
    {
      rows := map id | id in rows ::
        if InFlight(rows[id]) then rows[id].(status := Interrupted, finishedAt := Some(now)) else rows[id];
    }
  }

  // ---------- one call ----------

  /** One attempt: no token and so no request; an answer, with the wait it asks for; or a request nobody answered. */
  datatype Try = NoToken(status: int, retryable: bool) | Answered(status: int, wait: int) | NoAnswer(shutdown: bool)

  const TOO_MANY: int := 429

  predicate Accepted(t: Try) {
    t.Answered? && 200 <= t.status < 300
  }

  predicate Retryable(t: Try) {
    match t
    case NoToken(_, retryable) => retryable
    case Answered(status, _) => status == TOO_MANY || status >= 500
    case NoAnswer(shutdown) => !shutdown
  }

  function StatusOf(t: Try): int {
    if t.NoAnswer? then 0 else t.status
  }

  /** The action policy. A 429 means nobody looked at the request; anything else may have acted. */
  predicate RetryThrottlingOnly(t: Try) {
    Retryable(t) && StatusOf(t) == TOO_MANY
  }

  /** A request that may have acted: sent, and not turned away unread. */
  predicate MayHaveActed(t: Try) {
    !t.NoToken? && !(t.Answered? && t.status == TOO_MANY)
  }

  /** The attempt doResponse stops at. */
  function LastTry(tries: nat -> Try, slept: nat -> bool, retry: Try -> bool, attempts: nat, k: nat): (last: nat)
    requires 1 <= k <= attempts
    ensures k <= last <= attempts
    decreases attempts - k
  {
    if Accepted(tries(k)) || !retry(tries(k)) || k == attempts || !slept(k) then k
    else LastTry(tries, slept, retry, attempts, k + 1)
  }

  /** What the server asks for, or one second, five, twenty-five. */
  predicate IsWait(t: Try, attempt: nat, w: int)
    requires attempt > 0
  {
    w == if t.Answered? && t.wait > 0 then t.wait else SECOND * Dispatcher.Pow(5, attempt - 1)
  }

  /** An attempt after which another is made. */
  predicate GoesOn(t: Try, slept: bool, retry: bool) {
    !(t.Answered? && 200 <= t.status < 300) && retry && slept
  }

  method Backoff(attempt: nat) returns (w: int)
    requires attempt > 0
    ensures w == SECOND * Dispatcher.Pow(5, attempt - 1)
  {
    w := SECOND;
    for i := 1 to attempt
      invariant w == SECOND * Dispatcher.Pow(5, i - 1)
    {
      w := w * 5;
    }
  }

  /** As many attempts as it takes to one that is final, each waited out but the last. */
  method DoResponse(attempts: nat, tries: nat -> Try, slept: nat -> bool, retry: Try -> bool)
    returns (r: Try, ghost waits: seq<int>)
    requires attempts > 0
    ensures r == tries(LastTry(tries, slept, retry, attempts, 1))
    ensures |waits| == LastTry(tries, slept, retry, attempts, 1) - 1
    ensures forall k :: 0 <= k < |waits| ==> IsWait(tries(k + 1), k + 1, waits[k])
    ensures var n := |waits| + 1;
            && n <= attempts && r == tries(n)
            && (forall k :: 1 <= k < n ==> GoesOn(tries(k), slept(k), retry(tries(k))))
            && (n == attempts || !GoesOn(r, slept(n), retry(r)))
  {
    var attempt := 1;
    waits := [];
    while true
      invariant 1 <= attempt <= attempts
      invariant LastTry(tries, slept, retry, attempts, 1) == LastTry(tries, slept, retry, attempts, attempt)
      invariant |waits| == attempt - 1 && forall k :: 0 <= k < |waits| ==> IsWait(tries(k + 1), k + 1, waits[k])
      invariant forall k :: 1 <= k < attempt ==> GoesOn(tries(k), slept(k), retry(tries(k)))
      decreases attempts - attempt
    {
      var t := tries(attempt);
      if Accepted(t) || !retry(t) || attempt == attempts {
        return t, waits;
      }
      var w := if t.Answered? then t.wait else 0;
      if w <= 0 {
        w := Backoff(attempt);
      }
      if !slept(attempt) {
        return t, waits;
      }
      waits := waits + [w];
      attempt := attempt + 1;
    }
  }

  /** Turned away before anybody acted: a 429 to the request, or to the call for its token. */
  predicate Throttled(t: Try) {
    (t.Answered? && t.status == 429) || (t.NoToken? && t.retryable && t.status == 429)
  }

  /** Under the action policy every attempt but the last was throttled, so at most one request may have acted. */
  lemma {:induction false} OneMayHaveActed(tries: nat -> Try, slept: nat -> bool, attempts: nat, k: nat)
    requires 1 <= k <= attempts
    ensures var last := LastTry(tries, slept, RetryThrottlingOnly, attempts, k);
            && (forall j :: k <= j < last ==> Throttled(tries(j)) && slept(j) && !MayHaveActed(tries(j)))
            && (last == attempts || !slept(last) || !Throttled(tries(last)))
    decreases attempts - k
  {
    if !Accepted(tries(k)) && RetryThrottlingOnly(tries(k)) && k < attempts && slept(k) {
      OneMayHaveActed(tries, slept, attempts, k + 1);
    }
  }

  /** Worth reading again: too many requests or the server's own failure, no answer while the hub runs on, or a token that may
      yet be had. */
  predicate ReadAgain(t: Try) {
    || (t.Answered? && (t.status == 429 || 500 <= t.status)) || (t.NoAnswer? && !t.shutdown) || (t.NoToken? && t.retryable)
  }

  /** The reads' policy goes on after exactly those. */
  lemma {:induction false} ReadsGoOn(tries: nat -> Try, slept: nat -> bool, attempts: nat, k: nat)
    requires 1 <= k <= attempts
    ensures var last := LastTry(tries, slept, Retryable, attempts, k);
            && (forall j :: k <= j < last ==> ReadAgain(tries(j)) && slept(j))
            && (last == attempts || !slept(last) || !ReadAgain(tries(last)))
    decreases attempts - k
  {
    if !Accepted(tries(k)) && Retryable(tries(k)) && k < attempts && slept(k) {
      ReadsGoOn(tries, slept, attempts, k + 1);
    }
  }

  /** The reads' own policy would not do: it repeats a request after a 500, which may have acted. */
  lemma ReadPolicyActsTwice()
    ensures exists tries: nat -> Try, slept: nat -> bool, j, k ::
              1 <= j < k <= LastTry(tries, slept, Retryable, 4, 1) && MayHaveActed(tries(j)) && MayHaveActed(tries(k))
  {
    var tries: nat -> Try := k => if k == 1 then Answered(500, 0) else Answered(200, 0);
    var slept: nat -> bool := _ => true;
    assert LastTry(tries, slept, Retryable, 4, 1) == LastTry(tries, slept, Retryable, 4, 2) == 2;
    assert MayHaveActed(tries(1)) && MayHaveActed(tries(2));
  }

  // ---------- schedules ----------

  datatype Resource = Resource(kind: string, state: Option<string>, deleted: bool)

  datatype Sched = Sched(windows: seq<Window>, enabled: bool, zone: Zone, last: Option<int>, appliedAt: Option<int>)

  type Scheds = map<string, Sched>

  /** Only sites and virtual machines have verbs, and they have all three. Kinds are lower case. */
  predicate Supports(kind: string, verb: Verb) {
    kind == "microsoft.web/sites" || kind == "microsoft.compute/virtualmachines"
  }

  function Upserted(scheds: Scheds, resource: string, windows: seq<Window>, enabled: bool, zone: Zone): Scheds {
    scheds[resource := if resource in scheds then scheds[resource].(windows := windows, enabled := enabled, zone := zone)
                       else Sched(windows, enabled, zone, None, None)]
  }

  function Marked(scheds: Scheds, resource: string, boundary: int, now: int): Scheds {
    if resource in scheds then scheds[resource := scheds[resource].(last := Some(boundary), appliedAt := Some(now))] else scheds
  }

  /** What one schedule does with the boundary it read. */
  datatype Choice = Leave | TooOld(b: Boundary) | Apply(b: Boundary)

  function Choose(sc: Sched, r: Option<Boundary>, now: int, maxAge: int): Choice {
    if r.None? || (sc.last.Some? && r.value.at <= sc.last.value) then Leave
    else if maxAge > 0 && now - r.value.at > maxAge then TooOld(r.value)
    else Apply(r.value)
  }

  /** The boundary a schedule row gives at an instant; a switched-off one, and one whose windows do not parse, give none. */
  function ReadOf(sc: Sched, now: int): Option<Boundary> {
    if sc.enabled && sc.windows != [] && forall k :: 0 <= k < |sc.windows| ==> ValidWindow(sc.windows[k])
    then Timeline.Reading(sc.windows, sc.zone, now)
    else None
  }

  const CATCH_UP: int := 12 * HOUR

  /** In the inventory, and a site or a virtual machine. */
  predicate Actionable(resources: map<string, Resource>, id: string) {
    && id in resources && !resources[id].deleted
    && resources[id].kind in {"microsoft.web/sites", "microsoft.compute/virtualmachines"}
  }

  predicate InUse(rows: ActionRows, resource: string) {
    exists id :: id in rows && rows[id].resource == resource && rows[id].status in {Pending, Running}
  }

  datatype Refusal = AzureOff | NotListed | NotActionable

  datatype Launch = Launched(id: int) | AlreadyRunning | Refused(why: Refusal)

  /** The inventory, None while the integration is off. */
  type Azure = Option<map<string, Resource>>

  type Log = seq<Entry<GuardrailKey>>

  /** Everything a run of the schedules touches; tasks are the calls under way. */
  datatype World = World(scheds: Scheds, actions: ActionRows, tasks: set<int>, log: Log)

  function FailureKey(resource: string): GuardrailKey {
    GuardrailKey(resource, "schedule_failed", None)
  }

  /** journalScheduleFailure and journalScheduleResolved: said once, until the other is. */
  function Noted(log: Log, resource: string, failed: bool, now: int): Log {
    if FiringIn(log, FailureKey(resource)) == failed then log
    else log + [Entry(FailureKey(resource), if failed then Fired else Resolved, 0.0, now)]
  }

  /** Said: the journal's state of the failure is the last outcome, and no other key's has changed. */
  lemma NotedSays(log: Log, resource: string, failed: bool, now: int)
    ensures var k, log' := GuardrailKey(resource, "schedule_failed", None), Noted(log, resource, failed, now);
            && FiringIn(log', k) == failed && log <= log' && |log'| <= |log| + 1
            && (FiringIn(log, k) == failed ==> log' == log)
            && (forall j :: j != k ==> ChangesOf(log', j) == ChangesOf(log, j))
            && (AllAlternate(log) ==> AllAlternate(log'))
  {
    if AllAlternate(log) {
      NotedAlternates(log, resource, failed, now);
    }
    forall j
      ensures ChangesOf(log + [Entry(FailureKey(resource), if failed then Fired else Resolved, 0.0, now)], j)
              == ChangesOf(log, j) + if j == FailureKey(resource) then [if failed then Fired else Resolved] else []
    {
      ChangesSnoc(log, Entry(FailureKey(resource), if failed then Fired else Resolved, 0.0, now), j);
    }
  }

  lemma NotedAlternates(log: Log, resource: string, failed: bool, now: int)
    requires AllAlternate(log)
    ensures AllAlternate(Noted(log, resource, failed, now))
    ensures FiringIn(Noted(log, resource, failed, now), FailureKey(resource)) == failed
  {
    if FiringIn(log, FailureKey(resource)) != failed {
      var e := Entry(FailureKey(resource), if failed then Fired else Resolved, 0.0, now);
      forall k
        ensures Alternating(ChangesOf(log + [e], k))
        ensures k == FailureKey(resource) ==> FiringIn(log + [e], k) == failed
      {
        ChangesSnoc([], e, k);
        assert [] + [e] == [e];
        AlternatesOn(log, [e], k);
      }
    }
  }

  function Launching(actions: ActionRows, azure: Azure, resource: string, verb: Verb): Launch {
    if azure.None? then Refused(AzureOff)
    else if resource !in azure.value || azure.value[resource].deleted then Refused(NotListed)
    else if !Supports(azure.value[resource].kind, verb) then Refused(NotActionable)
    else if Busy(actions, resource) then AlreadyRunning
    else Launched(Deliveries.NextId(actions.Keys))
  }

  /** StartActionFrom: the row first, then the call. */
  function Begun(w: World, azure: Azure, resource: string, verb: Verb, origin: Origin, now: int): World {
    match Launching(w.actions, azure, resource, verb)
    case Launched(id) =>
      w.(actions := w.actions[id := NewAction(resource, verb, origin, azure.value[resource].state, now)], tasks := w.tasks + {id})
    case _ => w
  }

  function VerbOf(b: Boundary): Verb {
    if b.off then Stop else Start
  }

  /** One schedule row at one tick, as the list had it: mark first, then act; an action running already is left alone, a
      refusal is journalled. */
  function RanOne(w: World, azure: Azure, id: string, sc: Sched, now: int, maxAge: int): World {
    match Choose(sc, ReadOf(sc, now), now, maxAge)
    case Leave => w
    case TooOld(b) => w.(scheds := Marked(w.scheds, id, b.at, now))
    case Apply(b) => Applied(w, azure, id, b, now)
  }

  function Applied(w: World, azure: Azure, id: string, b: Boundary, now: int): World {
    var marked := w.(scheds := Marked(w.scheds, id, b.at, now));
    if Launching(w.actions, azure, id, VerbOf(b)).Refused? then marked.(log := Noted(w.log, id, true, now))
    else Begun(marked, azure, id, VerbOf(b), BySchedule, now)
  }

  /** Every row of a list read once, in its order. */
  function RanAll(w: World, azure: Azure, listed: Scheds, ids: seq<string>, now: int, maxAge: int): World
    requires forall k :: 0 <= k < |ids| ==> ids[k] in listed
    decreases |ids|
  {
    if ids == [] then w
    else
      var n := |ids| - 1;
      RanOne(RanAll(w, azure, listed, ids[..n], now, maxAge), azure, ids[n], listed[ids[n]], now, maxAge)
  }

  /** The boundary a listed row is acted on at an instant: it is switched on, its windows parse, they have a boundary it has not
      seen yet, and no limit is set or the boundary is not older than it. */
  ghost predicate ActsOn(sc: Sched, b: Boundary, now: int, maxAge: int) {
    && sc.enabled && sc.windows != [] && (forall k :: 0 <= k < |sc.windows| ==> ValidWindow(sc.windows[k]))
    && Timeline.Reading(sc.windows, sc.zone, now) == Some(b)
    && (sc.last.Some? ==> sc.last.value < b.at)
    && (maxAge <= 0 || now - b.at <= maxAge)
  }

  /** A new action row is what a schedule of the list asked for: a stop where its windows turn off, a start where they turn
      on. */
  ghost predicate AskedFor(a: Action, listed: Scheds, now: int, maxAge: int) {
    && a.origin == BySchedule && a.status == Pending && a.requestedAt == now && a.resource in listed
    && exists b :: ActsOn(listed[a.resource], b, now, maxAge) && a.verb == if b.off then Stop else Start
  }

  ghost predicate AllAskedFor(rows: ActionRows, rows': ActionRows, listed: Scheds, now: int, maxAge: int) {
    && (forall id :: id in rows ==> id in rows' && rows'[id] == rows[id])
    && forall id :: id in rows' && id !in rows ==> AskedFor(rows'[id], listed, now, maxAge)
  }

  /** What a schedule row remembers after it has been visited. */
  ghost predicate Remembers(was: Sched, sc: Sched, now: int) {
    if b :| ActsOn(was, b, now, 0) then sc == was.(last := Some(b.at), appliedAt := Some(now)) else sc == was
  }

  lemma ChooseActsOn(sc: Sched, now: int, maxAge: int)
    ensures var c := Choose(sc, ReadOf(sc, now), now, maxAge);
            && (c.Apply? ==> ActsOn(sc, c.b, now, maxAge) && ActsOn(sc, c.b, now, 0))
            && (c.TooOld? ==> ActsOn(sc, c.b, now, 0) && maxAge > 0 && now - c.b.at > maxAge)
            && (c.Leave? ==> forall b :: !ActsOn(sc, b, now, 0))
            && (forall b :: ActsOn(sc, b, now, maxAge) ==> c == Apply(b))
  {
  }

  lemma RanOneAsks(w: World, azure: Azure, id: string, sc: Sched, now: int, maxAge: int, listed: Scheds)
    requires id in listed && listed[id] == sc
    ensures AllAskedFor(w.actions, RanOne(w, azure, id, sc, now, maxAge).actions, listed, now, maxAge)
  {
    ChooseActsOn(sc, now, maxAge);
  }

  lemma {:induction false} RanAllAsks(w: World, azure: Azure, listed: Scheds, ids: seq<string>, now: int, maxAge: int)
    requires forall k :: 0 <= k < |ids| ==> ids[k] in listed
    ensures AllAskedFor(w.actions, RanAll(w, azure, listed, ids, now, maxAge).actions, listed, now, maxAge)
    decreases |ids|
  {
    if ids != [] {
      var n := |ids| - 1;
      RanAllAsks(w, azure, listed, ids[..n], now, maxAge);
      RanOneAsks(RanAll(w, azure, listed, ids[..n], now, maxAge), azure, ids[n], listed[ids[n]], now, maxAge, listed);
    }
  }

  /** What a boundary acted on leaves: its resource in use, by the action asked for or one that was running already, or a failure
      in the journal when the resource cannot be acted on. */
  ghost predicate IsAnswered(w: World, resources: map<string, Resource>, id: string) {
    if Actionable(resources, id) then InUse(w.actions, id) else FiringIn(w.log, GuardrailKey(id, "schedule_failed", None))
  }

  ghost predicate AllAnswered(w: World, resources: map<string, Resource>, listed: Scheds, now: int, maxAge: int) {
    forall id, b :: id in listed && ActsOn(listed[id], b, now, maxAge) ==> IsAnswered(w, resources, id)
  }

  lemma RanOneAnswers(w: World, resources: map<string, Resource>, id: string, sc: Sched, now: int, maxAge: int, other: string)
    ensures var after := RanOne(w, Some(resources), id, sc, now, maxAge);
            && (forall b :: ActsOn(sc, b, now, maxAge) ==> IsAnswered(after, resources, id))
            && (IsAnswered(w, resources, other) ==> IsAnswered(after, resources, other))
  {
    ChooseActsOn(sc, now, maxAge);
    var c := Choose(sc, ReadOf(sc, now), now, maxAge);
    if c.Apply? {
      AppliedAnswers(w, resources, id, c.b, now);
      if IsAnswered(w, resources, other) {
        AppliedLeaves(w, resources, id, c.b, now, other);
      }
    }
  }

  lemma AppliedAnswers(w: World, resources: map<string, Resource>, id: string, b: Boundary, now: int)
    ensures IsAnswered(Applied(w, Some(resources), id, b, now), resources, id)
  {
    var after := Applied(w, Some(resources), id, b, now);
    match Launching(w.actions, Some(resources), id, VerbOf(b))
    case Launched(row) =>
      assert after.actions[row].resource == id && after.actions[row].status == Pending;
    case AlreadyRunning =>
    case Refused(_) =>
      NotedSays(w.log, id, true, now);
  }

  lemma AppliedLeaves(w: World, resources: map<string, Resource>, id: string, b: Boundary, now: int, other: string)
    requires IsAnswered(w, resources, other)
    ensures IsAnswered(Applied(w, Some(resources), id, b, now), resources, other)
  {
    var after := Applied(w, Some(resources), id, b, now);
    if Actionable(resources, other) {
      var row :| row in w.actions && w.actions[row].resource == other && w.actions[row].status in {Pending, Running};
      assert row in after.actions && after.actions[row] == w.actions[row];
    } else {
      NotedSays(w.log, id, true, now);
    }
  }

  /** A pass answers every boundary it acts on. */
  lemma {:induction false} RanAllAnswers(w: World, resources: map<string, Resource>, listed: Scheds, ids: seq<string>, now: int,
                                         maxAge: int, id: string, b: Boundary)
    requires forall k :: 0 <= k < |ids| ==> ids[k] in listed
    requires id in ids && ActsOn(listed[id], b, now, maxAge)
    ensures IsAnswered(RanAll(w, Some(resources), listed, ids, now, maxAge), resources, id)
    decreases |ids|
  {
    var n := |ids| - 1;
    RanOneAnswers(RanAll(w, Some(resources), listed, ids[..n], now, maxAge), resources, ids[n], listed[ids[n]], now, maxAge, id);
    if ids[n] != id {
      assert ids == ids[..n] + [ids[n]];
      RanAllAnswers(w, resources, listed, ids[..n], now, maxAge, id, b);
    }
  }

  lemma {:induction false} RanAllRemembers(w: World, azure: Azure, ids: seq<string>, now: int, maxAge: int)
    requires forall k :: 0 <= k < |ids| ==> ids[k] in w.scheds
    ensures var after := RanAll(w, azure, w.scheds, ids, now, maxAge).scheds;
            && after.Keys == w.scheds.Keys
            && forall id :: id in after ==> if id in ids then Remembers(w.scheds[id], after[id], now) else after[id] == w.scheds[id]
    decreases |ids|
  {
    if ids != [] {
      var n := |ids| - 1;
      RanAllRemembers(w, azure, ids[..n], now, maxAge);
      assert ids == ids[..n] + [ids[n]];
      RanOneRemembers(RanAll(w, azure, w.scheds, ids[..n], now, maxAge), azure, ids[n], w.scheds[ids[n]], now, maxAge);
    }
  }

  lemma RanOneRemembers(w: World, azure: Azure, id: string, sc: Sched, now: int, maxAge: int)
    requires id in w.scheds && (w.scheds[id] == sc || Remembers(sc, w.scheds[id], now))
    ensures var after := RanOne(w, azure, id, sc, now, maxAge).scheds;
            && after.Keys == w.scheds.Keys && Remembers(sc, after[id], now)
            && forall k :: k in after && k != id ==> after[k] == w.scheds[k]
  {
    ChooseActsOn(sc, now, maxAge);
  }

  class ScheduleHub {
    const table: ActionTable
    var azureOn: bool
    var resources: map<string, Resource>
    var scheds: Scheds
    var tasks: set<int>
    var log: Log

    constructor ()
      ensures !azureOn && resources == map[] && scheds == map[] && tasks == {} && log == [] && table.rows == map[]
    {
      azureOn, resources, scheds, tasks, log := false, map[], map[], {}, [];
      table := new ActionTable();
    }

    ghost function Seen(): World
      reads this, table
    {
      World(scheds, table.rows, tasks, log)
    }

    ghost predicate Ready()
      reads this
    {
      forall id :: id in scheds ==> Regular(scheds[id].zone)
    }

    method UpsertAzureSchedule(resource: string, windows: seq<Window>, enabled: bool, zone: Zone)
      modifies this`scheds
      ensures scheds == Upserted(old(scheds), resource, windows, enabled, zone)
      ensures scheds.Keys == old(scheds).Keys + {resource} && forall r :: r in old(scheds) && r != resource ==> scheds[r] == old(scheds)[r]
      ensures var (last, applied) := if resource in old(scheds) then (old(scheds)[resource].last, old(scheds)[resource].appliedAt)
                                     else (None, None);
              scheds[resource] == Sched(windows, enabled, zone, last, applied)
    {
      var last: Option<int>, applied: Option<int> := None, None;
      if resource in scheds {
        last, applied := scheds[resource].last, scheds[resource].appliedAt;
      }
      scheds := scheds[resource := Sched(windows, enabled, zone, last, applied)];
    }

    method MarkScheduleBoundary(resource: string, boundary: int, now: int)
      modifies this`scheds
      ensures scheds == Marked(old(scheds), resource, boundary, now)
      ensures resource in old(scheds) ==> resource in scheds && scheds[resource].last == Some(boundary)
    {
      if resource in scheds {
        scheds := scheds[resource := scheds[resource].(last := Some(boundary), appliedAt := Some(now))];
      }
    }

    function Reachable(): Azure
      reads this
    {
      if azureOn then Some(resources) else None
    }

    method StartActionFrom(resource: string, verb: Verb, origin: Origin, now: int) returns (r: Launch)
      modifies this`tasks, table
      ensures r == Launching(old(table.rows), Reachable(), resource, verb)
      ensures Seen() == Begun(old(Seen()), Reachable(), resource, verb, origin, now)
      ensures r.Launched? <==> azureOn && Actionable(resources, resource) && !InUse(old(table.rows), resource)
      ensures r == AlreadyRunning <==> azureOn && Actionable(resources, resource) && InUse(old(table.rows), resource)
      ensures r.Launched? ==>
                && r.id !in old(table.rows) && tasks == old(tasks) + {r.id}
                && table.rows == old(table.rows)[r.id := Action(resource, verb, origin, Pending, "", resources[resource].state, None,
                                                                now, None)]
      ensures !r.Launched? ==> table.rows == old(table.rows) && tasks == old(tasks)
    {
      if !azureOn {
        return Refused(AzureOff);
      }
      if resource !in resources || resources[resource].deleted {
        return Refused(NotListed);
      }
      if !Supports(resources[resource].kind, verb) {
        return Refused(NotActionable);
      }
      var id := table.StartAzureAction(resource, verb, origin, resources[resource].state, now);
      if id.None? {
        return AlreadyRunning;
      }
      tasks := tasks + {id.value};
      return Launched(id.value);
    }

    method JournalScheduleFailure(resource: string, now: int)
      modifies this`log
      ensures log == Noted(old(log), resource, true, now)
      ensures FiringIn(log, GuardrailKey(resource, "schedule_failed", None)) && |log| <= |old(log)| + 1 && old(log) <= log
      ensures AllAlternate(old(log)) ==> AllAlternate(log)
    {
      NotedSays(log, resource, true, now);
      if FiringIn(log, FailureKey(resource)) {
        return;
      }
      log := log + [Entry(FailureKey(resource), Fired, 0.0, now)];
    }

    method JournalScheduleResolved(resource: string, now: int)
      modifies this`log
      ensures log == Noted(old(log), resource, false, now)
      ensures !FiringIn(log, GuardrailKey(resource, "schedule_failed", None)) && |log| <= |old(log)| + 1 && old(log) <= log
      ensures AllAlternate(old(log)) ==> AllAlternate(log)
    {
      NotedSays(log, resource, false, now);
      if !FiringIn(log, FailureKey(resource)) {
        return;
      }
      log := log + [Entry(FailureKey(resource), Resolved, 0.0, now)];
    }

    /** The boundary one schedule sees, None for every reason to leave it alone. */
    method ReadSchedule(sc: Sched, now: int) returns (r: Option<Boundary>)
      requires Regular(sc.zone)
      ensures r == ReadOf(sc, now)
    {
      if !sc.enabled {
        return None;
      }
      var ws := ParseWindows(sc.windows);
      if ws.Err? || |ws.value| == 0 {
        return None;
      }
      SameWindowsSameView(sc.windows, ws.value, sc.zone, LocalDay(sc.zone, now));
      var best, off, ok := LastBoundary(ws.value, sc.zone, now);
      return if ok then Some(Boundary(best, off)) else None;
    }

    /** Mark, then act. */
    method ApplyBoundary(id: string, b: Boundary, now: int)
      modifies this`scheds, this`tasks, this`log, table
      ensures Seen() == Applied(old(Seen()), Reachable(), id, b, now)
      ensures if azureOn && Actionable(resources, id) then log == old(log)
              else FiringIn(log, GuardrailKey(id, "schedule_failed", None)) && table.rows == old(table.rows)
    {
      MarkScheduleBoundary(id, b.at, now);
      var launch := StartActionFrom(id, VerbOf(b), BySchedule, now);
      if launch.Refused? {
        JournalScheduleFailure(id, now);
      }
    }

    /** One row of the list. */
    method RunSchedule(id: string, sc: Sched, now: int, maxAge: int)
      requires Regular(sc.zone)
      modifies this`scheds, this`tasks, this`log, table
      ensures Seen() == RanOne(old(Seen()), Reachable(), id, sc, now, maxAge)
    {
      var r := ReadSchedule(sc, now);
      if r.None? || (sc.last.Some? && r.value.at <= sc.last.value) {
        return;
      }
      if maxAge > 0 && now - r.value.at > maxAge {
        MarkScheduleBoundary(id, r.value.at, now);
        return;
      }
      ApplyBoundary(id, r.value, now);
    }

    /** Every schedule of one list, in the order the table gives: each boundary it has not seen yet, at most once. */
    method RunSchedules(ids: seq<string>, now: int, maxAge: int)
      requires Ready() && forall id :: id in ids <==> id in scheds
      modifies this`scheds, this`tasks, this`log, table
      ensures Seen() == if azureOn then RanAll(old(Seen()), Reachable(), old(scheds), ids, now, maxAge) else old(Seen())
      ensures AllAskedFor(old(table.rows), table.rows, old(scheds), now, maxAge)
      ensures scheds.Keys == old(scheds).Keys
      ensures azureOn ==> forall id :: id in scheds ==> Remembers(old(scheds)[id], scheds[id], now)
      ensures azureOn ==> AllAnswered(Seen(), resources, old(scheds), now, maxAge)
    {
      if !azureOn {
        return;
      }
      RanAllAsks(Seen(), Reachable(), scheds, ids, now, maxAge);
      RanAllRemembers(Seen(), Reachable(), ids, now, maxAge);
      var listed := scheds;
      for i := 0 to |ids|
        invariant Seen() == RanAll(old(Seen()), Reachable(), listed, ids[..i], now, maxAge)
      {
        assert ids[..i + 1][..i] == ids[..i];
        RunSchedule(ids[i], listed[ids[i]], now, maxAge);
      }
      assert ids[..|ids|] == ids;
      forall id, b | id in listed && ActsOn(listed[id], b, now, maxAge)
        ensures IsAnswered(Seen(), resources, id)
      {
        RanAllAnswers(old(Seen()), resources, listed, ids, now, maxAge, id, b);
      }
    }

    /** The minute tick: no boundary is too old. */
    method ApplySchedules(ids: seq<string>, now: int)
      requires Ready() && forall id :: id in ids <==> id in scheds
      modifies this`scheds, this`tasks, this`log, table
      ensures AllAskedFor(old(table.rows), table.rows, old(scheds), now, 0)
      ensures azureOn ==> AllAnswered(Seen(), resources, old(scheds), now, 0)
      ensures azureOn ==> forall id :: id in scheds ==> id in old(scheds) && Remembers(old(scheds)[id], scheds[id], now)
    {
      RunSchedules(ids, now, 0);
    }

    /** At boot: a boundary missed by more than twelve hours is marked, and not acted on. */
    method CatchUpSchedules(ids: seq<string>, now: int)
      requires Ready() && forall id :: id in ids <==> id in scheds
      modifies this`scheds, this`tasks, this`log, table
      ensures AllAskedFor(old(table.rows), table.rows, old(scheds), now, 43_200_000_000_000)
      ensures azureOn ==> AllAnswered(Seen(), resources, old(scheds), now, 43_200_000_000_000)
      ensures azureOn ==> forall id :: id in scheds ==> id in old(scheds) && Remembers(old(scheds)[id], scheds[id], now)
    {
      RunSchedules(ids, now, CATCH_UP);
    }

    /** The request of an action, repeated only while it is turned away unread. */
    method SendAction(attempts: nat, tries: nat -> Try, slept: nat -> bool) returns (last: Try)
      requires attempts > 0
      ensures last == tries(LastTry(tries, slept, RetryThrottlingOnly, attempts, 1))
    {
      ghost var waits;
      last, waits := DoResponse(attempts, tries, slept, RetryThrottlingOnly);
    }

    /** How a scheduled action ended, said once until it ends the other way. */
    method JournalOutcome(a: Action, ok: bool, now: int)
      modifies this`log
      ensures log == if a.origin == BySchedule then Noted(old(log), a.resource, !ok, now) else old(log)
      ensures a.origin == BySchedule ==> (FiringIn(log, GuardrailKey(a.resource, "schedule_failed", None)) <==> !ok)
      ensures AllAlternate(old(log)) ==> AllAlternate(log)
    {
      if a.origin == BySchedule {
        if ok {
          JournalScheduleResolved(a.resource, now);
        } else {
          JournalScheduleFailure(a.resource, now);
        }
      }
    }

    /** One call, from its row to its outcome. `settled` is how the operation Azure accepted ended, `failure` the text of the
        error when there is one, and `state` what was read back afterwards, None when nothing was. */
    method RunAction(id: int, attempts: nat, tries: nat -> Try, slept: nat -> bool, settled: bool, failure: string,
                     state: Option<string>, now: int)
      requires attempts > 0 && id in table.rows && id in tasks
      modifies this`tasks, this`log, this`resources, table
      ensures var last := tries(LastTry(tries, slept, RetryThrottlingOnly, attempts, 1));
              var a := old(table.rows)[id];
              var ok := Accepted(last) && settled;
              && table.rows == Finished(Ran(old(table.rows), id), id, if ok then Succeeded else Failed,
                                        if ok then "" else failure, if ok then state else None, now)
              && tasks == old(tasks) - {id}
              && log == (if a.origin == BySchedule then Noted(old(log), a.resource, !ok, now) else old(log))
              && resources == (if ok && state.Some? && a.resource in old(resources)
                               then old(resources)[a.resource := old(resources)[a.resource].(state := state)] else old(resources))
      ensures var last := tries(LastTry(tries, slept, RetryThrottlingOnly, attempts, 1));
              && id in table.rows && table.rows[id].finishedAt == Some(now)
              && (table.rows[id].status == Succeeded <==> last.Answered? && 200 <= last.status < 300 && settled)
              && (table.rows[id].status == Failed <==> table.rows[id].status != Succeeded)
      ensures var a := old(table.rows)[id];
              a.origin == BySchedule ==>
                (FiringIn(log, GuardrailKey(a.resource, "schedule_failed", None)) <==> table.rows[id].status == Failed)
    {
      var a := table.rows[id];
      table.MarkAzureActionRunning(id);
      var last := SendAction(attempts, tries, slept);
      var ok := Accepted(last) && settled;
      if !ok {
        table.FinishAzureAction(id, Failed, failure, None, now);
      } else {
        if state.Some? && a.resource in resources {
          resources := resources[a.resource := resources[a.resource].(state := state)];
        }
        table.FinishAzureAction(id, Succeeded, "", state, now);
      }
      JournalOutcome(a, ok, now);
      tasks := tasks - {id};
    }
  }
}
