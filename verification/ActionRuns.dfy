/**
 Schedules and actions over whole runs: ticks, catch-ups, edits, people acting by hand, and crashes between any two steps.
 The boundary is marked before the action is issued, and what was in flight at a crash is closed, not repeated: a crash may
 lose an action and never doubles one.
 */
module ActionRuns {
  import opened Schedule
  import opened Actions
  import opened Options

  /** A call under way: the attempt it is about to make, or none any more. */
  datatype Sending = Asking(attempt: nat) | Over

  /** A boundary the hub decided to act on: which schedule row's life it belongs to, when, and under which age limit. */
  datatype Acted = Acted(life: nat, resource: string, boundary: Boundary, at: int, maxAge: int)

  /** Marked, and not yet issued. */
  datatype Intent = Intent(index: nat, resource: string, verb: Verb)

  /** A schedule row as a pass's list has it, and the life it then belonged to. */
  datatype Listed = Listed(sched: Sched, life: nat)

  /** Lives number schedule rows from insert to delete; `listed` is what the pass under way has still to visit. `acted`,
      `causes` and `sends` are what an observer writes down: the decisions, the decision behind each action row, and the
      requests per action row that may have acted. */
  datatype Fleet = Fleet(
    scheds: Scheds,
    lives: map<string, nat>,
    nextLife: nat,
    listed: map<string, Listed>,
    actions: ActionRows,
    tasks: map<int, Sending>,
    intent: Option<Intent>,
    acted: seq<Acted>,
    causes: map<int, nat>,
    sends: map<int, nat>
  )

  // ---------- steps ----------

  ghost predicate Edit(h: Fleet, h': Fleet, resource: string, sc: Sched) {
    var known := resource in h.scheds;
    h' == h.(scheds := Upserted(h.scheds, resource, sc.windows, sc.enabled, sc.zone),
             lives := if known then h.lives else h.lives[resource := h.nextLife],
             nextLife := if known then h.nextLife else h.nextLife + 1)
  }

  ghost predicate Delete(h: Fleet, h': Fleet, resource: string) {
    h' == h.(scheds := h.scheds - {resource}, lives := h.lives - {resource})
  }

  /** runSchedules reads the table once; what people then change does not reach the rows it has read. */
  ghost predicate List(h: Fleet, h': Fleet) {
    && h.listed == map[] && h.intent.None?
    && h' == h.(listed := map r | r in h.scheds && r in h.lives :: Listed(h.scheds[r], h.lives[r]))
  }

  /** runSchedules on one row of its list, up to the mark; the loop has finished with the row before. */
  ghost predicate Decide(h: Fleet, h': Fleet, resource: string, now: int, maxAge: int) {
    && resource in h.listed && h.intent.None?
    && var (sc, life) := (h.listed[resource].sched, h.listed[resource].life);
       var left := h.listed - {resource};
       match Choose(sc, ReadOf(sc, now), now, maxAge)
       case Leave => h' == h.(listed := left)
       case TooOld(b) => h' == h.(listed := left, scheds := Marked(h.scheds, resource, b.at, now))
       case Apply(b) =>
         h' == h.(listed := left, scheds := Marked(h.scheds, resource, b.at, now),
                  intent := Some(Intent(|h.acted|, resource, VerbOf(b))),
                  acted := h.acted + [Acted(life, resource, b, now, maxAge)])
  }

  /** StartActionFrom for the marked boundary: a row and a call, or nothing. */
  ghost predicate Issue(h: Fleet, h': Fleet, azure: Azure, now: int) {
    && h.intent.Some?
    && var i := h.intent.value;
       match Launching(h.actions, azure, i.resource, i.verb)
       case Launched(id) =>
         h' == h.(actions := h.actions[id := NewAction(i.resource, i.verb, BySchedule, azure.value[i.resource].state, now)],
                  tasks := h.tasks[id := Asking(1)], sends := h.sends[id := 0], causes := h.causes[id := i.index], intent := None)
       case _ => h' == h.(intent := None)
  }

  ghost predicate ByHand(h: Fleet, h': Fleet, azure: Azure, resource: string, verb: Verb, now: int) {
    match Launching(h.actions, azure, resource, verb)
    case Launched(id) =>
      h' == h.(actions := h.actions[id := NewAction(resource, verb, ByUser, azure.value[resource].state, now)],
               tasks := h.tasks[id := Asking(1)], sends := h.sends[id := 0])
    case _ => h' == h
  }

  ghost predicate MarkRunning(h: Fleet, h': Fleet, id: int) {
    id in h.tasks && h' == h.(actions := Ran(h.actions, id))
  }

  /** One turn of doResponse under the action policy. */
  ghost predicate Attempt(h: Fleet, h': Fleet, id: int, t: Try, slept: bool, attempts: nat) {
    && id in h.tasks && h.tasks[id].Asking? && id in h.sends
    && var k := h.tasks[id].attempt;
       var more := !Accepted(t) && RetryThrottlingOnly(t) && k < attempts && slept;
       h' == h.(tasks := h.tasks[id := if more then Asking(k + 1) else Over],
                sends := h.sends[id := h.sends[id] + if MayHaveActed(t) then 1 else 0])
  }

  ghost predicate Close(h: Fleet, h': Fleet, id: int, status: Status, error: string, after: Option<string>, now: int) {
    && id in h.tasks && h.tasks[id].Over? && (status == Succeeded || status == Failed)
    && h' == h.(actions := Finished(h.actions, id, status, error, after, now), tasks := h.tasks - {id})
  }

  /** The hub dies and comes back: the pass, calls and intents are gone, and what was in flight is closed as interrupted. */
  ghost predicate Crash(h: Fleet, h': Fleet, now: int) {
    h' == h.(actions := InterruptedAll(h.actions, now), listed := map[], tasks := map[], intent := None)
  }

  datatype Step =
    | Editing(resource: string, sc: Sched)
    | Deleting(resource: string)
    | Listing
    | Deciding(resource: string, now: int, maxAge: int)
    | Issuing(azure: Azure, now: int)
    | Acting(azure: Azure, resource: string, verb: Verb, now: int)
    | Starting(id: int)
    | Trying(id: int, t: Try, slept: bool, attempts: nat)
    | Closing(id: int, status: Status, error: string, after: Option<string>, now: int)
    | Crashing(now: int)

  ghost predicate Does(h: Fleet, step: Step, h': Fleet) {
    match step
    case Editing(resource, sc) => Edit(h, h', resource, sc)
    case Deleting(resource) => Delete(h, h', resource)
    case Listing => List(h, h')
    case Deciding(resource, now, maxAge) => Decide(h, h', resource, now, maxAge)
    case Issuing(azure, now) => Issue(h, h', azure, now)
    case Acting(azure, resource, verb, now) => ByHand(h, h', azure, resource, verb, now)
    case Starting(id) => MarkRunning(h, h', id)
    case Trying(id, t, slept, attempts) => Attempt(h, h', id, t, slept, attempts)
    case Closing(id, status, error, after, now) => Close(h, h', id, status, error, after, now)
    case Crashing(now) => Crash(h, h', now)
  }

  ghost predicate Next(h: Fleet, h': Fleet) {
    exists step :: Does(h, step, h')
  }

  ghost predicate Init(h: Fleet) {
    h == Fleet(map[], map[], 0, map[], map[], map[], None, [], map[], map[])
  }

  ghost predicate IsRun(run: seq<Fleet>) {
    && run != [] && Init(run[0])
    && forall k :: 0 <= k < |run| - 1 ==> StepAt(run, k)
  }

  ghost predicate StepAt(run: seq<Fleet>, k: int)
    requires 0 <= k < |run| - 1
  {
    Next(run[k], run[k + 1])
  }

  // ---------- what every step keeps ----------

  /** Calls only run for rows in flight, and a call that may still ask has not asked anything that could have acted. */
  predicate CallsKept(h: Fleet) {
    && OneInFlight(h.actions)
    && h.sends.Keys == h.actions.Keys
    && (forall id :: id in h.tasks ==> id in h.actions && InFlight(h.actions[id]))
    && forall id :: id in h.actions ==> h.sends[id] <= (if id in h.tasks && h.tasks[id].Asking? then 0 else 1)
  }

  predicate SeenBy(h: Fleet, resource: string, i: int)
    requires resource in h.scheds && resource in h.lives && 0 <= i < |h.acted|
  {
    h.acted[i].life == h.lives[resource] ==>
      h.acted[i].resource == resource && h.scheds[resource].last.Some? && h.acted[i].boundary.at <= h.scheds[resource].last.value
  }

  /** Each life's decisions are on later and later boundaries, none later than the row's last_boundary. */
  predicate LivesKept(h: Fleet) {
    && h.lives.Keys == h.scheds.Keys
    && (forall a :: a in h.lives ==> h.lives[a] < h.nextLife)
    && (forall a, b :: a in h.lives && b in h.lives && h.lives[a] == h.lives[b] ==> a == b)
    && (forall i :: 0 <= i < |h.acted| ==> h.acted[i].life < h.nextLife)
    && (forall a, i :: a in h.scheds && 0 <= i < |h.acted| ==> SeenBy(h, a, i))
    && forall i, j :: 0 <= i < j < |h.acted| && h.acted[i].life == h.acted[j].life ==> h.acted[i].boundary.at < h.acted[j].boundary.at
  }

  predicate ListSaw(h: Fleet, resource: string, i: int)
    requires resource in h.listed && 0 <= i < |h.acted|
  {
    var l := h.listed[resource];
    h.acted[i].life == l.life ==> h.acted[i].resource == resource && l.sched.last.Some? && h.acted[i].boundary.at <= l.sched.last.value
  }

  /** A listed row is the table's, its last_boundary included, as long as its life lasts; the life after it has acted on
      nothing yet. */
  predicate ListedAsIs(h: Fleet, resource: string)
    requires resource in h.listed && resource in h.scheds && resource in h.lives
  {
    if h.lives[resource] == h.listed[resource].life then h.scheds[resource].last == h.listed[resource].sched.last
    else forall i :: 0 <= i < |h.acted| ==> h.acted[i].life != h.lives[resource]
  }

  predicate ListKept(h: Fleet) {
    && (forall a :: a in h.listed ==> h.listed[a].life < h.nextLife)
    && (forall a, b :: a in h.listed && b in h.listed && h.listed[a].life == h.listed[b].life ==> a == b)
    && (forall a, b :: a in h.listed && b in h.lives && h.listed[a].life == h.lives[b] ==> a == b)
    && (forall a, i :: a in h.listed && 0 <= i < |h.acted| ==> ListSaw(h, a, i))
    && forall a :: a in h.listed && a in h.scheds && a in h.lives ==> ListedAsIs(h, a)
  }

  /** Each decision is behind at most one action row, which does what the boundary asks. */
  predicate CausesKept(h: Fleet) {
    && (forall id :: id in h.causes ==> id in h.actions && h.causes[id] < |h.acted| && Answers(h.actions[id], h.acted[h.causes[id]]))
    && (forall i, j :: i in h.causes && j in h.causes && h.causes[i] == h.causes[j] ==> i == j)
    && (h.intent.Some? ==>
          && h.intent.value.index < |h.acted|
          && IntentOf(h.intent.value, h.acted[h.intent.value.index])
          && forall id :: id in h.causes ==> h.causes[id] != h.intent.value.index)
  }

  predicate Answers(a: Action, d: Acted) {
    a.origin == BySchedule && a.resource == d.resource && a.verb == if d.boundary.off then Stop else Start
  }

  predicate IntentOf(i: Intent, d: Acted) {
    i.resource == d.resource && i.verb == if d.boundary.off then Stop else Start
  }

  /** No boundary is acted on early, and none through catch-up once it is older than the limit. */
  predicate InTime(d: Acted) {
    d.boundary.at <= d.at && (d.maxAge > 0 ==> d.at - d.boundary.at <= d.maxAge)
  }

  predicate Inv(h: Fleet) {
    CallsKept(h) && LivesKept(h) && ListKept(h) && CausesKept(h) && AllInTime(h)
  }

  predicate AllInTime(h: Fleet) {
    forall i :: 0 <= i < |h.acted| ==> InTime(h.acted[i])
  }

  /** A row that is closed stays as it is, and nothing more is sent for it; decisions are only added. */
  predicate Settles(h: Fleet, h': Fleet) {
    && (forall id :: id in h.actions ==> id in h'.actions && id in h.sends && id in h'.sends)
    && (forall id :: id in h.actions && !InFlight(h.actions[id]) ==> h'.actions[id] == h.actions[id] && h'.sends[id] == h.sends[id])
    && h.acted <= h'.acted
    && forall id :: id in h.causes ==> id in h'.causes && h'.causes[id] == h.causes[id]
  }

  lemma EditKeeps(h: Fleet, h': Fleet, resource: string, sc: Sched)
    requires Inv(h) && Edit(h, h', resource, sc)
    ensures Inv(h') && Settles(h, h')
  {
    SameRowsSettle(h, h');
    SameDecisions(h, h');
    EditKeepsLives(h, h', resource, sc);
    EditKeepsList(h, h', resource, sc);
  }

  lemma EditKeepsLives(h: Fleet, h': Fleet, resource: string, sc: Sched)
    requires LivesKept(h) && Edit(h, h', resource, sc)
    ensures LivesKept(h')
  {
    forall a, i | a in h'.scheds && 0 <= i < |h'.acted|
      ensures SeenBy(h', a, i)
    {
      assert a in h.scheds ==> SeenBy(h, a, i);
    }
  }

  lemma EditKeepsList(h: Fleet, h': Fleet, resource: string, sc: Sched)
    requires LivesKept(h) && ListKept(h) && Edit(h, h', resource, sc)
    ensures ListKept(h')
  {
    forall a, i | a in h'.listed && 0 <= i < |h'.acted|
      ensures ListSaw(h', a, i)
    {
      assert ListSaw(h, a, i);
    }
    forall a | a in h'.listed && a in h'.scheds && a in h'.lives
      ensures ListedAsIs(h', a)
    {
      assert a in h.scheds ==> ListedAsIs(h, a);
    }
  }

  lemma DeleteKeeps(h: Fleet, h': Fleet, resource: string)
    requires Inv(h) && Delete(h, h', resource)
    ensures Inv(h') && Settles(h, h')
  {
    SameRowsSettle(h, h');
    SameDecisions(h, h');
    forall a, i | a in h'.scheds && 0 <= i < |h'.acted|
      ensures SeenBy(h', a, i)
    {
      assert SeenBy(h, a, i);
    }
    forall a, i | a in h'.listed && 0 <= i < |h'.acted|
      ensures ListSaw(h', a, i)
    {
      assert ListSaw(h, a, i);
    }
    forall a | a in h'.listed && a in h'.scheds && a in h'.lives
      ensures ListedAsIs(h', a)
    {
      assert ListedAsIs(h, a);
    }
  }

  lemma ListKeeps(h: Fleet, h': Fleet)
    requires Inv(h) && List(h, h')
    ensures Inv(h') && Settles(h, h')
  {
    SameRowsSettle(h, h');
    SameDecisions(h, h');
    SameLives(h, h');
    forall a, i | a in h'.listed && 0 <= i < |h'.acted|
      ensures ListSaw(h', a, i)
    {
      assert SeenBy(h, a, i);
    }
  }

  /** Marking a boundary later than the listed row's last one, and writing the decision down or not. */
  ghost predicate MarksListed(h: Fleet, h': Fleet, resource: string, b: Boundary, now: int, maxAge: int) {
    && resource in h.listed
    && (h.listed[resource].sched.last.None? || h.listed[resource].sched.last.value < b.at)
    && h'.scheds == Marked(h.scheds, resource, b.at, now) && h'.lives == h.lives && h'.nextLife == h.nextLife
    && h'.listed == h.listed - {resource}
    && (h'.acted == h.acted || h'.acted == h.acted + [Acted(h.listed[resource].life, resource, b, now, maxAge)])
  }

  lemma MarkKeepsLives(h: Fleet, h': Fleet, resource: string, b: Boundary, now: int, maxAge: int)
    requires LivesKept(h) && ListKept(h) && MarksListed(h, h', resource, b, now, maxAge)
    ensures LivesKept(h')
  {
    forall a, i | a in h'.scheds && 0 <= i < |h'.acted|
      ensures SeenBy(h', a, i)
    {
      MarkIsSeen(h, h', resource, b, now, maxAge, a, i);
    }
    forall i, j | 0 <= i < j < |h'.acted| && h'.acted[i].life == h'.acted[j].life
      ensures h'.acted[i].boundary.at < h'.acted[j].boundary.at
    {
      assert ListSaw(h, resource, i);
    }
  }

  lemma MarkIsSeen(h: Fleet, h': Fleet, resource: string, b: Boundary, now: int, maxAge: int, a: string, i: int)
    requires LivesKept(h) && ListKept(h) && MarksListed(h, h', resource, b, now, maxAge)
    requires a in h'.scheds && 0 <= i < |h'.acted|
    ensures SeenBy(h', a, i)
  {
    if i < |h.acted| {
      assert SeenBy(h, a, i);
      assert ListSaw(h, resource, i);
    }
    if a == resource {
      assert ListedAsIs(h, a);
    }
  }

  lemma MarkKeepsList(h: Fleet, h': Fleet, resource: string, b: Boundary, now: int, maxAge: int)
    requires LivesKept(h) && ListKept(h) && MarksListed(h, h', resource, b, now, maxAge)
    ensures ListKept(h')
  {
    forall a, i | a in h'.listed && 0 <= i < |h'.acted|
      ensures ListSaw(h', a, i)
    {
      assert i < |h.acted| ==> ListSaw(h, a, i);
    }
    forall a | a in h'.listed && a in h'.scheds && a in h'.lives
      ensures ListedAsIs(h', a)
    {
      MarkLeavesListed(h, h', resource, b, now, maxAge, a);
    }
  }

  lemma MarkLeavesListed(h: Fleet, h': Fleet, resource: string, b: Boundary, now: int, maxAge: int, a: string)
    requires ListKept(h) && MarksListed(h, h', resource, b, now, maxAge)
    requires a in h'.listed && a in h'.scheds && a in h'.lives
    ensures ListedAsIs(h', a)
  {
    assert ListedAsIs(h, a);
  }

  lemma LeaveKeepsList(h: Fleet, h': Fleet, resource: string)
    requires ListKept(h) && h' == h.(listed := h.listed - {resource})
    ensures ListKept(h')
  {
    forall a, i | a in h'.listed && 0 <= i < |h'.acted|
      ensures ListSaw(h', a, i)
    {
      assert ListSaw(h, a, i);
    }
    forall a | a in h'.listed && a in h'.scheds && a in h'.lives
      ensures ListedAsIs(h', a)
    {
      assert ListedAsIs(h, a);
    }
  }

  lemma DecisionKeepsCauses(h: Fleet, h': Fleet, d: Acted)
    requires CausesKept(h) && h'.acted == h.acted + [d] && h'.causes == h.causes && h'.actions == h.actions
    requires h'.intent == Some(Intent(|h.acted|, d.resource, VerbOf(d.boundary)))
    ensures CausesKept(h')
  {
  }

  lemma SameRowsSettle(h: Fleet, h': Fleet)
    requires CallsKept(h) && h'.actions == h.actions && h'.tasks == h.tasks && h'.sends == h.sends && h'.causes == h.causes
    requires h.acted <= h'.acted
    ensures CallsKept(h') && Settles(h, h')
  {
  }

  lemma SameDecisions(h: Fleet, h': Fleet)
    requires CausesKept(h) && AllInTime(h) && h'.actions == h.actions && h'.causes == h.causes
    requires h'.acted == h.acted && h'.intent == h.intent
    ensures CausesKept(h') && AllInTime(h')
  {
  }

  lemma DecideKeeps(h: Fleet, h': Fleet, resource: string, now: int, maxAge: int)
    requires Inv(h) && Decide(h, h', resource, now, maxAge)
    ensures Inv(h') && Settles(h, h')
  {
    SameRowsSettle(h, h');
    var l := h.listed[resource];
    match Choose(l.sched, ReadOf(l.sched, now), now, maxAge)
    case Leave =>
      LeaveKeepsList(h, h', resource);
      SameLives(h, h');
      SameDecisions(h, h');
    case TooOld(b) =>
      MarkKeepsLives(h, h', resource, b, now, maxAge);
      MarkKeepsList(h, h', resource, b, now, maxAge);
      SameDecisions(h, h');
    case Apply(b) =>
      MarkKeepsLives(h, h', resource, b, now, maxAge);
      MarkKeepsList(h, h', resource, b, now, maxAge);
      DecisionKeepsCauses(h, h', Acted(l.life, resource, b, now, maxAge));
      DecisionInTime(h, h', Acted(l.life, resource, b, now, maxAge));
  }

  lemma DecisionInTime(h: Fleet, h': Fleet, d: Acted)
    requires AllInTime(h) && InTime(d) && h'.acted == h.acted + [d]
    ensures AllInTime(h')
  {
  }

  lemma LaunchKeepsCalls(h: Fleet, h': Fleet, azure: Azure, resource: string, verb: Verb, origin: Origin, now: int)
    requires CallsKept(h) && Launching(h.actions, azure, resource, verb).Launched?
    requires var id := Launching(h.actions, azure, resource, verb).id;
             && h'.actions == h.actions[id := NewAction(resource, verb, origin, azure.value[resource].state, now)]
             && h'.tasks == h.tasks[id := Asking(1)] && h'.sends == h.sends[id := 0]
    ensures CallsKept(h')
  {
  }

  lemma LaunchKeepsCauses(h: Fleet, h': Fleet, azure: Azure, now: int)
    requires CausesKept(h) && h.intent.Some?
    requires Launching(h.actions, azure, h.intent.value.resource, h.intent.value.verb).Launched?
    requires var i := h.intent.value;
             var id := Launching(h.actions, azure, i.resource, i.verb).id;
             && h'.actions == h.actions[id := NewAction(i.resource, i.verb, BySchedule, azure.value[i.resource].state, now)]
             && h'.causes == h.causes[id := i.index] && h'.intent.None? && h'.acted == h.acted
    ensures CausesKept(h')
  {
  }

  /** Issuing, hand actions, calls and their ends touch neither schedule rows nor decisions. */
  lemma CallsLeave(h: Fleet, step: Step, h': Fleet)
    requires Does(h, step, h')
    requires step.Issuing? || step.Acting? || step.Starting? || step.Trying? || step.Closing?
    ensures h'.lives == h.lives && h'.scheds == h.scheds && h'.acted == h.acted && h'.nextLife == h.nextLife && h'.listed == h.listed
  {
  }

  lemma CallsKeep(h: Fleet, step: Step, h': Fleet)
    requires Inv(h) && Does(h, step, h')
    requires step.Issuing? || step.Acting? || step.Starting? || step.Trying? || step.Closing?
    ensures Inv(h') && Settles(h, h')
  {
    CallsLeave(h, step, h');
    SameLives(h, h');
    AllInTimeStill(h, h');
    CallsKeepRows(h, step, h');
  }

  lemma CallsKeepRows(h: Fleet, step: Step, h': Fleet)
    requires CallsKept(h) && CausesKept(h) && Does(h, step, h')
    requires step.Issuing? || step.Acting? || step.Starting? || step.Trying? || step.Closing?
    ensures CallsKept(h') && CausesKept(h') && Settles(h, h')
  {
    match step
    case Issuing(azure, now) => IssueKeepsRows(h, h', azure, now);
    case Acting(azure, resource, verb, now) => ByHandKeepsRows(h, h', azure, resource, verb, now);
    case Starting(id) => MarkRunningKeepsRows(h, h', id);
    case Trying(id, t, slept, attempts) => AttemptKeepsRows(h, h', id, t, slept, attempts);
    case Closing(id, status, error, after, now) => CloseKeepsRows(h, h', id, status, error, after, now);
  }

  lemma IssueKeepsRows(h: Fleet, h': Fleet, azure: Azure, now: int)
    requires CallsKept(h) && CausesKept(h) && Issue(h, h', azure, now)
    ensures CallsKept(h') && CausesKept(h') && Settles(h, h')
  {
    var i := h.intent.value;
    if Launching(h.actions, azure, i.resource, i.verb).Launched? {
      LaunchKeepsCalls(h, h', azure, i.resource, i.verb, BySchedule, now);
      LaunchKeepsCauses(h, h', azure, now);
      LaunchSettles(h, h', azure, i.resource, i.verb);
    } else {
      SameRowsSettle(h, h');
    }
  }

  lemma AllInTimeStill(h: Fleet, h': Fleet)
    requires AllInTime(h) && h'.acted == h.acted
    ensures AllInTime(h')
  {
  }

  lemma LaunchSettles(h: Fleet, h': Fleet, azure: Azure, resource: string, verb: Verb)
    requires CallsKept(h) && CausesKept(h) && Launching(h.actions, azure, resource, verb).Launched?
    requires var id := Launching(h.actions, azure, resource, verb).id;
             && (forall k :: k in h.actions ==> k in h'.actions && h'.actions[k] == h.actions[k])
             && h'.sends == h.sends[id := 0] && h'.acted == h.acted
             && forall k :: k in h.causes ==> k in h'.causes && h'.causes[k] == h.causes[k]
    ensures Settles(h, h')
  {
  }

  lemma ByHandKeepsRows(h: Fleet, h': Fleet, azure: Azure, resource: string, verb: Verb, now: int)
    requires CallsKept(h) && CausesKept(h) && ByHand(h, h', azure, resource, verb, now)
    ensures CallsKept(h') && CausesKept(h') && Settles(h, h')
  {
    if Launching(h.actions, azure, resource, verb).Launched? {
      LaunchKeepsCalls(h, h', azure, resource, verb, ByUser, now);
      LaunchSettles(h, h', azure, resource, verb);
    }
  }

  lemma SameLives(h: Fleet, h': Fleet)
    requires LivesKept(h) && h'.lives == h.lives && h'.scheds == h.scheds && h'.acted == h.acted && h'.nextLife == h.nextLife
    ensures LivesKept(h')
    ensures ListKept(h) && h'.listed == h.listed ==> ListKept(h')
  {
    forall a, i | a in h'.scheds && 0 <= i < |h'.acted|
      ensures SeenBy(h', a, i)
    {
      assert SeenBy(h, a, i);
    }
    if ListKept(h) && h'.listed == h.listed {
      SameList(h, h');
    }
  }

  lemma SameList(h: Fleet, h': Fleet)
    requires ListKept(h) && h'.listed == h.listed
    requires h'.lives == h.lives && h'.scheds == h.scheds && h'.acted == h.acted && h'.nextLife == h.nextLife
    ensures ListKept(h')
  {
    forall a, i | a in h'.listed && 0 <= i < |h'.acted|
      ensures ListSaw(h', a, i)
    {
      assert ListSaw(h, a, i);
    }
    forall a | a in h'.listed && a in h'.scheds && a in h'.lives
      ensures ListedAsIs(h', a)
    {
      assert ListedAsIs(h, a);
    }
  }

  lemma MarkRunningKeepsRows(h: Fleet, h': Fleet, id: int)
    requires CallsKept(h) && CausesKept(h) && MarkRunning(h, h', id)
    ensures CallsKept(h') && CausesKept(h') && Settles(h, h')
  {
  }

  lemma AttemptKeepsRows(h: Fleet, h': Fleet, id: int, t: Try, slept: bool, attempts: nat)
    requires CallsKept(h) && CausesKept(h) && Attempt(h, h', id, t, slept, attempts)
    ensures CallsKept(h') && CausesKept(h') && Settles(h, h')
  {
  }

  lemma CloseKeepsRows(h: Fleet, h': Fleet, id: int, status: Status, error: string, after: Option<string>, now: int)
    requires CallsKept(h) && CausesKept(h) && Close(h, h', id, status, error, after, now)
    ensures CallsKept(h') && CausesKept(h') && Settles(h, h')
  {
  }

  lemma CrashKeeps(h: Fleet, h': Fleet, now: int)
    requires Inv(h) && Crash(h, h', now)
    ensures Inv(h') && Settles(h, h')
  {
    SameLives(h, h');
  }

  lemma StepKeeps(h: Fleet, step: Step, h': Fleet)
    requires Inv(h) && Does(h, step, h')
    ensures Inv(h') && Settles(h, h')
  {
    match step
    case Editing(resource, sc) => EditKeeps(h, h', resource, sc);
    case Deleting(resource) => DeleteKeeps(h, h', resource);
    case Listing => ListKeeps(h, h');
    case Deciding(resource, now, maxAge) => DecideKeeps(h, h', resource, now, maxAge);
    case Crashing(now) => CrashKeeps(h, h', now);
    case _ => CallsKeep(h, step, h');
  }

  lemma NextKeeps(h: Fleet, h': Fleet)
    requires Inv(h) && Next(h, h')
    ensures Inv(h') && Settles(h, h')
  {
    var step :| Does(h, step, h');
    StepKeeps(h, step, h');
  }

  // ---------- every run ----------

  /** At every point of every run: one action in flight per resource, at most one request per row that may have acted, and
      per life of a schedule row strictly increasing boundaries, none early and none too old. */
  lemma {:induction false} RunsKeepInv(run: seq<Fleet>, k: nat)
    requires IsRun(run) && k < |run|
    ensures Inv(run[k])
  {
    if k > 0 {
      RunsKeepInv(run, k - 1);
      assert StepAt(run, k - 1);
      NextKeeps(run[k - 1], run[k]);
    }
  }

  lemma {:induction false} StretchSettles(run: seq<Fleet>, i: nat, k: nat, id: int)
    requires IsRun(run) && i <= k < |run| && id in run[i].actions && !InFlight(run[i].actions[id])
    ensures id in run[k].actions && run[k].actions[id] == run[i].actions[id]
    ensures id in run[i].sends && id in run[k].sends && run[k].sends[id] == run[i].sends[id]
    decreases k
  {
    if i == k {
      RunsKeepInv(run, i);
    } else {
      StretchSettles(run, i, k - 1, id);
      StepSettles(run, k - 1);
    }
  }

  lemma StepSettles(run: seq<Fleet>, k: nat)
    requires IsRun(run) && k < |run| - 1
    ensures Settles(run[k], run[k + 1])
  {
    RunsKeepInv(run, k);
    assert StepAt(run, k);
    NextKeeps(run[k], run[k + 1]);
  }

  /** An interrupted row is never sent again: whatever was asked for it before the crash is all there ever is. */
  lemma InterruptedStays(run: seq<Fleet>, i: nat, k: nat, id: int)
    requires IsRun(run) && i <= k < |run| && id in run[i].actions && run[i].actions[id].status == Interrupted
    ensures id in run[k].actions && run[k].actions[id] == run[i].actions[id]
    ensures id in run[i].sends && id in run[k].sends && run[k].sends[id] == run[i].sends[id] <= 1
  {
    StretchSettles(run, i, k, id);
    RunsKeepInv(run, i);
  }

  /** A crash interrupts exactly what was in flight, and so it stays. */
  lemma CrashInterrupts(run: seq<Fleet>, i: nat, k: nat, id: int, now: int)
    requires IsRun(run) && i < k < |run| && Crash(run[i], run[i + 1], now) && id in run[i].actions
    ensures id in run[k].actions
    ensures var was := run[i].actions[id];
            run[k].actions[id] == if was.status in {Pending, Running} then was.(status := Interrupted, finishedAt := Some(now)) else was
  {
    StretchSettles(run, i + 1, k, id);
  }

  /** The two rows one boundary of one life could be behind are one row, and it was asked for at most once. */
  lemma AtMostOnce(run: seq<Fleet>, k: nat, i: int, j: int)
    requires IsRun(run) && k < |run| && i in run[k].causes && j in run[k].causes
    requires run[k].causes[i] < |run[k].acted| && run[k].causes[j] < |run[k].acted|
    requires run[k].acted[run[k].causes[i]].life == run[k].acted[run[k].causes[j]].life
    requires run[k].acted[run[k].causes[i]].boundary.at == run[k].acted[run[k].causes[j]].boundary.at
    ensures i == j && i in run[k].sends && run[k].sends[i] <= 1
  {
    RunsKeepInv(run, k);
  }

  /** An action row a schedule caused stops its resource if its boundary is one at which the windows turn off, and starts it
      otherwise. */
  lemma VerbTellsTheWay(run: seq<Fleet>, k: nat, id: int)
    requires IsRun(run) && k < |run| && id in run[k].causes
    ensures id in run[k].actions && run[k].causes[id] < |run[k].acted|
    ensures var a, d := run[k].actions[id], run[k].acted[run[k].causes[id]];
            && a.origin == BySchedule && a.resource == d.resource
            && (a.verb == Stop <==> d.boundary.off) && (a.verb == Start <==> !d.boundary.off)
  {
    RunsKeepInv(run, k);
    assert Answers(run[k].actions[id], run[k].acted[run[k].causes[id]]);
  }

  /** A decision that is issued gets its row if and only if its resource can be acted on and nothing else is acting on it. */
  lemma IssueAnswers(h: Fleet, h': Fleet, resources: map<string, Resource>, now: int)
    requires Inv(h) && Issue(h, h', Some(resources), now)
    ensures var i := h.intent.value;
            (exists id :: id in h'.causes && h'.causes[id] == i.index)
            <==> Actionable(resources, i.resource) && !InUse(h.actions, i.resource)
    ensures h'.actions.Keys == h.actions.Keys + (h'.causes.Keys - h.causes.Keys)
  {
    var i := h.intent.value;
    if Launching(h.actions, Some(resources), i.resource, i.verb).Launched? {
      assert h'.causes[Launching(h.actions, Some(resources), i.resource, i.verb).id] == i.index;
    }
  }

  /** Catch-up never acts on a boundary more than twelve hours old, and nothing acts on one still to come. */
  lemma CatchUpIsRecent(run: seq<Fleet>, k: nat, i: nat)
    requires IsRun(run) && k < |run| && i < |run[k].acted|
    ensures run[k].acted[i].boundary.at <= run[k].acted[i].at
    ensures run[k].acted[i].maxAge == CATCH_UP ==> run[k].acted[i].at - run[k].acted[i].boundary.at <= 43_200_000_000_000
    ensures forall j :: 0 <= j < i && run[k].acted[j].life == run[k].acted[i].life
              ==> run[k].acted[j].boundary.at < run[k].acted[i].boundary.at
  {
    RunsKeepInv(run, k);
    assert InTime(run[k].acted[i]);
  }

  // ---------- the code's own loops are runs of these steps ----------

  function WorldOf(h: Fleet, log: Log): World {
    World(h.scheds, h.actions, h.tasks.Keys, log)
  }

  /** One row of runSchedules is a decision, and an issue when something was decided. */
  lemma RunScheduleIsSteps(h: Fleet, azure: Azure, id: string, now: int, maxAge: int, log: Log)
    returns (marked: Fleet, h': Fleet)
    requires id in h.listed && h.intent.None?
    ensures Decide(h, marked, id, now, maxAge)
    ensures if marked.intent.None? then h' == marked else Issue(marked, h', azure, now)
    ensures SameWorld(h', RanOne(WorldOf(h, log), azure, id, h.listed[id].sched, now, maxAge))
    ensures h'.intent.None? && h'.listed == h.listed - {id}
  {
    var sc := h.listed[id].sched;
    var left := h.(listed := h.listed - {id});
    match Choose(sc, ReadOf(sc, now), now, maxAge)
    case Leave =>
      marked, h' := left, left;
    case TooOld(b) =>
      marked := left.(scheds := Marked(h.scheds, id, b.at, now));
      h' := marked;
    case Apply(b) =>
      marked, h' := ApplyIsSteps(h, azure, id, b, now, maxAge, log);
  }

  lemma ApplyIsSteps(h: Fleet, azure: Azure, id: string, b: Boundary, now: int, maxAge: int, log: Log)
    returns (marked: Fleet, h': Fleet)
    requires id in h.listed && h.intent.None?
    requires Choose(h.listed[id].sched, ReadOf(h.listed[id].sched, now), now, maxAge) == Apply(b)
    ensures Decide(h, marked, id, now, maxAge) && marked.intent.Some? && Issue(marked, h', azure, now)
    ensures SameWorld(h', Applied(WorldOf(h, log), azure, id, b, now))
    ensures h'.intent.None? && h'.listed == h.listed - {id}
  {
    marked := h.(listed := h.listed - {id}, scheds := Marked(h.scheds, id, b.at, now),
                 intent := Some(Intent(|h.acted|, id, VerbOf(b))),
                 acted := h.acted + [Acted(h.listed[id].life, id, b, now, maxAge)]);
    h' := IssueSteps(marked, azure, now, log);
    AppliedSteps(h, marked, h', azure, id, b, now, log);
  }

  /** All a world has but its journal, which an observer of the fleet does not see. */
  ghost predicate SameWorld(h: Fleet, w: World) {
    WorldOf(h, w.log) == w
  }

  lemma AppliedSteps(h: Fleet, marked: Fleet, h': Fleet, azure: Azure, id: string, b: Boundary, now: int, log: Log)
    requires marked.scheds == Marked(h.scheds, id, b.at, now) && marked.actions == h.actions && marked.tasks == h.tasks
    requires WorldOf(h', log) == Begun(WorldOf(marked, log), azure, id, VerbOf(b), BySchedule, now)
    ensures SameWorld(h', Applied(WorldOf(h, log), azure, id, b, now))
  {
  }

  /** What the issue of a marked boundary leaves is what StartActionFrom leaves, or the journaled refusal. */
  lemma IssueSteps(h: Fleet, azure: Azure, now: int, log: Log) returns (h': Fleet)
    requires h.intent.Some?
    ensures Issue(h, h', azure, now) && h'.intent.None? && h'.scheds == h.scheds && h'.listed == h.listed
    ensures var i := h.intent.value;
            WorldOf(h', log) == Begun(WorldOf(h, log), azure, i.resource, i.verb, BySchedule, now)
  {
    var i := h.intent.value;
    match Launching(h.actions, azure, i.resource, i.verb)
    case Launched(row) =>
      h' := h.(actions := h.actions[row := NewAction(i.resource, i.verb, BySchedule, azure.value[i.resource].state, now)],
               tasks := h.tasks[row := Asking(1)], sends := h.sends[row := 0], causes := h.causes[row := i.index], intent := None);
      assert h'.tasks.Keys == h.tasks.Keys + {row};
    case _ =>
      h' := h.(intent := None);
  }

  ghost predicate IsPath(run: seq<Fleet>, h: Fleet, h': Fleet) {
    run != [] && run[0] == h && run[|run| - 1] == h' && forall k :: 0 <= k < |run| - 1 ==> StepAt(run, k)
  }

  ghost predicate Leads(h: Fleet, h': Fleet) {
    exists run :: IsPath(run, h, h')
  }

  lemma StepsOn(h: Fleet, m: Fleet, step: Step, h': Fleet)
    requires Leads(h, m) && Does(m, step, h')
    ensures Leads(h, h')
  {
    var run :| IsPath(run, h, m);
    var longer := run + [h'];
    forall k | 0 <= k < |longer| - 1
      ensures StepAt(longer, k)
    {
      assert k < |run| - 1 ==> StepAt(run, k);
    }
    assert IsPath(longer, h, h');
  }

  /** The rows a pass has still to visit, as it read them. */
  function ListedScheds(h: Fleet): Scheds {
    map r | r in h.listed :: h.listed[r].sched
  }

  lemma {:induction false} VisitsLead(start: Fleet, h: Fleet, azure: Azure, ids: seq<string>, now: int, maxAge: int, log: Log)
    returns (h': Fleet)
    requires Leads(start, h) && h.intent.None? && forall k :: 0 <= k < |ids| ==> ids[k] in h.listed
    requires forall j, k :: 0 <= j < k < |ids| ==> ids[j] != ids[k]
    ensures Leads(start, h') && h'.intent.None? && h'.listed == h.listed - (set id | id in ids)
    ensures SameWorld(h', RanAll(WorldOf(h, log), azure, ListedScheds(h), ids, now, maxAge))
    decreases |ids|
  {
    if ids == [] {
      h' := h;
    } else {
      var n := |ids| - 1;
      var m := VisitsLead(start, h, azure, ids[..n], now, maxAge, log);
      assert ids[n] in m.listed && m.listed[ids[n]] == h.listed[ids[n]];
      var w := RanAll(WorldOf(h, log), azure, ListedScheds(h), ids[..n], now, maxAge);
      h' := VisitLeads(start, m, azure, ids[n], now, maxAge, w.log);
      assert ids == ids[..n] + [ids[n]];
    }
  }

  lemma VisitLeads(start: Fleet, m: Fleet, azure: Azure, id: string, now: int, maxAge: int, log: Log) returns (h': Fleet)
    requires Leads(start, m) && m.intent.None? && id in m.listed
    ensures Leads(start, h') && h'.intent.None? && h'.listed == m.listed - {id}
    ensures SameWorld(h', RanOne(WorldOf(m, log), azure, id, m.listed[id].sched, now, maxAge))
  {
    var marked;
    marked, h' := RunScheduleIsSteps(m, azure, id, now, maxAge, log);
    StepsOn(start, m, Deciding(id, now, maxAge), marked);
    if marked.intent.Some? {
      StepsOn(start, marked, Issuing(azure, now), h');
    }
  }

  /** And all of runSchedules, from one reading of the table to its last row, is a run of these steps. */
  lemma RunSchedulesLeads(h: Fleet, azure: Azure, ids: seq<string>, now: int, maxAge: int, log: Log) returns (h': Fleet)
    requires LivesKept(h) && h.listed == map[] && h.intent.None?
    requires (forall id :: id in ids <==> id in h.scheds) && forall j, k :: 0 <= j < k < |ids| ==> ids[j] != ids[k]
    ensures Leads(h, h') && h'.intent.None? && h'.listed == map[]
    ensures SameWorld(h', RanAll(WorldOf(h, log), azure, h.scheds, ids, now, maxAge))
  {
    var m := h.(listed := map r | r in h.scheds && r in h.lives :: Listed(h.scheds[r], h.lives[r]));
    assert IsPath([h], h, h);
    StepsOn(h, h, Listing, m);
    assert ListedScheds(m) == h.scheds;
    h' := VisitsLead(h, m, azure, ids, now, maxAge, log);
  }

  ghost predicate AttemptAt(run: seq<Fleet>, id: int, tries: nat -> Try, slept: nat -> bool, attempts: nat, k: nat, i: int)
    requires 0 <= i < |run| - 1
  {
    Attempt(run[i], run[i + 1], id, tries(k + i), slept(k + i), attempts)
  }

  ghost predicate AreAttempts(run: seq<Fleet>, id: int, tries: nat -> Try, slept: nat -> bool, attempts: nat, k: nat) {
    forall i :: 0 <= i < |run| - 1 ==> AttemptAt(run, id, tries, slept, attempts, k, i)
  }

  /** The call asks nothing more, and one request more may have acted, or none. */
  predicate CallOver(h: Fleet, id: int, sends: nat) {
    id in h.tasks && h.tasks[id].Over? && id in h.sends && h.sends[id] == sends
  }

  /** doResponse is as many attempts as it made, after which the call asks nothing more. */
  lemma {:induction false} DoResponseIsSteps(h: Fleet, id: int, tries: nat -> Try, slept: nat -> bool, attempts: nat, k: nat)
    returns (run: seq<Fleet>)
    requires 1 <= k <= attempts && id in h.tasks && id in h.sends && h.tasks[id] == Asking(k)
    ensures |run| == LastTry(tries, slept, RetryThrottlingOnly, attempts, k) - k + 2 && run[0] == h
    ensures AreAttempts(run, id, tries, slept, attempts, k)
    ensures run[|run| - 1].actions == h.actions && run[|run| - 1].scheds == h.scheds
    ensures run[|run| - 1].tasks.Keys == h.tasks.Keys
    ensures CallOver(run[|run| - 1], id, h.sends[id]
                     + if MayHaveActed(tries(LastTry(tries, slept, RetryThrottlingOnly, attempts, k))) then 1 else 0)
    decreases attempts - k
  {
    var more := !Accepted(tries(k)) && RetryThrottlingOnly(tries(k)) && k < attempts && slept(k);
    var next := h.(tasks := h.tasks[id := if more then Asking(k + 1) else Over],
                   sends := h.sends[id := h.sends[id] + if MayHaveActed(tries(k)) then 1 else 0]);
    assert Attempt(h, next, id, tries(k), slept(k), attempts);
    if more {
      var rest := DoResponseIsSteps(next, id, tries, slept, attempts, k + 1);
      run := [h] + rest;
      AttemptsPrepend(h, rest, run, id, tries, slept, attempts, k);
    } else {
      run := [h, next];
    }
  }

  lemma AttemptsPrepend(h: Fleet, rest: seq<Fleet>, run: seq<Fleet>, id: int, tries: nat -> Try, slept: nat -> bool,
                        attempts: nat, k: nat)
    requires rest != [] && run == [h] + rest && Attempt(h, rest[0], id, tries(k), slept(k), attempts)
    requires AreAttempts(rest, id, tries, slept, attempts, k + 1)
    ensures AreAttempts(run, id, tries, slept, attempts, k)
  {
    forall i | 0 <= i < |run| - 1
      ensures AttemptAt(run, id, tries, slept, attempts, k, i)
    {
      if i > 0 {
        assert AttemptAt(rest, id, tries, slept, attempts, k + 1, i - 1);
      }
    }
  }

  lemma {:induction false} AttemptsLead(start: Fleet, run: seq<Fleet>, id: int, tries: nat -> Try, slept: nat -> bool, attempts: nat,
                                        n: nat)
    requires run != [] && n < |run| && Leads(start, run[0]) && AreAttempts(run, id, tries, slept, attempts, 1)
    ensures Leads(start, run[n])
  {
    if n > 0 {
      AttemptsLead(start, run, id, tries, slept, attempts, n - 1);
      assert AttemptAt(run, id, tries, slept, attempts, 1, n - 1);
      StepsOn(start, run[n - 1], Trying(id, tries(n), slept(n), attempts), run[n]);
    }
  }

  /** And all of runAction, from its row to its outcome, is a run of these steps too. */
  lemma RunActionLeads(h: Fleet, id: int, attempts: nat, tries: nat -> Try, slept: nat -> bool, settled: bool, failure: string,
                       state: Option<string>, now: int) returns (h': Fleet)
    requires attempts > 0 && id in h.tasks && h.tasks[id] == Asking(1) && id in h.sends
    ensures Leads(h, h') && h'.tasks.Keys == h.tasks.Keys - {id}
    ensures var last := tries(LastTry(tries, slept, RetryThrottlingOnly, attempts, 1));
            var ok := Accepted(last) && settled;
            h'.actions == Finished(Ran(h.actions, id), id, if ok then Succeeded else Failed, if ok then "" else failure,
                                   if ok then state else None, now)
  {
    var marked := h.(actions := Ran(h.actions, id));
    assert IsPath([h], h, h);
    StepsOn(h, h, Starting(id), marked);
    var run := DoResponseIsSteps(marked, id, tries, slept, attempts, 1);
    AttemptsLead(h, run, id, tries, slept, attempts, |run| - 1);
    var over := run[|run| - 1];
    var last := tries(LastTry(tries, slept, RetryThrottlingOnly, attempts, 1));
    var ok := Accepted(last) && settled;
    var status, error, after := if ok then Succeeded else Failed, if ok then "" else failure, if ok then state else None;
    h' := over.(actions := Finished(over.actions, id, status, error, after, now), tasks := over.tasks - {id});
    StepsOn(h, over, Closing(id, status, error, after, now), h');
  }
}
