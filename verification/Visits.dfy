/**
 One schedule row over a whole run: while nobody edits it, and whatever else goes on, what the hub acts on for it is what
 a run of minute ticks acts on, and so exactly the boundaries of its timeline.
 */
module Visits {
  import opened Options
  import opened Zone
  import opened Schedule
  import opened Timeline
  import opened Actions
  import opened ActionRuns

  ghost predicate SameSettings(a: Sched, b: Sched) {
    a.windows == b.windows && a.enabled == b.enabled && a.zone == b.zone
  }

  /** The row is there, in its life, with its settings. */
  ghost predicate Unedited(h: Fleet, resource: string, life: nat, sc: Sched) {
    resource in h.scheds && resource in h.lives && h.lives[resource] == life && SameSettings(h.scheds[resource], sc)
  }

  /** A pass that still has to visit the row has listed it as it is. */
  ghost predicate Fresh(h: Fleet, resource: string, life: nat, sc: Sched) {
    resource in h.listed ==> h.listed[resource].life == life && SameSettings(h.listed[resource].sched, sc)
  }

  ghost predicate DoneAt(run: seq<Fleet>, steps: seq<Step>, k: int)
    requires 0 <= k < |steps| < |run|
  {
    Does(run[k], steps[k], run[k + 1])
  }

  /** A stretch of a run in which one row is left as it is: edits elsewhere, actions by hand, calls, crashes and deletions of
      other rows go on all the while. */
  ghost predicate Stretch(run: seq<Fleet>, steps: seq<Step>, resource: string, life: nat, sc: Sched) {
    && |run| == |steps| + 1
    && Fresh(run[0], resource, life, sc)
    && (forall k :: 0 <= k < |run| ==> Unedited(run[k], resource, life, sc))
    && forall k :: 0 <= k < |steps| ==> DoneAt(run, steps, k)
  }

  predicate Visits(step: Step, resource: string) {
    step.Deciding? && step.resource == resource
  }

  /** When the row is visited. */
  function Times(steps: seq<Step>, resource: string): seq<int> {
    if steps == [] then []
    else if Visits(steps[0], resource) then [steps[0].now] + Times(steps[1..], resource)
    else Times(steps[1..], resource)
  }

  /** Ticks have no age limit, and the catch-up's is far above a minute. */
  predicate Lenient(maxAge: int) {
    maxAge <= 0 || maxAge >= MINUTE
  }

  predicate AllLenient(steps: seq<Step>, resource: string) {
    forall k :: 0 <= k < |steps| && Visits(steps[k], resource) ==> Lenient(steps[k].maxAge)
  }

  /** What was acted on in one life of a row, and when. */
  function ActedOf(acted: seq<Acted>, life: nat): seq<Call> {
    if acted == [] then []
    else
      var n := |acted| - 1;
      ActedOf(acted[..n], life) + if acted[n].life == life then [Call(acted[n].at, acted[n].boundary)] else []
  }

  lemma ActedSnoc(acted: seq<Acted>, d: Acted, life: nat)
    ensures ActedOf(acted + [d], life) == ActedOf(acted, life) + if d.life == life then [Call(d.at, d.boundary)] else []
  {
    assert (acted + [d])[..|acted|] == acted;
  }

  /** A row that means something: switched on, with windows that parse, in a zone of whole minutes. */
  ghost predicate Working(sc: Sched) {
    && sc.enabled && sc.windows != [] && (forall k :: 0 <= k < |sc.windows| ==> ValidWindow(sc.windows[k]))
    && Regular(sc.zone) && WholeMinutes(sc.zone)
  }

  function Calling(now: int, b: Option<Boundary>): seq<Call> {
    if b.Some? then [Call(now, b.value)] else []
  }

  /** One visit is one tick. */
  lemma VisitIsTick(h: Fleet, h': Fleet, resource: string, life: nat, sc: Sched, now: int, maxAge: int)
    requires ListKept(h) && Decide(h, h', resource, now, maxAge) && Lenient(maxAge) && Working(sc)
    requires Unedited(h, resource, life, sc) && Fresh(h, resource, life, sc)
    requires var call := Tick(sc.windows, sc.zone, h.scheds[resource].last, now).1;
             call.Some? ==> now - call.value.at < MINUTE
    ensures resource in h'.scheds && Fresh(h', resource, life, sc)
    ensures var (last, call) := Tick(sc.windows, sc.zone, h.scheds[resource].last, now);
            h'.scheds[resource].last == last && ActedOf(h'.acted, life) == ActedOf(h.acted, life) + Calling(now, call)
  {
    assert ListedAsIs(h, resource);
    var l := h.listed[resource].sched;
    assert ReadOf(l, now) == Reading(sc.windows, sc.zone, now);
    match Choose(l, ReadOf(l, now), now, maxAge)
    case Leave =>
    case TooOld(b) =>
      assert false;
    case Apply(b) =>
      ActedSnoc(h.acted, Acted(life, resource, b, now, maxAge), life);
  }

  /** After any visit, whatever the row remembered and however old the boundary was, it is caught up. */
  lemma VisitCatchesUp(h: Fleet, h': Fleet, resource: string, life: nat, sc: Sched, now: int, maxAge: int)
    requires ListKept(h) && Decide(h, h', resource, now, maxAge) && Working(sc)
    requires Unedited(h, resource, life, sc) && Fresh(h, resource, life, sc)
    requires h.scheds[resource].last.Some? ==> h.scheds[resource].last.value <= now
    ensures resource in h'.scheds && CaughtUp(sc.windows, sc.zone, h'.scheds[resource].last, now)
  {
    assert ListedAsIs(h, resource);
    var l := h.listed[resource].sched;
    assert ReadOf(l, now) == Reading(sc.windows, sc.zone, now);
    TickCatchesUp(sc.windows, sc.zone, l.last, now);
    match Choose(l, ReadOf(l, now), now, maxAge)
    case Leave =>
    case TooOld(b) =>
    case Apply(b) =>
  }

  /** Every other step leaves the row's memory and its decisions alone. */
  lemma OthersLeaveIt(h: Fleet, step: Step, h': Fleet, resource: string, life: nat, sc: Sched)
    requires LivesKept(h) && ListKept(h) && Does(h, step, h') && !Visits(step, resource)
    requires Unedited(h, resource, life, sc) && Unedited(h', resource, life, sc) && Fresh(h, resource, life, sc)
    ensures h'.scheds[resource].last == h.scheds[resource].last && Fresh(h', resource, life, sc)
    ensures ActedOf(h'.acted, life) == ActedOf(h.acted, life)
  {
    if step.Deciding? {
      OtherVisit(h, h', step.resource, step.now, step.maxAge, resource, life);
    } else if step.Issuing? || step.Acting? || step.Starting? || step.Trying? || step.Closing? {
      CallsLeave(h, step, h');
    }
  }

  lemma OtherVisit(h: Fleet, h': Fleet, other: string, now: int, maxAge: int, resource: string, life: nat)
    requires ListKept(h) && Decide(h, h', other, now, maxAge) && other != resource
    requires resource in h.scheds && resource in h.lives && h.lives[resource] == life
    ensures resource in h'.scheds && h'.scheds[resource] == h.scheds[resource]
    ensures resource in h'.listed ==> resource in h.listed && h'.listed[resource] == h.listed[resource]
    ensures ActedOf(h'.acted, life) == ActedOf(h.acted, life)
  {
    var l := h.listed[other];
    match Choose(l.sched, ReadOf(l.sched, now), now, maxAge)
    case Leave =>
    case TooOld(b) =>
    case Apply(b) =>
      ActedSnoc(h.acted, Acted(l.life, other, b, now, maxAge), life);
  }

  /** What the theorem asks of a stretch, and of each of its tails. */
  ghost predicate WellVisited(run: seq<Fleet>, steps: seq<Step>, resource: string, life: nat, sc: Sched, since: int) {
    && Stretch(run, steps, resource, life, sc) && Inv(run[0]) && AllLenient(steps, resource)
    && Recent(sc.zone, since) && CaughtUp(sc.windows, sc.zone, run[0].scheds[resource].last, since)
    && EveryMinute(since, Times(steps, resource)) && NoMisfire(sc.windows, sc.zone, Times(steps, resource))
  }

  lemma RestOfStretch(run: seq<Fleet>, steps: seq<Step>, resource: string, life: nat, sc: Sched)
    requires Stretch(run, steps, resource, life, sc) && steps != [] && Fresh(run[1], resource, life, sc)
    requires AllLenient(steps, resource)
    ensures Stretch(run[1..], steps[1..], resource, life, sc) && AllLenient(steps[1..], resource)
    ensures Visits(steps[0], resource) ==> Lenient(steps[0].maxAge)
  {
    forall k | 0 <= k < |steps| - 1
      ensures DoneAt(run[1..], steps[1..], k)
    {
      assert DoneAt(run, steps, k + 1);
    }
    forall k | 0 <= k < |steps| - 1 && Visits(steps[1..][k], resource)
      ensures Lenient(steps[1..][k].maxAge)
    {
      assert steps[1..][k] == steps[k + 1];
    }
  }

  /** A stretch that begins with a visit: that visit is a tick, and the rest is well visited from there. */
  lemma VisitFirst(run: seq<Fleet>, steps: seq<Step>, resource: string, life: nat, sc: Sched, since: int)
    requires WellVisited(run, steps, resource, life, sc, since) && Working(sc)
    requires steps != [] && Visits(steps[0], resource)
    ensures WellVisited(run[1..], steps[1..], resource, life, sc, steps[0].now)
    ensures var (last, call) := Tick(sc.windows, sc.zone, run[0].scheds[resource].last, steps[0].now);
            run[1].scheds[resource].last == last
            && ActedOf(run[1].acted, life) == ActedOf(run[0].acted, life) + Calling(steps[0].now, call)
  {
    assert DoneAt(run, steps, 0);
    StepKeeps(run[0], steps[0], run[1]);
    var c := FirstTick(sc.windows, sc.zone, since, run[0].scheds[resource].last, Times(steps, resource));
    assert Times(steps, resource)[1..] == Times(steps[1..], resource);
    VisitIsTick(run[0], run[1], resource, life, sc, steps[0].now, steps[0].maxAge);
    RestOfStretch(run, steps, resource, life, sc);
  }

  /** One that begins with anything else: the row does not notice. */
  lemma OtherFirst(run: seq<Fleet>, steps: seq<Step>, resource: string, life: nat, sc: Sched, since: int)
    requires WellVisited(run, steps, resource, life, sc, since)
    requires steps != [] && !Visits(steps[0], resource)
    ensures WellVisited(run[1..], steps[1..], resource, life, sc, since)
    ensures run[1].scheds[resource].last == run[0].scheds[resource].last
    ensures ActedOf(run[1].acted, life) == ActedOf(run[0].acted, life)
  {
    assert DoneAt(run, steps, 0);
    StepKeeps(run[0], steps[0], run[1]);
    OthersLeaveIt(run[0], steps[0], run[1], resource, life, sc);
    RestOfStretch(run, steps, resource, life, sc);
  }

  ghost predicate ActsAs(h: Fleet, h': Fleet, life: nat, calls: seq<Call>) {
    ActedOf(h'.acted, life) == ActedOf(h.acted, life) + calls
  }

  function CallsOf(h: Fleet, steps: seq<Step>, resource: string, sc: Sched): seq<Call>
    requires resource in h.scheds
  {
    Calls(sc.windows, sc.zone, h.scheds[resource].last, Times(steps, resource))
  }

  /** What a caught-up row makes the hub act on, whatever else happens, is what its visits alone make of its windows. */
  lemma {:induction false} RowActsAsTicked(run: seq<Fleet>, steps: seq<Step>, resource: string, life: nat, sc: Sched, since: int)
    requires WellVisited(run, steps, resource, life, sc, since) && Working(sc)
    ensures ActsAs(run[0], run[|steps|], life, CallsOf(run[0], steps, resource, sc))
    decreases |steps|
  {
    if steps == [] {
      assert ActedOf(run[0].acted, life) + [] == ActedOf(run[0].acted, life);
    } else {
      var now := if Visits(steps[0], resource) then steps[0].now else since;
      FirstStep(run, steps, resource, life, sc, since);
      RowActsAsTicked(run[1..], steps[1..], resource, life, sc, now);
      Prepend(run[0], run[1], run[|steps|], steps, resource, life, sc);
    }
  }

  /** What the first step adds. */
  function FirstCalls(h: Fleet, step: Step, resource: string, sc: Sched): seq<Call>
    requires resource in h.scheds
  {
    if Visits(step, resource) then Calling(step.now, Tick(sc.windows, sc.zone, h.scheds[resource].last, step.now).1) else []
  }

  function LastAfter(h: Fleet, step: Step, resource: string, sc: Sched): Option<int>
    requires resource in h.scheds
  {
    if Visits(step, resource) then Tick(sc.windows, sc.zone, h.scheds[resource].last, step.now).0 else h.scheds[resource].last
  }

  lemma FirstStep(run: seq<Fleet>, steps: seq<Step>, resource: string, life: nat, sc: Sched, since: int)
    requires WellVisited(run, steps, resource, life, sc, since) && Working(sc) && steps != []
    ensures WellVisited(run[1..], steps[1..], resource, life, sc, if Visits(steps[0], resource) then steps[0].now else since)
    ensures resource in run[0].scheds && resource in run[1].scheds
    ensures run[1].scheds[resource].last == LastAfter(run[0], steps[0], resource, sc)
    ensures ActsAs(run[0], run[1], life, FirstCalls(run[0], steps[0], resource, sc))
  {
    if Visits(steps[0], resource) {
      VisitFirst(run, steps, resource, life, sc, since);
    } else {
      OtherFirst(run, steps, resource, life, sc, since);
      assert ActedOf(run[0].acted, life) + [] == ActedOf(run[0].acted, life);
    }
  }

  lemma Prepend(h: Fleet, m: Fleet, h': Fleet, steps: seq<Step>, resource: string, life: nat, sc: Sched)
    requires steps != [] && resource in h.scheds && resource in m.scheds
    requires m.scheds[resource].last == LastAfter(h, steps[0], resource, sc)
    requires ActsAs(h, m, life, FirstCalls(h, steps[0], resource, sc))
    requires ActsAs(m, h', life, CallsOf(m, steps[1..], resource, sc))
    ensures ActsAs(h, h', life, CallsOf(h, steps, resource, sc))
  {
    CallsPrepend(h.scheds[resource].last, steps, resource, sc);
    Joined(ActedOf(h.acted, life), FirstCalls(h, steps[0], resource, sc), CallsOf(m, steps[1..], resource, sc));
  }

  lemma CallsPrepend(last: Option<int>, steps: seq<Step>, resource: string, sc: Sched)
    requires steps != []
    ensures var step := steps[0];
            var (last', call) := Tick(sc.windows, sc.zone, last, if Visits(step, resource) then step.now else 0);
            Calls(sc.windows, sc.zone, last, Times(steps, resource))
            == if Visits(step, resource)
               then Calling(step.now, call) + Calls(sc.windows, sc.zone, last', Times(steps[1..], resource))
               else [] + Calls(sc.windows, sc.zone, last, Times(steps[1..], resource))
  {
    if Visits(steps[0], resource) {
      assert Times(steps, resource)[1..] == Times(steps[1..], resource);
      CallsUnfold(sc.windows, sc.zone, last, Times(steps, resource));
    }
  }

  lemma Joined(a: seq<Call>, b: seq<Call>, c: seq<Call>)
    ensures (a + b) + c == a + (b + c)
  {
  }

  lemma CallsUnfold(ws: seq<Window>, z: Zone, last: Option<int>, ticks: seq<int>)
    requires ticks != []
    ensures var (last', call) := Tick(ws, z, last, ticks[0]);
            Calls(ws, z, last, ticks) == Calling(ticks[0], call) + Calls(ws, z, last', ticks[1..])
  {
  }

  /** `after` is `before` and, beyond it, exactly the boundaries in between. */
  ghost predicate AddsExactly(before: seq<Call>, after: seq<Call>, sc: Sched, since: int, until: int) {
    before <= after && ExactlyThese(sc.windows, sc.zone, after[|before|..], since, until)
  }

  lemma StretchActsExactly(run: seq<Fleet>, steps: seq<Step>, resource: string, life: nat, sc: Sched, since: int)
    requires WellVisited(run, steps, resource, life, sc, since) && Working(sc)
    ensures AddsExactly(ActedOf(run[0].acted, life), ActedOf(run[|steps|].acted, life), sc, since,
                        LastTick(since, Times(steps, resource)))
  {
    RowActsAsTicked(run, steps, resource, life, sc, since);
    TicksAreExact(sc.windows, sc.zone, since, run[0].scheds[resource].last, Times(steps, resource));
    var before, calls := ActedOf(run[0].acted, life), CallsOf(run[0], steps, resource, sc);
    assert (before + calls)[|before|..] == calls;
  }

  /** Over any stretch of any run of the hub, an unedited row visited every minute is acted on exactly at the boundaries of
      its timeline: each once, in order, the right way, within a minute, and nothing else, however often people act by
      hand, other rows change, or the hub dies between two visits. */
  lemma RowActsExactly(earlier: seq<Fleet>, run: seq<Fleet>, steps: seq<Step>, resource: string, life: nat, sc: Sched, since: int)
    requires IsRun(earlier + run) && Stretch(run, steps, resource, life, sc)
    requires Working(sc) && AllLenient(steps, resource)
    requires Recent(sc.zone, since) && CaughtUp(sc.windows, sc.zone, run[0].scheds[resource].last, since)
    requires EveryMinute(since, Times(steps, resource)) && NoMisfire(sc.windows, sc.zone, Times(steps, resource))
    ensures AddsExactly(ActedOf(run[0].acted, life), ActedOf(run[|steps|].acted, life), sc, since,
                        LastTick(since, Times(steps, resource)))
  {
    RunsKeepInv(earlier + run, |earlier|);
    assert (earlier + run)[|earlier|] == run[0];
    StretchActsExactly(run, steps, resource, life, sc, since);
  }

  // ---------- the action rows behind it ----------

  lemma {:induction false} ActedAt(acted: seq<Acted>, life: nat, i: nat)
    requires i < |acted| && acted[i].life == life
    ensures var n := |ActedOf(acted[..i], life)|;
            n < |ActedOf(acted, life)| && ActedOf(acted, life)[n] == Call(acted[i].at, acted[i].boundary)
  {
    var n := |acted| - 1;
    if i < n {
      ActedAt(acted[..n], life, i);
      assert acted[..n][..i] == acted[..i];
    }
  }

  lemma {:induction false} ActedGrows(acted: seq<Acted>, life: nat, m: nat)
    requires m <= |acted|
    ensures |ActedOf(acted[..m], life)| <= |ActedOf(acted, life)|
  {
    if m < |acted| {
      ActedGrows(acted[..|acted| - 1], life, m);
      assert acted[..|acted| - 1][..m] == acted[..m];
    } else {
      assert acted[..m] == acted;
    }
  }

  lemma {:induction false} StretchGrows(run: seq<Fleet>, steps: seq<Step>, k: nat)
    requires |run| == |steps| + 1 && k <= |steps| && Inv(run[0])
    requires forall j :: 0 <= j < |steps| ==> DoneAt(run, steps, j)
    ensures Inv(run[k]) && run[0].acted <= run[k].acted
  {
    if k > 0 {
      StretchGrows(run, steps, k - 1);
      assert DoneAt(run, steps, k - 1);
      StepKeeps(run[k - 1], steps[k - 1], run[k]);
    }
  }

  /** The action row is a decision's of the life, made within the stretch. */
  predicate CausedIn(h: Fleet, h': Fleet, life: nat, id: int) {
    id in h'.causes && |h.acted| <= h'.causes[id] < |h'.acted| && h'.acted[h'.causes[id]].life == life
  }

  /** An action row of a life does at its boundary what the timeline does there. */
  ghost predicate FollowsTimeline(h: Fleet, id: int, resource: string, sc: Sched, since: int)
    requires id in h.causes && h.causes[id] < |h.acted|
  {
    var at := h.acted[h.causes[id]].boundary.at;
    var before, from := OffTimeline(sc.windows, sc.zone, at - 1), OffTimeline(sc.windows, sc.zone, at);
    && id in h.actions && h.actions[id].resource == resource && since < at
    && (h.actions[id].verb == Stop <==> !before && from) && (h.actions[id].verb == Start <==> before && !from)
  }

  lemma StretchStopsAndStarts(run: seq<Fleet>, steps: seq<Step>, resource: string, life: nat, sc: Sched, since: int, id: int)
    requires WellVisited(run, steps, resource, life, sc, since) && Working(sc) && CausedIn(run[0], run[|steps|], life, id)
    ensures FollowsTimeline(run[|steps|], id, resource, sc, since)
  {
    StretchActsExactly(run, steps, resource, life, sc, since);
    StretchGrows(run, steps, |steps|);
    assert Unedited(run[|steps|], resource, life, sc);
    CauseFollows(run[0], run[|steps|], resource, life, sc, since, LastTick(since, Times(steps, resource)), id);
  }

  lemma CauseFollows(h: Fleet, h': Fleet, resource: string, life: nat, sc: Sched, since: int, until: int, id: int)
    requires Inv(h') && h.acted <= h'.acted && CausedIn(h, h', life, id)
    requires resource in h'.scheds && resource in h'.lives && h'.lives[resource] == life
    requires AddsExactly(ActedOf(h.acted, life), ActedOf(h'.acted, life), sc, since, until)
    ensures FollowsTimeline(h', id, resource, sc, since)
  {
    CauseAnswers(h', resource, life, id);
    var b := ActedIsBoundary(h, h', life, sc, since, until, h'.causes[id]);
  }

  /** So the action rows an unedited row causes stop its resource exactly where its timeline turns off, and start it exactly
      where its timeline turns on. */
  lemma RowsStopAndStart(earlier: seq<Fleet>, run: seq<Fleet>, steps: seq<Step>, resource: string, life: nat, sc: Sched, since: int,
                         id: int)
    requires IsRun(earlier + run) && Stretch(run, steps, resource, life, sc)
    requires Working(sc) && AllLenient(steps, resource)
    requires Recent(sc.zone, since) && CaughtUp(sc.windows, sc.zone, run[0].scheds[resource].last, since)
    requires EveryMinute(since, Times(steps, resource)) && NoMisfire(sc.windows, sc.zone, Times(steps, resource))
    requires CausedIn(run[0], run[|steps|], life, id)
    ensures FollowsTimeline(run[|steps|], id, resource, sc, since)
  {
    RunsKeepInv(earlier + run, |earlier|);
    assert (earlier + run)[|earlier|] == run[0];
    StretchStopsAndStarts(run, steps, resource, life, sc, since, id);
  }

  lemma CauseAnswers(h: Fleet, resource: string, life: nat, id: int)
    requires Inv(h) && resource in h.scheds && resource in h.lives && h.lives[resource] == life
    requires id in h.causes && h.causes[id] < |h.acted| && h.acted[h.causes[id]].life == life
    ensures id in h.actions && h.actions[id].resource == resource
    ensures h.actions[id].verb == if h.acted[h.causes[id]].boundary.off then Stop else Start
  {
    assert Answers(h.actions[id], h.acted[h.causes[id]]) && SeenBy(h, resource, h.causes[id]);
  }

  lemma ActedIsBoundary(h: Fleet, h': Fleet, life: nat, sc: Sched, since: int, until: int, i: nat) returns (b: Boundary)
    requires h.acted <= h'.acted && |h.acted| <= i < |h'.acted| && h'.acted[i].life == life
    requires AddsExactly(ActedOf(h.acted, life), ActedOf(h'.acted, life), sc, since, until)
    ensures b == h'.acted[i].boundary && TrueBoundary(sc.windows, sc.zone, b) && since < b.at
  {
    b := h'.acted[i].boundary;
    ActedAt(h'.acted, life, i);
    ActedGrows(h'.acted[..i], life, |h.acted|);
    assert h'.acted[..i][..|h.acted|] == h.acted;
    var m, n := |ActedOf(h.acted, life)|, |ActedOf(h'.acted[..i], life)|;
    assert ActedOf(h'.acted, life)[m..][n - m] == Call(h'.acted[i].at, b);
  }
}
