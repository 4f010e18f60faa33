/**
 Budget and orphan guardrails: the state each rule instance should be in, and the journal entries that bring it there.
 */
module Guardrails {
  import opened Journal
  import opened Options
  import opened Calendar
  import Sets

  type Key = GuardrailKey
  type Log = seq<Entry<Key>>

  // ---------- wants and transitions ----------

  datatype Want = Want(key: Key, on: bool, value: real)

  function Turn(w: Want, firing: set<Key>, now: int): seq<Entry<Key>> {
    if w.on && w.key !in firing then [Entry(w.key, Fired, w.value, now)]
    else if !w.on && w.key in firing then [Entry(w.key, Resolved, w.value, now)]
    else []
  }

  function TransitionsOf(wants: seq<Want>, firing: set<Key>, now: int): Log {
    if wants == [] then [] else TransitionsOf(wants[..|wants| - 1], firing, now) + Turn(wants[|wants| - 1], firing, now)
  }

  method Transitions(wants: seq<Want>, firing: set<Key>, now: int) returns (out: Log)
    ensures out == TransitionsOf(wants, firing, now)
  {
    out := [];
    for i := 0 to |wants|
      invariant out == TransitionsOf(wants[..i], firing, now)
    {
      assert wants[..i + 1][..i] == wants[..i];
      var w := wants[i];
      if w.on && w.key !in firing {
        out := out + [Entry(w.key, Fired, w.value, now)];
      } else if !w.on && w.key in firing {
        out := out + [Entry(w.key, Resolved, w.value, now)];
      }
    }
    assert wants[..|wants|] == wants;
  }

  /** Some want is for the key and against its state. */
  predicate Turned(wants: seq<Want>, firing: set<Key>, k: Key) {
    exists i :: 0 <= i < |wants| && wants[i].key == k && wants[i].on != (k in firing)
  }

  predicate OnePerKey(wants: seq<Want>) {
    forall i, j :: 0 <= i < j < |wants| ==> wants[i].key != wants[j].key
  }

  function TurnFor(w: Want, firing: set<Key>, k: Key): seq<Change> {
    if w.key == k && w.on != (k in firing) then [if k in firing then Resolved else Fired] else []
  }

  lemma OneMoreWant(wants: seq<Want>, firing: set<Key>, now: int, k: Key)
    requires wants != []
    ensures var n := |wants| - 1;
            ChangesOf(TransitionsOf(wants, firing, now), k)
            == ChangesOf(TransitionsOf(wants[..n], firing, now), k) + TurnFor(wants[n], firing, k)
  {
    var n := |wants| - 1;
    var before, turn := TransitionsOf(wants[..n], firing, now), Turn(wants[n], firing, now);
    if turn == [] {
      assert before + turn == before;
      assert ChangesOf(before, k) + [] == ChangesOf(before, k);
    } else {
      assert turn == [turn[0]];
      ChangesSnoc(before, turn[0], k);
    }
  }

  predicate OnlyTurns(changes: seq<Change>, was: bool) {
    forall i :: 0 <= i < |changes| ==> changes[i] == if was then Resolved else Fired
  }

  /** A key's entries: nothing unless it is turned, and then only turns. */
  lemma {:induction false} TurnsOf(wants: seq<Want>, firing: set<Key>, now: int, k: Key)
    ensures var changes := ChangesOf(TransitionsOf(wants, firing, now), k);
            && (changes == [] <==> !Turned(wants, firing, k))
            && OnlyTurns(changes, k in firing)
            && (OnePerKey(wants) ==> |changes| <= 1)
  {
    if wants != [] {
      var n := |wants| - 1;
      TurnsOf(wants[..n], firing, now, k);
      TurnedSnoc(wants, firing, k);
      OneMoreWant(wants, firing, now, k);
      if OnePerKey(wants) && wants[n].key == k {
        assert !Turned(wants[..n], firing, k);
      }
    }
  }

  lemma TurnedSnoc(wants: seq<Want>, firing: set<Key>, k: Key)
    requires wants != []
    ensures var n := |wants| - 1;
            Turned(wants, firing, k) <==> Turned(wants[..n], firing, k) || (wants[n].key == k && wants[n].on != (k in firing))
  {
    var n := |wants| - 1;
    if Turned(wants[..n], firing, k) {
      var i :| 0 <= i < n && wants[..n][i].key == k && wants[..n][i].on != (k in firing);
      assert wants[i].key == k;
    }
    if Turned(wants, firing, k) {
      var i :| 0 <= i < |wants| && wants[i].key == k && wants[i].on != (k in firing);
      assert i < n ==> wants[..n][i].key == k && wants[..n][i].on != (k in firing);
    }
  }

  /** After journaling, a key has changed state exactly when it was turned. */
  lemma FiringAfter(log: Log, wants: seq<Want>, now: int, k: Key)
    ensures var out := TransitionsOf(wants, FiringKeys(log), now);
            k in FiringKeys(log + out) <==> (k in FiringKeys(log)) != Turned(wants, FiringKeys(log), k)
  {
    var out := TransitionsOf(wants, FiringKeys(log), now);
    TurnsOf(wants, FiringKeys(log), now, k);
    ChangesConcat(log, out, k);
  }

  /** Journaling keeps every key's history alternating as long as no key is wanted twice. */
  lemma TransitionsAlternate(log: Log, wants: seq<Want>, now: int)
    requires AllAlternate(log) && OnePerKey(wants)
    ensures AllAlternate(log + TransitionsOf(wants, FiringKeys(log), now))
  {
    forall k
      ensures Alternating(ChangesOf(log + TransitionsOf(wants, FiringKeys(log), now), k))
    {
      TurnsOf(wants, FiringKeys(log), now, k);
      AlternatesOn(log, TransitionsOf(wants, FiringKeys(log), now), k);
    }
  }

  predicate Settled(wants: seq<Want>, firing: set<Key>) {
    forall i :: 0 <= i < |wants| ==> wants[i].on == (wants[i].key in firing)
  }

  lemma {:induction false} NothingToDo(wants: seq<Want>, firing: set<Key>, now: int)
    ensures TransitionsOf(wants, firing, now) == [] <==> Settled(wants, firing)
  {
    if wants != [] {
      var n := |wants| - 1;
      NothingToDo(wants[..n], firing, now);
      assert forall i :: 0 <= i < n ==> wants[..n][i] == wants[i];
    }
  }

  /** No key is wanted both on and off. */
  predicate Consistent(wants: seq<Want>) {
    forall i, j :: 0 <= i < |wants| && 0 <= j < |wants| && wants[i].key == wants[j].key ==> wants[i].on == wants[j].on
  }

  /** Once their turns are made, wants ask for nothing more exactly when they do not contradict one another. */
  lemma SettlesExactly(wants: seq<Want>, firing: set<Key>, firing': set<Key>)
    requires forall i :: 0 <= i < |wants| ==> Flipped(wants, firing, firing', wants[i].key)
    ensures Settled(wants, firing') <==> Consistent(wants)
  {
    assert forall i :: 0 <= i < |wants| ==> Flipped(wants, firing, firing', wants[i].key);
    if Consistent(wants) {
      forall i | 0 <= i < |wants|
        ensures wants[i].on == (wants[i].key in firing')
      {
        if Turned(wants, firing, wants[i].key) {
          var j :| 0 <= j < |wants| && wants[j].key == wants[i].key && wants[j].on != (wants[i].key in firing);
        }
      }
    }
  }

  predicate Flipped(wants: seq<Want>, firing: set<Key>, firing': set<Key>, k: Key) {
    k in firing' <==> (k in firing) != Turned(wants, firing, k)
  }

  // ---------- the calendar ----------

  /** Days of the month the cost figures cover: a figure dated the 5th covers the 1st to the 4th. */
  function DaysBilled(now: Day, asOf: Day): int {
    if asOf.year != now.year || asOf.month != now.month then 0 else asOf.day - 1
  }

  /** The rule of three, refused on fewer than four billed days. */
  function Projection(now: Day, asOf: Day, spent: real): Option<real> {
    var d := DaysBilled(now, asOf);
    if d < 4 then None else Some(spent * DaysInMonth(now) as real / d as real)
  }

  lemma ProjectionIsRuleOfThree(now: Day, asOf: Day, spent: real)
    ensures var p := Projection(now, asOf, spent);
            && (p.Some? <==> asOf.year == now.year && asOf.month == now.month && asOf.day >= 5)
            && (p.Some? && 1 <= now.month <= 12 ==>
                  var days := COMMON_YEAR[now.month - 1] + if now.month == 2 && Leap(now.year) then 1 else 0;
                  p.value * (asOf.day - 1) as real == spent * days as real)
  {
    if 1 <= now.month <= 12 {
      MonthLengths(now);
    }
  }

  // ---------- budget ----------

  datatype CostRow = CostRow(resource: string, amount: real)

  datatype BudgetInput = BudgetInput(now: int, today: Day, asOf: Day, budget: real, spent: real, rows: seq<CostRow>,
                                     thresholds: seq<int>, share: int, firing: set<Key>)

  const BUDGET: string := "budget"
  const THRESHOLD: string := "budget_threshold"
  const PROJECTION: string := "budget_projection"
  const SHARE: string := "resource_share"
  const ORPHAN: string := "orphan"

  const PROJECTION_KEY: Key := GuardrailKey(BUDGET, PROJECTION, None)

  function ThresholdWants(input: BudgetInput, n: nat): (wants: seq<Want>)
    requires n <= |input.thresholds|
    ensures |wants| == n
    ensures forall i :: 0 <= i < n ==> wants[i].key == GuardrailKey(BUDGET, THRESHOLD, Some(input.thresholds[i]))
                                       && wants[i].on == (input.spent >= input.budget * input.thresholds[i] as real / 100.0)
  {
    if n == 0 then []
    else
      var pct := input.thresholds[n - 1];
      ThresholdWants(input, n - 1)
      + [Want(GuardrailKey(BUDGET, THRESHOLD, Some(pct)), input.spent >= input.budget * pct as real / 100.0, input.spent)]
  }

  /** Above 105 % to fire; then on down to 95 %. A new month has no projection, and resolves. */
  function ProjectionWants(input: BudgetInput): (wants: seq<Want>)
    ensures |wants| <= 1 && forall i :: 0 <= i < |wants| ==> wants[i].key == PROJECTION_KEY
  {
    var p := Projection(input.today, input.asOf, input.spent);
    if p.Some? then
      [Want(PROJECTION_KEY,
            if PROJECTION_KEY in input.firing then p.value >= input.budget * 0.95 else p.value > input.budget * 1.05, p.value)]
    else if PROJECTION_KEY in input.firing then [Want(PROJECTION_KEY, false, 0.0)]
    else []
  }

  function ShareLine(input: BudgetInput): real {
    input.budget * input.share as real / 100.0
  }

  function RowWants(input: BudgetInput, n: nat): (wants: seq<Want>)
    requires n <= |input.rows| && input.budget > 0.0
    ensures |wants| == n
    ensures forall i :: 0 <= i < n ==> wants[i].key == GuardrailKey(input.rows[i].resource, SHARE, None)
                                       && wants[i].on == (input.rows[i].amount > ShareLine(input))
  {
    if n == 0 then []
    else
      var r := input.rows[n - 1];
      RowWants(input, n - 1)
      + [Want(GuardrailKey(r.resource, SHARE, None), r.amount > ShareLine(input), r.amount / input.budget * 100.0)]
  }

  predicate HasCost(input: BudgetInput, resource: string) {
    exists i :: 0 <= i < |input.rows| && input.rows[i].resource == resource
  }

  predicate IsBudgetRule(rule: string) {
    rule == THRESHOLD || rule == PROJECTION || rule == SHARE
  }

  /** The firing keys nothing else speaks for: resources without a row, or every budget rule once there is no budget. */
  predicate Lapsed(input: BudgetInput, k: Key) {
    k in input.firing && if input.budget > 0.0 then k.rule == SHARE && !HasCost(input, k.subject) else IsBudgetRule(k.rule)
  }

  function Offs(keys: seq<Key>): (wants: seq<Want>)
    ensures |wants| == |keys| && forall i :: 0 <= i < |keys| ==> wants[i] == Want(keys[i], false, 0.0)
  {
    if keys == [] then [] else Offs(keys[..|keys| - 1]) + [Want(keys[|keys| - 1], false, 0.0)]
  }

  /** The lapsed keys in some order, each once: the journal's map is read in no particular one. */
  ghost predicate ListsLapsed(input: BudgetInput, keys: seq<Key>) {
    (forall k :: k in keys <==> Lapsed(input, k)) && Unrepeated(keys)
  }

  predicate Unrepeated(keys: seq<Key>) {
    forall i, j :: 0 <= i < j < |keys| ==> keys[i] != keys[j]
  }

  function BudgetWants(input: BudgetInput, lapsed: seq<Key>): seq<Want> {
    if input.budget > 0.0 then
      ThresholdWants(input, |input.thresholds|) + ProjectionWants(input) + RowWants(input, |input.rows|) + Offs(lapsed)
    else Offs(lapsed)
  }

  method LapsedKeys(input: BudgetInput) returns (keys: seq<Key>)
    ensures ListsLapsed(input, keys)
  {
    keys := [];
    var remaining := input.firing;
    while remaining != {}
      invariant remaining <= input.firing
      invariant forall k :: k in keys <==> k in input.firing - remaining && Lapsed(input, k)
      invariant Unrepeated(keys)
    {
      Sets.SomeMember(remaining);
      var k :| k in remaining;
      remaining := remaining - {k};
      if Lapsed(input, k) {
        keys := keys + [k];
      }
    }
  }

  method WantOff(spoken: seq<Want>, keys: seq<Key>) returns (wants: seq<Want>)
    ensures wants == spoken + Offs(keys)
  {
    wants := spoken;
    for i := 0 to |keys|
      invariant wants == spoken + Offs(keys[..i])
    {
      assert keys[..i + 1][..i] == keys[..i];
      wants := wants + [Want(keys[i], false, 0.0)];
    }
    assert keys[..|keys|] == keys;
  }

  /** An entry says what its figures say: thresholds of what was spent, the projection of itself, shares of the resource's own
      part of the budget in percent; what has no figure any more resolves. */
  ghost predicate EntryTells(input: BudgetInput, e: Entry<Key>) {
    && e.at == input.now
    && match e.key.rule
       case "budget_threshold" =>
         (e.change == Resolved && input.budget <= 0.0 && e.value == 0.0)
         || (e.value == input.spent && e.key.subject == "budget" && exists i :: ThresholdTells(input, i, e))
       case "budget_projection" =>
         var p := Projection(input.today, input.asOf, input.spent);
         (e.change == Resolved && e.value == 0.0 && (input.budget <= 0.0 || p.None?))
         || (p == Some(e.value) && e.key.subject == "budget" && e.key.detail.None?
             && if e.change == Fired then e.value > input.budget * 1.05 else e.value < input.budget * 0.95)
       case "resource_share" =>
         (e.change == Resolved && e.value == 0.0 && (input.budget <= 0.0 || !HasCost(input, e.key.subject)))
         || (e.key.detail.None? && exists i :: ShareTells(input, i, e))
       case _ => false
  }

  predicate ThresholdTells(input: BudgetInput, i: int, e: Entry<Key>) {
    && 0 <= i < |input.thresholds| && e.key.detail == Some(input.thresholds[i])
    && (e.change == Fired <==> input.spent >= input.budget * input.thresholds[i] as real / 100.0)
  }

  predicate ShareTells(input: BudgetInput, i: int, e: Entry<Key>) {
    && 0 <= i < |input.rows| && input.rows[i].resource == e.key.subject && input.budget > 0.0
    && e.value == input.rows[i].amount / input.budget * 100.0
    && (e.change == Fired <==> input.rows[i].amount > input.budget * input.share as real / 100.0)
  }

  lemma {:induction false} EntryIsTurn(wants: seq<Want>, firing: set<Key>, now: int, n: nat) returns (i: nat)
    requires n < |TransitionsOf(wants, firing, now)|
    ensures i < |wants| && wants[i].on != (wants[i].key in firing)
    ensures TransitionsOf(wants, firing, now)[n] == Entry(wants[i].key, if wants[i].on then Fired else Resolved, wants[i].value, now)
  {
    var m := |wants| - 1;
    if n < |TransitionsOf(wants[..m], firing, now)| {
      i := EntryIsTurn(wants[..m], firing, now, n);
    } else {
      i := m;
    }
  }

  /** A want against its state makes an entry that tells. */
  lemma WantTells(input: BudgetInput, lapsed: seq<Key>, i: nat)
    requires ListsLapsed(input, lapsed) && i < |BudgetWants(input, lapsed)|
    requires var w := BudgetWants(input, lapsed)[i]; w.on != (w.key in input.firing)
    ensures var w := BudgetWants(input, lapsed)[i];
            EntryTells(input, Entry(w.key, if w.on then Fired else Resolved, w.value, input.now))
  {
    var w := BudgetWants(input, lapsed)[i];
    var e := Entry(w.key, if w.on then Fired else Resolved, w.value, input.now);
    if input.budget > 0.0 {
      var a, b, c := |input.thresholds|, |ProjectionWants(input)|, |input.rows|;
      if i < a {
        ThresholdValue(input, a, i);
        assert w == ThresholdWants(input, a)[i];
        assert ThresholdTells(input, i, e);
      } else if i < a + b {
        assert w == ProjectionWants(input)[i - a];
      } else if i < a + b + c {
        RowValue(input, c, i - a - b);
        assert w == RowWants(input, c)[i - a - b];
        assert ShareTells(input, i - a - b, e);
      } else {
        assert w == Offs(lapsed)[i - a - b - c];
        assert lapsed[i - a - b - c] in lapsed;
      }
    } else {
      assert w == Offs(lapsed)[i];
      assert lapsed[i] in lapsed;
    }
  }

  lemma {:induction false} ThresholdValue(input: BudgetInput, n: nat, i: nat)
    requires i < n <= |input.thresholds|
    ensures ThresholdWants(input, n)[i].value == input.spent
  {
    if i < n - 1 {
      ThresholdValue(input, n - 1, i);
    }
  }

  lemma {:induction false} RowValue(input: BudgetInput, n: nat, i: nat)
    requires i < n <= |input.rows| && input.budget > 0.0
    ensures RowWants(input, n)[i].value == input.rows[i].amount / input.budget * 100.0
  {
    if i < n - 1 {
      RowValue(input, n - 1, i);
    }
  }

  lemma BudgetTells(input: BudgetInput, lapsed: seq<Key>)
    requires ListsLapsed(input, lapsed)
    ensures var out := TransitionsOf(BudgetWants(input, lapsed), input.firing, input.now);
            forall n :: 0 <= n < |out| ==> EntryTells(input, out[n])
  {
    var wants := BudgetWants(input, lapsed);
    forall n | 0 <= n < |TransitionsOf(wants, input.firing, input.now)|
      ensures EntryTells(input, TransitionsOf(wants, input.firing, input.now)[n])
    {
      var i := EntryIsTurn(wants, input.firing, input.now, n);
      WantTells(input, lapsed, i);
    }
  }

  method Budget(input: BudgetInput) returns (out: Log)
    ensures forall n :: 0 <= n < |out| ==> EntryTells(input, out[n])
    ensures exists lapsed :: ListsLapsed(input, lapsed)
                             && out == TransitionsOf(BudgetWants(input, lapsed), input.firing, input.now)
  {
    var wants: seq<Want> := [];
    var off := LapsedKeys(input);
    if input.budget > 0.0 {
      for i := 0 to |input.thresholds|
        invariant wants == ThresholdWants(input, i)
      {
        var pct := input.thresholds[i];
        wants := wants + [Want(GuardrailKey(BUDGET, THRESHOLD, Some(pct)), input.spent >= input.budget * pct as real / 100.0,
                               input.spent)];
      }
      var p := Projection(input.today, input.asOf, input.spent);
      if p.Some? {
        var on := p.value > input.budget * 1.05;
        if PROJECTION_KEY in input.firing {
          on := p.value >= input.budget * 0.95;
        }
        wants := wants + [Want(PROJECTION_KEY, on, p.value)];
      } else if PROJECTION_KEY in input.firing {
        wants := wants + [Want(PROJECTION_KEY, false, 0.0)];
      }
      ghost var before := ThresholdWants(input, |input.thresholds|) + ProjectionWants(input);
      assert wants == before;
      for i := 0 to |input.rows|
        invariant wants == before + RowWants(input, i)
      {
        var r := input.rows[i];
        wants := wants + [Want(GuardrailKey(r.resource, SHARE, None), r.amount > ShareLine(input), r.amount / input.budget * 100.0)];
      }
    }
    assert [] + Offs(off) == Offs(off);
    wants := WantOff(wants, off);
    BudgetTells(input, off);
    out := Transitions(wants, input.firing, input.now);
  }

  // ---------- what a budget run leaves behind ----------

  lemma TurnedConcat(a: seq<Want>, b: seq<Want>, firing: set<Key>, k: Key)
    ensures Turned(a + b, firing, k) <==> Turned(a, firing, k) || Turned(b, firing, k)
  {
    if Turned(a, firing, k) {
      var i :| 0 <= i < |a| && a[i].key == k && a[i].on != (k in firing);
      assert (a + b)[i] == a[i];
    }
    if Turned(b, firing, k) {
      var i :| 0 <= i < |b| && b[i].key == k && b[i].on != (k in firing);
      assert (a + b)[|a| + i] == b[i];
    }
    if Turned(a + b, firing, k) {
      var i :| 0 <= i < |a + b| && (a + b)[i].key == k && (a + b)[i].on != (k in firing);
      assert if i < |a| then a[i] == (a + b)[i] else b[i - |a|] == (a + b)[i];
    }
  }

  lemma SettledConcat(a: seq<Want>, b: seq<Want>, firing: set<Key>)
    ensures Settled(a + b, firing) <==> Settled(a, firing) && Settled(b, firing)
  {
    if Settled(a + b, firing) {
      assert forall i :: 0 <= i < |a| ==> (a + b)[i] == a[i];
      assert forall i :: 0 <= i < |b| ==> (a + b)[|a| + i] == b[i];
    }
  }

  /** Which part of the wants can turn a key: its rule says, and for shares whether the resource has a cost row. */
  lemma TurnedBy(input: BudgetInput, lapsed: seq<Key>, k: Key)
    requires input.budget > 0.0 && ListsLapsed(input, lapsed)
    ensures var f := input.firing;
            Turned(BudgetWants(input, lapsed), f, k)
            <==> if k.rule == THRESHOLD then Turned(ThresholdWants(input, |input.thresholds|), f, k)
                 else if k.rule == PROJECTION then Turned(ProjectionWants(input), f, k)
                 else if HasCost(input, k.subject) then Turned(RowWants(input, |input.rows|), f, k)
                 else Turned(Offs(lapsed), f, k)
  {
    var f := input.firing;
    var a, b, c, d := ThresholdWants(input, |input.thresholds|), ProjectionWants(input), RowWants(input, |input.rows|), Offs(lapsed);
    TurnedConcat(a, b, f, k);
    TurnedConcat(a + b, c, f, k);
    TurnedConcat(a + b + c, d, f, k);
    assert Turned(a, f, k) ==> k.rule == THRESHOLD;
    assert Turned(b, f, k) ==> k.rule == PROJECTION;
    assert Turned(c, f, k) ==> k.rule == SHARE && HasCost(input, k.subject);
    assert Turned(d, f, k) ==> Lapsed(input, k);
  }

  predicate RowsAgree(input: BudgetInput) {
    forall i, j :: 0 <= i < |input.rows| && 0 <= j < |input.rows| && input.rows[i].resource == input.rows[j].resource
      ==> (input.rows[i].amount > ShareLine(input) <==> input.rows[j].amount > ShareLine(input))
  }

  /** firing' is what the journal says after the run of `input`. */
  ghost predicate Journaled(input: BudgetInput, lapsed: seq<Key>, firing': set<Key>) {
    forall k :: Flipped(BudgetWants(input, lapsed), input.firing, firing', k)
  }

  lemma ThresholdsSettle(input: BudgetInput, lapsed: seq<Key>, firing': set<Key>)
    requires input.budget > 0.0 && ListsLapsed(input, lapsed) && Journaled(input, lapsed, firing')
    ensures Settled(ThresholdWants(input, |input.thresholds|), firing')
  {
    var wants := ThresholdWants(input, |input.thresholds|);
    forall i | 0 <= i < |wants|
      ensures Flipped(wants, input.firing, firing', wants[i].key)
    {
      TurnedBy(input, lapsed, wants[i].key);
      assert Flipped(BudgetWants(input, lapsed), input.firing, firing', wants[i].key);
    }
    SettlesExactly(wants, input.firing, firing');
  }

  lemma RowsSettle(input: BudgetInput, lapsed: seq<Key>, firing': set<Key>)
    requires input.budget > 0.0 && ListsLapsed(input, lapsed) && Journaled(input, lapsed, firing')
    ensures Settled(RowWants(input, |input.rows|), firing') <==> RowsAgree(input)
  {
    var wants := RowWants(input, |input.rows|);
    forall i | 0 <= i < |wants|
      ensures Flipped(wants, input.firing, firing', wants[i].key)
    {
      TurnedBy(input, lapsed, wants[i].key);
      assert HasCost(input, input.rows[i].resource);
      assert Flipped(BudgetWants(input, lapsed), input.firing, firing', wants[i].key);
    }
    SettlesExactly(wants, input.firing, firing');
    assert Consistent(wants) <==> RowsAgree(input);
  }

  /** Hysteresis does not undo itself: what fired above 105 % is not below 95 %, and the other way round. */
  lemma ProjectionSettles(input: BudgetInput, lapsed: seq<Key>, firing': set<Key>)
    requires input.budget > 0.0 && ListsLapsed(input, lapsed) && Journaled(input, lapsed, firing')
    ensures Settled(ProjectionWants(input.(firing := firing')), firing')
  {
    var wants := ProjectionWants(input);
    TurnedBy(input, lapsed, PROJECTION_KEY);
    assert Flipped(BudgetWants(input, lapsed), input.firing, firing', PROJECTION_KEY);
    assert Turned(wants, input.firing, PROJECTION_KEY) <==> wants != [] && wants[0].on != (PROJECTION_KEY in input.firing);
    assert input.budget * 0.95 < input.budget * 1.05;
  }

  lemma NothingLapses(input: BudgetInput, lapsed: seq<Key>, firing': set<Key>, k: Key)
    requires ListsLapsed(input, lapsed) && Journaled(input, lapsed, firing')
    ensures !Lapsed(input.(firing := firing'), k)
  {
    assert Flipped(BudgetWants(input, lapsed), input.firing, firing', k);
    if input.budget > 0.0 {
      TurnedBy(input, lapsed, k);
    }
    if Lapsed(input, k) {
      var i :| 0 <= i < |lapsed| && lapsed[i] == k;
      assert Offs(lapsed)[i].key == k;
      assert Turned(Offs(lapsed), input.firing, k);
    }
  }

  lemma FirstLapsed(input: BudgetInput, keys: seq<Key>)
    requires ListsLapsed(input, keys)
    ensures keys != [] ==> Lapsed(input, keys[0])
  {
    if keys != [] {
      assert keys[0] in keys;
    }
  }

  /** Running the budget again on the same input, once its output is journaled, says nothing new: exactly when no resource
      has cost rows on both sides of the share line. */
  lemma BudgetSettlesExactly(log: Log, input: BudgetInput, lapsed: seq<Key>, again: seq<Key>)
    requires input.firing == FiringKeys(log) && ListsLapsed(input, lapsed)
    requires var out := TransitionsOf(BudgetWants(input, lapsed), input.firing, input.now);
             ListsLapsed(input.(firing := FiringKeys(log + out)), again)
    ensures var out := TransitionsOf(BudgetWants(input, lapsed), input.firing, input.now);
            var input' := input.(firing := FiringKeys(log + out));
            TransitionsOf(BudgetWants(input', again), input'.firing, input.now) == []
            <==> (input.budget > 0.0 ==> RowsAgree(input))
  {
    var out := TransitionsOf(BudgetWants(input, lapsed), input.firing, input.now);
    var input' := input.(firing := FiringKeys(log + out));
    forall k
      ensures Flipped(BudgetWants(input, lapsed), input.firing, input'.firing, k)
    {
      FiringAfter(log, BudgetWants(input, lapsed), input.now, k);
    }
    FirstLapsed(input', again);
    NothingLapses(input, lapsed, input'.firing, if again == [] then PROJECTION_KEY else again[0]);
    NothingToDo(BudgetWants(input', again), input'.firing, input.now);
    if input.budget > 0.0 {
      SameWants(input, input'.firing);
      ThresholdsSettle(input, lapsed, input'.firing);
      RowsSettle(input, lapsed, input'.firing);
      ProjectionSettles(input, lapsed, input'.firing);
      var a, b, c := ThresholdWants(input, |input.thresholds|), ProjectionWants(input'), RowWants(input, |input.rows|);
      assert BudgetWants(input', again) == a + b + c;
      SettledConcat(a, b, input'.firing);
      SettledConcat(a + b, c, input'.firing);
    }
  }

  ghost predicate SaysThresholds(log: Log, input: BudgetInput) {
    forall i :: 0 <= i < |input.thresholds| ==>
      (FiringIn(log, GuardrailKey(BUDGET, THRESHOLD, Some(input.thresholds[i])))
       <==> input.spent >= input.budget * input.thresholds[i] as real / 100.0)
  }

  ghost predicate SaysShares(log: Log, input: BudgetInput) {
    && (forall i :: 0 <= i < |input.rows| ==>
          (FiringIn(log, GuardrailKey(input.rows[i].resource, SHARE, None)) <==> input.rows[i].amount > ShareLine(input)))
    && forall k: Key :: k.rule == SHARE && !HasCost(input, k.subject) ==> !FiringIn(log, k)
  }

  /** After a run the journal says of thresholds and shares what the figures say, and of a resource no longer billed, or
      without a budget of anything, that it is not firing. */
  lemma BudgetSays(log: Log, input: BudgetInput, lapsed: seq<Key>)
    requires input.firing == FiringKeys(log) && ListsLapsed(input, lapsed) && RowsAgree(input)
    ensures var log' := log + TransitionsOf(BudgetWants(input, lapsed), input.firing, input.now);
            if input.budget > 0.0 then SaysThresholds(log', input) && SaysShares(log', input)
            else forall k: Key :: IsBudgetRule(k.rule) ==> !FiringIn(log', k)
  {
    var log' := log + TransitionsOf(BudgetWants(input, lapsed), input.firing, input.now);
    forall k
      ensures Flipped(BudgetWants(input, lapsed), input.firing, FiringKeys(log'), k)
    {
      FiringAfter(log, BudgetWants(input, lapsed), input.now, k);
    }
    if input.budget > 0.0 {
      ThresholdsSettle(input, lapsed, FiringKeys(log'));
      SettledSays(ThresholdWants(input, |input.thresholds|), log');
      SharesSay(input, lapsed, log');
    } else {
      forall k: Key | IsBudgetRule(k.rule)
        ensures !FiringIn(log', k)
      {
        NothingLapses(input, lapsed, FiringKeys(log'), k);
        assert FiringIn(log', k) ==> Lapsed(input.(firing := FiringKeys(log')), k);
      }
    }
  }

  lemma SharesSay(input: BudgetInput, lapsed: seq<Key>, log: Log)
    requires input.budget > 0.0 && ListsLapsed(input, lapsed) && RowsAgree(input) && Journaled(input, lapsed, FiringKeys(log))
    ensures SaysShares(log, input)
  {
    RowsSettle(input, lapsed, FiringKeys(log));
    SettledSays(RowWants(input, |input.rows|), log);
    forall k: Key | k.rule == SHARE && !HasCost(input, k.subject)
      ensures !FiringIn(log, k)
    {
      NothingLapses(input, lapsed, FiringKeys(log), k);
      assert FiringIn(log, k) ==> Lapsed(input.(firing := FiringKeys(log)), k);
    }
  }

  lemma SettledSays(wants: seq<Want>, log: Log)
    requires Settled(wants, FiringKeys(log))
    ensures forall i :: 0 <= i < |wants| ==> (FiringIn(log, wants[i].key) <==> wants[i].on)
  {
  }

  lemma {:induction false} SameThresholds(input: BudgetInput, firing': set<Key>, n: nat)
    requires n <= |input.thresholds|
    ensures ThresholdWants(input.(firing := firing'), n) == ThresholdWants(input, n)
  {
    if n > 0 {
      SameThresholds(input, firing', n - 1);
    }
  }

  lemma {:induction false} SameRows(input: BudgetInput, firing': set<Key>, n: nat)
    requires n <= |input.rows| && input.budget > 0.0
    ensures RowWants(input.(firing := firing'), n) == RowWants(input, n)
  {
    if n > 0 {
      SameRows(input, firing', n - 1);
    }
  }

  lemma SameWants(input: BudgetInput, firing': set<Key>)
    requires input.budget > 0.0
    ensures ThresholdWants(input.(firing := firing'), |input.thresholds|) == ThresholdWants(input, |input.thresholds|)
    ensures RowWants(input.(firing := firing'), |input.rows|) == RowWants(input, |input.rows|)
  {
    SameThresholds(input, firing', |input.thresholds|);
    SameRows(input, firing', |input.rows|);
  }

  // ---------- journals over whole runs ----------

  predicate DistinctInput(input: BudgetInput) {
    && (forall i, j :: 0 <= i < j < |input.thresholds| ==> input.thresholds[i] != input.thresholds[j])
    && forall i, j :: 0 <= i < j < |input.rows| ==> input.rows[i].resource != input.rows[j].resource
  }

  lemma OnePerKeyConcat(a: seq<Want>, b: seq<Want>)
    requires OnePerKey(a) && OnePerKey(b)
    requires forall i, j :: 0 <= i < |a| && 0 <= j < |b| ==> a[i].key != b[j].key
    ensures OnePerKey(a + b)
  {
    forall i, j | 0 <= i < j < |a + b|
      ensures (a + b)[i].key != (a + b)[j].key
    {
      if i < |a| <= j {
        assert (a + b)[j] == b[j - |a|] && (a + b)[i] == a[i];
      }
    }
  }

  /** Thresholds are deduplicated when they are read; with one cost row per resource no key is wanted twice. */
  lemma BudgetWantsOnce(input: BudgetInput, lapsed: seq<Key>)
    requires DistinctInput(input) && ListsLapsed(input, lapsed)
    ensures OnePerKey(BudgetWants(input, lapsed))
  {
    var d := Offs(lapsed);
    assert OnePerKey(d);
    if input.budget > 0.0 {
      var a, b, c := ThresholdWants(input, |input.thresholds|), ProjectionWants(input), RowWants(input, |input.rows|);
      OnePerKeyConcat(a, b);
      RulesOf(input);
      OnePerKeyConcat(a + b, c);
      forall i, j | 0 <= i < |a + b + c| && 0 <= j < |d|
        ensures (a + b + c)[i].key != d[j].key
      {
        assert lapsed[j] in lapsed;
        if i >= |a + b| {
          assert (a + b + c)[i] == c[i - |a + b|];
          assert HasCost(input, input.rows[i - |a + b|].resource);
        }
      }
      OnePerKeyConcat(a + b + c, d);
    }
  }

  lemma RulesOf(input: BudgetInput)
    requires input.budget > 0.0
    ensures var ab := ThresholdWants(input, |input.thresholds|) + ProjectionWants(input);
            forall i :: 0 <= i < |ab| ==> ab[i].key.rule == THRESHOLD || ab[i].key.rule == PROJECTION
  {
  }

  /** One budget run at a time, each on what the journal then says. */
  ghost predicate IsRun(logs: seq<Log>, inputs: seq<BudgetInput>, lapsed: seq<seq<Key>>) {
    && |logs| == |inputs| + 1 == |lapsed| + 1 && logs[0] == []
    && forall k :: 0 <= k < |inputs| ==> RunAt(logs, inputs, lapsed, k)
  }

  ghost predicate RunAt(logs: seq<Log>, inputs: seq<BudgetInput>, lapsed: seq<seq<Key>>, k: int)
    requires |logs| == |inputs| + 1 == |lapsed| + 1 && 0 <= k < |inputs|
  {
    && inputs[k].firing == FiringKeys(logs[k]) && DistinctInput(inputs[k]) && ListsLapsed(inputs[k], lapsed[k])
    && logs[k + 1] == logs[k] + TransitionsOf(BudgetWants(inputs[k], lapsed[k]), inputs[k].firing, inputs[k].now)
  }

  /** Every rule instance's history alternates, fired first, however the figures move. */
  lemma {:induction false} BudgetRunsAlternate(logs: seq<Log>, inputs: seq<BudgetInput>, lapsed: seq<seq<Key>>, k: nat)
    requires IsRun(logs, inputs, lapsed) && k < |logs|
    ensures AllAlternate(logs[k])
  {
    if k > 0 {
      BudgetRunsAlternate(logs, inputs, lapsed, k - 1);
      assert RunAt(logs, inputs, lapsed, k - 1);
      BudgetWantsOnce(inputs[k - 1], lapsed[k - 1]);
      TransitionsAlternate(logs[k - 1], BudgetWants(inputs[k - 1], lapsed[k - 1]), inputs[k - 1].now);
    }
  }

  function ProjectionOf(input: BudgetInput): Option<real> {
    Projection(input.today, input.asOf, input.spent)
  }

  /** The projection's state after one run, with a budget set. */
  lemma ProjectionMoves(logs: seq<Log>, inputs: seq<BudgetInput>, lapsed: seq<seq<Key>>, k: nat)
    requires IsRun(logs, inputs, lapsed) && k < |inputs| && inputs[k].budget > 0.0
    ensures var p, b := ProjectionOf(inputs[k]), inputs[k].budget;
            FiringIn(logs[k + 1], PROJECTION_KEY)
            <==> p.Some? && if FiringIn(logs[k], PROJECTION_KEY) then p.value >= b * 0.95 else p.value > b * 1.05
  {
    assert RunAt(logs, inputs, lapsed, k);
    var input := inputs[k];
    FiringAfter(logs[k], BudgetWants(input, lapsed[k]), input.now, PROJECTION_KEY);
    TurnedBy(input, lapsed[k], PROJECTION_KEY);
    var wants := ProjectionWants(input);
    assert Turned(wants, input.firing, PROJECTION_KEY) <==> wants != [] && wants[0].on != (PROJECTION_KEY in input.firing);
    assert FiringIn(logs[k + 1], PROJECTION_KEY) <==> PROJECTION_KEY in FiringKeys(logs[k + 1]);
  }

  ghost predicate ProjectionStays(logs: seq<Log>, from: int, until: int)
    requires 0 <= from <= until < |logs|
  {
    forall k :: from < k <= until ==> FiringIn(logs[k], PROJECTION_KEY)
  }

  /** From the run i that fires the projection to the run j that next resolves it, it went from above 105 % of the budget to
      below 95 %, or became unavailable; at every run in between it was known and at 95 % or more. */
  lemma Hysteresis(logs: seq<Log>, inputs: seq<BudgetInput>, lapsed: seq<seq<Key>>, i: nat, j: nat, budget: real)
    requires IsRun(logs, inputs, lapsed) && i < j < |inputs| && budget > 0.0
    requires forall k :: 0 <= k < |inputs| ==> inputs[k].budget == budget
    requires !FiringIn(logs[i], PROJECTION_KEY) && ProjectionStays(logs, i, j) && !FiringIn(logs[j + 1], PROJECTION_KEY)
    ensures ProjectionOf(inputs[i]).Some? && ProjectionOf(inputs[i]).value > budget * 1.05
    ensures ProjectionOf(inputs[j]).None? || ProjectionOf(inputs[j]).value < budget * 0.95
    ensures forall k :: i < k < j ==> ProjectionOf(inputs[k]).Some? && ProjectionOf(inputs[k]).value >= budget * 0.95
  {
    ProjectionMoves(logs, inputs, lapsed, i);
    ProjectionMoves(logs, inputs, lapsed, j);
    assert FiringIn(logs[i + 1], PROJECTION_KEY) && FiringIn(logs[j], PROJECTION_KEY);
    forall k | i < k < j
      ensures ProjectionOf(inputs[k]).Some? && ProjectionOf(inputs[k]).value >= budget * 0.95
    {
      ProjectionMoves(logs, inputs, lapsed, k);
      assert FiringIn(logs[k], PROJECTION_KEY) && FiringIn(logs[k + 1], PROJECTION_KEY);
    }
  }

  // ---------- orphans ----------

  predicate IsOrphan(reason: string) {
    reason != "" && reason != "unverified"
  }

  function OrphanKey(resource: string): Key {
    GuardrailKey(resource, ORPHAN, None)
  }

  /** Firing, and its resource no longer seen by the sweep. */
  predicate Vanished(reasons: map<string, string>, firing: set<Key>, k: Key) {
    k in firing && k.rule == ORPHAN && k.subject !in reasons
  }

  /** The wants of a sweep in whatever order its two maps are read. */
  ghost predicate OrphanWants(reasons: map<string, string>, firing: set<Key>, wants: seq<Want>) {
    && OnePerKey(wants)
    && forall w :: w in wants <==>
         || (w.key.subject in reasons && w == Want(OrphanKey(w.key.subject), IsOrphan(reasons[w.key.subject]), 0.0))
         || (Vanished(reasons, firing, w.key) && w == Want(w.key, false, 0.0))
  }

  method Orphans(reasons: map<string, string>, firing: set<Key>, now: int) returns (out: Log)
    ensures exists wants :: OrphanWants(reasons, firing, wants) && out == TransitionsOf(wants, firing, now)
  {
    var wants: seq<Want> := [];
    var ids := reasons.Keys;
    while ids != {}
      invariant ids <= reasons.Keys && OnePerKey(wants)
      invariant forall w :: w in wants <==>
                  w.key.subject in reasons.Keys - ids && w == Want(OrphanKey(w.key.subject), IsOrphan(reasons[w.key.subject]), 0.0)
    {
      Sets.SomeMember(ids);
      var id :| id in ids;
      ids := ids - {id};
      assert forall w :: w in wants ==> w.key != OrphanKey(id);
      wants := wants + [Want(OrphanKey(id), IsOrphan(reasons[id]), 0.0)];
    }
    ghost var spoken := wants;
    var keys := firing;
    while keys != {}
      invariant keys <= firing && OnePerKey(wants)
      invariant forall w :: w in wants <==>
                  w in spoken || (w.key in firing - keys && Vanished(reasons, firing, w.key) && w == Want(w.key, false, 0.0))
    {
      Sets.SomeMember(keys);
      var k :| k in keys;
      keys := keys - {k};
      if Vanished(reasons, firing, k) {
        assert forall w :: w in wants ==> w.key != k;
        wants := wants + [Want(k, false, 0.0)];
      }
    }
    out := Transitions(wants, firing, now);
  }

  /** A sweep's orphans, journaled once, are said once; the journal says a resource is an orphan exactly when the sweep does,
      unverified counting as no; and every history goes on alternating. */
  lemma OrphansSettle(log: Log, reasons: map<string, string>, wants: seq<Want>, again: seq<Want>, now: int)
    requires AllAlternate(log) && OrphanWants(reasons, FiringKeys(log), wants)
    requires var log' := log + TransitionsOf(wants, FiringKeys(log), now);
             OrphanWants(reasons, FiringKeys(log'), again)
    ensures var log' := log + TransitionsOf(wants, FiringKeys(log), now);
            && AllAlternate(log')
            && (forall id :: FiringIn(log', GuardrailKey(id, "orphan", None))
                             <==> id in reasons && reasons[id] != "" && reasons[id] != "unverified")
            && TransitionsOf(again, FiringKeys(log'), now) == []
  {
    var firing := FiringKeys(log);
    var log' := log + TransitionsOf(wants, firing, now);
    TransitionsAlternate(log, wants, now);
    forall k: Key | k.rule == ORPHAN
      ensures k in FiringKeys(log') <==>
                if k.subject !in reasons then false else if k.detail.None? then IsOrphan(reasons[k.subject]) else k in firing
    {
      OrphanAfter(log, reasons, wants, now, k);
    }
    forall i | 0 <= i < |again|
      ensures again[i].on == (again[i].key in FiringKeys(log'))
    {
      assert again[i] in again;
    }
    NothingToDo(again, FiringKeys(log'), now);
    forall id
      ensures FiringIn(log', OrphanKey(id)) <==> id in reasons && IsOrphan(reasons[id])
    {
      assert OrphanKey(id).rule == ORPHAN;
      assert FiringIn(log', OrphanKey(id)) <==> OrphanKey(id) in FiringKeys(log');
    }
  }

  lemma OrphanAfter(log: Log, reasons: map<string, string>, wants: seq<Want>, now: int, k: Key)
    requires OrphanWants(reasons, FiringKeys(log), wants) && k.rule == ORPHAN
    ensures k in FiringKeys(log + TransitionsOf(wants, FiringKeys(log), now)) <==>
              if k.subject !in reasons then false
              else if k.detail.None? then IsOrphan(reasons[k.subject]) else k in FiringKeys(log)
  {
    FiringAfter(log, wants, now, k);
    if Turned(wants, FiringKeys(log), k) {
      var i :| 0 <= i < |wants| && wants[i].key == k && wants[i].on != (k in FiringKeys(log));
      assert wants[i] in wants;
    }
    if k.subject in reasons && k.detail.None? {
      WantTurns(wants, FiringKeys(log), Want(k, IsOrphan(reasons[k.subject]), 0.0));
    } else if Vanished(reasons, FiringKeys(log), k) {
      WantTurns(wants, FiringKeys(log), Want(k, false, 0.0));
    }
  }

  lemma WantTurns(wants: seq<Want>, firing: set<Key>, w: Want)
    requires w in wants
    ensures w.on != (w.key in firing) ==> Turned(wants, firing, w.key)
  {
    var i :| 0 <= i < |wants| && wants[i] == w;
  }
}
