/**
 One evaluation of every rule against every host, runs of them with restarts anywhere, and what the log then says.
 */
module Evaluation {
  import opened Journal
  import opened Alerts
  import opened Options
  import Sets

  datatype Observation = Observation(breached: bool, hold: int, value: real)

  /** Host ids and rule ids are primary keys, and no stored rule takes the offline rule's number. */
  ghost predicate WellFormed(input: Input) {
    && (forall i, j :: 0 <= i < j < |input.hosts| ==> input.hosts[i].id != input.hosts[j].id)
    && (forall i, j :: 0 <= i < j < |input.rules| ==> input.rules[i].id != input.rules[j].id)
    && (forall i :: 0 <= i < |input.rules| ==> input.rules[i].id != STATUS_RULE)
  }

  predicate Fresh(input: Input, host: int) {
    host in input.latest && input.now - input.latest[host].at <= 2 * input.interval
  }

  /** What one evaluation observes of one key of one host, if anything. */
  function StatusObservation(h: Host): Option<Observation> {
    if h.muted || h.status == "never_seen" then None
    else Some(Observation(h.status == "offline", 0, if h.status == "offline" then 1.0 else 0.0))
  }

  function RuleObservation(input: Input, h: Host, r: Rule): Option<Observation> {
    if h.muted || !Fresh(input, h.id) then None
    else
      var v := Metric(r.metric, input.latest[h.id], h);
      if v.None? then None else Some(Observation(v.value > r.threshold, r.hold, v.value))
  }

  predicate InForce(input: Input, h: Host, r: Rule) {
    r.metric in Chosen(input.rules, h.id) && Chosen(input.rules, h.id)[r.metric] == r
  }

  /** What one evaluation observes of a key: nothing when the host is gone, muted or silent, when the metric was not
      collected, or when the rule is not the one in force. */
  ghost function Observed(input: Input, k: Key): Option<Observation> {
    if h :| h in input.hosts && h.id == k.host then
      if k.rule == STATUS_RULE then StatusObservation(h)
      else if r :| r in input.rules && r.id == k.rule && InForce(input, h, r) then RuleObservation(input, h, r)
      else None
    else None
  }

  function CellAfter(c: Cell, o: Option<Observation>, now: int): Cell {
    if o.None? then c else Seen(c, o.value.breached, now, o.value.hold).0
  }

  function ChangeOf(c: Cell, o: Option<Observation>, now: int): Option<Change> {
    if o.None? then None else Seen(c, o.value.breached, now, o.value.hold).1
  }

  function ChangesFor(c: Cell, o: Option<Observation>, now: int): seq<Change> {
    var ch := ChangeOf(c, o, now);
    if ch.None? then [] else [ch.value]
  }

  /** The machine and the events after the keys of `done` have been observed, and no other. */
  ghost predicate Tracks(input: Input, before: Cells, done: iset<Key>, cells: Cells, out: seq<Entry<Key>>) {
    (forall k :: TracksKey(input, before, done, cells, out, k)) && Dated(input, out)
  }

  ghost predicate TracksKey(input: Input, before: Cells, done: iset<Key>, cells: Cells, out: seq<Entry<Key>>, k: Key) {
    if k in done then
      && CellAt(cells, k) == CellAfter(CellAt(before, k), Observed(input, k), input.now)
      && ChangesOf(out, k) == ChangesFor(CellAt(before, k), Observed(input, k), input.now)
    else CellAt(cells, k) == CellAt(before, k) && ChangesOf(out, k) == []
  }

  /** Every event is of this instant and carries the value observed. */
  ghost predicate Dated(input: Input, out: seq<Entry<Key>>) {
    forall i :: 0 <= i < |out| ==> out[i].at == input.now && Observed(input, out[i].key).Some?
                                   && out[i].value == Observed(input, out[i].key).value.value
  }

  function Reported(out: seq<Entry<Key>>, k: Key, change: Option<Change>, value: real, now: int): seq<Entry<Key>> {
    if change.None? then out else out + [Entry(k, change.value, value, now)]
  }

  lemma TrackOne(input: Input, before: Cells, done: iset<Key>, cells: Cells, out: seq<Entry<Key>>, k: Key, o: Observation,
                 cells': Cells, out': seq<Entry<Key>>)
    requires Tracks(input, before, done, cells, out) && k !in done && Observed(input, k) == Some(o)
    requires cells' == cells[k := Seen(CellAt(cells, k), o.breached, input.now, o.hold).0]
    requires out' == Reported(out, k, Seen(CellAt(cells, k), o.breached, input.now, o.hold).1, o.value, input.now)
    ensures Tracks(input, before, done + iset{k}, cells', out')
  {
    forall j
      ensures TracksKey(input, before, done + iset{k}, cells', out', j)
    {
      assert TracksKey(input, before, done, cells, out, j);
      ReportedChanges(out, k, Seen(CellAt(cells, k), o.breached, input.now, o.hold).1, o.value, input.now, j);
    }
  }

  lemma ReportedChanges(out: seq<Entry<Key>>, k: Key, change: Option<Change>, value: real, now: int, j: Key)
    ensures ChangesOf(Reported(out, k, change, value, now), j)
            == ChangesOf(out, j) + if j == k && change.Some? then [change.value] else []
  {
    if change.Some? {
      ChangesSnoc(out, Entry(k, change.value, value, now), j);
    }
  }

  lemma ObservedStatus(input: Input, i: nat)
    requires WellFormed(input) && i < |input.hosts|
    ensures Observed(input, Key(STATUS_RULE, input.hosts[i].id)) == StatusObservation(input.hosts[i])
  {
  }

  lemma ObservedRule(input: Input, i: nat, r: Rule)
    requires WellFormed(input) && i < |input.hosts| && InForce(input, input.hosts[i], r)
    ensures r in input.rules && r.id != STATUS_RULE
    ensures Observed(input, Key(r.id, input.hosts[i].id)) == RuleObservation(input, input.hosts[i], r)
  {
    ChosenIsMostSpecific(input.rules, input.hosts[i].id, r.metric);
  }

  /** What Evaluate has to have done: every key observed once, none twice. */
  ghost predicate Evaluated(input: Input, before: Cells, cells: Cells, out: seq<Entry<Key>>) {
    && (forall k :: CellAt(cells, k) == CellAfter(CellAt(before, k), Observed(input, k), input.now))
    && (forall k :: ChangesOf(out, k) == ChangesFor(CellAt(before, k), Observed(input, k), input.now))
    && Dated(input, out)
  }

  // ---------- what that comes to, host by host and rule by rule ----------

  /** What a key's state becomes, and what is said, when it is seen over its line or not: a firing key resolves unless it is, a
      key that was fine fires at once without a duration and waits with one, and a waiting one fires once that has passed. */
  predicate Judged(c: Cell, c': Cell, said: seq<Change>, over: bool, now: int, hold: int) {
    match c.state
    case Ok =>
      && said == (if over && hold <= 0 then [Fired] else [])
      && c'.state == (if !over then Ok else if hold <= 0 then Firing else State.Pending) && (over ==> c'.since == now)
    case Pending =>
      && said == (if over && now - c.since >= hold then [Fired] else [])
      && c'.state == (if !over then Ok else if now - c.since >= hold then Firing else State.Pending) && (over ==> c'.since == c.since)
    case Firing => said == (if over then [] else [Resolved]) && c'.state == if over then Firing else Ok
  }

  /** An unmuted host with a status is offline or not, and rule 0 says so at once. */
  ghost predicate HostJudged(input: Input, before: Cells, cells: Cells, out: seq<Entry<Key>>, h: Host) {
    var k := Key(0, h.id);
    if h.muted || h.status == "never_seen" then CellAt(cells, k) == CellAt(before, k) && ChangesOf(out, k) == []
    else
      && Judged(CellAt(before, k), CellAt(cells, k), ChangesOf(out, k), h.status == "offline", input.now, 0)
      && forall n :: 0 <= n < |out| && out[n].key == k ==>
           out[n].at == input.now && out[n].value == if h.status == "offline" then 1.0 else 0.0
  }

  /** A rule that governs a host judges the value of its metric in a sample at most two intervals old; muted, silent or not
      collected, nothing is judged. */
  ghost predicate RuleJudged(input: Input, before: Cells, cells: Cells, out: seq<Entry<Key>>, h: Host, r: Rule) {
    var k := Key(r.id, h.id);
    if !h.muted && h.id in input.latest && input.now - input.latest[h.id].at <= 2 * input.interval
       && exists v :: IsValue(r.metric, input.latest[h.id], h, v)
    then
      forall v :: IsValue(r.metric, input.latest[h.id], h, v) ==>
        && Judged(CellAt(before, k), CellAt(cells, k), ChangesOf(out, k), v > r.threshold, input.now, r.hold)
        && forall n :: 0 <= n < |out| && out[n].key == k ==> out[n].value == v && out[n].at == input.now
    else CellAt(cells, k) == CellAt(before, k) && ChangesOf(out, k) == []
  }

  /** Every host by rule 0 and by the rules that govern it, and no key besides. */
  ghost predicate AllJudged(input: Input, before: Cells, cells: Cells, out: seq<Entry<Key>>) {
    && (forall i :: 0 <= i < |input.hosts| ==> HostJudged(input, before, cells, out, input.hosts[i]))
    && (forall i, j :: 0 <= i < |input.hosts| && Governs(input.rules, input.hosts[i].id, j) ==>
          RuleJudged(input, before, cells, out, input.hosts[i], input.rules[j]))
    && forall k :: !Concerns(input, k) ==> CellAt(cells, k) == CellAt(before, k) && ChangesOf(out, k) == []
  }

  ghost predicate Concerns(input: Input, k: Key) {
    exists i :: 0 <= i < |input.hosts| && input.hosts[i].id == k.host
                && (k.rule == 0 || exists j :: Governs(input.rules, k.host, j) && input.rules[j].id == k.rule)
  }

  lemma ObservedConcerns(input: Input, k: Key)
    requires WellFormed(input) && Observed(input, k).Some?
    ensures Concerns(input, k)
  {
    var h :| h in input.hosts && h.id == k.host;
    var i :| 0 <= i < |input.hosts| && input.hosts[i] == h;
    if k.rule != STATUS_RULE {
      var r :| r in input.rules && r.id == k.rule && InForce(input, h, r);
      var j := ChosenGoverns(input.rules, h.id, r.metric);
    }
  }

  lemma ObservedOfRule(input: Input, i: nat, j: nat)
    requires WellFormed(input) && i < |input.hosts| && Governs(input.rules, input.hosts[i].id, j)
    ensures Observed(input, Key(input.rules[j].id, input.hosts[i].id)) == RuleObservation(input, input.hosts[i], input.rules[j])
  {
    GovernsIsChosen(input.rules, input.hosts[i].id, j);
    ObservedRule(input, i, input.rules[j]);
  }

  lemma RuleIsJudged(input: Input, before: Cells, cells: Cells, out: seq<Entry<Key>>, i: nat, j: nat)
    requires WellFormed(input) && Evaluated(input, before, cells, out)
    requires i < |input.hosts| && Governs(input.rules, input.hosts[i].id, j)
    ensures RuleJudged(input, before, cells, out, input.hosts[i], input.rules[j])
  {
    var h, r := input.hosts[i], input.rules[j];
    ObservedOfRule(input, i, j);
    if h.id in input.latest {
      forall v
        ensures IsValue(r.metric, input.latest[h.id], h, v) <==> Metric(r.metric, input.latest[h.id], h) == Some(v)
      {
        MetricIsValue(r.metric, input.latest[h.id], h, v);
      }
    }
  }

  lemma EvaluatedJudges(input: Input, before: Cells, cells: Cells, out: seq<Entry<Key>>)
    requires WellFormed(input) && Evaluated(input, before, cells, out)
    ensures AllJudged(input, before, cells, out)
  {
    forall i | 0 <= i < |input.hosts|
      ensures HostJudged(input, before, cells, out, input.hosts[i])
    {
      ObservedStatus(input, i);
    }
    forall i, j | 0 <= i < |input.hosts| && Governs(input.rules, input.hosts[i].id, j)
      ensures RuleJudged(input, before, cells, out, input.hosts[i], input.rules[j])
    {
      RuleIsJudged(input, before, cells, out, i, j);
    }
    forall k | !Concerns(input, k)
      ensures Observed(input, k).None?
    {
      if Observed(input, k).Some? {
        ObservedConcerns(input, k);
      }
    }
  }

  // ---------- the code ----------

  ghost predicate OnlyHosts(input: Input, n: nat, done: iset<Key>)
    requires n <= |input.hosts|
  {
    forall k :: k in done ==> exists j :: 0 <= j < n && input.hosts[j].id == k.host
  }

  ghost predicate AllOfHosts(input: Input, n: nat, done: iset<Key>)
    requires n <= |input.hosts|
  {
    forall j, k: Key :: 0 <= j < n && k.host == input.hosts[j].id && Observed(input, k).Some? ==> k in done
  }

  /** Within one host: only its earlier hosts, its own offline rule and the rules of `metrics` have been observed. */
  ghost predicate OnlyMetrics(input: Input, i: nat, chosen: map<string, Rule>, metrics: set<string>, before: iset<Key>, done: iset<Key>)
    requires i < |input.hosts|
  {
    forall k :: k in done ==>
      || k in before
      || (k.host == input.hosts[i].id
          && (k.rule == STATUS_RULE || exists metric :: metric in metrics && metric in chosen && chosen[metric].id == k.rule))
  }

  ghost predicate AllOfMetrics(input: Input, i: nat, chosen: map<string, Rule>, metrics: set<string>, done: iset<Key>)
    requires i < |input.hosts|
  {
    forall metric :: metric in metrics && metric in chosen && RuleObservation(input, input.hosts[i], chosen[metric]).Some?
      ==> Key(chosen[metric].id, input.hosts[i].id) in done
  }

  lemma NotYetObserved(input: Input, i: nat, chosen: map<string, Rule>, metrics: set<string>, before: iset<Key>, done: iset<Key>,
                       metric: string)
    requires WellFormed(input) && i < |input.hosts| && chosen == Chosen(input.rules, input.hosts[i].id)
    requires OnlyHosts(input, i, before) && OnlyMetrics(input, i, chosen, metrics, before, done)
    requires metric in chosen && metric !in metrics
    ensures Key(chosen[metric].id, input.hosts[i].id) !in done
  {
    ChosenIsMostSpecific(input.rules, input.hosts[i].id, metric);
    var k := Key(chosen[metric].id, input.hosts[i].id);
    if k in done {
      if k !in before {
        var other :| other in metrics && other in chosen && chosen[other].id == k.rule;
        ChosenIsMostSpecific(input.rules, input.hosts[i].id, other);
      }
    }
  }

  lemma HostDone(input: Input, i: nat, chosen: map<string, Rule>, done: iset<Key>)
    requires WellFormed(input) && i < |input.hosts| && chosen == Chosen(input.rules, input.hosts[i].id)
    requires AllOfMetrics(input, i, chosen, chosen.Keys, done)
    requires StatusObservation(input.hosts[i]).Some? ==> Key(STATUS_RULE, input.hosts[i].id) in done
    ensures forall k: Key :: k.host == input.hosts[i].id && Observed(input, k).Some? ==> k in done
  {
    forall k: Key | k.host == input.hosts[i].id && Observed(input, k).Some?
      ensures k in done
    {
      if k.rule == STATUS_RULE {
        ObservedStatus(input, i);
      } else {
        var r :| r in input.rules && r.id == k.rule && InForce(input, input.hosts[i], r);
        ObservedRule(input, i, r);
      }
    }
  }

  method Evaluate(m: Machine, input: Input) returns (out: seq<Entry<Key>>)
    requires WellFormed(input)
    modifies m
    ensures Evaluated(input, old(m.cells), m.cells, out)
    ensures AllJudged(input, old(m.cells), m.cells, out)
  {
    out := [];
    ghost var start := m.cells;
    ghost var done: iset<Key> := iset{};
    for i := 0 to |input.hosts|
      invariant Tracks(input, start, done, m.cells, out)
      invariant OnlyHosts(input, i, done) && AllOfHosts(input, i, done)
    {
      out, done := EvaluateHost(m, input, i, start, done, out);
    }
    EverythingDone(input, start, done, m.cells, out);
    EvaluatedJudges(input, start, m.cells, out);
  }

  /** One host: the offline rule, then its rules when its sample is fresh. */
  method EvaluateHost(m: Machine, input: Input, i: nat, ghost start: Cells, ghost before: iset<Key>, events: seq<Entry<Key>>)
    returns (out: seq<Entry<Key>>, ghost done: iset<Key>)
    requires WellFormed(input) && i < |input.hosts|
    requires Tracks(input, start, before, m.cells, events) && OnlyHosts(input, i, before) && AllOfHosts(input, i, before)
    modifies m
    ensures Tracks(input, start, done, m.cells, out)
    ensures OnlyHosts(input, i + 1, done) && AllOfHosts(input, i + 1, done)
  {
    var h := input.hosts[i];
    out, done := EvaluateStatus(m, input, i, start, before, events);
    if !h.muted && h.id in input.latest && input.now - input.latest[h.id].at <= 2 * input.interval {
      out, done := EvaluateRules(m, input, i, start, before, done, out);
    }
    HostDone(input, i, Chosen(input.rules, h.id), done);
    OneMoreHost(input, i, Chosen(input.rules, h.id), before, done);
  }

  lemma OneMoreHost(input: Input, i: nat, chosen: map<string, Rule>, before: iset<Key>, done: iset<Key>)
    requires i < |input.hosts| && before <= done
    requires OnlyHosts(input, i, before) && AllOfHosts(input, i, before)
    requires OnlyMetrics(input, i, chosen, chosen.Keys, before, done)
    requires forall k: Key :: k.host == input.hosts[i].id && Observed(input, k).Some? ==> k in done
    ensures OnlyHosts(input, i + 1, done) && AllOfHosts(input, i + 1, done)
  {
    forall k | k in done
      ensures exists j :: 0 <= j < i + 1 && input.hosts[j].id == k.host
    {
      if k in before {
        var j :| 0 <= j < i && input.hosts[j].id == k.host;
      }
    }
  }

  /** The implicit offline rule of one host. */
  method EvaluateStatus(m: Machine, input: Input, i: nat, ghost start: Cells, ghost entered: iset<Key>, events: seq<Entry<Key>>)
    returns (out: seq<Entry<Key>>, ghost done: iset<Key>)
    requires WellFormed(input) && i < |input.hosts|
    requires Tracks(input, start, entered, m.cells, events) && Key(STATUS_RULE, input.hosts[i].id) !in entered
    modifies m
    ensures Tracks(input, start, done, m.cells, out)
    ensures done == if StatusObservation(input.hosts[i]).Some? then entered + iset{Key(STATUS_RULE, input.hosts[i].id)} else entered
  {
    var h := input.hosts[i];
    out, done := events, entered;
    ObservedStatus(input, i);
    if h.status != "never_seen" && !h.muted {
      var breached := h.status == "offline";
      ghost var cells := m.cells;
      var tr := m.Observe(Key(STATUS_RULE, h.id), breached, input.now, 0);
      if tr.Some? {
        out := out + [Entry(Key(STATUS_RULE, h.id), tr.value, if breached then 1.0 else 0.0, input.now)];
      }
      TrackOne(input, start, entered, cells, events, Key(STATUS_RULE, h.id), StatusObservation(h).value, m.cells, out);
      done := entered + iset{Key(STATUS_RULE, h.id)};
    }
  }

  /** The rules of one host whose sample is fresh, in whatever order the metrics come. */
  method EvaluateRules(m: Machine, input: Input, i: nat, ghost start: Cells, ghost before: iset<Key>, ghost entered: iset<Key>,
                       events: seq<Entry<Key>>)
    returns (out: seq<Entry<Key>>, ghost done: iset<Key>)
    requires WellFormed(input) && i < |input.hosts| && !input.hosts[i].muted && Fresh(input, input.hosts[i].id)
    requires Tracks(input, start, entered, m.cells, events)
    requires OnlyHosts(input, i, before) && before <= entered
    requires OnlyMetrics(input, i, Chosen(input.rules, input.hosts[i].id), {}, before, entered)
    modifies m
    ensures Tracks(input, start, done, m.cells, out) && entered <= done
    ensures OnlyMetrics(input, i, Chosen(input.rules, input.hosts[i].id), Chosen(input.rules, input.hosts[i].id).Keys, before, done)
    ensures AllOfMetrics(input, i, Chosen(input.rules, input.hosts[i].id), Chosen(input.rules, input.hosts[i].id).Keys, done)
  {
    var h := input.hosts[i];
    var row := input.latest[h.id];
    var byMetric := Applicable(input.rules, h.id);
    var remaining := byMetric.Keys;
    out, done := events, entered;
    while remaining != {}
      invariant remaining <= byMetric.Keys && entered <= done
      invariant Tracks(input, start, done, m.cells, out)
      invariant OnlyMetrics(input, i, byMetric, byMetric.Keys - remaining, before, done)
      invariant AllOfMetrics(input, i, byMetric, byMetric.Keys - remaining, done)
    {
      Sets.SomeMember(remaining);
      var metric :| metric in remaining;
      NotYetObserved(input, i, byMetric, byMetric.Keys - remaining, before, done, metric);
      remaining := remaining - {metric};
      out, done := EvaluateRule(m, input, i, start, done, out, metric, byMetric[metric]);
    }
  }

  method EvaluateRule(m: Machine, input: Input, i: nat, ghost start: Cells, ghost entered: iset<Key>, events: seq<Entry<Key>>,
                      metric: string, r: Rule)
    returns (out: seq<Entry<Key>>, ghost done: iset<Key>)
    requires WellFormed(input) && i < |input.hosts| && !input.hosts[i].muted && Fresh(input, input.hosts[i].id)
    requires Tracks(input, start, entered, m.cells, events)
    requires metric in Chosen(input.rules, input.hosts[i].id) && Chosen(input.rules, input.hosts[i].id)[metric] == r
    requires Key(r.id, input.hosts[i].id) !in entered
    modifies m
    ensures Tracks(input, start, done, m.cells, out)
    ensures done == if RuleObservation(input, input.hosts[i], r).Some? then entered + iset{Key(r.id, input.hosts[i].id)} else entered
  {
    var h := input.hosts[i];
    ghost var cells := m.cells;
    out, done := events, entered;
    ChosenIsMostSpecific(input.rules, h.id, metric);
    ObservedRule(input, i, r);
    var v := MetricValue(r.metric, input.latest[h.id], h);
    if v.Some? {
      var tr := m.Observe(Key(r.id, h.id), v.value > r.threshold, input.now, r.hold);
      if tr.Some? {
        out := out + [Entry(Key(r.id, h.id), tr.value, v.value, input.now)];
      }
      TrackOne(input, start, entered, cells, events, Key(r.id, h.id), RuleObservation(input, h, r).value, m.cells, out);
      done := entered + iset{Key(r.id, h.id)};
    }
  }

  lemma EverythingDone(input: Input, before: Cells, done: iset<Key>, cells: Cells, out: seq<Entry<Key>>)
    requires Tracks(input, before, done, cells, out) && AllOfHosts(input, |input.hosts|, done)
    ensures Evaluated(input, before, cells, out)
  {
    forall k
      ensures TracksKey(input, before, done, cells, out, k) && (k in done || Observed(input, k).None?)
    {
      if Observed(input, k).Some? {
        var h :| h in input.hosts && h.id == k.host;
      }
    }
  }
}
