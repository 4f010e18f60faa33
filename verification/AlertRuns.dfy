/**
 Runs of evaluations, with the hub stopping and starting anywhere, and what the log and the machine agree on.
 */
module AlertRuns {
  import opened Journal
  import opened Alerts
  import opened Options
  import opened Evaluation

  // ---------- restarts ----------

  /** The machine, the log, and the events an evaluation returned that are not in the log yet. */
  datatype Life = Life(cells: Cells, log: seq<Entry<Key>>, waiting: seq<Entry<Key>>)

  ghost predicate EvaluateStep(l: Life, l': Life, input: Input) {
    && l.waiting == []
    && l'.log == l.log
    && Evaluated(input, l.cells, l'.cells, l'.waiting)
  }

  predicate InsertStep(l: Life, l': Life) {
    l.waiting != [] && l' == Life(l.cells, l.log + [l.waiting[0]], l.waiting[1..])
  }

  /** A new process: a machine restored from the log, whatever was waiting lost. */
  ghost predicate RestartStep(l: Life, l': Life) {
    && l'.log == l.log && l'.waiting == []
    && forall k :: CellAt(l'.cells, k) == if k in FiringKeys(l.log) then Cell(Firing, 0) else Cell(Ok, 0)
  }

  ghost predicate Next(l: Life, l': Life) {
    (exists input :: EvaluateStep(l, l', input)) || InsertStep(l, l') || RestartStep(l, l')
  }

  ghost predicate StepAt(run: seq<Life>, i: int)
    requires 0 <= i < |run| - 1
  {
    Next(run[i], run[i + 1])
  }

  ghost predicate IsRun(run: seq<Life>) {
    && run != [] && run[0] == Life(map[], [], [])
    && forall i :: 0 <= i < |run| - 1 ==> StepAt(run, i)
  }

  method Restart(log: seq<Entry<Key>>) returns (m: Machine)
    ensures fresh(m)
    ensures forall k :: CellAt(m.cells, k) == if k in FiringKeys(log) then Cell(Firing, 0) else Cell(Ok, 0)
    ensures forall l: Life :: l.log == log ==> RestartStep(l, Life(m.cells, log, []))
  {
    m := new Machine();
    m.Restore(FiringKeys(log));
  }

  /** Log and machine agree, counting what is about to be written. */
  ghost predicate Agree(l: Life, k: Key) {
    && Alternating(ChangesOf(l.log + l.waiting, k))
    && (CellAt(l.cells, k).state == Firing <==> FiringIn(l.log + l.waiting, k))
  }

  lemma EvaluateAgrees(l: Life, l': Life, input: Input, k: Key)
    requires EvaluateStep(l, l', input) && Agree(l, k)
    ensures Agree(l', k)
  {
    assert l.log + l.waiting == l.log;
    ObservationAgrees(l.log, l'.waiting, CellAt(l.cells, k), CellAt(l'.cells, k), Observed(input, k), input.now, k);
  }

  lemma ObservationAgrees(log: seq<Entry<Key>>, out: seq<Entry<Key>>, c: Cell, c': Cell, o: Option<Observation>, now: int, k: Key)
    requires Alternating(ChangesOf(log, k)) && (c.state == Firing <==> FiringIn(log, k))
    requires c' == CellAfter(c, o, now) && ChangesOf(out, k) == ChangesFor(c, o, now)
    ensures Alternating(ChangesOf(log + out, k)) && (c'.state == Firing <==> FiringIn(log + out, k))
  {
    AlternatesOn(log, out, k);
  }

  lemma RestartAgrees(l: Life, l': Life, k: Key)
    requires RestartStep(l, l') && Agree(l, k)
    ensures Agree(l', k)
  {
    assert l'.log + l'.waiting == l.log;
    PrefixAlternates(l.log, l.waiting, k);
  }

  lemma NextAgrees(l: Life, l': Life, k: Key)
    requires Next(l, l') && Agree(l, k)
    ensures Agree(l', k)
  {
    if input :| EvaluateStep(l, l', input) {
      EvaluateAgrees(l, l', input, k);
    } else if InsertStep(l, l') {
      assert l'.log + l'.waiting == l.log + l.waiting;
    } else {
      RestartAgrees(l, l', k);
    }
  }

  /** Over every run with restarts anywhere, between an observation and the write of its event included: each key's log
      alternates, starting with fired, and once nothing waits the machine is firing for exactly the keys whose last
      entry is fired. */
  lemma {:induction false} LogsAlternate(run: seq<Life>, i: nat, k: Key)
    requires IsRun(run) && i < |run|
    ensures Agree(run[i], k)
    ensures Alternating(ChangesOf(run[i].log, k))
    ensures run[i].waiting == [] ==> (CellAt(run[i].cells, k).state == Firing <==> FiringIn(run[i].log, k))
  {
    if i > 0 {
      LogsAlternate(run, i - 1, k);
      assert StepAt(run, i - 1);
      NextAgrees(run[i - 1], run[i], k);
    } else {
      assert run[0].log + run[0].waiting == [];
    }
    AgreedLogAlternates(run[i], k);
  }

  lemma AgreedLogAlternates(l: Life, k: Key)
    requires Agree(l, k)
    ensures Alternating(ChangesOf(l.log, k))
    ensures l.waiting == [] ==> (CellAt(l.cells, k).state == Firing <==> FiringIn(l.log, k))
  {
    PrefixAlternates(l.log, l.waiting, k);
    assert l.waiting == [] ==> l.log + l.waiting == l.log;
  }

  // ---------- one process: silence, and when an alert fires ----------

  /** A run of evaluations in one process, from whatever machine it started with: cells[i] before input i, outs[i] its
      events. */
  ghost predicate Evaluations(inputs: seq<Input>, cells: seq<Cells>, outs: seq<seq<Entry<Key>>>) {
    && |cells| == |inputs| + 1 && |outs| == |inputs|
    && forall i :: 0 <= i < |inputs| ==> EvaluatedAt(inputs, cells, outs, i)
  }

  ghost predicate EvaluatedAt(inputs: seq<Input>, cells: seq<Cells>, outs: seq<seq<Entry<Key>>>, i: int)
    requires |cells| == |inputs| + 1 && |outs| == |inputs| && 0 <= i < |inputs|
  {
    Evaluated(inputs[i], cells[i], cells[i + 1], outs[i])
  }

  function Flat(outs: seq<seq<Entry<Key>>>): seq<Entry<Key>> {
    if outs == [] then [] else Flat(outs[..|outs| - 1]) + outs[|outs| - 1]
  }

  datatype Timed = Timed(now: int, seen: Observation)

  /** What a run of evaluations observes of one key, silences left out. */
  ghost function Heard(inputs: seq<Input>, k: Key): seq<Timed> {
    if inputs == [] then []
    else
      var last := inputs[|inputs| - 1];
      var o := Observed(last, k);
      Heard(inputs[..|inputs| - 1], k) + if o.None? then [] else [Timed(last.now, o.value)]
  }

  /** A key's cell after a list of observations, and the changes they reported. */
  function Lived(start: Cell, obs: seq<Timed>): (Cell, seq<Change>) {
    if obs == [] then (start, [])
    else
      var (c, changes) := Lived(start, obs[..|obs| - 1]);
      var t := obs[|obs| - 1];
      (CellAfter(c, Some(t.seen), t.now), changes + ChangesFor(c, Some(t.seen), t.now))
  }

  /** A key's cell and its events depend on what was observed of it and on nothing else. */
  lemma {:induction false} OnlyHeardMatters(inputs: seq<Input>, cells: seq<Cells>, outs: seq<seq<Entry<Key>>>, k: Key)
    requires Evaluations(inputs, cells, outs)
    ensures CellAt(cells[|inputs|], k) == Lived(CellAt(cells[0], k), Heard(inputs, k)).0
    ensures ChangesOf(Flat(outs), k) == Lived(CellAt(cells[0], k), Heard(inputs, k)).1
  {
    if inputs != [] {
      var n := |inputs| - 1;
      var (ins, cs, os) := (inputs[..n], cells[..n + 1], outs[..n]);
      forall i | 0 <= i < n
        ensures EvaluatedAt(ins, cs, os, i)
      {
        assert EvaluatedAt(inputs, cells, outs, i);
      }
      OnlyHeardMatters(ins, cs, os, k);
      assert EvaluatedAt(inputs, cells, outs, n);
      ChangesConcat(Flat(outs[..n]), outs[n], k);
      var before := Heard(inputs[..n], k);
      assert Heard(inputs, k) != before ==> Heard(inputs, k)[..|before|] == before;
    }
  }

  /** Silence is inert: two runs that observe the same of a key, whatever else they evaluate and however often, leave it
      in the same state with the same events. */
  lemma SilenceIsInert(inputs: seq<Input>, cells: seq<Cells>, outs: seq<seq<Entry<Key>>>,
                       inputs': seq<Input>, cells': seq<Cells>, outs': seq<seq<Entry<Key>>>, k: Key)
    requires Evaluations(inputs, cells, outs) && Evaluations(inputs', cells', outs')
    requires CellAt(cells[0], k) == CellAt(cells'[0], k) && Heard(inputs, k) == Heard(inputs', k)
    ensures CellAt(cells[|inputs|], k) == CellAt(cells'[|inputs'|], k)
    ensures ChangesOf(Flat(outs), k) == ChangesOf(Flat(outs'), k)
  {
    OnlyHeardMatters(inputs, cells, outs, k);
    OnlyHeardMatters(inputs', cells', outs', k);
  }

  /** When a sample is absent or stale, or the metric was not collected, a threshold rule hears nothing. */
  lemma SilentSampleIsNotHeard(input: Input, k: Key)
    requires k.rule != STATUS_RULE
    requires k.host !in input.latest || input.now - input.latest[k.host].at > 2 * input.interval
             || forall h, r :: h in input.hosts && r in input.rules && h.id == k.host && r.id == k.rule
                  ==> Metric(r.metric, input.latest[k.host], h) == None
    ensures Observed(input, k).None?
  {
  }

  /** First observation of the breached streak that ends at n. */
  function StreakStart(obs: seq<Timed>, n: nat): (s: nat)
    requires n < |obs|
    ensures s <= n
  {
    if n > 0 && obs[n - 1].seen.breached then StreakStart(obs, n - 1) else n
  }

  lemma {:induction false} StreakIsBreached(obs: seq<Timed>, n: nat)
    requires n < |obs|
    ensures forall i :: StreakStart(obs, n) <= i < n ==> obs[i].seen.breached
    ensures StreakStart(obs, n) > 0 ==> !obs[StreakStart(obs, n) - 1].seen.breached
  {
    if n > 0 && obs[n - 1].seen.breached {
      StreakIsBreached(obs, n - 1);
    }
  }

  /** What a cell says about the observations behind it. */
  predicate Explains(c: Cell, obs: seq<Timed>) {
    match c.state
    case Ok => obs != [] ==> !obs[|obs| - 1].seen.breached
    case Pending => obs != [] && obs[|obs| - 1].seen.breached && c.since == obs[StreakStart(obs, |obs| - 1)].now
    case Firing => obs != [] ==> obs[|obs| - 1].seen.breached
  }

  lemma {:induction false} CellExplains(start: Cell, obs: seq<Timed>)
    requires start.state != State.Pending
    ensures Explains(Lived(start, obs).0, obs)
  {
    if obs != [] {
      var n := |obs| - 1;
      CellExplains(start, obs[..n]);
      if n > 0 {
        StreakOfPrefix(obs, n, n - 1);
      }
    }
  }

  lemma {:induction false} StreakOfPrefix(obs: seq<Timed>, m: nat, n: nat)
    requires n < m <= |obs|
    ensures StreakStart(obs[..m], n) == StreakStart(obs, n)
  {
    if n > 0 {
      StreakOfPrefix(obs, m, n - 1);
    }
  }

  /** A key that is not firing fires at an observation exactly when it is breached and the whole streak of breaches behind
      it has lasted the rule's duration, since the process started at most; a firing one resolves exactly at the first
      observation that is not breached. */
  lemma FiresExactly(start: Cell, obs: seq<Timed>, n: nat)
    requires start.state != State.Pending && n < |obs|
    ensures var c := Lived(start, obs[..n]).0;
            var change := ChangeOf(c, Some(obs[n].seen), obs[n].now);
            if c.state == Firing then change == if obs[n].seen.breached then None else Some(Resolved)
            else change == if obs[n].seen.breached && obs[n].now - obs[StreakStart(obs, n)].now >= obs[n].seen.hold
                           then Some(Fired) else None
  {
    CellExplains(start, obs[..n]);
    if n > 0 {
      StreakOfPrefix(obs, n, n - 1);
    }
  }
}
