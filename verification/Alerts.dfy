/**
 Alert rules: the per-key machine, the metrics it reads, and one evaluation of every rule against every host.
 */
module Alerts {
  import opened Journal
  import opened Options

  /** One rule applied to one host; rule 0 is the implicit offline rule. */
  datatype Key = Key(rule: int, host: int)

  datatype State = Ok | Pending | Firing

  /** since: first breach of the current pending run. */
  datatype Cell = Cell(state: State, since: int)

  const STATUS_RULE: int := 0

  type Cells = map<Key, Cell>

  function CellAt(cells: Cells, k: Key): Cell {
    if k in cells then cells[k] else Cell(Ok, 0)
  }

  /** One observation of one key: what it makes of the cell, and the change it reports, if any. */
  function Seen(c: Cell, breached: bool, now: int, hold: int): (Cell, Option<Change>) {
    match c.state
    case Ok =>
      if !breached then (c, None)
      else if hold <= 0 then (Cell(Firing, now), Some(Fired))
      else (Cell(State.Pending, now), None)
    case Pending =>
      if !breached then (c.(state := Ok), None)
      else if now - c.since >= hold then (c.(state := Firing), Some(Fired))
      else (c, None)
    case Firing =>
      if breached then (c, None) else (c.(state := Ok), Some(Resolved))
  }

  class Machine {
    var cells: Cells

    constructor ()
      ensures cells == map[]
    {
      cells := map[];
    }

    /** Marks keys as firing already, so that a restart announces nothing again. */
    method Restore(firing: set<Key>)
      modifies this
      ensures forall k :: CellAt(cells, k) == if k in firing then Cell(Firing, 0) else CellAt(old(cells), k)
    {
      cells := cells + map k | k in firing :: Cell(Firing, 0);
    }

    method StateOf(k: Key) returns (s: State)
      ensures s == CellAt(cells, k).state
    {
      if k in cells {
        return cells[k].state;
      }
      return Ok;
    }

    method Observe(k: Key, breached: bool, now: int, hold: int) returns (tr: Option<Change>)
      modifies this
      ensures tr == Seen(CellAt(old(cells), k), breached, now, hold).1
      ensures cells == old(cells)[k := Seen(CellAt(old(cells), k), breached, now, hold).0]
    {
      if k !in cells {
        cells := cells[k := Cell(Ok, 0)];
      }
      var c := cells[k];
      match c.state
      case Ok =>
        if !breached {
          return None;
        }
        cells := cells[k := Cell(State.Pending, now)];
        if hold <= 0 {
          cells := cells[k := Cell(Firing, now)];
          return Some(Fired);
        }
        return None;
      case Pending =>
        if !breached {
          cells := cells[k := c.(state := Ok)];
          return None;
        }
        if now - c.since >= hold {
          cells := cells[k := c.(state := Firing)];
          return Some(Fired);
        }
        return None;
      case Firing =>
        if breached {
          return None;
        }
        cells := cells[k := c.(state := Ok)];
        return Some(Resolved);
    }
  }

  // ---------- what an evaluation reads ----------

  datatype Disk = Disk(used: int, total: int)

  datatype Sample = Sample(at: int, cpu: Option<real>, memUsed: Option<int>, memTotal: Option<int>, load5: Option<real>,
                           netSent: Option<real>, netRecv: Option<real>, disks: seq<Disk>, temps: seq<real>)

  datatype Host = Host(id: int, status: string, muted: bool, cores: int)

  /** host None applies the rule to every host. */
  datatype Rule = Rule(id: int, host: Option<int>, metric: string, threshold: real, hold: int)

  datatype Input = Input(now: int, interval: int, hosts: seq<Host>, latest: map<int, Sample>, rules: seq<Rule>)

  function Percent(used: int, total: int): real
    requires total != 0
  {
    100.0 * used as real / total as real
  }

  function Larger(a: Option<real>, b: real): Option<real> {
    if a.None? || b > a.value then Some(b) else a
  }

  function WorstDisk(disks: seq<Disk>): Option<real> {
    if disks == [] then None
    else
      var d := disks[|disks| - 1];
      var before := WorstDisk(disks[..|disks| - 1]);
      if d.total == 0 then before else Larger(before, Percent(d.used, d.total))
  }

  function Hottest(temps: seq<real>): Option<real> {
    if temps == [] then None else Larger(Hottest(temps[..|temps| - 1]), temps[|temps| - 1])
  }

  /** The value a rule compares, None when it was not collected. */
  function Metric(metric: string, row: Sample, host: Host): Option<real> {
    if metric == "cpu" then row.cpu
    else if metric == "memory" then
      if row.memUsed.None? || row.memTotal.None? || row.memTotal.value == 0 then None
      else Some(Percent(row.memUsed.value, row.memTotal.value))
    else if metric == "disk" then WorstDisk(row.disks)
    else if metric == "temperature" then Hottest(row.temps)
    else if metric == "load" then
      if row.load5.None? || host.cores == 0 then None else Some(row.load5.value / host.cores as real)
    else if metric == "bandwidth" then
      if row.netSent.None? || row.netRecv.None? then None
      else Some((row.netSent.value + row.netRecv.value) / 1000000.0)
    else None
  }

  predicate IsReading(disks: seq<Disk>, k: int, v: real) {
    0 <= k < |disks| && disks[k].total != 0 && v == 100.0 * disks[k].used as real / disks[k].total as real
  }

  /** The largest reading of a list is one of them and none exceeds it; a list with nothing to read gives nothing. */
  lemma {:induction false} WorstDiskIsWorst(disks: seq<Disk>)
    ensures WorstDisk(disks).Some? <==> exists k :: 0 <= k < |disks| && disks[k].total != 0
    ensures forall k :: 0 <= k < |disks| && disks[k].total != 0
              ==> Percent(disks[k].used, disks[k].total) <= WorstDisk(disks).value
    ensures WorstDisk(disks).Some? ==> exists k :: IsReading(disks, k, WorstDisk(disks).value)
  {
    if disks != [] {
      var n := |disks| - 1;
      WorstDiskIsWorst(disks[..n]);
      assert forall k :: 0 <= k < n ==> disks[..n][k] == disks[k];
      if WorstDisk(disks[..n]).Some? {
        var k :| IsReading(disks[..n], k, WorstDisk(disks[..n]).value);
        assert IsReading(disks, k, WorstDisk(disks[..n]).value);
      }
      assert disks[n].total != 0 ==> IsReading(disks, n, Percent(disks[n].used, disks[n].total));
    }
  }

  /** v is what a metric reads in a sample, field by field: for disks and temperatures a reading that none exceeds. */
  predicate IsValue(metric: string, row: Sample, host: Host, v: real) {
    match metric
    case "cpu" => row.cpu == Some(v)
    case "memory" =>
      && row.memUsed.Some? && row.memTotal.Some? && row.memTotal.value != 0
      && v == 100.0 * row.memUsed.value as real / row.memTotal.value as real
    case "disk" =>
      && (exists k :: 0 <= k < |row.disks| && IsReading(row.disks, k, v))
      && forall k :: 0 <= k < |row.disks| && row.disks[k].total != 0
           ==> 100.0 * row.disks[k].used as real / row.disks[k].total as real <= v
    case "temperature" => v in row.temps && forall k :: 0 <= k < |row.temps| ==> row.temps[k] <= v
    case "load" => row.load5.Some? && host.cores != 0 && v == row.load5.value / host.cores as real
    case "bandwidth" => row.netSent.Some? && row.netRecv.Some? && v == (row.netSent.value + row.netRecv.value) / 1_000_000.0
    case _ => false
  }

  lemma {:induction false} HottestIsHottest(temps: seq<real>)
    ensures Hottest(temps).Some? <==> temps != []
    ensures forall k :: 0 <= k < |temps| ==> temps[k] <= Hottest(temps).value
    ensures temps != [] ==> Hottest(temps).value in temps
  {
    if temps != [] {
      var n := |temps| - 1;
      HottestIsHottest(temps[..n]);
      assert forall k :: 0 <= k < n ==> temps[..n][k] == temps[k];
    }
  }

  /** A metric has one value, or none. */
  lemma MetricIsValue(metric: string, row: Sample, host: Host, v: real)
    ensures IsValue(metric, row, host, v) <==> Metric(metric, row, host) == Some(v)
  {
    match metric
    case "disk" =>
      WorstDiskIsWorst(row.disks);
    case "temperature" => HottestIsHottest(row.temps);
    case _ =>
  }

  method MetricValue(metric: string, row: Sample, host: Host) returns (v: Option<real>)
    ensures v == Metric(metric, row, host)
    ensures forall x :: IsValue(metric, row, host, x) <==> v == Some(x)
  {
    forall x
      ensures IsValue(metric, row, host, x) <==> Metric(metric, row, host) == Some(x)
    {
      MetricIsValue(metric, row, host, x);
    }
    match metric
    case "disk" =>
      var worst: Option<real> := None;
      for i := 0 to |row.disks|
        invariant worst == WorstDisk(row.disks[..i])
      {
        var d := row.disks[i];
        assert row.disks[..i + 1][..i] == row.disks[..i];
        if d.total != 0 {
          var pct := Percent(d.used, d.total);
          if worst.None? || pct > worst.value {
            worst := Some(pct);
          }
        }
      }
      assert row.disks[..|row.disks|] == row.disks;
      return worst;
    case "temperature" =>
      var hottest: Option<real> := None;
      for i := 0 to |row.temps|
        invariant hottest == Hottest(row.temps[..i])
      {
        assert row.temps[..i + 1][..i] == row.temps[..i];
        if hottest.None? || row.temps[i] > hottest.value {
          hottest := Some(row.temps[i]);
        }
      }
      assert row.temps[..|row.temps|] == row.temps;
      return hottest;
    case _ =>
      return Metric(metric, row, host);
  }

  /** The rule in force for each metric of a host: its own when it has one, else the first global one. */
  function Chosen(rules: seq<Rule>, host: int): map<string, Rule> {
    if rules == [] then map[]
    else
      var r := rules[|rules| - 1];
      var before := Chosen(rules[..|rules| - 1], host);
      if r.host.Some? && r.host.value != host then before
      else if r.metric !in before || (before[r.metric].host.None? && r.host.Some?) then before[r.metric := r]
      else before
  }

  method Applicable(rules: seq<Rule>, host: int) returns (byMetric: map<string, Rule>)
    ensures byMetric == Chosen(rules, host)
  {
    byMetric := map[];
    for i := 0 to |rules|
      invariant byMetric == Chosen(rules[..i], host)
    {
      var r := rules[i];
      assert rules[..i + 1][..i] == rules[..i];
      if r.host.Some? && r.host.value != host {
        continue;
      }
      if r.metric !in byMetric || (byMetric[r.metric].host.None? && r.host.Some?) {
        byMetric := byMetric[r.metric := r];
      }
    }
    assert rules[..|rules|] == rules;
  }

  predicate AppliesTo(r: Rule, host: int) {
    r.host.None? || r.host.value == host
  }

  /** The rule in force reads its own metric and applies to the host, and a rule of the host's own always wins. */
  lemma {:induction false} ChosenIsMostSpecific(rules: seq<Rule>, host: int, metric: string)
    ensures metric in Chosen(rules, host) <==> exists k :: 0 <= k < |rules| && rules[k].metric == metric && AppliesTo(rules[k], host)
    ensures metric in Chosen(rules, host) ==>
              var r := Chosen(rules, host)[metric];
              && r in rules && r.metric == metric && AppliesTo(r, host)
              && (r.host.None? ==> forall k :: 0 <= k < |rules| && rules[k].metric == metric ==> rules[k].host != Some(host))
  {
    if rules != [] {
      var n := |rules| - 1;
      ChosenIsMostSpecific(rules[..n], host, metric);
      assert forall k :: 0 <= k < n ==> rules[..n][k] == rules[k];
      if metric in Chosen(rules[..n], host) {
        var k :| 0 <= k < n && rules[..n][k].metric == metric && AppliesTo(rules[..n][k], host);
        assert rules[k].metric == metric;
      }
      assert rules[n] in rules;
    }
  }

  /** The i-th rule is the one a host is judged by for its metric: it applies, no rule of the host's own stands before a global
      one, and among its like it comes first. */
  predicate Governs(rules: seq<Rule>, host: int, i: int) {
    && 0 <= i < |rules| && (rules[i].host.None? || rules[i].host == Some(host))
    && forall j :: 0 <= j < |rules| && j != i && rules[j].metric == rules[i].metric
                   && (rules[j].host.None? || rules[j].host == Some(host))
         ==> (rules[i].host.Some? && rules[j].host.None?) || (rules[i].host.Some? == rules[j].host.Some? && i < j)
  }

  lemma {:induction false} ChosenGoverns(rules: seq<Rule>, host: int, metric: string) returns (i: nat)
    requires metric in Chosen(rules, host)
    ensures Governs(rules, host, i) && Chosen(rules, host)[metric] == rules[i] && rules[i].metric == metric
  {
    var n := |rules| - 1;
    ChosenIsMostSpecific(rules[..n], host, metric);
    assert forall j :: 0 <= j < n ==> rules[..n][j] == rules[j];
    if metric in Chosen(rules[..n], host) && Chosen(rules, host)[metric] == Chosen(rules[..n], host)[metric] {
      i := ChosenGoverns(rules[..n], host, metric);
    } else {
      i := n;
    }
  }

  /** One rule governs each metric some rule of which applies, and it is the one chosen. */
  lemma GovernsIsChosen(rules: seq<Rule>, host: int, i: nat)
    requires Governs(rules, host, i)
    ensures rules[i].metric in Chosen(rules, host) && Chosen(rules, host)[rules[i].metric] == rules[i]
  {
    ChosenIsMostSpecific(rules, host, rules[i].metric);
    var j := ChosenGoverns(rules, host, rules[i].metric);
  }
}
