/**
 The three-level rollup of samples: an hourly call that only rewrites the newest windows, against one that starts over.
 */
module Rollup {
  import opened Options
  import Zone
  import Sets

  const TEN_MINUTES: int := 600_000_000_000

  /** A level of the rollup, by the length of its windows. */
  datatype Level = TenMinutes | Hourly | Daily

  function Size(l: Level): int {
    match l
    case TenMinutes => TEN_MINUTES
    case Hourly => Zone.HOUR
    case Daily => Zone.DAY
  }

  /** time.Truncate, whose origin is a whole number of days before the epoch. */
  function Truncated(l: Level, t: int): int {
    match l
    case TenMinutes => t / TEN_MINUTES * TEN_MINUTES
    case Hourly => t / Zone.HOUR * Zone.HOUR
    case Daily => t / Zone.DAY * Zone.DAY
  }

  predicate Aligned(l: Level, t: int) {
    Truncated(l, t) == t
  }

  // ---------- rows ----------

  datatype Stat = Stat(avg: Option<real>, min: Option<real>, max: Option<real>)

  datatype Peak = Peak(avg: Option<real>, max: Option<real>)

  /** A raw sample; None is a value that was not collected. */
  datatype Raw = Raw(cpu: Option<real>, memUsed: Option<real>, memTotal: Option<real>, swapUsed: Option<real>, load1: Option<real>,
                     load5: Option<real>, load15: Option<real>, netSent: Option<real>, netRecv: Option<real>,
                     disks: Option<string>, temps: Option<string>)

  datatype Row = Row(cpu: Stat, memUsed: Stat, memTotal: Option<real>, swapUsed: Option<real>, load1: Option<real>,
                     load5: Option<real>, load15: Option<real>, netSent: Peak, netRecv: Peak, disks: Option<string>,
                     temps: Option<string>)

  /** The primary key of every table: one row per host and instant. A raw sample's is the instant its text is filed under,
      which for one dated in whole seconds is its own (Stamps.WindowByText). */
  datatype Slot = Slot(host: int, at: int)

  type Table = map<Slot, Row>

  /** A raw value is its own average, minimum and maximum, so one summary reads both kinds of source. */
  function Lifted(r: Raw): Row {
    Row(Stat(r.cpu, r.cpu, r.cpu), Stat(r.memUsed, r.memUsed, r.memUsed), r.memTotal, r.swapUsed, r.load1, r.load5, r.load15,
        Peak(r.netSent, r.netSent), Peak(r.netRecv, r.netRecv), r.disks, r.temps)
  }

  function Source(raw: map<Slot, Raw>): Table {
    map k | k in raw :: Lifted(raw[k])
  }

  // ---------- one window ----------

  /** A host's rows in a window, oldest first. */
  function Collect(src: Table, host: int, from: int, until: int): seq<Row>
    decreases until - from
  {
    if until <= from then []
    else Collect(src, host, from, until - 1) + if Slot(host, until - 1) in src then [src[Slot(host, until - 1)]] else []
  }

  ghost predicate IsRowOf(src: Table, host: int, from: int, until: int, r: Row) {
    exists t :: from <= t < until && Slot(host, t) in src && src[Slot(host, t)] == r
  }

  /** Exactly the rows of the window are collected. */
  lemma {:induction false} CollectedRows(src: Table, host: int, from: int, until: int, r: Row)
    ensures r in Collect(src, host, from, until) <==> IsRowOf(src, host, from, until, r)
    decreases until - from
  {
    if from < until {
      CollectedRows(src, host, from, until - 1, r);
      if IsRowOf(src, host, from, until, r) && !IsRowOf(src, host, from, until - 1, r) {
        var t :| from <= t < until && Slot(host, t) in src && src[Slot(host, t)] == r;
        assert t == until - 1;
      }
    }
  }

  /** A column of numbers, and one of lists. */
  datatype Column = CpuAvg | CpuMin | CpuMax | MemAvg | MemMin | MemMax | MemTotal | SwapAvg | Load1 | Load5 | Load15
    | SentAvg | SentMax | RecvAvg | RecvMax

  datatype Lists = Disks | Temps

  function Read(r: Row, c: Column): Option<real> {
    match c
    case CpuAvg => r.cpu.avg
    case CpuMin => r.cpu.min
    case CpuMax => r.cpu.max
    case MemAvg => r.memUsed.avg
    case MemMin => r.memUsed.min
    case MemMax => r.memUsed.max
    case MemTotal => r.memTotal
    case SwapAvg => r.swapUsed
    case Load1 => r.load1
    case Load5 => r.load5
    case Load15 => r.load15
    case SentAvg => r.netSent.avg
    case SentMax => r.netSent.max
    case RecvAvg => r.netRecv.avg
    case RecvMax => r.netRecv.max
  }

  function ReadList(r: Row, c: Lists): Option<string> {
    match c
    case Disks => r.disks
    case Temps => r.temps
  }

  function Sum(rows: seq<Row>, c: Column): real {
    if rows == [] then 0.0
    else
      var n := |rows| - 1;
      Sum(rows[..n], c) + if Read(rows[n], c).Some? then Read(rows[n], c).value else 0.0
  }

  function Counted(rows: seq<Row>, c: Column): nat {
    if rows == [] then 0
    else
      var n := |rows| - 1;
      Counted(rows[..n], c) + if Read(rows[n], c).Some? then 1 else 0
  }

  /** SQL's avg: nulls do not count, and the average of nothing is null. */
  function Average(rows: seq<Row>, c: Column): Option<real> {
    if Counted(rows, c) == 0 then None else Some(Sum(rows, c) / Counted(rows, c) as real)
  }

  predicate Beats(x: real, y: real, up: bool) {
    if up then x > y else x < y
  }

  function Better(a: Option<real>, b: Option<real>, up: bool): Option<real> {
    if b.None? then a else if a.None? || Beats(b.value, a.value, up) then b else a
  }

  /** SQL's max and min. */
  function Best(rows: seq<Row>, c: Column, up: bool): Option<real> {
    if rows == [] then None
    else
      var n := |rows| - 1;
      Better(Best(rows[..n], c, up), Read(rows[n], c), up)
  }

  /** The most recent list that is not null. */
  function Latest(rows: seq<Row>, c: Lists): Option<string> {
    if rows == [] then None
    else
      var n := |rows| - 1;
      if ReadList(rows[n], c).Some? then ReadList(rows[n], c) else Latest(rows[..n], c)
  }

  function Summary(rows: seq<Row>): Row {
    Row(Stat(Average(rows, CpuAvg), Best(rows, CpuMin, false), Best(rows, CpuMax, true)),
        Stat(Average(rows, MemAvg), Best(rows, MemMin, false), Best(rows, MemMax, true)),
        Best(rows, MemTotal, true), Average(rows, SwapAvg), Average(rows, Load1), Average(rows, Load5), Average(rows, Load15),
        Peak(Average(rows, SentAvg), Best(rows, SentMax, true)), Peak(Average(rows, RecvAvg), Best(rows, RecvMax, true)),
        Latest(rows, Disks), Latest(rows, Temps))
  }

  function SummaryAt(src: Table, k: Slot, l: Level): Row {
    Summary(Collect(src, k.host, k.at, k.at + Size(l)))
  }

  predicate HasRows(src: Table, k: Slot, l: Level) {
    Collect(src, k.host, k.at, k.at + Size(l)) != []
  }

  function Hosts(src: Table): set<int> {
    set k | k in src :: k.host
  }

  /** INSERT OR REPLACE of every host with a row in the window; a host without one keeps what it had. */
  function WindowWritten(dst: Table, src: Table, l: Level, w: int): Table {
    dst + map h | h in Hosts(src) && HasRows(src, Slot(h, w), l) :: Slot(h, w) := SummaryAt(src, Slot(h, w), l)
  }

  lemma WrittenAt(dst: Table, src: Table, l: Level, w: int, k: Slot)
    ensures var dst' := WindowWritten(dst, src, l, w);
            if k.at == w && HasRows(src, k, l) then k in dst' && dst'[k] == SummaryAt(src, k, l)
            else (k in dst' <==> k in dst) && (k in dst ==> dst'[k] == dst[k])
  {
    HasRowsHasHost(src, k.host, k.at, k.at + Size(l));
  }

  lemma {:induction false} HasRowsHasHost(src: Table, host: int, from: int, until: int)
    ensures Collect(src, host, from, until) != [] ==> host in Hosts(src)
    decreases until - from
  {
    if from < until {
      HasRowsHasHost(src, host, from, until - 1);
    }
  }

  // ---------- one level ----------

  /** Every window of a level from w on that is complete, rewritten. */
  function WrittenFrom(dst: Table, src: Table, l: Level, w: int, now: int): Table
    decreases now - w
  {
    if w + Size(l) > now then dst else WrittenFrom(WindowWritten(dst, src, l, w), src, l, w + Size(l), now)
  }

  function Instants(t: Table): set<int> {
    set k | k in t :: k.at
  }

  /** Where a level starts: the newest window it already has, else its oldest source row. */
  function StartOf(dst: Table, src: Table): Option<int> {
    if Instants(dst) != {} then Some(Sets.MaxOf(Instants(dst)))
    else if Instants(src) != {} then Some(Sets.MinOf(Instants(src)))
    else None
  }

  function Stepped(dst: Table, src: Table, l: Level, now: int): Table
  {
    match StartOf(dst, src)
    case None => dst
    case Some(start) => WrittenFrom(dst, src, l, Truncated(l, start), now)
  }

  method AggregateStep(dst: Table, src: Table, l: Level, now: int) returns (out: Table)
    ensures out == Stepped(dst, src, l, now)
  {
    var start := StartOf(dst, src);
    if start.None? {
      return dst;
    }
    out := WriteWindows(dst, src, l, Truncated(l, start.value), now);
  }

  /** The loop of a step: one complete window after another, up to now. */
  method WriteWindows(dst: Table, src: Table, l: Level, start: int, now: int) returns (out: Table)
    ensures out == WrittenFrom(dst, src, l, start, now)
  {
    out := dst;
    var w := start;
    while w + Size(l) <= now
      invariant WrittenFrom(dst, src, l, start, now) == WrittenFrom(out, src, l, w, now)
      decreases now - w
    {
      out := WindowWritten(out, src, l, w);
      w := w + Size(l);
    }
  }

  // ---------- what a level has to be ----------

  predicate Complete(k: Slot, l: Level, now: int)
  {
    Aligned(l, k.at) && k.at + Size(l) <= now
  }

  /** The batch result: exactly the complete windows with a row in them, each its summary. */
  ghost predicate IsFull(t: Table, src: Table, l: Level, now: int)
  {
    forall k: Slot :: FullAt(t, src, l, now, k)
  }

  predicate FullAt(t: Table, src: Table, l: Level, now: int, k: Slot)
  {
    && (k in t <==> Complete(k, l, now) && HasRows(src, k, l))
    && (k in t ==> t[k] == SummaryAt(src, k, l))
  }

  lemma FullIsUnique(a: Table, b: Table, src: Table, l: Level, now: int)
    requires IsFull(a, src, l, now) && IsFull(b, src, l, now)
    ensures a == b
  {
    forall k: Slot
      ensures k in a <==> k in b
      ensures k in a ==> a[k] == b[k]
    {
      assert FullAt(a, src, l, now, k) && FullAt(b, src, l, now, k);
    }
  }

  lemma {:induction false} WrittenFromAt(dst: Table, src: Table, l: Level, w: int, now: int, k: Slot)
    requires Aligned(l, w)
    ensures var dst' := WrittenFrom(dst, src, l, w, now);
            if k.at >= w && Complete(k, l, now) && HasRows(src, k, l) then k in dst' && dst'[k] == SummaryAt(src, k, l)
            else (k in dst' <==> k in dst) && (k in dst ==> dst'[k] == dst[k])
    decreases now - w
  {
    if w + Size(l) <= now {
      WrittenAt(dst, src, l, w, k);
      NextWindow(l, w, k.at);
      WrittenFromAt(WindowWritten(dst, src, l, w), src, l, w + Size(l), now, k);
    }
  }

  lemma NextWindow(l: Level, w: int, at: int)
    requires Aligned(l, w)
    ensures Aligned(l, w + Size(l))
    ensures Aligned(l, at) && at > w ==> at >= w + Size(l)
  {
  }

  lemma TruncatedIsAligned(l: Level, t: int)
    ensures Aligned(l, Truncated(l, t)) && Truncated(l, t) <= t < Truncated(l, t) + Size(l)
  {
    match l
    case TenMinutes => WholeWindows(t / TEN_MINUTES);
    case Hourly => WholeWindows(t / Zone.HOUR);
    case Daily => WholeWindows(t / Zone.DAY);
  }

  lemma WholeWindows(n: int)
    ensures Aligned(TenMinutes, n * TEN_MINUTES) && Aligned(Hourly, n * Zone.HOUR) && Aligned(Daily, n * Zone.DAY)
  {
    assert n * TEN_MINUTES / TEN_MINUTES == n;
    assert n * Zone.HOUR / Zone.HOUR == n;
    assert n * Zone.DAY / Zone.DAY == n;
  }

  /** Where the last window that was complete at an instant begins. */
  function Settled(l: Level, since: int): int {
    Truncated(l, since) - Size(l)
  }

  /** Two sources agree on every row before the last complete window, and the later has lost none. */
  ghost predicate AgreeUntil(src: Table, src': Table, l: Level, since: int)
  {
    && (forall k: Slot :: k.at < Settled(l, since) ==> SameAt(src, src', k))
    && forall k :: k in src ==> k in src'
  }

  predicate SameAt(src: Table, src': Table, k: Slot) {
    (k in src <==> k in src') && (k in src ==> src[k] == src'[k])
  }

  lemma SameWindow(src: Table, src': Table, l: Level, since: int, k: Slot)
    requires AgreeUntil(src, src', l, since) && k.at + Size(l) <= Settled(l, since)
    ensures HasRows(src, k, l) <==> HasRows(src', k, l)
    ensures SummaryAt(src, k, l) == SummaryAt(src', k, l)
  {
    SameCollect(src, src', k.host, k.at, k.at + Size(l));
  }

  lemma {:induction false} MoreRows(src: Table, src': Table, host: int, from: int, until: int)
    requires forall k :: k in src ==> k in src'
    ensures Collect(src, host, from, until) != [] ==> Collect(src', host, from, until) != []
    decreases until - from
  {
    if from < until {
      MoreRows(src, src', host, from, until - 1);
    }
  }

  lemma {:induction false} SameCollect(src: Table, src': Table, host: int, from: int, until: int)
    requires forall t :: from <= t < until ==> SameAt(src, src', Slot(host, t))
    ensures Collect(src, host, from, until) == Collect(src', host, from, until)
    decreases until - from
  {
    if from < until {
      SameCollect(src, src', host, from, until - 1);
      assert SameAt(src, src', Slot(host, until - 1));
    }
  }

  lemma WindowInside(at: int, l: Level, now: int)
    requires Aligned(l, at) && at + Size(l) <= now
    ensures at + Size(l) <= Truncated(l, now)
  {
    NextWindow(l, at, Truncated(l, now));
    TruncatedIsAligned(l, now);
  }

  lemma {:induction false} NothingBefore(src: Table, host: int, from: int, until: int, least: int)
    requires until <= least && forall k :: k in src ==> least <= k.at
    ensures Collect(src, host, from, until) == []
    decreases until - from
  {
    if from < until {
      NothingBefore(src, host, from, until - 1, least);
    }
  }

  /** A level that was the batch result then is the batch result now, after one step: the windows it does not rewrite have
      not changed, and those it rewrites, the last complete one among them, come out as a batch would write them. */
  lemma StepKeepsFull(dst: Table, src: Table, src': Table, l: Level, since: int, now: int)
    requires IsFull(dst, src, l, since) && AgreeUntil(src, src', l, since) && since <= now
    ensures IsFull(Stepped(dst, src', l, now), src', l, now)
  {
    forall k: Slot
      ensures FullAt(Stepped(dst, src', l, now), src', l, now, k)
    {
      if Instants(dst) != {} {
        StepOntoSome(dst, src, src', l, since, now, k);
      } else {
        StepOntoNone(dst, src', l, now, k);
      }
    }
  }

  lemma NewestIsComplete(dst: Table, src: Table, l: Level, since: int)
    requires IsFull(dst, src, l, since) && Instants(dst) != {}
    ensures Complete(Slot(0, Sets.MaxOf(Instants(dst))), l, since)
  {
    var newest :| newest in dst && newest.at == Sets.MaxOf(Instants(dst));
    assert FullAt(dst, src, l, since, newest);
  }

  lemma StepOntoSome(dst: Table, src: Table, src': Table, l: Level, since: int, now: int, k: Slot)
    requires IsFull(dst, src, l, since) && since <= now && Instants(dst) != {} && AgreeUntil(src, src', l, since)
    ensures FullAt(Stepped(dst, src', l, now), src', l, now, k)
  {
    NewestIsComplete(dst, src, l, since);
    assert FullAt(dst, src, l, since, k);
    OlderIsSame(src, src', l, since, Sets.MaxOf(Instants(dst)), k);
    MoreRows(src, src', k.host, k.at, k.at + Size(l));
    StepOntoSomeAt(dst, src, src', l, since, now, k);
  }

  lemma StepOntoSomeAt(dst: Table, src: Table, src': Table, l: Level, since: int, now: int, k: Slot)
    requires FullAt(dst, src, l, since, k) && since <= now && Instants(dst) != {}
    requires var start := Sets.MaxOf(Instants(dst));
             && Aligned(l, start) && start + Size(l) <= since
             && (Aligned(l, k.at) && k.at < start ==>
                   && k.at + Size(l) <= since && (HasRows(src, k, l) <==> HasRows(src', k, l))
                   && SummaryAt(src, k, l) == SummaryAt(src', k, l))
    requires HasRows(src, k, l) ==> HasRows(src', k, l)
    ensures FullAt(Stepped(dst, src', l, now), src', l, now, k)
  {
    var start := Sets.MaxOf(Instants(dst));
    WrittenFromAt(dst, src', l, start, now, k);
    FullStill(dst, WrittenFrom(dst, src', l, start, now), src, src', l, since, now, start, k);
  }

  lemma OlderIsSame(src: Table, src': Table, l: Level, since: int, start: int, k: Slot)
    requires AgreeUntil(src, src', l, since) && Aligned(l, start) && start + Size(l) <= since
    ensures Aligned(l, k.at) && k.at < start ==>
              k.at + Size(l) <= since && (HasRows(src, k, l) <==> HasRows(src', k, l)) && SummaryAt(src, k, l) == SummaryAt(src', k, l)
  {
    if Aligned(l, k.at) && k.at < start {
      NextWindow(l, k.at, start);
      WindowInside(start, l, since);
      SameWindow(src, src', l, since, k);
    }
  }

  lemma FullStill(dst: Table, dst': Table, src: Table, src': Table, l: Level, since: int, now: int, start: int, k: Slot)
    requires FullAt(dst, src, l, since, k) && since <= now && start + Size(l) <= since
    requires Aligned(l, k.at) && k.at < start ==>
               k.at + Size(l) <= since && (HasRows(src, k, l) <==> HasRows(src', k, l)) && SummaryAt(src, k, l) == SummaryAt(src', k, l)
    requires HasRows(src, k, l) ==> HasRows(src', k, l)
    requires if k.at >= start && Complete(k, l, now) && HasRows(src', k, l) then k in dst' && dst'[k] == SummaryAt(src', k, l)
             else (k in dst' <==> k in dst) && (k in dst ==> dst'[k] == dst[k])
    ensures FullAt(dst', src', l, now, k)
  {
  }

  lemma StepOntoNone(dst: Table, src': Table, l: Level, now: int, k: Slot)
    requires Instants(dst) == {}
    ensures FullAt(Stepped(dst, src', l, now), src', l, now, k)
  {
    NoInstants(dst, k);
    if Instants(src') == {} {
      NoInstantsAtAll(src');
      NothingBefore(src', k.host, k.at, k.at + Size(l), k.at + Size(l));
    } else {
      var oldest := Sets.MinOf(Instants(src'));
      var start := Truncated(l, oldest);
      TruncatedIsAligned(l, oldest);
      WrittenFromAt(dst, src', l, start, now, k);
      if k.at < start && Complete(k, l, now) {
        NextWindow(l, k.at, start);
        assert forall j :: j in src' ==> j.at in Instants(src');
        NothingBefore(src', k.host, k.at, k.at + Size(l), oldest);
      }
    }
  }

  lemma NoInstants(t: Table, k: Slot)
    ensures Instants(t) == {} ==> k !in t
  {
    if k in t {
      assert k.at in Instants(t);
    }
  }

  lemma NoInstantsAtAll(t: Table)
    requires Instants(t) == {}
    ensures forall k :: k !in t
  {
    forall k
      ensures k !in t
    {
      NoInstants(t, k);
    }
  }

  // ---------- three levels ----------

  datatype Tables = Tables(raw: map<Slot, Raw>, ten: Table, hour: Table, day: Table)

  /** Aggregate. */
  function Rolled(t: Tables, now: int): Tables {
    var ten := Stepped(t.ten, Source(t.raw), TenMinutes, now);
    var hour := Stepped(t.hour, ten, Hourly, now);
    Tables(t.raw, ten, hour, Stepped(t.day, hour, Daily, now))
  }

  ghost predicate UpToDate(t: Tables, now: int) {
    && IsFull(t.ten, Source(t.raw), TenMinutes, now)
    && IsFull(t.hour, t.ten, Hourly, now)
    && IsFull(t.day, t.hour, Daily, now)
  }

  predicate Finer(l: Level, above: Level) {
    (l == TenMinutes && above == Hourly) || (l == Hourly && above == Daily)
  }

  lemma FinerFits(l: Level, above: Level, at: int, since: int)
    requires Finer(l, above) && Aligned(l, at) && at < Settled(above, since)
    ensures at + Size(l) <= Settled(above, since) <= Settled(l, since)
  {
    TruncatedIsAligned(l, since);
    TruncatedIsAligned(above, since);
    if l == TenMinutes {
      TenFits(at / TEN_MINUTES, since / Zone.HOUR - 1);
    } else {
      HourFits(at / Zone.HOUR, since / Zone.DAY - 1);
    }
  }

  lemma TenFits(i: int, j: int)
    requires i * TEN_MINUTES < j * Zone.HOUR
    ensures (i + 1) * TEN_MINUTES <= j * Zone.HOUR
  {
    assert i < 6 * j;
  }

  lemma HourFits(i: int, j: int)
    requires i * Zone.HOUR < j * Zone.DAY
    ensures (i + 1) * Zone.HOUR <= j * Zone.DAY
  {
    assert i < 24 * j;
  }

  /** When a level's source has not changed before `since`, neither has the level, as far as the level above can see. */
  lemma LevelAgrees(t: Table, t': Table, src: Table, src': Table, l: Level, above: Level, since: int, now: int)
    requires Finer(l, above) && since <= now && AgreeUntil(src, src', l, since)
    requires IsFull(t, src, l, since) && IsFull(t', src', l, now)
    ensures AgreeUntil(t, t', above, since)
  {
    forall k | k in t
      ensures k in t'
    {
      assert FullAt(t, src, l, since, k) && FullAt(t', src', l, now, k);
      MoreRows(src, src', k.host, k.at, k.at + Size(l));
    }
    forall k: Slot | k.at < Settled(above, since)
      ensures SameAt(t, t', k)
    {
      assert FullAt(t, src, l, since, k) && FullAt(t', src', l, now, k);
      if Aligned(l, k.at) {
        FinerFits(l, above, k.at, since);
        SameWindow(src, src', l, since, k);
      }
    }
  }

  /** Nothing dated before the last complete ten minutes arrived, and nothing went. */
  ghost predicate OnlyLater(raw: map<Slot, Raw>, raw': map<Slot, Raw>, since: int) {
    && (forall k: Slot :: k.at < Settled(TenMinutes, since) ==> (k in raw <==> k in raw') && (k in raw ==> raw[k] == raw'[k]))
    && forall k :: k in raw ==> k in raw'
  }

  lemma CallKeepsUpToDate(t: Tables, raw': map<Slot, Raw>, since: int, now: int)
    requires UpToDate(t, since) && OnlyLater(t.raw, raw', since) && since <= now
    ensures UpToDate(Rolled(t.(raw := raw'), now), now)
  {
    var next := Rolled(t.(raw := raw'), now);
    var src, src' := Source(t.raw), Source(raw');
    StepKeepsFull(t.ten, src, src', TenMinutes, since, now);
    LevelAgrees(t.ten, next.ten, src, src', TenMinutes, Hourly, since, now);
    StepKeepsFull(t.hour, t.ten, next.ten, Hourly, since, now);
    LevelAgrees(t.hour, next.hour, t.ten, next.ten, Hourly, Daily, since, now);
    StepKeepsFull(t.day, t.hour, next.hour, Daily, since, now);
  }

  // ---------- every run ----------

  /** How far back a purge leaves the tables; the days are kept for ever. */
  datatype Cuts = Cuts(raw: int, ten: int, hour: int)

  /** How long each resolution is kept. */
  datatype Keep = Keep(raw: int, ten: int, hour: int)

  function CutsOf(r: Keep, now: int): Cuts {
    Cuts(now - r.raw, now - r.ten, now - r.hour)
  }

  datatype Event = Arrive(k: Slot, row: Raw) | Call(now: int) | Purge(cuts: Cuts)

  function Since<V>(t: map<Slot, V>, cut: int): map<Slot, V> {
    map k | k in t && k.at >= cut :: t[k]
  }

  function Purged(t: Tables, cuts: Cuts): Tables {
    Tables(Since(t.raw, cuts.raw), Since(t.ten, cuts.ten), Since(t.hour, cuts.hour), t.day)
  }

  function Replay(events: seq<Event>): Tables {
    if events == [] then Tables(map[], map[], map[], map[])
    else
      var n := |events| - 1;
      var t := Replay(events[..n]);
      match events[n]
      case Arrive(k, row) => t.(raw := t.raw[k := row])
      case Call(now) => Rolled(t, now)
      case Purge(cuts) => Purged(t, cuts)
  }

  function LastCall(events: seq<Event>, since: int): int {
    if events == [] then since
    else
      var n := |events| - 1;
      match events[n]
      case Call(now) => now
      case _ => LastCall(events[..n], since)
  }

  /** Calls in order, no purge, and no sample dated before the last ten minutes complete at the call that came before it,
      or at `since` when none did. */
  predicate InOrder(events: seq<Event>, since: int) {
    events == [] ||
    (var n := |events| - 1;
     InOrder(events[..n], since)
     && match events[n]
        case Arrive(k, _) => k.at >= Settled(TenMinutes, LastCall(events[..n], since))
        case Call(now) => now >= LastCall(events[..n], since)
        case Purge(_) => false)
  }

  /** The raw samples the last call saw. */
  function Summarised(events: seq<Event>): map<Slot, Raw> {
    if events == [] then map[]
    else
      var n := |events| - 1;
      if events[n].Call? then Replay(events[..n]).raw else Summarised(events[..n])
  }

  /** Each level is what a batch over those would be, and what arrived since is not older than their last ten minutes. */
  lemma {:induction false} ReplayUpToDate(events: seq<Event>, since: int)
    requires InOrder(events, since)
    ensures var t, raw := Replay(events), Summarised(events);
            UpToDate(t.(raw := raw), LastCall(events, since)) && OnlyLater(raw, t.raw, LastCall(events, since))
  {
    if events == [] {
      EmptyUpToDate(Tables(map[], map[], map[], map[]), since);
    } else {
      var n := |events| - 1;
      ReplayUpToDate(events[..n], since);
      if events[n].Call? {
        var t := Replay(events[..n]);
        CallKeepsUpToDate(t.(raw := Summarised(events[..n])), t.raw, LastCall(events[..n], since), events[n].now);
      }
    }
  }

  lemma EmptyUpToDate(t: Tables, now: int)
    requires t.ten == t.hour == t.day == map[] && forall k :: k in t.raw ==> now <= k.at
    ensures UpToDate(t, now)
  {
    EmptyIsFull(Source(t.raw), TenMinutes, now);
    EmptyIsFull(map[], Hourly, now);
    EmptyIsFull(map[], Daily, now);
  }

  lemma EmptyIsFull(src: Table, l: Level, now: int)
    requires forall k :: k in src ==> now <= k.at
    ensures IsFull(map[], src, l, now)
  {
    forall k: Slot
      ensures FullAt(map[], src, l, now, k)
    {
      if Complete(k, l, now) {
        NothingBefore(src, k.host, k.at, k.at + Size(l), now);
      }
    }
  }

  /** One Aggregate over everything, from empty levels. */
  function Batch(raw: map<Slot, Raw>, now: int): Tables {
    Rolled(Tables(raw, map[], map[], map[]), now)
  }

  lemma BatchUpToDate(raw: map<Slot, Raw>, since: int, now: int)
    requires since <= now && forall k :: k in raw ==> since <= k.at
    ensures UpToDate(Batch(raw, now), now)
  {
    EmptyUpToDate(Tables(map[], map[], map[], map[]), since);
    CallKeepsUpToDate(Tables(map[], map[], map[], map[]), raw, since, now);
  }

  lemma SameWhenUpToDate(a: Tables, b: Tables, now: int)
    requires a.raw == b.raw && UpToDate(a, now) && UpToDate(b, now)
    ensures a == b
  {
    FullIsUnique(a.ten, b.ten, Source(a.raw), TenMinutes, now);
    FullIsUnique(a.hour, b.hour, a.ten, Hourly, now);
    FullIsUnique(a.day, b.day, a.hour, Daily, now);
  }

  lemma {:induction false} NeverBefore(events: seq<Event>, since: int)
    requires InOrder(events, since)
    ensures LastCall(events, since) >= since
    ensures forall k :: k in Replay(events).raw ==> k.at >= Settled(TenMinutes, since)
  {
    if events != [] {
      NeverBefore(events[..|events| - 1], since);
    }
  }

  /** After every call of a run in order, each level is what a batch over the level below would write. */
  lemma CallsUpToDate(events: seq<Event>, since: int)
    requires events != [] && events[|events| - 1].Call? && InOrder(events, since)
    ensures UpToDate(Replay(events), events[|events| - 1].now)
  {
    NextUpToDate(events[..|events| - 1], since, events[|events| - 1].now);
  }

  lemma NextUpToDate(events: seq<Event>, since: int, now: int)
    requires InOrder(events, since) && now >= LastCall(events, since)
    ensures UpToDate(Rolled(Replay(events), now), now)
  {
    var t := Replay(events);
    ReplayUpToDate(events, since);
    CallKeepsUpToDate(t.(raw := Summarised(events)), t.raw, LastCall(events, since), now);
  }

  /** Hourly calls leave exactly what one call at the end would write: over any run that ends in a call, however late the
      samples within the last complete ten minutes. */
  lemma IncrementalIsBatch(events: seq<Event>, since: int)
    requires events != [] && events[|events| - 1].Call? && InOrder(events, since)
    ensures Replay(events) == Batch(Replay(events).raw, events[|events| - 1].now)
  {
    var now, t := events[|events| - 1].now, Replay(events);
    CallsUpToDate(events, since);
    NeverBefore(events, since);
    NeverBefore(events[..|events| - 1], since);
    TruncatedIsAligned(TenMinutes, since);
    BatchUpToDate(t.raw, Settled(TenMinutes, since), now);
    SameWhenUpToDate(t, Batch(t.raw, now), now);
  }

  /** The window k of a level still comes out as it did: below the newest one it is not rewritten, so it must summarise the
      same; from there on it is, but a window left without rows keeps its old row. */
  predicate StillGood(src: Table, src': Table, l: Level, newest: int, k: Slot) {
    && (HasRows(src, k, l) ==> HasRows(src', k, l))
    && (k.at < newest ==> (HasRows(src', k, l) ==> HasRows(src, k, l)) && SummaryAt(src', k, l) == SummaryAt(src, k, l))
  }

  ghost predicate AllStillGood(src: Table, src': Table, l: Level, newest: int, since: int) {
    forall k: Slot :: Complete(k, l, since) ==> StillGood(src, src', l, newest, k)
  }

  /** What a step is worth when the past did change, by a late sample or a purge: it agrees with the batch exactly when no
      window written before has lost all its rows and none below the newest would come out differently. */
  lemma StepExact(dst: Table, src: Table, src': Table, l: Level, since: int, now: int)
    requires IsFull(dst, src, l, since) && since <= now && Instants(dst) != {}
    ensures IsFull(Stepped(dst, src', l, now), src', l, now)
            <==> AllStillGood(src, src', l, Sets.MaxOf(Instants(dst)), since)
  {
    var start := Sets.MaxOf(Instants(dst));
    var dst' := Stepped(dst, src', l, now);
    forall k: Slot
      ensures FullAt(dst', src', l, now, k) <==> (Complete(k, l, since) ==> StillGood(src, src', l, start, k))
    {
      StepExactAt(dst, src, src', l, since, now, k);
    }
  }

  lemma StepExactAt(dst: Table, src: Table, src': Table, l: Level, since: int, now: int, k: Slot)
    requires IsFull(dst, src, l, since) && since <= now && Instants(dst) != {}
    ensures FullAt(Stepped(dst, src', l, now), src', l, now, k)
            <==> (Complete(k, l, since) ==> StillGood(src, src', l, Sets.MaxOf(Instants(dst)), k))
  {
    var start := Sets.MaxOf(Instants(dst));
    var newest :| newest in dst && newest.at == start;
    assert FullAt(dst, src, l, since, newest) && FullAt(dst, src, l, since, k);
    var dst' := WrittenFrom(dst, src', l, start, now);
    WrittenFromAt(dst, src', l, start, now, k);
    if k.at >= start {
      RewrittenExact(dst, dst', src, src', l, since, now, start, k);
    } else {
      if Aligned(l, k.at) {
        NextWindow(l, k.at, start);
      }
      KeptExact(dst, dst', src, src', l, since, now, start, k);
    }
  }

  lemma RewrittenExact(dst: Table, dst': Table, src: Table, src': Table, l: Level, since: int, now: int, newest: int, k: Slot)
    requires FullAt(dst, src, l, since, k) && since <= now && k.at >= newest
    requires if Complete(k, l, now) && HasRows(src', k, l) then k in dst' && dst'[k] == SummaryAt(src', k, l)
             else (k in dst' <==> k in dst) && (k in dst ==> dst'[k] == dst[k])
    ensures FullAt(dst', src', l, now, k) <==> (Complete(k, l, since) ==> StillGood(src, src', l, newest, k))
  {
  }

  lemma KeptExact(dst: Table, dst': Table, src: Table, src': Table, l: Level, since: int, now: int, newest: int, k: Slot)
    requires FullAt(dst, src, l, since, k) && since <= now && k.at < newest && newest + Size(l) <= since
    requires Aligned(l, k.at) ==> k.at + Size(l) <= newest
    requires (k in dst' <==> k in dst) && (k in dst ==> dst'[k] == dst[k])
    ensures FullAt(dst', src', l, now, k) <==> (Complete(k, l, since) ==> StillGood(src, src', l, newest, k))
  {
    if !HasRows(src, k, l) && !HasRows(src', k, l) {
      assert SummaryAt(src', k, l) == SummaryAt(src, k, l);
    }
  }

  /** The samples of every resolution. */
  class SampleStore {
    var raw: map<Slot, Raw>
    var ten: Table
    var hour: Table
    var day: Table

    constructor ()
      ensures Held() == Tables(map[], map[], map[], map[])
    {
      raw, ten, hour, day := map[], map[], map[], map[];
    }

    function Held(): Tables
      reads this
    {
      Tables(raw, ten, hour, day)
    }

    /** Each level from the one below it, the finest first. */
    method Aggregate(now: int)
      modifies this
      ensures Held() == Rolled(old(Held()), now)
    {
      ten := AggregateStep(ten, Source(raw), TenMinutes, now);
      hour := AggregateStep(hour, ten, Hourly, now);
      day := AggregateStep(day, hour, Daily, now);
    }

    /** Rows older than their table keeps go; the days are kept. */
    method Purge(now: int, r: Keep)
      modifies this
      ensures Held() == Purged(old(Held()), CutsOf(r, now))
      ensures forall k :: k in raw <==> (k in old(raw) && now - k.at <= r.raw)
      ensures forall k :: k in ten <==> (k in old(ten) && now - k.at <= r.ten)
      ensures forall k :: k in hour <==> (k in old(hour) && now - k.at <= r.hour)
      ensures day == old(day)
    {
      raw := map k | k in raw && k.at >= now - r.raw :: raw[k];
      ten := map k | k in ten && k.at >= now - r.ten :: ten[k];
      hour := map k | k in hour && k.at >= now - r.hour :: hour[k];
    }

    /** The hourly call: roll up, then purge. */
    method RollUp(now: int, r: Keep)
      modifies this
      ensures Held() == Purged(Rolled(old(Held()), now), CutsOf(r, now))
    {
      Aggregate(now);
      Purge(now, r);
    }
  }
}
