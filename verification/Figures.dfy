/**
 What every figure of the rollup says, read off the rows below it one instant at a time: the mean of the values there are,
 the smallest and the largest of them, the newest list. The lengths of the windows and the fields of the samples are written
 out, so nothing here rests on how a summary is computed.
 */
module Figures {
  import opened Options
  import opened Rollup
  import Extremes

  // ---------- one column over a stretch of one host's rows ----------

  function ValueOf<V, W>(t: map<Slot, V>, host: int, at: int, f: V -> Option<W>): Option<W> {
    if Slot(host, at) in t then f(t[Slot(host, at)]) else None
  }

  function Total<V>(t: map<Slot, V>, host: int, from: int, until: int, f: V -> Option<real>): real
    decreases until - from
  {
    if until <= from then 0.0
    else
      var v := ValueOf(t, host, until - 1, f);
      Total(t, host, from, until - 1, f) + if v.Some? then v.value else 0.0
  }

  function Number<V>(t: map<Slot, V>, host: int, from: int, until: int, f: V -> Option<real>): nat
    decreases until - from
  {
    if until <= from then 0
    else Number(t, host, from, until - 1, f) + if ValueOf(t, host, until - 1, f).Some? then 1 else 0
  }

  /** The mean of the values there are; none when there are none. */
  predicate IsMean<V>(t: map<Slot, V>, host: int, from: int, until: int, f: V -> Option<real>, m: Option<real>) {
    MeanOf(Total(t, host, from, until, f), Number(t, host, from, until, f), m)
  }

  predicate MeanOf(total: real, n: nat, m: Option<real>) {
    if n == 0 then m.None? else m.Some? && m.value * n as real == total
  }

  ghost predicate IsLeast<V>(t: map<Slot, V>, host: int, from: int, until: int, f: V -> Option<real>, m: Option<real>) {
    && (m.Some? ==> exists at :: from <= at < until && ValueOf(t, host, at, f) == m)
    && forall at :: from <= at < until && ValueOf(t, host, at, f).Some? ==> m.Some? && m.value <= ValueOf(t, host, at, f).value
  }

  ghost predicate IsGreatest<V>(t: map<Slot, V>, host: int, from: int, until: int, f: V -> Option<real>, m: Option<real>) {
    && (m.Some? ==> exists at :: from <= at < until && ValueOf(t, host, at, f) == m)
    && forall at :: from <= at < until && ValueOf(t, host, at, f).Some? ==> m.Some? && ValueOf(t, host, at, f).value <= m.value
  }

  ghost predicate IsNewest<V>(t: map<Slot, V>, host: int, from: int, until: int, f: V -> Option<string>, m: Option<string>) {
    if m.None? then forall at :: from <= at < until ==> ValueOf(t, host, at, f).None?
    else exists at :: from <= at < until && ValueOf(t, host, at, f) == m && NoneAfter(t, host, at, until, f)
  }

  ghost predicate NoneAfter<V>(t: map<Slot, V>, host: int, at: int, until: int, f: V -> Option<string>) {
    forall u :: at < u < until ==> ValueOf(t, host, u, f).None?
  }

  // ---------- a row against the rows below it ----------

  /** A figure with its mean and both extremes, and one with its mean and its maximum. */
  ghost predicate IsStat<V>(t: map<Slot, V>, k: Slot, until: int, mean: V -> Option<real>, least: V -> Option<real>,
                            greatest: V -> Option<real>, s: Stat) {
    && IsMean(t, k.host, k.at, until, mean, s.avg)
    && IsLeast(t, k.host, k.at, until, least, s.min)
    && IsGreatest(t, k.host, k.at, until, greatest, s.max)
  }

  ghost predicate IsPeak<V>(t: map<Slot, V>, k: Slot, until: int, mean: V -> Option<real>, greatest: V -> Option<real>, p: Peak) {
    IsMean(t, k.host, k.at, until, mean, p.avg) && IsGreatest(t, k.host, k.at, until, greatest, p.max)
  }

  /** A ten-minute row and the raw samples of its window: its figures with extremes, its plain means, its lists. */
  ghost predicate TellsRaw(t: map<Slot, Raw>, k: Slot, until: int, r: Row) {
    RawStats(t, k, until, r) && RawPeaks(t, k, until, r) && RawMeans(t, k, until, r) && RawLists(t, k, until, r)
  }

  ghost predicate RawStats(t: map<Slot, Raw>, k: Slot, until: int, r: Row) {
    && IsStat(t, k, until, (x: Raw) => x.cpu, (x: Raw) => x.cpu, (x: Raw) => x.cpu, r.cpu)
    && IsStat(t, k, until, (x: Raw) => x.memUsed, (x: Raw) => x.memUsed, (x: Raw) => x.memUsed, r.memUsed)
  }

  ghost predicate RawPeaks(t: map<Slot, Raw>, k: Slot, until: int, r: Row) {
    && IsGreatest(t, k.host, k.at, until, (x: Raw) => x.memTotal, r.memTotal)
    && IsPeak(t, k, until, (x: Raw) => x.netSent, (x: Raw) => x.netSent, r.netSent)
    && IsPeak(t, k, until, (x: Raw) => x.netRecv, (x: Raw) => x.netRecv, r.netRecv)
  }

  ghost predicate RawMeans(t: map<Slot, Raw>, k: Slot, until: int, r: Row) {
    && IsMean(t, k.host, k.at, until, (x: Raw) => x.swapUsed, r.swapUsed)
    && IsMean(t, k.host, k.at, until, (x: Raw) => x.load1, r.load1)
    && IsMean(t, k.host, k.at, until, (x: Raw) => x.load5, r.load5)
    && IsMean(t, k.host, k.at, until, (x: Raw) => x.load15, r.load15)
  }

  ghost predicate RawLists(t: map<Slot, Raw>, k: Slot, until: int, r: Row) {
    && IsNewest(t, k.host, k.at, until, (x: Raw) => x.disks, r.disks)
    && IsNewest(t, k.host, k.at, until, (x: Raw) => x.temps, r.temps)
  }

  /** A row of an upper level and the rows of the level below in its window. */
  ghost predicate TellsRows(t: Table, k: Slot, until: int, r: Row) {
    RowStats(t, k, until, r) && RowPeaks(t, k, until, r) && RowMeans(t, k, until, r) && RowLists(t, k, until, r)
  }

  ghost predicate RowStats(t: Table, k: Slot, until: int, r: Row) {
    && IsStat(t, k, until, (x: Row) => x.cpu.avg, (x: Row) => x.cpu.min, (x: Row) => x.cpu.max, r.cpu)
    && IsStat(t, k, until, (x: Row) => x.memUsed.avg, (x: Row) => x.memUsed.min, (x: Row) => x.memUsed.max, r.memUsed)
  }

  ghost predicate RowPeaks(t: Table, k: Slot, until: int, r: Row) {
    && IsGreatest(t, k.host, k.at, until, (x: Row) => x.memTotal, r.memTotal)
    && IsPeak(t, k, until, (x: Row) => x.netSent.avg, (x: Row) => x.netSent.max, r.netSent)
    && IsPeak(t, k, until, (x: Row) => x.netRecv.avg, (x: Row) => x.netRecv.max, r.netRecv)
  }

  ghost predicate RowMeans(t: Table, k: Slot, until: int, r: Row) {
    && IsMean(t, k.host, k.at, until, (x: Row) => x.swapUsed, r.swapUsed)
    && IsMean(t, k.host, k.at, until, (x: Row) => x.load1, r.load1)
    && IsMean(t, k.host, k.at, until, (x: Row) => x.load5, r.load5)
    && IsMean(t, k.host, k.at, until, (x: Row) => x.load15, r.load15)
  }

  ghost predicate RowLists(t: Table, k: Slot, until: int, r: Row) {
    && IsNewest(t, k.host, k.at, until, (x: Row) => x.disks, r.disks)
    && IsNewest(t, k.host, k.at, until, (x: Row) => x.temps, r.temps)
  }

  // ---------- a summary's columns ----------

  /** f reads of t what the column reads of src. */
  ghost predicate Reads<V>(t: map<Slot, V>, src: Table, f: V -> Option<real>, c: Column) {
    forall k :: (k in t <==> k in src) && (k in t ==> f(t[k]) == Read(src[k], c))
  }

  ghost predicate ReadsList<V>(t: map<Slot, V>, src: Table, f: V -> Option<string>, c: Lists) {
    forall k :: (k in t <==> k in src) && (k in t ==> f(t[k]) == ReadList(src[k], c))
  }

  lemma OneRowMore(rows: seq<Row>, r: Row, c: Column)
    ensures Sum(rows + [r], c) == Sum(rows, c) + if Read(r, c).Some? then Read(r, c).value else 0.0
    ensures Counted(rows + [r], c) == Counted(rows, c) + if Read(r, c).Some? then 1 else 0
  {
    assert (rows + [r])[..|rows|] == rows;
  }

  lemma {:induction false} SumsOver<V>(t: map<Slot, V>, src: Table, host: int, from: int, until: int, f: V -> Option<real>, c: Column)
    requires Reads(t, src, f, c)
    ensures Total(t, host, from, until, f) == Sum(Collect(src, host, from, until), c)
    ensures Number(t, host, from, until, f) == Counted(Collect(src, host, from, until), c)
    decreases until - from
  {
    if from < until {
      SumsOver(t, src, host, from, until - 1, f, c);
      var rows := Collect(src, host, from, until - 1);
      if Slot(host, until - 1) in src {
        OneRowMore(rows, src[Slot(host, until - 1)], c);
      } else {
        assert rows + [] == rows;
      }
    }
  }

  lemma AverageIsMean(rows: seq<Row>, c: Column)
    ensures MeanOf(Sum(rows, c), Counted(rows, c), Average(rows, c))
  {
  }

  lemma MeanIs<V>(t: map<Slot, V>, src: Table, host: int, from: int, until: int, f: V -> Option<real>, c: Column)
    requires Reads(t, src, f, c)
    ensures IsMean(t, host, from, until, f, Average(Collect(src, host, from, until), c))
  {
    SumsOver(t, src, host, from, until, f, c);
    AverageIsMean(Collect(src, host, from, until), c);
  }

  lemma LeastIs<V>(t: map<Slot, V>, src: Table, host: int, from: int, until: int, f: V -> Option<real>, c: Column)
    requires Reads(t, src, f, c)
    ensures IsLeast(t, host, from, until, f, Best(Collect(src, host, from, until), c, false))
  {
    var m := Best(Collect(src, host, from, until), c, false);
    Extremes.BestIsBest(src, host, from, until, c, false);
    if m.Some? {
      var at :| Extremes.Attains(src, host, from, until, at, c, m);
      assert ValueOf(t, host, at, f) == m;
    }
    forall at | from <= at < until && ValueOf(t, host, at, f).Some?
      ensures m.Some? && m.value <= ValueOf(t, host, at, f).value
    {
      assert Extremes.Holds(src, host, from, until, at, c);
    }
  }

  lemma GreatestIs<V>(t: map<Slot, V>, src: Table, host: int, from: int, until: int, f: V -> Option<real>, c: Column)
    requires Reads(t, src, f, c)
    ensures IsGreatest(t, host, from, until, f, Best(Collect(src, host, from, until), c, true))
  {
    var m := Best(Collect(src, host, from, until), c, true);
    Extremes.BestIsBest(src, host, from, until, c, true);
    if m.Some? {
      var at :| Extremes.Attains(src, host, from, until, at, c, m);
      assert ValueOf(t, host, at, f) == m;
    }
    forall at | from <= at < until && ValueOf(t, host, at, f).Some?
      ensures m.Some? && ValueOf(t, host, at, f).value <= m.value
    {
      assert Extremes.Holds(src, host, from, until, at, c);
    }
  }

  lemma NewestIs<V>(t: map<Slot, V>, src: Table, host: int, from: int, until: int, f: V -> Option<string>, c: Lists)
    requires ReadsList(t, src, f, c)
    ensures IsNewest(t, host, from, until, f, Latest(Collect(src, host, from, until), c))
  {
    var at := Extremes.LatestIsNewest(src, host, from, until, c);
    forall u | from <= u < until && ValueOf(t, host, u, f).Some?
      ensures Latest(Collect(src, host, from, until), c).Some? && u <= at
    {
      assert Extremes.HasList(src, host, u, c);
    }
    if Latest(Collect(src, host, from, until), c).Some? {
      assert NoneAfter(t, host, at, until, f);
    }
  }

  lemma StatIs<V>(t: map<Slot, V>, src: Table, k: Slot, until: int, mean: V -> Option<real>, least: V -> Option<real>,
                  greatest: V -> Option<real>, avg: Column, min: Column, max: Column)
    requires Reads(t, src, mean, avg) && Reads(t, src, least, min) && Reads(t, src, greatest, max)
    ensures var rows := Collect(src, k.host, k.at, until);
            IsStat(t, k, until, mean, least, greatest, Stat(Average(rows, avg), Best(rows, min, false), Best(rows, max, true)))
  {
    MeanIs(t, src, k.host, k.at, until, mean, avg);
    LeastIs(t, src, k.host, k.at, until, least, min);
    GreatestIs(t, src, k.host, k.at, until, greatest, max);
  }

  lemma PeakIs<V>(t: map<Slot, V>, src: Table, k: Slot, until: int, mean: V -> Option<real>, greatest: V -> Option<real>,
                  avg: Column, max: Column)
    requires Reads(t, src, mean, avg) && Reads(t, src, greatest, max)
    ensures var rows := Collect(src, k.host, k.at, until);
            IsPeak(t, k, until, mean, greatest, Peak(Average(rows, avg), Best(rows, max, true)))
  {
    MeanIs(t, src, k.host, k.at, until, mean, avg);
    GreatestIs(t, src, k.host, k.at, until, greatest, max);
  }

  lemma SummaryTellsRaw(raw: map<Slot, Raw>, k: Slot, l: Level)
    ensures TellsRaw(raw, k, k.at + Size(l), SummaryAt(Source(raw), k, l))
  {
    var until := k.at + Size(l);
    var src := Source(raw);
    SummaryTellsRawStats(raw, src, k, until);
    SummaryTellsRawPeaks(raw, src, k, until);
    SummaryTellsRawMeans(raw, src, k, until);
    NewestIs(raw, src, k.host, k.at, until, (x: Raw) => x.disks, Disks);
    NewestIs(raw, src, k.host, k.at, until, (x: Raw) => x.temps, Temps);
  }

  lemma SummaryTellsRawStats(raw: map<Slot, Raw>, src: Table, k: Slot, until: int)
    requires src == Source(raw)
    ensures RawStats(raw, k, until, Summary(Collect(src, k.host, k.at, until)))
  {
    StatIs(raw, src, k, until, (x: Raw) => x.cpu, (x: Raw) => x.cpu, (x: Raw) => x.cpu, CpuAvg, CpuMin, CpuMax);
    StatIs(raw, src, k, until, (x: Raw) => x.memUsed, (x: Raw) => x.memUsed, (x: Raw) => x.memUsed, MemAvg, MemMin, MemMax);
  }

  lemma SummaryTellsRawPeaks(raw: map<Slot, Raw>, src: Table, k: Slot, until: int)
    requires src == Source(raw)
    ensures RawPeaks(raw, k, until, Summary(Collect(src, k.host, k.at, until)))
  {
    GreatestIs(raw, src, k.host, k.at, until, (x: Raw) => x.memTotal, MemTotal);
    SummaryTellsSent(raw, src, k, until);
    SummaryTellsReceived(raw, src, k, until);
  }

  lemma SummaryTellsSent(raw: map<Slot, Raw>, src: Table, k: Slot, until: int)
    requires src == Source(raw)
    ensures IsPeak(raw, k, until, (x: Raw) => x.netSent, (x: Raw) => x.netSent, Summary(Collect(src, k.host, k.at, until)).netSent)
  {
    PeakIs(raw, src, k, until, (x: Raw) => x.netSent, (x: Raw) => x.netSent, SentAvg, SentMax);
  }

  lemma SummaryTellsReceived(raw: map<Slot, Raw>, src: Table, k: Slot, until: int)
    requires src == Source(raw)
    ensures IsPeak(raw, k, until, (x: Raw) => x.netRecv, (x: Raw) => x.netRecv, Summary(Collect(src, k.host, k.at, until)).netRecv)
  {
    PeakIs(raw, src, k, until, (x: Raw) => x.netRecv, (x: Raw) => x.netRecv, RecvAvg, RecvMax);
  }

  lemma SummaryTellsRawMeans(raw: map<Slot, Raw>, src: Table, k: Slot, until: int)
    requires src == Source(raw)
    ensures RawMeans(raw, k, until, Summary(Collect(src, k.host, k.at, until)))
  {
    MeanIs(raw, src, k.host, k.at, until, (x: Raw) => x.swapUsed, SwapAvg);
    MeanIs(raw, src, k.host, k.at, until, (x: Raw) => x.load1, Load1);
    MeanIs(raw, src, k.host, k.at, until, (x: Raw) => x.load5, Load5);
    MeanIs(raw, src, k.host, k.at, until, (x: Raw) => x.load15, Load15);
  }

  lemma SummaryTellsRows(src: Table, k: Slot, l: Level)
    ensures TellsRows(src, k, k.at + Size(l), SummaryAt(src, k, l))
  {
    var until := k.at + Size(l);
    SummaryTellsRowStats(src, k, until);
    SummaryTellsRowPeaks(src, k, until);
    SummaryTellsRowMeans(src, k, until);
    NewestIs(src, src, k.host, k.at, until, (x: Row) => x.disks, Disks);
    NewestIs(src, src, k.host, k.at, until, (x: Row) => x.temps, Temps);
  }

  lemma SummaryTellsRowStats(src: Table, k: Slot, until: int)
    ensures RowStats(src, k, until, Summary(Collect(src, k.host, k.at, until)))
  {
    StatIs(src, src, k, until, (x: Row) => x.cpu.avg, (x: Row) => x.cpu.min, (x: Row) => x.cpu.max, CpuAvg, CpuMin, CpuMax);
    StatIs(src, src, k, until, (x: Row) => x.memUsed.avg, (x: Row) => x.memUsed.min, (x: Row) => x.memUsed.max,
           MemAvg, MemMin, MemMax);
  }

  lemma SummaryTellsRowPeaks(src: Table, k: Slot, until: int)
    ensures RowPeaks(src, k, until, Summary(Collect(src, k.host, k.at, until)))
  {
    GreatestIs(src, src, k.host, k.at, until, (x: Row) => x.memTotal, MemTotal);
    PeakIs(src, src, k, until, (x: Row) => x.netSent.avg, (x: Row) => x.netSent.max, SentAvg, SentMax);
    PeakIs(src, src, k, until, (x: Row) => x.netRecv.avg, (x: Row) => x.netRecv.max, RecvAvg, RecvMax);
  }

  lemma SummaryTellsRowMeans(src: Table, k: Slot, until: int)
    ensures RowMeans(src, k, until, Summary(Collect(src, k.host, k.at, until)))
  {
    MeanIs(src, src, k.host, k.at, until, (x: Row) => x.swapUsed, SwapAvg);
    MeanIs(src, src, k.host, k.at, until, (x: Row) => x.load1, Load1);
    MeanIs(src, src, k.host, k.at, until, (x: Row) => x.load5, Load5);
    MeanIs(src, src, k.host, k.at, until, (x: Row) => x.load15, Load15);
  }

  // ---------- every level, in lengths of time ----------

  /** A complete window of the given length, counted from the epoch, with something of the host's in it. */
  ghost predicate Filled<V>(t: map<Slot, V>, k: Slot, length: int, now: int)
    requires length > 0
  {
    k.at % length == 0 && k.at + length <= now && exists at :: k.at <= at < k.at + length && Slot(k.host, at) in t
  }

  ghost predicate TenSays(t: Tables, now: int, k: Slot) {
    && (k in t.ten <==> Filled(t.raw, k, 600_000_000_000, now))
    && (k in t.ten ==> TellsRaw(t.raw, k, k.at + 600_000_000_000, t.ten[k]))
  }

  ghost predicate HourSays(t: Tables, now: int, k: Slot) {
    && (k in t.hour <==> Filled(t.ten, k, 3_600_000_000_000, now))
    && (k in t.hour ==> TellsRows(t.ten, k, k.at + 3_600_000_000_000, t.hour[k]))
  }

  ghost predicate DaySays(t: Tables, now: int, k: Slot) {
    && (k in t.day <==> Filled(t.hour, k, 86_400_000_000_000, now))
    && (k in t.day ==> TellsRows(t.hour, k, k.at + 86_400_000_000_000, t.day[k]))
  }

  lemma Lengths(l: Level, at: int)
    ensures Size(l) == match l case TenMinutes => 600_000_000_000 case Hourly => 3_600_000_000_000 case Daily => 86_400_000_000_000
    ensures Aligned(l, at) <==> at % Size(l) == 0
  {
  }

  lemma CompleteIsFilled<V>(t: map<Slot, V>, src: Table, k: Slot, l: Level, now: int)
    requires forall j :: j in t <==> j in src
    ensures Complete(k, l, now) && HasRows(src, k, l) <==> Filled(t, k, Size(l), now)
  {
    Lengths(l, k.at);
    if HasRows(src, k, l) {
      var row := Collect(src, k.host, k.at, k.at + Size(l))[0];
      CollectedRows(src, k.host, k.at, k.at + Size(l), row);
      var at :| k.at <= at < k.at + Size(l) && Slot(k.host, at) in src && src[Slot(k.host, at)] == row;
      assert Slot(k.host, at) in t;
    }
    if Filled(t, k, Size(l), now) {
      var at :| k.at <= at < k.at + Size(l) && Slot(k.host, at) in t;
      CollectedRows(src, k.host, k.at, k.at + Size(l), src[Slot(k.host, at)]);
      assert IsRowOf(src, k.host, k.at, k.at + Size(l), src[Slot(k.host, at)]);
    }
  }

  lemma LevelsSay(t: Tables, now: int, k: Slot)
    requires UpToDate(t, now)
    ensures TenSays(t, now, k) && HourSays(t, now, k) && DaySays(t, now, k)
  {
    TenMinutesSay(t, now, k);
    HoursSay(t, now, k);
    DaysSay(t, now, k);
  }

  lemma TenMinutesSay(t: Tables, now: int, k: Slot)
    requires IsFull(t.ten, Source(t.raw), TenMinutes, now)
    ensures TenSays(t, now, k)
  {
    assert FullAt(t.ten, Source(t.raw), TenMinutes, now, k);
    CompleteIsFilled(t.raw, Source(t.raw), k, TenMinutes, now);
    SummaryTellsRaw(t.raw, k, TenMinutes);
  }

  lemma HoursSay(t: Tables, now: int, k: Slot)
    requires IsFull(t.hour, t.ten, Hourly, now)
    ensures HourSays(t, now, k)
  {
    assert FullAt(t.hour, t.ten, Hourly, now, k);
    CompleteIsFilled(t.ten, t.ten, k, Hourly, now);
    SummaryTellsRows(t.ten, k, Hourly);
  }

  lemma DaysSay(t: Tables, now: int, k: Slot)
    requires IsFull(t.day, t.hour, Daily, now)
    ensures DaySays(t, now, k)
  {
    assert FullAt(t.day, t.hour, Daily, now, k);
    CompleteIsFilled(t.hour, t.hour, k, Daily, now);
    SummaryTellsRows(t.hour, k, Daily);
  }

  /** After every call of a run in order: at each level exactly the complete windows with something in them, and in every
      column the mean, the extremes and the newest list of what is there; at ten minutes, of the raw samples themselves. */
  lemma FiguresAreExact(events: seq<Event>, since: int, k: Slot)
    requires events != [] && events[|events| - 1].Call? && InOrder(events, since)
    ensures var t, now := Replay(events), events[|events| - 1].now;
            TenSays(t, now, k) && HourSays(t, now, k) && DaySays(t, now, k)
  {
    CallsUpToDate(events, since);
    LevelsSay(Replay(events), events[|events| - 1].now, k);
  }

  /** From any tables, late samples and purges behind them or not: a row one step leaves is what it was, or says what the
      rows below it say. */
  lemma StepTells(dst: Table, src: Table, l: Level, now: int, k: Slot)
    requires k in Stepped(dst, src, l, now)
    ensures var r := Stepped(dst, src, l, now)[k];
            (k in dst && r == dst[k]) || (TellsRows(src, k, k.at + Size(l), r) && Filled(src, k, Size(l), now))
  {
    if StartOf(dst, src).Some? {
      var start := Truncated(l, StartOf(dst, src).value);
      TruncatedIsAligned(l, StartOf(dst, src).value);
      WrittenFromAt(dst, src, l, start, now, k);
      CompleteIsFilled(src, src, k, l, now);
      SummaryTellsRows(src, k, l);
    }
  }
}
