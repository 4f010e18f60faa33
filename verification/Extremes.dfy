/**
 What the rollup's columns are worth: a minimum or maximum survives every level exactly, and an average, though no longer
 the average of the raw values, never leaves the range they span.
 */
module Extremes {
  import opened Options
  import opened Rollup
  import Zone

  /** The columns that carry an extreme, and which one. */
  predicate IsExtreme(c: Column, up: bool) {
    if up then c == CpuMax || c == MemMax || c == MemTotal || c == SentMax || c == RecvMax else c == CpuMin || c == MemMin
  }

  predicate Holds(t: Table, host: int, from: int, until: int, at: int, c: Column) {
    from <= at < until && Slot(host, at) in t && Read(t[Slot(host, at)], c).Some?
  }

  /** m is the largest (or smallest) value of a column in a stretch of one host's rows; None when there is none. */
  ghost predicate IsBest(t: Table, host: int, from: int, until: int, c: Column, up: bool, m: Option<real>) {
    && (m.Some? ==> exists at :: Attains(t, host, from, until, at, c, m))
    && forall at :: Holds(t, host, from, until, at, c) ==> m.Some? && !Beats(Read(t[Slot(host, at)], c).value, m.value, up)
  }

  predicate Attains(t: Table, host: int, from: int, until: int, at: int, c: Column, m: Option<real>) {
    Holds(t, host, from, until, at, c) && Read(t[Slot(host, at)], c) == m
  }

  lemma {:induction false} BestIsBest(t: Table, host: int, from: int, until: int, c: Column, up: bool)
    ensures IsBest(t, host, from, until, c, up, Best(Collect(t, host, from, until), c, up))
    decreases until - from
  {
    if from < until {
      BestIsBest(t, host, from, until - 1, c, up);
      var rows := Collect(t, host, from, until - 1);
      OneMoreInstant(t, host, from, until, c, up, Best(rows, c, up));
      if Slot(host, until - 1) in t {
        assert (rows + [t[Slot(host, until - 1)]])[..|rows|] == rows;
      } else {
        assert rows + [] == rows;
      }
    }
  }

  function ValueAt(t: Table, k: Slot, c: Column): Option<real> {
    if k in t then Read(t[k], c) else None
  }

  lemma OneMoreInstant(t: Table, host: int, from: int, until: int, c: Column, up: bool, m: Option<real>)
    requires from < until && IsBest(t, host, from, until - 1, c, up, m)
    ensures IsBest(t, host, from, until, c, up, Better(m, ValueAt(t, Slot(host, until - 1), c), up))
  {
    var v := ValueAt(t, Slot(host, until - 1), c);
    var best := Better(m, v, up);
    if best.Some? {
      if best == v {
        assert Attains(t, host, from, until, until - 1, c, best);
      } else {
        var at :| Attains(t, host, from, until - 1, at, c, m);
        assert Attains(t, host, from, until, at, c, best);
      }
    }
    forall at | Holds(t, host, from, until, at, c)
      ensures best.Some? && !Beats(Read(t[Slot(host, at)], c).value, best.value, up)
    {
      assert at == until - 1 || Holds(t, host, from, until - 1, at, c);
    }
  }

  lemma SummaryReads(rows: seq<Row>, c: Column, up: bool)
    requires IsExtreme(c, up)
    ensures Read(Summary(rows), c) == Best(rows, c, up)
  {
  }

  /** A row of a level says exactly what its window of the level below holds. */
  lemma RowIsBest(t: Table, src: Table, l: Level, now: int, k: Slot, c: Column, up: bool)
    requires IsFull(t, src, l, now) && k in t && IsExtreme(c, up)
    ensures IsBest(src, k.host, k.at, k.at + Size(l), c, up, Read(t[k], c))
  {
    assert FullAt(t, src, l, now, k);
    SummaryReads(Collect(src, k.host, k.at, k.at + Size(l)), c, up);
    BestIsBest(src, k.host, k.at, k.at + Size(l), c, up);
  }

  /** The window of a source row is in the level above. */
  lemma WindowOf(t: Table, src: Table, l: Level, now: int, host: int, from: int, until: int, at: int)
    requires IsFull(t, src, l, now) && Aligned(l, from) && Aligned(l, until) && until <= now
    requires from <= at < until && Slot(host, at) in src
    ensures var w := Truncated(l, at);
            from <= w <= at < w + Size(l) <= until && Slot(host, w) in t
  {
    var w := Truncated(l, at);
    TruncatedIsAligned(l, at);
    NextWindow(l, w, until);
    NextWindow(l, w, from);
    assert FullAt(t, src, l, now, Slot(host, w));
    CollectedRows(src, host, w, w + Size(l), src[Slot(host, at)]);
    assert IsRowOf(src, host, w, w + Size(l), src[Slot(host, at)]);
  }

  /** An extreme over a stretch of a level is the extreme over the same stretch of the level below. */
  lemma BestDescends(t: Table, src: Table, l: Level, now: int, host: int, from: int, until: int, c: Column, up: bool, m: Option<real>)
    requires IsFull(t, src, l, now) && Aligned(l, from) && Aligned(l, until) && until <= now && IsExtreme(c, up)
    requires IsBest(t, host, from, until, c, up, m)
    ensures IsBest(src, host, from, until, c, up, m)
  {
    forall at | Holds(src, host, from, until, at, c)
      ensures m.Some? && !Beats(Read(src[Slot(host, at)], c).value, m.value, up)
    {
      NoneBeats(t, src, l, now, host, from, until, c, up, m, at);
    }
    if m.Some? {
      var w :| Attains(t, host, from, until, w, c, m);
      var at := AttainedBelow(t, src, l, now, host, until, c, up, m, w);
      assert Attains(src, host, from, until, at, c, m);
    }
  }

  lemma AttainedBelow(t: Table, src: Table, l: Level, now: int, host: int, until: int, c: Column, up: bool, m: Option<real>, w: int)
    returns (at: int)
    requires IsFull(t, src, l, now) && Aligned(l, until) && until <= now && IsExtreme(c, up)
    requires m.Some? && w < until && Slot(host, w) in t && Read(t[Slot(host, w)], c) == m
    ensures w <= at < until && Slot(host, at) in src && Read(src[Slot(host, at)], c) == m
  {
    assert FullAt(t, src, l, now, Slot(host, w));
    NextWindow(l, w, until);
    RowIsBest(t, src, l, now, Slot(host, w), c, up);
    at :| Attains(src, host, w, w + Size(l), at, c, m);
  }

  lemma NoneBeats(t: Table, src: Table, l: Level, now: int, host: int, from: int, until: int, c: Column, up: bool, m: Option<real>,
                  at: int)
    requires IsFull(t, src, l, now) && Aligned(l, from) && Aligned(l, until) && until <= now && IsExtreme(c, up)
    requires IsBest(t, host, from, until, c, up, m) && Holds(src, host, from, until, at, c)
    ensures m.Some? && !Beats(Read(src[Slot(host, at)], c).value, m.value, up)
  {
    WindowOf(t, src, l, now, host, from, until, at);
    var w := Truncated(l, at);
    RowIsBest(t, src, l, now, Slot(host, w), c, up);
    assert Holds(src, host, w, w + Size(l), at, c);
    assert Holds(t, host, from, until, w, c);
  }

  lemma CoarserIsAligned(at: int)
    ensures Aligned(Daily, at) ==> Aligned(Hourly, at) && Aligned(Hourly, at + Size(Daily))
    ensures Aligned(Hourly, at) ==> Aligned(TenMinutes, at) && Aligned(TenMinutes, at + Size(Hourly))
  {
    assert at / Zone.DAY * Zone.DAY == at / Zone.DAY * 24 * Zone.HOUR;
    assert at / Zone.HOUR * Zone.HOUR == at / Zone.HOUR * 6 * TEN_MINUTES;
  }

  lemma HourIsExact(t: Tables, now: int, k: Slot, c: Column, up: bool)
    requires UpToDate(t, now) && IsExtreme(c, up) && k in t.hour
    ensures IsBest(Source(t.raw), k.host, k.at, k.at + Size(Hourly), c, up, Read(t.hour[k], c))
  {
    CoarserIsAligned(k.at);
    assert FullAt(t.hour, t.ten, Hourly, now, k);
    RowIsBest(t.hour, t.ten, Hourly, now, k, c, up);
    BestDescends(t.ten, Source(t.raw), TenMinutes, now, k.host, k.at, k.at + Size(Hourly), c, up, Read(t.hour[k], c));
  }

  lemma DayIsExact(t: Tables, now: int, k: Slot, c: Column, up: bool)
    requires UpToDate(t, now) && IsExtreme(c, up) && k in t.day
    ensures IsBest(Source(t.raw), k.host, k.at, k.at + Size(Daily), c, up, Read(t.day[k], c))
  {
    CoarserIsAligned(k.at);
    CoarserIsAligned(k.at + Size(Daily));
    assert FullAt(t.day, t.hour, Daily, now, k);
    RowIsBest(t.day, t.hour, Daily, now, k, c, up);
    BestDescends(t.hour, t.ten, Hourly, now, k.host, k.at, k.at + Size(Daily), c, up, Read(t.day[k], c));
    BestDescends(t.ten, Source(t.raw), TenMinutes, now, k.host, k.at, k.at + Size(Daily), c, up, Read(t.day[k], c));
  }

  lemma LevelsAreExact(t: Tables, now: int, k: Slot, c: Column, up: bool)
    requires UpToDate(t, now) && IsExtreme(c, up)
    ensures k in t.ten ==> IsBest(Source(t.raw), k.host, k.at, k.at + Size(TenMinutes), c, up, Read(t.ten[k], c))
    ensures k in t.hour ==> IsBest(Source(t.raw), k.host, k.at, k.at + Size(Hourly), c, up, Read(t.hour[k], c))
    ensures k in t.day ==> IsBest(Source(t.raw), k.host, k.at, k.at + Size(Daily), c, up, Read(t.day[k], c))
  {
    if k in t.ten {
      RowIsBest(t.ten, Source(t.raw), TenMinutes, now, k, c, up);
    }
    if k in t.hour {
      HourIsExact(t, now, k, c, up);
    }
    if k in t.day {
      DayIsExact(t, now, k, c, up);
    }
  }

  /** After every call of a run in order, at every level, the minima and maxima of a row are those of the raw samples under
      its window. */
  lemma ExtremesAreExact(events: seq<Event>, since: int, k: Slot, c: Column, up: bool)
    requires events != [] && events[|events| - 1].Call? && InOrder(events, since) && IsExtreme(c, up)
    ensures var t := Replay(events);
            && (k in t.ten ==> IsBest(Source(t.raw), k.host, k.at, k.at + Size(TenMinutes), c, up, Read(t.ten[k], c)))
            && (k in t.hour ==> IsBest(Source(t.raw), k.host, k.at, k.at + Size(Hourly), c, up, Read(t.hour[k], c)))
            && (k in t.day ==> IsBest(Source(t.raw), k.host, k.at, k.at + Size(Daily), c, up, Read(t.day[k], c)))
  {
    CallsUpToDate(events, since);
    LevelsAreExact(Replay(events), events[|events| - 1].now, k, c, up);
  }

  // ---------- lists ----------

  predicate HasList(t: Table, host: int, at: int, c: Lists) {
    Slot(host, at) in t && ReadList(t[Slot(host, at)], c).Some?
  }

  /** A window's disks and temperatures are those of its newest row that has any. */
  lemma {:induction false} LatestIsNewest(t: Table, host: int, from: int, until: int, c: Lists) returns (at: int)
    ensures var list := Latest(Collect(t, host, from, until), c);
            && (list.Some? ==> from <= at < until && HasList(t, host, at, c) && ReadList(t[Slot(host, at)], c) == list)
            && forall u :: from <= u < until && HasList(t, host, u, c) ==> list.Some? && u <= at
    decreases until - from
  {
    at := until - 1;
    if from < until {
      var rows := Collect(t, host, from, until - 1);
      var before := LatestIsNewest(t, host, from, until - 1, c);
      if Slot(host, until - 1) in t {
        assert (rows + [t[Slot(host, until - 1)]])[..|rows|] == rows;
      } else {
        assert rows + [] == rows;
      }
      if !HasList(t, host, until - 1, c) {
        at := before;
      }
    }
  }

  // ---------- averages ----------

  predicate Within(avg: Option<real>, best: Option<real>, up: bool) {
    (avg.Some? <==> best.Some?) && (avg.Some? ==> !Beats(avg.value, best.value, up))
  }

  /** Minimum, average and maximum come together, in order. */
  predicate Ordered(r: Row) {
    && Within(r.cpu.avg, r.cpu.min, false) && Within(r.cpu.avg, r.cpu.max, true)
    && Within(r.memUsed.avg, r.memUsed.min, false) && Within(r.memUsed.avg, r.memUsed.max, true)
    && Within(r.netSent.avg, r.netSent.max, true) && Within(r.netRecv.avg, r.netRecv.max, true)
  }

  predicate AllWithin(rows: seq<Row>, a: Column, b: Column, up: bool) {
    forall i :: 0 <= i < |rows| ==> Within(Read(rows[i], a), Read(rows[i], b), up)
  }

  lemma {:induction false} BestExists(rows: seq<Row>, a: Column, b: Column, up: bool)
    requires AllWithin(rows, a, b, up)
    ensures Best(rows, b, up).Some? <==> Counted(rows, a) > 0
    ensures forall i :: 0 <= i < |rows| && Read(rows[i], b).Some? ==>
              Best(rows, b, up).Some? && !Beats(Read(rows[i], b).value, Best(rows, b, up).value, up)
  {
    if rows != [] {
      var n := |rows| - 1;
      BestExists(rows[..n], a, b, up);
      assert forall i :: 0 <= i < n ==> rows[..n][i] == rows[i];
    }
  }

  function Scaled(n: nat, m: real): real {
    n as real * m
  }

  lemma {:induction false} SumBounded(rows: seq<Row>, a: Column, m: real, up: bool)
    requires forall i :: 0 <= i < |rows| && Read(rows[i], a).Some? ==> !Beats(Read(rows[i], a).value, m, up)
    ensures !Beats(Sum(rows, a), Scaled(Counted(rows, a), m), up)
  {
    if rows != [] {
      var n := |rows| - 1;
      SumBounded(rows[..n], a, m, up);
      if Read(rows[n], a).Some? {
        OneMoreTerm(Sum(rows[..n], a), Counted(rows[..n], a), m, Read(rows[n], a).value, up);
      }
    }
  }

  lemma OneMoreTerm(sum: real, n: nat, m: real, v: real, up: bool)
    requires !Beats(sum, Scaled(n, m), up) && !Beats(v, m, up)
    ensures !Beats(sum + v, Scaled(n + 1, m), up)
  {
    assert (n + 1) as real * m == n as real * m + m;
  }

  lemma Scale(q: real, m: real, n: real)
    requires n > 0.0
    ensures q > m ==> q * n > n * m
    ensures q < m ==> q * n < n * m
  {
    assert q * n - n * m == (q - m) * n;
  }

  lemma DivisionKeeps(sum: real, n: nat, m: real, up: bool)
    requires n > 0 && !Beats(sum, Scaled(n, m), up)
    ensures !Beats(sum / n as real, m, up)
  {
    var q := sum / n as real;
    assert q * n as real == sum;
    Scale(q, m, n as real);
  }

  lemma AverageWithin(rows: seq<Row>, a: Column, b: Column, up: bool)
    requires AllWithin(rows, a, b, up)
    ensures Within(Average(rows, a), Best(rows, b, up), up)
  {
    BestExists(rows, a, b, up);
    if Counted(rows, a) > 0 {
      var m := Best(rows, b, up).value;
      forall i | 0 <= i < |rows| && Read(rows[i], a).Some?
        ensures !Beats(Read(rows[i], a).value, m, up)
      {
        assert Within(Read(rows[i], a), Read(rows[i], b), up);
      }
      SumBounded(rows, a, m, up);
      DivisionKeeps(Sum(rows, a), Counted(rows, a), m, up);
    }
  }

  lemma ColumnsWithin(rows: seq<Row>)
    requires forall i :: 0 <= i < |rows| ==> Ordered(rows[i])
    ensures AllWithin(rows, CpuAvg, CpuMin, false) && AllWithin(rows, CpuAvg, CpuMax, true)
    ensures AllWithin(rows, MemAvg, MemMin, false) && AllWithin(rows, MemAvg, MemMax, true)
    ensures AllWithin(rows, SentAvg, SentMax, true) && AllWithin(rows, RecvAvg, RecvMax, true)
  {
  }

  lemma SummaryOrdered(rows: seq<Row>)
    requires forall i :: 0 <= i < |rows| ==> Ordered(rows[i])
    ensures Ordered(Summary(rows))
  {
    ColumnsWithin(rows);
    AverageWithin(rows, CpuAvg, CpuMin, false);
    AverageWithin(rows, CpuAvg, CpuMax, true);
    AverageWithin(rows, MemAvg, MemMin, false);
    AverageWithin(rows, MemAvg, MemMax, true);
    AverageWithin(rows, SentAvg, SentMax, true);
    AverageWithin(rows, RecvAvg, RecvMax, true);
  }

  ghost predicate AllOrdered(t: Table) {
    forall k :: k in t ==> Ordered(t[k])
  }

  lemma SummaryAtOrdered(src: Table, k: Slot, l: Level)
    requires AllOrdered(src)
    ensures Ordered(SummaryAt(src, k, l))
  {
    var rows := Collect(src, k.host, k.at, k.at + Size(l));
    forall i | 0 <= i < |rows|
      ensures Ordered(rows[i])
    {
      CollectedRows(src, k.host, k.at, k.at + Size(l), rows[i]);
      var at :| k.at <= at < k.at + Size(l) && Slot(k.host, at) in src && src[Slot(k.host, at)] == rows[i];
    }
    SummaryOrdered(rows);
  }

  lemma WindowOrdered(dst: Table, src: Table, l: Level, w: int)
    requires AllOrdered(dst) && AllOrdered(src)
    ensures AllOrdered(WindowWritten(dst, src, l, w))
  {
    forall k | k in WindowWritten(dst, src, l, w)
      ensures Ordered(WindowWritten(dst, src, l, w)[k])
    {
      WrittenAt(dst, src, l, w, k);
      SummaryAtOrdered(src, k, l);
    }
  }

  lemma {:induction false} WindowsOrdered(dst: Table, src: Table, l: Level, w: int, now: int)
    requires AllOrdered(dst) && AllOrdered(src)
    ensures AllOrdered(WrittenFrom(dst, src, l, w, now))
    decreases now - w
  {
    if w + Size(l) <= now {
      WindowOrdered(dst, src, l, w);
      WindowsOrdered(WindowWritten(dst, src, l, w), src, l, w + Size(l), now);
    }
  }

  lemma StepOrdered(dst: Table, src: Table, l: Level, now: int)
    requires AllOrdered(dst) && AllOrdered(src)
    ensures AllOrdered(Stepped(dst, src, l, now))
  {
    if StartOf(dst, src).Some? {
      WindowsOrdered(dst, src, l, Truncated(l, StartOf(dst, src).value), now);
    }
  }

  ghost predicate TablesOrdered(t: Tables) {
    AllOrdered(t.ten) && AllOrdered(t.hour) && AllOrdered(t.day)
  }

  lemma RolledOrdered(t: Tables, now: int)
    requires TablesOrdered(t)
    ensures TablesOrdered(Rolled(t, now))
  {
    var next := Rolled(t, now);
    StepOrdered(t.ten, Source(t.raw), TenMinutes, now);
    StepOrdered(t.hour, next.ten, Hourly, now);
    StepOrdered(t.day, next.hour, Daily, now);
  }

  /** Minimum <= average <= maximum in every row of every level, over every run: late samples, calls out of order and purges
      anywhere included. */
  lemma {:induction false} RollupOrdered(events: seq<Event>)
    ensures TablesOrdered(Replay(events))
  {
    if events != [] {
      var n := |events| - 1;
      RollupOrdered(events[..n]);
      if events[n].Call? {
        RolledOrdered(Replay(events[..n]), events[n].now);
      }
    }
  }
}
