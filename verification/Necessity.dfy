/**
 Retention, the other half: a purge the dates do not clear costs something for some samples. Two runs with the same dates
 differ in their samples only, and the samples are what shows it.
 */
module Necessity {
  import opened Options
  import opened Rollup
  import opened Retention
  import Extremes

  predicate SameDate(a: Event, b: Event) {
    if a.Arrive? then b.Arrive? && a.k == b.k else a == b
  }

  /** The same calls and purges, and samples of the same hosts and instants. */
  predicate SameDates(a: seq<Event>, b: seq<Event>) {
    |a| == |b| && forall i :: 0 <= i < |a| ==> SameDate(a[i], b[i])
  }

  /** So it is at every moment of the run. */
  ghost predicate AlwaysRetained(events: seq<Event>) {
    forall n :: 0 <= n <= |events| ==> Retained(events[..n])
  }

  // ---------- what depends on dates alone ----------

  lemma DatesInit(a: seq<Event>, b: seq<Event>)
    requires SameDates(a, b) && a != []
    ensures SameDates(a[..|a| - 1], b[..|b| - 1]) && SameDate(a[|a| - 1], b[|b| - 1])
  {
  }

  lemma DatesSnoc(a: seq<Event>, b: seq<Event>, x: Event, y: Event)
    requires SameDates(a, b) && SameDate(x, y)
    ensures SameDates(a + [x], b + [y])
  {
  }

  lemma {:induction false} SameUnpurged(a: seq<Event>, b: seq<Event>)
    requires SameDates(a, b)
    ensures SameDates(Unpurged(a), Unpurged(b)) && ReachOf(a) == ReachOf(b)
  {
    if a != [] {
      var n := |a| - 1;
      DatesInit(a, b);
      SameUnpurged(a[..n], b[..n]);
      if !a[n].Purge? {
        DatesSnoc(Unpurged(a[..n]), Unpurged(b[..n]), a[n], b[n]);
      }
    }
  }

  lemma {:induction false} SameOrder(a: seq<Event>, b: seq<Event>, since: int)
    requires SameDates(a, b)
    ensures InOrder(a, since) <==> InOrder(b, since)
    ensures LastCall(a, since) == LastCall(b, since)
  {
    if a != [] {
      DatesInit(a, b);
      SameOrder(a[..|a| - 1], b[..|b| - 1], since);
    }
  }

  lemma {:induction false} SameTouched(a: seq<Event>, b: seq<Event>, host: int, from: int, until: int)
    requires SameDates(a, b)
    ensures Touched(a, host, from, until) <==> Touched(b, host, from, until)
  {
    if a != [] {
      DatesInit(a, b);
      SameTouched(a[..|a| - 1], b[..|b| - 1], host, from, until);
    }
  }

  /** Rows at the same slots in every table. */
  predicate SameShape(t: Tables, t': Tables) {
    t.raw.Keys == t'.raw.Keys && t.ten.Keys == t'.ten.Keys && t.hour.Keys == t'.hour.Keys && t.day.Keys == t'.day.Keys
  }

  lemma HasRowsShape(src: Table, src': Table, k: Slot, l: Level)
    requires src.Keys == src'.Keys
    ensures HasRows(src, k, l) <==> HasRows(src', k, l)
  {
    MoreRows(src, src', k.host, k.at, k.at + Size(l));
    MoreRows(src', src, k.host, k.at, k.at + Size(l));
  }

  lemma InstantsShape(t: Table, t': Table)
    requires t.Keys == t'.Keys
    ensures Instants(t) == Instants(t')
  {
    assert forall k :: k in t <==> k in t.Keys;
    assert forall k :: k in t' <==> k in t'.Keys;
  }

  lemma StepShape(dst: Table, dst': Table, src: Table, src': Table, l: Level, now: int)
    requires dst.Keys == dst'.Keys && src.Keys == src'.Keys
    ensures Stepped(dst, src, l, now).Keys == Stepped(dst', src', l, now).Keys
  {
    InstantsShape(dst, dst');
    InstantsShape(src, src');
    if StartOf(dst, src).Some? {
      forall k
        ensures k in Stepped(dst, src, l, now) <==> k in Stepped(dst', src', l, now)
      {
        StepShapeAt(dst, dst', src, src', l, now, k);
      }
    }
  }

  lemma StepShapeAt(dst: Table, dst': Table, src: Table, src': Table, l: Level, now: int, k: Slot)
    requires dst.Keys == dst'.Keys && src.Keys == src'.Keys
    requires StartOf(dst, src).Some? && StartOf(dst', src') == StartOf(dst, src)
    ensures k in Stepped(dst, src, l, now) <==> k in Stepped(dst', src', l, now)
  {
    var w := Truncated(l, StartOf(dst, src).value);
    TruncatedIsAligned(l, StartOf(dst, src).value);
    WrittenFromAt(dst, src, l, w, now, k);
    WrittenFromAt(dst', src', l, w, now, k);
    HasRowsShape(src, src', k, l);
    assert k in dst <==> k in dst.Keys;
    assert k in dst' <==> k in dst'.Keys;
  }

  lemma SourceShape(raw: map<Slot, Raw>)
    ensures Source(raw).Keys == raw.Keys
  {
  }

  lemma RolledShape(t: Tables, t': Tables, now: int)
    requires SameShape(t, t')
    ensures SameShape(Rolled(t, now), Rolled(t', now))
  {
    var next, next' := Rolled(t, now), Rolled(t', now);
    SourceShape(t.raw);
    SourceShape(t'.raw);
    StepShape(t.ten, t'.ten, Source(t.raw), Source(t'.raw), TenMinutes, now);
    StepShape(t.hour, t'.hour, next.ten, next'.ten, Hourly, now);
    StepShape(t.day, t'.day, next.hour, next'.hour, Daily, now);
  }

  lemma SinceShape<V>(t: map<Slot, V>, t': map<Slot, V>, cut: int)
    requires t.Keys == t'.Keys
    ensures Since(t, cut).Keys == Since(t', cut).Keys
  {
    assert forall k :: k in t <==> k in t.Keys;
    assert forall k :: k in t' <==> k in t'.Keys;
  }

  lemma {:induction false} ReplayShape(a: seq<Event>, b: seq<Event>)
    requires SameDates(a, b)
    ensures SameShape(Replay(a), Replay(b))
  {
    if a != [] {
      var n := |a| - 1;
      DatesInit(a, b);
      ReplayShape(a[..n], b[..n]);
      var t, t' := Replay(a[..n]), Replay(b[..n]);
      match a[n]
      case Arrive(k, row) =>
      case Call(now) => RolledShape(t, t', now);
      case Purge(cuts) =>
        SinceShape(t.raw, t'.raw, cuts.raw);
        SinceShape(t.ten, t'.ten, cuts.ten);
        SinceShape(t.hour, t'.hour, cuts.hour);
    }
  }

  lemma LevelShape(t: Tables, t': Tables, l: Level)
    requires SameShape(t, t')
    ensures TableOf(t, l).Keys == TableOf(t', l).Keys && SourceOf(t, l).Keys == SourceOf(t', l).Keys
  {
    SourceShape(t.raw);
    SourceShape(t'.raw);
  }

  lemma RowsShape(src: Table, src': Table, k: Slot, l: Level, cut: Option<int>)
    requires src.Keys == src'.Keys
    ensures Whole(src, k, l, cut) <==> Whole(src', k, l, cut)
    ensures Gone(src, k, l, cut) <==> Gone(src', k, l, cut)
  {
    assert forall j :: j in src <==> j in src.Keys;
    assert forall j :: j in src' <==> j in src'.Keys;
  }

  /** Gone, though touched since it was summarised. */
  predicate OutOfDate(events: seq<Event>, dst: Table, src: Table, l: Level, cutDst: Option<int>, cutSrc: Option<int>, k: Slot) {
    && Starts(dst, cutDst) && Gone(src, k, l, cutSrc) && k in dst && Touched(events, k.host, k.at, k.at + Size(l))
  }

  lemma ClearShape(a: seq<Event>, b: seq<Event>, dst: Table, dst': Table, src: Table, src': Table, l: Level, cutDst: Option<int>,
                   cutSrc: Option<int>, k: Slot)
    requires SameDates(a, b) && dst.Keys == dst'.Keys && src.Keys == src'.Keys
    ensures ClearAt(a, dst, src, l, cutDst, cutSrc, k) <==> ClearAt(b, dst', src', l, cutDst, cutSrc, k)
    ensures OutOfDate(a, dst, src, l, cutDst, cutSrc, k) <==> OutOfDate(b, dst', src', l, cutDst, cutSrc, k)
  {
    InstantsShape(dst, dst');
    RowsShape(src, src', k, l, cutSrc);
    SameTouched(a, b, k.host, k.at, k.at + Size(l));
    assert k in dst <==> k in dst.Keys;
    assert k in dst' <==> k in dst'.Keys;
  }

  lemma CallShape(a: seq<Event>, b: seq<Event>, l: Level, now: int)
    requires SameDates(a, b)
    ensures TableOf(Replay(a), l).Keys == TableOf(Replay(b), l).Keys
    ensures SourceOf(Rolled(Replay(a), now), l).Keys == SourceOf(Rolled(Replay(b), now), l).Keys
  {
    ReplayShape(a, b);
    RolledShape(Replay(a), Replay(b), now);
    LevelShape(Replay(a), Replay(b), l);
    LevelShape(Rolled(Replay(a), now), Rolled(Replay(b), now), l);
  }

  lemma SameClear(a: seq<Event>, b: seq<Event>, r: Reach, now: int)
    requires SameDates(a, b) && Clear(a, r, now)
    ensures Clear(b, r, now)
  {
    forall l
      ensures ClearLevel(b, r, l, now)
    {
      assert ClearLevel(a, r, l, now);
      forall k
        ensures ClearWindow(b, r, l, now, k)
      {
        assert ClearWindow(a, r, l, now, k);
        SameWindowClear(a, b, r, l, now, k);
      }
    }
  }

  lemma SameWindowClear(a: seq<Event>, b: seq<Event>, r: Reach, l: Level, now: int, k: Slot)
    requires SameDates(a, b)
    ensures ClearWindow(a, r, l, now, k) <==> ClearWindow(b, r, l, now, k)
  {
    CallShape(a, b, l, now);
    var src, src' := SourceOf(Rolled(Replay(a), now), l), SourceOf(Rolled(Replay(b), now), l);
    HasRowsShape(src, src', k, l);
    ClearShape(a, b, TableOf(Replay(a), l), TableOf(Replay(b), l), src, src', l, CutOf(r, l), SourceCut(r, l), k);
  }

  lemma {:induction false} SameSpares(a: seq<Event>, b: seq<Event>)
    requires SameDates(a, b) && Spares(a)
    ensures Spares(b)
  {
    if a != [] {
      var n := |a| - 1;
      DatesInit(a, b);
      SameSpares(a[..n], b[..n]);
      SameUnpurged(a[..n], b[..n]);
      if a[n].Call? {
        SameClear(Unpurged(a[..n]), Unpurged(b[..n]), ReachOf(a[..n]), a[n].now);
      }
    }
  }

  // ---------- samples that show it ----------

  function Revalued(e: Event, f: Slot -> real): Event {
    if e.Arrive? then Arrive(e.k, CpuRaw(f(e.k))) else e
  }

  /** Every sample's value made a function of its host and instant. */
  function Valued(events: seq<Event>, f: Slot -> real): seq<Event> {
    if events == [] then [] else Valued(events[..|events| - 1], f) + [Revalued(events[|events| - 1], f)]
  }

  const ONES: Slot -> real := _ => 1.0
  const ZEROS: Slot -> real := _ => 0.0

  /** Ones up to the last call, and zeros since. */
  function Renewed(events: seq<Event>): seq<Event> {
    if events == [] then []
    else
      var n := |events| - 1;
      if events[n].Call? then Valued(events, ONES) else Renewed(events[..n]) + [Revalued(events[n], ZEROS)]
  }

  lemma {:induction false} ValuedDates(events: seq<Event>, f: Slot -> real)
    ensures SameDates(events, Valued(events, f))
  {
    if events != [] {
      ValuedDates(events[..|events| - 1], f);
    }
  }

  lemma {:induction false} RenewedDates(events: seq<Event>)
    ensures SameDates(events, Renewed(events))
  {
    if events != [] {
      ValuedDates(events, ONES);
      RenewedDates(events[..|events| - 1]);
    }
  }

  lemma UnpurgedSnoc(events: seq<Event>, e: Event)
    ensures Unpurged(events + [e]) == if e.Purge? then Unpurged(events) else Unpurged(events) + [e]
  {
    assert (events + [e])[..|events|] == events;
  }

  lemma ValuedSnoc(events: seq<Event>, e: Event, f: Slot -> real)
    ensures Valued(events + [e], f) == Valued(events, f) + [Revalued(e, f)]
  {
    assert (events + [e])[..|events|] == events;
  }

  lemma {:induction false} UnpurgedValued(events: seq<Event>, f: Slot -> real)
    ensures Unpurged(Valued(events, f)) == Valued(Unpurged(events), f)
  {
    if events != [] {
      var n := |events| - 1;
      UnpurgedValued(events[..n], f);
      UnpurgedSnoc(Valued(events[..n], f), Revalued(events[n], f));
      ValuedSnoc(Unpurged(events[..n]), events[n], f);
    }
  }

  lemma {:induction false} UnpurgedRenewed(events: seq<Event>)
    ensures Unpurged(Renewed(events)) == Renewed(Unpurged(events))
  {
    if events != [] {
      var n := |events| - 1;
      if events[n].Call? {
        UnpurgedValued(events, ONES);
      } else {
        UnpurgedRenewed(events[..n]);
        UnpurgedSnoc(Renewed(events[..n]), Revalued(events[n], ZEROS));
        assert (Unpurged(events[..n]) + [events[n]])[..|Unpurged(events[..n])|] == Unpurged(events[..n]);
      }
    }
  }

  lemma {:induction false} ValuedRaw(events: seq<Event>, f: Slot -> real)
    ensures forall k :: k in Replay(Valued(events, f)).raw ==> Replay(Valued(events, f)).raw[k] == CpuRaw(f(k))
  {
    if events != [] {
      ValuedRaw(events[..|events| - 1], f);
    }
  }

  /** Zero in the rows of a level's source before the cut, one in the others. */
  function Split(l: Level, cut: int): Slot -> real {
    (k: Slot) => if Floor(l, k.at) < cut then 0.0 else 1.0
  }

  /** Some raw sample is under every row of a level. */
  lemma RawUnder(t: Tables, now: int, l: Level, k: Slot) returns (at: int)
    requires UpToDate(t, now) && k in TableOf(t, l)
    ensures k.at <= at < k.at + Size(l) && Slot(k.host, at) in t.raw
    decreases Rank(l), 0
  {
    RolledLevel(t, l, now);
    assert FullAt(TableOf(t, l), SourceOf(t, l), l, now, k);
    at := WindowHasRow(SourceOf(t, l), k, l);
    if l == Hourly {
      at := UnderFiner(t, now, l, TenMinutes, k, at);
    } else if l == Daily {
      at := UnderFiner(t, now, l, Hourly, k, at);
    }
  }

  lemma UnderFiner(t: Tables, now: int, l: Level, below: Level, k: Slot, w: int) returns (at: int)
    requires UpToDate(t, now) && Finer(below, l) && Aligned(l, k.at) && k.at <= w < k.at + Size(l)
    requires Slot(k.host, w) in TableOf(t, below)
    ensures k.at <= at < k.at + Size(l) && Slot(k.host, at) in t.raw
    decreases Rank(below), 1
  {
    RolledLevel(t, below, now);
    assert FullAt(TableOf(t, below), SourceOf(t, below), below, now, Slot(k.host, w));
    Extremes.CoarserIsAligned(k.at);
    NextWindow(below, w, k.at + Size(l));
    at := RawUnder(t, now, below, Slot(k.host, w));
  }

  lemma ExactAt(t: Tables, now: int, l: Level, k: Slot)
    requires UpToDate(t, now) && k in TableOf(t, l)
    ensures Extremes.IsBest(Source(t.raw), k.host, k.at, k.at + Size(l), CpuMin, false, Read(TableOf(t, l)[k], CpuMin))
  {
    Extremes.LevelsAreExact(t, now, k, CpuMin, false);
  }

  /** When all samples under a row agree, the row says what they say. */
  lemma UniformRow(t: Tables, now: int, l: Level, k: Slot, v: real)
    requires UpToDate(t, now) && k in TableOf(t, l)
    requires forall at :: k.at <= at < k.at + Size(l) && Slot(k.host, at) in t.raw ==> t.raw[Slot(k.host, at)] == CpuRaw(v)
    ensures Read(TableOf(t, l)[k], CpuMin) == Some(v)
  {
    var at := RawUnder(t, now, l, k);
    ExactAt(t, now, l, k);
    assert Extremes.Holds(Source(t.raw), k.host, k.at, k.at + Size(l), at, CpuMin);
    var m := Read(TableOf(t, l)[k], CpuMin);
    var u :| Extremes.Attains(Source(t.raw), k.host, k.at, k.at + Size(l), u, CpuMin, m);
  }

  lemma OneWindow(l: Level, a: int, b: int)
    requires Aligned(l, a) && Aligned(l, b) && a - Size(l) < b < a + Size(l)
    ensures a == b
  {
    if a < b {
      NextWindow(l, a, b);
    } else if b < a {
      NextWindow(l, b, a);
    }
  }

  lemma FloorOfRow(t: Tables, now: int, below: Level, l: Level, j: Slot, at: int)
    requires UpToDate(t, now) && Finer(below, l) && j in TableOf(t, below) && j.at <= at < j.at + Size(below)
    ensures Floor(l, at) == j.at
  {
    RolledLevel(t, below, now);
    assert FullAt(TableOf(t, below), SourceOf(t, below), below, now, j);
    TruncatedIsAligned(below, at);
    OneWindow(below, j.at, Truncated(below, at));
  }

  ghost predicate SplitBy(src: Table, cut: int) {
    forall j :: j in src ==> Read(src[j], CpuMin) == Some(if j.at < cut then 0.0 else 1.0)
  }

  lemma SplitFiner(t: Tables, now: int, below: Level, l: Level, cut: int)
    requires UpToDate(t, now) && Finer(below, l) && forall k :: k in t.raw ==> t.raw[k] == CpuRaw(Split(l, cut)(k))
    ensures SplitBy(TableOf(t, below), cut)
  {
    forall j | j in TableOf(t, below)
      ensures Read(TableOf(t, below)[j], CpuMin) == Some(if j.at < cut then 0.0 else 1.0)
    {
      forall at | j.at <= at < j.at + Size(below) && Slot(j.host, at) in t.raw
        ensures t.raw[Slot(j.host, at)] == CpuRaw(if j.at < cut then 0.0 else 1.0)
      {
        FloorOfRow(t, now, below, l, j, at);
      }
      UniformRow(t, now, below, j, if j.at < cut then 0.0 else 1.0);
    }
  }

  lemma SplitSource(events: seq<Event>, since: int, now: int, l: Level, cut: int)
    requires InOrder(events, since) && LastCall(events, since) <= now
    ensures SplitBy(SourceOf(Rolled(Replay(Valued(events, Split(l, cut))), now), l), cut)
  {
    var events' := Valued(events, Split(l, cut));
    ValuedDates(events, Split(l, cut));
    SameOrder(events, events', since);
    NextUpToDate(events', since, now);
    ValuedRaw(events, Split(l, cut));
    match l
    case TenMinutes =>
    case Hourly => SplitFiner(Rolled(Replay(events'), now), now, TenMinutes, Hourly, cut);
    case Daily => SplitFiner(Rolled(Replay(events'), now), now, Hourly, Daily, cut);
  }

  /** Then a window the cut goes through comes out differently. */
  lemma SplitShows(src: Table, k: Slot, l: Level, cut: int)
    requires SplitBy(src, cut) && !Whole(src, k, l, Some(cut)) && !Gone(src, k, l, Some(cut))
    ensures HasRows(Left(src, Some(cut)), k, l) && SummaryAt(Left(src, Some(cut)), k, l) != SummaryAt(src, k, l)
  {
    var a :| k.at <= a < k.at + Size(l) && Slot(k.host, a) in src && !Spared(a, Some(cut));
    var b :| k.at <= b < k.at + Size(l) && Slot(k.host, b) in src && Spared(b, Some(cut));
    LeastIs(src, k, l, a, 0.0);
    LeastIs(Left(src, Some(cut)), k, l, b, 1.0);
  }

  lemma {:induction false} RenewedSeen(events: seq<Event>)
    ensures forall k :: k in Summarised(Renewed(events)) ==> Summarised(Renewed(events))[k] == CpuRaw(1.0)
  {
    if events != [] {
      var n := |events| - 1;
      if events[n].Call? {
        ValuedRaw(events[..n], ONES);
        ValuedDates(events[..n], ONES);
        assert Valued(events, ONES)[..n] == Valued(events[..n], ONES);
      } else {
        RenewedSeen(events[..n]);
        assert Renewed(events)[..n] == Renewed(events[..n]) by {
          RenewedDates(events[..n]);
        }
      }
    }
  }

  lemma {:induction false} RenewedTouched(events: seq<Event>, since: int, host: int, from: int, until: int) returns (at: int)
    requires InOrder(events, since) && Touched(events, host, from, until)
    ensures from <= at < until && Slot(host, at) in Replay(Renewed(events)).raw
    ensures Replay(Renewed(events)).raw[Slot(host, at)] == CpuRaw(0.0)
  {
    var n := |events| - 1;
    RenewedDates(events[..n]);
    var k := events[n].k;
    assert Renewed(events)[..n] == Renewed(events[..n]);
    if k.host == host && from <= k.at < until {
      at := k.at;
    } else {
      at := RenewedTouched(events[..n], since, host, from, until);
    }
  }

  /** And a window that was touched after the call that summarised it does not say what its row does. */
  lemma RenewedShows(events: seq<Event>, since: int, now: int, l: Level, k: Slot)
    requires InOrder(events, since) && LastCall(events, since) <= now && Touched(events, k.host, k.at, k.at + Size(l))
    requires k in TableOf(Replay(Renewed(events)), l)
    requires HasRows(SourceOf(Rolled(Replay(Renewed(events)), now), l), k, l)
    ensures TableOf(Replay(Renewed(events)), l)[k] != SummaryAt(SourceOf(Rolled(Replay(Renewed(events)), now), l), k, l)
  {
    var events' := Renewed(events);
    RenewedDates(events);
    SameOrder(events, events', since);
    RowWasOne(events, since, l, k);
    RenewedIsZero(events, since, now, l, k);
  }

  lemma RowWasOne(events: seq<Event>, since: int, l: Level, k: Slot)
    requires InOrder(events, since) && InOrder(Renewed(events), since) && k in TableOf(Replay(Renewed(events)), l)
    ensures Read(TableOf(Replay(Renewed(events)), l)[k], CpuMin) == Some(1.0)
    ensures Complete(k, l, LastCall(Renewed(events), since))
  {
    var events' := Renewed(events);
    var t := Replay(events').(raw := Summarised(events'));
    ReplayUpToDate(events', since);
    RenewedSeen(events);
    UniformRow(t, LastCall(events', since), l, k, 1.0);
    RolledLevel(t, l, LastCall(events', since));
    RowIsComplete(TableOf(t, l), SourceOf(t, l), l, LastCall(events', since), k);
  }

  lemma RenewedIsZero(events: seq<Event>, since: int, now: int, l: Level, k: Slot)
    requires InOrder(events, since) && InOrder(Renewed(events), since) && LastCall(Renewed(events), since) <= now
    requires Touched(events, k.host, k.at, k.at + Size(l)) && Complete(k, l, now)
    requires HasRows(SourceOf(Rolled(Replay(Renewed(events)), now), l), k, l)
    ensures Read(SummaryAt(SourceOf(Rolled(Replay(Renewed(events)), now), l), k, l), CpuMin) != Some(1.0)
  {
    var next := Rolled(Replay(Renewed(events)), now);
    NextUpToDate(Renewed(events), since, now);
    RolledLevel(next, l, now);
    assert FullAt(TableOf(next, l), SourceOf(next, l), l, now, k);
    var at := RenewedTouched(events, since, k.host, k.at, k.at + Size(l));
    ExactAt(next, now, l, k);
    NotOne(next.raw, k, l, at, Read(TableOf(next, l)[k], CpuMin));
  }

  lemma NotOne(raw: map<Slot, Raw>, k: Slot, l: Level, at: int, m: Option<real>)
    requires k.at <= at < k.at + Size(l) && Slot(k.host, at) in raw && raw[Slot(k.host, at)] == CpuRaw(0.0)
    requires Extremes.IsBest(Source(raw), k.host, k.at, k.at + Size(l), CpuMin, false, m)
    ensures m != Some(1.0)
  {
    assert Extremes.Holds(Source(raw), k.host, k.at, k.at + Size(l), at, CpuMin);
  }

  // ---------- every condition is needed ----------

  /** A window that is not clear does not stand, given samples that tell the two sides of the cut apart. */
  lemma NotClear(events: seq<Event>, dst: Table, src: Table, l: Level, cutDst: Option<int>, cutSrc: Option<int>, k: Slot)
    requires !ClearAt(events, dst, src, l, cutDst, cutSrc, k) && HasRows(src, k, l)
    requires cutSrc.Some? ==> SplitBy(src, cutSrc.value)
    requires !OutOfDate(events, dst, src, l, cutDst, cutSrc, k)
    ensures !StillAt(dst, src, l, cutDst, cutSrc, k)
  {
    WholeOrGone(src, k, l, cutSrc);
    if cutSrc.Some? && !Whole(src, k, l, cutSrc) && !Gone(src, k, l, cutSrc) {
      SplitShows(src, k, l, cutSrc.value);
    }
  }

  predicate Stale(events: seq<Event>, r: Reach, l: Level, now: int, k: Slot) {
    var t := Replay(events);
    OutOfDate(events, TableOf(t, l), SourceOf(Rolled(t, now), l), l, CutOf(r, l), SourceCut(r, l), k)
  }

  lemma SameStale(a: seq<Event>, b: seq<Event>, r: Reach, l: Level, now: int, k: Slot)
    requires SameDates(a, b)
    ensures Stale(a, r, l, now, k) <==> Stale(b, r, l, now, k)
  {
    CallShape(a, b, l, now);
    ClearShape(a, b, TableOf(Replay(a), l), TableOf(Replay(b), l), SourceOf(Rolled(Replay(a), now), l),
               SourceOf(Rolled(Replay(b), now), l), l, CutOf(r, l), SourceCut(r, l), k);
  }

  /** The samples that show it. */
  function Telling(events: seq<Event>, stale: bool, l: Level, r: Reach): seq<Event> {
    if stale then Renewed(events) else Valued(events, Split(l, if SourceCut(r, l).Some? then SourceCut(r, l).value else 0))
  }

  lemma TellingShows(events: seq<Event>, since: int, r: Reach, l: Level, now: int, k: Slot)
    requires InOrder(events, since) && LastCall(events, since) <= now && !ClearWindow(events, r, l, now, k)
    ensures !Stands(Replay(Telling(events, Stale(events, r, l, now, k), l, r)), r, l, now)
  {
    if Stale(events, r, l, now, k) {
      StaleShows(events, since, r, l, now, k);
    } else {
      CutShows(events, since, r, l, now, k);
    }
  }

  lemma CutShows(events: seq<Event>, since: int, r: Reach, l: Level, now: int, k: Slot)
    requires InOrder(events, since) && LastCall(events, since) <= now && !ClearWindow(events, r, l, now, k)
    requires !Stale(events, r, l, now, k)
    ensures !Stands(Replay(Telling(events, false, l, r)), r, l, now)
  {
    var cut := if SourceCut(r, l).Some? then SourceCut(r, l).value else 0;
    var events' := Valued(events, Split(l, cut));
    ValuedDates(events, Split(l, cut));
    SameWindowClear(events, events', r, l, now, k);
    SameStale(events, events', r, l, now, k);
    SplitSource(events, since, now, l, cut);
    NotClearFails(events', r, l, now, k);
  }

  lemma NotClearFails(events: seq<Event>, r: Reach, l: Level, now: int, k: Slot)
    requires !ClearWindow(events, r, l, now, k) && !Stale(events, r, l, now, k)
    requires SourceCut(r, l).Some? ==> SplitBy(SourceOf(Rolled(Replay(events), now), l), SourceCut(r, l).value)
    ensures !Stands(Replay(events), r, l, now)
  {
    var t := Replay(events);
    NotClear(events, TableOf(t, l), SourceOf(Rolled(t, now), l), l, CutOf(r, l), SourceCut(r, l), k);
    assert !WindowStands(TableOf(t, l), SourceOf(Rolled(t, now), l), l, CutOf(r, l), SourceCut(r, l), now, k);
  }

  lemma StaleShows(events: seq<Event>, since: int, r: Reach, l: Level, now: int, k: Slot)
    requires InOrder(events, since) && LastCall(events, since) <= now && !ClearWindow(events, r, l, now, k)
    requires Stale(events, r, l, now, k)
    ensures !Stands(Replay(Telling(events, true, l, r)), r, l, now)
  {
    var events' := Renewed(events);
    RenewedDates(events);
    SameWindowClear(events, events', r, l, now, k);
    SameStale(events, events', r, l, now, k);
    RenewedShows(events, since, now, l, k);
    StaleFails(events', r, l, now, k);
  }

  lemma StaleFails(events: seq<Event>, r: Reach, l: Level, now: int, k: Slot)
    requires !ClearWindow(events, r, l, now, k) && Stale(events, r, l, now, k)
    requires var t := Replay(events); TableOf(t, l)[k] != SummaryAt(SourceOf(Rolled(t, now), l), k, l)
    ensures !Stands(Replay(events), r, l, now)
  {
    var t := Replay(events);
    WholeOrGone(SourceOf(Rolled(t, now), l), k, l, SourceCut(r, l));
    assert !WindowStands(TableOf(t, l), SourceOf(Rolled(t, now), l), l, CutOf(r, l), SourceCut(r, l), now, k);
  }

  lemma CallNeedsClear(before: seq<Event>, since: int, now: int) returns (other: seq<Event>)
    requires InOrder(Unpurged(before), since) && LastCall(Unpurged(before), since) <= now
    requires Spares(before) && !Clear(Unpurged(before), ReachOf(before), now)
    ensures SameDates(before, other) && !Retained(other + [Call(now)])
  {
    var l :| !ClearLevel(Unpurged(before), ReachOf(before), l, now);
    var k :| !ClearWindow(Unpurged(before), ReachOf(before), l, now, k);
    var stale := Stale(Unpurged(before), ReachOf(before), l, now, k);
    TellingShows(Unpurged(before), since, ReachOf(before), l, now, k);
    other := Telling(before, stale, l, ReachOf(before));
    TellingUnpurged(before, stale, l, ReachOf(before));
    TellingFails(before, other, since, l, now);
  }

  lemma TellingFails(before: seq<Event>, other: seq<Event>, since: int, l: Level, now: int)
    requires InOrder(Unpurged(before), since) && Spares(before) && SameDates(before, other)
    requires !Stands(Replay(Unpurged(other)), ReachOf(before), l, now)
    ensures !Retained(other + [Call(now)])
  {
    SameUnpurged(before, other);
    SameOrder(Unpurged(before), Unpurged(other), since);
    SameSpares(before, other);
    SparesRetain(other, since);
    CallRetains(other, since, now);
  }

  lemma TellingUnpurged(events: seq<Event>, stale: bool, l: Level, r: Reach)
    ensures Unpurged(Telling(events, stale, l, r)) == Telling(Unpurged(events), stale, l, r)
    ensures SameDates(events, Telling(events, stale, l, r))
  {
    var f := Split(l, if SourceCut(r, l).Some? then SourceCut(r, l).value else 0);
    UnpurgedRenewed(events);
    RenewedDates(events);
    UnpurgedValued(events, f);
    ValuedDates(events, f);
  }

  lemma {:induction false} Necessary(events: seq<Event>, since: int) returns (other: seq<Event>)
    requires InOrder(Unpurged(events), since) && !Spares(events)
    ensures SameDates(events, other) && !AlwaysRetained(other)
  {
    var n := |events| - 1;
    var before := events[..n];
    assert events == before + [events[n]];
    UnpurgedSnoc(before, events[n]);
    UnpurgedInOrder(before, events[n], since);
    if !Spares(before) {
      var init := Necessary(before, since);
      other := init + [events[n]];
      DatesSnoc(before, init, events[n], events[n]);
      PrefixFails(init, events[n]);
    } else if events[n].Call? {
      var init := CallNeedsClear(before, since, events[n].now);
      other := init + [events[n]];
      DatesSnoc(before, init, events[n], events[n]);
      assert other[..|other|] == other;
    } else {
      other := events;
      SparesRetain(before, since);
      ArriveRetains(before, events[n].k, events[n].row);
      assert other[..|other|] == other;
    }
  }

  lemma UnpurgedInOrder(before: seq<Event>, e: Event, since: int)
    requires InOrder(Unpurged(before + [e]), since)
    ensures InOrder(Unpurged(before), since)
    ensures e.Call? ==> LastCall(Unpurged(before), since) <= e.now
  {
    UnpurgedSnoc(before, e);
    if !e.Purge? {
      assert (Unpurged(before) + [e])[..|Unpurged(before)|] == Unpurged(before);
    }
  }

  lemma PrefixFails(init: seq<Event>, e: Event)
    requires !AlwaysRetained(init)
    ensures !AlwaysRetained(init + [e])
  {
    var n :| 0 <= n <= |init| && !Retained(init[..n]);
    assert (init + [e])[..n] == init[..n];
  }

  lemma {:induction false} PrefixSpares(events: seq<Event>, since: int, n: nat)
    requires n <= |events| && Spares(events) && InOrder(Unpurged(events), since)
    ensures Spares(events[..n]) && InOrder(Unpurged(events[..n]), since)
    decreases |events|
  {
    if n == |events| {
      assert events[..n] == events;
    } else {
      var init := events[..|events| - 1];
      assert events == init + [events[|events| - 1]];
      UnpurgedInOrder(init, events[|events| - 1], since);
      PrefixSpares(init, since, n);
      assert init[..n] == events[..n];
    }
  }

  /** Whatever the samples of a run are, its tables are at every moment what the purges leave of those never purged, if and
      only if its dates clear every call: no purge takes some rows of a window a step writes and not others, nor a window
      not summarised since it was last touched, and no sample comes from before a purge. */
  lemma RetentionExact(events: seq<Event>, since: int)
    requires InOrder(Unpurged(events), since)
    ensures (forall other :: SameDates(events, other) ==> AlwaysRetained(other)) <==> Spares(events)
  {
    if Spares(events) {
      forall other | SameDates(events, other)
        ensures AlwaysRetained(other)
      {
        SameSpares(events, other);
        SameUnpurged(events, other);
        SameOrder(Unpurged(events), Unpurged(other), since);
        forall n | 0 <= n <= |other|
          ensures Retained(other[..n])
        {
          PrefixSpares(other, since, n);
          SparesRetain(other[..n], since);
        }
      }
    } else {
      var other := Necessary(events, since);
    }
  }
}
