/**
 Two runs a hub can go through in which a purge reaches a newest window: what the rollup forgets, and when.
 */
module Losses {
  import opened Options
  import opened Rollup
  import opened Retention
  import Necessity
  import Sets
  import Zone

  /** What the settings page starts with: a day of raw samples, thirty of ten minutes, a year of hours. */
  const DEFAULTS: Keep := Keep(Zone.DAY, 30 * Zone.DAY, 365 * Zone.DAY)

  const FIRST: Slot := Slot(1, 0)
  const SECOND: Slot := Slot(1, 5 * Zone.MINUTE)

  const BOTH: map<Slot, Raw> := map[FIRST := CpuRaw(0.0), SECOND := CpuRaw(1.0)]

  /** A fleet of one host, silent after five minutes. */
  const SILENCE: seq<Event> := [Arrive(FIRST, CpuRaw(0.0)), Arrive(SECOND, CpuRaw(1.0))]

  /** The hourly call comes at two minutes past. */
  function At(n: int): int {
    n * Zone.HOUR + 2 * Zone.MINUTE
  }

  function Hours(n: nat, r: Keep): seq<Event> {
    if n == 0 then [] else Hours(n - 1, r) + [Call(At(n)), Purge(CutsOf(r, At(n)))]
  }

  // ---------- a day of silence, with the settings as they come ----------

  lemma OnlyFirst(src: Table, k: Slot)
    requires src.Keys <= {FIRST, SECOND} && Aligned(TenMinutes, k.at) && HasRows(src, k, TenMinutes)
    ensures k == FIRST
  {
    var at := WindowHasRow(src, k, TenMinutes);
    assert Slot(k.host, at) in src.Keys;
    Necessity.OneWindow(TenMinutes, k.at, 0);
  }

  /** One row, of the first ten minutes. */
  predicate OneRow(ten: Table, least: real) {
    ten.Keys == {FIRST} && Read(ten[FIRST], CpuMin) == Some(least)
  }

  lemma FirstCall(now: int)
    requires now >= Size(TenMinutes)
    ensures OneRow(Stepped(map[], Source(BOTH), TenMinutes, now), 0.0)
  {
    var src := Source(BOTH);
    var ten := Stepped(map[], src, TenMinutes, now);
    LeastIs(src, FIRST, TenMinutes, 0, 0.0);
    StepOntoNone(map[], src, TenMinutes, now, FIRST);
    forall k
      ensures k in ten <==> k == FIRST
    {
      StepOntoNone(map[], src, TenMinutes, now, k);
      if k in ten {
        OnlyFirst(src, k);
      }
    }
  }

  /** Every later call starts from that row, and writes it from the samples still there. */
  lemma LaterCall(ten: Table, raw: map<Slot, Raw>, now: int, was: real, least: real)
    requires OneRow(ten, was) && now >= Size(TenMinutes)
    requires (raw == BOTH && least == 0.0) || (raw == map[SECOND := CpuRaw(1.0)] && least == 1.0)
    ensures OneRow(Stepped(ten, Source(raw), TenMinutes, now), least)
  {
    var src := Source(raw);
    NewestIsFirst(ten);
    LaterRow(ten, raw, now, least);
    forall k
      ensures k in Stepped(ten, src, TenMinutes, now) <==> k == FIRST
    {
      WrittenFromAt(ten, src, TenMinutes, 0, now, k);
      if Aligned(TenMinutes, k.at) && HasRows(src, k, TenMinutes) {
        OnlyFirst(src, k);
      }
    }
  }

  lemma LaterRow(ten: Table, raw: map<Slot, Raw>, now: int, least: real)
    requires now >= Size(TenMinutes)
    requires (raw == BOTH && least == 0.0) || (raw == map[SECOND := CpuRaw(1.0)] && least == 1.0)
    ensures FIRST in WrittenFrom(ten, Source(raw), TenMinutes, 0, now)
    ensures Read(WrittenFrom(ten, Source(raw), TenMinutes, 0, now)[FIRST], CpuMin) == Some(least)
  {
    LeastIs(Source(raw), FIRST, TenMinutes, if raw == BOTH then 0 else SECOND.at, least);
    WrittenFromAt(ten, Source(raw), TenMinutes, 0, now, FIRST);
  }

  lemma NewestIsFirst(ten: Table)
    requires ten.Keys == {FIRST}
    ensures Instants(ten) == {0} && Sets.MaxOf(Instants(ten)) == 0
  {
    assert FIRST in ten.Keys;
    assert forall k :: k in ten ==> k in ten.Keys;
    assert FIRST.at in Instants(ten);
  }

  lemma TwoMore(events: seq<Event>, a: Event, b: Event)
    ensures (events + [a, b])[..|events| + 1] == events + [a] && (events + [a])[..|events|] == events
  {
  }

  lemma HoursSnoc(n: nat, r: Keep)
    requires n > 0
    ensures SILENCE + Hours(n, r) == SILENCE + Hours(n - 1, r) + [Call(At(n)), Purge(CutsOf(r, At(n)))]
  {
  }

  lemma AfterHour(n: nat, r: Keep)
    requires n > 0
    ensures Replay(SILENCE + Hours(n, r)) == Purged(Rolled(Replay(SILENCE + Hours(n - 1, r)), At(n)), CutsOf(r, At(n)))
  {
    HoursSnoc(n, r);
    TwoMore(SILENCE + Hours(n - 1, r), Call(At(n)), Purge(CutsOf(r, At(n))));
  }

  lemma Begin()
    ensures Replay(SILENCE) == Tables(BOTH, map[], map[], map[])
  {
    var first := SILENCE[..1];
    assert first == [SILENCE[0]] && first[..0] == [];
    assert Replay(first) == Tables(map[FIRST := CpuRaw(0.0)], map[], map[], map[]);
    assert map[FIRST := CpuRaw(0.0)][SECOND := CpuRaw(1.0)] == BOTH;
  }

  /** For a day the row is right; then the purge takes the first sample. */
  lemma {:induction false} SilentDay(n: nat)
    requires 1 <= n <= 24
    ensures var t := Replay(SILENCE + Hours(n, DEFAULTS));
            OneRow(t.ten, 0.0) && t.raw == if n < 24 then BOTH else map[SECOND := CpuRaw(1.0)]
  {
    AfterHour(n, DEFAULTS);
    var before := Replay(SILENCE + Hours(n - 1, DEFAULTS));
    if n == 1 {
      assert SILENCE + Hours(0, DEFAULTS) == SILENCE;
      Begin();
      FirstCall(At(1));
    } else {
      SilentDay(n - 1);
      LaterCall(before.ten, before.raw, At(n), 0.0, 0.0);
    }
    PurgeHour(Stepped(before.ten, Source(before.raw), TenMinutes, At(n)), n);
  }

  lemma PurgeHour(ten: Table, n: nat)
    requires 1 <= n <= 24 && ten.Keys == {FIRST}
    ensures var cuts := CutsOf(DEFAULTS, At(n));
            Since(ten, cuts.ten) == ten && Since(BOTH, cuts.raw) == if n < 24 then BOTH else map[SECOND := CpuRaw(1.0)]
  {
    assert forall k :: k in ten ==> k in ten.Keys;
  }

  lemma {:induction false} EverBoth(n: nat, r: Keep)
    ensures Replay(Unpurged(SILENCE + Hours(n, r))).raw == BOTH
  {
    if n == 0 {
      assert SILENCE + Hours(0, r) == SILENCE;
      NothingPurged();
    } else {
      EverBoth(n - 1, r);
      HoursSnoc(n, r);
      EverOneMore(SILENCE + Hours(n - 1, r), At(n), CutsOf(r, At(n)));
    }
  }

  lemma NothingPurged()
    ensures Replay(Unpurged(SILENCE)).raw == BOTH
  {
    assert SILENCE == ([] + [SILENCE[0]]) + [SILENCE[1]];
    Necessity.UnpurgedSnoc([] + [SILENCE[0]], SILENCE[1]);
    Necessity.UnpurgedSnoc([], SILENCE[0]);
    Begin();
  }

  lemma EverOneMore(events: seq<Event>, now: int, cuts: Cuts)
    ensures Replay(Unpurged(events + [Call(now), Purge(cuts)])).raw == Replay(Unpurged(events)).raw
    ensures Replay(Unpurged(events + [Call(now)])).raw == Replay(Unpurged(events)).raw
  {
    assert events + [Call(now), Purge(cuts)] == (events + [Call(now)]) + [Purge(cuts)];
    Necessity.UnpurgedSnoc(events + [Call(now)], Purge(cuts));
    Necessity.UnpurgedSnoc(events, Call(now));
    assert (Unpurged(events) + [Call(now)])[..|Unpurged(events)|] == Unpurged(events);
  }

  /** With the settings as they come, a fleet silent for a day after its samples at minutes nought and five: the hourly call
      a day later writes the last ten-minute row anew from the second sample alone, where a batch would keep the first. */
  lemma DefaultsLose()
    ensures var events := SILENCE + Hours(24, DEFAULTS);
            && OneRow(Replay(events).ten, 0.0)
            && OneRow(Replay(events + [Call(At(25))]).ten, 1.0)
            && OneRow(Batch(Replay(Unpurged(events + [Call(At(25))])).raw, At(25)).ten, 0.0)
  {
    var events := SILENCE + Hours(24, DEFAULTS);
    SilentDay(24);
    assert (events + [Call(At(25))])[..|events|] == events;
    LaterCall(Replay(events).ten, Replay(events).raw, At(25), 0.0, 1.0);
    EverBoth(24, DEFAULTS);
    EverOneMore(events, At(25), CutsOf(DEFAULTS, At(25)));
    FirstCall(At(25));
  }

  // ---------- hours kept for a day ----------

  const NOON: Slot := Slot(1, 12 * Zone.HOUR)

  /** A sample at midnight and one at noon. */
  const DAY: map<Slot, Raw> := map[FIRST := CpuRaw(0.0), NOON := CpuRaw(1.0)]

  const ONE_DAY: Keep := Keep(Zone.DAY, 30 * Zone.DAY, Zone.DAY)

  /** Rows of midnight and of noon, saying what the samples do. */
  predicate TwoRows(t: Table) {
    t.Keys == {FIRST, NOON} && Read(t[FIRST], CpuMin) == Some(0.0) && Read(t[NOON], CpuMin) == Some(1.0)
  }

  predicate NoonOnly(t: Table) {
    t.Keys == {NOON} && Read(t[NOON], CpuMin) == Some(1.0)
  }

  lemma OneOfTwo(src: Table, l: Level, k: Slot)
    requires src.Keys <= {FIRST, NOON} && (l == TenMinutes || l == Hourly) && Aligned(l, k.at) && HasRows(src, k, l)
    ensures k in src
  {
    var at := WindowHasRow(src, k, l);
    assert Slot(k.host, at) in src.Keys;
    Necessity.OneWindow(l, k.at, at);
  }

  lemma RowOfTwo(src: Table, l: Level, k: Slot)
    requires (TwoRows(src) || NoonOnly(src)) && (l == TenMinutes || l == Hourly) && k in src
    ensures Aligned(l, k.at) && HasRows(src, k, l) && Read(SummaryAt(src, k, l), CpuMin) == Read(src[k], CpuMin)
  {
    assert k in src.Keys;
    assert forall j :: j in src ==> j in src.Keys;
    LeastIs(src, k, l, k.at, Read(src[k], CpuMin).value);
  }

  /** The first call's ten minutes and hours. */
  lemma LevelOfTwo(t: Table, src: Table, l: Level, now: int)
    requires TwoRows(src) && (l == TenMinutes || l == Hourly) && IsFull(t, src, l, now) && now >= Zone.DAY
    ensures TwoRows(t)
  {
    RowOfTwo(src, l, FIRST);
    RowOfTwo(src, l, NOON);
    assert FullAt(t, src, l, now, FIRST) && FullAt(t, src, l, now, NOON);
    forall k
      ensures k in t <==> k in {FIRST, NOON}
    {
      assert FullAt(t, src, l, now, k);
      if k in t {
        OneOfTwo(src, l, k);
        assert k in src.Keys;
      }
    }
  }

  lemma DayRow(hours: Table, v: real)
    requires (TwoRows(hours) && v == 0.0) || (NoonOnly(hours) && v == 1.0)
    ensures HasRows(hours, FIRST, Daily) && Read(SummaryAt(hours, FIRST, Daily), CpuMin) == Some(v)
  {
    assert forall j :: j in hours ==> j in hours.Keys;
    LeastIs(hours, FIRST, Daily, if v == 0.0 then 0 else NOON.at, v);
  }

  /** The next call writes the noon rows anew, and keeps what it finds of the midnight ones. */
  lemma NoonAgain(dst: Table, src: Table, l: Level, now: int)
    requires TwoRows(dst) || NoonOnly(dst)
    requires TwoRows(src) || NoonOnly(src)
    requires (l == TenMinutes || l == Hourly) && now >= Zone.DAY
    ensures TwoRows(dst) ==> TwoRows(Stepped(dst, src, l, now))
    ensures NoonOnly(dst) ==> NoonOnly(Stepped(dst, src, l, now))
  {
    NoonStart(dst, src, l, now);
    NoonRow(dst, src, l, now);
    NoonKeys(dst, src, l, now);
    NoonKept(dst, src, l, now);
  }

  lemma NoonStart(dst: Table, src: Table, l: Level, now: int)
    requires (TwoRows(dst) || NoonOnly(dst)) && (l == TenMinutes || l == Hourly)
    ensures Stepped(dst, src, l, now) == WrittenFrom(dst, src, l, NOON.at, now)
  {
    WholeWindows(12);
    WholeWindows(72);
    NewestIsNoon(dst);
  }

  lemma NoonKeys(dst: Table, src: Table, l: Level, now: int)
    requires NOON in dst.Keys && (TwoRows(src) || NoonOnly(src)) && (l == TenMinutes || l == Hourly)
    ensures WrittenFrom(dst, src, l, NOON.at, now).Keys == dst.Keys
  {
    forall k
      ensures k in WrittenFrom(dst, src, l, NOON.at, now) <==> k in dst.Keys
    {
      NoonSlot(dst, src, l, now, k);
    }
  }

  lemma NoonRow(dst: Table, src: Table, l: Level, now: int)
    requires (TwoRows(src) || NoonOnly(src)) && (l == TenMinutes || l == Hourly) && now >= Zone.DAY
    ensures NOON in WrittenFrom(dst, src, l, NOON.at, now)
    ensures Read(WrittenFrom(dst, src, l, NOON.at, now)[NOON], CpuMin) == Some(1.0)
  {
    RowOfTwo(src, l, NOON);
    WrittenFromAt(dst, src, l, NOON.at, now, NOON);
  }

  lemma NoonKept(dst: Table, src: Table, l: Level, now: int)
    requires l == TenMinutes || l == Hourly
    ensures FIRST in dst ==> FIRST in WrittenFrom(dst, src, l, NOON.at, now)
                             && WrittenFrom(dst, src, l, NOON.at, now)[FIRST] == dst[FIRST]
  {
    WholeWindows(12);
    WholeWindows(72);
    WrittenFromAt(dst, src, l, NOON.at, now, FIRST);
  }

  lemma NoonSlot(dst: Table, src: Table, l: Level, now: int, k: Slot)
    requires NOON in dst && (TwoRows(src) || NoonOnly(src)) && (l == TenMinutes || l == Hourly)
    ensures k in WrittenFrom(dst, src, l, NOON.at, now) <==> k in dst.Keys
  {
    RowOfTwo(src, l, NOON);
    WrittenFromAt(dst, src, l, NOON.at, now, k);
    if k.at >= NOON.at && Complete(k, l, now) && HasRows(src, k, l) {
      OneOfTwo(src, l, k);
      assert k in src.Keys;
    }
  }

  lemma NewestIsNoon(t: Table)
    requires TwoRows(t) || NoonOnly(t)
    ensures Instants(t) != {} && Sets.MaxOf(Instants(t)) == NOON.at
  {
    assert NOON in t.Keys;
    assert forall k :: k in t ==> k in t.Keys;
    assert NOON.at in Instants(t);
  }

  lemma FirstRollUp()
    ensures var t := Batch(DAY, 25 * Zone.HOUR);
            && TwoRows(t.ten) && TwoRows(t.hour) && t.day.Keys == {FIRST} && Read(t.day[FIRST], CpuMin) == Some(0.0)
  {
    var now := 25 * Zone.HOUR;
    var t := Batch(DAY, now);
    BatchUpToDate(DAY, 0, now);
    LevelOfTwo(t.ten, Source(DAY), TenMinutes, now);
    LevelOfTwo(t.hour, t.ten, Hourly, now);
    DayLevel(t.day, t.hour, now);
  }

  lemma DayLevel(day: Table, hours: Table, now: int)
    requires TwoRows(hours) && IsFull(day, hours, Daily, now) && now >= Zone.DAY
    ensures day.Keys == {FIRST} && Read(day[FIRST], CpuMin) == Some(0.0)
  {
    DayRow(hours, 0.0);
    assert FullAt(day, hours, Daily, now, FIRST);
    forall k
      ensures k in day <==> k == FIRST
    {
      assert FullAt(day, hours, Daily, now, k);
      if k in day {
        FirstDay(hours, k);
      }
    }
  }

  lemma FirstDay(hours: Table, k: Slot)
    requires hours.Keys <= {FIRST, NOON} && Aligned(Daily, k.at) && HasRows(hours, k, Daily)
    ensures k == FIRST
  {
    var at := WindowHasRow(hours, k, Daily);
    assert Slot(k.host, at) in hours.Keys;
    Necessity.OneWindow(Daily, k.at, 0);
  }

  lemma PurgeDay(t: Tables)
    requires t.raw == DAY && TwoRows(t.ten) && TwoRows(t.hour)
    ensures var left := Purged(t, CutsOf(ONE_DAY, 25 * Zone.HOUR));
            left.raw == map[NOON := CpuRaw(1.0)] && left.ten == t.ten && NoonOnly(left.hour) && left.day == t.day
  {
    assert forall k :: k in t.ten ==> k in t.ten.Keys;
    assert forall k :: k in t.hour <==> k in t.hour.Keys;
    assert NOON in Since(t.hour, Zone.HOUR);
  }

  /** With hours kept for one day, as the settings page allows: the second hourly call writes the last day anew from its noon
      hour alone, and the night's minimum is gone. */
  lemma DayIsEaten()
    ensures var events := [Arrive(FIRST, CpuRaw(0.0)), Arrive(NOON, CpuRaw(1.0)), Call(25 * Zone.HOUR)];
            var later := events + [Purge(CutsOf(ONE_DAY, 25 * Zone.HOUR)), Call(26 * Zone.HOUR)];
            && FIRST in Replay(events).day && Read(Replay(events).day[FIRST], CpuMin) == Some(0.0)
            && FIRST in Replay(later).day && Read(Replay(later).day[FIRST], CpuMin) == Some(1.0)
  {
    var events := [Arrive(FIRST, CpuRaw(0.0)), Arrive(NOON, CpuRaw(1.0)), Call(25 * Zone.HOUR)];
    FirstThree();
    FirstRollUp();
    PurgeDay(Replay(events));
    PurgeAndCall(events, CutsOf(ONE_DAY, 25 * Zone.HOUR), 26 * Zone.HOUR);
    NextDay(Purged(Replay(events), CutsOf(ONE_DAY, 25 * Zone.HOUR)), 26 * Zone.HOUR);
  }

  lemma FirstThree()
    ensures Replay([Arrive(FIRST, CpuRaw(0.0)), Arrive(NOON, CpuRaw(1.0)), Call(25 * Zone.HOUR)]) == Batch(DAY, 25 * Zone.HOUR)
  {
    var a, b, call := Arrive(FIRST, CpuRaw(0.0)), Arrive(NOON, CpuRaw(1.0)), Call(25 * Zone.HOUR);
    assert [a, b][..1] == [a] && [a][..0] == [] && [a, b, call][..2] == [a, b];
    assert Replay([a]).raw == map[FIRST := CpuRaw(0.0)];
    assert Replay([a, b]).raw == DAY;
  }

  lemma PurgeAndCall(events: seq<Event>, cuts: Cuts, now: int)
    ensures Replay(events + [Purge(cuts), Call(now)]) == Rolled(Purged(Replay(events), cuts), now)
  {
    assert events + [Purge(cuts), Call(now)] == (events + [Purge(cuts)]) + [Call(now)];
    assert ((events + [Purge(cuts)]) + [Call(now)])[..|events| + 1] == events + [Purge(cuts)];
    assert (events + [Purge(cuts)])[..|events|] == events;
  }

  lemma NextDay(t: Tables, now: int)
    requires t.raw == map[NOON := CpuRaw(1.0)] && TwoRows(t.ten) && NoonOnly(t.hour) && t.day.Keys == {FIRST} && now >= Zone.DAY
    ensures FIRST in Rolled(t, now).day && Read(Rolled(t, now).day[FIRST], CpuMin) == Some(1.0)
  {
    var next := Rolled(t, now);
    NoonSample(t.raw);
    NoonAgain(t.ten, Source(t.raw), TenMinutes, now);
    NoonAgain(t.hour, next.ten, Hourly, now);
    DayAgain(t.day, next.hour, now);
  }

  lemma NoonSample(raw: map<Slot, Raw>)
    requires raw == map[NOON := CpuRaw(1.0)]
    ensures NoonOnly(Source(raw))
  {
    Necessity.SourceShape(raw);
  }

  lemma DayAgain(day: Table, hours: Table, now: int)
    requires day.Keys == {FIRST} && NoonOnly(hours) && now >= Zone.DAY
    ensures FIRST in Stepped(day, hours, Daily, now) && Read(Stepped(day, hours, Daily, now)[FIRST], CpuMin) == Some(1.0)
  {
    DayRow(hours, 1.0);
    NewestIsFirst(day);
    WrittenFromAt(day, hours, Daily, 0, now, FIRST);
  }
}
