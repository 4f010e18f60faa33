/**
 Whole weeks: the sampled test that refuses quiet hours covering all of one, and how long quiet hours it accepts can
 hold anything back.
 */
module Week {
  import opened Options
  import opened Zone
  import opened Schedule
  import opened Timeline
  import Calendar

  const WEEK: int := 604_800_000_000_000

  /** Monday 5 January 2026 in UTC. */
  const SAMPLE_START: int := 1_767_571_200_000_000_000

  lemma FixedNeverVanishes(ws: seq<Window>, offset: int, t: int)
    ensures !Vanished(ws, Fixed(offset), t) && !VanishedSince(ws, Fixed(offset), t)
  {
    var today := LocalDay(Fixed(offset), t);
    forall day, i, e
      ensures !Vanishes(ws, Fixed(offset), today, day, i, e)
    {
      if Lists(ws, today, day, i) {
        FixedWindow(ws[i], offset, day);
      }
    }
  }

  /** An all-day window of one weekday is off on that day of every week, the weeks counted from Monday 5 January 2026. */
  lemma WeekdayIsOff(k: int, offset: int, t: int)
    requires 1 <= k <= 7
    ensures OffTimeline([Window([k], "00:00", "24:00")], Fixed(offset), t) <==> (t + offset - SAMPLE_START) / DAY % 7 == k - 1
    ensures SAMPLE_START == Calendar.DayNumber(Calendar.Day(2026, 1, 5)) * DAY
  {
    AllDayIsOff([k], offset, 0, t);
    Calendar.Landmarks();
    DaysBetween(t + offset);
  }

  lemma DaysBetween(wall: int)
    ensures (wall - SAMPLE_START) / DAY == wall / DAY - SAMPLE_START / DAY && SAMPLE_START / DAY % 7 == 4
  {
  }

  // ---------- the preset ----------

  /** Off outside business hours on weekdays, and all weekend. */
  const EVENINGS_AND_WEEKENDS: seq<Window> :=
    [Window([1, 2, 3, 4, 5], "20:00", "07:00"), Window([6, 7], "00:00", "24:00")]

  lemma PresetTimes()
    ensures From(EVENINGS_AND_WEEKENDS[0]) == 1200 && To(EVENINGS_AND_WEEKENDS[0]) == 420
    ensures From(EVENINGS_AND_WEEKENDS[1]) == 0 && To(EVENINGS_AND_WEEKENDS[1]) == 1440
  {
  }

  predicate PresetOn(day: int, wall: int) {
    Iso(day) < 6 && (if Iso(day) == 1 then 0 else 420) * MINUTE <= wall - day * DAY < 1200 * MINUTE
  }

  lemma NotInWeekdayWindow(day: int, wall: int, d: int)
    requires PresetOn(day, wall)
    ensures Iso(d) < 6 ==> !(d * DAY + 1200 * MINUTE <= wall < (d + 1) * DAY + 420 * MINUTE)
  {
    assert d == day - 1 && Iso(day) == 1 ==> Iso(d) == 7;
  }

  lemma NotInWeekendWindow(day: int, wall: int, d: int)
    requires PresetOn(day, wall)
    ensures Iso(d) >= 6 ==> !(d * DAY <= wall < d * DAY + 1440 * MINUTE)
  {
    DaysApart(d, day);
    DaysApart(day, d);
  }

  lemma DaysApart(a: int, b: int)
    ensures a < b ==> a * DAY + DAY <= b * DAY
  {
    assert b * DAY - a * DAY == (b - a) * DAY;
  }

  /** Under the preset every weekday is on from seven to eight in the evening, and every Monday from midnight. */
  lemma PresetIsOn(offset: int, day: int, x: int)
    requires PresetOn(day, x + offset)
    ensures !OffTimeline(EVENINGS_AND_WEEKENDS, Fixed(offset), x)
  {
    var ws, z := EVENINGS_AND_WEEKENDS, Fixed(offset);
    PresetTimes();
    forall d, i
      ensures !InWindow(ws, z, d, i, x)
    {
      if 0 <= i < 2 {
        FixedWindow(ws[i], offset, d);
        NotInWeekdayWindow(day, x + offset, d);
        NotInWeekendWindow(day, x + offset, d);
      }
    }
  }

  /** So the preset is never off from one midnight past the second after it, and its minute ticks are exact. */
  lemma PresetNeverMisfires(offset: int, t: int)
    ensures !Misfires(EVENINGS_AND_WEEKENDS, Fixed(offset), t)
  {
    var z := Fixed(offset);
    FixedNeverVanishes(EVENINGS_AND_WEEKENDS, offset, t);
    var first := LocalDay(z, t) - 2;
    var day := if Iso(first) < 6 then first else if Iso(first + 1) < 6 then first + 1 else first + 2;
    var x := day * DAY + (if Iso(day) == 1 then 0 else 720 * MINUTE) - offset;
    PresetIsOn(offset, day, x);
    assert Earliest(z, first * DAY) <= x <= t;
  }

  // ---------- lists the settings page accepts that do misfire ----------

  /** A list of one all-day window. */
  function AllDay(days: seq<int>): seq<Window> {
    [Window(days, "00:00", "24:00")]
  }

  lemma AllDayTimes(days: seq<int>)
    ensures From(AllDay(days)[0]) == 0 && To(AllDay(days)[0]) == 1440
    ensures days != [] && (forall d :: d in days ==> 1 <= d <= 7) ==> ValidWindow(AllDay(days)[0])
  {
  }

  /** It is off on its days and on on the others. */
  lemma AllDayIsOff(days: seq<int>, offset: int, today: int, x: int)
    ensures var ws, z := AllDay(days), Fixed(offset);
            && (OffTimeline(ws, z, x) <==> Iso(LocalDay(z, x)) in days)
            && (OffView(ws, z, today, x) <==> Iso(LocalDay(z, x)) in days && today - 2 <= LocalDay(z, x) <= today + 1)
  {
    var ws, z := AllDay(days), Fixed(offset);
    AllDayTimes(days);
    forall d, i
      ensures InWindow(ws, z, d, i, x) <==> i == 0 && d == LocalDay(z, x) && Iso(d) in days
    {
      if i == 0 {
        FixedWindow(ws[0], offset, d);
        DaysApart(d, LocalDay(z, x));
        DaysApart(LocalDay(z, x), d);
      }
    }
    assert Iso(LocalDay(z, x)) in days ==> InWindow(ws, z, LocalDay(z, x), 0, x);
  }

  /** The stop at the local midnight `back` days before t's. */
  function StopAt(offset: int, t: int, back: int): Boundary {
    Boundary((LocalDay(Fixed(offset), t) - back) * DAY - offset, true)
  }

  lemma DayOfInstant(offset: int, t: int, x: int, back: nat)
    requires StopAt(offset, t, back).at <= x <= t
    ensures LocalDay(Fixed(offset), t) - back <= LocalDay(Fixed(offset), x) <= LocalDay(Fixed(offset), t)
  {
  }

  lemma DayBefore(offset: int, t: int, back: nat)
    ensures LocalDay(Fixed(offset), StopAt(offset, t, back).at - 1) == LocalDay(Fixed(offset), t) - back - 1
    ensures StopAt(offset, t, back).at <= t
  {
    var d := LocalDay(Fixed(offset), t) - back;
    DayOf(d * DAY - 1, d - 1, DAY - 1);
  }

  lemma OffBackTo(days: seq<int>, offset: int, t: int, back: nat)
    requires forall d :: LocalDay(Fixed(offset), t) - back <= d <= LocalDay(Fixed(offset), t) ==> Iso(d) in days
    ensures forall x :: StopAt(offset, t, back).at <= x <= t ==> OffTimeline(AllDay(days), Fixed(offset), x)
  {
    forall x | StopAt(offset, t, back).at <= x <= t
      ensures OffTimeline(AllDay(days), Fixed(offset), x)
    {
      AllDayIsOff(days, offset, 0, x);
      DayOfInstant(offset, t, x, back);
    }
  }

  lemma EdgeIsLast(days: seq<int>, offset: int, t: int)
    requires forall d :: LocalDay(Fixed(offset), t) - 3 <= d <= LocalDay(Fixed(offset), t) ==> Iso(d) in days
    ensures IsLastInView(AllDay(days), Fixed(offset), LocalDay(Fixed(offset), t), t, StopAt(offset, t, 2))
  {
    var ws, z, today, edge := AllDay(days), Fixed(offset), LocalDay(Fixed(offset), t), StopAt(offset, t, 2);
    DayBefore(offset, t, 2);
    AllDayIsOff(days, offset, today, edge.at - 1);
    forall x | edge.at <= x <= t
      ensures OffView(ws, z, today, x)
    {
      AllDayIsOff(days, offset, today, x);
      DayOfInstant(offset, t, x, 2);
    }
  }

  /** What the hub reads, and does again, when the last three days are all off. */
  lemma LongOffStopsAgain(days: seq<int>, offset: int, t: int)
    requires Recent(Fixed(offset), t)
    requires forall d :: LocalDay(Fixed(offset), t) - 3 <= d <= LocalDay(Fixed(offset), t) ==> Iso(d) in days
    ensures Misfires(AllDay(days), Fixed(offset), t)
    ensures Reading(AllDay(days), Fixed(offset), t) == Some(StopAt(offset, t, 2))
    ensures !TrueBoundary(AllDay(days), Fixed(offset), StopAt(offset, t, 2))
  {
    var ws, z, edge := AllDay(days), Fixed(offset), StopAt(offset, t, 2);
    EdgeIsLast(days, offset, t);
    FixedNeverVanishes(ws, offset, t);
    ReadingIsLast(ws, z, t, edge);
    OffBackTo(days, offset, t, 3);
    assert Earliest(z, (LocalDay(z, t) - 2) * DAY) == edge.at;
    assert LongOff(ws, z, t);
    assert OffTimeline(ws, z, edge.at - 1);
  }

  const EVERY_DAY: seq<int> := [1, 2, 3, 4, 5, 6, 7]
  const FRIDAY_TO_MONDAY: seq<int> := [5, 6, 7, 1]

  lemma DaysAccepted(d: int)
    ensures Iso(d) in EVERY_DAY
    ensures Iso(d) == 1 ==> Iso(d) in FRIDAY_TO_MONDAY && Iso(d - 1) in FRIDAY_TO_MONDAY && Iso(d - 2) in FRIDAY_TO_MONDAY
                            && Iso(d - 3) in FRIDAY_TO_MONDAY && Iso(d - 4) !in FRIDAY_TO_MONDAY
    ensures ValidWindow(AllDay(EVERY_DAY)[0]) && ValidWindow(AllDay(FRIDAY_TO_MONDAY)[0])
  {
    AllDayTimes(EVERY_DAY);
    AllDayTimes(FRIDAY_TO_MONDAY);
    var n := Iso(d);
    assert EVERY_DAY[n - 1] == n;
    if n == 1 {
      assert FRIDAY_TO_MONDAY[3] == n && FRIDAY_TO_MONDAY[2] == Iso(d - 1) && FRIDAY_TO_MONDAY[1] == Iso(d - 2);
      assert FRIDAY_TO_MONDAY[0] == Iso(d - 3);
    }
  }

  /** A list that is always off has no boundary at all, and the hub still stops its resource every day: whatever it remembers
      from before the midnight two days ago. */
  lemma AlwaysOffMisfires(offset: int, t: int, last: Option<int>)
    requires Recent(Fixed(offset), t) && (last.None? || last.value < StopAt(offset, t, 2).at)
    ensures ValidWindow(AllDay(EVERY_DAY)[0]) && Misfires(AllDay(EVERY_DAY), Fixed(offset), t)
    ensures forall b :: !TrueBoundary(AllDay(EVERY_DAY), Fixed(offset), b)
    ensures NoneDue(AllDay(EVERY_DAY), Fixed(offset), last, t)
    ensures Tick(AllDay(EVERY_DAY), Fixed(offset), last, t).1 == Some(StopAt(offset, t, 2))
  {
    DaysAccepted(0);
    forall d
      ensures Iso(d) in EVERY_DAY
    {
      DaysAccepted(d);
    }
    LongOffStopsAgain(EVERY_DAY, offset, t);
    DayBefore(offset, t, 2);
    forall b
      ensures !TrueBoundary(AllDay(EVERY_DAY), Fixed(offset), b)
    {
      AllDayIsOff(EVERY_DAY, offset, 0, b.at);
      AllDayIsOff(EVERY_DAY, offset, 0, b.at - 1);
    }
  }

  /** Off from Friday to Monday: all Monday long the true last boundary is Friday's midnight, the hub reads Saturday's, and a
      row that remembers Friday's is stopped again. */
  lemma LongWeekendMisfires(offset: int, t: int)
    requires Recent(Fixed(offset), t) && Iso(LocalDay(Fixed(offset), t)) == 1
    ensures ValidWindow(AllDay(FRIDAY_TO_MONDAY)[0]) && Misfires(AllDay(FRIDAY_TO_MONDAY), Fixed(offset), t)
    ensures IsLast(AllDay(FRIDAY_TO_MONDAY), Fixed(offset), t, StopAt(offset, t, 3))
    ensures Tick(AllDay(FRIDAY_TO_MONDAY), Fixed(offset), Some(StopAt(offset, t, 3).at), t).1 == Some(StopAt(offset, t, 2))
  {
    DaysAccepted(LocalDay(Fixed(offset), t));
    LongOffStopsAgain(FRIDAY_TO_MONDAY, offset, t);
    OffBackTo(FRIDAY_TO_MONDAY, offset, t, 3);
    DayBefore(offset, t, 3);
    AllDayIsOff(FRIDAY_TO_MONDAY, offset, 0, StopAt(offset, t, 3).at - 1);
  }

  const SKIPPED: seq<Window> := [Window([7], "02:15", "02:45")]

  lemma SkippedTimes()
    ensures From(SKIPPED[0]) == 135 && To(SKIPPED[0]) == 165 && ValidWindow(SKIPPED[0])
  {
  }

  /** On a Sunday when two o'clock becomes three, a window inside the skipped hour leaves an instant behind: for the rest of
      the day LastBoundary says off, Off says on, and the hub stops a resource nobody asked it to. */
  lemma SkippedWindowMisfires(z: Zone, day: int, t: int)
    requires z.before == 0 && z.after == HOUR && z.at == day * DAY + 2 * HOUR && day >= 0 && Iso(day) == 7
    requires z.at <= t < z.at + 12 * HOUR
    ensures Regular(z) && Recent(z, t)
    ensures Vanished(SKIPPED, z, t) && Misfires(SKIPPED, z, t)
    ensures Reading(SKIPPED, z, t) == Some(Boundary(z.at, true)) && !OffTimeline(SKIPPED, z, t)
  {
    SkippedZone(z, day, t);
    SkippedIsStranded(z, day, t);
    ReadingStranded(SKIPPED, z, t, z.at);
    SkippedIsOn(z, day, t);
    assert OnSince(SKIPPED, z, z.at, t);
  }

  lemma SkippedIsStranded(z: Zone, day: int, t: int)
    requires z.before == 0 && z.after == HOUR && z.at == day * DAY + 2 * HOUR && Iso(day) == 7
    requires Regular(z) && LocalDay(z, t) == day && z.at <= t
    ensures Vanishes(SKIPPED, z, day, day, 0, z.at) && Stranded(SKIPPED, z, day, t, z.at)
  {
    SkippedTimes();
    WindowEnds(SKIPPED[0], z, day);
    assert Vanishes(SKIPPED, z, day, day, 0, z.at);
    forall d, i
      ensures Lists(SKIPPED, day, d, i) ==> d == day && i == 0
    {
    }
  }

  lemma SkippedIsOn(z: Zone, day: int, t: int)
    requires z.before == 0 && z.after == HOUR && z.at == day * DAY + 2 * HOUR && Iso(day) == 7 && Regular(z)
    requires forall x :: z.at - 1 <= x <= t ==> LocalDay(z, x) == day
    ensures forall x :: z.at - 1 <= x <= t ==> !OffTimeline(SKIPPED, z, x)
  {
    SkippedTimes();
    WindowEnds(SKIPPED[0], z, day);
    forall x, d, i | z.at - 1 <= x <= t
      ensures !InWindow(SKIPPED, z, d, i, x)
    {
      if InWindow(SKIPPED, z, d, i, x) {
        WindowDays(SKIPPED, z, d, i, x);
      }
    }
  }

  lemma SkippedZone(z: Zone, day: int, t: int)
    requires z.before == 0 && z.after == HOUR && z.at == day * DAY + 2 * HOUR && day >= 0
    requires z.at <= t < z.at + 12 * HOUR
    ensures Regular(z) && Recent(z, t)
    ensures forall x :: z.at - 1 <= x <= t ==> LocalDay(z, x) == day
  {
    forall x | z.at - 1 <= x <= t
      ensures LocalDay(z, x) == day
    {
      DayOf(Wall(z, x), day, Wall(z, x) - day * DAY);
    }
    SkippedIsRegular(z, day);
  }

  lemma SkippedIsRegular(z: Zone, day: int)
    requires z.before == 0 && z.after == HOUR && z.at == day * DAY + 2 * HOUR
    ensures Regular(z)
  {
    DayOf(z.at - 1, day, 2 * HOUR - 1);
    DayOf(z.at + HOUR, day, 3 * HOUR);
    HoursOfDay(day);
  }

  lemma HoursOfDay(day: int)
    ensures (day * DAY + 2 * HOUR) % HOUR == 0
  {
    assert day * DAY + 2 * HOUR == (day * 24 + 2) * HOUR;
  }

  lemma WindowRepeats(ws: seq<Window>, z0: int, z1: int, day: int, i: int, t: int, weeks: int)
    requires InWindow(ws, Fixed(z0), day, i, t)
    ensures InWindow(ws, Fixed(z1), day + 7 * weeks, i, t + z0 - z1 + weeks * WEEK)
  {
    FixedWindow(ws[i], z0, day);
    FixedWindow(ws[i], z1, day + 7 * weeks);
    WeeksLater(ws[i], day, weeks);
  }

  lemma WeeksLater(w: Window, day: int, weeks: int)
    ensures Iso(day + 7 * weeks) == Iso(day)
    ensures OpensAt(w, day + 7 * weeks) == OpensAt(w, day) + weeks * WEEK
    ensures ClosesAt(w, day + 7 * weeks) == ClosesAt(w, day) + weeks * WEEK
  {
    assert (day + 7 * weeks) * DAY == day * DAY + weeks * WEEK;
    assert (day + 1 + 7 * weeks) * DAY == (day + 1) * DAY + weeks * WEEK;
  }

  /** A fixed zone reads the UTC timeline shifted by its offset, and the timeline repeats every week. */
  lemma Repeats(ws: seq<Window>, offset: int, t: int, weeks: int)
    ensures OffTimeline(ws, Fixed(offset), t) <==> OffTimeline(ws, Fixed(0), t + offset + weeks * WEEK)
  {
    var u := t + offset + weeks * WEEK;
    if OffTimeline(ws, Fixed(offset), t) {
      var day, i :| InWindow(ws, Fixed(offset), day, i, t);
      WindowRepeats(ws, offset, 0, day, i, t, weeks);
    }
    if OffTimeline(ws, Fixed(0), u) {
      var day, i :| InWindow(ws, Fixed(0), day, i, u);
      WindowRepeats(ws, 0, offset, day, i, u, -weeks);
    }
  }

  /** Inside one minute nothing changes. */
  lemma SameAllMinute(ws: seq<Window>, z: Zone, t: int, u: int)
    requires Regular(z) && WholeMinutes(z) && t / MINUTE == u / MINUTE
    ensures OffTimeline(ws, z, t) <==> OffTimeline(ws, z, u)
  {
    if OffTimeline(ws, z, t) {
      SameAllMinuteOneWay(ws, z, t, u);
    }
    if OffTimeline(ws, z, u) {
      SameAllMinuteOneWay(ws, z, u, t);
    }
  }

  lemma SameAllMinuteOneWay(ws: seq<Window>, z: Zone, t: int, u: int)
    requires Regular(z) && WholeMinutes(z) && t / MINUTE == u / MINUTE && OffTimeline(ws, z, t)
    ensures OffTimeline(ws, z, u)
  {
    var day, i :| InWindow(ws, z, day, i, t);
    WindowOnTheMinute(ws[i], z, day);
    WithinMinutes(t, u, Start(ws[i], z, day), End(ws[i], z, day));
    assert InWindow(ws, z, day, i, u);
  }

  lemma WithinMinutes(t: int, u: int, from: int, to: int)
    requires t / MINUTE == u / MINUTE && from % MINUTE == 0 && to % MINUTE == 0 && from <= t < to
    ensures from <= u < to
  {
  }

  ghost predicate OffAllWeek(ws: seq<Window>) {
    forall t :: OffInUtc(ws, t)
  }

  ghost predicate OffInUtc(ws: seq<Window>, t: int) {
    OffTimeline(ws, Fixed(0), t)
  }

  /** Ten thousand and eighty samples, one a minute of one UTC week, decide every instant of every week. */
  method CoversWholeWeek(ws: seq<Window>) returns (r: bool)
    ensures r <==> OffAllWeek(ws)
  {
    if |ws| == 0 {
      assert !OffInUtc(ws, 0);
      return false;
    }
    var t := SAMPLE_START;
    while t < SAMPLE_START + WEEK
      invariant SAMPLE_START <= t <= SAMPLE_START + WEEK && t % MINUTE == 0
      invariant AllOff(ws, SAMPLE_START, t)
    {
      var off := SampleOff(ws, t);
      if !off {
        assert !OffInUtc(ws, t);
        return false;
      }
      OneMoreSample(ws, SAMPLE_START, t);
      t := t + MINUTE;
    }
    WeekStandsForAll(ws);
    return true;
  }

  method SampleOff(ws: seq<Window>, t: int) returns (off: bool)
    ensures off <==> OffInUtc(ws, t)
  {
    off := Off(ws, Fixed(0), t);
  }

  ghost predicate AllOff(ws: seq<Window>, from: int, until: int) {
    forall u :: from <= u < until ==> OffInUtc(ws, u)
  }

  lemma OneMoreSample(ws: seq<Window>, from: int, t: int)
    requires AllOff(ws, from, t) && t % MINUTE == 0 && OffInUtc(ws, t)
    ensures AllOff(ws, from, t + MINUTE) && (t + MINUTE) % MINUTE == 0
  {
    var minute := t / MINUTE;
    OnTheMinute(t, minute);
    SampleStandsForMinute(ws, minute);
    forall u | from <= u < t + MINUTE
      ensures OffInUtc(ws, u)
    {
    }
  }

  lemma OnTheMinute(t: int, minute: int)
    requires t % MINUTE == 0 && minute == t / MINUTE
    ensures t == minute * MINUTE && t + MINUTE == (minute + 1) * MINUTE && (t + MINUTE) % MINUTE == 0
  {
  }

  lemma SampleStandsForMinute(ws: seq<Window>, minute: int)
    requires OffInUtc(ws, minute * MINUTE)
    ensures forall u :: minute * MINUTE <= u < (minute + 1) * MINUTE ==> OffInUtc(ws, u)
  {
    forall u | minute * MINUTE <= u < (minute + 1) * MINUTE
      ensures OffInUtc(ws, u)
    {
      MinuteOf(u, minute);
      MinuteOf(minute * MINUTE, minute);
      SameAllMinute(ws, Fixed(0), minute * MINUTE, u);
    }
  }

  lemma WeekStandsForAll(ws: seq<Window>)
    requires AllOff(ws, SAMPLE_START, SAMPLE_START + WEEK)
    ensures OffAllWeek(ws)
  {
    forall u
      ensures OffInUtc(ws, u)
    {
      assert OffInUtc(ws, u - (u - SAMPLE_START) / WEEK * WEEK);
      Repeats(ws, 0, u, -((u - SAMPLE_START) / WEEK));
    }
  }

  /** Windows that leave something of the week out leave a whole minute out of every seven days. */
  lemma OnMinuteWithinAWeek(ws: seq<Window>, offset: int, t: int) returns (on: int)
    requires offset % MINUTE == 0 && !OffAllWeek(ws) && OffTimeline(ws, Fixed(offset), t)
    ensures t < on && on + MINUTE <= t + WEEK
    ensures forall u :: on <= u < on + MINUTE ==> !OffTimeline(ws, Fixed(offset), u)
  {
    var z := Fixed(offset);
    var minute := t / MINUTE;
    var gap :| !OffInUtc(ws, gap);
    var weeks := (gap - offset - minute * MINUTE) / WEEK;
    var u := gap - offset - weeks * WEEK;
    Repeats(ws, offset, u, weeks);
    if u / MINUTE == minute {
      SameAllMinute(ws, z, t, u);
    }
    on := u / MINUTE * MINUTE;
    forall v | on <= v < on + MINUTE
      ensures !OffTimeline(ws, z, v)
    {
      MinuteOf(v, u / MINUTE);
      SameAllMinute(ws, z, u, v);
    }
    WeekOfMinutes(u, minute);
  }

  lemma MinuteOf(v: int, minute: int)
    requires minute * MINUTE <= v < minute * MINUTE + MINUTE
    ensures v / MINUTE == minute
  {
  }

  lemma WeekOfMinutes(u: int, minute: int)
    requires minute * MINUTE <= u < minute * MINUTE + WEEK && u / MINUTE != minute
    ensures minute * MINUTE + MINUTE <= u / MINUTE * MINUTE <= minute * MINUTE + WEEK - MINUTE
  {
  }

  /** Minute ticks step into every minute they cross. */
  lemma {:induction false} TickInMinute(since: int, ticks: seq<int>, from: int) returns (k: nat)
    requires EveryMinute(since, ticks) && since < from <= LastTick(since, ticks)
    ensures k < |ticks| && from <= ticks[k] < from + MINUTE
    ensures forall j :: 0 <= j < k ==> ticks[j] < from
    decreases |ticks|
  {
    if ticks[0] >= from {
      k := 0;
    } else {
      assert LastTick(since, ticks) == LastTick(ticks[0], ticks[1..]);
      var m := TickInMinute(ticks[0], ticks[1..], from);
      k := m + 1;
    }
  }
}
