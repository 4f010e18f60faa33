/**
 Instants, a zone with at most one offset change, and the wall-clock lookup that every off window is built from.

 Instants are integers counting nanoseconds from the Unix epoch, as Go's time.Time does; a wall-clock reading is an
 integer of the same unit, local midnight of day d being d * DAY.
 */
module Zone {
  const SECOND: int := 1_000_000_000
  const MINUTE: int := 60_000_000_000
  const HOUR: int := 3_600_000_000_000
  const DAY: int := 86_400_000_000_000
  const MINUTES_PER_DAY: int := 1440

  /** The offset is `before` until the instant `at`, and `after` from it on. Where a wall-clock reading names no
      instant, or two, `pick` says which of the two candidates time.Date returns: its documentation leaves that open. */
  datatype Zone = Zone(before: int, after: int, at: int, pick: int -> bool)

  function Fixed(offset: int): Zone {
    Zone(offset, offset, 0, _ => true)
  }

  function OffsetAt(z: Zone, t: int): int {
    if t < z.at then z.before else z.after
  }

  function Wall(z: Zone, t: int): int {
    t + OffsetAt(z, t)
  }

  function LocalDay(z: Zone, t: int): int {
    Wall(z, t) / DAY
  }

  function MinuteOfDay(z: Zone, t: int): int {
    Wall(z, t) % DAY / MINUTE
  }

  /** time.Date for the wall-clock reading w. */
  function Date(z: Zone, w: int): int {
    var early := w - z.before;
    var late := w - z.after;
    if early < z.at && late < z.at then early
    else if early >= z.at && late >= z.at then late
    else if z.pick(w) then early else late
  }

  /** The instant a wall-clock minute of a local day stands for. */
  function Clock(z: Zone, day: int, mins: int): int {
    if mins >= MINUTES_PER_DAY then Date(z, (day + 1) * DAY)
    else
      var hh := mins / 60;
      var t := Date(z, day * DAY + mins * MINUTE);
      if MinuteOfDay(z, t) != mins then Date(z, day * DAY + (hh + 1) * HOUR)
      else
        var delta := OffsetAt(z, t - 6 * HOUR) - OffsetAt(z, t);
        var earlier := t - delta;
        if delta > 0 && MinuteOfDay(z, earlier) == mins then earlier else t
  }

  /** The first instant whose wall clock reads at least w. */
  function Earliest(z: Zone, w: int): int {
    if w - z.before < z.at then w - z.before
    else if w - z.after < z.at then z.at else w - z.after
  }

  lemma EarliestIsLeast(z: Zone, w: int)
    ensures Wall(z, Earliest(z, w)) >= w
    ensures forall u :: u < Earliest(z, w) ==> Wall(z, u) < w
  {
  }

  /** No change; or clocks jump forward exactly one hour, on the hour; or fall back by at most six hours; and the hour
      skipped or repeated does not touch a midnight. */
  predicate Regular(z: Zone) {
    || z.before == z.after
    || (z.after == z.before + HOUR && (z.at + z.before) % HOUR == 0
        && (z.at + z.before - 1) / DAY == (z.at + z.after) / DAY)
    || (z.after < z.before <= z.after + 6 * HOUR && (z.at + z.before - 1) / DAY == (z.at + z.after - 1) / DAY)
  }

  /** A reading that starts minute `mins` of a day is told apart from any other one less than a day away, except within
      its own minute. */
  lemma ReadingShifted(day: int, mins: int, shift: int)
    requires 0 <= mins < MINUTES_PER_DAY
    requires MINUTE - DAY <= shift < 0 || shift == 0 || MINUTE <= shift < DAY
    ensures (day * DAY + mins * MINUTE + shift) % DAY / MINUTE == mins <==> shift == 0
  {
    var r := mins * MINUTE + shift;
    if r < 0 {
      DayOf(day * DAY + r, day - 1, r + DAY);
    } else if r < DAY {
      DayOf(day * DAY + r, day, r);
    } else {
      DayOf(day * DAY + r, day + 1, r - DAY);
    }
  }

  lemma DayOf(w: int, day: int, rest: int)
    requires w == day * DAY + rest && 0 <= rest < DAY
    ensures w / DAY == day && w % DAY == rest
  {
  }

  lemma NoMidnightBetween(lo: int, hi: int, day: int)
    requires lo / DAY == hi / DAY
    ensures !(lo < day * DAY <= hi)
  {
  }

  lemma ClockIsEarliest(z: Zone, day: int, mins: int)
    requires Regular(z) && 0 <= mins <= MINUTES_PER_DAY
    ensures Clock(z, day, mins) == Earliest(z, day * DAY + mins * MINUTE)
  {
    if mins == MINUTES_PER_DAY {
      MidnightIsUnambiguous(z, day + 1);
    } else if z.before == z.after {
      ReadingShifted(day, mins, 0);
    } else if z.before < z.after {
      ClockAcrossGap(z, day, mins);
    } else {
      ClockAcrossRepeat(z, day, mins);
    }
  }

  lemma MidnightIsUnambiguous(z: Zone, day: int)
    requires Regular(z)
    ensures Date(z, day * DAY) == Earliest(z, day * DAY)
  {
    if z.before < z.after {
      NoMidnightBetween(z.at + z.before - 1, z.at + z.after, day);
    } else if z.after < z.before {
      NoMidnightBetween(z.at + z.after - 1, z.at + z.before - 1, day);
    }
  }

  /** Spring: a minute of the skipped hour becomes the first instant after it. */
  lemma ClockAcrossGap(z: Zone, day: int, mins: int)
    requires Regular(z) && z.before < z.after && 0 <= mins < MINUTES_PER_DAY
    ensures Clock(z, day, mins) == Earliest(z, day * DAY + mins * MINUTE)
  {
    var w := day * DAY + mins * MINUTE;
    ReadingShifted(day, mins, 0);
    if z.at + z.before <= w < z.at + z.after {
      ReadingShifted(day, mins, HOUR);
      ReadingShifted(day, mins, -HOUR);
      HourOfReading(z.at + z.before, day, mins);
    } else {
      assert Wall(z, Date(z, w)) == w;
    }
  }

  lemma HourOfReading(hour: int, day: int, mins: int)
    requires 0 <= mins < MINUTES_PER_DAY
    requires hour % HOUR == 0 && hour <= day * DAY + mins * MINUTE < hour + HOUR
    ensures hour == day * DAY + mins / 60 * HOUR
  {
    var k := hour / HOUR;
    assert hour == k * HOUR;
    assert mins == 60 * (mins / 60) + mins % 60;
    assert k == day * 24 + mins / 60;
  }

  /** Autumn: of the two instants reading the same minute, the clock takes the first, whichever one time.Date gave. */
  lemma ClockAcrossRepeat(z: Zone, day: int, mins: int)
    requires Regular(z) && z.after < z.before && 0 <= mins < MINUTES_PER_DAY
    ensures Clock(z, day, mins) == Earliest(z, day * DAY + mins * MINUTE)
  {
    ReadingShifted(day, mins, 0);
    ReadingShifted(day, mins, z.after - z.before);
  }

  /** What the snap to the next full hour is worth for any forward change of a minute or more: it reaches the first
      instant of the new offset exactly when the skipped stretch ends on the hour after the minute asked for. */
  lemma GapSnapExact(z: Zone, day: int, mins: int)
    requires 0 <= mins < MINUTES_PER_DAY && MINUTE <= z.after - z.before <= DAY - MINUTE
    requires z.at + z.before <= day * DAY + mins * MINUTE < z.at + z.after
    ensures Clock(z, day, mins) == z.at <==> z.at + z.after == day * DAY + (mins / 60 + 1) * HOUR
  {
    ReadingShifted(day, mins, z.after - z.before);
    ReadingShifted(day, mins, z.before - z.after);
    assert day * DAY + (mins / 60 + 1) * HOUR > day * DAY + mins * MINUTE;
  }

  /** Lord Howe Island goes from +10:30 to +11:00 at two in the morning: a quarter past two becomes three o'clock, half
      an hour after the clocks changed. */
  lemma HalfHourGapOvershoots(z: Zone)
    requires z.before == 10 * HOUR + 30 * MINUTE && z.after == 11 * HOUR && z.at + z.before == 2 * HOUR
    ensures Clock(z, 0, 135) == z.at + 30 * MINUTE
  {
    ReadingShifted(0, 135, 30 * MINUTE);
    ReadingShifted(0, 135, -30 * MINUTE);
  }

  /** A local midnight splits time in two, although readings may run backwards within a day. */
  lemma MidnightSplits(z: Zone, t: int, day: int)
    requires Regular(z)
    ensures t < Earliest(z, day * DAY) <==> LocalDay(z, t) < day
  {
    EarliestIsLeast(z, day * DAY);
    if t >= Earliest(z, day * DAY) && Wall(z, t) < day * DAY {
      NoMidnightBetween(z.at + z.after - 1, z.at + z.before - 1, day);
    }
  }

  lemma LocalDayMonotone(z: Zone, t: int, u: int)
    requires Regular(z) && t <= u
    ensures LocalDay(z, t) <= LocalDay(z, u)
  {
    MidnightSplits(z, t, LocalDay(z, t));
    MidnightSplits(z, u, LocalDay(z, t));
  }

  lemma DayOfEarliest(z: Zone, w: int)
    requires Regular(z)
    ensures LocalDay(z, Earliest(z, w)) == w / DAY
  {
    var day := w / DAY;
    if z.at + z.before <= w < z.at + z.after {
      NoMidnightBetween(z.at + z.before - 1, z.at + z.after, day + 1);
    }
  }
}
