/**
 Off windows: the weekly list a person writes, the absolute intervals the hub derives from it around one instant, and
 the two questions it asks of them. Their meaning is the unbounded timeline, OffTimeline: every window of every day.
 */
module Schedule {
  import opened Options
  import opened Zone
  import Calendar

  datatype Result<+T> = Ok(value: T) | Err(window: nat)

  /** Days are ISO numbers, 1 for Monday to 7 for Sunday; from and to read "HH:MM". */
  datatype Window = Window(days: seq<int>, from: string, to: string)

  datatype Interval = Interval(start: int, end: int)

  /** A change of the timeline: off says which way. */
  datatype Boundary = Boundary(at: int, off: bool)

  /** time.Time's zero value, 1 January of year 1: an instant no boundary is ever before. */
  const ZERO_TIME: int := -62_135_596_800_000_000_000

  lemma ZeroIsYearOne()
    ensures ZERO_TIME == Calendar.DayNumber(Calendar.Day(1, 1, 1)) * DAY
  {
    Calendar.Landmarks();
  }

  // ---------- reading a window ----------

  predicate IsDigit(c: char) {
    '0' <= c <= '9'
  }

  function Minutes(s: string, end: bool): (r: Option<int>)
    ensures r.Some? ==> 0 <= r.value <= MINUTES_PER_DAY
    ensures r.Some? && !end ==> r.value < MINUTES_PER_DAY
  {
    if |s| != 5 || s[2] != ':' || !IsDigit(s[0]) || !IsDigit(s[1]) || !IsDigit(s[3]) || !IsDigit(s[4]) then None
    else
      var hh := (s[0] - '0') as int * 10 + (s[1] - '0') as int;
      var mm := (s[3] - '0') as int * 10 + (s[4] - '0') as int;
      if mm > 59 || hh > 24 || (hh == 24 && (mm != 0 || !end)) then None else Some(hh * 60 + mm)
  }

  function Digit(n: int): char
    requires 0 <= n <= 9
  {
    '0' + n as char
  }

  /** A time of day written out, "24:00" being the end of the day. */
  function Written(hh: int, mm: int): string
    requires 0 <= hh <= 24 && 0 <= mm <= 59
  {
    [Digit(hh / 10), Digit(hh % 10), ':', Digit(mm / 10), Digit(mm % 10)]
  }

  /** Reading and writing undo one another: what is read is what was written, and only what can be written is read. */
  lemma MinutesRoundTrip(hh: int, mm: int, s: string, end: bool)
    requires 0 <= hh <= 24 && 0 <= mm <= 59
    ensures Minutes(Written(hh, mm), end) == if hh < 24 || (mm == 0 && end) then Some(hh * 60 + mm) else None
    ensures var m := Minutes(s, end);
            m.Some? ==> s == Written(m.value / 60, m.value % 60)
  {
    ReadDigit(hh / 10);
    ReadDigit(hh % 10);
    ReadDigit(mm / 10);
    ReadDigit(mm % 10);
    if Minutes(s, end).Some? {
      SplitMinutes((s[0] - '0') as int, (s[1] - '0') as int, (s[3] - '0') as int, (s[4] - '0') as int);
    }
  }

  lemma ReadDigit(n: int)
    requires 0 <= n <= 9
    ensures IsDigit(Digit(n)) && (Digit(n) - '0') as int == n
  {
  }

  lemma SplitMinutes(a: int, b: int, c: int, d: int)
    requires 0 <= a <= 9 && 0 <= b <= 9 && 0 <= c <= 9 && 0 <= d <= 9 && c * 10 + d <= 59
    ensures var m := (a * 10 + b) * 60 + c * 10 + d;
            m / 60 / 10 == a && m / 60 % 10 == b && m % 60 / 10 == c && m % 60 % 10 == d
  {
  }

  /** The minutes used when building intervals, where an error is ignored and leaves zero. */
  function MinutesOrZero(s: string, end: bool): int {
    var m := Minutes(s, end);
    if m.Some? then m.value else 0
  }

  function From(w: Window): (m: int)
    ensures 0 <= m < MINUTES_PER_DAY
  {
    MinutesOrZero(w.from, false)
  }

  function To(w: Window): (m: int)
    ensures 0 <= m <= MINUTES_PER_DAY
  {
    MinutesOrZero(w.to, true)
  }

  predicate ValidWindow(w: Window) {
    && w.days != []
    && (forall d :: d in w.days ==> 1 <= d <= 7)
    && Minutes(w.from, false).Some?
    && Minutes(w.to, true).Some?
  }

  predicate Sorted(xs: seq<int>) {
    forall j, k :: 0 <= j < k < |xs| ==> xs[j] <= xs[k]
  }

  function Insert(xs: seq<int>, x: int): (out: seq<int>)
    requires Sorted(xs)
    ensures Sorted(out) && multiset(out) == multiset(xs) + multiset{x}
    ensures |out| > 0 && out[|out| - 1] == if xs == [] || xs[|xs| - 1] <= x then x else xs[|xs| - 1]
  {
    if xs == [] || xs[|xs| - 1] <= x then xs + [x]
    else
      var n := |xs| - 1;
      assert xs == xs[..n] + [xs[n]];
      var rest := Insert(xs[..n], x);
      assert multiset(xs) == multiset(xs[..n]) + multiset{xs[n]};
      assert rest[|rest| - 1] <= xs[n];
      rest + [xs[n]]
  }

  /** What sort.Ints leaves. */
  function SortInts(xs: seq<int>): (out: seq<int>)
    ensures Sorted(out) && multiset(out) == multiset(xs)
  {
    if xs == [] then []
    else
      assert xs == xs[..|xs| - 1] + [xs[|xs| - 1]];
      Insert(SortInts(xs[..|xs| - 1]), xs[|xs| - 1])
  }

  /** A window list once decoded: refused at its first bad window, else the same windows with their days in order. */
  method ParseWindows(ws: seq<Window>) returns (r: Result<seq<Window>>)
    ensures r.Ok? <==> forall k :: 0 <= k < |ws| ==> ValidWindow(ws[k])
    ensures r.Err? ==> r.window < |ws| && !ValidWindow(ws[r.window])
    ensures r.Err? ==> forall k :: 0 <= k < r.window ==> ValidWindow(ws[k])
    ensures r.Ok? ==> SameMeaning(ws, r.value)
    ensures r.Ok? ==> forall k :: 0 <= k < |ws| ==> Sorted(r.value[k].days)
  {
    var out: seq<Window> := [];
    for i := 0 to |ws|
      invariant |out| == i
      invariant forall k :: 0 <= k < i ==> ValidWindow(ws[k]) && Sorted(out[k].days)
      invariant forall k :: 0 <= k < i ==> SameWindow(ws[k], out[k])
    {
      if !ValidWindow(ws[i]) {
        return Err(i);
      }
      out := out + [ws[i].(days := SortInts(ws[i].days))];
    }
    r := Ok(out);
  }

  predicate SameWindow(a: Window, b: Window) {
    multiset(a.days) == multiset(b.days) && a.from == b.from && a.to == b.to
  }

  predicate SameMeaning(ws: seq<Window>, ws': seq<Window>) {
    |ws| == |ws'| && forall k :: 0 <= k < |ws| ==> SameWindow(ws[k], ws'[k])
  }

  // ---------- the unbounded timeline ----------

  /** ISO weekday of a calendar day; day 0 is Thursday 1 January 1970. */
  function Iso(day: int): int {
    (day + 3) % 7 + 1
  }

  function Start(w: Window, z: Zone, day: int): int {
    Clock(z, day, From(w))
  }

  function End(w: Window, z: Zone, day: int): int {
    if To(w) <= From(w) then Clock(z, day + 1, To(w)) else Clock(z, day, To(w))
  }

  predicate Opens(ws: seq<Window>, day: int, i: int) {
    0 <= i < |ws| && Iso(day) in ws[i].days
  }

  predicate InWindow(ws: seq<Window>, z: Zone, day: int, i: int, t: int) {
    Opens(ws, day, i) && Start(ws[i], z, day) <= t < End(ws[i], z, day)
  }

  ghost predicate OffTimeline(ws: seq<Window>, z: Zone, t: int) {
    exists day, i :: InWindow(ws, z, day, i, t)
  }

  /** The part of the timeline the hub looks at from local day `today`: windows opening two days before to one after. */
  ghost predicate OffView(ws: seq<Window>, z: Zone, today: int, t: int) {
    exists day, i :: today - 2 <= day <= today + 1 && InWindow(ws, z, day, i, t)
  }

  /** b is the timeline's last change at or before t, and off its direction. */
  ghost predicate IsLast(ws: seq<Window>, z: Zone, t: int, b: Boundary) {
    && b.at <= t
    && OffTimeline(ws, z, b.at - 1) != b.off
    && forall x :: b.at <= x <= t ==> OffTimeline(ws, z, x) == b.off
  }

  /** The same, seen from local day `today`. */
  ghost predicate IsLastInView(ws: seq<Window>, z: Zone, today: int, t: int, b: Boundary) {
    && b.at <= t
    && OffView(ws, z, today, b.at - 1) != b.off
    && forall x :: b.at <= x <= t ==> OffView(ws, z, today, x) == b.off
  }

  /** The days looked at all lie after time.Time's zero value. */
  predicate Recent(z: Zone, t: int) {
    ZERO_TIME < Earliest(z, (LocalDay(z, t) - 2) * DAY)
  }

  /** The wall-clock readings a window opens and closes at. */
  function OpensAt(w: Window, day: int): int {
    day * DAY + From(w) * MINUTE
  }

  function ClosesAt(w: Window, day: int): int {
    (if To(w) <= From(w) then day + 1 else day) * DAY + To(w) * MINUTE
  }

  lemma WindowEnds(w: Window, z: Zone, day: int)
    requires Regular(z)
    ensures Start(w, z, day) == Earliest(z, OpensAt(w, day))
    ensures End(w, z, day) == Earliest(z, ClosesAt(w, day))
    ensures OpensAt(w, day) < ClosesAt(w, day) < (day + 2) * DAY
    ensures OpensAt(w, day) / DAY == day && ClosesAt(w, day) / DAY <= day + 1
  {
    ClockIsEarliest(z, day, From(w));
    ClockIsEarliest(z, if To(w) <= From(w) then day + 1 else day, To(w));
  }

  lemma WindowSpan(w: Window, z: Zone, day: int)
    requires Regular(z)
    ensures Start(w, z, day) <= End(w, z, day)
    ensures LocalDay(z, Start(w, z, day)) == day
    ensures LocalDay(z, End(w, z, day)) <= day + 1
  {
    WindowEnds(w, z, day);
    DayOfEarliest(z, OpensAt(w, day));
    DayOfEarliest(z, ClosesAt(w, day));
  }

  predicate WholeMinutes(z: Zone) {
    z.before % MINUTE == 0 && z.after % MINUTE == 0 && z.at % MINUTE == 0
  }

  /** A window only ever covers instants of the day it opens on and of the next. */
  lemma WindowDays(ws: seq<Window>, z: Zone, day: int, i: int, t: int)
    requires Regular(z) && InWindow(ws, z, day, i, t)
    ensures day <= LocalDay(z, t) <= day + 1
  {
    WindowSpan(ws[i], z, day);
    LocalDayMonotone(z, Start(ws[i], z, day), t);
    LocalDayMonotone(z, t, End(ws[i], z, day));
  }

  lemma ViewAgrees(ws: seq<Window>, z: Zone, today: int, t: int)
    requires Regular(z) && today - 1 <= LocalDay(z, t) <= today + 1
    ensures OffView(ws, z, today, t) <==> OffTimeline(ws, z, t)
  {
    if OffTimeline(ws, z, t) {
      var day, i :| InWindow(ws, z, day, i, t);
      WindowDays(ws, z, day, i, t);
    }
  }

  // ---------- the week, without the calendar's days ----------

  /** Monday 5 January 2026, counted in days. */
  const A_MONDAY: int := Calendar.DayNumber(Calendar.Day(2026, 1, 5))

  /** How many minutes a window lasts; one that ends no later than it begins goes on into the next day. */
  function Lasts(w: Window): int {
    To(w) - From(w) + if To(w) <= From(w) then MINUTES_PER_DAY else 0
  }

  /** Less than that has passed since the window's time of day on the k-th day of a week, Monday being the first. */
  predicate WithinSince(w: Window, k: int, wall: int) {
    k in w.days && 1 <= k <= 7 && (wall - (A_MONDAY + k - 1) * DAY - From(w) * MINUTE) % (7 * DAY) < Lasts(w) * MINUTE
  }

  ghost predicate OffByTheWeek(ws: seq<Window>, wall: int) {
    exists i, k :: 0 <= i < |ws| && WithinSince(ws[i], k, wall)
  }

  lemma FixedWindow(w: Window, offset: int, day: int)
    ensures Start(w, Fixed(offset), day) == OpensAt(w, day) - offset
    ensures End(w, Fixed(offset), day) == ClosesAt(w, day) - offset
    ensures OpensAt(w, day) < ClosesAt(w, day)
  {
    WindowEnds(w, Fixed(offset), day);
  }

  /** In a zone of one offset the timeline is the week's, over and over. */
  lemma OffIsWeekly(ws: seq<Window>, offset: int, t: int)
    ensures OffTimeline(ws, Fixed(offset), t) <==> OffByTheWeek(ws, t + offset)
  {
    if OffTimeline(ws, Fixed(offset), t) {
      var day, i :| InWindow(ws, Fixed(offset), day, i, t);
      WindowIsWeekly(ws[i], offset, day, t);
      assert WithinSince(ws[i], Iso(day), t + offset);
    }
    if OffByTheWeek(ws, t + offset) {
      var i, k :| 0 <= i < |ws| && WithinSince(ws[i], k, t + offset);
      var day := WeekHasWindow(ws[i], k, offset, t);
      assert InWindow(ws, Fixed(offset), day, i, t);
    }
  }

  lemma WindowIsWeekly(w: Window, offset: int, day: int, t: int)
    requires Iso(day) in w.days && Start(w, Fixed(offset), day) <= t < End(w, Fixed(offset), day)
    ensures WithinSince(w, Iso(day), t + offset)
  {
    FixedWindow(w, offset, day);
    var weeks := (day - A_MONDAY) / 7;
    WeekOfDay(day);
    InThatWeek(w, Iso(day), weeks, t + offset);
  }

  lemma WeekOfDay(day: int)
    ensures 1 <= Iso(day) <= 7 && day == A_MONDAY + Iso(day) - 1 + 7 * ((day - A_MONDAY) / 7)
  {
  }

  lemma WeekHasWindow(w: Window, k: int, offset: int, t: int) returns (day: int)
    requires WithinSince(w, k, t + offset)
    ensures Iso(day) in w.days && Start(w, Fixed(offset), day) <= t < End(w, Fixed(offset), day)
  {
    var weeks := (t + offset - (A_MONDAY + k - 1) * DAY - From(w) * MINUTE) / (7 * DAY);
    day := A_MONDAY + k - 1 + 7 * weeks;
    InThatWeek(w, k, weeks, t + offset);
    FixedWindow(w, offset, day);
  }

  lemma InThatWeek(w: Window, k: int, weeks: int, wall: int)
    requires 1 <= k <= 7
    ensures var day := A_MONDAY + k - 1 + 7 * weeks;
            && Iso(day) == k
            && (OpensAt(w, day) <= wall < ClosesAt(w, day)
                <==> var x := wall - (A_MONDAY + k - 1) * DAY - From(w) * MINUTE;
                     x / (7 * DAY) == weeks && x % (7 * DAY) < Lasts(w) * MINUTE)
  {
    var day := A_MONDAY + k - 1 + 7 * weeks;
    IsoOfWeekday(k, weeks);
    assert day * DAY == (A_MONDAY + k - 1) * DAY + weeks * (7 * DAY);
    LastsToItsEnd(w, day);
    Residue(wall - (A_MONDAY + k - 1) * DAY - From(w) * MINUTE, weeks, Lasts(w) * MINUTE);
  }

  lemma IsoOfWeekday(k: int, weeks: int)
    requires 1 <= k <= 7
    ensures Iso(A_MONDAY + k - 1 + 7 * weeks) == k
  {
  }

  lemma LastsToItsEnd(w: Window, day: int)
    ensures ClosesAt(w, day) == OpensAt(w, day) + Lasts(w) * MINUTE && 0 <= Lasts(w) * MINUTE <= 7 * DAY
  {
  }

  lemma Residue(x: int, weeks: int, span: int)
    requires 0 <= span <= 7 * DAY
    ensures 0 <= x - weeks * (7 * DAY) < span <==> x / (7 * DAY) == weeks && x % (7 * DAY) < span
  {
  }

  /** The times of a window as they are written: it may end at "24:00", and not begin then. */
  lemma WrittenTimes(days: seq<int>, fromHour: int, fromMinute: int, toHour: int, toMinute: int)
    requires 0 <= fromHour <= 24 && 0 <= fromMinute <= 59 && 0 <= toHour <= 24 && 0 <= toMinute <= 59
    ensures var w := Window(days, Written(fromHour, fromMinute), Written(toHour, toMinute));
            && (ValidWindow(w) <==> && days != [] && (forall d :: d in days ==> 1 <= d <= 7)
                                    && fromHour < 24 && (toHour < 24 || toMinute == 0))
            && (ValidWindow(w) ==> From(w) == fromHour * 60 + fromMinute && To(w) == toHour * 60 + toMinute)
  {
    MinutesRoundTrip(fromHour, fromMinute, "", false);
    MinutesRoundTrip(toHour, toMinute, "", true);
  }

  // ---------- intervals ----------

  predicate Holds(iv: Interval, t: int) {
    iv.start <= t < iv.end
  }

  /** The closed interval: an empty one still touches the instant it sits at. */
  predicate Touches(iv: Interval, t: int) {
    iv.start <= t <= iv.end
  }

  ghost predicate Covered(ivs: seq<Interval>, t: int) {
    exists k :: 0 <= k < |ivs| && Holds(ivs[k], t)
  }

  ghost predicate Touched(ivs: seq<Interval>, t: int) {
    exists k :: 0 <= k < |ivs| && Touches(ivs[k], t)
  }

  predicate ByStart(ivs: seq<Interval>) {
    forall j, k :: 0 <= j < k < |ivs| ==> ivs[j].start <= ivs[k].start
  }

  predicate Oriented(ivs: seq<Interval>) {
    forall k :: 0 <= k < |ivs| ==> ivs[k].start <= ivs[k].end
  }

  /** Blocks: in order, with a gap of at least one instant between one and the next. */
  predicate Blocks(ivs: seq<Interval>) {
    Oriented(ivs) && forall j, k :: 0 <= j < k < |ivs| ==> ivs[j].end < ivs[k].start
  }

  function InsertByStart(ivs: seq<Interval>, iv: Interval): (out: seq<Interval>)
    requires ByStart(ivs)
    ensures ByStart(out) && |out| == |ivs| + 1
    ensures out[|out| - 1].start == if ivs == [] || ivs[|ivs| - 1].start <= iv.start then iv.start else ivs[|ivs| - 1].start
  {
    if ivs == [] || ivs[|ivs| - 1].start <= iv.start then ivs + [iv]
    else InsertByStart(ivs[..|ivs| - 1], iv) + [ivs[|ivs| - 1]]
  }

  /** One order sort.Slice may leave; MergeOrderFree shows that merging does not depend on which. */
  function SortByStart(ivs: seq<Interval>): (out: seq<Interval>)
    ensures ByStart(out) && |out| == |ivs|
  {
    if ivs == [] then [] else InsertByStart(SortByStart(ivs[..|ivs| - 1]), ivs[|ivs| - 1])
  }

  lemma {:induction false} InsertKeepsMembers(ivs: seq<Interval>, iv: Interval, x: Interval)
    requires ByStart(ivs)
    ensures x in InsertByStart(ivs, iv) <==> x in ivs || x == iv
  {
    if ivs != [] && ivs[|ivs| - 1].start > iv.start {
      InsertKeepsMembers(ivs[..|ivs| - 1], iv, x);
      assert ivs == ivs[..|ivs| - 1] + [ivs[|ivs| - 1]];
    }
  }

  lemma {:induction false} SortKeepsMembers(ivs: seq<Interval>, x: Interval)
    ensures x in SortByStart(ivs) <==> x in ivs
  {
    if ivs != [] {
      var n := |ivs| - 1;
      SortKeepsMembers(ivs[..n], x);
      InsertKeepsMembers(SortByStart(ivs[..n]), ivs[n], x);
      assert ivs == ivs[..n] + [ivs[n]];
    }
  }

  // ---------- merging ----------

  ghost predicate SameCover(a: seq<Interval>, b: seq<Interval>) {
    forall t :: Covered(a, t) <==> Covered(b, t)
  }

  ghost predicate SameTouch(a: seq<Interval>, b: seq<Interval>) {
    forall t :: Touched(a, t) <==> Touched(b, t)
  }

  /** Every start of `out` is a start of `ivs`, and every end an end. */
  ghost predicate EdgesFrom(out: seq<Interval>, ivs: seq<Interval>) {
    forall k :: 0 <= k < |out| ==> HasStart(ivs, out[k].start) && HasEnd(ivs, out[k].end)
  }

  ghost predicate HasStart(ivs: seq<Interval>, x: int) {
    exists j :: 0 <= j < |ivs| && ivs[j].start == x
  }

  ghost predicate HasEnd(ivs: seq<Interval>, x: int) {
    exists j :: 0 <= j < |ivs| && ivs[j].end == x
  }

  /** What merging has to keep while it reads `done`. */
  ghost predicate Merged(out: seq<Interval>, done: seq<Interval>) {
    Blocks(out) && SameCover(out, done) && SameTouch(out, done) && EdgesFrom(out, done)
  }

  /** The block list after one more interval. */
  function Joined(out: seq<Interval>, iv: Interval): seq<Interval> {
    var n := |out|;
    if n > 0 && iv.start <= out[n - 1].end then
      if iv.end > out[n - 1].end then out[n - 1 := out[n - 1].(end := iv.end)] else out
    else out + [iv]
  }

  function MergeAll(ivs: seq<Interval>): seq<Interval> {
    if ivs == [] then [] else Joined(MergeAll(ivs[..|ivs| - 1]), ivs[|ivs| - 1])
  }

  /** Joins intervals that overlap or touch. */
  method Merge(ivs: seq<Interval>) returns (out: seq<Interval>)
    ensures out == MergeAll(ivs)
    ensures ByStart(ivs) && Oriented(ivs) ==> Merged(out, ivs)
  {
    out := [];
    for i := 0 to |ivs|
      invariant out == MergeAll(ivs[..i])
    {
      assert ivs[..i + 1][..i] == ivs[..i];
      var iv := ivs[i];
      var n := |out|;
      if n > 0 && iv.start <= out[n - 1].end {
        if iv.end > out[n - 1].end {
          out := out[n - 1 := out[n - 1].(end := iv.end)];
        }
      } else {
        out := out + [iv];
      }
    }
    assert ivs[..|ivs|] == ivs;
    if ByStart(ivs) && Oriented(ivs) {
      MergeMerges(ivs);
    }
  }

  lemma {:induction false} MergeMerges(ivs: seq<Interval>)
    requires ByStart(ivs) && Oriented(ivs)
    ensures Merged(MergeAll(ivs), ivs)
  {
    if ivs != [] {
      var n := |ivs| - 1;
      MergeMerges(ivs[..n]);
      assert ivs == ivs[..n] + [ivs[n]];
      MergeStep(MergeAll(ivs[..n]), ivs[..n], ivs[n]);
    }
  }

  lemma MergeStep(out: seq<Interval>, done: seq<Interval>, iv: Interval)
    requires Merged(out, done) && iv.start <= iv.end
    requires forall k :: 0 <= k < |done| ==> done[k].start <= iv.start
    ensures Merged(Joined(out, iv), done + [iv])
  {
    if out != [] {
      var j :| 0 <= j < |done| && done[j].start == out[|out| - 1].start;
    }
    JoinedEdges(out, done, iv);
    forall t
      ensures Covered(Joined(out, iv), t) <==> Covered(done + [iv], t)
      ensures Touched(Joined(out, iv), t) <==> Touched(done + [iv], t)
    {
      CoveredSnoc(done, iv, t);
      JoinedCover(out, iv, t);
    }
  }

  lemma JoinedEdges(out: seq<Interval>, done: seq<Interval>, iv: Interval)
    requires EdgesFrom(out, done)
    ensures EdgesFrom(Joined(out, iv), done + [iv])
  {
    var next, all := Joined(out, iv), done + [iv];
    assert all[|done|] == iv;
    forall k | 0 <= k < |next|
      ensures HasStart(all, next[k].start) && HasEnd(all, next[k].end)
    {
      if k < |out| {
        assert HasStart(done, out[k].start) && HasEnd(done, out[k].end);
        var i :| 0 <= i < |done| && done[i].start == out[k].start;
        var j :| 0 <= j < |done| && done[j].end == out[k].end;
        assert all[i] == done[i] && all[j] == done[j];
      }
    }
  }

  lemma JoinedCover(out: seq<Interval>, iv: Interval, t: int)
    requires Blocks(out) && iv.start <= iv.end
    requires out != [] ==> out[|out| - 1].start <= iv.start
    ensures Covered(Joined(out, iv), t) <==> Covered(out, t) || Holds(iv, t)
    ensures Touched(Joined(out, iv), t) <==> Touched(out, t) || Touches(iv, t)
  {
    CoveredSnoc(out, iv, t);
    if out != [] {
      var n := |out| - 1;
      assert out == out[..n] + [out[n]];
      CoveredSnoc(out[..n], out[n], t);
      var longer := out[n].(end := iv.end);
      assert out[n := longer] == out[..n] + [longer];
      CoveredSnoc(out[..n], longer, t);
    }
  }

  lemma CoveredSnoc(ivs: seq<Interval>, iv: Interval, t: int)
    ensures Covered(ivs + [iv], t) <==> Covered(ivs, t) || Holds(iv, t)
    ensures Touched(ivs + [iv], t) <==> Touched(ivs, t) || Touches(iv, t)
  {
    var all := ivs + [iv];
    assert all[|ivs|] == iv;
    if Covered(ivs, t) {
      var k :| 0 <= k < |ivs| && Holds(ivs[k], t);
      assert Holds(all[k], t);
    }
    if Touched(ivs, t) {
      var k :| 0 <= k < |ivs| && Touches(ivs[k], t);
      assert Touches(all[k], t);
    }
  }

  // ---------- blocks are determined by what they cover and touch ----------

  /** Two block lists that cover the same instants and touch the same instants are the same list. */
  lemma {:induction false} SameBlocks(a: seq<Interval>, b: seq<Interval>)
    requires Blocks(a) && Blocks(b) && SameCover(a, b) && SameTouch(a, b)
    ensures a == b
    decreases |a|
  {
    if a == [] || b == [] {
      NoBlocks(a, b);
      NoBlocks(b, a);
    } else {
      FirstStart(a, b);
      FirstStart(b, a);
      FirstEnd(a, b);
      FirstEnd(b, a);
      forall t
        ensures Covered(a[1..], t) <==> Covered(b[1..], t)
        ensures Touched(a[1..], t) <==> Touched(b[1..], t)
      {
        TailCover(a, t);
        TailCover(b, t);
      }
      SameBlocks(a[1..], b[1..]);
      assert a == [a[0]] + a[1..] && b == [b[0]] + b[1..];
    }
  }

  lemma NoBlocks(a: seq<Interval>, b: seq<Interval>)
    requires Blocks(b) && SameTouch(a, b)
    ensures a == [] ==> b == []
  {
    if b != [] {
      assert Touches(b[0], b[0].start);
      assert Touched(b, b[0].start) && Touched(a, b[0].start);
    }
  }

  lemma FirstStart(a: seq<Interval>, b: seq<Interval>)
    requires a != [] && b != [] && Blocks(a) && Blocks(b) && SameTouch(a, b)
    ensures a[0].start <= b[0].start
  {
    assert Touches(b[0], b[0].start);
    assert Touched(b, b[0].start) && Touched(a, b[0].start);
    var k :| 0 <= k < |a| && Touches(a[k], b[0].start);
  }

  lemma FirstEnd(a: seq<Interval>, b: seq<Interval>)
    requires a != [] && b != [] && Blocks(a) && Blocks(b) && SameCover(a, b) && a[0].start == b[0].start
    ensures a[0].end >= b[0].end
  {
    EndNotCovered(a);
    assert a[0].end < b[0].end ==> Holds(b[0], a[0].end);
  }

  lemma EndNotCovered(a: seq<Interval>)
    requires a != [] && Blocks(a)
    ensures !Covered(a, a[0].end)
  {
  }

  lemma TailCover(a: seq<Interval>, t: int)
    requires a != [] && Blocks(a)
    ensures Covered(a[1..], t) <==> Covered(a, t) && t > a[0].end
    ensures Touched(a[1..], t) <==> Touched(a, t) && t > a[0].end
  {
    if Covered(a[1..], t) {
      var k :| 0 <= k < |a| - 1 && Holds(a[1..][k], t);
      assert Holds(a[k + 1], t);
    }
    if Covered(a, t) && t > a[0].end {
      var k :| 0 <= k < |a| && Holds(a[k], t);
      assert Holds(a[1..][k - 1], t);
    }
    if Touched(a[1..], t) {
      var k :| 0 <= k < |a| - 1 && Touches(a[1..][k], t);
      assert Touches(a[k + 1], t);
    }
    if Touched(a, t) && t > a[0].end {
      var k :| 0 <= k < |a| && Touches(a[k], t);
      assert Touches(a[1..][k - 1], t);
    }
  }

  /** However sort.Slice orders intervals that start together, merging gives the same blocks. */
  lemma MergeOrderFree(a: seq<Interval>, b: seq<Interval>)
    requires ByStart(a) && ByStart(b) && Oriented(a) && forall iv :: iv in a <==> iv in b
    ensures MergeAll(a) == MergeAll(b)
  {
    forall k | 0 <= k < |b|
      ensures b[k].start <= b[k].end
    {
      assert b[k] in a;
    }
    MergeMerges(a);
    MergeMerges(b);
    SameMembersCover(a, b);
    SameMembersCover(b, a);
    assert forall t :: Covered(MergeAll(a), t) <==> Covered(a, t);
    assert forall t :: Touched(MergeAll(a), t) <==> Touched(a, t);
    SameBlocks(MergeAll(a), MergeAll(b));
  }

  lemma SameMembersCover(a: seq<Interval>, b: seq<Interval>)
    requires forall iv :: iv in a ==> iv in b
    ensures forall t :: (Covered(a, t) ==> Covered(b, t)) && (Touched(a, t) ==> Touched(b, t))
  {
    forall t
      ensures Covered(a, t) ==> Covered(b, t)
      ensures Touched(a, t) ==> Touched(b, t)
    {
      if k :| 0 <= k < |a| && Touches(a[k], t) {
        assert a[k] in b;
        var j :| 0 <= j < |b| && b[j] == a[k];
        assert Touches(b[j], t);
      }
      if k :| 0 <= k < |a| && Holds(a[k], t) {
        assert a[k] in b;
        var j :| 0 <= j < |b| && b[j] == a[k];
        assert Holds(b[j], t);
      }
    }
  }

  // ---------- the view ----------

  /** A window opens on one of the four days the hub lists. */
  predicate Lists(ws: seq<Window>, today: int, day: int, i: int) {
    today - 2 <= day <= today + 1 && Opens(ws, day, i)
  }

  /** A listed window reaches t, its end and an empty window's only instant included. */
  predicate WindowTouches(ws: seq<Window>, z: Zone, today: int, day: int, i: int, t: int) {
    Lists(ws, today, day, i) && Start(ws[i], z, day) <= t <= End(ws[i], z, day)
  }

  ghost predicate TouchView(ws: seq<Window>, z: Zone, today: int, t: int) {
    exists day, i :: WindowTouches(ws, z, today, day, i, t)
  }

  ghost predicate OpensInView(ws: seq<Window>, z: Zone, today: int, x: int) {
    exists day, i :: Lists(ws, today, day, i) && Start(ws[i], z, day) == x
  }

  ghost predicate ClosesInView(ws: seq<Window>, z: Zone, today: int, x: int) {
    exists day, i :: Lists(ws, today, day, i) && End(ws[i], z, day) == x
  }

  /** What the merged list seen from a local day has to be: separated blocks covering and touching exactly what the listed
      windows do, opening where one opens and closing where one closes. There is only one such list. */
  ghost predicate IsView(ws: seq<Window>, z: Zone, today: int, blocks: seq<Interval>) {
    && Blocks(blocks)
    && (forall x :: Covered(blocks, x) <==> OffView(ws, z, today, x))
    && (forall x :: Touched(blocks, x) <==> TouchView(ws, z, today, x))
    && forall k :: 0 <= k < |blocks| ==> OpensInView(ws, z, today, blocks[k].start) && ClosesInView(ws, z, today, blocks[k].end)
  }

  function DayList(ws: seq<Window>, z: Zone, day: int, n: nat): seq<Interval>
    requires n <= |ws|
  {
    if n == 0 then []
    else
      DayList(ws, z, day, n - 1)
      + if Iso(day) in ws[n - 1].days then [Interval(Start(ws[n - 1], z, day), End(ws[n - 1], z, day))] else []
  }

  /** Every window of `days` days from two before `today` on. */
  function DaysList(ws: seq<Window>, z: Zone, today: int, days: nat): seq<Interval> {
    if days == 0 then [] else DaysList(ws, z, today, days - 1) + DayList(ws, z, today - 3 + days, |ws|)
  }

  function ViewOf(ws: seq<Window>, z: Zone, today: int): seq<Interval> {
    MergeAll(SortByStart(DaysList(ws, z, today, 4)))
  }

  method Intervals(ws: seq<Window>, z: Zone, t: int) returns (out: seq<Interval>)
    ensures out == ViewOf(ws, z, LocalDay(z, t))
    ensures Regular(z) ==> IsView(ws, z, LocalDay(z, t), out)
  {
    var today := LocalDay(z, t);
    var raw: seq<Interval> := [];
    for dayOff := -2 to 2
      invariant raw == DaysList(ws, z, today, dayOff + 2)
    {
      var day := today + dayOff;
      ghost var before := raw;
      for j := 0 to |ws|
        invariant raw == before + DayList(ws, z, day, j)
      {
        if Iso(day) in ws[j].days {
          raw := raw + [Interval(Start(ws[j], z, day), End(ws[j], z, day))];
        }
      }
    }
    out := Merge(SortByStart(raw));
    if Regular(z) {
      ViewIsView(ws, z, today);
    }
  }

  predicate IsOf(ws: seq<Window>, z: Zone, day: int, i: int, iv: Interval) {
    Opens(ws, day, i) && iv == Interval(Start(ws[i], z, day), End(ws[i], z, day))
  }

  ghost predicate ListedOn(ws: seq<Window>, z: Zone, day: int, n: nat, iv: Interval) {
    exists i :: i < n && IsOf(ws, z, day, i, iv)
  }

  ghost predicate ListedIn(ws: seq<Window>, z: Zone, from: int, until: int, iv: Interval) {
    exists day, i :: from <= day < until && IsOf(ws, z, day, i, iv)
  }

  lemma {:induction false} DayListed(ws: seq<Window>, z: Zone, day: int, n: nat, iv: Interval)
    requires n <= |ws|
    ensures iv in DayList(ws, z, day, n) <==> ListedOn(ws, z, day, n, iv)
  {
    if n > 0 {
      DayListed(ws, z, day, n - 1, iv);
      assert Iso(day) in ws[n - 1].days ==> IsOf(ws, z, day, n - 1, Interval(Start(ws[n - 1], z, day), End(ws[n - 1], z, day)));
    }
  }

  lemma {:induction false} DaysListed(ws: seq<Window>, z: Zone, today: int, days: nat, iv: Interval)
    ensures iv in DaysList(ws, z, today, days) <==> ListedIn(ws, z, today - 2, today - 2 + days, iv)
  {
    if days > 0 {
      DaysListed(ws, z, today, days - 1, iv);
      NextDayListed(ws, z, today, days, iv);
    }
  }

  lemma NextDayListed(ws: seq<Window>, z: Zone, today: int, days: nat, iv: Interval)
    requires days > 0 && (iv in DaysList(ws, z, today, days - 1) <==> ListedIn(ws, z, today - 2, today - 3 + days, iv))
    ensures iv in DaysList(ws, z, today, days) <==> ListedIn(ws, z, today - 2, today - 2 + days, iv)
  {
    DayListed(ws, z, today - 3 + days, |ws|, iv);
    OneMoreDay(ws, z, today - 2, today - 3 + days, iv);
    InEither(DaysList(ws, z, today, days - 1), DayList(ws, z, today - 3 + days, |ws|), iv);
  }

  lemma InEither(a: seq<Interval>, b: seq<Interval>, iv: Interval)
    ensures iv in a + b <==> iv in a || iv in b
  {
  }

  lemma OneMoreDay(ws: seq<Window>, z: Zone, from: int, day: int, iv: Interval)
    requires from <= day
    ensures ListedIn(ws, z, from, day + 1, iv) <==> ListedIn(ws, z, from, day, iv) || ListedOn(ws, z, day, |ws|, iv)
  {
  }

  lemma ListedSpan(ws: seq<Window>, z: Zone, today: int, day: int, i: int)
    requires Regular(z) && Lists(ws, today, day, i)
    ensures Earliest(z, (today - 2) * DAY) <= Start(ws[i], z, day) <= End(ws[i], z, day)
  {
    WindowSpan(ws[i], z, day);
    MidnightSplits(z, Start(ws[i], z, day), today - 2);
  }

  /** The sorted list before merging says what the windows say. */
  ghost predicate SaysWindows(ws: seq<Window>, z: Zone, today: int, ivs: seq<Interval>) {
    && Oriented(ivs)
    && (forall x :: Covered(ivs, x) <==> OffView(ws, z, today, x))
    && (forall x :: Touched(ivs, x) <==> TouchView(ws, z, today, x))
    && forall k :: 0 <= k < |ivs| ==> OpensInView(ws, z, today, ivs[k].start) && ClosesInView(ws, z, today, ivs[k].end)
  }

  ghost predicate IsListed(ws: seq<Window>, z: Zone, today: int, iv: Interval) {
    exists day, i :: today - 2 <= day <= today + 1 && IsOf(ws, z, day, i, iv)
  }

  /** The list holds exactly the listed windows. */
  ghost predicate HoldsWindows(ws: seq<Window>, z: Zone, today: int, ivs: seq<Interval>) {
    && (forall k :: 0 <= k < |ivs| ==> IsListed(ws, z, today, ivs[k]))
    && forall day, i :: Lists(ws, today, day, i) ==> Interval(Start(ws[i], z, day), End(ws[i], z, day)) in ivs
  }

  lemma ListHoldsWindows(ws: seq<Window>, z: Zone, today: int)
    ensures HoldsWindows(ws, z, today, SortByStart(DaysList(ws, z, today, 4)))
  {
    var ivs := SortByStart(DaysList(ws, z, today, 4));
    forall k | 0 <= k < |ivs|
      ensures IsListed(ws, z, today, ivs[k])
    {
      SortedListed(ws, z, today, ivs[k]);
    }
    forall day, i | Lists(ws, today, day, i)
      ensures Interval(Start(ws[i], z, day), End(ws[i], z, day)) in ivs
    {
      var iv := Interval(Start(ws[i], z, day), End(ws[i], z, day));
      assert IsOf(ws, z, day, i, iv);
      SortedListed(ws, z, today, iv);
    }
  }

  lemma SortedListed(ws: seq<Window>, z: Zone, today: int, iv: Interval)
    ensures iv in SortByStart(DaysList(ws, z, today, 4)) <==> IsListed(ws, z, today, iv)
  {
    SortKeepsMembers(DaysList(ws, z, today, 4), iv);
    DaysListed(ws, z, today, 4, iv);
  }

  lemma HoldingSays(ws: seq<Window>, z: Zone, today: int, ivs: seq<Interval>)
    requires Regular(z) && HoldsWindows(ws, z, today, ivs)
    ensures SaysWindows(ws, z, today, ivs)
  {
    forall k | 0 <= k < |ivs|
      ensures ivs[k].start <= ivs[k].end
      ensures OpensInView(ws, z, today, ivs[k].start) && ClosesInView(ws, z, today, ivs[k].end)
    {
      var day, i :| today - 2 <= day <= today + 1 && IsOf(ws, z, day, i, ivs[k]);
      ListedSpan(ws, z, today, day, i);
    }
    forall x
      ensures Covered(ivs, x) <==> OffView(ws, z, today, x)
      ensures Touched(ivs, x) <==> TouchView(ws, z, today, x)
    {
      ListCovers(ws, z, today, ivs, x);
      ListTouches(ws, z, today, ivs, x);
    }
  }

  lemma ListCovers(ws: seq<Window>, z: Zone, today: int, ivs: seq<Interval>, x: int)
    requires HoldsWindows(ws, z, today, ivs)
    ensures Covered(ivs, x) <==> OffView(ws, z, today, x)
  {
    if k :| 0 <= k < |ivs| && Holds(ivs[k], x) {
      var day, i :| today - 2 <= day <= today + 1 && IsOf(ws, z, day, i, ivs[k]);
      assert InWindow(ws, z, day, i, x);
    }
    if day, i :| today - 2 <= day <= today + 1 && InWindow(ws, z, day, i, x) {
      assert Lists(ws, today, day, i);
      var k :| 0 <= k < |ivs| && ivs[k] == Interval(Start(ws[i], z, day), End(ws[i], z, day));
      assert Holds(ivs[k], x);
    }
  }

  lemma ListTouches(ws: seq<Window>, z: Zone, today: int, ivs: seq<Interval>, x: int)
    requires HoldsWindows(ws, z, today, ivs)
    ensures Touched(ivs, x) <==> TouchView(ws, z, today, x)
  {
    if k :| 0 <= k < |ivs| && Touches(ivs[k], x) {
      var day, i :| today - 2 <= day <= today + 1 && IsOf(ws, z, day, i, ivs[k]);
      assert WindowTouches(ws, z, today, day, i, x);
    }
    if day, i :| WindowTouches(ws, z, today, day, i, x) {
      var k :| 0 <= k < |ivs| && ivs[k] == Interval(Start(ws[i], z, day), End(ws[i], z, day));
      assert Touches(ivs[k], x);
    }
  }

  lemma ViewIsView(ws: seq<Window>, z: Zone, today: int)
    requires Regular(z)
    ensures IsView(ws, z, today, ViewOf(ws, z, today))
  {
    var ivs := SortByStart(DaysList(ws, z, today, 4));
    ListHoldsWindows(ws, z, today);
    HoldingSays(ws, z, today, ivs);
    MergeMerges(ivs);
    MergedIsView(ws, z, today, ivs, MergeAll(ivs));
  }

  lemma MergedIsView(ws: seq<Window>, z: Zone, today: int, ivs: seq<Interval>, out: seq<Interval>)
    requires SaysWindows(ws, z, today, ivs) && Merged(out, ivs)
    ensures IsView(ws, z, today, out)
  {
    forall x
      ensures Covered(out, x) <==> OffView(ws, z, today, x)
      ensures Touched(out, x) <==> TouchView(ws, z, today, x)
    {
      assert Covered(ivs, x) <==> OffView(ws, z, today, x);
      assert Touched(ivs, x) <==> TouchView(ws, z, today, x);
    }
    forall k | 0 <= k < |out|
      ensures OpensInView(ws, z, today, out[k].start) && ClosesInView(ws, z, today, out[k].end)
    {
      assert HasStart(ivs, out[k].start) && HasEnd(ivs, out[k].end);
    }
  }

  /** Windows and zone determine the view, and nothing else does. */
  lemma ViewIsUnique(ws: seq<Window>, z: Zone, today: int, blocks: seq<Interval>)
    requires Regular(z) && IsView(ws, z, today, blocks)
    ensures blocks == ViewOf(ws, z, today)
  {
    ViewIsView(ws, z, today);
    var view := ViewOf(ws, z, today);
    forall x
      ensures Covered(blocks, x) <==> Covered(view, x)
      ensures Touched(blocks, x) <==> Touched(view, x)
    {
      assert Covered(view, x) <==> OffView(ws, z, today, x);
      assert Touched(view, x) <==> TouchView(ws, z, today, x);
    }
    SameBlocks(blocks, view);
  }

  // ---------- the two questions ----------

  /** Off is membership in the unbounded timeline, which in a zone of one offset is the week's, over and over. */
  method Off(ws: seq<Window>, z: Zone, t: int) returns (r: bool)
    requires Regular(z)
    ensures r <==> OffTimeline(ws, z, t)
    ensures z == Fixed(z.before) ==> (r <==> OffByTheWeek(ws, t + z.before))
  {
    OffIsWeekly(ws, z.before, t);
    var ivs := Intervals(ws, z, t);
    assert Covered(ivs, t) <==> OffTimeline(ws, z, t) by {
      ViewAgrees(ws, z, LocalDay(z, t), t);
    }
    for k := 0 to |ivs|
      invariant forall j :: 0 <= j < k ==> !Holds(ivs[j], t)
    {
      if ivs[k].start <= t && t < ivs[k].end {
        assert Holds(ivs[k], t);
        return true;
      }
    }
    assert !Covered(ivs, t);
    return false;
  }

  /** LastBoundary's three results: the boundary, its direction, and whether there is one. */
  datatype Found = Found(best: int, off: bool, ok: bool)

  function Seen(f: Found, iv: Interval, t: int): Found {
    var begun := if iv.start <= t && iv.start > f.best then Found(iv.start, true, true) else f;
    if iv.end <= t && iv.end > begun.best then Found(iv.end, false, true) else begun
  }

  function LatestOf(blocks: seq<Interval>, t: int): (f: Found)
    ensures f.ok ==> f.best <= t
  {
    if blocks == [] then Found(ZERO_TIME, false, false) else Seen(LatestOf(blocks[..|blocks| - 1], t), blocks[|blocks| - 1], t)
  }

  method LastBoundary(ws: seq<Window>, z: Zone, t: int) returns (best: int, off: bool, ok: bool)
    ensures Found(best, off, ok) == LatestOf(ViewOf(ws, z, LocalDay(z, t)), t)
  {
    var ivs := Intervals(ws, z, t);
    best, off, ok := ZERO_TIME, false, false;
    for k := 0 to |ivs|
      invariant Found(best, off, ok) == LatestOf(ivs[..k], t)
    {
      assert ivs[..k + 1][..k] == ivs[..k];
      var iv := ivs[k];
      if iv.start <= t && iv.start > best {
        best, off, ok := iv.start, true, true;
      }
      if iv.end <= t && iv.end > best {
        best, off, ok := iv.end, false, true;
      }
    }
    assert ivs[..|ivs|] == ivs;
  }

  predicate Marks(iv: Interval, b: int, off: bool) {
    if off then b == iv.start else b == iv.end && b > iv.start
  }

  /** The latest start or end at or before t among blocks: a start is read before the end of its own block, and an end
      replaces it only when later. */
  predicate Latest(blocks: seq<Interval>, t: int, f: Found) {
    && (if f.ok then ZERO_TIME < f.best <= t && exists k :: 0 <= k < |blocks| && Marks(blocks[k], f.best, f.off)
        else f.best == ZERO_TIME && !f.off)
    && (forall k :: 0 <= k < |blocks| && blocks[k].start <= t ==> blocks[k].start <= f.best)
    && (forall k :: 0 <= k < |blocks| && blocks[k].end <= t ==> blocks[k].end <= f.best)
  }

  lemma {:induction false} LatestIsLatest(blocks: seq<Interval>, t: int)
    requires Oriented(blocks)
    ensures Latest(blocks, t, LatestOf(blocks, t))
  {
    if blocks != [] {
      var n := |blocks| - 1;
      LatestIsLatest(blocks[..n], t);
      assert blocks == blocks[..n] + [blocks[n]];
      LatestStep(blocks[..n], blocks[n], t, LatestOf(blocks[..n], t));
    }
  }

  lemma LatestStep(done: seq<Interval>, iv: Interval, t: int, f: Found)
    requires Latest(done, t, f) && iv.start <= iv.end
    ensures Latest(done + [iv], t, Seen(f, iv, t))
  {
    var all := done + [iv];
    assert all[|done|] == iv;
    if f.ok {
      var k :| 0 <= k < |done| && Marks(done[k], f.best, f.off);
      assert Marks(all[k], f.best, f.off);
    }
    var g := Seen(f, iv, t);
    assert g != f ==> Marks(all[|done|], g.best, g.off);
  }

  lemma SameWindowsSameTimeline(ws: seq<Window>, ws': seq<Window>, z: Zone, t: int)
    requires SameMeaning(ws, ws')
    ensures OffTimeline(ws, z, t) <==> OffTimeline(ws', z, t)
  {
    forall day, i
      ensures InWindow(ws, z, day, i, t) <==> InWindow(ws', z, day, i, t)
    {
      SameWindowOpens(ws, ws', z, day, i);
    }
  }

  lemma SameWindowOpens(ws: seq<Window>, ws': seq<Window>, z: Zone, day: int, i: int)
    requires SameMeaning(ws, ws')
    ensures Opens(ws, day, i) <==> Opens(ws', day, i)
    ensures Opens(ws, day, i) ==> Start(ws[i], z, day) == Start(ws'[i], z, day) && End(ws[i], z, day) == End(ws'[i], z, day)
  {
    if 0 <= i < |ws| {
      assert SameWindow(ws[i], ws'[i]);
      assert Iso(day) in multiset(ws[i].days) <==> Iso(day) in multiset(ws'[i].days);
    }
  }

  /** Sorting days changes neither the timeline nor the list LastBoundary reads. */
  lemma SameWindowsSameView(ws: seq<Window>, ws': seq<Window>, z: Zone, today: int)
    requires Regular(z) && SameMeaning(ws, ws')
    ensures ViewOf(ws, z, today) == ViewOf(ws', z, today)
  {
    ViewIsView(ws', z, today);
    var view := ViewOf(ws', z, today);
    forall day, i
      ensures Opens(ws, day, i) <==> Opens(ws', day, i)
      ensures Opens(ws, day, i) ==> Start(ws[i], z, day) == Start(ws'[i], z, day) && End(ws[i], z, day) == End(ws'[i], z, day)
    {
      SameWindowOpens(ws, ws', z, day, i);
    }
    forall x
      ensures OffView(ws, z, today, x) <==> OffView(ws', z, today, x)
      ensures TouchView(ws, z, today, x) <==> TouchView(ws', z, today, x)
    {
      assert forall day, i :: InWindow(ws, z, day, i, x) <==> InWindow(ws', z, day, i, x);
      assert forall day, i :: WindowTouches(ws, z, today, day, i, x) <==> WindowTouches(ws', z, today, day, i, x);
    }
    forall k | 0 <= k < |view|
      ensures OpensInView(ws, z, today, view[k].start) && ClosesInView(ws, z, today, view[k].end)
    {
      assert OpensInView(ws', z, today, view[k].start) && ClosesInView(ws', z, today, view[k].end);
      var day, i :| Lists(ws', today, day, i) && Start(ws'[i], z, day) == view[k].start;
      assert Lists(ws, today, day, i);
      var d, j :| Lists(ws', today, d, j) && End(ws'[j], z, d) == view[k].end;
      assert Lists(ws, today, d, j);
    }
    ViewIsUnique(ws, z, today, view);
  }
}
