/**
 The rollup under retention: every call is followed by a purge, and the window a level's next step starts from is written
 anew from whatever rows are left of it. What that costs, and exactly when it costs nothing.
 */
module Retention {
  import opened Options
  import opened Rollup
  import Extremes
  import Sets
  import Zone

  /** How far back a table has been purged so far, if ever. */
  datatype Reach = Reach(raw: Option<int>, ten: Option<int>, hour: Option<int>)

  predicate Spared(at: int, cut: Option<int>) {
    cut.None? || at >= cut.value
  }

  function Later(cut: Option<int>, at: int): Option<int> {
    if Spared(at, cut) then Some(at) else cut
  }

  function ReachOf(events: seq<Event>): Reach {
    if events == [] then Reach(None, None, None)
    else
      var n := |events| - 1;
      var r := ReachOf(events[..n]);
      match events[n]
      case Purge(cuts) => Reach(Later(r.raw, cuts.raw), Later(r.ten, cuts.ten), Later(r.hour, cuts.hour))
      case _ => r
  }

  /** The same run with nothing ever purged. */
  function Unpurged(events: seq<Event>): seq<Event> {
    if events == [] then []
    else
      var n := |events| - 1;
      if events[n].Purge? then Unpurged(events[..n]) else Unpurged(events[..n]) + [events[n]]
  }

  function Left<V>(t: map<Slot, V>, cut: Option<int>): map<Slot, V> {
    map k | k in t && Spared(k.at, cut) :: t[k]
  }

  function LeftTables(t: Tables, r: Reach): Tables {
    Tables(Left(t.raw, r.raw), Left(t.ten, r.ten), Left(t.hour, r.hour), t.day)
  }

  // ---------- a level, its source, and their cuts ----------

  function TableOf(t: Tables, l: Level): Table {
    match l
    case TenMinutes => t.ten
    case Hourly => t.hour
    case Daily => t.day
  }

  function SourceOf(t: Tables, l: Level): Table {
    match l
    case TenMinutes => Source(t.raw)
    case Hourly => t.ten
    case Daily => t.hour
  }

  function CutOf(r: Reach, l: Level): Option<int> {
    match l
    case TenMinutes => r.ten
    case Hourly => r.hour
    case Daily => None
  }

  function SourceCut(r: Reach, l: Level): Option<int> {
    match l
    case TenMinutes => r.raw
    case Hourly => r.ten
    case Daily => r.hour
  }

  lemma RolledLevel(t: Tables, l: Level, now: int)
    ensures TableOf(Rolled(t, now), l) == Stepped(TableOf(t, l), SourceOf(Rolled(t, now), l), l, now)
    ensures UpToDate(t, now) ==> IsFull(TableOf(t, l), SourceOf(t, l), l, now)
  {
  }

  lemma LeftLevel(t: Tables, r: Reach, l: Level)
    ensures TableOf(LeftTables(t, r), l) == Left(TableOf(t, l), CutOf(r, l))
    ensures SourceOf(LeftTables(t, r), l) == Left(SourceOf(t, l), SourceCut(r, l))
  {
    match l
    case TenMinutes => SourceLeft(t.raw, r.raw);
    case Hourly =>
    case Daily => NothingLost(t.day);
  }

  lemma SourceLeft(raw: map<Slot, Raw>, cut: Option<int>)
    ensures Source(Left(raw, cut)) == Left(Source(raw), cut)
  {
  }

  lemma NothingLost(t: Table)
    ensures Left(t, None) == t
  {
  }

  // ---------- one window and one cut ----------

  /** What is left of a window, if anything is, summarises as the whole did. */
  predicate Keeps(src: Table, host: int, w: int, l: Level, cut: int) {
    var k, left := Slot(host, w), Left(src, Some(cut));
    HasRows(left, k, l) ==> SummaryAt(left, k, l) == SummaryAt(src, k, l)
  }

  /** How far apart the rows of a level's source are. */
  function Grain(l: Level): int {
    match l
    case TenMinutes => 1
    case Hourly => TEN_MINUTES
    case Daily => Zone.HOUR
  }

  /** The source row an instant falls in. */
  function Floor(l: Level, at: int): int {
    match l
    case TenMinutes => at
    case Hourly => Truncated(TenMinutes, at)
    case Daily => Truncated(Hourly, at)
  }

  predicate Grained(src: Table, l: Level) {
    forall k :: k in src ==> Floor(l, k.at) == k.at
  }

  function CpuRaw(v: real): Raw {
    Raw(Some(v), None, None, None, None, None, None, None, None, None, None)
  }

  /** The smallest value there is, at one instant, is what the summary says. */
  lemma LeastIs(src: Table, k: Slot, l: Level, at: int, v: real)
    requires k.at <= at < k.at + Size(l) && Slot(k.host, at) in src && Read(src[Slot(k.host, at)], CpuMin) == Some(v)
    requires forall u :: k.at <= u < k.at + Size(l) && Slot(k.host, u) in src ==> AtLeast(Read(src[Slot(k.host, u)], CpuMin), v)
    ensures HasRows(src, k, l) && Read(SummaryAt(src, k, l), CpuMin) == Some(v)
  {
    RowInWindow(src, k, l, at);
    var rows := Collect(src, k.host, k.at, k.at + Size(l));
    Extremes.SummaryReads(rows, CpuMin, false);
    Extremes.BestIsBest(src, k.host, k.at, k.at + Size(l), CpuMin, false);
    LeastOfBest(src, k, l, at, v, Best(rows, CpuMin, false));
  }

  predicate AtLeast(m: Option<real>, v: real) {
    m.Some? ==> m.value >= v
  }

  lemma LeastOfBest(src: Table, k: Slot, l: Level, at: int, v: real, m: Option<real>)
    requires k.at <= at < k.at + Size(l) && Slot(k.host, at) in src && Read(src[Slot(k.host, at)], CpuMin) == Some(v)
    requires forall u :: k.at <= u < k.at + Size(l) && Slot(k.host, u) in src ==> AtLeast(Read(src[Slot(k.host, u)], CpuMin), v)
    requires Extremes.IsBest(src, k.host, k.at, k.at + Size(l), CpuMin, false, m)
    ensures m == Some(v)
  {
    assert Extremes.Holds(src, k.host, k.at, k.at + Size(l), at, CpuMin);
    var u :| Extremes.Attains(src, k.host, k.at, k.at + Size(l), u, CpuMin, m);
    assert AtLeast(Read(src[Slot(k.host, u)], CpuMin), v);
  }

  lemma RowInWindow(src: Table, k: Slot, l: Level, at: int)
    requires k.at <= at < k.at + Size(l) && Slot(k.host, at) in src
    ensures HasRows(src, k, l)
  {
    var row := src[Slot(k.host, at)];
    CollectedRows(src, k.host, k.at, k.at + Size(l), row);
    assert IsRowOf(src, k.host, k.at, k.at + Size(l), row);
  }

  lemma WindowHasRow(src: Table, k: Slot, l: Level) returns (at: int)
    requires HasRows(src, k, l)
    ensures k.at <= at < k.at + Size(l) && Slot(k.host, at) in src
  {
    var row := Collect(src, k.host, k.at, k.at + Size(l))[0];
    CollectedRows(src, k.host, k.at, k.at + Size(l), row);
    at :| k.at <= at < k.at + Size(l) && Slot(k.host, at) in src && src[Slot(k.host, at)] == row;
  }

  /** A cut costs a window nothing, whatever its rows, if and only if it does not fall between the first of them there can be
      and the last. For the finest level that is: if and only if it is not strictly inside. */
  lemma WindowExact(w: int, l: Level, cut: int)
    requires Aligned(l, w)
    ensures (forall src, host :: Grained(src, l) ==> Keeps(src, host, w, l, cut)) <==> !(w < cut <= w + Size(l) - Grain(l))
  {
    if w < cut <= w + Size(l) - Grain(l) {
      var src := CutInside(w, l, cut);
      assert !Keeps(src, 1, w, l, cut);
    } else {
      forall src, host | Grained(src, l)
        ensures Keeps(src, host, w, l, cut)
      {
        CutOutside(src, host, w, l, cut);
      }
    }
  }

  lemma CutOutside(src: Table, host: int, w: int, l: Level, cut: int)
    requires Aligned(l, w) && Grained(src, l) && !(w < cut <= w + Size(l) - Grain(l))
    ensures Keeps(src, host, w, l, cut)
  {
    var left := Left(src, Some(cut));
    if cut <= w {
      SameCollect(left, src, host, w, w + Size(l));
    } else if HasRows(left, Slot(host, w), l) {
      var at := WindowHasRow(left, Slot(host, w), l);
      LastGrain(w, l, at);
    }
  }

  lemma LastGrain(w: int, l: Level, at: int)
    requires Aligned(l, w) && Floor(l, at) == at && at < w + Size(l)
    ensures at <= w + Size(l) - Grain(l)
  {
    if l == Hourly {
      Extremes.CoarserIsAligned(w);
      NextWindow(TenMinutes, at, w + Size(l));
    } else if l == Daily {
      Extremes.CoarserIsAligned(w);
      NextWindow(Hourly, at, w + Size(l));
    }
  }

  /** A row at the window's start, and one where the last may be: the cut takes the first. */
  lemma CutInside(w: int, l: Level, cut: int) returns (src: Table)
    requires Aligned(l, w) && w < cut <= w + Size(l) - Grain(l)
    ensures Grained(src, l) && !Keeps(src, 1, w, l, cut)
  {
    var last := w + Size(l) - Grain(l);
    src := map[Slot(1, w) := Lifted(CpuRaw(0.0)), Slot(1, last) := Lifted(CpuRaw(1.0))];
    StartAndLast(w, l);
    LeastIs(src, Slot(1, w), l, w, 0.0);
    LeastIs(Left(src, Some(cut)), Slot(1, w), l, last, 1.0);
  }

  lemma StartAndLast(w: int, l: Level)
    requires Aligned(l, w)
    ensures Floor(l, w) == w && Floor(l, w + Size(l) - Grain(l)) == w + Size(l) - Grain(l) && Size(l) > Grain(l) > 0
  {
    Extremes.CoarserIsAligned(w);
    match l
    case TenMinutes =>
    case Hourly => WholeWindows((w + Size(l)) / TEN_MINUTES - 1);
    case Daily => WholeWindows((w + Size(l)) / Zone.HOUR - 1);
  }

  // ---------- one step of a level ----------

  /** The level's newest row is still there, and the step starts from it. */
  predicate Starts(dst: Table, cut: Option<int>) {
    Instants(dst) != {} && Spared(Sets.MaxOf(Instants(dst)), cut)
  }

  /** The window k comes out of a step over what is left as it would have: written alike, or kept as it is when nothing is
      left to write it from. A level left without rows starts over, and must write just what its own cut spares. */
  predicate StillAt(dst: Table, src: Table, l: Level, cutDst: Option<int>, cutSrc: Option<int>, k: Slot) {
    var left := Left(src, cutSrc);
    if Starts(dst, cutDst) then
      k.at >= Sets.MaxOf(Instants(dst)) ==>
        if HasRows(left, k, l) then SummaryAt(left, k, l) == SummaryAt(src, k, l)
        else k in dst && dst[k] == SummaryAt(src, k, l)
    else if Spared(k.at, cutDst) then HasRows(left, k, l) && SummaryAt(left, k, l) == SummaryAt(src, k, l)
    else !HasRows(left, k, l)
  }

  predicate WindowStands(dst: Table, src: Table, l: Level, cutDst: Option<int>, cutSrc: Option<int>, now: int, k: Slot) {
    Complete(k, l, now) && HasRows(src, k, l) ==> StillAt(dst, src, l, cutDst, cutSrc, k)
  }

  ghost predicate LevelStands(dst: Table, src: Table, l: Level, cutDst: Option<int>, cutSrc: Option<int>, now: int) {
    forall k :: WindowStands(dst, src, l, cutDst, cutSrc, now, k)
  }

  predicate NewestAligned(dst: Table, l: Level) {
    Instants(dst) != {} ==> Aligned(l, Sets.MaxOf(Instants(dst)))
  }

  lemma SameStart(dst: Table, src: Table, cutDst: Option<int>)
    requires Starts(dst, cutDst)
    ensures StartOf(Left(dst, cutDst), src) == Some(Sets.MaxOf(Instants(dst)))
  {
    var newest :| newest in dst && newest.at == Sets.MaxOf(Instants(dst));
    assert newest in Left(dst, cutDst);
    assert newest.at in Instants(Left(dst, cutDst));
    assert Instants(Left(dst, cutDst)) <= Instants(dst);
  }

  lemma NothingLeft(dst: Table, cutDst: Option<int>)
    requires !Starts(dst, cutDst)
    ensures Left(dst, cutDst) == map[] && forall k :: k in dst ==> !Spared(k.at, cutDst)
  {
    forall k | k in dst
      ensures !Spared(k.at, cutDst)
    {
      assert k.at in Instants(dst);
    }
  }

  lemma FewerLeft(src: Table, cut: Option<int>, k: Slot, l: Level)
    ensures HasRows(Left(src, cut), k, l) ==> HasRows(src, k, l)
  {
    MoreRows(Left(src, cut), src, k.host, k.at, k.at + Size(l));
  }

  ghost predicate SameStep(dst: Table, src: Table, l: Level, cutDst: Option<int>, cutSrc: Option<int>, now: int, k: Slot) {
    SameAt(Stepped(Left(dst, cutDst), Left(src, cutSrc), l, now), Left(Stepped(dst, src, l, now), cutDst), k)
  }

  lemma StepFromNewest(dst: Table, src: Table, l: Level, cutDst: Option<int>, cutSrc: Option<int>, now: int, k: Slot)
    requires NewestAligned(dst, l) && Starts(dst, cutDst)
    ensures SameStep(dst, src, l, cutDst, cutSrc, now, k) <==> WindowStands(dst, src, l, cutDst, cutSrc, now, k)
  {
    var w := Sets.MaxOf(Instants(dst));
    SameStart(dst, Left(src, cutSrc), cutDst);
    FewerLeft(src, cutSrc, k, l);
    WrittenFromAt(dst, src, l, w, now, k);
    WrittenFromAt(Left(dst, cutDst), Left(src, cutSrc), l, w, now, k);
  }

  lemma StepFromNothing(dst: Table, src: Table, l: Level, cutDst: Option<int>, cutSrc: Option<int>, now: int, k: Slot)
    requires NewestAligned(dst, l) && !Starts(dst, cutDst)
    ensures SameStep(dst, src, l, cutDst, cutSrc, now, k) <==> WindowStands(dst, src, l, cutDst, cutSrc, now, k)
  {
    NothingLeft(dst, cutDst);
    FewerLeft(src, cutSrc, k, l);
    StepOntoNone(map[], Left(src, cutSrc), l, now, k);
    if Instants(dst) == {} {
      StepOntoNone(dst, src, l, now, k);
    } else {
      WrittenFromAt(dst, src, l, Sets.MaxOf(Instants(dst)), now, k);
    }
  }

  /** A step over what purges left of a level and its source is what they would leave of the step, window by window: if and
      only if the window still comes out as it would have. */
  lemma StepLeft(dst: Table, src: Table, l: Level, cutDst: Option<int>, cutSrc: Option<int>, now: int)
    requires NewestAligned(dst, l)
    ensures Stepped(Left(dst, cutDst), Left(src, cutSrc), l, now) == Left(Stepped(dst, src, l, now), cutDst)
            <==> LevelStands(dst, src, l, cutDst, cutSrc, now)
  {
    forall k
      ensures SameStep(dst, src, l, cutDst, cutSrc, now, k) <==> WindowStands(dst, src, l, cutDst, cutSrc, now, k)
    {
      if Starts(dst, cutDst) {
        StepFromNewest(dst, src, l, cutDst, cutSrc, now, k);
      } else {
        StepFromNothing(dst, src, l, cutDst, cutSrc, now, k);
      }
    }
    StepsSame(dst, src, l, cutDst, cutSrc, now);
  }

  lemma StepsSame(dst: Table, src: Table, l: Level, cutDst: Option<int>, cutSrc: Option<int>, now: int)
    ensures (forall k :: SameStep(dst, src, l, cutDst, cutSrc, now, k))
            <==> Stepped(Left(dst, cutDst), Left(src, cutSrc), l, now) == Left(Stepped(dst, src, l, now), cutDst)
  {
    if forall k :: SameStep(dst, src, l, cutDst, cutSrc, now, k) {
      var a, b := Stepped(Left(dst, cutDst), Left(src, cutSrc), l, now), Left(Stepped(dst, src, l, now), cutDst);
      forall k
        ensures SameAt(a, b, k)
      {
        assert SameStep(dst, src, l, cutDst, cutSrc, now, k);
      }
      SameEverywhere(a, b);
    }
  }

  lemma SameEverywhere(a: Table, b: Table)
    requires forall k :: SameAt(a, b, k)
    ensures a == b
  {
    forall k
      ensures k in a <==> k in b
      ensures k in a ==> a[k] == b[k]
    {
      assert SameAt(a, b, k);
    }
  }

  // ---------- one call ----------

  ghost predicate Stands(t: Tables, r: Reach, l: Level, now: int) {
    LevelStands(TableOf(t, l), SourceOf(Rolled(t, now), l), l, CutOf(r, l), SourceCut(r, l), now)
  }

  predicate AllAligned(t: Tables) {
    NewestAligned(t.ten, TenMinutes) && NewestAligned(t.hour, Hourly) && NewestAligned(t.day, Daily)
  }

  lemma LevelLeft(t: Tables, r: Reach, l: Level, now: int)
    requires AllAligned(t)
    requires SourceOf(Rolled(LeftTables(t, r), now), l) == Left(SourceOf(Rolled(t, now), l), SourceCut(r, l))
    ensures TableOf(Rolled(LeftTables(t, r), now), l) == Left(TableOf(Rolled(t, now), l), CutOf(r, l)) <==> Stands(t, r, l, now)
  {
    RolledLevel(t, l, now);
    RolledLevel(LeftTables(t, r), l, now);
    LeftLevel(t, r, l);
    StepLeft(TableOf(t, l), SourceOf(Rolled(t, now), l), l, CutOf(r, l), SourceCut(r, l), now);
  }

  /** A call over what purges left is what they would leave of the call, if and only if every window of every level stands. */
  lemma CallLeft(t: Tables, r: Reach, now: int)
    requires AllAligned(t)
    ensures Rolled(LeftTables(t, r), now) == LeftTables(Rolled(t, now), r) <==> forall l :: Stands(t, r, l, now)
  {
    var next := Rolled(t, now);
    if Rolled(LeftTables(t, r), now) == LeftTables(next, r) {
      forall l
        ensures Stands(t, r, l, now)
      {
        LeftLevel(next, r, l);
        LevelLeft(t, r, l, now);
      }
    }
    if forall l :: Stands(t, r, l, now) {
      SourceLeft(t.raw, r.raw);
      LevelLeft(t, r, TenMinutes, now);
      LevelLeft(t, r, Hourly, now);
      LevelLeft(t, r, Daily, now);
      NothingLost(next.day);
    }
  }

  lemma RunIsAligned(events: seq<Event>, since: int)
    requires InOrder(events, since)
    ensures AllAligned(Replay(events))
  {
    ReplayUpToDate(events, since);
    var t := Replay(events).(raw := Summarised(events));
    FullIsAligned(t.ten, Source(t.raw), TenMinutes, LastCall(events, since));
    FullIsAligned(t.hour, t.ten, Hourly, LastCall(events, since));
    FullIsAligned(t.day, t.hour, Daily, LastCall(events, since));
  }

  lemma FullIsAligned(t: Table, src: Table, l: Level, now: int)
    requires IsFull(t, src, l, now)
    ensures NewestAligned(t, l)
  {
    if Instants(t) != {} {
      NewestIsComplete(t, src, l, now);
    }
  }

  // ---------- which purges a run can bear, by dates alone ----------

  predicate Whole(src: Table, k: Slot, l: Level, cut: Option<int>) {
    forall at :: k.at <= at < k.at + Size(l) && Slot(k.host, at) in src ==> Spared(at, cut)
  }

  predicate Gone(src: Table, k: Slot, l: Level, cut: Option<int>) {
    forall at :: k.at <= at < k.at + Size(l) && Slot(k.host, at) in src ==> !Spared(at, cut)
  }

  /** A sample of a stretch has arrived since the last call. */
  predicate Touched(events: seq<Event>, host: int, from: int, until: int) {
    events != [] &&
    (var n := |events| - 1;
     match events[n]
     case Call(_) => false
     case Arrive(k, _) => (k.host == host && from <= k.at < until) || Touched(events[..n], host, from, until)
     case Purge(_) => Touched(events[..n], host, from, until))
  }

  /** From the newest window on: no row of the window purged; or all of them, after it was summarised and with nothing
      arrived in it since. A level left without rows: just what its own cut spares is left to write. */
  predicate ClearAt(events: seq<Event>, dst: Table, src: Table, l: Level, cutDst: Option<int>, cutSrc: Option<int>, k: Slot) {
    if Starts(dst, cutDst) then
      k.at >= Sets.MaxOf(Instants(dst)) ==>
        || Whole(src, k, l, cutSrc)
        || (Gone(src, k, l, cutSrc) && k in dst && !Touched(events, k.host, k.at, k.at + Size(l)))
    else if Spared(k.at, cutDst) then Whole(src, k, l, cutSrc)
    else Gone(src, k, l, cutSrc)
  }

  predicate ClearWindow(events: seq<Event>, r: Reach, l: Level, now: int, k: Slot) {
    var t := Replay(events);
    var src := SourceOf(Rolled(t, now), l);
    Complete(k, l, now) && HasRows(src, k, l) ==> ClearAt(events, TableOf(t, l), src, l, CutOf(r, l), SourceCut(r, l), k)
  }

  ghost predicate ClearLevel(events: seq<Event>, r: Reach, l: Level, now: int) {
    forall k :: ClearWindow(events, r, l, now, k)
  }

  ghost predicate Clear(events: seq<Event>, r: Reach, now: int) {
    forall l :: ClearLevel(events, r, l, now)
  }

  /** Every call finds the windows it writes clear, and no sample comes from before a purge. */
  ghost predicate Spares(events: seq<Event>) {
    events == [] ||
    (var n := |events| - 1;
     Spares(events[..n])
     && match events[n]
        case Arrive(k, _) => Spared(k.at, ReachOf(events[..n]).raw)
        case Call(now) => Clear(Unpurged(events[..n]), ReachOf(events[..n]), now)
        case Purge(_) => true)
  }

  // ---------- nothing arrived: nothing changed ----------

  lemma {:induction false} UntouchedRaw(events: seq<Event>, since: int, host: int, from: int, until: int, at: int)
    requires InOrder(events, since) && !Touched(events, host, from, until) && from <= at < until
    ensures var raw, seen := Replay(events).raw, Summarised(events);
            (Slot(host, at) in raw <==> Slot(host, at) in seen) && (Slot(host, at) in raw ==> raw[Slot(host, at)] == seen[Slot(host, at)])
  {
    if events != [] && !events[|events| - 1].Call? {
      UntouchedRaw(events[..|events| - 1], since, host, from, until, at);
    }
  }

  lemma {:induction false} UntouchedPart(events: seq<Event>, host: int, from: int, until: int, a: int, b: int)
    requires !Touched(events, host, from, until) && from <= a && b <= until
    ensures !Touched(events, host, a, b)
  {
    if events != [] && !events[|events| - 1].Call? {
      UntouchedPart(events[..|events| - 1], host, from, until, a, b);
    }
  }

  function Rank(l: Level): nat {
    match l
    case TenMinutes => 0
    case Hourly => 1
    case Daily => 2
  }

  ghost predicate SameStretch(a: Table, b: Table, host: int, from: int, until: int) {
    forall at :: from <= at < until ==> SameAt(a, b, Slot(host, at))
  }

  /** An untouched stretch of a level's source is what it was at the last call. */
  lemma SourceUntouched(events: seq<Event>, since: int, now: int, l: Level, host: int, from: int, until: int)
    requires InOrder(events, since) && LastCall(events, since) <= now
    requires !Touched(events, host, from, until) && Aligned(l, from) && Aligned(l, until) && until <= LastCall(events, since)
    ensures SameStretch(SourceOf(Replay(events).(raw := Summarised(events)), l), SourceOf(Rolled(Replay(events), now), l), host,
                        from, until)
    decreases Rank(l), 0
  {
    match l
    case TenMinutes =>
      forall at | from <= at < until
        ensures SameAt(Source(Summarised(events)), Source(Replay(events).raw), Slot(host, at))
      {
        UntouchedRaw(events, since, host, from, until, at);
      }
    case Hourly =>
      Extremes.CoarserIsAligned(from);
      CoarserEnd(from, until);
      LevelUntouched(events, since, now, TenMinutes, host, from, until);
    case Daily =>
      Extremes.CoarserIsAligned(from);
      CoarserEnd(from, until);
      LevelUntouched(events, since, now, Hourly, host, from, until);
  }

  lemma CoarserEnd(from: int, until: int)
    ensures Aligned(Daily, until) ==> Aligned(Hourly, until)
    ensures Aligned(Hourly, until) ==> Aligned(TenMinutes, until)
  {
    Extremes.CoarserIsAligned(until);
  }

  /** And so is an untouched stretch of the level itself. */
  lemma LevelUntouched(events: seq<Event>, since: int, now: int, l: Level, host: int, from: int, until: int)
    requires InOrder(events, since) && LastCall(events, since) <= now
    requires !Touched(events, host, from, until) && Aligned(l, from) && Aligned(l, until) && until <= LastCall(events, since)
    ensures SameStretch(TableOf(Replay(events), l), TableOf(Rolled(Replay(events), now), l), host, from, until)
    decreases Rank(l), 1
  {
    forall at | from <= at < until
      ensures SameAt(TableOf(Replay(events), l), TableOf(Rolled(Replay(events), now), l), Slot(host, at))
    {
      if Aligned(l, at) {
        NextWindow(l, at, until);
        UntouchedPart(events, host, from, until, at, at + Size(l));
        SourceUntouched(events, since, now, l, host, at, at + Size(l));
      }
      SlotUntouched(events, since, now, l, Slot(host, at));
    }
  }

  lemma SlotUntouched(events: seq<Event>, since: int, now: int, l: Level, k: Slot)
    requires InOrder(events, since) && LastCall(events, since) <= now
    requires Aligned(l, k.at) ==>
               && k.at + Size(l) <= LastCall(events, since)
               && SameStretch(SourceOf(Replay(events).(raw := Summarised(events)), l), SourceOf(Rolled(Replay(events), now), l), k.host,
                              k.at, k.at + Size(l))
    ensures SameAt(TableOf(Replay(events), l), TableOf(Rolled(Replay(events), now), l), k)
  {
    var t, last := Replay(events).(raw := Summarised(events)), LastCall(events, since);
    var next := Rolled(Replay(events), now);
    ReplayUpToDate(events, since);
    NextUpToDate(events, since, now);
    RolledLevel(t, l, last);
    RolledLevel(next, l, now);
    SlotAgrees(TableOf(t, l), TableOf(next, l), SourceOf(t, l), SourceOf(next, l), l, last, now, k);
  }

  lemma SlotAgrees(dst: Table, dst': Table, src: Table, src': Table, l: Level, last: int, now: int, k: Slot)
    requires IsFull(dst, src, l, last) && IsFull(dst', src', l, now) && last <= now
    requires Aligned(l, k.at) ==> k.at + Size(l) <= last && SameStretch(src, src', k.host, k.at, k.at + Size(l))
    ensures SameAt(dst, dst', k)
  {
    assert FullAt(dst, src, l, last, k) && FullAt(dst', src', l, now, k);
    if Aligned(l, k.at) {
      SameCollect(src, src', k.host, k.at, k.at + Size(l));
    }
  }

  // ---------- the runs a purge costs nothing ----------

  /** Where the dates say so, the window does come out as it would have. */
  lemma ClearStands(events: seq<Event>, since: int, r: Reach, l: Level, now: int, k: Slot)
    requires InOrder(events, since) && LastCall(events, since) <= now
    requires var t := Replay(events);
             ClearAt(events, TableOf(t, l), SourceOf(Rolled(t, now), l), l, CutOf(r, l), SourceCut(r, l), k)
    requires HasRows(SourceOf(Rolled(Replay(events), now), l), k, l)
    ensures var t := Replay(events);
            StillAt(TableOf(t, l), SourceOf(Rolled(t, now), l), l, CutOf(r, l), SourceCut(r, l), k)
  {
    var t := Replay(events);
    var src, cut := SourceOf(Rolled(t, now), l), SourceCut(r, l);
    WholeOrGone(src, k, l, cut);
    if k in TableOf(t, l) && !Touched(events, k.host, k.at, k.at + Size(l)) {
      KeptIsCurrent(events, since, l, now, k);
    }
  }

  lemma WholeOrGone(src: Table, k: Slot, l: Level, cut: Option<int>)
    ensures Whole(src, k, l, cut) ==> (HasRows(Left(src, cut), k, l) <==> HasRows(src, k, l))
                                      && SummaryAt(Left(src, cut), k, l) == SummaryAt(src, k, l)
    ensures Gone(src, k, l, cut) <==> !HasRows(Left(src, cut), k, l)
  {
    var left := Left(src, cut);
    if Whole(src, k, l, cut) {
      SameCollect(left, src, k.host, k.at, k.at + Size(l));
    }
    if HasRows(left, k, l) {
      var at := WindowHasRow(left, k, l);
      assert Slot(k.host, at) in src && Spared(at, cut);
    } else {
      forall at | k.at <= at < k.at + Size(l) && Slot(k.host, at) in src
        ensures !Spared(at, cut)
      {
        if Spared(at, cut) {
          RowInWindow(left, k, l, at);
        }
      }
    }
  }

  lemma KeptIsCurrent(events: seq<Event>, since: int, l: Level, now: int, k: Slot)
    requires InOrder(events, since) && LastCall(events, since) <= now
    requires k in TableOf(Replay(events), l) && !Touched(events, k.host, k.at, k.at + Size(l))
    ensures TableOf(Replay(events), l)[k] == SummaryAt(SourceOf(Rolled(Replay(events), now), l), k, l)
  {
    var t, last := Replay(events).(raw := Summarised(events)), LastCall(events, since);
    var next := Rolled(Replay(events), now);
    ReplayUpToDate(events, since);
    RolledLevel(t, l, last);
    RowIsComplete(TableOf(t, l), SourceOf(t, l), l, last, k);
    SourceUntouched(events, since, now, l, k.host, k.at, k.at + Size(l));
    RowIsCurrent(TableOf(t, l), SourceOf(t, l), SourceOf(next, l), l, last, k);
  }

  lemma RowIsComplete(dst: Table, src: Table, l: Level, last: int, k: Slot)
    requires IsFull(dst, src, l, last) && k in dst
    ensures Complete(k, l, last) && Aligned(l, k.at + Size(l))
  {
    assert FullAt(dst, src, l, last, k);
    NextWindow(l, k.at, k.at);
  }

  lemma RowIsCurrent(dst: Table, src: Table, src': Table, l: Level, last: int, k: Slot)
    requires IsFull(dst, src, l, last) && k in dst && SameStretch(src, src', k.host, k.at, k.at + Size(l))
    ensures dst[k] == SummaryAt(src', k, l)
  {
    assert FullAt(dst, src, l, last, k);
    SameCollect(src, src', k.host, k.at, k.at + Size(l));
  }

  lemma ClearCall(events: seq<Event>, since: int, r: Reach, now: int)
    requires InOrder(events, since) && LastCall(events, since) <= now && Clear(events, r, now)
    ensures forall l :: Stands(Replay(events), r, l, now)
  {
    var t := Replay(events);
    forall l
      ensures Stands(t, r, l, now)
    {
      forall k
        ensures WindowStands(TableOf(t, l), SourceOf(Rolled(t, now), l), l, CutOf(r, l), SourceCut(r, l), now, k)
      {
        assert ClearLevel(events, r, l, now) && ClearWindow(events, r, l, now, k);
        if Complete(k, l, now) && HasRows(SourceOf(Rolled(t, now), l), k, l) {
          ClearStands(events, since, r, l, now, k);
        }
      }
    }
  }

  // ---------- every run ----------

  lemma PurgeAgain<V>(t: map<Slot, V>, cut: Option<int>, at: int)
    ensures Since(Left(t, cut), at) == Left(t, Later(cut, at))
  {
  }

  lemma ArriveLeft(raw: map<Slot, Raw>, cut: Option<int>, k: Slot, row: Raw)
    ensures Left(raw, cut)[k := row] == Left(raw[k := row], cut) <==> Spared(k.at, cut)
  {
    if !Spared(k.at, cut) {
      assert k in Left(raw, cut)[k := row] && k !in Left(raw[k := row], cut);
    }
  }

  lemma LastUnpurged(events: seq<Event>, e: Event)
    requires !e.Purge?
    ensures Unpurged(events + [e])[..|Unpurged(events)|] == Unpurged(events)
    ensures Unpurged(events + [e]) == Unpurged(events) + [e]
  {
    assert (events + [e])[..|events|] == events;
  }

  /** The tables are what purges so far leave of those of the run without them. */
  ghost predicate Retained(events: seq<Event>) {
    Replay(events) == LeftTables(Replay(Unpurged(events)), ReachOf(events))
  }

  lemma PurgeRetains(before: seq<Event>, cuts: Cuts)
    requires Retained(before)
    ensures Retained(before + [Purge(cuts)])
  {
    assert (before + [Purge(cuts)])[..|before|] == before;
    var t, r := Replay(Unpurged(before)), ReachOf(before);
    PurgeAgain(t.raw, r.raw, cuts.raw);
    PurgeAgain(t.ten, r.ten, cuts.ten);
    PurgeAgain(t.hour, r.hour, cuts.hour);
  }

  /** One more arrival or call keeps that, if and only if it finds the tables clear. */
  lemma ArriveRetains(before: seq<Event>, k: Slot, row: Raw)
    requires Retained(before)
    ensures Retained(before + [Arrive(k, row)]) <==> Spared(k.at, ReachOf(before).raw)
  {
    assert (before + [Arrive(k, row)])[..|before|] == before;
    LastUnpurged(before, Arrive(k, row));
    ArriveLeft(Replay(Unpurged(before)).raw, ReachOf(before).raw, k, row);
  }

  lemma CallRetains(before: seq<Event>, since: int, now: int)
    requires Retained(before) && InOrder(Unpurged(before), since)
    ensures Retained(before + [Call(now)]) <==> forall l :: Stands(Replay(Unpurged(before)), ReachOf(before), l, now)
  {
    AfterCall(before, now);
    RunIsAligned(Unpurged(before), since);
    CallLeft(Replay(Unpurged(before)), ReachOf(before), now);
  }

  lemma AfterCall(before: seq<Event>, now: int)
    requires Retained(before)
    ensures var t, r := Replay(Unpurged(before)), ReachOf(before);
            Retained(before + [Call(now)]) <==> Rolled(LeftTables(t, r), now) == LeftTables(Rolled(t, now), r)
  {
    assert (before + [Call(now)])[..|before|] == before;
    LastUnpurged(before, Call(now));
  }

  lemma {:induction false} SparesRetain(events: seq<Event>, since: int)
    requires InOrder(Unpurged(events), since) && Spares(events)
    ensures Retained(events)
  {
    if events != [] {
      var n := |events| - 1;
      var before := events[..n];
      assert events == before + [events[n]];
      match events[n]
      case Purge(cuts) =>
        SparesRetain(before, since);
        PurgeRetains(before, cuts);
      case Arrive(k, row) =>
        LastUnpurged(before, events[n]);
        SparesRetain(before, since);
        ArriveRetains(before, k, row);
      case Call(now) =>
        LastUnpurged(before, events[n]);
        SparesRetain(before, since);
        ClearCall(Unpurged(before), since, ReachOf(before), now);
        CallRetains(before, since, now);
    }
  }

  /** Hourly calls with a purge after each leave what is retained of one batch over everything that ever arrived, over any
      run in which every call finds the windows it writes untouched by purges, or wholly gone once summarised. */
  lemma RetainedIsBatch(events: seq<Event>, since: int)
    requires events != [] && events[|events| - 1].Call? && InOrder(Unpurged(events), since) && Spares(events)
    ensures var ever := Replay(Unpurged(events)).raw;
            Replay(events) == LeftTables(Batch(ever, events[|events| - 1].now), ReachOf(events))
  {
    SparesRetain(events, since);
    assert events == events[..|events| - 1] + [events[|events| - 1]];
    LastUnpurged(events[..|events| - 1], events[|events| - 1]);
    IncrementalIsBatch(Unpurged(events), since);
  }
}
