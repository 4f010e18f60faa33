/**
 What the truncated four-day view is worth against the unbounded timeline: where the two agree, exactly when the last
 boundary read from the view is the true one, and what a run of minute ticks therefore acts on.
 */
module Timeline {
  import opened Options
  import opened Zone
  import opened Schedule

  /** The boundary the hub reads at t, None being its ok == false. */
  function Reading(ws: seq<Window>, z: Zone, t: int): Option<Boundary> {
    var f := LatestOf(ViewOf(ws, z, LocalDay(z, t)), t);
    if f.ok then Some(Boundary(f.best, f.off)) else None
  }

  lemma LastInViewUnique(ws: seq<Window>, z: Zone, today: int, t: int, b: Boundary, c: Boundary)
    requires IsLastInView(ws, z, today, t, b) && IsLastInView(ws, z, today, t, c)
    ensures b == c
  {
    assert OffView(ws, z, today, b.at - 1) != OffView(ws, z, today, b.at);
    assert OffView(ws, z, today, c.at - 1) != OffView(ws, z, today, c.at);
  }

  // ---------- windows that vanish inside a skipped hour ----------

  predicate Vanishes(ws: seq<Window>, z: Zone, today: int, day: int, i: int, e: int) {
    Lists(ws, today, day, i) && Start(ws[i], z, day) == End(ws[i], z, day) == e
  }

  /** A window that does last reaches e, its end included. */
  predicate Reaches(ws: seq<Window>, z: Zone, today: int, day: int, i: int, e: int) {
    Lists(ws, today, day, i) && Start(ws[i], z, day) < End(ws[i], z, day) && Start(ws[i], z, day) <= e <= End(ws[i], z, day)
  }

  predicate OpensBetween(ws: seq<Window>, z: Zone, today: int, day: int, i: int, e: int, t: int) {
    Lists(ws, today, day, i) && e < Start(ws[i], z, day) <= t
  }

  /** A listed window that vanished at e, by t, that no listed window reaches, and since which none has opened. */
  ghost predicate Stranded(ws: seq<Window>, z: Zone, today: int, t: int, e: int) {
    && e <= t
    && (exists day, i :: Vanishes(ws, z, today, day, i, e))
    && (forall day, i :: !Reaches(ws, z, today, day, i, e))
    && forall day, i :: !OpensBetween(ws, z, today, day, i, e, t)
  }

  ghost predicate Vanished(ws: seq<Window>, z: Zone, t: int) {
    exists e :: Stranded(ws, z, LocalDay(z, t), t, e)
  }

  /** The same among blocks: an empty one, and no later one open yet. */
  predicate EmptyLast(blocks: seq<Interval>, t: int, k: int) {
    && 0 <= k < |blocks| && blocks[k].start == blocks[k].end <= t
    && forall j :: k < j < |blocks| ==> blocks[j].start > t
  }

  lemma TouchingIsEmpty(ws: seq<Window>, z: Zone, today: int, blocks: seq<Interval>, k: int)
    requires IsView(ws, z, today, blocks) && 0 <= k < |blocks| && blocks[k].start == blocks[k].end
    ensures forall day, i :: !Reaches(ws, z, today, day, i, blocks[k].start)
  {
    var e := blocks[k].start;
    forall day, i
      ensures !Reaches(ws, z, today, day, i, e)
    {
      if Reaches(ws, z, today, day, i, e) {
        var x := if e < End(ws[i], z, day) then e else e - 1;
        assert InWindow(ws, z, day, i, x);
        assert OffView(ws, z, today, x);
        NotBesideEmpty(blocks, k, x);
      }
    }
  }

  /** Neither an empty block's instant nor the one before it is covered. */
  lemma NotBesideEmpty(blocks: seq<Interval>, k: int, x: int)
    requires Blocks(blocks) && 0 <= k < |blocks| && blocks[k].start == blocks[k].end
    requires x == blocks[k].start || x == blocks[k].start - 1
    ensures !Covered(blocks, x)
  {
  }

  lemma EmptyLastIsStranded(ws: seq<Window>, z: Zone, today: int, blocks: seq<Interval>, t: int, k: int)
    requires Regular(z) && IsView(ws, z, today, blocks) && EmptyLast(blocks, t, k)
    ensures Stranded(ws, z, today, t, blocks[k].start)
  {
    TouchingIsEmpty(ws, z, today, blocks, k);
    EmptyHasWindow(ws, z, today, blocks, k);
    forall day, i
      ensures !OpensBetween(ws, z, today, day, i, blocks[k].start, t)
    {
      NoneOpens(ws, z, today, blocks, t, k, day, i);
    }
  }

  lemma EmptyHasWindow(ws: seq<Window>, z: Zone, today: int, blocks: seq<Interval>, k: int)
    requires Regular(z) && IsView(ws, z, today, blocks) && 0 <= k < |blocks|
    requires forall day, i :: !Reaches(ws, z, today, day, i, blocks[k].start)
    ensures exists day, i :: Vanishes(ws, z, today, day, i, blocks[k].start)
  {
    var e := blocks[k].start;
    assert Touches(blocks[k], e);
    assert TouchView(ws, z, today, e);
    var day, i :| WindowTouches(ws, z, today, day, i, e);
    assert !Reaches(ws, z, today, day, i, e);
    assert Vanishes(ws, z, today, day, i, e);
  }

  lemma NoneOpens(ws: seq<Window>, z: Zone, today: int, blocks: seq<Interval>, t: int, k: int, day: int, i: int)
    requires Regular(z) && IsView(ws, z, today, blocks) && EmptyLast(blocks, t, k)
    ensures !OpensBetween(ws, z, today, day, i, blocks[k].start, t)
  {
    if Lists(ws, today, day, i) {
      var s := Start(ws[i], z, day);
      ListedSpan(ws, z, today, day, i);
      assert WindowTouches(ws, z, today, day, i, s);
      assert TouchView(ws, z, today, s);
      var m :| 0 <= m < |blocks| && Touches(blocks[m], s);
    }
  }

  lemma StrandedIsEmptyLast(ws: seq<Window>, z: Zone, today: int, blocks: seq<Interval>, t: int, e: int) returns (k: int)
    requires IsView(ws, z, today, blocks) && Stranded(ws, z, today, t, e)
    ensures EmptyLast(blocks, t, k) && blocks[k].start == e
  {
    var day, i :| Vanishes(ws, z, today, day, i, e);
    assert WindowTouches(ws, z, today, day, i, e);
    assert TouchView(ws, z, today, e);
    k :| 0 <= k < |blocks| && Touches(blocks[k], e);
    assert blocks[k].start < blocks[k].end ==> Holds(blocks[k], e) || Holds(blocks[k], e - 1);
    assert OffView(ws, z, today, e) <==> Covered(blocks, e);
    assert OffView(ws, z, today, e - 1) <==> Covered(blocks, e - 1);
    NothingReaches(ws, z, today, e);
    forall j | k < j < |blocks|
      ensures blocks[j].start > t
    {
      var d, m :| Lists(ws, today, d, m) && Start(ws[m], z, d) == blocks[j].start;
      assert !OpensBetween(ws, z, today, d, m, e, t);
    }
  }

  lemma NothingReaches(ws: seq<Window>, z: Zone, today: int, e: int)
    requires forall day, i :: !Reaches(ws, z, today, day, i, e)
    ensures !OffView(ws, z, today, e) && !OffView(ws, z, today, e - 1)
  {
    forall day, i, x | (x == e || x == e - 1) && today - 2 <= day <= today + 1
      ensures !InWindow(ws, z, day, i, x)
    {
      assert !Reaches(ws, z, today, day, i, e);
    }
  }

  // ---------- what LastBoundary returns ----------

  /** What the view's blocks say of a reading. */
  lemma ReadingInBlocks(ws: seq<Window>, z: Zone, t: int) returns (blocks: seq<Interval>, f: Found)
    requires Regular(z) && Recent(z, t)
    ensures IsView(ws, z, LocalDay(z, t), blocks) && Latest(blocks, t, f)
    ensures forall k :: 0 <= k < |blocks| ==> blocks[k].start > ZERO_TIME
    ensures Reading(ws, z, t) == if f.ok then Some(Boundary(f.best, f.off)) else None
    ensures Covered(blocks, t) <==> OffTimeline(ws, z, t)
  {
    var today := LocalDay(z, t);
    blocks := ViewOf(ws, z, today);
    f := LatestOf(blocks, t);
    ViewIsView(ws, z, today);
    LatestIsLatest(blocks, t);
    ViewIsRecent(ws, z, t, blocks);
  }

  lemma ViewIsRecent(ws: seq<Window>, z: Zone, t: int, blocks: seq<Interval>)
    requires Regular(z) && Recent(z, t) && IsView(ws, z, LocalDay(z, t), blocks)
    ensures forall k :: 0 <= k < |blocks| ==> blocks[k].start > ZERO_TIME
    ensures Covered(blocks, t) <==> OffTimeline(ws, z, t)
  {
    var today := LocalDay(z, t);
    ViewAgrees(ws, z, today, t);
    forall k | 0 <= k < |blocks|
      ensures blocks[k].start > ZERO_TIME
    {
      assert OpensInView(ws, z, today, blocks[k].start);
      var day, i :| Lists(ws, today, day, i) && Start(ws[i], z, day) == blocks[k].start;
      ListedSpan(ws, z, today, day, i);
    }
  }

  /** Where the last window to count vanished, LastBoundary reports its instant as a stop. */
  lemma ReadingStranded(ws: seq<Window>, z: Zone, t: int, e: int)
    requires Regular(z) && Recent(z, t) && Stranded(ws, z, LocalDay(z, t), t, e)
    ensures Reading(ws, z, t) == Some(Boundary(e, true)) && !OffTimeline(ws, z, t)
  {
    var blocks, f := ReadingInBlocks(ws, z, t);
    var k := StrandedIsEmptyLast(ws, z, LocalDay(z, t), blocks, t, e);
    var m :| 0 <= m < |blocks| && Marks(blocks[m], f.best, f.off);
    assert m == k;
  }

  /** Everywhere else it is the last change of the view, and nothing when the view holds none. */
  lemma ReadingIsLast(ws: seq<Window>, z: Zone, t: int, b: Boundary)
    requires Regular(z) && Recent(z, t) && !Vanished(ws, z, t)
    ensures Reading(ws, z, t) == Some(b) <==> IsLastInView(ws, z, LocalDay(z, t), t, b)
  {
    var today := LocalDay(z, t);
    var blocks, f := ReadingInBlocks(ws, z, t);
    if f.ok {
      MarkIsLast(ws, z, today, blocks, t, f);
      if IsLastInView(ws, z, today, t, b) {
        LastInViewUnique(ws, z, today, t, b, Boundary(f.best, f.off));
      }
    } else if IsLastInView(ws, z, today, t, b) {
      LastIsMarked(ws, z, today, blocks, t, b);
    }
  }

  lemma MarkIsLast(ws: seq<Window>, z: Zone, today: int, blocks: seq<Interval>, t: int, f: Found)
    requires Regular(z) && IsView(ws, z, today, blocks) && Latest(blocks, t, f) && f.ok
    requires forall e :: !Stranded(ws, z, today, t, e)
    ensures IsLastInView(ws, z, today, t, Boundary(f.best, f.off))
  {
    MarkOfLasting(ws, z, today, blocks, t, f);
    forall x | f.best - 1 <= x <= t
      ensures OffView(ws, z, today, x) <==> Covered(blocks, x)
    {
    }
  }

  lemma MarkOfLasting(ws: seq<Window>, z: Zone, today: int, blocks: seq<Interval>, t: int, f: Found)
    requires Regular(z) && IsView(ws, z, today, blocks) && Latest(blocks, t, f) && f.ok
    requires forall e :: !Stranded(ws, z, today, t, e)
    ensures Covered(blocks, f.best - 1) == !f.off && f.best <= t
    ensures forall x :: f.best <= x <= t ==> Covered(blocks, x) == f.off
  {
    var k :| 0 <= k < |blocks| && Marks(blocks[k], f.best, f.off);
    if EmptyLast(blocks, t, k) {
      EmptyLastIsStranded(ws, z, today, blocks, t, k);
    }
    MarkCovers(blocks, t, f, k);
  }

  lemma MarkCovers(blocks: seq<Interval>, t: int, f: Found, k: int)
    requires Blocks(blocks) && Latest(blocks, t, f) && f.ok && 0 <= k < |blocks| && Marks(blocks[k], f.best, f.off)
    requires blocks[k].start < blocks[k].end
    ensures Covered(blocks, f.best - 1) == !f.off
    ensures forall x :: f.best <= x <= t ==> Covered(blocks, x) == f.off
  {
    forall x | f.best <= x <= t
      ensures Covered(blocks, x) == f.off
    {
      if f.off {
        assert Holds(blocks[k], x);
      }
    }
    if !f.off {
      assert Holds(blocks[k], f.best - 1);
    }
  }

  lemma LastIsMarked(ws: seq<Window>, z: Zone, today: int, blocks: seq<Interval>, t: int, b: Boundary)
    requires IsView(ws, z, today, blocks) && IsLastInView(ws, z, today, t, b)
    ensures exists k :: 0 <= k < |blocks| && Marks(blocks[k], b.at, b.off)
  {
    assert OffView(ws, z, today, b.at) == b.off;
    assert OffView(ws, z, today, b.at) <==> Covered(blocks, b.at);
    assert OffView(ws, z, today, b.at - 1) <==> Covered(blocks, b.at - 1);
    var k :| 0 <= k < |blocks| && Holds(blocks[k], if b.off then b.at else b.at - 1);
    assert !Holds(blocks[k], if b.off then b.at - 1 else b.at);
    assert Marks(blocks[k], b.at, b.off);
  }

  ghost predicate ReadsLast(ws: seq<Window>, z: Zone, t: int, b: Boundary) {
    Reading(ws, z, t) == Some(b) <==> IsLastInView(ws, z, LocalDay(z, t), t, b)
  }

  /** LastBoundary is the view's last change if and only if no listed window vanished, unreached, with none opened since. */
  lemma LastBoundaryReads(ws: seq<Window>, z: Zone, t: int)
    requires Regular(z) && Recent(z, t)
    ensures (forall b :: ReadsLast(ws, z, t, b)) <==> !Vanished(ws, z, t)
  {
    if Vanished(ws, z, t) {
      var e :| Stranded(ws, z, LocalDay(z, t), t, e);
      ReadingStranded(ws, z, t, e);
      ViewAgrees(ws, z, LocalDay(z, t), t);
      assert !ReadsLast(ws, z, t, Boundary(e, true));
    } else {
      forall b
        ensures ReadsLast(ws, z, t, b)
      {
        ReadingIsLast(ws, z, t, b);
      }
    }
  }

  predicate ReadsOff(r: Option<Boundary>) {
    r.Some? && r.value.off
  }

  /** And Off agrees with LastBoundary under exactly the same condition. */
  lemma LastBoundaryAgreesWithOff(ws: seq<Window>, z: Zone, t: int)
    requires Regular(z) && Recent(z, t)
    ensures (OffTimeline(ws, z, t) <==> ReadsOff(Reading(ws, z, t))) <==> !Vanished(ws, z, t)
  {
    if Vanished(ws, z, t) {
      var e :| Stranded(ws, z, LocalDay(z, t), t, e);
      ReadingStranded(ws, z, t, e);
    } else {
      var r := Reading(ws, z, t);
      ViewAgrees(ws, z, LocalDay(z, t), t);
      if r.Some? {
        ReadingIsLast(ws, z, t, r.value);
      } else if OffTimeline(ws, z, t) {
        var c := ViewStart(ws, z, LocalDay(z, t), t);
        ReadingIsLast(ws, z, t, c);
      }
    }
  }

  // ---------- truncation ----------

  /** A boundary some listed window that lasts opens or closes at. */
  ghost predicate InReach(ws: seq<Window>, z: Zone, today: int, b: Boundary) {
    exists day, i :: Lists(ws, today, day, i) && MakesBoundary(ws, z, day, i, b)
  }

  predicate MakesBoundary(ws: seq<Window>, z: Zone, day: int, i: int, b: Boundary) {
    && Opens(ws, day, i) && Start(ws[i], z, day) < End(ws[i], z, day)
    && b.at == if b.off then Start(ws[i], z, day) else End(ws[i], z, day)
  }

  /** The timeline's last boundary is the view's exactly when a listed window makes it. */
  lemma LastIsInView(ws: seq<Window>, z: Zone, t: int, b: Boundary)
    requires Regular(z) && IsLast(ws, z, t, b)
    ensures IsLastInView(ws, z, LocalDay(z, t), t, b) <==> InReach(ws, z, LocalDay(z, t), b)
  {
    var today := LocalDay(z, t);
    if IsLastInView(ws, z, today, t, b) {
      assert OffView(ws, z, today, b.at) == b.off;
      var x := if b.off then b.at else b.at - 1;
      var day, i :| today - 2 <= day <= today + 1 && InWindow(ws, z, day, i, x);
      assert !InWindow(ws, z, day, i, if b.off then b.at - 1 else b.at);
      assert MakesBoundary(ws, z, day, i, b);
    }
    if InReach(ws, z, today, b) {
      var day, i :| Lists(ws, today, day, i) && MakesBoundary(ws, z, day, i, b);
      if b.off {
        WindowSpan(ws[i], z, day);
        StartInView(ws, z, t, b);
      } else {
        assert InWindow(ws, z, day, i, b.at - 1);
        EndInView(ws, z, t, b);
      }
    }
  }

  /** So LastBoundary is the true last boundary exactly when a listed window makes it and none has vanished since. */
  lemma LastBoundaryExact(ws: seq<Window>, z: Zone, t: int, b: Boundary)
    requires Regular(z) && Recent(z, t) && IsLast(ws, z, t, b)
    ensures Reading(ws, z, t) == Some(b) <==> InReach(ws, z, LocalDay(z, t), b) && !Vanished(ws, z, t)
  {
    LastIsInView(ws, z, t, b);
    if Vanished(ws, z, t) {
      var e :| Stranded(ws, z, LocalDay(z, t), t, e);
      ReadingStranded(ws, z, t, e);
      assert OffTimeline(ws, z, t) == b.off;
    } else {
      ReadingIsLast(ws, z, t, b);
    }
  }

  lemma StartInView(ws: seq<Window>, z: Zone, t: int, b: Boundary)
    requires Regular(z) && IsLast(ws, z, t, b) && b.off && LocalDay(z, b.at) >= LocalDay(z, t) - 2
    ensures IsLastInView(ws, z, LocalDay(z, t), t, b)
  {
    var today := LocalDay(z, t);
    forall x | b.at <= x <= t
      ensures OffView(ws, z, today, x)
    {
      assert OffTimeline(ws, z, x) && !OffTimeline(ws, z, b.at - 1);
      var day, i :| InWindow(ws, z, day, i, x);
      assert !InWindow(ws, z, day, i, b.at - 1);
      WindowSpan(ws[i], z, day);
      LocalDayMonotone(z, b.at, Start(ws[i], z, day));
      LocalDayMonotone(z, Start(ws[i], z, day), t);
    }
  }

  lemma EndInView(ws: seq<Window>, z: Zone, t: int, b: Boundary)
    requires IsLast(ws, z, t, b) && !b.off && OffView(ws, z, LocalDay(z, t), b.at - 1)
    ensures IsLastInView(ws, z, LocalDay(z, t), t, b)
  {
    forall x | b.at <= x <= t
      ensures !OffView(ws, z, LocalDay(z, t), x)
    {
      assert !OffTimeline(ws, z, x);
    }
  }

  /** A start on one of the last three local days, or an end since yesterday's midnight, is always in view. */
  lemma RecentIsInView(ws: seq<Window>, z: Zone, t: int, b: Boundary)
    requires Regular(z) && IsLast(ws, z, t, b)
    requires if b.off then LocalDay(z, b.at) >= LocalDay(z, t) - 2 else LocalDay(z, b.at) >= LocalDay(z, t) - 1
    ensures IsLastInView(ws, z, LocalDay(z, t), t, b)
  {
    if b.off {
      StartInView(ws, z, t, b);
    } else {
      var day, i :| InWindow(ws, z, day, i, b.at - 1);
      assert !OffTimeline(ws, z, b.at);
      assert !InWindow(ws, z, day, i, b.at);
      assert End(ws[i], z, day) == b.at;
      WindowSpan(ws[i], z, day);
      WindowDays(ws, z, day, i, b.at - 1);
      LocalDayMonotone(z, b.at - 1, t);
      EndInView(ws, z, t, b);
    }
  }

  lemma RecentBoundaryIsExact(ws: seq<Window>, z: Zone, t: int, b: Boundary)
    requires Regular(z) && Recent(z, t) && IsLast(ws, z, t, b)
    requires if b.off then LocalDay(z, b.at) >= LocalDay(z, t) - 2 else LocalDay(z, b.at) >= LocalDay(z, t) - 1
    ensures Reading(ws, z, t) == Some(b) <==> !Vanished(ws, z, t)
  {
    RecentIsInView(ws, z, t, b);
    LastIsInView(ws, z, t, b);
    LastBoundaryExact(ws, z, t, b);
  }

  // ---------- one tick ----------

  /** One row at one tick: the boundary to act on, if any, and the row's new last_boundary. */
  function Tick(ws: seq<Window>, z: Zone, last: Option<int>, now: int): (Option<int>, Option<Boundary>) {
    var r := Reading(ws, z, now);
    if r.None? || (last.Some? && r.value.at <= last.value) then (last, None) else (Some(r.value.at), r)
  }

  ghost predicate TrueBoundary(ws: seq<Window>, z: Zone, b: Boundary) {
    OffTimeline(ws, z, b.at - 1) != OffTimeline(ws, z, b.at) == b.off
  }

  /** A row's last_boundary leaves no boundary up to t to act on; none at all is due when the timeline has had none. */
  ghost predicate NoneDue(ws: seq<Window>, z: Zone, last: Option<int>, t: int) {
    && (last.Some? ==> last.value <= t)
    && forall b :: TrueBoundary(ws, z, b) && b.at <= t ==> last.Some? && b.at <= last.value
  }

  /** Nothing is due, or a tick at t would do nothing: as after every visit, whatever the row remembered before it. */
  ghost predicate CaughtUp(ws: seq<Window>, z: Zone, last: Option<int>, t: int) {
    NoneDue(ws, z, last, t) || ((last.Some? ==> last.value <= t) && Tick(ws, z, last, t).1.None?)
  }

  lemma TickCatchesUp(ws: seq<Window>, z: Zone, last: Option<int>, t: int)
    requires last.Some? ==> last.value <= t
    ensures CaughtUp(ws, z, Tick(ws, z, last, t).0, t)
  {
  }

  /** Off without a break since before the local midnight two days ago, where the list begins: whether or not the stretch
      ever started. */
  ghost predicate LongOff(ws: seq<Window>, z: Zone, t: int) {
    forall x :: Earliest(z, (LocalDay(z, t) - 2) * DAY) - 1 <= x <= t ==> OffTimeline(ws, z, x)
  }

  /** On without a break since just before a listed window that vanished. */
  ghost predicate VanishedSince(ws: seq<Window>, z: Zone, t: int) {
    exists day, i, e :: Vanishes(ws, z, LocalDay(z, t), day, i, e) && OnSince(ws, z, e, t)
  }

  ghost predicate OnSince(ws: seq<Window>, z: Zone, e: int, t: int) {
    e <= t && forall x :: e - 1 <= x <= t ==> !OffTimeline(ws, z, x)
  }

  /** When the hub can act although nothing is due. */
  ghost predicate Misfires(ws: seq<Window>, z: Zone, t: int) {
    LongOff(ws, z, t) || VanishedSince(ws, z, t)
  }

  ghost predicate NoneSince(ws: seq<Window>, z: Zone, at: int, t: int) {
    forall b :: TrueBoundary(ws, z, b) ==> !(at <= b.at <= t)
  }

  lemma SteadyHasNone(ws: seq<Window>, z: Zone, at: int, t: int, off: bool)
    requires forall x :: at - 1 <= x <= t ==> OffTimeline(ws, z, x) == off
    ensures NoneSince(ws, z, at, t)
  {
    forall b | TrueBoundary(ws, z, b)
      ensures !(at <= b.at <= t)
    {
      assert OffTimeline(ws, z, b.at - 1) != OffTimeline(ws, z, b.at);
    }
  }

  /** Between two instants that differ there is a boundary. */
  lemma ChangeBetween(ws: seq<Window>, z: Zone, x: int, t: int) returns (b: Boundary)
    requires x <= t && OffTimeline(ws, z, x) != OffTimeline(ws, z, t)
    ensures TrueBoundary(ws, z, b) && x < b.at <= t
    decreases t - x
  {
    if OffTimeline(ws, z, x + 1) != OffTimeline(ws, z, x) {
      b := Boundary(x + 1, OffTimeline(ws, z, x + 1));
    } else {
      b := ChangeBetween(ws, z, x + 1, t);
    }
  }

  /** There, the hub reads a stop since which nothing has changed. */
  lemma MisfireReads(ws: seq<Window>, z: Zone, t: int)
    requires Regular(z) && Recent(z, t) && Misfires(ws, z, t)
    ensures var r := Reading(ws, z, t);
            r.Some? && r.value.off && NoneSince(ws, z, r.value.at, t) && ZERO_TIME < r.value.at <= t
  {
    if LongOff(ws, z, t) {
      LongOffReads(ws, z, t);
    } else {
      VanishedReads(ws, z, t);
    }
  }

  lemma LongOffReads(ws: seq<Window>, z: Zone, t: int)
    requires Regular(z) && Recent(z, t) && LongOff(ws, z, t)
    ensures var r := Reading(ws, z, t);
            r.Some? && r.value.off && NoneSince(ws, z, r.value.at, t) && ZERO_TIME < r.value.at <= t
  {
    var today := LocalDay(z, t);
    MidnightSplits(z, t, today - 2);
    assert OffTimeline(ws, z, t);
    ViewAgrees(ws, z, today, t);
    var c := ViewStart(ws, z, today, t);
    if Vanished(ws, z, t) {
      var e :| Stranded(ws, z, today, t, e);
      ReadingStranded(ws, z, t, e);
    }
    ReadingIsLast(ws, z, t, c);
    SteadyHasNone(ws, z, c.at, t, true);
  }

  lemma VanishedReads(ws: seq<Window>, z: Zone, t: int)
    requires Regular(z) && Recent(z, t) && VanishedSince(ws, z, t)
    ensures var r := Reading(ws, z, t);
            r.Some? && r.value.off && NoneSince(ws, z, r.value.at, t) && ZERO_TIME < r.value.at <= t
  {
    var today := LocalDay(z, t);
    var day, i, e :| Vanishes(ws, z, today, day, i, e) && OnSince(ws, z, e, t);
    var blocks, f := ReadingInBlocks(ws, z, t);
    assert WindowTouches(ws, z, today, day, i, e);
    assert TouchView(ws, z, today, e);
    var k :| 0 <= k < |blocks| && Touches(blocks[k], e);
    var m :| 0 <= m < |blocks| && Marks(blocks[m], f.best, f.off);
    assert !f.off ==> Holds(blocks[m], f.best - 1);
    assert OffView(ws, z, today, f.best - 1) <==> Covered(blocks, f.best - 1);
    ViewWithin(ws, z, today, f.best - 1);
    SteadyHasNone(ws, z, f.best, t, false);
  }

  /** Everywhere else what it reads is followed, or made, by a boundary: a caught-up row has seen it. */
  lemma ReadingIsSeen(ws: seq<Window>, z: Zone, t: int)
    requires Regular(z) && Recent(z, t) && !Misfires(ws, z, t) && Reading(ws, z, t).Some?
    ensures exists b :: TrueBoundary(ws, z, b) && Reading(ws, z, t).value.at <= b.at <= t
  {
    var r := Reading(ws, z, t).value;
    if Vanished(ws, z, t) {
      var e :| Stranded(ws, z, LocalDay(z, t), t, e);
      ReadingStranded(ws, z, t, e);
      var day, i :| Vanishes(ws, z, LocalDay(z, t), day, i, e);
      assert !OnSince(ws, z, e, t);
      var x :| e - 1 <= x <= t && OffTimeline(ws, z, x);
      var b := ChangeBetween(ws, z, x, t);
    } else {
      ReadingIsLast(ws, z, t, r);
      LastIsSeen(ws, z, t, r);
    }
  }

  lemma LastIsSeen(ws: seq<Window>, z: Zone, t: int, r: Boundary)
    requires Regular(z) && !LongOff(ws, z, t) && IsLastInView(ws, z, LocalDay(z, t), t, r)
    ensures exists b :: TrueBoundary(ws, z, b) && r.at <= b.at <= t
  {
    var today := LocalDay(z, t);
    ViewAgrees(ws, z, today, t);
    ViewWithin(ws, z, today, r.at - 1);
    ViewWithin(ws, z, today, r.at);
    if !r.off {
      var b := ChangeBetween(ws, z, r.at - 1, t);
    } else if OffTimeline(ws, z, r.at - 1) {
      RunBeforeView(ws, z, t, r);
    } else {
      assert TrueBoundary(ws, z, r);
    }
  }

  /** An off stretch that the view cuts short goes back past the view's beginning. */
  lemma RunBeforeView(ws: seq<Window>, z: Zone, t: int, r: Boundary)
    requires Regular(z) && IsLastInView(ws, z, LocalDay(z, t), t, r) && r.off && OffTimeline(ws, z, r.at - 1)
    ensures LongOff(ws, z, t)
  {
    var today := LocalDay(z, t);
    var floor := Earliest(z, (today - 2) * DAY);
    var day, i :| InWindow(ws, z, day, i, r.at - 1);
    assert !OffView(ws, z, today, r.at - 1);
    WindowDays(ws, z, day, i, r.at - 1);
    LocalDayMonotone(z, r.at - 1, t);
    WindowSpan(ws[i], z, day);
    MidnightSplits(z, Start(ws[i], z, day), today - 2);
    forall x | floor - 1 <= x <= t
      ensures OffTimeline(ws, z, x)
    {
      if x < r.at {
        assert InWindow(ws, z, day, i, x);
      } else {
        ViewWithin(ws, z, today, x);
      }
    }
  }

  /** A tick with nothing due does nothing, whatever the row remembers, if and only if it does not misfire. */
  lemma SilentTickExact(ws: seq<Window>, z: Zone, t: int)
    requires Regular(z) && Recent(z, t)
    ensures (forall last :: SilentAt(ws, z, last, t)) <==> !Misfires(ws, z, t)
  {
    if Misfires(ws, z, t) {
      MisfireReads(ws, z, t);
      assert !SilentAt(ws, z, Some(Reading(ws, z, t).value.at - 1), t) by {
        BeforeIsCaughtUp(ws, z, Reading(ws, z, t).value.at, t);
      }
    } else {
      forall last
        ensures SilentAt(ws, z, last, t)
      {
        if Reading(ws, z, t).Some? {
          ReadingIsSeen(ws, z, t);
        }
      }
    }
  }

  ghost predicate SilentAt(ws: seq<Window>, z: Zone, last: Option<int>, t: int) {
    NoneDue(ws, z, last, t) ==> Tick(ws, z, last, t).1.None?
  }

  lemma BeforeIsCaughtUp(ws: seq<Window>, z: Zone, at: int, t: int)
    requires at <= t && NoneSince(ws, z, at, t)
    ensures NoneDue(ws, z, Some(at - 1), t)
  {
  }

  lemma ViewWithin(ws: seq<Window>, z: Zone, today: int, t: int)
    ensures OffView(ws, z, today, t) ==> OffTimeline(ws, z, t)
  {
  }

  lemma ViewFloor(ws: seq<Window>, z: Zone, today: int, t: int)
    requires Regular(z) && OffView(ws, z, today, t)
    ensures t >= Earliest(z, (today - 2) * DAY)
  {
    var day, i :| today - 2 <= day <= today + 1 && InWindow(ws, z, day, i, t);
    ListedSpan(ws, z, today, day, i);
  }

  /** Where the view's off stretch around t begins. */
  lemma ViewStart(ws: seq<Window>, z: Zone, today: int, t: int) returns (c: Boundary)
    requires Regular(z) && OffView(ws, z, today, t)
    ensures IsLastInView(ws, z, today, t, c) && c.off && c.at >= Earliest(z, (today - 2) * DAY)
    decreases t - Earliest(z, (today - 2) * DAY)
  {
    ViewFloor(ws, z, today, t);
    if OffView(ws, z, today, t - 1) {
      ViewFloor(ws, z, today, t - 1);
      c := ViewStart(ws, z, today, t - 1);
    } else {
      c := Boundary(t, true);
    }
  }

  // ---------- runs of minute ticks ----------

  datatype Call = Call(when: int, boundary: Boundary)

  /** The calls a run of ticks makes, in order. */
  function Calls(ws: seq<Window>, z: Zone, last: Option<int>, ticks: seq<int>): seq<Call>
    decreases |ticks|
  {
    if ticks == [] then []
    else
      var (last', call) := Tick(ws, z, last, ticks[0]);
      var rest := Calls(ws, z, last', ticks[1..]);
      if call.Some? then [Call(ticks[0], call.value)] + rest else rest
  }

  /** Ticks in order, each at most a minute after the one before. */
  predicate EveryMinute(since: int, ticks: seq<int>)
    decreases |ticks|
  {
    ticks == [] || (since <= ticks[0] <= since + MINUTE && EveryMinute(ticks[0], ticks[1..]))
  }

  function LastTick(since: int, ticks: seq<int>): int {
    if ticks == [] then since else ticks[|ticks| - 1]
  }

  /** Some window opens or closes at every true boundary. */
  lemma BoundaryHasWindow(ws: seq<Window>, z: Zone, b: Boundary) returns (day: int, i: int)
    requires TrueBoundary(ws, z, b)
    ensures MakesBoundary(ws, z, day, i, b)
  {
    day, i :| InWindow(ws, z, day, i, if b.off then b.at else b.at - 1);
    assert !InWindow(ws, z, day, i, if b.off then b.at - 1 else b.at);
  }

  lemma BoundaryOnTheMinute(ws: seq<Window>, z: Zone, b: Boundary)
    requires Regular(z) && WholeMinutes(z) && TrueBoundary(ws, z, b)
    ensures b.at % MINUTE == 0
  {
    var day, i := BoundaryHasWindow(ws, z, b);
    WindowOnTheMinute(ws[i], z, day);
  }

  lemma WindowOnTheMinute(w: Window, z: Zone, day: int)
    requires Regular(z) && WholeMinutes(z)
    ensures Start(w, z, day) % MINUTE == 0 && End(w, z, day) % MINUTE == 0
  {
    WindowEnds(w, z, day);
    ReadingOnTheMinute(day, From(w));
    ReadingOnTheMinute(if To(w) <= From(w) then day + 1 else day, To(w));
    EarliestOnTheMinute(z, OpensAt(w, day));
    EarliestOnTheMinute(z, ClosesAt(w, day));
  }

  lemma ReadingOnTheMinute(day: int, mins: int)
    ensures (day * DAY + mins * MINUTE) % MINUTE == 0
  {
    assert day * DAY + mins * MINUTE == (day * 1440 + mins) * MINUTE;
  }

  lemma EarliestOnTheMinute(z: Zone, w: int)
    requires WholeMinutes(z) && w % MINUTE == 0
    ensures Earliest(z, w) % MINUTE == 0
  {
  }

  lemma AtMostOneBoundary(a: int, b: int, c: int)
    requires b % MINUTE == 0 && c % MINUTE == 0 && a < b <= a + MINUTE && a < c <= a + MINUTE
    ensures b == c
  {
  }

  /** The last boundary after t and up to u, if there is one. */
  lemma NewBoundary(ws: seq<Window>, z: Zone, t: int, u: int) returns (c: Option<Boundary>)
    requires t <= u
    ensures c.Some? ==> TrueBoundary(ws, z, c.value) && IsLast(ws, z, u, c.value) && t < c.value.at
    ensures c.None? ==> NoneSince(ws, z, t + 1, u)
    decreases u - t
  {
    if t == u {
      c := None;
    } else if OffTimeline(ws, z, u) != OffTimeline(ws, z, u - 1) {
      c := Some(Boundary(u, OffTimeline(ws, z, u)));
    } else {
      c := NewBoundary(ws, z, t, u - 1);
      if c.None? {
        forall b | TrueBoundary(ws, z, b)
          ensures !(t + 1 <= b.at <= u)
        {
          assert !(t + 1 <= b.at <= u - 1);
        }
      }
    }
  }

  ghost predicate InOrder(calls: seq<Call>) {
    forall j, k :: 0 <= j < k < |calls| ==> calls[j].boundary.at < calls[k].boundary.at
  }

  ghost predicate ExactlyThese(ws: seq<Window>, z: Zone, calls: seq<Call>, after: int, until: int) {
    && InOrder(calls)
    && (forall c :: c in calls ==> TrueBoundary(ws, z, c.boundary) && after < c.boundary.at <= c.when < c.boundary.at + MINUTE)
    && (forall b :: TrueBoundary(ws, z, b) && after < b.at <= until ==> exists c :: c in calls && c.boundary == b)
  }

  ghost predicate NoMisfire(ws: seq<Window>, z: Zone, ticks: seq<int>) {
    forall k :: 0 <= k < |ticks| ==> !Misfires(ws, z, ticks[k])
  }

  /** Minute ticks of a caught-up row, none of them at an instant that misfires, act on every later boundary, once each, in
      order, the right way, within a minute, and never in between. */
  lemma {:induction false} TicksAreExact(ws: seq<Window>, z: Zone, since: int, last: Option<int>, ticks: seq<int>)
    requires Regular(z) && WholeMinutes(z) && Recent(z, since)
    requires CaughtUp(ws, z, last, since) && EveryMinute(since, ticks) && NoMisfire(ws, z, ticks)
    ensures ExactlyThese(ws, z, Calls(ws, z, last, ticks), since, LastTick(since, ticks))
    decreases |ticks|
  {
    if ticks != [] {
      var last' := Tick(ws, z, last, ticks[0]).0;
      var c := FirstTick(ws, z, since, last, ticks);
      TicksAreExact(ws, z, ticks[0], last', ticks[1..]);
      OneTickMore(ws, z, since, ticks[0], c, Calls(ws, z, last', ticks[1..]), LastTick(since, ticks));
    }
  }

  lemma FirstTick(ws: seq<Window>, z: Zone, since: int, last: Option<int>, ticks: seq<int>) returns (c: Option<Boundary>)
    requires Regular(z) && WholeMinutes(z) && Recent(z, since) && ticks != []
    requires CaughtUp(ws, z, last, since) && EveryMinute(since, ticks) && NoMisfire(ws, z, ticks)
    ensures var now := ticks[0];
            && since <= now <= since + MINUTE && Recent(z, now) && EveryMinute(now, ticks[1..]) && NoMisfire(ws, z, ticks[1..])
            && LastTick(now, ticks[1..]) == LastTick(since, ticks)
            && Tick(ws, z, last, now).1 == c && CaughtUp(ws, z, Tick(ws, z, last, now).0, now)
            && (c.Some? ==> TrueBoundary(ws, z, c.value) && since < c.value.at <= now)
            && forall x :: TrueBoundary(ws, z, x) && since < x.at <= now ==> c == Some(x)
  {
    c := NewBoundary(ws, z, since, ticks[0]);
    RestNoMisfire(ws, z, ticks);
    TickAt(ws, z, since, last, ticks[0], c);
  }

  lemma RestNoMisfire(ws: seq<Window>, z: Zone, ticks: seq<int>)
    requires ticks != [] && NoMisfire(ws, z, ticks)
    ensures NoMisfire(ws, z, ticks[1..]) && !Misfires(ws, z, ticks[0])
  {
    assert forall k :: 0 <= k < |ticks| - 1 ==> ticks[1..][k] == ticks[k + 1];
  }

  lemma OneTickMore(ws: seq<Window>, z: Zone, since: int, now: int, c: Option<Boundary>, rest: seq<Call>, until: int)
    requires since <= now <= since + MINUTE && ExactlyThese(ws, z, rest, now, until)
    requires c.Some? ==> TrueBoundary(ws, z, c.value) && since < c.value.at <= now
    requires forall x :: TrueBoundary(ws, z, x) && since < x.at <= now ==> c == Some(x)
    ensures ExactlyThese(ws, z, if c.Some? then [Call(now, c.value)] + rest else rest, since, until)
  {
    if c.Some? {
      TickThenRest(ws, z, since, now, c.value, rest, until);
    } else {
      QuietThenRest(ws, z, since, now, rest, until);
    }
  }

  /** While nothing changes, a caught-up row stays so. */
  lemma StillSilent(ws: seq<Window>, z: Zone, since: int, last: Option<int>, now: int)
    requires Regular(z) && Recent(z, since) && Recent(z, now) && CaughtUp(ws, z, last, since) && !Misfires(ws, z, now)
    requires since <= now <= since + MINUTE && NoneSince(ws, z, since + 1, now)
    ensures Tick(ws, z, last, now).1.None?
  {
    if NoneDue(ws, z, last, since) {
      SilentTickExact(ws, z, now);
      assert NoneDue(ws, z, last, now);
      assert SilentAt(ws, z, last, now);
    } else if Reading(ws, z, now).Some? {
      ReadBefore(ws, z, since, now, Reading(ws, z, now).value);
    }
  }

  /** What is read now, and was there a minute ago, was read then, or something later. */
  lemma ReadBefore(ws: seq<Window>, z: Zone, t: int, now: int, r: Boundary)
    requires Regular(z) && Recent(z, t) && Recent(z, now) && !Misfires(ws, z, now)
    requires t <= now <= t + MINUTE && NoneSince(ws, z, t + 1, now) && Reading(ws, z, now) == Some(r)
    ensures Reading(ws, z, t).Some? && r.at <= Reading(ws, z, t).value.at
  {
    ReadWasTouched(ws, z, t, now, r);
    var blocks, f := ReadingInBlocks(ws, z, t);
    var j :| 0 <= j < |blocks| && Touches(blocks[j], r.at);
    if blocks[j].end > t {
      BlockIsOff(ws, z, t, blocks, j);
      OffSince(ws, z, t, now, r);
    }
  }

  lemma ReadWasTouched(ws: seq<Window>, z: Zone, t: int, now: int, r: Boundary)
    requires Regular(z) && Recent(z, now) && !Misfires(ws, z, now)
    requires t <= now <= t + MINUTE && NoneSince(ws, z, t + 1, now) && Reading(ws, z, now) == Some(r)
    ensures r.at <= t && TouchView(ws, z, LocalDay(z, t), r.at)
  {
    ReadingIsSeen(ws, z, now);
    var day, i := ReadIsListed(ws, z, now, r);
    MinuteApart(z, t, now);
    WindowSpan(ws[i], z, day);
    LocalDayMonotone(z, Start(ws[i], z, day), t);
    LocalDayMonotone(z, t, now);
    assert WindowTouches(ws, z, LocalDay(z, t), day, i, r.at);
  }

  lemma BlockIsOff(ws: seq<Window>, z: Zone, t: int, blocks: seq<Interval>, j: int)
    requires IsView(ws, z, LocalDay(z, t), blocks) && 0 <= j < |blocks| && t < blocks[j].end
    ensures forall x :: blocks[j].start <= x <= t ==> OffTimeline(ws, z, x)
  {
    forall x | blocks[j].start <= x <= t
      ensures OffTimeline(ws, z, x)
    {
      assert Holds(blocks[j], x);
      assert OffView(ws, z, LocalDay(z, t), x);
      ViewWithin(ws, z, LocalDay(z, t), x);
    }
  }

  lemma ReadIsListed(ws: seq<Window>, z: Zone, t: int, r: Boundary) returns (day: int, i: int)
    requires Regular(z) && Recent(z, t) && Reading(ws, z, t) == Some(r)
    ensures Lists(ws, LocalDay(z, t), day, i) && r.at == if r.off then Start(ws[i], z, day) else End(ws[i], z, day)
  {
    var blocks, f := ReadingInBlocks(ws, z, t);
    var k :| 0 <= k < |blocks| && Marks(blocks[k], r.at, r.off);
    assert OpensInView(ws, z, LocalDay(z, t), blocks[k].start) && ClosesInView(ws, z, LocalDay(z, t), blocks[k].end);
    if r.off {
      day, i :| Lists(ws, LocalDay(z, t), day, i) && Start(ws[i], z, day) == r.at;
    } else {
      day, i :| Lists(ws, LocalDay(z, t), day, i) && End(ws[i], z, day) == r.at;
    }
  }

  lemma SteadyAgrees(ws: seq<Window>, z: Zone, x: int, t: int)
    requires x <= t && NoneSince(ws, z, x + 1, t)
    ensures OffTimeline(ws, z, x) == OffTimeline(ws, z, t)
  {
    if OffTimeline(ws, z, x) != OffTimeline(ws, z, t) {
      var b := ChangeBetween(ws, z, x, t);
    }
  }

  /** Off since what is read now: it is a start, and the timeline was on just before it. */
  lemma OffSince(ws: seq<Window>, z: Zone, t: int, now: int, r: Boundary)
    requires Regular(z) && Recent(z, now) && !Misfires(ws, z, now) && Reading(ws, z, now) == Some(r)
    requires r.at <= t <= now && NoneSince(ws, z, t + 1, now) && OffTimeline(ws, z, t)
    ensures !OffTimeline(ws, z, r.at - 1)
  {
    SteadyAgrees(ws, z, t, now);
    if Vanished(ws, z, now) {
      var e :| Stranded(ws, z, LocalDay(z, now), now, e);
      ReadingStranded(ws, z, now, e);
    }
    ReadingIsLast(ws, z, now, r);
    ViewAgrees(ws, z, LocalDay(z, now), now);
    if OffTimeline(ws, z, r.at - 1) {
      RunBeforeView(ws, z, now, r);
    }
  }

  /** One tick of a caught-up row: it acts on the new boundary, if there is one, and is caught up again. */
  lemma TickAt(ws: seq<Window>, z: Zone, since: int, last: Option<int>, now: int, c: Option<Boundary>)
    requires Regular(z) && WholeMinutes(z) && Recent(z, since) && CaughtUp(ws, z, last, since)
    requires since <= now <= since + MINUTE && !Misfires(ws, z, now)
    requires c.Some? ==> TrueBoundary(ws, z, c.value) && IsLast(ws, z, now, c.value) && since < c.value.at
    requires c.None? ==> NoneSince(ws, z, since + 1, now)
    ensures Recent(z, now) && Tick(ws, z, last, now).1 == c && CaughtUp(ws, z, Tick(ws, z, last, now).0, now)
    ensures forall x :: TrueBoundary(ws, z, x) && since < x.at <= now ==> c == Some(x)
  {
    RecentAdvances(z, since, now);
    if c.None? {
      StillSilent(ws, z, since, last, now);
    } else {
      FreshReading(ws, z, now, c.value);
      forall x | TrueBoundary(ws, z, x) && since < x.at <= now
        ensures c == Some(x)
      {
        BoundaryOnTheMinute(ws, z, x);
        BoundaryOnTheMinute(ws, z, c.value);
        AtMostOneBoundary(since, x.at, c.value.at);
      }
    }
  }

  /** A boundary less than a minute old is what LastBoundary returns, unless a window has vanished since it. */
  lemma FreshReading(ws: seq<Window>, z: Zone, now: int, c: Boundary)
    requires Regular(z) && Recent(z, now) && !VanishedSince(ws, z, now)
    requires IsLast(ws, z, now, c) && now - MINUTE < c.at
    ensures Reading(ws, z, now) == Some(c)
  {
    MinuteApart(z, c.at, now);
    RecentIsInView(ws, z, now, c);
    if Vanished(ws, z, now) {
      var e :| Stranded(ws, z, LocalDay(z, now), now, e);
      StrandedNotAfter(ws, z, now, c, e);
    }
    ReadingIsLast(ws, z, now, c);
  }

  /** A stranded window lies before no boundary of the view: it would have been on ever since. */
  lemma StrandedNotAfter(ws: seq<Window>, z: Zone, t: int, c: Boundary, e: int)
    requires Regular(z) && Recent(z, t) && Stranded(ws, z, LocalDay(z, t), t, e)
    requires IsLast(ws, z, t, c) && IsLastInView(ws, z, LocalDay(z, t), t, c)
    ensures VanishedSince(ws, z, t)
  {
    var today := LocalDay(z, t);
    ReadingStranded(ws, z, t, e);
    assert OffTimeline(ws, z, t) == c.off;
    EndBeforeStranded(ws, z, today, t, c, e);
    var day, i :| Vanishes(ws, z, today, day, i, e);
    assert OnSince(ws, z, e, t);
  }

  lemma EndBeforeStranded(ws: seq<Window>, z: Zone, today: int, t: int, c: Boundary, e: int)
    requires Stranded(ws, z, today, t, e) && IsLastInView(ws, z, today, t, c) && !c.off
    ensures c.at < e
  {
    assert OffView(ws, z, today, c.at - 1) && !OffView(ws, z, today, c.at);
    var day, i :| today - 2 <= day <= today + 1 && InWindow(ws, z, day, i, c.at - 1);
    assert !InWindow(ws, z, day, i, c.at);
    assert !OpensBetween(ws, z, today, day, i, e, t) && !Reaches(ws, z, today, day, i, e);
  }

  ghost predicate ExactFrom(ws: seq<Window>, z: Zone, since: int, last: Option<int>, ticks: seq<int>) {
    Recent(z, since) && CaughtUp(ws, z, last, since) && EveryMinute(since, ticks)
    ==> ExactlyThese(ws, z, Calls(ws, z, last, ticks), since, LastTick(since, ticks))
  }

  /** And that is as far as it goes: every run of ticks of every caught-up row is exact if and only if the schedule misfires
      at no instant. */
  lemma TicksExactIff(ws: seq<Window>, z: Zone)
    requires Regular(z) && WholeMinutes(z)
    ensures (forall since, last, ticks :: ExactFrom(ws, z, since, last, ticks)) <==> forall t :: Recent(z, t) ==> !Misfires(ws, z, t)
  {
    if t :| Recent(z, t) && Misfires(ws, z, t) {
      MisfireShows(ws, z, t);
    } else {
      forall since, last, ticks
        ensures ExactFrom(ws, z, since, last, ticks)
      {
        if Recent(z, since) && CaughtUp(ws, z, last, since) && EveryMinute(since, ticks) {
          TicksStayRecent(z, since, ticks);
          TicksAreExact(ws, z, since, last, ticks);
        }
      }
    }
  }

  lemma {:induction false} TicksStayRecent(z: Zone, since: int, ticks: seq<int>)
    requires Regular(z) && Recent(z, since) && EveryMinute(since, ticks)
    ensures forall k :: 0 <= k < |ticks| ==> Recent(z, ticks[k])
    decreases |ticks|
  {
    if ticks != [] {
      RecentAdvances(z, since, ticks[0]);
      TicksStayRecent(z, ticks[0], ticks[1..]);
      forall k | 0 <= k < |ticks|
        ensures Recent(z, ticks[k])
      {
        if k > 0 {
          assert ticks[1..][k - 1] == ticks[k];
        }
      }
    }
  }

  /** One tick is enough to show it: a caught-up row is stopped again. */
  lemma MisfireShows(ws: seq<Window>, z: Zone, t: int)
    requires Regular(z) && Recent(z, t) && Misfires(ws, z, t)
    ensures Reading(ws, z, t).Some?
    ensures var r := Reading(ws, z, t).value;
            && CaughtUp(ws, z, Some(r.at - 1), t) && r.off && !TrueBoundary(ws, z, r)
            && Calls(ws, z, Some(r.at - 1), [t]) == [Call(t, r)]
            && !ExactFrom(ws, z, t, Some(r.at - 1), [t])
  {
    MisfireReads(ws, z, t);
    var r := Reading(ws, z, t).value;
    BeforeIsCaughtUp(ws, z, r.at, t);
    var calls := Calls(ws, z, Some(r.at - 1), [t]);
    assert Tick(ws, z, Some(r.at - 1), t) == (Some(r.at), Some(r));
    assert Calls(ws, z, Some(r.at), [t][1..]) == [];
    assert calls == [Call(t, r)] + [];
    assert Call(t, r) in calls;
    assert EveryMinute(t, [t]);
  }

  lemma TickThenRest(ws: seq<Window>, z: Zone, since: int, now: int, c: Boundary, rest: seq<Call>, until: int)
    requires TrueBoundary(ws, z, c) && since < c.at <= now <= since + MINUTE
    requires forall x :: TrueBoundary(ws, z, x) && since < x.at <= now ==> Some(c) == Some(x)
    requires ExactlyThese(ws, z, rest, now, until)
    ensures ExactlyThese(ws, z, [Call(now, c)] + rest, since, until)
  {
    var calls := [Call(now, c)] + rest;
    assert calls[0] == Call(now, c) && calls[1..] == rest;
    forall x | TrueBoundary(ws, z, x) && since < x.at <= until
      ensures exists k :: k in calls && k.boundary == x
    {
      if x.at <= now {
        assert calls[0] in calls;
      } else {
        var k :| k in rest && k.boundary == x;
        assert k in calls;
      }
    }
  }

  lemma QuietThenRest(ws: seq<Window>, z: Zone, since: int, now: int, rest: seq<Call>, until: int)
    requires since <= now && ExactlyThese(ws, z, rest, now, until)
    requires forall x :: TrueBoundary(ws, z, x) ==> !(since < x.at <= now)
    ensures ExactlyThese(ws, z, rest, since, until)
  {
    forall x | TrueBoundary(ws, z, x) && since < x.at <= until
      ensures exists k :: k in rest && k.boundary == x
    {
      assert !(since < x.at <= now);
    }
  }

  lemma RecentAdvances(z: Zone, t: int, u: int)
    requires Regular(z) && Recent(z, t) && t <= u
    ensures Recent(z, u)
  {
    LocalDayMonotone(z, t, u);
  }

  lemma MinuteApart(z: Zone, t: int, u: int)
    requires Regular(z) && t <= u <= t + MINUTE
    ensures LocalDay(z, t) >= LocalDay(z, u) - 1
  {
  }
}
