/**
 The inventory: soft deletion scoped to the groups a sweep covered, and the orphan marks kept beside it.
 */
module Inventory {
  import opened Options
  import Sets

  /** What Azure says of a resource. */
  datatype Info = Info(armId: string, name: string, kind: string, group: string, location: string, flavour: string, sku: string,
                       state: Option<string>, provisioning: string, host: string, tags: map<string, string>)

  datatype Found = Found(id: string, info: Info)

  datatype Resource = Resource(info: Info, firstSeen: int, lastSeen: int, deletedAt: Option<int>, orphanReason: string,
                               orphanSince: Option<int>)

  type Rows = map<string, Resource>

  function LowerChar(c: char): char {
    if 'A' <= c <= 'Z' then c - 'A' + 'a' else c
  }

  function Lower(s: string): (r: string)
    ensures |r| == |s|
  {
    if s == "" then "" else Lower(s[..|s| - 1]) + [LowerChar(s[|s| - 1])]
  }

  /** The same letter, whatever its case, or the same character. */
  predicate SameLetter(c: char, d: char) {
    c == d || ('A' <= c <= 'Z' && d as int == c as int + 32) || ('A' <= d <= 'Z' && c as int == d as int + 32)
  }

  predicate SameName(a: string, b: string) {
    |a| == |b| && forall i :: 0 <= i < |a| ==> SameLetter(a[i], b[i])
  }

  lemma {:induction false} LowerAt(s: string, i: nat)
    requires i < |s|
    ensures Lower(s)[i] == LowerChar(s[i])
  {
    if i < |s| - 1 {
      LowerAt(s[..|s| - 1], i);
    }
  }

  lemma SameLower(c: char, d: char)
    ensures LowerChar(c) == LowerChar(d) <==> SameLetter(c, d)
  {
  }

  /** Names compare without regard to case, and with regard to everything else. */
  lemma LowerIsCaseBlind(a: string, b: string)
    ensures Lower(a) == Lower(b) <==> SameName(a, b)
  {
    if |a| == |b| {
      forall i | 0 <= i < |a|
        ensures Lower(a)[i] == Lower(b)[i] <==> SameLetter(a[i], b[i])
      {
        LowerAt(a, i);
        LowerAt(b, i);
        SameLower(a[i], b[i]);
      }
    }
  }

  predicate Covers(groups: seq<string>, group: string) {
    exists i :: 0 <= i < |groups| && Lower(groups[i]) == Lower(group)
  }

  /** first_seen is kept, last_seen moves, and a resource that comes back comes back to life. */
  function Refreshed(rows: Rows, f: Found, now: int): Resource {
    if f.id in rows then rows[f.id].(info := f.info, lastSeen := now, deletedAt := None)
    else Resource(f.info, now, now, None, "", None)
  }

  function Upserted(rows: Rows, f: Found, now: int): Rows {
    rows[f.id := Refreshed(rows, f, now)]
  }

  function UpsertedAll(rows: Rows, found: seq<Found>, now: int): Rows {
    if found == [] then rows else Upserted(UpsertedAll(rows, found[..|found| - 1], now), found[|found| - 1], now)
  }

  function SweptRow(r: Resource, groups: seq<string>, now: int): Resource {
    if r.deletedAt.None? && r.lastSeen < now && Covers(groups, r.info.group) then r.(deletedAt := Some(now)) else r
  }

  function Replaced(rows: Rows, groups: seq<string>, found: seq<Found>, now: int): Rows {
    var seen := UpsertedAll(rows, found, now);
    map id | id in seen :: SweptRow(seen[id], groups, now)
  }

  /** orphan_since outlives a pass that says the same again. */
  function MarkedRow(r: Resource, reason: Option<string>, now: int): Resource {
    if reason.Some? then
      r.(orphanReason := reason.value,
         orphanSince := if r.orphanReason != "" && r.orphanReason == reason.value && r.orphanSince.Some? then r.orphanSince
                        else Some(now))
    else if r.deletedAt.None? then r.(orphanReason := "", orphanSince := None)
    else r
  }

  /** A resource with a reason has it, since this pass unless it had the same one before; one without has none, unless it is
      deleted, when its last one stays. Nothing else of it changes. */
  predicate OrphanSays(r: Resource, r': Resource, reasons: map<string, string>, id: string, now: int) {
    && r' == r.(orphanReason := r'.orphanReason, orphanSince := r'.orphanSince)
    && if id in reasons then
         && r'.orphanReason == reasons[id]
         && (r'.orphanSince == if reasons[id] != "" && r.orphanReason == reasons[id] && r.orphanSince.Some? then r.orphanSince
                               else Some(now))
       else if r.deletedAt.None? then r'.orphanReason == "" && r'.orphanSince == None
       else r' == r
  }

  function ReasonFor(reasons: map<string, string>, id: string): Option<string> {
    if id in reasons then Some(reasons[id]) else None
  }

  function Marked(rows: Rows, reasons: map<string, string>, now: int): Rows {
    map id | id in rows :: MarkedRow(rows[id], ReasonFor(reasons, id), now)
  }

  /** The azure_resources table; each method is one transaction. */
  class InventoryTable {
    var rows: Rows

    constructor ()
      ensures rows == map[]
    {
      rows := map[];
    }

    method ReplaceAzureInventory(groups: seq<string>, found: seq<Found>, now: int)
      modifies this
      ensures rows == Replaced(old(rows), groups, found, now)
      ensures forall id :: SweepSays(old(rows), rows, groups, found, now, id)
    {
      forall id
        ensures SweepSays(rows, Replaced(rows, groups, found, now), groups, found, now, id)
      {
        ReplacedSays(rows, groups, found, now, id);
      }
      for i := 0 to |found|
        invariant rows == UpsertedAll(old(rows), found[..i], now)
      {
        assert found[..i + 1][..i] == found[..i];
        var f := found[i];
        var first, reason, since := now, "", None;
        if f.id in rows {
          first, reason, since := rows[f.id].firstSeen, rows[f.id].orphanReason, rows[f.id].orphanSince;
        }
        rows := rows[f.id := Resource(f.info, first, now, None, reason, since)];
      }
      assert found[..|found|] == found;
      if |groups| > 0 {
        rows := map id | id in rows :: SweptRow(rows[id], groups, now);
      }
    }

    method SetAzureOrphans(reasons: map<string, string>, now: int)
      modifies this
      ensures rows == Marked(old(rows), reasons, now)
      ensures rows.Keys == old(rows).Keys && forall id :: id in rows ==> OrphanSays(old(rows)[id], rows[id], reasons, id, now)
    {
      ghost var was := rows;
      var before := rows;
      rows := map id | id in rows :: MarkedRow(rows[id], None, now);
      var ids := reasons.Keys;
      while ids != {}
        invariant ids <= reasons.Keys && rows.Keys == was.Keys
        invariant forall id :: id in rows ==> rows[id] == MarkedRow(was[id], if id in ids then None else ReasonFor(reasons, id), now)
      {
        Sets.SomeMember(ids);
        var id :| id in ids;
        ids := ids - {id};
        if id in rows {
          var since := Some(now);
          if before[id].orphanReason != "" && before[id].orphanReason == reasons[id] && before[id].orphanSince.Some? {
            since := before[id].orphanSince;
          }
          rows := rows[id := rows[id].(orphanReason := reasons[id], orphanSince := since)];
        }
      }
    }
  }

  predicate LastOf(found: seq<Found>, id: string, j: int) {
    0 <= j < |found| && found[j].id == id && forall m :: j < m < |found| ==> found[m].id != id
  }

  /** What a successful sweep makes of one resource: as last listed and alive when it was seen; else gone when it was alive, not
      seen since, and of a group covered; else as it was. */
  ghost predicate SweepSays(rows: Rows, rows': Rows, groups: seq<string>, found: seq<Found>, now: int, id: string) {
    if j :| LastOf(found, id, j) then
      id in rows' && rows'[id] == if id in rows then rows[id].(info := found[j].info, lastSeen := now, deletedAt := None)
                                  else Resource(found[j].info, now, now, None, "", None)
    else if id in rows && rows[id].deletedAt.None? && rows[id].lastSeen < now
            && exists i :: 0 <= i < |groups| && SameName(groups[i], rows[id].info.group) then
      id in rows' && rows'[id] == rows[id].(deletedAt := Some(now))
    else (id in rows' <==> id in rows) && (id in rows ==> rows'[id] == rows[id])
  }

  lemma CoversByName(groups: seq<string>, group: string)
    ensures Covers(groups, group) <==> exists i :: 0 <= i < |groups| && SameName(groups[i], group)
  {
    forall i | 0 <= i < |groups|
      ensures Lower(groups[i]) == Lower(group) <==> SameName(groups[i], group)
    {
      LowerIsCaseBlind(groups[i], group);
    }
  }

  lemma {:induction false} LastInfoIsLast(found: seq<Found>, id: string, j: nat)
    requires LastOf(found, id, j)
    ensures LastInfo(found, id) == Some(found[j].info)
  {
    if j < |found| - 1 {
      LastInfoIsLast(found[..|found| - 1], id, j);
    }
  }

  lemma {:induction false} LastListed(found: seq<Found>, id: string) returns (j: nat)
    requires LastInfo(found, id).Some?
    ensures LastOf(found, id, j)
  {
    j := |found| - 1;
    if found[j].id != id {
      j := LastListed(found[..|found| - 1], id);
    }
  }

  lemma ReplacedSays(rows: Rows, groups: seq<string>, found: seq<Found>, now: int, id: string)
    ensures SweepSays(rows, Replaced(rows, groups, found, now), groups, found, now, id)
  {
    UpsertedAt(rows, found, now, id);
    if LastInfo(found, id).Some? {
      var last := LastListed(found, id);
      ListedSays(rows, groups, found, now, id, last);
    } else {
      forall j
        ensures !LastOf(found, id, j)
      {
        if LastOf(found, id, j) {
          LastInfoIsLast(found, id, j);
        }
      }
      if id in rows {
        CoversByName(groups, rows[id].info.group);
      }
    }
  }

  lemma ListedSays(rows: Rows, groups: seq<string>, found: seq<Found>, now: int, id: string, last: nat)
    requires LastOf(found, id, last)
    requires var rows' := UpsertedAll(rows, found, now);
             LastInfo(found, id).Some? && id in rows' && rows'[id] == Refreshed(rows, Found(id, LastInfo(found, id).value), now)
    ensures SweepSays(rows, Replaced(rows, groups, found, now), groups, found, now, id)
  {
    forall j | LastOf(found, id, j)
      ensures LastInfo(found, id) == Some(found[j].info)
    {
      LastInfoIsLast(found, id, j);
    }
  }

  // ---------- runs of sweeps ----------

  /** One sweep: whether every call of it succeeded, what it covered and saw, and when. A failed one changes nothing. */
  datatype Sweep = Sweep(ok: bool, groups: seq<string>, found: seq<Found>, at: int)

  function After(sweeps: seq<Sweep>): Rows {
    if sweeps == [] then map[]
    else
      var s := sweeps[|sweeps| - 1];
      var before := After(sweeps[..|sweeps| - 1]);
      if s.ok then Replaced(before, s.groups, s.found, s.at) else before
  }

  predicate InOrder(sweeps: seq<Sweep>) {
    forall i, j :: 0 <= i < j < |sweeps| ==> sweeps[i].at < sweeps[j].at
  }

  /** A sweep only sees resources of the groups it covers, and a resource belongs to one group: its id says which. */
  ghost predicate Scoped(sweeps: seq<Sweep>, home: string -> string) {
    forall i, j :: 0 <= i < |sweeps| && 0 <= j < |sweeps[i].found| ==> SeenAtHome(sweeps[i], j, home)
  }

  predicate SeenAtHome(s: Sweep, j: int, home: string -> string)
    requires 0 <= j < |s.found|
  {
    Lower(s.found[j].info.group) == home(s.found[j].id) && CoversHome(s, home(s.found[j].id))
  }

  predicate CoversHome(s: Sweep, group: string) {
    exists i :: 0 <= i < |s.groups| && Lower(s.groups[i]) == group
  }

  predicate Saw(s: Sweep, id: string) {
    exists j :: 0 <= j < |s.found| && s.found[j].id == id
  }

  /** The last successful sweep of a group, and the first that saw a resource. */
  function LastCovering(sweeps: seq<Sweep>, group: string): Option<Sweep> {
    if sweeps == [] then None
    else
      var s := sweeps[|sweeps| - 1];
      if s.ok && CoversHome(s, group) then Some(s) else LastCovering(sweeps[..|sweeps| - 1], group)
  }

  function FirstSighting(sweeps: seq<Sweep>, id: string): Option<int> {
    if sweeps == [] then None
    else
      var s := sweeps[|sweeps| - 1];
      var before := FirstSighting(sweeps[..|sweeps| - 1], id);
      if before.None? && s.ok && Saw(s, id) then Some(s.at) else before
  }

  function LastInfo(found: seq<Found>, id: string): Option<Info> {
    if found == [] then None
    else if found[|found| - 1].id == id then Some(found[|found| - 1].info)
    else LastInfo(found[..|found| - 1], id)
  }

  predicate IsLive(rows: Rows, id: string) {
    id in rows && rows[id].deletedAt.None?
  }

  /** What the table has to say of one resource after a run of sweeps. */
  ghost predicate Tells(rows: Rows, sweeps: seq<Sweep>, home: string -> string, id: string) {
    var last := LastCovering(sweeps, home(id));
    var first := FirstSighting(sweeps, id);
    && (id in rows <==> first.Some?)
    && (id in rows ==> rows[id].firstSeen == first.value && Lower(rows[id].info.group) == home(id))
    && (IsLive(rows, id) <==> last.Some? && Saw(last.value, id))
    && (IsLive(rows, id) ==> rows[id].lastSeen == last.value.at && LastInfo(last.value.found, id) == Some(rows[id].info))
    && (id in rows && sweeps != [] ==> rows[id].lastSeen <= sweeps[|sweeps| - 1].at)
  }

  /** Upserting a list: the resources it names, with what it last says of them; all others as they were. */
  lemma {:induction false} UpsertedAt(rows: Rows, found: seq<Found>, now: int, id: string)
    ensures var rows' := UpsertedAll(rows, found, now);
            var info := LastInfo(found, id);
            && (info.None? ==> (id in rows' <==> id in rows) && (id in rows ==> rows'[id] == rows[id]))
            && (info.Some? ==> id in rows' && rows'[id] == Refreshed(rows, Found(id, info.value), now))
  {
    if found != [] {
      UpsertedAt(rows, found[..|found| - 1], now, id);
    }
  }

  lemma {:induction false} LastInfoIsFound(found: seq<Found>, id: string)
    ensures LastInfo(found, id).Some? ==> exists j :: 0 <= j < |found| && found[j] == Found(id, LastInfo(found, id).value)
    ensures forall j :: 0 <= j < |found| && found[j].id == id ==> LastInfo(found, id).Some?
  {
    if found != [] {
      var n := |found| - 1;
      LastInfoIsFound(found[..n], id);
      if found[n].id == id {
        assert found[n] == Found(id, LastInfo(found, id).value);
      } else if LastInfo(found, id).Some? {
        var j :| 0 <= j < n && found[..n][j] == Found(id, LastInfo(found, id).value);
        assert found[j] == Found(id, LastInfo(found, id).value);
      }
      forall j | 0 <= j < |found| && found[j].id == id
        ensures LastInfo(found, id).Some?
      {
        assert j < n ==> found[..n][j].id == id;
      }
    }
  }

  lemma SeenIsCovered(sweeps: seq<Sweep>, home: string -> string, k: nat, id: string)
    requires Scoped(sweeps, home) && k < |sweeps|
    ensures Saw(sweeps[k], id) ==> CoversHome(sweeps[k], home(id))
  {
    if j :| 0 <= j < |sweeps[k].found| && sweeps[k].found[j].id == id {
      assert SeenAtHome(sweeps[k], j, home);
    }
  }

  lemma SweepTells(rows: Rows, sweeps: seq<Sweep>, s: Sweep, home: string -> string, id: string)
    requires Tells(rows, sweeps, home, id) && Scoped(sweeps + [s], home) && InOrder(sweeps + [s])
    ensures Tells(if s.ok then Replaced(rows, s.groups, s.found, s.at) else rows, sweeps + [s], home, id)
  {
    var all := sweeps + [s];
    assert all[..|sweeps|] == sweeps && all[|sweeps|] == s;
    if sweeps != [] {
      assert all[|sweeps| - 1].at < all[|sweeps|].at;
    }
    if s.ok {
      UpsertedAt(rows, s.found, s.at, id);
      LastInfoIsFound(s.found, id);
      if LastInfo(s.found, id).Some? {
        var j :| 0 <= j < |s.found| && s.found[j] == Found(id, LastInfo(s.found, id).value);
        assert SeenAtHome(all[|sweeps|], j, home);
      } else if id in rows {
        CoveredHome(s, rows[id].info.group, home(id));
      }
    }
  }

  lemma CoveredHome(s: Sweep, group: string, home: string)
    requires Lower(group) == home
    ensures Covers(s.groups, group) <==> CoversHome(s, home)
  {
  }

  /** Over any run of sweeps, failed ones anywhere and group lists changing: a resource is live exactly when the last
      successful sweep of its group saw it, as that sweep saw it; and it was first seen when first seen. */
  lemma {:induction false} LiveIsLastView(sweeps: seq<Sweep>, home: string -> string, id: string)
    requires Scoped(sweeps, home) && InOrder(sweeps)
    ensures Tells(After(sweeps), sweeps, home, id)
  {
    if sweeps != [] {
      var n := |sweeps| - 1;
      var before := sweeps[..n];
      assert sweeps == before + [sweeps[n]];
      forall i, j | 0 <= i < |before| && 0 <= j < |before[i].found|
        ensures SeenAtHome(before[i], j, home)
      {
        assert SeenAtHome(sweeps[i], j, home);
      }
      LiveIsLastView(before, home, id);
      SweepTells(After(before), before, sweeps[n], home, id);
    }
  }

  /** A sweep leaves the resources of every group it does not cover as they were. */
  lemma OtherGroupsUntouched(sweeps: seq<Sweep>, home: string -> string, id: string)
    requires sweeps != [] && Scoped(sweeps, home) && InOrder(sweeps) && !CoversHome(sweeps[|sweeps| - 1], home(id))
    ensures var n := |sweeps| - 1;
            && (id in After(sweeps) <==> id in After(sweeps[..n]))
            && (id in After(sweeps) ==> After(sweeps)[id] == After(sweeps[..n])[id])
  {
    var n := |sweeps| - 1;
    var s := sweeps[n];
    forall i, j | 0 <= i < n && 0 <= j < |sweeps[..n][i].found|
      ensures SeenAtHome(sweeps[..n][i], j, home)
    {
      assert SeenAtHome(sweeps[i], j, home);
    }
    LiveIsLastView(sweeps[..n], home, id);
    UpsertedAt(After(sweeps[..n]), s.found, s.at, id);
    LastInfoIsFound(s.found, id);
    SeenIsCovered(sweeps, home, n, id);
  }

  // ---------- orphan marks ----------

  /** What successive passes say of one live resource. */
  datatype Pass = Pass(reason: Option<string>, at: int)

  function Passed(r: Resource, passes: seq<Pass>): Resource {
    if passes == [] then r
    else MarkedRow(Passed(r, passes[..|passes| - 1]), passes[|passes| - 1].reason, passes[|passes| - 1].at)
  }

  /** orphan_since is when the current reason was first found, however often it was found again since. */
  lemma {:induction false} SinceIsFirstFound(r: Resource, passes: seq<Pass>, from: nat, reason: string)
    requires from < |passes| && reason != "" && r.deletedAt.None?
    requires forall k :: from <= k < |passes| ==> passes[k].reason == Some(reason)
    requires from == 0 ==> r.orphanReason != reason
    requires from > 0 ==> passes[from - 1].reason != Some(reason)
    ensures Passed(r, passes).orphanReason == reason && Passed(r, passes).orphanSince == Some(passes[from].at)
  {
    var n := |passes| - 1;
    if from < n {
      SinceIsFirstFound(r, passes[..n], from, reason);
    } else if from > 0 {
      LastReason(r, passes[..n]);
    }
  }

  lemma {:induction false} LastReason(r: Resource, passes: seq<Pass>)
    requires r.deletedAt.None?
    ensures Passed(r, passes).deletedAt.None?
    ensures passes != [] ==>
              var last := passes[|passes| - 1].reason;
              Passed(r, passes).orphanReason == if last.Some? then last.value else ""
  {
    if passes != [] {
      LastReason(r, passes[..|passes| - 1]);
    }
  }
}
