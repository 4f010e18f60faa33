/**
 The delivery rows: one per transition and channel, and one per reminder. A row exists before anything is sent, which
 is what makes the queue survive a crash.
 */
module Deliveries {
  import opened Sets

  datatype State = Held | Pending | Sent | Failed

  /** What a row's message says: the kind of the event it carries, or that it repeats a fired one. */
  datatype Kind = Fired | Resolved | Reminder

  datatype EventRef = OfAlert(id: int) | OfGuardrail(id: int)

  datatype Delivery = Delivery(event: EventRef, channel: string, kind: Kind, state: State, attempts: nat, lastError: string,
                               createdAt: int, updatedAt: int)

  type Rows = map<int, Delivery>

  predicate Settled(d: Delivery) {
    d.state == Sent || d.state == Failed
  }

  function SpecRow(event: EventRef, channel: string, kind: Kind, held: bool, now: int): Delivery {
    Delivery(event, channel, kind, if held then Held else Pending, 0, "", now, now)
  }

  /** SQLite's next rowid: one more than the largest in use, so a purged largest id comes back. */
  function NextId(ids: set<int>): (id: int)
    ensures id !in ids && forall x :: x in ids ==> x < id
    ensures if ids == {} then id == 1 else id - 1 in ids
  {
    if ids == {} then 1
    else MaxOf(ids) + 1
  }

  function IdsIn(rows: Rows, st: State): set<int> {
    set id | id in rows && rows[id].state == st
  }

  /** The ids of the rows in a state, oldest first. */
  function StateIds(rows: Rows, st: State): (ids: seq<int>)
    ensures forall k :: 0 <= k < |ids| ==> ids[k] in rows && rows[ids[k]].state == st
    ensures forall j, k :: 0 <= j < k < |ids| ==> ids[j] < ids[k]
    ensures forall id :: id in rows && rows[id].state == st ==> id in ids
  {
    var ids := Ascending(IdsIn(rows, st));
    assert forall k :: 0 <= k < |ids| ==> ids[k] in ids;
    ids
  }

  // ---------- what the statements do ----------

  function Added(rows: Rows, d: Delivery): Rows {
    rows[NextId(rows.Keys) := d]
  }

  function Closed(rows: Rows, id: int, st: State, attempts: nat, reason: string, now: int): Rows {
    if id in rows then
      rows[id := rows[id].(state := st, attempts := attempts, lastError := reason, updatedAt := now)]
    else rows
  }

  function Released(rows: Rows, id: int, now: int): Rows {
    if id in rows && rows[id].state == Held then rows[id := rows[id].(state := Pending, updatedAt := now)] else rows
  }

  function Purged(rows: Rows, before: int): Rows {
    map id | id in rows && !(Settled(rows[id]) && rows[id].updatedAt < before) :: rows[id]
  }

  /** The deliveries table. */
  class DeliveryTable {
    var rows: Rows

    constructor ()
      ensures rows == map[]
    {
      rows := map[];
    }

    method AddDelivery(event: EventRef, channel: string, kind: Kind, held: bool, now: int) returns (id: int)
      modifies this
      ensures id == NextId(old(rows).Keys) && rows == Added(old(rows), SpecRow(event, channel, kind, held, now))
      ensures id !in old(rows) && (forall i :: i in old(rows) ==> i < id)
      ensures rows == old(rows)[id := Delivery(event, channel, kind, if held then Held else Pending, 0, "", now, now)]
    {
      id := NextId(rows.Keys);
      rows := rows[id := SpecRow(event, channel, kind, held, now)];
    }

    method MarkDeliverySent(id: int, now: int, attempts: nat)
      modifies this
      ensures rows == Closed(old(rows), id, Sent, attempts, "", now)
      ensures id in old(rows) ==>
                rows == old(rows)[id := old(rows)[id].(state := Sent, attempts := attempts, lastError := "", updatedAt := now)]
    {
      if id in rows {
        rows := rows[id := rows[id].(state := Sent, attempts := attempts, lastError := "", updatedAt := now)];
      }
    }

    method MarkDeliveryFailed(id: int, now: int, attempts: nat, reason: string)
      modifies this
      ensures rows == Closed(old(rows), id, Failed, attempts, reason, now)
      ensures id in old(rows) ==>
                rows == old(rows)[id := old(rows)[id].(state := Failed, attempts := attempts, lastError := reason, updatedAt := now)]
    {
      if id in rows {
        rows := rows[id := rows[id].(state := Failed, attempts := attempts, lastError := reason, updatedAt := now)];
      }
    }

    method ReleaseDelivery(id: int, now: int) returns (found: bool)
      modifies this
      ensures found == (id in old(rows) && old(rows)[id].state == Held)
      ensures rows == Released(old(rows), id, now)
      ensures rows == if found then old(rows)[id := old(rows)[id].(state := Pending, updatedAt := now)] else old(rows)
    {
      found := id in rows && rows[id].state == Held;
      if found {
        rows := rows[id := rows[id].(state := Pending, updatedAt := now)];
      }
    }

    method PurgeDeliveries(now: int, keep: int)
      modifies this
      ensures rows == Purged(old(rows), now - keep)
      ensures forall id :: id in rows
                <==> (id in old(rows) && !(old(rows)[id].state in {Sent, Failed} && old(rows)[id].updatedAt < now - keep))
      ensures forall id :: id in rows ==> rows[id] == old(rows)[id]
    {
      rows := map id | id in rows && !(Settled(rows[id]) && rows[id].updatedAt < now - keep) :: rows[id];
    }

    /** When a fired event was last repeated to anyone. */
    method LastReminder(event: EventRef) returns (found: bool, at: int)
      ensures found == (RemindersOf(rows, event) != {})
      ensures found ==> at in RemindersOf(rows, event) && forall t :: t in RemindersOf(rows, event) ==> t <= at
    {
      var times := RemindersOf(rows, event);
      if times == {} {
        return false, 0;
      }
      return true, MaxOf(times);
    }
  }

  function RemindersOf(rows: Rows, event: EventRef): set<int> {
    set id | id in rows && rows[id].event == event && rows[id].kind == Reminder :: rows[id].createdAt
  }
}
