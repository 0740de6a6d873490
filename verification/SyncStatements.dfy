/**
What the statements and triggers do to the client database, one table at a
time, spelled out in rows, queue items and metadata rows.
*/
module SyncStatements {
  import opened Wrappers
  import opened SyncStore
  import opened SyncApplier
  import opened SyncPush

  // ---- metadata rows ----------------------------------------------------------------------------

  ghost predicate StoredBy(m: Meta, k: Key) { m.table == k.table && m.entityId == k.id }

  ghost predicate CreatedAs(m: Meta, k: Key) { m.table == k.table && m.localId == k.id }

  ghost predicate HasStored(ms: seq<Meta>, k: Key) { exists i :: 0 <= i < |ms| && StoredBy(ms[i], k) }

  ghost predicate HasCreated(ms: seq<Meta>, k: Key) { exists i :: 0 <= i < |ms| && CreatedAs(ms[i], k) }

  /** The metadata after the row stored as `k` changed by hand: one row of it, and a new one for a new name. */
  ghost predicate MarkedWritten(
      ms: seq<Meta>, ms': seq<Meta>, k: Key, operation: Operation, status: MetaStatus) {
    if HasStored(ms, k) then
      exists i :: 0 <= i < |ms| && StoredBy(ms[i], k) &&
        ms' == ms[i := Meta(k.table, ms[i].localId, k.id, ms[i].remoteId, operation, status, ms[i].retries)]
    else ms' == ms + [Meta(k.table, k.id, k.id, None, operation, status, 0)]
  }

  /** And after it was pulled: the server's id is the name it is stored under. */
  ghost predicate MarkedPulled(ms: seq<Meta>, ms': seq<Meta>, k: Key, status: MetaStatus) {
    if HasStored(ms, k) then
      exists i :: 0 <= i < |ms| && StoredBy(ms[i], k) &&
        ms' == ms[i := Meta(k.table, ms[i].localId, k.id, Some(k.id), ms[i].operation, status, ms[i].retries)]
    else if HasCreated(ms, k) then
      exists i :: 0 <= i < |ms| && CreatedAs(ms[i], k) &&
        ms' == ms[i := Meta(k.table, k.id, k.id, Some(k.id), ms[i].operation, status, ms[i].retries)]
    else
      ms' == ms + [Meta(k.table, k.id, k.id, Some(k.id), if status == Deleted then Delete else Insert, status, 0)]
  }

  /** And after a push of it was refused; a row that is deleted stays so. */
  ghost predicate MarkedRefused(ms: seq<Meta>, ms': seq<Meta>, lk: Key) {
    if HasCreated(ms, lk) then
      exists i :: 0 <= i < |ms| && CreatedAs(ms[i], lk) &&
        ms' == ms[i := Meta(lk.table, lk.id, ms[i].entityId, ms[i].remoteId, ms[i].operation,
                            if ms[i].status == Deleted then Deleted else SyncFailed, ms[i].retries + 1)]
    else ms' == ms
  }

  /** And after its answer was taken. */
  ghost predicate MarkedAnswered(ms: seq<Meta>, ms': seq<Meta>, lk: Key, newId: Id) {
    if HasCreated(ms, lk) then
      exists i :: 0 <= i < |ms| && CreatedAs(ms[i], lk) &&
        ms' == ms[i := Meta(lk.table, lk.id, newId, Some(newId), ms[i].operation, Synced, ms[i].retries)]
    else ms' == ms
  }

  lemma PullMarks(ms: seq<Meta>, k: Key, status: MetaStatus)
    ensures MarkedPulled(ms, MarkPulledSynced(ms, k, status), k, status)
  {
    FoundStored(ms, k);
    FoundCreated(ms, k);
  }

  lemma RefusalMarks(ms: seq<Meta>, lk: Key)
    ensures MarkedRefused(ms, MarkMetaFailed(ms, lk), lk)
  {
    FoundCreated(ms, lk);
  }

  /** Taking an answer fails exactly when two different rows would be stored under the answered id. */
  lemma AnswerMarks(ms: seq<Meta>, lk: Key, newId: Id)
    ensures MarkReplaced(ms, lk, newId).Some? ==> MarkedAnswered(ms, MarkReplaced(ms, lk, newId).value, lk, newId)
    ensures MarkReplaced(ms, lk, newId).None? ==> HasCreated(ms, lk) && HasStored(ms, Key(lk.table, newId))
    ensures HasCreated(ms, lk) && (forall i :: 0 <= i < |ms| && StoredBy(ms[i], Key(lk.table, newId)) ==>
                                     !CreatedAs(ms[i], lk)) && HasStored(ms, Key(lk.table, newId)) ==>
              MarkReplaced(ms, lk, newId).None?
  {
    FoundCreated(ms, lk);
    FoundStored(ms, Key(lk.table, newId));
  }

  lemma FoundStored(ms: seq<Meta>, k: Key)
    ensures FindEntity(ms, k).Some? <==> HasStored(ms, k)
    ensures FindEntity(ms, k).Some? ==> StoredBy(ms[FindEntity(ms, k).value], k)
  {
    var i := FindEntity(ms, k);
    if i.None? {
      assert forall j :: 0 <= j < |ms| ==> !StoredBy(ms[j], k);
    }
  }

  lemma FoundCreated(ms: seq<Meta>, k: Key)
    ensures FindLocal(ms, k).Some? <==> HasCreated(ms, k)
    ensures FindLocal(ms, k).Some? ==> CreatedAs(ms[FindLocal(ms, k).value], k)
  {
    var i := FindLocal(ms, k);
    if i.None? {
      assert forall j :: 0 <= j < |ms| ==> !CreatedAs(ms[j], k);
    }
  }

  // ---- writes of the application ----------------------------------------------------------------

  /** The rows after a write. */
  ghost function RowsAfter(rows: map<Key, Row>, w: Write): map<Key, Row> {
    match w
    case InsertW(k, row) => rows[k := row]
    case UpdateW(k, cells) => if k in rows then rows[k := rows[k] + cells] else rows
    case DeleteW(k) => rows - {k}
  }

  /** A row is there to be changed, and the trigger of its table watches it. */
  ghost predicate Fires(s: Schema, db: Db, w: Write) {
    !db.locked && s.synced(w.key.table) && (w.InsertW? || w.key in db.rows)
  }

  /** It deletes the row, or leaves it with the time of a deletion. */
  ghost predicate Buries(db: Db, w: Write) {
    w.DeleteW? || (w.UpdateW? && w.key in db.rows && HasTombstone(RowsAfter(db.rows, w)[w.key]))
  }

  /**
  A write fails exactly when it inserts a row that exists, when the tables refuse
  the rows it would leave, or when its trigger meets a new name that is another
  row's localId. Deletes are never refused by the tables, nor updates of no row.
  */
  lemma WriteFailsIff(s: Schema, db: Db, w: Write)
    ensures TryWrite(s, db, w).None? <==>
              || (w.InsertW? && w.key in db.rows)
              || (!w.DeleteW? && (w.InsertW? || w.key in db.rows) && !s.constraints(RowsAfter(db.rows, w)))
              || (Fires(s, db, w) && !HasStored(db.meta, w.key) && HasCreated(db.meta, w.key))
  {
    FoundStored(db.meta, w.key);
    FoundCreated(db.meta, w.key);
  }

  /**
  What a write leaves: its rows, one queue item nobody has tried and the
  metadata of the row if the trigger fired, and nothing else.
  */
  lemma WriteLeaves(s: Schema, db: Db, w: Write)
    requires TryWrite(s, db, w).Some?
    ensures
      var d := TryWrite(s, db, w).value;
      var op := if w.InsertW? then Insert else if w.UpdateW? then Update else Delete;
      && d.rows == RowsAfter(db.rows, w) && d.locked == db.locked
      && (if Fires(s, db, w) then
            && d.queue == db.queue + [Item(db.nextItem, op, w.key.table, w.key.id, Pending, 0)]
            && d.nextItem == db.nextItem + 1
            && MarkedWritten(db.meta, d.meta, w.key, if Buries(db, w) then Delete else op,
                             if Buries(db, w) then Deleted else Unsynced)
          else d.queue == db.queue && d.nextItem == db.nextItem && d.meta == db.meta)
  {
    FoundStored(db.meta, w.key);
    FoundCreated(db.meta, w.key);
    if w.DeleteW? && w.key !in db.rows { assert db.rows - {w.key} == db.rows; }
  }

  // ---- queue items ------------------------------------------------------------------------------

  /** Marking an item counts one more attempt and changes nothing else of the queue. */
  lemma ItemIsMarked(q: seq<Item>, id: nat, status: ItemStatus)
    ensures
      var q' := MarkItem(q, id, status);
      |q'| == |q| && forall i | 0 <= i < |q| ::
        q'[i] == if q[i].id != id then q[i]
                 else Item(id, q[i].operation, q[i].table, q[i].entityId, status, q[i].retries + 1)
  {}

  /** A rename reaches the items of the row and only their entity id. */
  lemma ItemsAreRenamed(q: seq<Item>, t: Table, oldId: Id, newId: Id)
    ensures
      var q' := RenameItems(q, t, oldId, newId);
      |q'| == |q| && forall i | 0 <= i < |q| ::
        q'[i] == if q[i].table != t || q[i].entityId != oldId then q[i]
                 else Item(q[i].id, q[i].operation, t, newId, q[i].status, q[i].retries)
  {}

  /** What is left after an item is removed: the others, in their order. */
  lemma {:induction false} ItemIsRemoved(q: seq<Item>, id: nat)
    ensures forall x :: x in RemoveItem(q, id) <==> x in q && x.id != id
    ensures forall a, b :: q == a + b ==> RemoveItem(q, id) == RemoveItem(a, id) + RemoveItem(b, id)
  {
    if q != [] {
      ItemIsRemoved(q[1..], id);
      assert q == [q[0]] + q[1..];
    }
    forall a, b | q == a + b ensures RemoveItem(q, id) == RemoveItem(a, id) + RemoveItem(b, id) {
      RemovedAcross(a, b, id);
    }
  }

  lemma {:induction false} RemovedAcross(a: seq<Item>, b: seq<Item>, id: nat)
    ensures RemoveItem(a + b, id) == RemoveItem(a, id) + RemoveItem(b, id)
  {
    if a == [] {
      assert a + b == b;
    } else {
      assert (a + b)[1..] == a[1..] + b;
      RemovedAcross(a[1..], b, id);
    }
  }

  // ---- the plan for an item ---------------------------------------------------------------------

  /** The id the server knows a row by: what its metadata row says, if it says anything. */
  ghost predicate KnownAs(ms: seq<Meta>, lk: Key, id: Id) {
    exists i :: 0 <= i < |ms| && FindLocal(ms, lk) == Some(i) && ms[i].remoteId == Some(id) && id != ""
  }

  lemma RemoteIs(db: Db, t: Table, item: Pushable)
    ensures forall id :: RemoteFor(db, t, item) == Some(id) <==>
              item.localId.Some? && KnownAs(db.meta, Key(t, item.localId.value), id)
  {
  }

  /** The row an item is about, as it is read before the request. */
  ghost function PlaceOf(db: Db, t: Table, item: Pushable): Key {
    Key(t, RemoteFor(db, t, item).GetOr(item.entityId))
  }

  /**
  What is done with an item, told from the row. A deletion, of the item or of the
  row, is sent for a row the server knows, and dropped for another; an item whose
  row is gone is dropped, one whose row holds a blob has failed once more; any
  other row is sent whole, as a patch if the server knows it and as a new row if
  it does not.
  */
  lemma PlanIs(s: Schema, db: Db, t: Table, item: Pushable)
    ensures
      var plan, k, remote := Prepare(s, db, t, item), PlaceOf(db, t, item), RemoteFor(db, t, item);
      if item.operation == Delete || (k in db.rows && !HasBlob(s, k, db.rows[k]) && HasTombstone(db.rows[k])) then
        plan == if remote.Some? then Send(Remove(remote.value))
                else Settled(db.(queue := RemoveItem(db.queue, item.id)), Dropped)
      else if k !in db.rows then plan == Settled(db.(queue := RemoveItem(db.queue, item.id)), Dropped)
      else if HasBlob(s, k, db.rows[k]) then
        plan == Settled(
          db.(queue := MarkItem(db.queue, item.id, Failed),
              meta := MarkMetaFailed(db.meta, Key(t, item.localId.GetOr(item.entityId)))), Rejected)
      else
        && plan.Send? && TellsRow(s, k, db.rows[k], plan.request.fields)
        && plan.request == if remote.Some? then Patch(remote.value, plan.request.fields)
                           else Post(plan.request.fields)
  {
    SnapshotIs(s, db, PlaceOf(db, t, item));
    hide ReadSnapshot, HasBlob, HasTombstone, TellsRow;
  }
}
