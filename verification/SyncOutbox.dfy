/**
The outbox: a local change of a synced row stays in the queue until a session
has had a turn at it that leaves nothing to send, and what was sent is the row
as it was at that turn.
*/
module SyncOutbox {
  import opened Wrappers
  import opened SyncStore
  import opened SyncApplier
  import opened SyncPush
  import opened SyncRuns
  import opened SyncConservation

  /** One turn of a session: the database it found, the item and what the world did. */
  datatype Handled = Handled(db: Db, table: Table, item: Pushable, turn: Turn)

  function HandledItems(s: Schema, db: Db, t: Table, items: seq<Pushable>, turns: seq<Turn>): seq<Handled>
    decreases |items|
  {
    if items == [] || turns == [] then []
    else
      var one := PushItem(s, db, t, items[0], turns[0]);
      [Handled(db, t, items[0], turns[0])] +
      if one.verdict.Offline? then [] else HandledItems(s, one.db, t, items[1..], turns[1..])
  }

  /** All turns of a run. */
  function HandledIn(s: Schema, db: Db, events: seq<Event>): seq<Handled>
    decreases |events|
  {
    if events == [] then []
    else
      var e := events[0];
      (if e.PushE? then HandledItems(s, db, e.table, ReadPending(db, e.table, MAX_PUSH_ITEMS), e.turns) else []) +
      HandledIn(s, Step(s, db, e).db, events[1..])
  }

  // ---- what a turn leaves nothing to send of -------------------------------------------------------

  /** The database when the request is decided. */
  function Ready(s: Schema, h: Handled): Db { ApplyWrites(s, h.db, h.turn.before) }

  /** The server's name of the row, if the client knows it. */
  function Address(s: Schema, h: Handled): Option<Id> { RemoteFor(Ready(s, h), h.table, h.item) }

  /** Where the row is stored when the request is decided. */
  function Place(s: Schema, h: Handled): Key { Key(h.table, Address(s, h).GetOr(h.item.entityId)) }

  /** A row without a tombstone is stored there. */
  ghost predicate Alive(s: Schema, h: Handled) {
    Place(s, h) in Ready(s, h).rows && !HasTombstone(Ready(s, h).rows[Place(s, h)])
  }

  /** The application wants the row deleted. */
  ghost predicate Erased(s: Schema, h: Handled) {
    h.item.operation.Delete? || (Place(s, h) in Ready(s, h).rows && HasTombstone(Ready(s, h).rows[Place(s, h)]))
  }

  /** The one request of the turn, answered with this status. */
  ghost predicate Asked(s: Schema, h: Handled, request: Request) {
    PushItem(s, h.db, h.table, h.item, h.turn).log
    == [Sent(LocalKey(h.table, h.item).id, request, h.turn.outcome)]
  }

  ghost predicate Succeeded(h: Handled) { h.turn.outcome.Response? && 200 <= h.turn.outcome.status <= 299 }

  /** The server accepted the row as it was, column by column, under its name if it has one. */
  ghost predicate Delivered(s: Schema, h: Handled) {
    && !h.item.operation.Delete? && Alive(s, h) && Succeeded(h)
    && exists fields ::
         && TellsRow(s, Place(s, h), Ready(s, h).rows[Place(s, h)], fields)
         && Asked(s, h, if Address(s, h).Some? then Patch(Address(s, h).value, fields) else Post(fields))
  }

  /** The server deleted the row, or does not have it. */
  ghost predicate Deleted(s: Schema, h: Handled) {
    && Erased(s, h) && Address(s, h).Some? && Asked(s, h, Remove(Address(s, h).value))
    && (Succeeded(h) || (h.turn.outcome.Response? && h.turn.outcome.status == 404))
  }

  /** There is no row to send any more, or only a deletion of one the server was never told of. */
  ghost predicate Gone(s: Schema, h: Handled) {
    if Erased(s, h) then Address(s, h).None? else Place(s, h) !in Ready(s, h).rows
  }

  ghost predicate Discharged(s: Schema, h: Handled) { Delivered(s, h) || Deleted(s, h) || Gone(s, h) }

  /** A turn takes its item off the queue only if it discharged it. */
  lemma TurnDischarges(s: Schema, h: Handled)
    requires !h.db.locked && Bounded(h.db) && h.item.id < h.db.nextItem
    requires Slot(h.db.queue, h.item.id).Some?
    ensures Slot(PushItem(s, h.db, h.table, h.item, h.turn).db.queue, h.item.id).Some? || Discharged(s, h)
  {
    var one := PushItem(s, h.db, h.table, h.item, h.turn);
    PushItemSettles(s, h.db, h.table, h.item, h.turn);
    OwnSlot(h.db, one.db, h.item, one.verdict);
    if one.verdict.Dropped? || one.verdict.Replaced? || one.verdict.RemotelyDeleted? {
      SnapshotIs(s, Ready(s, h), Place(s, h));
      hide Replace, ReadSnapshot, TellsRow, HasBlob, HasTombstone;
      if ReadSnapshot(s, Ready(s, h), Place(s, h)).Body? && !h.item.operation.Delete? {
        var fields := ReadSnapshot(s, Ready(s, h), Place(s, h)).fields;
        assert TellsRow(s, Place(s, h), Ready(s, h).rows[Place(s, h)], fields);
      }
      assert Discharged(s, h);
    }
  }

  lemma OwnSlot(db: Db, db': Db, item: Pushable, v: Verdict)
    requires Settles(db, db', [item], [v])
    ensures Slot(db'.queue, item.id) == Fate(Slot(db.queue, item.id), v)
    ensures forall id: nat | id < db.nextItem && id != item.id :: Slot(db'.queue, id) == Slot(db.queue, id)
  {
    assert [item][0] == item && [v][0] == v;
    assert Slot(db'.queue, [item][0].id) == Fate(Slot(db.queue, [item][0].id), [v][0]);
    forall id: nat | id != item.id ensures !Processed([item], 1, id) {}
  }

  // ---- sessions and runs ---------------------------------------------------------------------------

  ghost predicate DischargedIn(s: Schema, hs: seq<Handled>, id: nat) {
    exists i :: 0 <= i < |hs| && hs[i].item.id == id && Discharged(s, hs[i])
  }

  lemma DischargedThere(s: Schema, a: seq<Handled>, b: seq<Handled>, id: nat)
    requires DischargedIn(s, a, id) || DischargedIn(s, b, id)
    ensures DischargedIn(s, a + b, id)
  {
    if DischargedIn(s, a, id) {
      var i :| 0 <= i < |a| && a[i].item.id == id && Discharged(s, a[i]);
      assert (a + b)[i] == a[i];
    } else {
      var i :| 0 <= i < |b| && b[i].item.id == id && Discharged(s, b[i]);
      assert (a + b)[|a| + i] == b[i];
    }
  }

  lemma {:induction false} SessionDischarges(
      s: Schema, db: Db, t: Table, items: seq<Pushable>, turns: seq<Turn>, id: nat)
    requires !db.locked && Bounded(db) && forall i | 0 <= i < |items| :: items[i].id < db.nextItem
    requires Slot(db.queue, id).Some? && id < db.nextItem
    ensures var end := PushItems(s, db, t, items, turns).db;
            && (Slot(end.queue, id).Some? || DischargedIn(s, HandledItems(s, db, t, items, turns), id))
            && !end.locked && Bounded(end) && db.nextItem <= end.nextItem
    decreases |items|
  {
    hide Discharged, PushItem;
    if items != [] && turns != [] {
      var one := PushItem(s, db, t, items[0], turns[0]);
      var h := Handled(db, t, items[0], turns[0]);
      PushItemSettles(s, db, t, items[0], turns[0]);
      OwnSlot(db, one.db, items[0], one.verdict);
      if items[0].id == id { TurnDischarges(s, h); }
      var tail := if one.verdict.Offline? then [] else HandledItems(s, one.db, t, items[1..], turns[1..]);
      if Slot(one.db.queue, id).None? {
        assert [h][0].item.id == id && Discharged(s, [h][0]);
        DischargedThere(s, [h], tail, id);
        if !one.verdict.Offline? {
          RestIsSound(s, one.db, t, items[1..], turns[1..]);
        }
      } else if !one.verdict.Offline? {
        SessionDischarges(s, one.db, t, items[1..], turns[1..], id);
        if DischargedIn(s, tail, id) { DischargedThere(s, [h], tail, id); }
      }
    }
  }

  lemma {:induction false} RestIsSound(s: Schema, db: Db, t: Table, items: seq<Pushable>, turns: seq<Turn>)
    requires !db.locked && Bounded(db) && forall i | 0 <= i < |items| :: items[i].id < db.nextItem
    ensures var end := PushItems(s, db, t, items, turns).db;
            !end.locked && Bounded(end) && db.nextItem <= end.nextItem
    decreases |items|
  {
    hide PushItem;
    if items != [] && turns != [] {
      var one := PushItem(s, db, t, items[0], turns[0]);
      PushItemSettles(s, db, t, items[0], turns[0]);
      if !one.verdict.Offline? {
        RestIsSound(s, one.db, t, items[1..], turns[1..]);
      }
    }
  }

  lemma {:induction false} SlotIsBounded(q: seq<Item>, id: nat, next: nat)
    requires Slot(q, id).Some? && forall i | 0 <= i < |q| :: q[i].id < next
    ensures id < next
  {
    if q[0].id != id { SlotIsBounded(q[1..], id, next); }
  }

  lemma PendingIsBounded(db: Db, t: Table)
    requires Bounded(db)
    ensures var items := ReadPending(db, t, MAX_PUSH_ITEMS);
            forall i | 0 <= i < |items| :: items[i].id < db.nextItem
  {
    PendingItemsSpec(db.meta, db.queue, t);
    var items := ReadPending(db, t, MAX_PUSH_ITEMS);
    forall i | 0 <= i < |items| ensures items[i].id < db.nextItem {
      assert items[i] in PendingItems(db.meta, db.queue, t);
    }
  }

  lemma EventDischarges(s: Schema, db: Db, e: Event, id: nat)
    requires !db.locked && Bounded(db) && Slot(db.queue, id).Some?
    ensures var d := Step(s, db, e).db;
            && !d.locked && Bounded(d)
            && (Slot(d.queue, id).Some? ||
                (e.PushE? &&
                 DischargedIn(s, HandledItems(s, db, e.table, ReadPending(db, e.table, MAX_PUSH_ITEMS), e.turns), id)))
  {
    hide Discharged;
    SlotIsBounded(db.queue, id, db.nextItem);
    match e
    case WriteE(w) => WriteExtends(s, db, w);
    case PushE(t, turns) =>
      PendingIsBounded(db, t);
      SessionDischarges(s, db, t, ReadPending(db, t, MAX_PUSH_ITEMS), turns, id);
    case PullE(t, page) => ActAdds(s, db, PageA(t, page));
  }

  /**
  Whatever the run: an item queued at its start is queued at its end, or a turn of
  the run discharged it. The server accepted the row as it was at that turn, or
  its deletion, or there was nothing to send any more.
  */
  lemma {:induction false} NothingLeavesUnsent(s: Schema, db: Db, events: seq<Event>, id: nat)
    requires !db.locked && Bounded(db) && Slot(db.queue, id).Some?
    ensures Slot(Steps(s, db, events).db.queue, id).Some? || DischargedIn(s, HandledIn(s, db, events), id)
    decreases |events|
  {
    hide Discharged, Step, HandledItems;
    if events != [] {
      var e, next := events[0], Step(s, db, events[0]).db;
      var here := if e.PushE? then HandledItems(s, db, e.table, ReadPending(db, e.table, MAX_PUSH_ITEMS), e.turns)
                  else [];
      var later := HandledIn(s, next, events[1..]);
      EventDischarges(s, db, e, id);
      if Slot(next.queue, id).Some? {
        NothingLeavesUnsent(s, next, events[1..], id);
        if DischargedIn(s, later, id) { DischargedThere(s, here, later, id); }
      } else {
        DischargedThere(s, here, later, id);
      }
    }
  }

  /** So does every local change of a synced row: its item is new, and the turns come after it. */
  lemma ChangeReachesServer(s: Schema, db: Db, w: Write, events: seq<Event>)
    requires !db.locked && Bounded(db) && LocalChange(s, db, WriteA(w))
    ensures var next := ApplyWrite(s, db, w);
            || Slot(Steps(s, next, events).db.queue, db.nextItem).Some?
            || DischargedIn(s, HandledIn(s, next, events), db.nextItem)
  {
    var next := ApplyWrite(s, db, w);
    WriteExtends(s, db, w);
    WriteAddsOne(s, db, w);
    assert Untried(Slot(next.queue, db.nextItem));
    NothingLeavesUnsent(s, next, events, db.nextItem);
  }
}
