/**
What happens to `sync_queue`: a push session accounts for every item, a pull
leaves the queue alone, and only writes of the application add to it.
*/
module SyncConservation {
  import opened Wrappers
  import opened SyncStore
  import opened SyncApplier
  import opened SyncPush
  import opened SyncRuns
  import opened SyncIdentity

  // ---- one queue slot -----------------------------------------------------------------------------

  /** The item with this id, up to the entity id a replace may rename. */
  function Slot(q: seq<Item>, id: nat): Option<Item> {
    if q == [] then None else if q[0].id == id then Some(q[0].(entityId := "")) else Slot(q[1..], id)
  }

  function Mark(x: Option<Item>, status: ItemStatus): Option<Item> {
    match x
    case None => None
    case Some(item) => Some(item.(status := status, retries := item.retries + 1))
  }

  /** What a verdict means for the item's slot. */
  function Fate(x: Option<Item>, v: Verdict): Option<Item> {
    match v
    case Dropped | Replaced | RemotelyDeleted => None
    case Rejected => Mark(x, Failed)
    case Stuck => Mark(x, Blocked)
    case Offline => x
  }

  ghost predicate Bounded(db: Db) {
    forall i | 0 <= i < |db.queue| :: db.queue[i].id < db.nextItem
  }

  lemma {:induction false} SlotRemove(q: seq<Item>, a: nat, id: nat)
    ensures Slot(RemoveItem(q, a), id) == if id == a then None else Slot(q, id)
  {
    if q != [] {
      SlotRemove(q[1..], a, id);
      var rest := RemoveItem(q[1..], a);
      assert [] + rest == rest && ([q[0]] + rest)[1..] == rest;
    }
  }

  lemma {:induction false} SlotMark(q: seq<Item>, a: nat, status: ItemStatus, id: nat)
    ensures Slot(MarkItem(q, a, status), id) == if id == a then Mark(Slot(q, id), status) else Slot(q, id)
  {
    if q != [] {
      SlotMark(q[1..], a, status, id);
      assert MarkItem(q, a, status)[1..] == MarkItem(q[1..], a, status);
    }
  }

  lemma {:induction false} SlotRename(q: seq<Item>, t: Table, oldId: Id, newId: Id, id: nat)
    ensures Slot(RenameItems(q, t, oldId, newId), id) == Slot(q, id)
  {
    if q != [] {
      SlotRename(q[1..], t, oldId, newId, id);
      assert RenameItems(q, t, oldId, newId)[1..] == RenameItems(q[1..], t, oldId, newId);
    }
  }

  lemma {:induction false} SlotAppend(q: seq<Item>, x: Item, id: nat)
    requires forall i | 0 <= i < |q| :: q[i].id != x.id
    ensures Slot(q + [x], id) == if id == x.id then Some(x.(entityId := "")) else Slot(q, id)
  {
    if q != [] {
      SlotAppend(q[1..], x, id);
      assert (q + [x])[1..] == q[1..] + [x];
    }
  }

  // ---- writes only append ----------------------------------------------------------------------------

  ghost predicate Untried(x: Option<Item>) {
    x.Some? && x.value.status.Pending? && x.value.retries == 0
  }

  /** Every slot below `next` is as it was, every slot since is a new item nobody has tried yet. */
  ghost predicate Extends(q: seq<Item>, next: nat, q': seq<Item>, next': nat) {
    && next <= next'
    && (forall id: nat | id < next :: Slot(q', id) == Slot(q, id))
    && (forall id: nat | next <= id < next' :: Untried(Slot(q', id)))
  }

  /** One write adds exactly one item when it changed a row of a synced table, and none otherwise. */
  lemma WriteAddsOne(s: Schema, db: Db, w: Write)
    requires !db.locked
    ensures var r := TryWrite(s, db, w);
            var changed := r.Some? && s.synced(w.key.table) && (w.InsertW? || w.key in db.rows);
            var op := match w case InsertW(_, _) => Insert case UpdateW(_, _) => Update case DeleteW(_) => Delete;
            && ApplyWrite(s, db, w).queue ==
               (if changed then db.queue + [Item(db.nextItem, op, w.key.table, w.key.id, Pending, 0)] else db.queue)
            && ApplyWrite(s, db, w).nextItem == (if changed then db.nextItem + 1 else db.nextItem)
            && !ApplyWrite(s, db, w).locked
  {
  }

  lemma WriteExtends(s: Schema, db: Db, w: Write)
    requires !db.locked && Bounded(db)
    ensures var d := ApplyWrite(s, db, w);
            Extends(db.queue, db.nextItem, d.queue, d.nextItem) && !d.locked && Bounded(d)
  {
    WriteAddsOne(s, db, w);
    var d := ApplyWrite(s, db, w);
    if d.nextItem > db.nextItem {
      forall id: nat ensures Slot(d.queue, id) ==
        if id == db.nextItem then Some(d.queue[|db.queue|].(entityId := "")) else Slot(db.queue, id)
      {
        SlotAppend(db.queue, d.queue[|db.queue|], id);
      }
    }
  }

  lemma {:induction false} WritesExtend(s: Schema, db: Db, ws: seq<Write>)
    requires !db.locked && Bounded(db)
    ensures var d := ApplyWrites(s, db, ws);
            Extends(db.queue, db.nextItem, d.queue, d.nextItem) && !d.locked && Bounded(d)
    decreases |ws|
  {
    if ws != [] {
      WriteExtends(s, db, ws[0]);
      WritesExtend(s, ApplyWrite(s, db, ws[0]), ws[1..]);
    }
  }

  // ---- one item -------------------------------------------------------------------------------------------

  /** Only the slot of item `id` changed, and as the verdict says. */
  ghost predicate Accounts(db: Db, db': Db, id: nat, v: Verdict) {
    && db'.nextItem == db.nextItem && !db'.locked && Bounded(db')
    && (forall j: nat | j != id :: Slot(db'.queue, j) == Slot(db.queue, j))
    && Slot(db'.queue, id) == Fate(Slot(db.queue, id), v)
  }

  lemma DropAccounts(db: Db, id: nat, v: Verdict)
    requires !db.locked && Bounded(db) && (v.Dropped? || v.Replaced? || v.RemotelyDeleted?)
    ensures Accounts(db, DropItem(db, id), id, v)
  {
    forall j: nat ensures Slot(DropItem(db, id).queue, j) == if j == id then None else Slot(db.queue, j) {
      SlotRemove(db.queue, id, j);
    }
    forall i | 0 <= i < |DropItem(db, id).queue| ensures DropItem(db, id).queue[i].id < db.nextItem {
      RemoveItemMembers(db.queue, id, DropItem(db, id).queue[i]);
    }
  }

  lemma MarkAccounts(db: Db, ms: seq<Meta>, id: nat, v: Verdict)
    requires !db.locked && Bounded(db) && (v.Rejected? || v.Stuck?)
    ensures Accounts(db, db.(queue := MarkItem(db.queue, id, if v.Stuck? then Blocked else Failed), meta := ms), id, v)
  {
    var status := if v.Stuck? then Blocked else Failed;
    forall j: nat ensures Slot(MarkItem(db.queue, id, status), j) ==
      if j == id then Mark(Slot(db.queue, j), status) else Slot(db.queue, j)
    {
      SlotMark(db.queue, id, status, j);
    }
  }

  lemma PrepareAccounts(s: Schema, db: Db, t: Table, item: Pushable)
    requires !db.locked && Bounded(db) && Prepare(s, db, t, item).Settled?
    ensures Accounts(db, Prepare(s, db, t, item).db, item.id, Prepare(s, db, t, item).verdict)
    ensures !Prepare(s, db, t, item).verdict.Offline?
  {
    DropAccounts(db, item.id, Dropped);
    MarkAccounts(db, MarkMetaFailed(db.meta, LocalKey(t, item)), item.id, Rejected);
  }

  lemma ReplaceAccounts(s: Schema, db: Db, t: Table, item: Pushable, body: SyncApplier.Body)
    requires !db.locked && Bounded(db)
    ensures Accounts(db, Replace(s, db, t, item, body).db, item.id, Replace(s, db, t, item, body).verdict)
    ensures !Replace(s, db, t, item, body).verdict.Offline?
  {
    var recorded := RecordRemoteSuccess(s, db.(locked := true), LocalKey(t, item), body);
    if recorded.None? {
      MarkAccounts(db, db.meta, item.id, Stuck);
    } else {
      var r := recorded.value;
      RewriteFrame(s, r.db, t, r.oldId, r.newId, body);
      var done := RewriteLocalRow(s, r.db, t, r.oldId, r.newId, body).db.(locked := false);
      forall j: nat ensures Slot(done.queue, j) == Slot(db.queue, j) {
        SlotRename(db.queue, t, r.oldId, r.newId, j);
      }
      DropAccounts(done, item.id, Replaced);
      MarkAccounts(done, done.meta, item.id, Stuck);
    }
  }

  lemma ReceiveAccounts(s: Schema, db: Db, t: Table, item: Pushable, request: Request, outcome: Outcome)
    requires !db.locked && Bounded(db)
    ensures Accounts(db, Receive(s, db, t, item, request, outcome).db, item.id,
                     Receive(s, db, t, item, request, outcome).verdict)
    ensures Receive(s, db, t, item, request, outcome).verdict.Offline? <==> outcome.NetworkError?
  {
    DropAccounts(db, item.id, RemotelyDeleted);
    MarkAccounts(db, db.meta, item.id, Stuck);
    MarkAccounts(db, MarkMetaFailed(db.meta, LocalKey(t, item)), item.id, Rejected);
    if outcome.Response? {
      ReplaceAccounts(s, db, t, item, outcome.body);
    }
  }

  ghost predicate Processed(items: seq<Pushable>, n: nat, id: nat)
    requires n <= |items|
  {
    exists i :: 0 <= i < n && items[i].id == id
  }

  /** Between two states of a session, the slots of `done` follow their verdicts and the rest only grows. */
  ghost predicate Settles(db: Db, db': Db, done: seq<Pushable>, vs: seq<Verdict>)
    requires |vs| <= |done|
  {
    && db.nextItem <= db'.nextItem && !db'.locked && Bounded(db')
    && (forall i | 0 <= i < |vs| :: Slot(db'.queue, done[i].id) == Fate(Slot(db.queue, done[i].id), vs[i]))
    && (forall id: nat | id < db.nextItem && !Processed(done, |vs|, id) :: Slot(db'.queue, id) == Slot(db.queue, id))
    && (forall id: nat | db.nextItem <= id < db'.nextItem :: Untried(Slot(db'.queue, id)))
  }

  lemma PushItemSettles(s: Schema, db: Db, t: Table, item: Pushable, turn: Turn)
    requires !db.locked && Bounded(db) && item.id < db.nextItem
    ensures Settles(db, PushItem(s, db, t, item, turn).db, [item], [PushItem(s, db, t, item, turn).verdict])
  {
    WritesExtend(s, db, turn.before);
    assert [item][0] == item;
    forall id: nat | !Processed([item], 1, id) ensures id != item.id {}
    var ready := ApplyWrites(s, db, turn.before);
    match Prepare(s, ready, t, item)
    case Settled(_, _) => PrepareAccounts(s, ready, t, item);
    case Send(request) =>
      WritesExtend(s, ready, turn.during);
      ReceiveAccounts(s, ApplyWrites(s, ready, turn.during), t, item, request, turn.outcome);
  }

  // ---- a session -----------------------------------------------------------------------------------------------

  ghost predicate IncreasingIds(items: seq<Pushable>, next: nat) {
    && (forall i | 0 <= i < |items| :: items[i].id < next)
    && (forall i, j | 0 <= i < j < |items| :: items[i].id < items[j].id)
  }

  /** A session goes on until its items or turns run out or the network fails, and no further. */
  lemma {:induction false} PushItemsStop(s: Schema, db: Db, t: Table, items: seq<Pushable>, turns: seq<Turn>)
    ensures var vs := PushItems(s, db, t, items, turns).verdicts;
            && |vs| <= |items|
            && (forall i | 0 <= i < |vs| - 1 :: !vs[i].Offline?)
            && (|vs| < |items| && |vs| < |turns| ==> vs != [] && vs[|vs| - 1].Offline?)
    decreases |items|
  {
    if items != [] && turns != [] {
      var one := PushItem(s, db, t, items[0], turns[0]);
      if !one.verdict.Offline? {
        PushItemsStop(s, one.db, t, items[1..], turns[1..]);
      }
    }
  }

  lemma {:induction false} PushItemsSettle(s: Schema, db: Db, t: Table, items: seq<Pushable>, turns: seq<Turn>)
    requires !db.locked && Bounded(db) && IncreasingIds(items, db.nextItem)
    ensures var run := PushItems(s, db, t, items, turns);
            |run.verdicts| <= |items| && Settles(db, run.db, items, run.verdicts)
    decreases |items|
  {
    PushItemsStop(s, db, t, items, turns);
    if items != [] && turns != [] {
      PushItemSettles(s, db, t, items[0], turns[0]);
      var one := PushItem(s, db, t, items[0], turns[0]);
      if one.verdict.Offline? {
        SettlesFirst(db, one.db, items, one.verdict);
      } else {
        PushItemsSettle(s, one.db, t, items[1..], turns[1..]);
        PushItemsStop(s, one.db, t, items[1..], turns[1..]);
        var rest := PushItems(s, one.db, t, items[1..], turns[1..]);
        SettlesCons(db, one.db, rest.db, items, one.verdict, rest.verdicts);
      }
    }
  }

  lemma SettlesFirst(db: Db, end: Db, items: seq<Pushable>, v: Verdict)
    requires items != [] && Settles(db, end, [items[0]], [v])
    ensures Settles(db, end, items, [v])
  {
    assert [items[0]][0] == items[0] && [v][0] == v;
    forall id: nat | !Processed(items, 1, id) ensures !Processed([items[0]], 1, id) {
      assert items[0].id != id;
    }
  }

  lemma SettlesCons(db: Db, mid: Db, end: Db, items: seq<Pushable>, v: Verdict, vs: seq<Verdict>)
    requires |vs| < |items| && IncreasingIds(items, db.nextItem)
    requires Settles(db, mid, [items[0]], [v]) && Settles(mid, end, items[1..], vs)
    ensures Settles(db, end, items, [v] + vs)
  {
    hide Slot, Fate;
    var all := [v] + vs;
    assert [items[0]][0] == items[0] && [v][0] == v;
    forall i | 0 <= i < |vs| ensures items[1..][i] == items[i + 1] {}
    forall i | 0 <= i < |all| ensures Slot(end.queue, items[i].id) == Fate(Slot(db.queue, items[i].id), all[i]) {
      if i == 0 {
        assert Slot(end.queue, items[0].id) == Slot(mid.queue, items[0].id);
      } else {
        assert Slot(end.queue, items[1..][i - 1].id) == Fate(Slot(mid.queue, items[1..][i - 1].id), vs[i - 1]);
        assert Slot(mid.queue, items[i].id) == Slot(db.queue, items[i].id);
      }
    }
    forall id: nat | id < db.nextItem && !Processed(items, |all|, id)
      ensures Slot(end.queue, id) == Slot(db.queue, id)
    {
      NotProcessedBefore(items, |vs|, id);
    }
  }

  lemma NotProcessedBefore(items: seq<Pushable>, n: nat, id: nat)
    requires n < |items| && !Processed(items, n + 1, id)
    ensures !Processed([items[0]], 1, id) && !Processed(items[1..], n, id)
  {
    forall i | 0 <= i < n ensures items[1..][i].id != id {
      assert items[1..][i] == items[i + 1];
    }
  }

  /** The items of `t` that are pending or failed, as the session's read finds them. */
  lemma {:induction false} PendingItemsSpec(ms: seq<Meta>, q: seq<Item>, t: Table)
    ensures forall p <- PendingItems(ms, q, t) :: exists x :: x in q && Wanted(x, t) && p == Read(ms, x)
    ensures forall x <- q :: Wanted(x, t) ==> Read(ms, x) in PendingItems(ms, q, t)
  {
    if q != [] {
      PendingItemsSpec(ms, q[1..], t);
      forall x <- q | Wanted(x, t) ensures Read(ms, x) in PendingItems(ms, q, t) {
        if x != q[0] {
          assert x in q[1..];
        }
      }
    }
  }

  lemma {:induction false} PendingItemsOrdered(ms: seq<Meta>, q: seq<Item>, next: nat, t: Table)
    requires QueueOrdered(q, next)
    ensures IncreasingIds(PendingItems(ms, q, t), next)
  {
    if q != [] {
      PendingItemsOrdered(ms, q[1..], next, t);
      PendingItemsSpec(ms, q[1..], t);
      var rest := PendingItems(ms, q[1..], t);
      forall i | 0 <= i < |rest| ensures q[0].id < rest[i].id {
        assert rest[i] in rest;
      }
    }
  }

  /** An item of the table that was never tried or has failed. */
  ghost predicate Waits(x: Item, t: Table) { x.table == t && (x.status == Pending || x.status == Failed) }

  /** What a session sees of it: its fields, and the localId of the row stored under its entity id. */
  ghost function Seen(ms: seq<Meta>, x: Item): Pushable {
    Pushable(x.id, x.operation, x.entityId, LocalIdOf(ms, Key(x.table, x.entityId)))
  }

  /** A session takes the first pending or failed items of its table, in id order, up to its limit. */
  lemma ReadPendingTakesFirst(db: Db, t: Table, limit: nat)
    requires QueueOrdered(db.queue, db.nextItem)
    ensures var items := ReadPending(db, t, limit);
            && |items| <= limit && IncreasingIds(items, db.nextItem)
            && (forall p <- items :: exists x :: x in db.queue && Waits(x, t) && p == Seen(db.meta, x))
            && (forall x <- db.queue :: Waits(x, t) && Seen(db.meta, x) !in items ==>
                  |items| == limit && forall p <- items :: p.id < x.id)
  {
    PendingItemsSpec(db.meta, db.queue, t);
    PendingItemsOrdered(db.meta, db.queue, db.nextItem, t);
    var all := PendingItems(db.meta, db.queue, t);
    var items := ReadPending(db, t, limit);
    forall x: Item ensures Waits(x, t) == Wanted(x, t) && Seen(db.meta, x) == Read(db.meta, x) {}
    forall p <- items ensures exists x :: x in db.queue && Waits(x, t) && p == Seen(db.meta, x) {
      assert p in all;
      var x :| x in db.queue && Wanted(x, t) && p == Read(db.meta, x);
      assert Waits(x, t) && p == Seen(db.meta, x);
    }
    forall x <- db.queue | Waits(x, t) && Seen(db.meta, x) !in items
      ensures |items| == limit && forall p <- items :: p.id < x.id
    {
      var j :| 0 <= j < |all| && all[j] == Read(db.meta, x);
      forall i | 0 <= i < |items| ensures all[i] in items {}
      assert j >= |items|;
    }
  }

  /**
  Push conserves the queue. With `vs` the verdicts of the items it got to: each
  of those slots is what its verdict says, no item follows a network failure,
  every other slot is as it was, and items added meanwhile wait untouched.
  */
  lemma PushConserves(s: Schema, db: Db, t: Table, turns: seq<Turn>)
    requires !db.locked && QueueOrdered(db.queue, db.nextItem)
    ensures var items := ReadPending(db, t, 200);
            var run := PushSession(s, db, t, turns);
            && |run.verdicts| <= |items| <= 200
            && Settles(db, run.db, items, run.verdicts)
            && (forall i | 0 <= i < |run.verdicts| - 1 :: !run.verdicts[i].Offline?)
            && (|run.verdicts| < |items| && |run.verdicts| < |turns| ==>
                  run.verdicts != [] && run.verdicts[|run.verdicts| - 1].Offline?)
  {
    ReadPendingTakesFirst(db, t, MAX_PUSH_ITEMS);
    PushItemsStop(s, db, t, ReadPending(db, t, MAX_PUSH_ITEMS), turns);
    PushItemsSettle(s, db, t, ReadPending(db, t, MAX_PUSH_ITEMS), turns);
  }

  // ---- no self-echo ---------------------------------------------------------------------------------------------

  lemma ApplyRowMuted(s: Schema, db: Db, t: Table, body: SyncApplier.Body)
    requires db.locked && ApplyRow(s, db, t, body).Some?
    ensures var d := ApplyRow(s, db, t, body).value;
            d.locked && d.queue == db.queue && d.nextItem == db.nextItem
  {
  }

  lemma {:induction false} ApplyRowsMuted(s: Schema, db: Db, t: Table, page: seq<SyncApplier.Body>)
    requires db.locked && ApplyRows(s, db, t, page).Some?
    ensures var d := ApplyRows(s, db, t, page).value;
            d.locked && d.queue == db.queue && d.nextItem == db.nextItem
    decreases |page|
  {
    if page != [] {
      ApplyRowMuted(s, db, t, page[0]);
      ApplyRowsMuted(s, ApplyRow(s, db, t, page[0]).value, t, page[1..]);
    }
  }

  /** Whether an atomic step is a write of the application that changed a row of a synced table. */
  predicate LocalChange(s: Schema, db: Db, a: Atom) {
    && a.WriteA? && TryWrite(s, db, a.write).Some? && s.synced(a.write.key.table)
    && (a.write.InsertW? || a.write.key in db.rows)
  }

  function LocalChanges(s: Schema, db: Db, atoms: seq<Atom>): nat
    decreases |atoms|
  {
    if atoms == [] then 0
    else (if LocalChange(s, db, atoms[0]) then 1 else 0) + LocalChanges(s, Act(s, db, atoms[0]), atoms[1..])
  }

  lemma ActAdds(s: Schema, db: Db, a: Atom)
    requires !db.locked && Bounded(db)
    ensures var d := Act(s, db, a);
            && !d.locked && Bounded(d) && (a.PageA? ==> d.queue == db.queue)
            && d.nextItem == db.nextItem + if LocalChange(s, db, a) then 1 else 0
  {
    match a
    case WriteA(w) =>
      WriteAddsOne(s, db, w);
    case SettleA(t, item) =>
      if Prepare(s, db, t, item).Settled? {
        PrepareAccounts(s, db, t, item);
      }
    case ReplyA(t, item, request, outcome) =>
      ReceiveAccounts(s, db, t, item, request, outcome);
    case PageA(t, page) =>
      if ApplyRows(s, db.(locked := true), t, page).Some? {
        ApplyRowsMuted(s, db.(locked := true), t, page);
      }
  }

  lemma {:induction false} ActsAdd(s: Schema, db: Db, atoms: seq<Atom>)
    requires !db.locked && Bounded(db)
    ensures var d := Acts(s, db, atoms);
            !d.locked && Bounded(d) && d.nextItem == db.nextItem + LocalChanges(s, db, atoms)
    decreases |atoms|
  {
    if atoms != [] {
      ActAdds(s, db, atoms[0]);
      ActsAdd(s, Act(s, db, atoms[0]), atoms[1..]);
    }
  }

  /**
  No self-echo, whatever the server answers and whether guarded work commits or
  rolls back: the lock is free after every event, and as many items were ever
  added as the application changed rows.
  */
  lemma NoSelfEcho(s: Schema, db: Db, events: seq<Event>)
    requires !db.locked && Bounded(db)
    ensures var d := Steps(s, db, events).db;
            !d.locked && d.nextItem == db.nextItem + LocalChanges(s, db, Atoms(s, db, events))
  {
    AtomsRun(s, db, events);
    ActsAdd(s, db, Atoms(s, db, events));
  }
}
