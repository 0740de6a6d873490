/**
The sync engine as it runs: one database object that every collaborator updates
in place, and the loops of the push and pull phases over it. Each method is
proved to do what the function of the same step says.
*/
module SyncEngine {
  import opened Wrappers
  import opened SyncStore
  import opened SyncApplier
  import SyncIdentity
  import opened SyncPush
  import opened SyncServer
  import opened SyncPull

  lemma PendingStep(ms: seq<Meta>, q: seq<Item>, t: Table, i: nat, before: seq<Pushable>, after: seq<Pushable>)
    requires i < |q| && after == if Wanted(q[i], t) then before + [Read(ms, q[i])] else before
    ensures before + PendingItems(ms, q[i..], t) == after + PendingItems(ms, q[i + 1..], t)
  {
    assert q[i..][1..] == q[i + 1..];
  }

  /** Only the item `id` changed: it has the status and one more attempt. */
  ghost predicate Marked(q: seq<Item>, q': seq<Item>, id: nat, status: ItemStatus) {
    && |q'| == |q|
    && (forall i | 0 <= i < |q| && q[i].id != id :: q'[i] == q[i])
    && (forall i | 0 <= i < |q| && q[i].id == id ::
          && q'[i].status == status && q'[i].retries == q[i].retries + 1 && q'[i].id == id
          && q'[i].operation == q[i].operation && q'[i].table == q[i].table && q'[i].entityId == q[i].entityId)
  }

  /** The client's SQLite file: its tables are fields. */
  class SyncDatabase {
    var rows: map<Key, Row>
    var meta: seq<Meta>
    var queue: seq<Item>
    var nextItem: nat
    var locked: bool

    constructor ()
      ensures View() == EMPTY
    {
      rows, meta, queue, nextItem, locked := map[], [], [], 1, false;
    }

    function View(): Db
      reads this
    {
      Db(rows, meta, queue, nextItem, locked)
    }

    /** ROLLBACK to a saved state. */
    method Restore(saved: Db)
      modifies this
      ensures View() == saved
    {
      rows, meta, queue, nextItem, locked := saved.rows, saved.meta, saved.queue, saved.nextItem, saved.locked;
    }

    /** One SQL statement: all of its effect, triggers included, or an exception and none. */
    method Exec(statement: Option<Db>) returns (ok: bool)
      modifies this
      ensures ok == statement.Some?
      ensures View() == statement.GetOr(old(View()))
    {
      ok := statement.Some?;
      if ok {
        Restore(statement.value);
      }
    }

    /** The application's writes, each of which may fail on its own. */
    method Write(s: Schema, ws: seq<Write>)
      modifies this
      ensures View() == ApplyWrites(s, old(View()), ws)
    {
      var i := 0;
      while i < |ws|
        invariant 0 <= i <= |ws|
        invariant ApplyWrites(s, View(), ws[i..]) == ApplyWrites(s, old(View()), ws)
      {
        assert ws[i..][1..] == ws[i + 1..];
        var _ := Exec(TryWrite(s, View(), ws[i]));
        i := i + 1;
      }
    }

    // ---- SyncQueueStore ------------------------------------------------------------------------

    /** The pending and failed items of a table in id order, at most `limit`. */
    method ReadPending(t: Table, limit: nat) returns (items: seq<Pushable>)
      ensures items == SyncPush.ReadPending(View(), t, limit)
    {
      items := [];
      var i := 0;
      assert queue[0..] == queue;
      ghost var all := PendingItems(meta, queue, t);
      while i < |queue| && |items| < limit
        invariant 0 <= i <= |queue| && |items| <= limit
        invariant items + PendingItems(meta, queue[i..], t) == all
      {
        ghost var before := items;
        if queue[i].table == t && (queue[i].status.Pending? || queue[i].status.Failed?) {
          items := items + [Pushable(queue[i].id, queue[i].operation, queue[i].entityId,
                                     LocalIdOf(meta, Key(queue[i].table, queue[i].entityId)))];
        }
        PendingStep(meta, queue, t, i, before, items);
        i := i + 1;
      }
      assert all[..|items|] == items;
    }

    /** The item is gone, every other one is where it was among the rest. */
    method Remove(id: nat)
      modifies this`queue
      ensures View() == DropItem(old(View()), id)
      ensures forall x :: x in queue <==> x in old(queue) && x.id != id
      ensures SyncIdentity.QueueOrdered(old(queue), nextItem) ==> SyncIdentity.QueueOrdered(queue, nextItem)
    {
      forall x ensures x in RemoveItem(queue, id) <==> x in queue && x.id != id {
        SyncIdentity.RemoveItemMembers(queue, id, x);
      }
      if SyncIdentity.QueueOrdered(queue, nextItem) {
        SyncIdentity.RemoveItemKeepsOrder(queue, id, nextItem);
      }
      queue := RemoveItem(queue, id);
    }

    /** One more failed attempt for the item and for the row's metadata; no other item and no other row changes. */
    method MarkFailed(lk: Key, id: nat)
      modifies this`queue, this`meta
      ensures View() == FailItem(old(View()), lk, id)
      ensures Marked(old(queue), queue, id, Failed)
      ensures FindLocal(old(meta), lk).None? ==> meta == old(meta)
      ensures FindLocal(old(meta), lk).Some? ==>
        var i := FindLocal(old(meta), lk).value;
        && |meta| == |old(meta)| && (forall j | 0 <= j < |meta| && j != i :: meta[j] == old(meta)[j])
        && meta[i] == old(meta)[i].(status := meta[i].status, retries := old(meta)[i].retries + 1)
        && (meta[i].status.Deleted? <==> old(meta)[i].status.Deleted?)
        && (meta[i].status.Deleted? || meta[i].status.SyncFailed?)
    {
      queue := MarkItem(queue, id, Failed);
      meta := MarkMetaFailed(meta, lk);
    }

    /** The item is blocked after one more attempt; no other item changes. */
    method MarkBlocked(id: nat)
      modifies this`queue
      ensures View() == BlockItem(old(View()), id)
      ensures Marked(old(queue), queue, id, Blocked)
    {
      queue := MarkItem(queue, id, Blocked);
    }
  }

  // ---- RelationCascadeRewriter and SyncOperationApplier -------------------------------------------

  /** Follows a renamed parent in every child table that references it. */
  method RewriteRelations(conn: SyncDatabase, s: Schema, parent: Table, oldId: Id, newId: Id) returns (ok: bool)
    requires conn.locked
    modifies conn
    ensures var a := Cascade(s, old(conn.View()), s.relations, parent, oldId, newId);
            ok == a.ok && conn.View() == a.db
  {
    ok := true;
    var i := 0;
    while i < |s.relations| && ok
      invariant 0 <= i <= |s.relations| && conn.locked
      invariant var a := Cascade(s, old(conn.View()), s.relations, parent, oldId, newId);
                if ok then Cascade(s, conn.View(), s.relations[i..], parent, oldId, newId) == a
                else a == Attempt(conn.View(), false)
    {
      assert s.relations[i..][1..] == s.relations[i + 1..];
      if s.relations[i].parentTable == parent {
        ok := conn.Exec(RenameFk(s, conn.View(), s.relations[i], oldId, newId));
      }
      i := i + 1;
    }
  }

  /** Applies pulled rows one after the other; the first that throws ends the page. */
  method Apply(conn: SyncDatabase, s: Schema, t: Table, page: seq<SyncApplier.Body>) returns (ok: bool)
    modifies conn
    ensures ok == ApplyRows(s, old(conn.View()), t, page).Some?
    ensures ok ==> conn.View() == ApplyRows(s, old(conn.View()), t, page).value
  {
    ok := true;
    var i := 0;
    while i < |page| && ok
      invariant 0 <= i <= |page|
      invariant var all := ApplyRows(s, old(conn.View()), t, page);
                if ok then ApplyRows(s, conn.View(), t, page[i..]) == all else all.None?
    {
      assert page[i..][1..] == page[i + 1..];
      ok := conn.Exec(ApplyRow(s, conn.View(), t, page[i]));
      i := i + 1;
    }
  }

  /** `applyWithBypass` around a page: the lock row mutes the triggers, an exception rolls everything back. */
  method ApplyGuarded(conn: SyncDatabase, s: Schema, t: Table, page: seq<SyncApplier.Body>) returns (ok: bool)
    modifies conn
    ensures ok == ApplyPage(s, old(conn.View()), t, page).Some?
    ensures conn.View() == ApplyPage(s, old(conn.View()), t, page).GetOr(old(conn.View()))
  {
    var saved := conn.View();
    conn.locked := true;
    ok := Apply(conn, s, t, page);
    if ok {
      conn.locked := false;
    } else {
      conn.Restore(saved);
    }
  }

  /** Step 2 of a replace, statement by statement; what was done before a failure stays done. */
  method RewriteLocal(
      conn: SyncDatabase, s: Schema, t: Table, oldId: Id, newId: Id, body: SyncApplier.Body) returns (ok: bool)
    requires conn.locked
    modifies conn
    ensures var a := RewriteLocalRow(s, old(conn.View()), t, oldId, newId, body);
            ok == a.ok && conn.View() == a.db
  {
    if body.NoObject? {
      return true;
    }
    var cells := LocalCells(s, t, body.fields);
    if cells.None? {
      return false;
    }
    if newId != oldId {
      ok := conn.Exec(RenameRow(s, conn.View(), t, oldId, newId));
      if !ok {
        return;
      }
    }
    var at := Key(t, newId);
    if cells.value != map[] && EchoApplies(s, conn.View(), at, body.fields) {
      ok := conn.Exec(UpdateRow(s, conn.View(), at, cells.value));
      if !ok {
        return;
      }
    }
    if newId != oldId {
      ok := RewriteRelations(conn, s, t, oldId, newId);
      if !ok {
        return;
      }
      conn.queue := RenameItems(conn.queue, t, oldId, newId);
    }
    ok := true;
  }

  /** The replace transaction with its inner and outer catch. */
  method ReplaceGuarded(
      conn: SyncDatabase, s: Schema, t: Table, item: Pushable, body: SyncApplier.Body) returns (verdict: Verdict)
    modifies conn
    ensures var r := Replace(s, old(conn.View()), t, item, body);
            verdict == r.verdict && conn.View() == r.db
  {
    var saved := conn.View();
    conn.locked := true;
    var recorded := RecordRemoteSuccess(s, conn.View(), LocalKey(t, item), body);
    if recorded.None? {
      conn.Restore(saved);
      conn.MarkBlocked(item.id);
      return Stuck;
    }
    conn.Restore(recorded.value.db);
    var ok := RewriteLocal(conn, s, t, recorded.value.oldId, recorded.value.newId, body);
    if ok {
      conn.Remove(item.id);
      verdict := Replaced;
    } else {
      conn.MarkBlocked(item.id);
      verdict := Stuck;
    }
    conn.locked := false;
  }

  // ---- SyncPushPhase --------------------------------------------------------------------------------

  /** One pass over the columns of the row: the tombstone flag and the request body. */
  method ReadRowSnapshot(conn: SyncDatabase, s: Schema, k: Key) returns (snapshot: Snapshot)
    ensures snapshot == ReadSnapshot(s, conn.View(), k)
  {
    if k !in conn.rows {
      return Missing;
    }
    var row := conn.rows[k];
    ghost var sent := set c | c in s.cols(k.table) && c != s.pk(k.table) && c != DELETED_AT;
    var left := s.cols(k.table);
    var body: Fields := map[];
    while left != {}
      invariant left <= s.cols(k.table)
      invariant forall c <- sent - left :: !CellOf(row, c).Blob?
      invariant body == map c | c in sent - left :: if CellOf(row, c).Blob? then WNull else ToWire(CellOf(row, c))
      decreases |left|
    {
      var c :| c in left;
      if c != DELETED_AT && c != s.pk(k.table) {
        if CellOf(row, c).Blob? {
          assert c in sent;
          return Unsupported;
        }
        body := body[c := ToWire(CellOf(row, c))];
      }
      left := left - {c};
    }
    assert sent - left == sent;
    if CellOf(row, DELETED_AT) != Null {
      return Tombstoned;
    }
    assert body == map c | c in sent :: ToWire(CellOf(row, c));
    snapshot := Body(body);
  }

  /** One item up to its request: what is settled locally, and what has to be sent. */
  method PrepareItem(conn: SyncDatabase, s: Schema, t: Table,
                     item: Pushable) returns (settled: Option<Verdict>, request: Option<Request>)
    modifies conn
    ensures match Prepare(s, old(conn.View()), t, item)
            case Settled(db, verdict) => settled == Some(verdict) && request == None && conn.View() == db
            case Send(r) => settled == None && request == Some(r) && conn.View() == old(conn.View())
  {
    settled, request := None, None;
    var remote := RemoteFor(conn.View(), t, item);
    var isDelete := item.operation.Delete?;
    var body: Option<Fields> := None;
    if !isDelete {
      var snapshot := ReadRowSnapshot(conn, s, Key(t, remote.GetOr(item.entityId)));
      match snapshot {
        case Unsupported =>
          conn.MarkFailed(LocalKey(t, item), item.id);
          settled := Some(Rejected);
          return;
        case Tombstoned => isDelete := true;
        case Body(fields) => body := Some(fields);
        case Missing =>
      }
    }
    if isDelete && remote.None? {
      conn.Remove(item.id);
      settled := Some(Dropped);
    } else if !isDelete && body.None? {
      conn.Remove(item.id);
      settled := Some(Dropped);
    } else if isDelete {
      request := Some(SyncPush.Remove(remote.value));
    } else if remote.Some? {
      request := Some(SyncPush.Patch(remote.value, body.value));
    } else {
      request := Some(Post(body.value));
    }
  }

  /** One item after its request. */
  method ReceiveAnswer(conn: SyncDatabase, s: Schema, t: Table, item: Pushable, request: Request,
                       outcome: Outcome) returns (verdict: Verdict)
    modifies conn
    ensures var r := Receive(s, old(conn.View()), t, item, request, outcome);
            verdict == r.verdict && conn.View() == r.db
  {
    if outcome.NetworkError? {
      return Offline;
    }
    if !Accepted(outcome) {
      if request.Remove? && outcome.status == 404 {
        conn.Remove(item.id);
        return RemotelyDeleted;
      }
      if outcome.status == 404 {
        conn.MarkBlocked(item.id);
        return Stuck;
      }
      conn.MarkFailed(LocalKey(t, item), item.id);
      return Rejected;
    }
    if request.Post? && outcome.body.NoObject? {
      conn.MarkFailed(LocalKey(t, item), item.id);
      return Rejected;
    }
    if request.Remove? {
      conn.Remove(item.id);
      return RemotelyDeleted;
    }
    verdict := ReplaceGuarded(conn, s, t, item, outcome.body);
  }

  /** One item, from the writes before it to its verdict. */
  method PushOne(
      conn: SyncDatabase, s: Schema, t: Table, item: Pushable, turn: Turn) returns (verdict: Verdict, sent: seq<Sent>)
    modifies conn
    ensures var one := PushItem(s, old(conn.View()), t, item, turn);
            conn.View() == one.db && verdict == one.verdict && sent == one.log
  {
    conn.Write(s, turn.before);
    var settled, request := PrepareItem(conn, s, t, item);
    if settled.Some? {
      return settled.value, [];
    }
    conn.Write(s, turn.during);
    verdict := ReceiveAnswer(conn, s, t, item, request.value, turn.outcome);
    sent := [Sent(LocalKey(t, item).id, request.value, turn.outcome)];
  }

  /** `run` is what was done so far followed by a push of the rest. */
  ghost predicate Continues(s: Schema, t: Table, run: PushRun, log: seq<Sent>, verdicts: seq<Verdict>,
                            db: Db, items: seq<Pushable>, turns: seq<Turn>)
  {
    var rest := PushItems(s, db, t, items, turns);
    run == PushRun(rest.db, log + rest.log, verdicts + rest.verdicts)
  }

  lemma ContinuesStep(s: Schema, t: Table, run: PushRun, log: seq<Sent>, verdicts: seq<Verdict>,
                      db: Db, items: seq<Pushable>, turns: seq<Turn>, i: nat)
    requires i < |items| && i < |turns| && Continues(s, t, run, log, verdicts, db, items[i..], turns[i..])
    ensures var one := PushItem(s, db, t, items[i], turns[i]);
            if one.verdict.Offline? then run == PushRun(one.db, log + one.log, verdicts + [one.verdict])
            else Continues(s, t, run, log + one.log, verdicts + [one.verdict], one.db, items[i + 1..], turns[i + 1..])
  {
    assert items[i..][1..] == items[i + 1..] && turns[i..][1..] == turns[i + 1..];
    var one := PushItem(s, db, t, items[i], turns[i]);
    if !one.verdict.Offline? {
      var rest := PushItems(s, one.db, t, items[i + 1..], turns[i + 1..]);
      assert log + (one.log + rest.log) == log + one.log + rest.log;
      assert verdicts + ([one.verdict] + rest.verdicts) == verdicts + [one.verdict] + rest.verdicts;
    }
  }

  /**
  Phase 1 of a session. Drains what ReadPending found, one request per item, and
  stops at the first network failure; the counters count the verdicts.
  */
  method RunPushPhase(conn: SyncDatabase, s: Schema, t: Table, turns: seq<Turn>)
    returns (replaced: nat, deleted: nat, failed: nat, abortedByNetwork: bool, log: seq<Sent>)
    modifies conn
    ensures var run := PushSession(s, old(conn.View()), t, turns);
            && conn.View() == run.db && log == run.log
            && replaced == Count(run.verdicts, Replaced) && deleted == Count(run.verdicts, RemotelyDeleted)
            && failed == Count(run.verdicts, Rejected) && (abortedByNetwork <==> Count(run.verdicts, Offline) > 0)
  {
    replaced, deleted, failed, abortedByNetwork, log := 0, 0, 0, false, [];
    var items := conn.ReadPending(t, MAX_PUSH_ITEMS);
    ghost var run := PushItems(s, conn.View(), t, items, turns);
    ghost var verdicts: seq<Verdict> := [];
    var i := 0;
    assert items[0..] == items && turns[0..] == turns;
    while i < |items| && i < |turns| && !abortedByNetwork
      invariant 0 <= i <= |items| && i <= |turns|
      invariant if abortedByNetwork then run == PushRun(conn.View(), log, verdicts)
                else Continues(s, t, run, log, verdicts, conn.View(), items[i..], turns[i..])
      invariant replaced == Count(verdicts, Replaced) && deleted == Count(verdicts, RemotelyDeleted)
      invariant failed == Count(verdicts, Rejected) && Count(verdicts, Offline) == if abortedByNetwork then 1 else 0
    {
      ContinuesStep(s, t, run, log, verdicts, conn.View(), items, turns, i);
      var verdict, sent := PushOne(conn, s, t, items[i], turns[i]);
      CountLast(verdicts, verdict);
      verdicts := verdicts + [verdict];
      log := log + sent;
      match verdict {
        case Replaced => replaced := replaced + 1;
        case RemotelyDeleted => deleted := deleted + 1;
        case Rejected => failed := failed + 1;
        case Offline => abortedByNetwork := true;
        case Dropped | Stuck =>
      }
      i := i + 1;
    }
    if !abortedByNetwork {
      assert log + [] == log && verdicts + [] == verdicts;
    }
  }

  lemma CountLast(vs: seq<Verdict>, v: Verdict)
    ensures forall w :: Count(vs + [v], w) == Count(vs, w) + if v == w then 1 else 0
  {
    forall w ensures Count(vs + [v], w) == Count(vs, w) + if v == w then 1 else 0 {
      CountAppend(vs, [v], w);
      assert Count([v][1..], w) == 0;
    }
  }

  // ---- SyncPullPhase ------------------------------------------------------------------------------------

  /** The server as one request finds it, and its answer. */
  method Request(server: ResourceStore, since: int, limit: nat, turn: PullTurn) returns (outcome: ListOutcome)
    modifies server
    ensures server.View() == ServeAll(server.columns, old(server.View()), turn.ops)
    ensures outcome == Answer(server.View(), since, limit, turn)
  {
    server.ServeEach(turn.ops);
    match turn.fault {
      case Some(fault) => outcome := fault;
      case None =>
        var page := server.ListPage(since, limit);
        outcome := ListAnswer(200, Some(page));
    }
  }

  /** Asks for one page, escalating the limit while a full page would not move the cursor. */
  method FetchPage(conn: SyncDatabase, server: ResourceStore, s: Schema, c: Paging, since: int, turns: seq<PullTurn>)
    returns (got: Option<Got>, rest: seq<PullTurn>)
    modifies conn, server
    ensures var f := Fetch(s, server.columns, old(server.View()), old(conn.View()), c, since, c.pageSize, MAX_ATTEMPTS,
                           turns);
            got == f.got && rest == f.rest && server.View() == f.server && conn.View() == f.db
  {
    rest := turns;
    var limit := c.pageSize;
    var attempt := 0;
    while attempt < MAX_ATTEMPTS && rest != []
      invariant 0 <= attempt < MAX_ATTEMPTS
      invariant Fetch(s, server.columns, server.View(), conn.View(), c, since, limit, MAX_ATTEMPTS - attempt, rest) ==
                Fetch(s, server.columns, old(server.View()), old(conn.View()), c, since, c.pageSize, MAX_ATTEMPTS,
                      turns)
      decreases |rest|
    {
      var outcome := Request(server, since, limit, rest[0]);
      conn.Write(s, rest[0].writes);
      rest := rest[1..];
      var page := ReadList(outcome);
      if page.None? {
        return None, rest;
      }
      if page.value == [] {
        return Some(Got([], limit, since)), rest;
      }
      var candidate := CandidateCursor(page.value[|page.value| - 1], c.cursorField);
      if candidate.None? {
        return None, rest;
      }
      if candidate.value > since || |page.value| != limit || attempt == MAX_ATTEMPTS - 1 {
        return Some(Got(page.value, limit, candidate.value)), rest;
      }
      limit := Escalated(limit);
      attempt := attempt + 1;
    }
    got := None;
  }

  /** `run` is what was applied so far followed by the rest of the session. */
  ghost predicate PullContinues(s: Schema, cols: set<Column>, t: Table, c: Paging, run: PullRun,
                                applied: seq<SyncApplier.Body>, sv: Server, db: Db, cursor: int, left: nat,
                                last: Option<Got>, turns: seq<PullTurn>)
  {
    var more := Pages(s, cols, sv, db, t, c, cursor, left, last, turns);
    run == more.(applied := applied + more.applied)
  }

  /** One page: where the session stands after it, and whether it goes on. */
  method PullOne(
      conn: SyncDatabase, server: ResourceStore, s: Schema, t: Table, c: Paging, cursor: int, turns: seq<PullTurn>)
    returns (next: int, last: Option<Got>, page: seq<SyncApplier.Body>, goOn: bool, rest: seq<PullTurn>)
    modifies conn, server
    ensures forall run, applied, left: nat, before | left > 0 &&
              PullContinues(s, server.columns, t, c, run, applied, old(server.View()), old(conn.View()), cursor, left,
                            before, turns) ::
              if goOn
              then PullContinues(s, server.columns, t, c, run, applied + page, server.View(), conn.View(), next,
                                 left - 1, last, rest)
              else run == PullRun(server.View(), conn.View(), next, last, applied + page)
  {
    next, page, goOn := cursor, [], false;
    last, rest := FetchPage(conn, server, s, c, cursor, turns);
    assert forall applied: seq<SyncApplier.Body> :: applied + [] == applied;
    if last.None? || last.value.page == [] {
      return;
    }
    var ok := ApplyGuarded(conn, s, t, last.value.page);
    if !ok {
      last := None;
      return;
    }
    page := last.value.page;
    if last.value.candidate <= cursor {
      return;
    }
    next := last.value.candidate;
    goOn := |page| >= c.pageSize;
    assert forall applied: seq<SyncApplier.Body>, more :: applied + (page + more) == applied + page + more;
  }

  /**
  Phase 2 of a session: pages until one is empty, short or stalled, or the pages
  of the session are used up; the cursor is saved after each page that moves it.
  */
  method RunPullPhase(
      conn: SyncDatabase, server: ResourceStore, s: Schema, t: Table, c: Paging, saved: int, turns: seq<PullTurn>)
    returns (cursor: int, last: Option<Got>, applied: seq<SyncApplier.Body>)
    modifies conn, server
    ensures var run := PullSession(s, server.columns, old(server.View()), old(conn.View()), t, c, saved, turns);
            run == PullRun(server.View(), conn.View(), cursor, last, applied)
  {
    hide Fetch, ApplyPage;
    cursor, last, applied := saved, None, [];
    var rest := turns;
    var left := c.maxPages;
    var goOn := true;
    ghost var run := PullSession(s, server.columns, server.View(), conn.View(), t, c, saved, turns);
    assert [] + run.applied == run.applied;
    while left > 0 && goOn
      invariant if goOn
                then PullContinues(s, server.columns, t, c, run, applied, server.View(), conn.View(), cursor, left,
                                   last, rest)
                else run == PullRun(server.View(), conn.View(), cursor, last, applied)
      decreases left
    {
      var page;
      cursor, last, page, goOn, rest := PullOne(conn, server, s, t, c, cursor, rest);
      applied := applied + page;
      left := left - 1;
    }
    assert applied + [] == applied;
  }
}
