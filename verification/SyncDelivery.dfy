/**
What the server is sent: a row the server has named is never posted again, and
the one path on which that fails.
*/
module SyncDelivery {
  import opened Wrappers
  import opened SyncStore
  import opened SyncApplier
  import opened SyncReplace
  import opened SyncPush
  import opened SyncRuns
  import opened SyncIdentity

  function Target(request: Request): Option<Id> {
    match request
    case Post(_) => None
    case Patch(id, _) => Some(id)
    case Remove(id) => Some(id)
  }

  /** A create the server accepted and echoed. */
  predicate Acknowledged(e: Logged) {
    && e.sent.request.Post? && e.sent.outcome.Response? && 200 <= e.sent.outcome.status <= 299
    && e.sent.outcome.body.Object?
  }

  lemma RemoteIdKept(server: iset<Id>, ms: seq<Meta>, ms': seq<Meta>, blocked: set<Key>, blocked': set<Key>, row: Key)
    requires MetasSound(server, ms, blocked) && MetasSound(server, ms', blocked') && Evolves(ms, ms', blocked')
    requires RemoteIdOf(ms, row).Some? && row !in blocked'
    ensures RemoteIdOf(ms', row) == RemoteIdOf(ms, row)
  {
    LocalIndexUnique(ms', row, FindLocal(ms, row).value);
  }

  /** Once the server's name of a row is known, every request about it goes to that name. */
  lemma {:induction false} NamedRowIsAddressed(
      s: Schema, server: iset<Id>, db: Db, blocked: set<Key>, atoms: seq<Atom>, row: Key)
    requires Inv(s, server, db, blocked) && AtomsFit(s, server, db, blocked, atoms)
    requires RemoteIdOf(db.meta, row).Some? && row !in BlockedAfter(s, db, blocked, atoms)
    ensures forall i | 0 <= i < |LogOf(atoms)| && LogOf(atoms)[i].row == row ::
              Target(LogOf(atoms)[i].sent.request) == RemoteIdOf(db.meta, row)
    ensures RemoteIdOf(Acts(s, db, atoms).meta, row) == RemoteIdOf(db.meta, row)
    decreases |atoms|
  {
    hide Act, Blocks, MetasSound, Evolves, RemoteIdOf, QueueOwned, RowsOwned;
    if atoms != [] {
      var next, mid := Act(s, db, atoms[0]), Blocks(s, db, blocked, atoms[0]);
      AtomKeeps(s, server, db, blocked, atoms[0]);
      RemoteIdKept(server, db.meta, next.meta, blocked, mid, row);
      NamedRowIsAddressed(s, server, next, mid, atoms[1..], row);
      var rest := LogOf(atoms[1..]);
      forall i | 0 <= i < |LogOf(atoms)| && LogOf(atoms)[i].row == row
        ensures Target(LogOf(atoms)[i].sent.request) == RemoteIdOf(db.meta, row)
      {
        LogStep(atoms, i);
        if !atoms[0].ReplyA? || i > 0 {
          assert LogOf(atoms)[i] == if atoms[0].ReplyA? then rest[i - 1] else rest[i];
        }
      }
    }
  }

  lemma LogStep(atoms: seq<Atom>, i: nat)
    requires atoms != [] && i < |LogOf(atoms)|
    ensures !atoms[0].ReplyA? ==> i < |LogOf(atoms[1..])| && LogOf(atoms[1..])[i] == LogOf(atoms)[i]
    ensures atoms[0].ReplyA? && i > 0 ==>
              i - 1 < |LogOf(atoms[1..])| && LogOf(atoms[1..])[i - 1] == LogOf(atoms)[i]
  {
  }

  lemma {:induction false} AcknowledgedOnceA(
      s: Schema, server: iset<Id>, db: Db, blocked: set<Key>, atoms: seq<Atom>, i: nat, j: nat)
    requires Inv(s, server, db, blocked) && AtomsFit(s, server, db, blocked, atoms)
    requires i < j < |LogOf(atoms)| && LogOf(atoms)[i].row == LogOf(atoms)[j].row && Acknowledged(LogOf(atoms)[i])
    requires LogOf(atoms)[i].row !in BlockedAfter(s, db, blocked, atoms)
    ensures RemoteIdOf(Acts(s, db, atoms).meta, LogOf(atoms)[i].row).Some?
    ensures Target(LogOf(atoms)[j].sent.request) == RemoteIdOf(Acts(s, db, atoms).meta, LogOf(atoms)[i].row)
    decreases |atoms|
  {
    hide Inv, AtomFits, Act, Blocks;
    var next, mid := Act(s, db, atoms[0]), Blocks(s, db, blocked, atoms[0]);
    AtomKeeps(s, server, db, blocked, atoms[0]);
    LogStep(atoms, i);
    LogStep(atoms, j);
    if !atoms[0].ReplyA? {
      AcknowledgedOnceA(s, server, next, mid, atoms[1..], i, j);
    } else if i == 0 {
      HeadIsNamed(s, server, db, blocked, atoms);
      NamedRowIsAddressed(s, server, next, mid, atoms[1..], LogOf(atoms)[0].row);
    } else {
      AcknowledgedOnceA(s, server, next, mid, atoms[1..], i - 1, j - 1);
    }
  }

  lemma HeadIsNamed(s: Schema, server: iset<Id>, db: Db, blocked: set<Key>, atoms: seq<Atom>)
    requires Inv(s, server, db, blocked) && atoms != [] && AtomFits(s, server, db, blocked, atoms[0])
    requires atoms[0].ReplyA? && Acknowledged(LogOf(atoms)[0])
    requires LogOf(atoms)[0].row !in Blocks(s, db, blocked, atoms[0])
    ensures RemoteIdOf(Act(s, db, atoms[0]).meta, LogOf(atoms)[0].row).Some?
  {
    hide Inv, AtomFits, Receive, Blocks, RemoteIdOf;
    var a := atoms[0];
    ReceiveKeeps(s, server, db, blocked, a.table, a.item, a.request, a.outcome);
  }

  /**
  Over every run, for every row that is not stranded: after an
  acknowledged POST of the row, every later request about it, in this session or
  another, is a PATCH or a DELETE on the id the server gave it. Other rows may be
  blocked meanwhile, and this row's own rewrite may have failed after the rename.
  */
  lemma AcknowledgedOnce(
      s: Schema, server: iset<Id>, db: Db, blocked: set<Key>, events: seq<Event>, i: nat, j: nat)
    requires Inv(s, server, db, blocked) && EventsFit(s, server, db, blocked, events)
    requires var log := Steps(s, db, events).log;
             && i < j < |log| && log[i].row == log[j].row && Acknowledged(log[i])
             && log[i].row !in BlockedIn(s, db, blocked, events)
    ensures var run := Steps(s, db, events);
            && RemoteIdOf(run.db.meta, run.log[i].row).Some?
            && Target(run.log[j].sent.request) == RemoteIdOf(run.db.meta, run.log[i].row)
  {
    EventsAreAtoms(s, server, db, blocked, events);
    AtomsRun(s, db, events);
    AcknowledgedOnceA(s, server, db, blocked, Atoms(s, db, events), i, j);
  }

  // ---- what is left of a create that was not carried to its end -----------------------------------

  /**
  A create was answered with an id and recorded, and step 2 failed. What the next
  session does with another item of the row, read afresh: it asks for a POST of
  the same row, with the row as it is, unless the row's old name was freed; if it
  was, or if the item is a delete, the item is dropped.
  */
  lemma LeftOverFate(s: Schema, server: iset<Id>, db: Db, blocked: set<Key>, t: Table, item: Pushable,
                     fields: Fields, sent: Fields, x: Item)
    requires Inv(s, server, db, blocked) && LocalKey(t, item) !in blocked && ItemKnown(db.meta, t, item)
    requires RequestCurrent(db.meta, blocked, t, item, Post(sent))
    requires s.pk(t) in fields && IdFits(s, server, db, blocked, t, Post(sent), fields)
    requires !Finishes(s, db, LocalKey(t, item), fields) && x.table == t && x.entityId == item.entityId
    ensures
      var lk, d := LocalKey(t, item), Replace(s, db, t, item, Object(fields)).db;
      Prepare(s, d, t, Read(d.meta, x)) ==
      if x.operation.Delete? || Vacates(s, db, lk, fields) then Settled(DropItem(d, x.id), Dropped)
      else
        match ReadSnapshot(s, db, lk)
        case Body(row) => Send(Post(row))
        case Unsupported => Settled(FailItem(d, lk, x.id), Rejected)
        case _ => Settled(DropItem(d, x.id), Dropped)
  {
    hide Inv, Finishes, Replace, Vacates, IdFits, RequestCurrent, AnsweredId;
    AnsweredQueue(s, server, db, blocked, t, item, fields, sent);
    var d := Replace(s, db, t, item, Object(fields)).db;
    assert Read(d.meta, x) == Pushable(x.id, x.operation, x.entityId, None);
    if !Vacates(s, db, LocalKey(t, item), fields) {
      SameSnapshot(s, d, db, LocalKey(t, item));
    }
  }

  lemma SameSnapshot(s: Schema, db: Db, db': Db, k: Key)
    requires db.rows == db'.rows
    ensures ReadSnapshot(s, db, k) == ReadSnapshot(s, db', k)
  {
  }

  /**
  The row is posted a second time exactly when the row is still there to be sent
  and step 2 stopped before it was renamed: a known column that is no scalar, or
  a rename the tables do not accept.
  */
  lemma PostsAgainIff(s: Schema, server: iset<Id>, db: Db, blocked: set<Key>, t: Table, item: Pushable,
                      fields: Fields, sent: Fields, x: Item)
    requires Inv(s, server, db, blocked) && LocalKey(t, item) !in blocked && ItemKnown(db.meta, t, item)
    requires RequestCurrent(db.meta, blocked, t, item, Post(sent))
    requires s.pk(t) in fields && IdFits(s, server, db, blocked, t, Post(sent), fields)
    requires !Finishes(s, db, LocalKey(t, item), fields)
    requires x.table == t && x.entityId == item.entityId && !x.operation.Delete?
    ensures
      var lk, d := LocalKey(t, item), Replace(s, db, t, item, Object(fields)).db;
      var p := Prepare(s, d, t, Read(d.meta, x));
      (p.Send? && p.request.Post?) <==>
        && ReadSnapshot(s, db, lk).Body?
        && !(LocalCells(s, t, fields).Some? &&
             RenameAllowed(s, db.rows, t, lk.id, AnsweredId(s, db.meta, lk, fields)))
  {
    hide Inv, Finishes, Replace, IdFits, RequestCurrent, AnsweredId, RenameAllowed, LocalCells;
    LeftOverFate(s, server, db, blocked, t, item, fields, sent, x);
    AnsweredQueue(s, server, db, blocked, t, item, fields, sent);
  }

  /**
  If the rename was made and only the echo or the cascade failed, the row's other
  items are dropped without a request: an edit they stand for is never pushed.
  */
  lemma RenamedEditIsDropped(s: Schema, server: iset<Id>, db: Db, blocked: set<Key>, t: Table, item: Pushable,
                             fields: Fields, sent: Fields, x: Item)
    requires Inv(s, server, db, blocked) && LocalKey(t, item) !in blocked && ItemKnown(db.meta, t, item)
    requires RequestCurrent(db.meta, blocked, t, item, Post(sent))
    requires s.pk(t) in fields && IdFits(s, server, db, blocked, t, Post(sent), fields)
    requires !Finishes(s, db, LocalKey(t, item), fields) && x.table == t && x.entityId == item.entityId
    requires LocalCells(s, t, fields).Some?
    requires RenameAllowed(s, db.rows, t, LocalKey(t, item).id, AnsweredId(s, db.meta, LocalKey(t, item), fields))
    ensures
      var d := Replace(s, db, t, item, Object(fields)).db;
      Prepare(s, d, t, Read(d.meta, x)) == Settled(DropItem(d, x.id), Dropped)
  {
    hide Inv, Finishes, Replace, IdFits, RequestCurrent, AnsweredId, RenameAllowed, LocalCells;
    LeftOverFate(s, server, db, blocked, t, item, fields, sent, x);
    AnsweredQueue(s, server, db, blocked, t, item, fields, sent);
  }

  /**
  An item of the row that the same session had read before the answer still knows
  the row by its localId. It never posts: it goes to the server's id if the row
  is stored there now, and is dropped if it is not.
  */
  lemma StaleItemFate(s: Schema, server: iset<Id>, db: Db, blocked: set<Key>, t: Table, item: Pushable,
                      fields: Fields, sent: Fields, y: Pushable)
    requires Inv(s, server, db, blocked) && LocalKey(t, item) !in blocked && ItemKnown(db.meta, t, item)
    requires RequestCurrent(db.meta, blocked, t, item, Post(sent)) && s.synced(t)
    requires s.pk(t) in fields && IdFits(s, server, db, blocked, t, Post(sent), fields)
    requires y.localId == item.localId
    ensures
      var lk, d := LocalKey(t, item), Replace(s, db, t, item, Object(fields)).db;
      var p, newId := Prepare(s, d, t, y), AnsweredId(s, db.meta, lk, fields);
      && (p.Send? ==> Target(p.request) == Some(newId))
      && (y.operation.Delete? ==> p == Send(Remove(newId)))
      && (!y.operation.Delete? && !Vacates(s, db, lk, fields) ==> p == Settled(DropItem(d, y.id), Dropped))
  {
    hide Finishes, Replace, Vacates, MetasSound, QueueKept;
    var lk, d := LocalKey(t, item), Replace(s, db, t, item, Object(fields)).db;
    AnsweredQueue(s, server, db, blocked, t, item, fields, sent);
    assert RemoteFor(d, t, y) == Some(AnsweredId(s, db.meta, lk, fields));
    assert Key(t, AnsweredId(s, db.meta, lk, fields)) !in db.rows;
  }

  // ---- the path on which it fails -------------------------------------------------------------------------

  const USERS: Table := "users"

  function PlainSchema(): Schema {
    Schema(t => "id", t => {"id", "name", "updatedAt", DELETED_AT}, t => true,
           t => Conflict(LastWriteWins, "updatedAt"), [], rows => true)
  }

  /**
  Two local writes, then two sessions of one item each. The server answers the
  first POST with its id and an array in a known column.
  */
  const STUCK_RUN: seq<Event> := [
    WriteE(InsertW(Key(USERS, "tmp"), map["name" := Text("a")])),
    WriteE(UpdateW(Key(USERS, "tmp"), map["name" := Text("b")])),
    PushE(USERS, [Turn([], [], Response(201, Object(map["id" := WText("7"), "name" := WNested])))]),
    PushE(USERS, [Turn([], [], Response(201, Object(map["id" := WText("8")])))])
  ]

  const TMP := Key(USERS, "tmp")
  const NAMED_B: Row := map["name" := Text("b")]

  /** After the two writes. */
  const BEFORE := Db(map[TMP := NAMED_B], [Meta(USERS, "tmp", "tmp", None, Update, Unsynced, 0)],
                     [Item(1, Insert, USERS, "tmp", Pending, 0), Item(2, Update, USERS, "tmp", Pending, 0)], 3, false)

  /** After the first session: the metadata moved to the server's id, the row and both items did not. */
  const AFTER := Db(map[TMP := NAMED_B], [Meta(USERS, "tmp", "7", Some("7"), Update, Synced, 0)],
                    [Item(1, Insert, USERS, "tmp", Blocked, 1), Item(2, Update, USERS, "tmp", Pending, 0)], 3, false)

  lemma TwoWrites()
    ensures ApplyWrite(PlainSchema(), ApplyWrite(PlainSchema(), EMPTY, STUCK_RUN[0].write), STUCK_RUN[1].write)
         == BEFORE
  {
    var a := map["name" := Text("a")];
    var one := ApplyWrite(PlainSchema(), EMPTY, STUCK_RUN[0].write);
    assert one == Db(map[TMP := a], [Meta(USERS, "tmp", "tmp", None, Insert, Unsynced, 0)],
                     [Item(1, Insert, USERS, "tmp", Pending, 0)], 2, false);
    assert a + NAMED_B == NAMED_B;
    assert map[TMP := a][TMP := NAMED_B] == map[TMP := NAMED_B];
    assert FindEntity(one.meta, TMP) == Some(0);
  }

  lemma PostsTmp(db: Db, item: Pushable)
    requires db.rows == map[TMP := NAMED_B] && item.entityId == "tmp" && !item.operation.Delete?
    requires RemoteFor(db, USERS, item).None?
    ensures Prepare(PlainSchema(), db, USERS, item).Send? && Prepare(PlainSchema(), db, USERS, item).request.Post?
  {
    assert ReadSnapshot(PlainSchema(), db, TMP).Body?;
  }

  /** The replace transaction of the first item: recorded, not rewritten, blocked. */
  lemma FirstReplace(item: Pushable, body: SyncApplier.Body)
    requires item == Pushable(1, Insert, "tmp", Some("tmp")) && body == STUCK_RUN[2].turns[0].outcome.body
    ensures Replace(PlainSchema(), BEFORE, USERS, item, body) == Received(AFTER, Stuck)
  {
    var s := PlainSchema();
    var open := BEFORE.(locked := true);
    assert "name" in body.fields && body.fields["name"].WNested?;
    assert LocalCells(s, USERS, body.fields).None?;
    assert FindLocal(open.meta, TMP) == Some(0) && FindEntity(open.meta, Key(USERS, "7")).None?;
    assert open.meta[0 := AFTER.meta[0]] == AFTER.meta;
    assert MarkReplaced(open.meta, TMP, "7") == Some(AFTER.meta);
    assert RecordRemoteSuccess(s, open, TMP, body) == Some(Recorded(open.(meta := AFTER.meta), "tmp", "7"));
    assert MarkItem(BEFORE.queue, 1, Blocked) == AFTER.queue;
  }

  lemma FirstSession()
    ensures var run := PushSession(PlainSchema(), BEFORE, USERS, STUCK_RUN[2].turns);
            && run.db == AFTER && |run.log| == 1 && run.log[0].localId == "tmp"
            && run.log[0].request.Post? && run.log[0].outcome == STUCK_RUN[2].turns[0].outcome
  {
    var s := PlainSchema();
    var turns := STUCK_RUN[2].turns;
    var items := ReadPending(BEFORE, USERS, MAX_PUSH_ITEMS);
    var item := Pushable(1, Insert, "tmp", Some("tmp"));
    assert FindEntity(BEFORE.meta, TMP) == Some(0) && FindLocal(BEFORE.meta, TMP) == Some(0);
    assert items[0] == item;
    PostsTmp(BEFORE, item);
    FirstReplace(item, turns[0].outcome.body);
    var one := PushItem(s, BEFORE, USERS, item, turns[0]);
    assert one.db == AFTER && one.verdict == Stuck;
    assert turns[1..] == [];
    assert PushItems(s, AFTER, USERS, items[1..], []) == PushRun(AFTER, [], []);
  }

  lemma SecondSession()
    ensures var log := PushSession(PlainSchema(), AFTER, USERS, STUCK_RUN[3].turns).log;
            |log| == 1 && log[0].localId == "tmp" && log[0].request.Post?
  {
    var turn := STUCK_RUN[3].turns[0];
    var items := ReadPending(AFTER, USERS, MAX_PUSH_ITEMS);
    assert FindEntity(AFTER.meta, TMP).None?;
    var item := Pushable(2, Update, "tmp", None);
    assert AFTER.queue[1..][1..] == [];
    assert PendingItems(AFTER.meta, AFTER.queue[1..], USERS) == [item] + PendingItems(AFTER.meta, [], USERS);
    assert items == [item];
    PostsTmp(AFTER, item);
    var one := PushItem(PlainSchema(), AFTER, USERS, item, turn);
    assert PushItems(PlainSchema(), one.db, USERS, items[1..], []).log == [];
    assert STUCK_RUN[3].turns[1..] == [];
  }

  /** Nothing about the run is out of the ordinary but that its row is stranded. */
  lemma StuckRowIsBlocked()
    ensures TMP in BlockedIn(PlainSchema(), EMPTY, {}, STUCK_RUN)
  {
    hide PlainSchema, ApplyWrite, Blocks, Atoms, EventAtoms, BlockedAfter, Acts;
    var s := PlainSchema();
    var answered := EventAtoms(s, BEFORE, STUCK_RUN[2]);
    var rest := Atoms(s, Step(s, BEFORE, STUCK_RUN[2]).db, STUCK_RUN[3..]);
    StuckAtoms();
    WritesBlockNothing(s, EMPTY, STUCK_RUN[0].write, STUCK_RUN[1].write, answered + rest);
    TwoWrites();
    BlockedAppend(s, BEFORE, {}, answered, rest);
    FirstAnswerBlocks();
  }

  lemma WritesBlockNothing(s: Schema, db: Db, first: Write, second: Write, atoms: seq<Atom>)
    ensures BlockedAfter(s, db, {}, [WriteA(first)] + ([WriteA(second)] + atoms))
         == BlockedAfter(s, ApplyWrite(s, ApplyWrite(s, db, first), second), {}, atoms)
  {
    hide ApplyWrite;
    var tail := [WriteA(second)] + atoms;
    assert ([WriteA(first)] + tail)[1..] == tail && tail[1..] == atoms;
    assert BlockedAfter(s, ApplyWrite(s, db, first), {}, tail)
        == BlockedAfter(s, ApplyWrite(s, ApplyWrite(s, db, first), second), {}, atoms);
  }

  lemma StuckAtoms()
    ensures
      var s := PlainSchema();
      var answered := EventAtoms(s, BEFORE, STUCK_RUN[2]);
      var rest := Atoms(s, Step(s, BEFORE, STUCK_RUN[2]).db, STUCK_RUN[3..]);
      Atoms(s, EMPTY, STUCK_RUN)
      == [WriteA(STUCK_RUN[0].write)] + ([WriteA(STUCK_RUN[1].write)] + (answered + rest))
  {
    hide PushSession;
    var s := PlainSchema();
    var one := ApplyWrite(s, EMPTY, STUCK_RUN[0].write);
    TwoWrites();
    assert STUCK_RUN[1..][1..] == STUCK_RUN[2..] && STUCK_RUN[2..][1..] == STUCK_RUN[3..];
    assert Atoms(s, one, STUCK_RUN[1..]) == [WriteA(STUCK_RUN[1].write)] + Atoms(s, BEFORE, STUCK_RUN[2..]);
  }

  lemma FirstAnswerBlocks()
    ensures TMP in BlockedAfter(PlainSchema(), BEFORE, {}, EventAtoms(PlainSchema(), BEFORE, STUCK_RUN[2]))
  {
    var s := PlainSchema();
    var turn := STUCK_RUN[2].turns[0];
    var items := ReadPending(BEFORE, USERS, MAX_PUSH_ITEMS);
    var item := Pushable(1, Insert, "tmp", Some("tmp"));
    assert FindEntity(BEFORE.meta, TMP) == Some(0) && FindLocal(BEFORE.meta, TMP) == Some(0);
    assert items[0] == item;
    PostsTmp(BEFORE, item);
    var request := Prepare(s, BEFORE, USERS, item).request;
    var reply := ReplyA(USERS, item, request, turn.outcome);
    var one := PushItem(s, BEFORE, USERS, item, turn);
    var fields := turn.outcome.body.fields;
    assert STUCK_RUN[2].turns[1..] == [];
    assert ItemsAtoms(s, one.db, USERS, items[1..], []) == [];
    assert EventAtoms(s, BEFORE, STUCK_RUN[2]) == [reply];
    assert "name" in fields && fields["name"].WNested?;
    assert LocalCells(s, USERS, fields).None?;
    assert TMP in Blocks(s, BEFORE, {}, reply);
    assert [reply][1..] == [];
  }

  /**
  Step 2 of the replace fails after step 1: the item is blocked as intended, but
  the row's other item lost its metadata row and posts the same row again.
  */
  lemma StuckReplacePostsTwice()
    ensures var log := Steps(PlainSchema(), EMPTY, STUCK_RUN).log;
            && |log| == 2 && log[0].row == log[1].row == TMP
            && Acknowledged(log[0]) && log[1].sent.request.Post?
  {
    TwoWrites();
    FirstSession();
    SecondSession();
    var s := PlainSchema();
    var last := STUCK_RUN[3..];
    assert Steps(s, AFTER, last).log == Step(s, AFTER, STUCK_RUN[3]).log + [];
    assert STUCK_RUN[2..][1..] == last;
    assert Steps(s, BEFORE, STUCK_RUN[2..]).log == Step(s, BEFORE, STUCK_RUN[2]).log + Steps(s, AFTER, last).log;
    var one := ApplyWrite(s, EMPTY, STUCK_RUN[0].write);
    assert STUCK_RUN[1..][1..] == STUCK_RUN[2..];
    assert Steps(s, one, STUCK_RUN[1..]).log == Steps(s, BEFORE, STUCK_RUN[2..]).log;
  }
}
