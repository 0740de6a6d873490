/**
The database as the application means it: one row per localId, wherever that
row is stored. What each kind of step does to it, exactly.
*/
module SyncRows {
  import opened Wrappers
  import opened SyncStore
  import opened SyncApplier
  import opened SyncReplace
  import opened SyncPush
  import opened SyncRuns
  import opened SyncIdentity

  /** The row created as `lk`, found through its metadata. */
  function LogicalRow(db: Db, lk: Key): Option<Row> {
    match FindLocal(db.meta, lk)
    case None => None
    case Some(i) =>
      var k := Key(lk.table, db.meta[i].entityId);
      if k in db.rows then Some(db.rows[k]) else None
  }

  // ---- renaming references --------------------------------------------------------------------------

  /** A row of `table` after every foreign key to `parent` followed the rename. */
  function RenameRefs(rels: seq<Relation>, table: Table, row: Row, parent: Table, oldId: Id, newId: Id): Row
    decreases |rels|
  {
    if rels == [] then row
    else
      var first := if rels[0].parentTable == parent && rels[0].childTable == table
                   then RenameCell(row, rels[0].fkColumn, oldId, newId) else row;
      RenameRefs(rels[1..], table, first, parent, oldId, newId)
  }

  ghost predicate IsRef(rels: seq<Relation>, table: Table, col: Column, parent: Table) {
    exists i :: 0 <= i < |rels| && rels[i] == Relation(table, col, parent)
  }

  /** Exactly the cells of foreign keys that named the old id change. */
  lemma {:induction false} RenameRefsCell(
      rels: seq<Relation>, table: Table, row: Row, parent: Table, oldId: Id, newId: Id, col: Column)
    ensures CellOf(RenameRefs(rels, table, row, parent, oldId, newId), col) ==
            if IsRef(rels, table, col, parent) && CellOf(row, col) == Text(oldId) then Text(newId) else CellOf(row, col)
    decreases |rels|
  {
    if rels != [] {
      var first := if rels[0].parentTable == parent && rels[0].childTable == table
                   then RenameCell(row, rels[0].fkColumn, oldId, newId) else row;
      RenameRefsCell(rels[1..], table, first, parent, oldId, newId, col);
      var head := Relation(table, col, parent);
      assert IsRef(rels, table, col, parent) <==> rels[0] == head || IsRef(rels[1..], table, col, parent) by {
        if IsRef(rels[1..], table, col, parent) {
          var i :| 0 <= i < |rels[1..]| && rels[1..][i] == head;
          assert rels[i + 1] == head;
        }
        if IsRef(rels, table, col, parent) && rels[0] != head {
          var i :| 0 <= i < |rels| && rels[i] == head;
          assert rels[1..][i - 1] == head;
        }
      }
    }
  }

  /** How many relations the cascade gets past before one of its statements fails. */
  function CascadeReach(
      s: Schema, rows: map<Key, Row>, rels: seq<Relation>, parent: Table, oldId: Id, newId: Id): (n: nat)
    ensures n <= |rels|
    decreases |rels|
  {
    if rels == [] then 0
    else if rels[0].parentTable != parent then 1 + CascadeReach(s, rows, rels[1..], parent, oldId, newId)
    else
      var next := RenamedFks(rows, rels[0], oldId, newId);
      if next == rows || s.constraints(next) then 1 + CascadeReach(s, next, rels[1..], parent, oldId, newId) else 0
  }

  lemma {:induction false} AllowedReachesAll(
      s: Schema, rows: map<Key, Row>, rels: seq<Relation>, parent: Table, oldId: Id, newId: Id)
    requires CascadeAllowed(s, rows, rels, parent, oldId, newId)
    ensures CascadeReach(s, rows, rels, parent, oldId, newId) == |rels|
    decreases |rels|
  {
    if rels != [] {
      if rels[0].parentTable != parent {
        AllowedReachesAll(s, rows, rels[1..], parent, oldId, newId);
      } else {
        AllowedReachesAll(s, RenamedFks(rows, rels[0], oldId, newId), rels[1..], parent, oldId, newId);
      }
    }
  }

  /** The cascade, finished or not: every row followed the relations it got past. */
  lemma {:induction false} CascadeRows(
      s: Schema, db: Db, rels: seq<Relation>, parent: Table, oldId: Id, newId: Id)
    requires db.locked
    ensures var d := Cascade(s, db, rels, parent, oldId, newId).db;
            var past := rels[..CascadeReach(s, db.rows, rels, parent, oldId, newId)];
            && d.rows.Keys == db.rows.Keys
            && forall k <- db.rows :: d.rows[k] == RenameRefs(past, k.table, db.rows[k], parent, oldId, newId)
    decreases |rels|
  {
    if rels != [] {
      var n := CascadeReach(s, db.rows, rels, parent, oldId, newId);
      if rels[0].parentTable != parent {
        CascadeRows(s, db, rels[1..], parent, oldId, newId);
        assert rels[..n][1..] == rels[1..][..n - 1];
      } else if RenameFk(s, db, rels[0], oldId, newId).Some? {
        CascadeRows(s, RenameFk(s, db, rels[0], oldId, newId).value, rels[1..], parent, oldId, newId);
        assert rels[..n][1..] == rels[1..][..n - 1];
      }
    }
  }

  // ---- the replace transaction ------------------------------------------------------------------------

  /** The cells an answer writes over row `k`, none when the local data is newer. */
  function EchoCells(s: Schema, db: Db, k: Key, fields: Fields): Row {
    if EchoApplies(s, db, k, fields) then LocalCells(s, k.table, fields).GetOr(map[]) else map[]
  }

  function RenameKey(k: Key, t: Table, oldId: Id, newId: Id): Key {
    if k == Key(t, oldId) then Key(t, newId) else k
  }

  /** How many relations step 2 gets past: all when it goes through, none when it fails before the cascade. */
  function RewriteReach(s: Schema, db: Db, t: Table, oldId: Id, newId: Id, fields: Fields): (n: nat)
    ensures n <= |s.relations|
  {
    match LocalCells(s, t, fields)
    case None => 0
    case Some(cells) =>
      var renamed := db.(rows := RenamedRows(db.rows, t, oldId, newId));
      var at := Key(t, newId);
      if newId != oldId && RenameAllowed(s, db.rows, t, oldId, newId) && EchoAllowed(s, renamed, at, fields, cells)
      then CascadeReach(s, EchoedRows(s, renamed, at, fields, cells), s.relations, t, oldId, newId) else 0
  }

  /** What step 2 makes of the row stored under `k`. */
  function Rewritten(s: Schema, db: Db, k: Key, t: Table, oldId: Id, newId: Id, fields: Fields): Row
    requires k in db.rows
  {
    var row := if k == Key(t, oldId) && Echoes(s, db, t, oldId, newId, fields)
               then db.rows[k] + EchoCells(s, db, k, fields) else db.rows[k];
    RenameRefs(s.relations[..RewriteReach(s, db, t, oldId, newId, fields)], k.table, row, t, oldId, newId)
  }

  lemma RenamedRow(s: Schema, db: Db, k: Key, t: Table, oldId: Id, newId: Id)
    requires k in db.rows && newId != oldId && Key(t, newId) !in db.rows
    ensures var rows := RenamedRows(db.rows, t, oldId, newId);
            RenameKey(k, t, oldId, newId) in rows && rows[RenameKey(k, t, oldId, newId)] == db.rows[k]
  {
  }

  lemma EchoedRow(s: Schema, db: Db, k: Key, at: Key, fields: Fields, cells: Row)
    requires LocalCells(s, at.table, fields) == Some(cells) && k in db.rows
    ensures var rows := EchoedRows(s, db, at, fields, cells);
            k in rows && rows[k] == if k == at then db.rows[k] + EchoCells(s, db, k, fields) else db.rows[k]
  {
    assert db.rows[k] + map[] == db.rows[k];
  }

  /**
  Step 2, exactly: every row follows the rename as far as the rewrite came, and
  only the answered row takes data from the answer, if the echo was reached and
  went through.
  */
  lemma RewriteRow(s: Schema, db: Db, k: Key, t: Table, oldId: Id, newId: Id, fields: Fields)
    requires db.locked && k in db.rows && (newId != oldId ==> Key(t, newId) !in db.rows)
    requires k == Key(t, oldId) && newId != oldId ==>
      LocalCells(s, t, fields).Some? && RenameAllowed(s, db.rows, t, oldId, newId)
    ensures var rows := RewriteLocalRow(s, db, t, oldId, newId, Object(fields)).db.rows;
            RenameKey(k, t, oldId, newId) in rows &&
            rows[RenameKey(k, t, oldId, newId)] == Rewritten(s, db, k, t, oldId, newId, fields)
  {
    hide EchoCells;
    var at := Key(t, newId);
    if LocalCells(s, t, fields).Some? {
      var cells := LocalCells(s, t, fields).value;
      var renamed := db.(rows := RenamedRows(db.rows, t, oldId, newId));
      var done := if newId != oldId then RenameRow(s, db, t, oldId, newId) else Some(db);
      assert done == if RenameAllowed(s, db.rows, t, oldId, newId) then Some(renamed) else None;
      var k' := RenameKey(k, t, oldId, newId);
      if newId != oldId { RenamedRow(s, db, k, t, oldId, newId); }
      if done.Some? {
        var echoed := renamed.(rows := EchoedRows(s, renamed, at, fields, cells));
        assert WriteEcho(s, renamed, at, fields, cells)
            == if EchoAllowed(s, renamed, at, fields, cells) then Some(echoed) else None;
        EchoedRow(s, renamed, k', at, fields, cells);
        if k == Key(t, oldId) { SameEcho(s, renamed, db, k', k, fields); }
        if newId != oldId { CascadeRows(s, echoed, s.relations, t, oldId, newId); }
      }
    }
  }

  lemma SameEcho(s: Schema, db: Db, db': Db, k: Key, k': Key, fields: Fields)
    requires k.table == k'.table && k in db.rows && k' in db'.rows && db.rows[k] == db'.rows[k']
    ensures EchoCells(s, db, k, fields) == EchoCells(s, db', k', fields)
  {
  }

  /** Which relations an answer about `about` gets past. */
  function Past(s: Schema, db: Db, about: Key, fields: Fields): seq<Relation> {
    s.relations[..RewriteReach(s, db, about.table, StoredId(db.meta, about), AnsweredId(s, db.meta, about, fields),
                               fields)]
  }

  /** Whether an answer's data reaches the row it is about, told beforehand. */
  predicate Echoed(s: Schema, db: Db, about: Key, fields: Fields) {
    Echoes(s, db, about.table, StoredId(db.meta, about), AnsweredId(s, db.meta, about, fields), fields)
  }

  /**
  What an applied answer makes of the logical row `lk`, with `about` the answered
  row: its own row takes the answer's data if the echo goes through, and every
  row follows the rename as far as step 2 came.
  */
  function Answered(s: Schema, db: Db, lk: Key, about: Key, fields: Fields): Option<Row> {
    match LogicalRow(db, lk)
    case None => None
    case Some(row) =>
      if FindLocal(db.meta, about).None? then Some(row)
      else
        var merged := if lk == about && Echoed(s, db, about, fields)
                      then row + EchoCells(s, db, StoredAt(db.meta, about), fields) else row;
        Some(RenameRefs(Past(s, db, about, fields), lk.table, merged, about.table, StoredId(db.meta, about),
                        AnsweredId(s, db.meta, about, fields)))
  }

  /** Where the logical row `lk` is stored. */
  function StoredAt(ms: seq<Meta>, lk: Key): Key {
    match FindLocal(ms, lk)
    case None => lk
    case Some(i) => Key(lk.table, ms[i].entityId)
  }

  /** Renaming one metadata row moves exactly that row's logical key. */
  lemma StoredUnder(ms: seq<Meta>, ms': seq<Meta>, about: Key, i: nat, lk: Key)
    requires Distinct(ms) && FindLocal(ms, about) == Some(i)
    requires |ms'| == |ms| && ms' == ms[i := ms'[i]] && Distinct(ms')
    requires ms'[i].table == about.table && ms'[i].localId == about.id
    ensures FindLocal(ms', lk) == FindLocal(ms, lk)
    ensures FindLocal(ms, lk).Some? ==>
              var k := Key(lk.table, ms[FindLocal(ms, lk).value].entityId);
              && Key(lk.table, ms'[FindLocal(ms, lk).value].entityId) ==
                 RenameKey(k, about.table, ms[i].entityId, ms'[i].entityId)
              && (k == Key(about.table, ms[i].entityId) <==> lk == about)
  {
    match FindLocal(ms, lk)
    case None =>
      forall j | 0 <= j < |ms'| ensures ms'[j].table == lk.table ==> ms'[j].localId != lk.id {
        assert ms'[j].table == ms[j].table && ms'[j].localId == ms[j].localId;
      }
    case Some(j) =>
      LocalIndexUnique(ms', lk, j);
  }

  lemma SameEchoes(s: Schema, db: Db, db': Db, t: Table, oldId: Id, newId: Id, fields: Fields)
    requires db'.rows == db.rows
    ensures Echoes(s, db', t, oldId, newId, fields) == Echoes(s, db, t, oldId, newId, fields)
  {
    var at := Key(t, newId);
    var rows := RenamedRows(db.rows, t, oldId, newId);
    assert EchoApplies(s, db.(rows := rows), at, fields) == EchoApplies(s, db'.(rows := rows), at, fields);
  }

  lemma SameReach(s: Schema, db: Db, db': Db, t: Table, oldId: Id, newId: Id, fields: Fields)
    requires db'.rows == db.rows
    ensures RewriteReach(s, db', t, oldId, newId, fields) == RewriteReach(s, db, t, oldId, newId, fields)
  {
    var at := Key(t, newId);
    var rows := RenamedRows(db.rows, t, oldId, newId);
    assert EchoApplies(s, db.(rows := rows), at, fields) == EchoApplies(s, db'.(rows := rows), at, fields);
  }

  /** Step 2 on the logical rows, after the metadata row of `about` has moved. */
  lemma RewrittenLogical(s: Schema, db: Db, marked: Db, about: Key, i: nat, newId: Id, fields: Fields, lk: Key)
    requires Distinct(db.meta) && Distinct(marked.meta) && FindLocal(db.meta, about) == Some(i)
    requires marked == db.(meta := marked.meta, locked := true) && Records(db.meta, marked.meta, i, newId)
    requires newId == AnsweredId(s, db.meta, about, fields)
    requires newId != db.meta[i].entityId ==>
      Key(about.table, newId) !in db.rows && !Owned(db.meta, Key(about.table, newId))
    requires lk == about && newId != db.meta[i].entityId ==> Vacates(s, db, about, fields)
    ensures LogicalRow(RewriteLocalRow(s, marked, about.table, db.meta[i].entityId, newId, Object(fields)).db, lk)
         == Answered(s, db, lk, about, fields)
  {
    hide RewriteLocalRow, LocalCells, RewriteReach, EchoCells, RenameRefs, AnsweredId, Rewritable, Distinct;
    hide RenameAllowed, Echoes;
    var t, oldId := about.table, db.meta[i].entityId;
    RewriteFrame(s, marked, t, oldId, newId, Object(fields));
    StoredUnder(db.meta, marked.meta, about, i, lk);
    SameReach(s, db, marked, t, oldId, newId, fields);
    SameEchoes(s, db, marked, t, oldId, newId, fields);
    if FindLocal(db.meta, lk).Some? {
      var k := Key(lk.table, db.meta[FindLocal(db.meta, lk).value].entityId);
      if k !in db.rows {
        assert RenameKey(k, t, oldId, newId) !in RenamedKeys(db.rows.Keys, t, oldId, newId);
      } else {
        RewriteRow(s, marked, k, t, oldId, newId, fields);
        SameEcho(s, marked, db, k, k, fields);
      }
    }
  }

  lemma FreshIsNoRow(s: Schema, server: iset<Id>, db: Db, blocked: set<Key>, k: Key)
    requires Inv(s, server, db, blocked) && s.synced(k.table) && !Owned(db.meta, k) && k !in blocked
    ensures k !in db.rows
  {
  }

  /** The metadata row is gone: the transaction rolls back. */
  lemma LostReplaceLogical(s: Schema, db: Db, t: Table, item: Pushable, fields: Fields, lk: Key)
    requires FindLocal(db.meta, LocalKey(t, item)).None?
    ensures LogicalRow(Replace(s, db, t, item, Object(fields)).db, lk)
         == Answered(s, db, lk, LocalKey(t, item), fields)
  {
  }

  /**
  A replace transaction on the logical rows, whether step 2 goes through or not:
  no row appears or disappears, and each row not stranded is what Answered
  says.
  */
  lemma ReplaceLogical(s: Schema, server: iset<Id>, db: Db, blocked: set<Key>, t: Table, item: Pushable,
                       request: Request, fields: Fields, lk: Key)
    requires Inv(s, server, db, blocked) && Tracked(db.meta, blocked, t, item)
    requires RequestCurrent(db.meta, blocked, t, item, request)
    requires !request.Remove? && IdFits(s, server, db, blocked, t, request, fields) && s.synced(t)
    requires lk == LocalKey(t, item) ==> lk !in blocked && !Leaves(s, db, blocked, t, item, request, Object(fields))
    ensures LogicalRow(Replace(s, db, t, item, Object(fields)).db, lk)
         == Answered(s, db, lk, LocalKey(t, item), fields)
  {
    if FindLocal(db.meta, LocalKey(t, item)).None? {
      LostReplaceLogical(s, db, t, item, fields, lk);
    } else {
      hide RewriteLocalRow, Finishes, RecordRemoteSuccess, Replace, Answered, MetasSound, RequestCurrent, IdFits;
      hide Vacates;
      var about, body, open := LocalKey(t, item), Object(fields), db.(locked := true);
      TakenKeeps(s, server, db, blocked, t, item, request, body);
      RecordKeeps(s, server, open, blocked, t, item, request, body);
      ReplaceSteps(s, server, db, blocked, t, item, request, body);
      var i := FindLocal(db.meta, about).value;
      var r := RecordRemoteSuccess(s, open, about, body).value;
      RewriteFrame(s, r.db, t, r.oldId, r.newId, body);
      if r.newId != r.oldId { FreshIsNoRow(s, server, db, blocked, Key(t, r.newId)); }
      AreDistinct(server, db.meta, blocked);
      var after := Replace(s, db, t, item, body).db;
      var blocked' := if Leaves(s, db, blocked, t, item, request, body)
                      then WithNames(s, db, blocked, t, item, fields) else blocked;
      AreDistinct(server, after.meta, blocked');
      RewrittenLogical(s, db, r.db, about, i, r.newId, fields, lk);
    }
  }

  lemma AreDistinct(server: iset<Id>, ms: seq<Meta>, blocked: set<Key>)
    requires MetasSound(server, ms, blocked)
    ensures Distinct(ms)
  {
  }

  // ---- every other step ----------------------------------------------------------------------------------

  /** Metadata that keeps the ids shows the same row as long as the stored row is the same. */
  lemma SameStored(db: Db, db': Db, blocked: set<Key>, lk: Key)
    requires Distinct(db.meta) && Distinct(db'.meta) && Grows(db.meta, db'.meta, blocked)
    requires LogicalRow(db, lk).Some? && lk !in blocked
    ensures FindLocal(db'.meta, lk) == FindLocal(db.meta, lk)
    ensures var k := Key(lk.table, db.meta[FindLocal(db.meta, lk).value].entityId);
            LogicalRow(db', lk) == if k in db'.rows then Some(db'.rows[k]) else None
  {
    assert LocalKeyOf(db.meta[FindLocal(db.meta, lk).value]) == lk;
    LocalIndexUnique(db'.meta, lk, FindLocal(db.meta, lk).value);
  }

  /** A write changes the row it names and no other. */
  lemma WriteLogical(s: Schema, server: iset<Id>, db: Db, blocked: set<Key>, w: Write, lk: Key)
    requires Inv(s, server, db, blocked) && WriteFits(server, db, w) && LogicalRow(db, lk).Some?
    requires w.key != StoredAt(db.meta, lk) || !w.DeleteW?
    ensures LogicalRow(ApplyWrite(s, db, w), lk) == LogicalRow(db, lk) ||
            (w.UpdateW? && w.key == StoredAt(db.meta, lk) &&
             LogicalRow(ApplyWrite(s, db, w), lk) == Some(LogicalRow(db, lk).value + w.cells))
  {
    WriteKeeps(s, server, db, blocked, w);
    SameStored(db, ApplyWrite(s, db, w), {}, lk);
  }

  /** What one pulled row makes of the existing row stored under `k`. */
  function PulledInto(s: Schema, k: Key, row: Row, body: SyncApplier.Body): Row {
    if PulledKey(s, k.table, body) != Some(k) then row
    else
      var time := RemoteTime(s, k.table, body.fields);
      var local := CellOf(row, s.conflict(k.table).field);
      var wins := match s.conflict(k.table).strategy
        case ServerWins => true
        case ClientWins => false
        case LastWriteWins => !local.Num? || time > local.n;
      if !wins then row
      else
        match Number(body.fields, DELETED_AT)
        case Some(at) => row[DELETED_AT := Num(at)]
        case None => row + LocalCells(s, k.table, body.fields).GetOr(map[])
  }

  function PageInto(s: Schema, k: Key, row: Row, page: seq<SyncApplier.Body>): Row
    decreases |page|
  {
    if page == [] then row else PageInto(s, k, PulledInto(s, k, row, page[0]), page[1..])
  }

  lemma PulledStored(s: Schema, db: Db, t: Table, body: SyncApplier.Body, k: Key)
    requires db.locked && k in db.rows && ApplyRow(s, db, t, body).Some?
    ensures var rows := ApplyRow(s, db, t, body).value.rows;
            k in rows && rows[k] == if k.table == t then PulledInto(s, k, db.rows[k], body) else db.rows[k]
  {
    assert forall at :: db.rows[k] + map[DELETED_AT := Num(at)] == db.rows[k][DELETED_AT := Num(at)];
  }

  lemma {:induction false} PageStored(s: Schema, db: Db, t: Table, page: seq<SyncApplier.Body>, k: Key)
    requires db.locked && k in db.rows && ApplyRows(s, db, t, page).Some?
    ensures var rows := ApplyRows(s, db, t, page).value.rows;
            k in rows && rows[k] == if k.table == t then PageInto(s, k, db.rows[k], page) else db.rows[k]
    decreases |page|
  {
    if page != [] {
      PulledStored(s, db, t, page[0], k);
      var next := ApplyRow(s, db, t, page[0]).value;
      assert next.locked;
      PageStored(s, next, t, page[1..], k);
    }
  }

  /** A page reaches a logical row only through the rows that carry its id. */
  lemma PageLogical(
      s: Schema, server: iset<Id>, db: Db, blocked: set<Key>, t: Table, page: seq<SyncApplier.Body>, lk: Key)
    requires Inv(s, server, db, blocked) && PageFits(s, server, t, page) && ApplyPage(s, db, t, page).Some?
    requires LogicalRow(db, lk).Some? && lk !in blocked
    ensures LogicalRow(ApplyPage(s, db, t, page).value, lk) ==
            Some(if lk.table == t then PageInto(s, StoredAt(db.meta, lk), LogicalRow(db, lk).value, page)
                 else LogicalRow(db, lk).value)
  {
    var open := db.(locked := true);
    ApplyRowsKeep(s, server, open, blocked, t, page);
    PageStored(s, open, t, page, StoredAt(db.meta, lk));
    SameStored(db, ApplyPage(s, db, t, page).value, blocked, lk);
  }

  /** An answer whose data reaches the row it is about, told beforehand. */
  predicate Merges(s: Schema, db: Db, t: Table, item: Pushable, request: Request, outcome: Outcome) {
    Taken(request, outcome) && Echoed(s, db, LocalKey(t, item), outcome.body.fields)
  }

  /** An answer that is not applied, or holds no object, leaves rows and identity alone. */
  lemma UntakenReply(s: Schema, server: iset<Id>, db: Db, blocked: set<Key>, t: Table, item: Pushable,
                     request: Request, outcome: Outcome)
    requires Inv(s, server, db, blocked) && AtomFits(s, server, db, blocked, ReplyA(t, item, request, outcome))
    requires !Taken(request, outcome)
    ensures var d := Receive(s, db, t, item, request, outcome).db;
            d.rows == db.rows && Grows(db.meta, d.meta, {}) && |d.meta| == |db.meta|
  {
    if Accepted(outcome) && request.Patch? {
      EmptyReplace(s, server, db, blocked, t, item, request);
    } else {
      MetaFailedKeeps(server, db.meta, LocalKey(t, item), blocked);
      RefusedReply(s, db, t, item, request, outcome);
      hide Receive;
    }
  }

  lemma RefusedReply(s: Schema, db: Db, t: Table, item: Pushable, request: Request, outcome: Outcome)
    requires !Taken(request, outcome) && !(Accepted(outcome) && request.Patch?)
    ensures var d := Receive(s, db, t, item, request, outcome).db;
            d.rows == db.rows && (d.meta == db.meta || d.meta == MarkMetaFailed(db.meta, LocalKey(t, item)))
  {
    hide Replace, MarkMetaFailed, MarkItem, RemoveItem;
  }

  lemma EmptyReplace(
      s: Schema, server: iset<Id>, db: Db, blocked: set<Key>, t: Table, item: Pushable, request: Request)
    requires Inv(s, server, db, blocked) && RequestCurrent(db.meta, blocked, t, item, request) && request.Patch?
    ensures var d := Replace(s, db, t, item, NoObject).db;
            d.rows == db.rows && Grows(db.meta, d.meta, {}) && |d.meta| == |db.meta|
  {
    RecordKeeps(s, server, db.(locked := true), blocked, t, item, request, NoObject);
  }

  /**
  An answer on the logical rows: one that is applied does what Answered says, any
  other changes none.
  */
  lemma ReplyLogical(s: Schema, server: iset<Id>, db: Db, blocked: set<Key>, t: Table, item: Pushable,
                     request: Request, outcome: Outcome, lk: Key)
    requires Inv(s, server, db, blocked) && AtomFits(s, server, db, blocked, ReplyA(t, item, request, outcome))
    requires LogicalRow(db, lk).Some? && lk !in Blocks(s, db, blocked, ReplyA(t, item, request, outcome))
    ensures LogicalRow(Receive(s, db, t, item, request, outcome).db, lk) ==
            if Taken(request, outcome) then Answered(s, db, lk, LocalKey(t, item), outcome.body.fields)
            else LogicalRow(db, lk)
  {
    hide Finishes, Answered, Replace, LogicalRow, IdFits, RequestCurrent, Tracked, MetasSound;
    if Taken(request, outcome) {
      ReplaceLogical(s, server, db, blocked, t, item, request, outcome.body.fields, lk);
    } else {
      UntakenReply(s, server, db, blocked, t, item, request, outcome);
      ReceiveKeeps(s, server, db, blocked, t, item, request, outcome);
      var d := Receive(s, db, t, item, request, outcome).db;
      AreDistinct(server, db.meta, blocked);
      AreDistinct(server, d.meta, blocked);
      SameRows(db, d, lk);
    }
  }

  lemma SameRows(db: Db, db': Db, lk: Key)
    requires Distinct(db.meta) && Distinct(db'.meta) && Grows(db.meta, db'.meta, {}) && db'.rows == db.rows
    requires LogicalRow(db, lk).Some?
    ensures LogicalRow(db', lk) == LogicalRow(db, lk)
  {
    SameStored(db, db', {}, lk);
  }

  /** What a step of the sync engine makes of an existing logical row. */
  function Moved(s: Schema, db: Db, a: Atom, lk: Key): Option<Row> {
    match a
    case ReplyA(t, item, request, outcome) =>
      if Taken(request, outcome) then Answered(s, db, lk, LocalKey(t, item), outcome.body.fields)
      else LogicalRow(db, lk)
    case PageA(t, page) =>
      if ApplyPage(s, db, t, page).Some? && lk.table == t && LogicalRow(db, lk).Some?
      then Some(PageInto(s, StoredAt(db.meta, lk), LogicalRow(db, lk).value, page))
      else LogicalRow(db, lk)
    case _ => LogicalRow(db, lk)
  }

  lemma AtomLogical(s: Schema, server: iset<Id>, db: Db, blocked: set<Key>, a: Atom, lk: Key)
    requires Inv(s, server, db, blocked) && AtomFits(s, server, db, blocked, a) && !a.WriteA?
    requires LogicalRow(db, lk).Some? && lk !in Blocks(s, db, blocked, a)
    ensures LogicalRow(Act(s, db, a), lk) == Moved(s, db, a, lk) && Moved(s, db, a, lk).Some?
  {
    match a
    case SettleA(t, item) =>
      SettleKeeps(s, server, db, blocked, t, item);
      SameRows(db, Act(s, db, a), lk);
    case ReplyA(t, item, request, outcome) =>
      hide Receive, Taken;
      ReplyLogical(s, server, db, blocked, t, item, request, outcome, lk);
    case PageA(t, page) =>
      if ApplyPage(s, db, t, page).Some? {
        PageLogical(s, server, db, blocked, t, page, lk);
      }
  }
}
