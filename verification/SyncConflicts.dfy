/**
Local data against the server's: rows are never lost to synchronisation, a local
edit gives way only to data at least as new, and conflict times never fall.
*/
module SyncConflicts {
  import opened Wrappers
  import opened SyncStore
  import opened SyncApplier
  import opened SyncReplace
  import opened SyncPush
  import opened SyncRuns
  import opened SyncIdentity
  import opened SyncRows

  // ---- rows are never lost -------------------------------------------------------------------------------

  /** No step deletes the row `lk` in the application's name. */
  ghost predicate Spared(s: Schema, db: Db, atoms: seq<Atom>, lk: Key)
    decreases |atoms|
  {
    atoms == [] ||
    (&& !(atoms[0].WriteA? && atoms[0].write.DeleteW? && atoms[0].write.key == StoredAt(db.meta, lk))
     && Spared(s, Act(s, db, atoms[0]), atoms[1..], lk))
  }

  lemma {:induction false} RowsAreKept(
      s: Schema, server: iset<Id>, db: Db, blocked: set<Key>, atoms: seq<Atom>, lk: Key)
    requires Inv(s, server, db, blocked) && AtomsFit(s, server, db, blocked, atoms) && Spared(s, db, atoms, lk)
    requires LogicalRow(db, lk).Some?
    requires lk !in BlockedAfter(s, db, blocked, atoms)
    ensures LogicalRow(Acts(s, db, atoms), lk).Some?
    decreases |atoms|
  {
    if atoms != [] {
      var a := atoms[0];
      AtomKeeps(s, server, db, blocked, a);
      if a.WriteA? {
        WriteLogical(s, server, db, blocked, a.write, lk);
      } else {
        AtomLogical(s, server, db, blocked, a, lk);
      }
      RowsAreKept(s, server, Act(s, db, a), Blocks(s, db, blocked, a), atoms[1..], lk);
    }
  }

  /**
  The row created as `lk` stays stored under the entityId its metadata gives,
  through every id replacement and page, until the application deletes it.
  */
  lemma RowsAreNeverLost(s: Schema, server: iset<Id>, db: Db, blocked: set<Key>, events: seq<Event>, lk: Key)
    requires Inv(s, server, db, blocked) && EventsFit(s, server, db, blocked, events)
    requires Spared(s, db, Atoms(s, db, events), lk)
    requires LogicalRow(db, lk).Some?
    requires lk !in BlockedIn(s, db, blocked, events)
    ensures LogicalRow(Steps(s, db, events).db, lk).Some?
  {
    EventsAreAtoms(s, server, db, blocked, events);
    AtomsRun(s, db, events);
    RowsAreKept(s, server, db, blocked, Atoms(s, db, events), lk);
  }

  // ---- lastWriteWins ----------------------------------------------------------------------------------------

  ghost predicate IsFk(s: Schema, table: Table, col: Column) {
    exists i :: 0 <= i < |s.relations| && s.relations[i].childTable == table && s.relations[i].fkColumn == col
  }

  /** The table compares a plain data column of its own. */
  ghost predicate Timed(s: Schema, t: Table) {
    var field := s.conflict(t).field;
    && s.conflict(t).strategy.LastWriteWins? && field in s.cols(t) && field != s.pk(t) && field != DELETED_AT
    && !IsFk(s, t, field)
  }

  function TimeOf(s: Schema, t: Table, row: Row): Option<int> {
    var c := CellOf(row, s.conflict(t).field);
    if c.Num? then Some(c.n) else None
  }

  /** Equal but for foreign keys, which follow the renames of their parents. */
  ghost predicate SameData(s: Schema, t: Table, row: Row, row': Row) {
    forall c :: !IsFk(s, t, c) ==> CellOf(row', c) == CellOf(row, c)
  }

  /** The step does not write `lk` locally, and whatever it brings for `lk` is not newer than `time`. */
  ghost predicate Older(s: Schema, db: Db, a: Atom, lk: Key, time: int) {
    match a
    case WriteA(w) => w.key != StoredAt(db.meta, lk)
    case SettleA(_, _) => true
    case ReplyA(t, item, request, outcome) =>
      LocalKey(t, item) == lk && Merges(s, db, t, item, request, outcome) ==>
        Number(outcome.body.fields, s.conflict(t).field).Some? &&
        Number(outcome.body.fields, s.conflict(t).field).value < time
    case PageA(t, page) =>
      forall b <- page :: PulledKey(s, t, b) == Some(StoredAt(db.meta, lk)) ==> RemoteTime(s, t, b.fields) <= time
  }

  ghost predicate AllOlder(s: Schema, db: Db, atoms: seq<Atom>, lk: Key, time: int)
    decreases |atoms|
  {
    atoms == [] || (Older(s, db, atoms[0], lk, time) && AllOlder(s, Act(s, db, atoms[0]), atoms[1..], lk, time))
  }

  lemma RenamesAreRefs(s: Schema, n: nat, table: Table, row: Row, parent: Table, oldId: Id, newId: Id)
    requires n <= |s.relations|
    ensures SameData(s, table, row, RenameRefs(s.relations[..n], table, row, parent, oldId, newId))
  {
    forall c | !IsFk(s, table, c)
      ensures CellOf(RenameRefs(s.relations[..n], table, row, parent, oldId, newId), c) == CellOf(row, c)
    {
      RenameRefsCell(s.relations[..n], table, row, parent, oldId, newId, c);
      forall i | 0 <= i < n ensures s.relations[..n][i] != Relation(table, c, parent) {
        assert s.relations[..n][i] == s.relations[i];
      }
    }
  }

  lemma {:induction false} OlderPage(s: Schema, k: Key, row: Row, page: seq<SyncApplier.Body>, time: int)
    requires Timed(s, k.table) && TimeOf(s, k.table, row) == Some(time)
    requires forall b <- page :: PulledKey(s, k.table, b) == Some(k) ==> RemoteTime(s, k.table, b.fields) <= time
    ensures PageInto(s, k, row, page) == row
    decreases |page|
  {
    if page != [] {
      assert PulledInto(s, k, row, page[0]) == row;
      OlderPage(s, k, row, page[1..], time);
    }
  }

  lemma OlderStep(s: Schema, server: iset<Id>, db: Db, blocked: set<Key>, a: Atom, lk: Key, time: int)
    requires Inv(s, server, db, blocked) && AtomFits(s, server, db, blocked, a) && Older(s, db, a, lk, time)
    requires Timed(s, lk.table) && LogicalRow(db, lk).Some?
    requires TimeOf(s, lk.table, LogicalRow(db, lk).value) == Some(time)
    requires lk !in Blocks(s, db, blocked, a)
    ensures LogicalRow(Act(s, db, a), lk).Some?
    ensures SameData(s, lk.table, LogicalRow(db, lk).value, LogicalRow(Act(s, db, a), lk).value)
  {
    hide Inv, PageInto, Answered, Echoed;
    var row := LogicalRow(db, lk).value;
    if a.WriteA? {
      WriteLogical(s, server, db, blocked, a.write, lk);
    } else {
      AtomLogical(s, server, db, blocked, a, lk);
      if a.PageA? && a.table == lk.table {
        OlderPage(s, StoredAt(db.meta, lk), row, a.page, time);
      }
      if a.ReplyA? && Taken(a.request, a.outcome) {
        var about, fields := LocalKey(a.table, a.item), a.outcome.body.fields;
        OlderAnswer(s, db, lk, about, fields, time);
      }
    }
  }

  /** Data older than the local row's is not taken from an answer. */
  lemma OlderAnswer(s: Schema, db: Db, lk: Key, about: Key, fields: Fields, time: int)
    requires LogicalRow(db, lk).Some? && TimeOf(s, lk.table, LogicalRow(db, lk).value) == Some(time)
    requires lk == about && Echoed(s, db, about, fields) ==>
      Number(fields, s.conflict(lk.table).field).Some? && Number(fields, s.conflict(lk.table).field).value < time
    ensures Answered(s, db, lk, about, fields).Some?
    ensures SameData(s, lk.table, LogicalRow(db, lk).value, Answered(s, db, lk, about, fields).value)
  {
    hide Echoed, RewriteReach, AnsweredId;
    var row := LogicalRow(db, lk).value;
    if lk == about && Echoed(s, db, about, fields) {
      assert EchoCells(s, db, StoredAt(db.meta, lk), fields) == map[];
      assert row + map[] == row;
    }
    var newId := AnsweredId(s, db.meta, about, fields);
    RenamesAreRefs(s, |Past(s, db, about, fields)|, lk.table, row, about.table, StoredId(db.meta, about), newId);
  }

  lemma {:induction false} OlderSteps(
      s: Schema, server: iset<Id>, db: Db, blocked: set<Key>, atoms: seq<Atom>, lk: Key, time: int)
    requires Inv(s, server, db, blocked) && AtomsFit(s, server, db, blocked, atoms) && AllOlder(s, db, atoms, lk, time)
    requires Timed(s, lk.table) && LogicalRow(db, lk).Some?
    requires TimeOf(s, lk.table, LogicalRow(db, lk).value) == Some(time)
    requires lk !in BlockedAfter(s, db, blocked, atoms)
    ensures LogicalRow(Acts(s, db, atoms), lk).Some?
    ensures SameData(s, lk.table, LogicalRow(db, lk).value, LogicalRow(Acts(s, db, atoms), lk).value)
    decreases |atoms|
  {
    if atoms != [] {
      AtomKeeps(s, server, db, blocked, atoms[0]);
      OlderStep(s, server, db, blocked, atoms[0], lk, time);
      OlderSteps(s, server, Act(s, db, atoms[0]), Blocks(s, db, blocked, atoms[0]), atoms[1..], lk, time);
    }
  }

  /**
  A local edit stamped `time` keeps its data through any run of pulls and push
  echoes that bring nothing newer for that row; only its foreign keys may follow
  their parents.
  */
  lemma LocalEditSurvives(
      s: Schema, server: iset<Id>, db: Db, blocked: set<Key>, events: seq<Event>, lk: Key, time: int)
    requires Inv(s, server, db, blocked) && EventsFit(s, server, db, blocked, events) && Timed(s, lk.table)
    requires LogicalRow(db, lk).Some? && TimeOf(s, lk.table, LogicalRow(db, lk).value) == Some(time)
    requires lk !in BlockedIn(s, db, blocked, events)
    requires AllOlder(s, db, Atoms(s, db, events), lk, time)
    ensures var d := Steps(s, db, events).db;
            LogicalRow(d, lk).Some? && SameData(s, lk.table, LogicalRow(db, lk).value, LogicalRow(d, lk).value)
  {
    EventsAreAtoms(s, server, db, blocked, events);
    AtomsRun(s, db, events);
    OlderSteps(s, server, db, blocked, Atoms(s, db, events), lk, time);
  }

  // ---- conflict times never fall ----------------------------------------------------------------------------------

  /** The step does not write `lk` locally, and live data it brings for `lk` carries the compared column as a number. */
  ghost predicate Stamped(s: Schema, db: Db, a: Atom, lk: Key) {
    match a
    case WriteA(w) => w.key != StoredAt(db.meta, lk)
    case SettleA(_, _) => true
    case ReplyA(t, item, request, outcome) =>
      LocalKey(t, item) == lk && Merges(s, db, t, item, request, outcome) ==>
        Number(outcome.body.fields, s.conflict(t).field).Some?
    case PageA(t, page) =>
      forall b <- page :: PulledKey(s, t, b) == Some(StoredAt(db.meta, lk)) && Number(b.fields, DELETED_AT).None? ==>
        Number(b.fields, s.conflict(t).field).Some?
  }

  ghost predicate AllStamped(s: Schema, db: Db, atoms: seq<Atom>, lk: Key)
    decreases |atoms|
  {
    atoms == [] || (Stamped(s, db, atoms[0], lk) && AllStamped(s, Act(s, db, atoms[0]), atoms[1..], lk))
  }

  ghost predicate NotBefore(s: Schema, t: Table, row: Row, time: int) {
    TimeOf(s, t, row).Some? && TimeOf(s, t, row).value >= time
  }

  lemma {:induction false} StampedPage(s: Schema, k: Key, row: Row, page: seq<SyncApplier.Body>, time: int)
    requires Timed(s, k.table) && NotBefore(s, k.table, row, time)
    requires forall b <- page :: PulledKey(s, k.table, b) == Some(k) && Number(b.fields, DELETED_AT).None? ==>
               Number(b.fields, s.conflict(k.table).field).Some?
    ensures NotBefore(s, k.table, PageInto(s, k, row, page), time)
    decreases |page|
  {
    if page != [] {
      assert NotBefore(s, k.table, PulledInto(s, k, row, page[0]), time);
      StampedPage(s, k, PulledInto(s, k, row, page[0]), page[1..], time);
    }
  }

  lemma EchoIsStamped(s: Schema, db: Db, lk: Key, fields: Fields, time: int)
    requires Timed(s, lk.table) && LogicalRow(db, lk).Some? && NotBefore(s, lk.table, LogicalRow(db, lk).value, time)
    requires Number(fields, s.conflict(lk.table).field).Some?
    ensures NotBefore(s, lk.table, LogicalRow(db, lk).value + EchoCells(s, db, StoredAt(db.meta, lk), fields), time)
  {}

  lemma RenamesKeepTime(
      s: Schema, n: nat, table: Table, row: Row, time: int, parent: Table, oldId: Id, newId: Id)
    requires n <= |s.relations| && Timed(s, table) && NotBefore(s, table, row, time)
    ensures NotBefore(s, table, RenameRefs(s.relations[..n], table, row, parent, oldId, newId), time)
  {
    RenamesAreRefs(s, n, table, row, parent, oldId, newId);
  }

  lemma StampedStep(s: Schema, server: iset<Id>, db: Db, blocked: set<Key>, a: Atom, lk: Key, time: int)
    requires Inv(s, server, db, blocked) && AtomFits(s, server, db, blocked, a) && Stamped(s, db, a, lk)
    requires Timed(s, lk.table) && LogicalRow(db, lk).Some? && NotBefore(s, lk.table, LogicalRow(db, lk).value, time)
    requires lk !in Blocks(s, db, blocked, a)
    ensures LogicalRow(Act(s, db, a), lk).Some? && NotBefore(s, lk.table, LogicalRow(Act(s, db, a), lk).value, time)
  {
    hide Inv, PageInto, EchoCells, NotBefore, Timed, Answered, Echoed;
    var row := LogicalRow(db, lk).value;
    if a.WriteA? {
      WriteLogical(s, server, db, blocked, a.write, lk);
    } else {
      AtomLogical(s, server, db, blocked, a, lk);
      if a.PageA? && a.table == lk.table {
        StampedPage(s, StoredAt(db.meta, lk), row, a.page, time);
      }
      if a.ReplyA? && Taken(a.request, a.outcome) {
        StampedAnswer(s, db, lk, LocalKey(a.table, a.item), a.outcome.body.fields, time);
      }
    }
  }

  /** An answer that carries the compared column does not set it back. */
  lemma StampedAnswer(s: Schema, db: Db, lk: Key, about: Key, fields: Fields, time: int)
    requires Timed(s, lk.table) && LogicalRow(db, lk).Some? && NotBefore(s, lk.table, LogicalRow(db, lk).value, time)
    requires lk == about && Echoed(s, db, about, fields) ==> Number(fields, s.conflict(lk.table).field).Some?
    ensures Answered(s, db, lk, about, fields).Some?
    ensures NotBefore(s, lk.table, Answered(s, db, lk, about, fields).value, time)
  {
    hide Echoed, RewriteReach, AnsweredId, NotBefore, Timed, EchoCells, StoredAt, StoredId;
    var row := LogicalRow(db, lk).value;
    var merged := row;
    if lk == about && Echoed(s, db, about, fields) {
      merged := row + EchoCells(s, db, StoredAt(db.meta, lk), fields);
      EchoIsStamped(s, db, lk, fields, time);
    }
    RenamesKeepTime(s, |Past(s, db, about, fields)|, lk.table, merged, time, about.table, StoredId(db.meta, about),
                    AnsweredId(s, db.meta, about, fields));
  }

  lemma {:induction false} StampedSteps(
      s: Schema, server: iset<Id>, db: Db, blocked: set<Key>, atoms: seq<Atom>, lk: Key, time: int)
    requires Inv(s, server, db, blocked) && AtomsFit(s, server, db, blocked, atoms) && AllStamped(s, db, atoms, lk)
    requires Timed(s, lk.table) && LogicalRow(db, lk).Some? && NotBefore(s, lk.table, LogicalRow(db, lk).value, time)
    requires lk !in BlockedAfter(s, db, blocked, atoms)
    ensures LogicalRow(Acts(s, db, atoms), lk).Some?
    ensures NotBefore(s, lk.table, LogicalRow(Acts(s, db, atoms), lk).value, time)
    decreases |atoms|
  {
    if atoms != [] {
      AtomKeeps(s, server, db, blocked, atoms[0]);
      StampedStep(s, server, db, blocked, atoms[0], lk, time);
      StampedSteps(s, server, Act(s, db, atoms[0]), Blocks(s, db, blocked, atoms[0]), atoms[1..], lk, time);
    }
  }

  /** Over any run that carries the compared column, a row's conflict time falls only by a local write of it. */
  lemma TimesNeverFall(s: Schema, server: iset<Id>, db: Db, blocked: set<Key>, events: seq<Event>, lk: Key, time: int)
    requires Inv(s, server, db, blocked) && EventsFit(s, server, db, blocked, events) && Timed(s, lk.table)
    requires LogicalRow(db, lk).Some? && TimeOf(s, lk.table, LogicalRow(db, lk).value) == Some(time)
    requires lk !in BlockedIn(s, db, blocked, events)
    requires AllStamped(s, db, Atoms(s, db, events), lk)
    ensures var d := Steps(s, db, events).db;
            LogicalRow(d, lk).Some? && NotBefore(s, lk.table, LogicalRow(d, lk).value, time)
  {
    EventsAreAtoms(s, server, db, blocked, events);
    AtomsRun(s, db, events);
    StampedSteps(s, server, db, blocked, Atoms(s, db, events), lk, time);
  }

  // ---- clientWins ------------------------------------------------------------------------------------------------

  lemma {:induction false} ClientWinsPage(s: Schema, db: Db, t: Table, page: seq<SyncApplier.Body>, k: Key)
    requires db.locked && k in db.rows && ApplyRows(s, db, t, page).Some? && s.conflict(t).strategy.ClientWins?
    ensures k in ApplyRows(s, db, t, page).value.rows && ApplyRows(s, db, t, page).value.rows[k] == db.rows[k]
    decreases |page|
  {
    if page != [] {
      PulledStored(s, db, t, page[0], k);
      ClientWinsPage(s, ApplyRow(s, db, t, page[0]).value, t, page[1..], k);
    }
  }

  /** Under clientWins no run of pulled pages, whatever they hold and of whatever table, changes a row that exists. */
  lemma {:induction false} ClientWinsKeeps(s: Schema, db: Db, events: seq<Event>, k: Key)
    requires k in db.rows && s.conflict(k.table).strategy.ClientWins? && forall e <- events :: e.PullE?
    ensures k in Steps(s, db, events).db.rows && Steps(s, db, events).db.rows[k] == db.rows[k]
    decreases |events|
  {
    if events != [] {
      var e := events[0];
      if ApplyPage(s, db, e.table, e.page).Some? {
        if e.table == k.table {
          ClientWinsPage(s, db.(locked := true), e.table, e.page, k);
        } else {
          PageStored(s, db.(locked := true), e.table, e.page, k);
        }
      }
      ClientWinsKeeps(s, Step(s, db, e).db, events[1..], k);
    }
  }

  // ---- what an answer does to the row it is about ----------------------------------------------

  /** The echo is written: the compared field is a column, and no side has a number to say the local row is newer. */
  predicate EchoWins(s: Schema, t: Table, row: Row, fields: Fields) {
    var field := s.conflict(t).field;
    && field in s.cols(t)
    && (TimeOf(s, t, row).None? || Number(fields, field).None? ||
        TimeOf(s, t, row).value <= Number(fields, field).value)
  }

  /** The row has the answer's data, but for references to its own table, which follow renames. */
  ghost predicate HasData(s: Schema, t: Table, row: Row, cells: Row) {
    forall c <- cells :: !IsRef(s.relations, t, c, t) ==> CellOf(row, c) == cells[c]
  }

  /**
  Under every strategy alike, once the rename and the echo are accepted: the
  stored row has the answer's data afterwards if and only if the compared field
  is a column and neither time shows the local row to be newer, or it had the
  data before. In the other case no cell but references to the row changes.
  */
  lemma EchoWinsIff(s: Schema, db: Db, t: Table, oldId: Id, newId: Id, fields: Fields)
    requires db.locked && Key(t, oldId) in db.rows && (newId != oldId ==> Key(t, newId) !in db.rows)
    requires Echoes(s, db, t, oldId, newId, fields)
    ensures
      var rows := RewriteLocalRow(s, db, t, oldId, newId, Object(fields)).db.rows;
      var row, cells := db.rows[Key(t, oldId)], LocalCells(s, t, fields).value;
      && Key(t, newId) in rows
      && (HasData(s, t, rows[Key(t, newId)], cells) <==> EchoWins(s, t, row, fields) || HasData(s, t, row, cells))
      && (!EchoWins(s, t, row, fields) ==>
            forall c :: !IsRef(s.relations, t, c, t) ==> CellOf(rows[Key(t, newId)], c) == CellOf(row, c))
  {
    var k, n := Key(t, oldId), RewriteReach(s, db, t, oldId, newId, fields);
    RewriteRow(s, db, k, t, oldId, newId, fields);
    hide RewriteLocalRow, RewriteReach, Echoes;
    var row, cells := db.rows[k], LocalCells(s, t, fields).value;
    var merged := row + EchoCells(s, db, k, fields);
    forall c | !IsRef(s.relations, t, c, t)
      ensures CellOf(RenameRefs(s.relations[..n], t, merged, t, oldId, newId), c) == CellOf(merged, c)
    {
      RenameRefsCell(s.relations[..n], t, merged, t, oldId, newId, c);
      forall i | 0 <= i < n ensures s.relations[..n][i] != Relation(t, c, t) {
        assert s.relations[..n][i] == s.relations[i];
      }
    }
    assert EchoCells(s, db, k, fields) == if EchoWins(s, t, row, fields) then cells else map[];
  }

  const NOTES: Table := "notes"
  const NOTE := Key(NOTES, "7")
  const MINE: Row := map["text" := Text("mine"), "updatedAt" := Num(1)]
  const THEIRS: Row := map["text" := Text("theirs"), "updatedAt" := Num(2)]
  const ECHO: Fields := map["id" := WText("7"), "text" := WText("theirs"), "updatedAt" := WNum(2)]

  /** A table whose contract says that the client wins, with a numeric column to compare. */
  function ClientWinsSchema(): Schema {
    Schema(t => "id", t => {"id", "text", "updatedAt", DELETED_AT}, t => true,
           t => Conflict(ClientWins, "updatedAt"), [], rows => true)
  }

  lemma EchoInPlace(s: Schema, db: Db, t: Table, id: Id, fields: Fields, cells: Row)
    requires db.locked && Key(t, id) in db.rows && LocalCells(s, t, fields) == Some(cells) && cells != map[]
    requires EchoApplies(s, db, Key(t, id), fields) && s.constraints(db.rows[Key(t, id) := db.rows[Key(t, id)] + cells])
    ensures RewriteLocalRow(s, db, t, id, id, Object(fields)).db.rows
         == db.rows[Key(t, id) := db.rows[Key(t, id)] + cells]
  {
  }

  lemma TheirCells()
    ensures LocalCells(ClientWinsSchema(), NOTES, ECHO) == Some(THEIRS)
  {
    var s := ClientWinsSchema();
    var known := set c | c in ECHO && c in s.cols(NOTES) && c != s.pk(NOTES);
    assert known == {"text", "updatedAt"};
    assert (map c | c in known :: ToCell(ECHO[c])) == THEIRS;
  }

  /** Under clientWins an answer that is not older overwrites the local row all the same. */
  lemma ClientWinsIsOverwritten(db: Db)
    requires db.locked && db.rows == map[NOTE := MINE]
    ensures RewriteLocalRow(ClientWinsSchema(), db, NOTES, "7", "7", Object(ECHO)).db.rows == map[NOTE := THEIRS]
  {
    hide RewriteLocalRow, LocalCells;
    var s := ClientWinsSchema();
    TheirCells();
    assert "text" in THEIRS;
    assert MINE + THEIRS == THEIRS;
    assert EchoApplies(s, db, NOTE, ECHO);
    EchoInPlace(s, db, NOTES, "7", ECHO, THEIRS);
    assert map[NOTE := MINE][NOTE := THEIRS] == map[NOTE := THEIRS];
  }
}
