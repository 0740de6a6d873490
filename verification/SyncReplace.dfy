/**
When step 2 of a replace goes through, told from the database and the answer
before the transaction: the columns are scalars and the tables accept the rows
after each statement.
*/
module SyncReplace {
  import opened Wrappers
  import opened SyncStore
  import opened SyncApplier

  /** The id the row is stored under after an answer. */
  function AnsweredId(s: Schema, ms: seq<Meta>, about: Key, fields: Fields): Id {
    if s.pk(about.table) in fields then ScalarId(fields[s.pk(about.table)]).GetOr("")
    else StoredId(ms, about)
  }

  function StoredId(ms: seq<Meta>, about: Key): Id {
    match FindLocal(ms, about)
    case None => ""
    case Some(i) => ms[i].entityId
  }

  function RenamedRows(rows: map<Key, Row>, t: Table, oldId: Id, newId: Id): map<Key, Row> {
    var k, k' := Key(t, oldId), Key(t, newId);
    if newId != oldId && k in rows then (rows - {k})[k' := rows[k]] else rows
  }

  function EchoedRows(s: Schema, db: Db, at: Key, fields: Fields, cells: Row): map<Key, Row> {
    if cells != map[] && EchoApplies(s, db, at, fields) && at in db.rows
    then db.rows[at := db.rows[at] + cells] else db.rows
  }

  /** Each statement of the cascade that changes a row leaves the tables acceptable. */
  predicate CascadeAllowed(s: Schema, rows: map<Key, Row>, rels: seq<Relation>, parent: Table, oldId: Id, newId: Id)
    decreases |rels|
  {
    if rels == [] then true
    else if rels[0].parentTable != parent then CascadeAllowed(s, rows, rels[1..], parent, oldId, newId)
    else
      var next := RenamedFks(rows, rels[0], oldId, newId);
      (next == rows || s.constraints(next)) && CascadeAllowed(s, next, rels[1..], parent, oldId, newId)
  }

  /** The primary-key rewrite meets no other row and no constraint. */
  predicate RenameAllowed(s: Schema, rows: map<Key, Row>, t: Table, oldId: Id, newId: Id) {
    newId != oldId && Key(t, oldId) in rows ==>
      Key(t, newId) !in rows && s.constraints(RenamedRows(rows, t, oldId, newId))
  }

  predicate EchoAllowed(s: Schema, db: Db, at: Key, fields: Fields, cells: Row) {
    cells != map[] && EchoApplies(s, db, at, fields) && at in db.rows ==>
      s.constraints(EchoedRows(s, db, at, fields, cells))
  }

  /** Every known column is a scalar, and the rename and the echo are acceptable: the answer's data reaches the row. */
  predicate Echoes(s: Schema, db: Db, t: Table, oldId: Id, newId: Id, fields: Fields) {
    match LocalCells(s, t, fields)
    case None => false
    case Some(cells) =>
      var renamed := db.(rows := RenamedRows(db.rows, t, oldId, newId));
      && RenameAllowed(s, db.rows, t, oldId, newId)
      && EchoAllowed(s, renamed, Key(t, newId), fields, cells)
  }

  /** And so is each statement of the cascade. */
  predicate Rewritable(s: Schema, db: Db, t: Table, oldId: Id, newId: Id, fields: Fields) {
    && Echoes(s, db, t, oldId, newId, fields)
    && var renamed := db.(rows := RenamedRows(db.rows, t, oldId, newId));
       var echoed := EchoedRows(s, renamed, Key(t, newId), fields, LocalCells(s, t, fields).value);
       newId != oldId ==> CascadeAllowed(s, echoed, s.relations, t, oldId, newId)
  }

  lemma {:induction false} CascadeIff(s: Schema, db: Db, rels: seq<Relation>, parent: Table, oldId: Id, newId: Id)
    requires db.locked
    ensures Cascade(s, db, rels, parent, oldId, newId).ok <==> CascadeAllowed(s, db.rows, rels, parent, oldId, newId)
    decreases |rels|
  {
    if rels != [] {
      if rels[0].parentTable != parent {
        CascadeIff(s, db, rels[1..], parent, oldId, newId);
      } else if RenameFk(s, db, rels[0], oldId, newId).Some? {
        CascadeIff(s, RenameFk(s, db, rels[0], oldId, newId).value, rels[1..], parent, oldId, newId);
      }
    }
  }

  /** Step 2 runs to its end exactly on the answers and databases that admit it. */
  lemma RewriteIff(s: Schema, db: Db, t: Table, oldId: Id, newId: Id, fields: Fields)
    requires db.locked
    ensures RewriteLocalRow(s, db, t, oldId, newId, Object(fields)).ok <==> Rewritable(s, db, t, oldId, newId, fields)
  {
    if LocalCells(s, t, fields).Some? {
      var cells := LocalCells(s, t, fields).value;
      var renamed := db.(rows := RenamedRows(db.rows, t, oldId, newId));
      var done := if newId != oldId then RenameRow(s, db, t, oldId, newId) else Some(db);
      assert done == if RenameAllowed(s, db.rows, t, oldId, newId) then Some(renamed) else None;
      if done.Some? {
        var at := Key(t, newId);
        var written := WriteEcho(s, renamed, at, fields, cells);
        assert written == if EchoAllowed(s, renamed, at, fields, cells)
                          then Some(renamed.(rows := EchoedRows(s, renamed, at, fields, cells))) else None;
        if written.Some? && newId != oldId {
          CascadeIff(s, written.value, s.relations, t, oldId, newId);
        }
      }
    }
  }
}
