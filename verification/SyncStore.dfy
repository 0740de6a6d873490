/**
The client database as the sync engine sees it: domain tables, `sync_queue`,
`_salve_sync_metadata` with its two unique keys, the apply lock, and the SQL
statements that change them. A statement that fails yields None and changes
nothing, triggers included.
*/
module SyncStore {
  import opened Wrappers

  type Table = string
  type Column = string
  type Id = string

  const DELETED_AT: Column := "deletedAt"

  datatype Key = Key(table: Table, id: Id)

  datatype Cell = Null | Flag(b: bool) | Num(n: int) | Text(s: string) | Blob

  /** A row without its primary key; a column that is not mentioned is NULL. */
  type Row = map<Column, Cell>

  function CellOf(row: Row, col: Column): Cell {
    if col in row then row[col] else Null
  }

  datatype Operation = Insert | Update | Delete
  datatype MetaStatus = Unsynced | Synced | SyncFailed | Deleted
  datatype ItemStatus = Pending | Failed | Blocked

  /** One row of `_salve_sync_metadata`: the frozen localId, and where the row is stored now. */
  datatype Meta = Meta(
    table: Table, localId: Id, entityId: Id, remoteId: Option<Id>,
    operation: Operation, status: MetaStatus, retries: nat)

  datatype Item = Item(id: nat, operation: Operation, table: Table, entityId: Id, status: ItemStatus, retries: nat)

  datatype Relation = Relation(childTable: Table, fkColumn: Column, parentTable: Table)

  datatype Strategy = LastWriteWins | ServerWins | ClientWins
  datatype Conflict = Conflict(strategy: Strategy, field: Column)

  /** What registration fixed: primary keys, columns, sync contracts, relations, and the tables' own constraints. */
  datatype Schema = Schema(
    pk: Table -> Column,
    cols: Table -> set<Column>,
    synced: Table -> bool,
    conflict: Table -> Conflict,
    relations: seq<Relation>,
    constraints: map<Key, Row> -> bool)

  datatype Db = Db(rows: map<Key, Row>, meta: seq<Meta>, queue: seq<Item>, nextItem: nat, locked: bool)

  const EMPTY := Db(map[], [], [], 1, false)

  // ---- metadata statements ---------------------------------------------------

  /** `WHERE tableName = ? AND localId = ?`, the primary key. */
  function FindLocal(ms: seq<Meta>, lk: Key): (r: Option<nat>)
    ensures r.Some? ==> r.value < |ms| && ms[r.value].table == lk.table && ms[r.value].localId == lk.id
    ensures r.None? ==> forall i | 0 <= i < |ms| :: ms[i].table == lk.table ==> ms[i].localId != lk.id
  {
    if ms == [] then None
    else
      var last := |ms| - 1;
      if ms[last].table == lk.table && ms[last].localId == lk.id then Some(last) else FindLocal(ms[..last], lk)
  }

  /** `WHERE tableName = ? AND entityId = ?`, the unique index. */
  function FindEntity(ms: seq<Meta>, k: Key): (r: Option<nat>)
    ensures r.Some? ==> r.value < |ms| && ms[r.value].table == k.table && ms[r.value].entityId == k.id
    ensures r.None? ==> forall i | 0 <= i < |ms| :: ms[i].table == k.table ==> ms[i].entityId != k.id
  {
    if ms == [] then None
    else
      var last := |ms| - 1;
      if ms[last].table == k.table && ms[last].entityId == k.id then Some(last) else FindEntity(ms[..last], k)
  }

  function LocalIdOf(ms: seq<Meta>, k: Key): Option<Id> {
    match FindEntity(ms, k)
    case None => None
    case Some(i) => Some(ms[i].localId)
  }

  /** `getByLocalId(..)->remoteId`: an empty text reads back as missing. */
  function RemoteIdOf(ms: seq<Meta>, lk: Key): Option<Id> {
    match FindLocal(ms, lk)
    case None => None
    case Some(i) => if ms[i].remoteId == Some("") then None else ms[i].remoteId
  }

  /** Writes entityId and remoteId of the row `lk`; fails when another row owns that entityId. */
  function MarkReplaced(ms: seq<Meta>, lk: Key, newId: Id): Option<seq<Meta>> {
    match FindLocal(ms, lk)
    case None => Some(ms)
    case Some(i) =>
      var owner := FindEntity(ms, Key(lk.table, newId));
      if owner.Some? && owner.value != i then None
      else Some(ms[i := ms[i].(entityId := newId, remoteId := Some(newId), status := Synced)])
  }

  function MarkMetaFailed(ms: seq<Meta>, lk: Key): seq<Meta> {
    match FindLocal(ms, lk)
    case None => ms
    case Some(i) =>
      ms[i := ms[i].(status := if ms[i].status.Deleted? then Deleted else SyncFailed, retries := ms[i].retries + 1)]
  }

  /** The upsert of a pulled row: onto its entityId, else onto its localId, else a new row. */
  function MarkPulledSynced(ms: seq<Meta>, k: Key, status: MetaStatus): seq<Meta> {
    match FindEntity(ms, k)
    case Some(i) => ms[i := ms[i].(remoteId := Some(k.id), status := status)]
    case None =>
      match FindLocal(ms, k)
      case Some(i) => ms[i := ms[i].(entityId := k.id, remoteId := Some(k.id), status := status)]
      case None => ms + [Meta(k.table, k.id, k.id, Some(k.id), if status.Deleted? then Delete else Insert, status, 0)]
  }

  /** The upsert inside the triggers; fails when the id is another row's localId. */
  function MarkLocalWrite(ms: seq<Meta>, k: Key, operation: Operation, status: MetaStatus): Option<seq<Meta>> {
    match FindEntity(ms, k)
    case Some(i) => Some(ms[i := ms[i].(operation := operation, status := status)])
    case None =>
      if FindLocal(ms, k).Some? then None
      else Some(ms + [Meta(k.table, k.id, k.id, None, operation, status, 0)])
  }

  // ---- queue statements --------------------------------------------------------

  function RemoveItem(q: seq<Item>, id: nat): seq<Item> {
    if q == [] then [] else (if q[0].id == id then [] else [q[0]]) + RemoveItem(q[1..], id)
  }

  function MarkItem(q: seq<Item>, id: nat, status: ItemStatus): (r: seq<Item>)
    ensures |r| == |q|
    ensures forall i | 0 <= i < |q| ::
              r[i] == if q[i].id == id then q[i].(status := status, retries := q[i].retries + 1) else q[i]
  {
    seq(|q|, i requires 0 <= i < |q| =>
      if q[i].id == id then q[i].(status := status, retries := q[i].retries + 1) else q[i])
  }

  function RenameItems(q: seq<Item>, table: Table, oldId: Id, newId: Id): (r: seq<Item>)
    ensures |r| == |q|
    ensures forall i | 0 <= i < |q| ::
              r[i] == if q[i].table == table && q[i].entityId == oldId then q[i].(entityId := newId) else q[i]
  {
    seq(|q|, i requires 0 <= i < |q| =>
      if q[i].table == table && q[i].entityId == oldId then q[i].(entityId := newId) else q[i])
  }

  // ---- domain-table statements and their triggers --------------------------------

  /** The AFTER trigger of one changed row: muted by the lock, else one queue item and one metadata upsert. */
  function Fire(s: Schema, db: Db, k: Key, operation: Operation, tombstone: bool): Option<Db> {
    if db.locked || !s.synced(k.table) then Some(db)
    else
      match MarkLocalWrite(db.meta, k, if tombstone then Delete else operation, if tombstone then Deleted else Unsynced)
      case None => None
      case Some(ms) =>
        Some(db.(queue := db.queue + [Item(db.nextItem, operation, k.table, k.id, Pending, 0)],
                 nextItem := db.nextItem + 1, meta := ms))
  }

  function InsertRow(s: Schema, db: Db, k: Key, row: Row): Option<Db> {
    var rows := db.rows[k := row];
    if k in db.rows || !s.constraints(rows) then None
    else Fire(s, db.(rows := rows), k, Insert, false)
  }

  function UpdateRow(s: Schema, db: Db, k: Key, cells: Row): Option<Db> {
    if k !in db.rows then Some(db)
    else
      var row := db.rows[k] + cells;
      var rows := db.rows[k := row];
      if !s.constraints(rows) then None
      else Fire(s, db.(rows := rows), k, Update, CellOf(row, DELETED_AT) != Null)
  }

  function DeleteRow(s: Schema, db: Db, k: Key): Option<Db> {
    if k !in db.rows then Some(db) else Fire(s, db.(rows := db.rows - {k}), k, Delete, true)
  }

  /** `UPDATE t SET pk = new WHERE pk = old`, run only under the lock, which mutes the trigger. */
  function RenameRow(s: Schema, db: Db, table: Table, oldId: Id, newId: Id): Option<Db>
    requires db.locked
  {
    var k, k' := Key(table, oldId), Key(table, newId);
    if k !in db.rows then Some(db)
    else
      var rows := (db.rows - {k})[k' := db.rows[k]];
      if (k' in db.rows && k' != k) || !s.constraints(rows) then None else Some(db.(rows := rows))
  }

  function RenameCell(row: Row, col: Column, oldId: Id, newId: Id): Row {
    if CellOf(row, col) == Text(oldId) then row[col := Text(newId)] else row
  }

  function RenamedFks(rows: map<Key, Row>, rel: Relation, oldId: Id, newId: Id): map<Key, Row> {
    map k | k in rows ::
      if k.table == rel.childTable then RenameCell(rows[k], rel.fkColumn, oldId, newId) else rows[k]
  }

  /** `UPDATE child SET fk = new WHERE fk = old`, run only under the lock. */
  function RenameFk(s: Schema, db: Db, rel: Relation, oldId: Id, newId: Id): Option<Db>
    requires db.locked
  {
    var rows := RenamedFks(db.rows, rel, oldId, newId);
    if rows != db.rows && !s.constraints(rows) then None else Some(db.(rows := rows))
  }

  // ---- writes of the application ---------------------------------------------------

  datatype Write = InsertW(key: Key, row: Row) | UpdateW(key: Key, cells: Row) | DeleteW(key: Key)

  function TryWrite(s: Schema, db: Db, w: Write): Option<Db> {
    match w
    case InsertW(k, row) => InsertRow(s, db, k, row)
    case UpdateW(k, cells) => UpdateRow(s, db, k, cells)
    case DeleteW(k) => DeleteRow(s, db, k)
  }

  /** A write that fails throws to the application and leaves the database as it was. */
  function ApplyWrite(s: Schema, db: Db, w: Write): Db {
    TryWrite(s, db, w).GetOr(db)
  }

  function ApplyWrites(s: Schema, db: Db, ws: seq<Write>): Db
    decreases |ws|
  {
    if ws == [] then db else ApplyWrites(s, ApplyWrite(s, db, ws[0]), ws[1..])
  }
}
