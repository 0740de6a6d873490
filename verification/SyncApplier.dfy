/**
`SyncOperationApplier`: what one server answer does to the client database.
Every function here runs inside the bypass transaction; None is a thrown
exception, which rolls the transaction back.
*/
module SyncApplier {
  import opened Wrappers
  import opened SyncStore
  import Decimal

  /** A JSON column value; WNested stands for any array or object. */
  datatype Wire = WNull | WBool(b: bool) | WNum(n: int) | WText(s: string) | WNested

  type Fields = map<Column, Wire>

  /** A response body: a JSON object, or anything else. */
  datatype Body = NoObject | Object(fields: Fields)

  function ToCell(w: Wire): Cell
    requires !w.WNested?
  {
    match w
    case WNull => Null
    case WBool(b) => Flag(b)
    case WNum(n) => Num(n)
    case WText(t) => Text(t)
  }

  /** A cell and a JSON value that say the same; no JSON value says what a blob does. */
  ghost predicate Carries(c: Cell, w: Wire) {
    match c
    case Null => w == WNull
    case Flag(b) => w == WBool(b)
    case Num(n) => w == WNum(n)
    case Text(t) => w == WText(t)
    case Blob => false
  }

  /** The text form of a primary key; a number is printed in decimal. */
  function ScalarId(w: Wire): Option<Id> {
    match w
    case WText(t) => Some(t)
    case WNum(n) => Some(Decimal.DecimalText(n))
    case _ => None
  }

  function Number(fields: Fields, col: Column): Option<int> {
    if col in fields && fields[col].WNum? then Some(fields[col].n) else None
  }

  /** The known data columns of an answer as cells; None when one of them is an array or object. */
  function LocalCells(s: Schema, t: Table, fields: Fields): Option<Row> {
    var known := set c | c in fields && c in s.cols(t) && c != s.pk(t);
    if exists c <- known :: fields[c].WNested? then None
    else Some(map c | c in known :: ToCell(fields[c]))
  }

  /**
  An answer has columns for the table unless one of the known data columns is an
  array or object; they are exactly these columns, each saying what the answer
  says.
  */
  lemma LocalCellsCarry(s: Schema, t: Table, fields: Fields)
    ensures LocalCells(s, t, fields).Some? <==>
              forall c <- fields :: c in s.cols(t) && c != s.pk(t) ==> !fields[c].WNested?
    ensures LocalCells(s, t, fields).Some? ==>
              var cells := LocalCells(s, t, fields).value;
              && (forall c :: c in cells <==> c in fields && c in s.cols(t) && c != s.pk(t))
              && (forall c <- cells :: Carries(cells[c], fields[c]))
  {
    var known := set c | c in fields && c in s.cols(t) && c != s.pk(t);
    if LocalCells(s, t, fields).None? {
      var c :| c in known && fields[c].WNested?;
      assert c in fields;
    }
  }

  // ---- pull: one row of a page ---------------------------------------------------

  /** The timestamp a pulled row competes with. */
  function RemoteTime(s: Schema, t: Table, fields: Fields): int {
    Number(fields, DELETED_AT).GetOr(Number(fields, s.conflict(t).field).GetOr(0))
  }

  /** The local side of a lastWriteWins comparison: only a numeric column counts. */
  function LocalTime(s: Schema, db: Db, k: Key): Option<int> {
    if k in db.rows && CellOf(db.rows[k], s.conflict(k.table).field).Num?
    then Some(CellOf(db.rows[k], s.conflict(k.table).field).n) else None
  }

  predicate Newer(s: Schema, db: Db, k: Key, time: int) {
    LocalTime(s, db, k).None? || time > LocalTime(s, db, k).value
  }

  predicate TombstoneApplies(s: Schema, db: Db, k: Key, time: int) {
    match s.conflict(k.table).strategy
    case ServerWins => k in db.rows
    case ClientWins => false
    case LastWriteWins => k in db.rows && Newer(s, db, k, time)
  }

  predicate RowApplies(s: Schema, db: Db, k: Key, time: int) {
    match s.conflict(k.table).strategy
    case ServerWins => true
    case ClientWins => k !in db.rows
    case LastWriteWins => k !in db.rows || Newer(s, db, k, time)
  }

  function PulledKey(s: Schema, t: Table, body: Body): Option<Key> {
    if body.NoObject? || s.pk(t) !in body.fields || ScalarId(body.fields[s.pk(t)]).None? then None
    else Some(Key(t, ScalarId(body.fields[s.pk(t)]).value))
  }

  function ApplyRow(s: Schema, db: Db, t: Table, body: Body): Option<Db> {
    match PulledKey(s, t, body)
    case None => None
    case Some(k) =>
      var time := RemoteTime(s, t, body.fields);
      match Number(body.fields, DELETED_AT)
      case Some(at) =>
        if !TombstoneApplies(s, db, k, time) then Some(db)
        else AndMark(UpdateRow(s, db, k, map[DELETED_AT := Num(at)]), k, Deleted)
      case None =>
        if !RowApplies(s, db, k, time) then Some(db)
        else
          match LocalCells(s, t, body.fields)
          case None => None
          case Some(cells) =>
            AndMark(if k in db.rows then UpdateRow(s, db, k, cells) else InsertRow(s, db, k, cells), k, Synced)
  }

  function AndMark(written: Option<Db>, k: Key, status: MetaStatus): Option<Db> {
    match written
    case None => None
    case Some(db) => Some(db.(meta := MarkPulledSynced(db.meta, k, status)))
  }

  function ApplyRows(s: Schema, db: Db, t: Table, page: seq<Body>): Option<Db>
    decreases |page|
  {
    if page == [] then Some(db)
    else
      match ApplyRow(s, db, t, page[0])
      case None => None
      case Some(next) => ApplyRows(s, next, t, page[1..])
  }

  /** `applyWithBypass` around a page: all of it with the triggers muted, or nothing. */
  function ApplyPage(s: Schema, db: Db, t: Table, page: seq<Body>): Option<Db> {
    match ApplyRows(s, db.(locked := true), t, page)
    case None => None
    case Some(done) => Some(done.(locked := false))
  }

  // ---- push: an accepted write ------------------------------------------------------

  datatype Recorded = Recorded(db: Db, oldId: Id, newId: Id)

  /** Step 1: the metadata row learns the server id. */
  function RecordRemoteSuccess(s: Schema, db: Db, lk: Key, body: Body): Option<Recorded> {
    match FindLocal(db.meta, lk)
    case None => None
    case Some(i) =>
      var oldId := db.meta[i].entityId;
      var newId :=
        if body.NoObject? || s.pk(lk.table) !in body.fields then Some(oldId)
        else ScalarId(body.fields[s.pk(lk.table)]);
      if newId.None? then None
      else
        match MarkReplaced(db.meta, lk, newId.value)
        case None => None
        case Some(ms) => Some(Recorded(db.(meta := ms), oldId, newId.value))
  }

  /** How far a sequence of statements came before one of them failed, if any did. */
  datatype Attempt = Attempt(db: Db, ok: bool)

  /** Whether the echoed columns are written over the local ones. */
  predicate EchoApplies(s: Schema, db: Db, k: Key, fields: Fields) {
    var field := s.conflict(k.table).field;
    && field in s.cols(k.table)
    && (Number(fields, field).None? || LocalTime(s, db, k).None? ||
        LocalTime(s, db, k).value <= Number(fields, field).value)
  }

  function WriteEcho(s: Schema, db: Db, k: Key, fields: Fields, cells: Row): Option<Db> {
    if cells != map[] && EchoApplies(s, db, k, fields) then UpdateRow(s, db, k, cells) else Some(db)
  }

  /** `RelationCascadeRewriter::rewrite` over the relations not yet visited. */
  function Cascade(s: Schema, db: Db, rels: seq<Relation>, parent: Table, oldId: Id, newId: Id): Attempt
    requires db.locked
    decreases |rels|
  {
    if rels == [] then Attempt(db, true)
    else if rels[0].parentTable != parent then Cascade(s, db, rels[1..], parent, oldId, newId)
    else
      match RenameFk(s, db, rels[0], oldId, newId)
      case None => Attempt(db, false)
      case Some(next) => Cascade(s, next, rels[1..], parent, oldId, newId)
  }

  /** Step 2: primary key, echoed data, foreign keys of the children, queue snapshots, in this order. */
  function RewriteLocalRow(s: Schema, db: Db, t: Table, oldId: Id, newId: Id, body: Body): Attempt
    requires db.locked
  {
    if body.NoObject? then Attempt(db, true)
    else
      match LocalCells(s, t, body.fields)
      case None => Attempt(db, false)
      case Some(cells) =>
        match if newId != oldId then RenameRow(s, db, t, oldId, newId) else Some(db)
        case None => Attempt(db, false)
        case Some(renamed) =>
          match WriteEcho(s, renamed, Key(t, newId), body.fields, cells)
          case None => Attempt(renamed, false)
          case Some(written) =>
            if newId == oldId then Attempt(written, true)
            else
              var cascaded := Cascade(s, written, s.relations, t, oldId, newId);
              if !cascaded.ok then cascaded
              else Attempt(cascaded.db.(queue := RenameItems(cascaded.db.queue, t, oldId, newId)), true)
  }
}
