/**
Client and reference server together. The server's answers come out of its own
store, so what the identity results assume of ids is a theorem here: every name
a row of the synced table ever goes by on the client was either made locally or
belongs to a row of the server.
*/
module SyncProtocol {
  import opened Wrappers
  import opened SyncStore
  import opened SyncApplier
  import opened SyncReplace
  import opened SyncPush
  import opened SyncRuns
  import opened SyncIdentity
  import opened SyncDelivery
  import opened SyncServer
  import SyncConservation
  import Decimal

  // ---- where names come from -----------------------------------------------------------------------

  /** The ids a server hands out as long as it counts no further than `top`. */
  ghost function ServerIds(top: nat): iset<Id> { iset n: nat | n < top :: Decimal.DecimalText(n) }

  ghost predicate HasId(sv: Server, id: Id) {
    exists i | 0 <= i < |sv.rows| :: Decimal.DecimalText(sv.rows[i].id) == id
  }

  /** A name of the table that looks like a server id is one. */
  ghost predicate Issued(
      top: nat, sv: Server, t: Table, k: Key) { k.table == t && k.id in ServerIds(top) ==> HasId(sv, k.id) }

  ghost predicate MetaIssued(top: nat, sv: Server, t: Table, m: Meta) {
    && Issued(top, sv, t, LocalKeyOf(m)) && Issued(top, sv, t, EntityKeyOf(m))
    && (m.table == t && m.remoteId.Some? ==> HasId(sv, m.remoteId.value))
  }

  ghost predicate MetasIssued(top: nat, sv: Server, t: Table, ms: seq<Meta>) {
    forall i | 0 <= i < |ms| :: MetaIssued(top, sv, t, ms[i])
  }

  ghost predicate QueueIssued(top: nat, sv: Server, t: Table, q: seq<Item>) {
    forall i | 0 <= i < |q| :: Issued(top, sv, t, Key(q[i].table, q[i].entityId))
  }

  ghost predicate KeysIssued(
      top: nat, sv: Server, t: Table, keys: set<Key>) { forall k <- keys :: Issued(top, sv, t, k) }

  ghost predicate DbIssued(top: nat, sv: Server, t: Table, db: Db) {
    MetasIssued(top, sv, t, db.meta) && QueueIssued(top, sv, t, db.queue) && KeysIssued(top, sv, t, db.rows.Keys)
  }

  // ---- the server's side ---------------------------------------------------------------------------

  ghost predicate KeepsIds(sv: Server, sv': Server) {
    && |sv.rows| <= |sv'.rows| && sv.nextId <= sv'.nextId
    && forall i | 0 <= i < |sv.rows| :: sv'.rows[i].id == sv.rows[i].id
  }

  lemma {:induction false} ServeAllKeepsIds(columns: set<Column>, sv: Server, ops: seq<ServerOp>)
    requires ServerSound(columns, sv) && FlatOps(ops)
    ensures KeepsIds(sv, ServeAll(columns, sv, ops)) && ServerSound(columns, ServeAll(columns, sv, ops))
    decreases |ops|
  {
    if ops != [] {
      assert ops[0] in ops;
      ServeKeeps(columns, sv, ops[0]);
      ServeAllKeepsIds(columns, Serve(columns, sv, ops[0]), ops[1..]);
    }
  }

  lemma StillHas(sv: Server, sv': Server, id: Id)
    requires KeepsIds(sv, sv') && HasId(sv, id)
    ensures HasId(sv', id)
  {
    var i :| 0 <= i < |sv.rows| && Decimal.DecimalText(sv.rows[i].id) == id;
    assert Decimal.DecimalText(sv'.rows[i].id) == id;
  }

  lemma StillIssued(top: nat, sv: Server, sv': Server, t: Table, db: Db, blocked: set<Key>)
    requires KeepsIds(sv, sv') && DbIssued(top, sv, t, db) && KeysIssued(top, sv, t, blocked)
    ensures DbIssued(top, sv', t, db) && KeysIssued(top, sv', t, blocked)
  {
    forall id | HasId(sv, id) ensures HasId(sv', id) {
      StillHas(sv, sv', id);
    }
    forall k | Issued(top, sv, t, k) ensures Issued(top, sv', t, k) {}
    forall i | 0 <= i < |db.meta| ensures MetaIssued(top, sv', t, db.meta[i]) {
      assert MetaIssued(top, sv, t, db.meta[i]);
    }
  }

  lemma {:induction false} ServeLast(columns: set<Column>, sv: Server, ops: seq<ServerOp>)
    requires ops != []
    ensures ServeAll(columns, sv, ops)
         == Serve(columns, ServeAll(columns, sv, ops[..|ops| - 1]), ops[|ops| - 1])
    decreases |ops|
  {
    if |ops| > 1 {
      ServeLast(columns, Serve(columns, sv, ops[0]), ops[1..]);
      assert ops[1..][..|ops| - 2] == ops[..|ops| - 1][1..];
    } else {
      assert ops[1..] == [] && ops[..0] == [];
    }
  }

  /** No row has the id of the next one. */
  lemma NextIsNew(columns: set<Column>, sv: Server, n: nat)
    requires ServerSound(columns, sv) && sv.nextId <= n
    ensures !HasId(sv, Decimal.DecimalText(n))
  {
    forall i | 0 <= i < |sv.rows| ensures Decimal.DecimalText(sv.rows[i].id) != Decimal.DecimalText(n) {
      assert RowSound(columns, sv, sv.rows[i]);
      if Decimal.DecimalText(sv.rows[i].id) == Decimal.DecimalText(n) {
        Decimal.DigitsInjective(sv.rows[i].id, n);
      }
    }
  }

  // ---- one exchange ---------------------------------------------------------------------------------

  /** The answer is what the server's last write gives: to a create its row, to a patch the live row it patched. */
  ghost predicate Answers(columns: set<Column>, sv: Server, ops: seq<ServerOp>, request: Request, fields: Fields) {
    && ops != []
    && var op, after := ops[|ops| - 1], ServeAll(columns, sv, ops);
       match request
       case Post(_) => op.Create? && after.rows != [] && fields == Resource(after.rows[|after.rows| - 1])
       case Patch(id, _) =>
         && op.Patch? && Decimal.DecimalText(op.id) == id
         && exists i :: 0 <= i < |after.rows| && after.rows[i].id == op.id && after.rows[i].deletedAt.None? &&
              fields == Resource(after.rows[i])
       case Remove(_) => true
  }

  /**
  What can come of a request to the reference server: nothing, some error status,
  or the server's own success, which is 201 with the new row, 200 with the patched
  row, or 204 without a body for a deletion.
  */
  ghost predicate Comes(columns: set<Column>, sv: Server, ops: seq<ServerOp>, request: Request, outcome: Outcome) {
    outcome.Response? && 200 <= outcome.status <= 299 ==>
      match request
      case Post(_) =>
        outcome.status == 201 && outcome.body.Object? && Answers(columns, sv, ops, request, outcome.body.fields)
      case Patch(_, _) =>
        outcome.status == 200 && outcome.body.Object? && Answers(columns, sv, ops, request, outcome.body.fields)
      case Remove(id) =>
        && outcome.status == 204 && outcome.body.NoObject?
        && ops != [] && ops[|ops| - 1].Delete? && Decimal.DecimalText(ops[|ops| - 1].id) == id
  }

  /**
  A step of the client and what the server did since the step before: writes of
  anybody, this client's request perhaps among them. An answer may get lost or be
  an error; one that is accepted is the server's own. The server has not counted
  as far as `top` yet, and locally made ids are no decimal texts below it: they
  may be numbers, as long as they are out of the server's reach.
  */
  ghost predicate Serves(
      top: nat, s: Schema, columns: set<Column>, t: Table, sv: Server, db: Db, a: Atom, ops: seq<ServerOp>) {
    && FlatOps(ops) && ServeAll(columns, sv, ops).nextId <= top
    && match a
       case WriteA(w) => WriteFits(ServerIds(top), db, w)
       case SettleA(_, _) => true
       case ReplyA(u, _, request, outcome) =>
         u == t && Comes(columns, sv, ops, request, outcome)
       case PageA(u, page) =>
         u == t && exists since: int, limit: nat :: page == WireAll(List(ServeAll(columns, sv, ops), since, limit))
  }

  /** A run of the client against the server, with the server's writes before each step. */
  ghost predicate ServedRun(
      top: nat, s: Schema, columns: set<Column>, t: Table, sv: Server, db: Db, atoms: seq<Atom>,
      opss: seq<seq<ServerOp>>)
    decreases |atoms|
  {
    && |opss| == |atoms|
    && (atoms == [] ||
        (&& Serves(top, s, columns, t, sv, db, atoms[0], opss[0])
         && ServedRun(top, s, columns, t, ServeAll(columns, sv, opss[0]), Act(s, db, atoms[0]), atoms[1..], opss[1..])))
  }

  function ServerAfter(columns: set<Column>, sv: Server, opss: seq<seq<ServerOp>>): Server
    decreases |opss|
  {
    if opss == [] then sv else ServerAfter(columns, ServeAll(columns, sv, opss[0]), opss[1..])
  }

  lemma ResourceHasId(top: nat, sv: Server, i: nat)
    requires i < |sv.rows| && sv.rows[i].id < top
    ensures var fields := Resource(sv.rows[i]);
            && ID in fields && ScalarId(fields[ID]) == Some(Decimal.DecimalText(sv.rows[i].id))
            && HasId(sv, Decimal.DecimalText(sv.rows[i].id)) && Decimal.DecimalText(sv.rows[i].id) in ServerIds(top)
            && Decimal.DecimalText(sv.rows[i].id) != ""
  {
  }

  /** An answer names a row of the server. */
  lemma AnswerHasId(
      top: nat, columns: set<Column>, sv: Server, ops: seq<ServerOp>, request: Request, fields: Fields)
    requires Answers(columns, sv, ops, request, fields) && !request.Remove?
    requires ServerSound(columns, sv) && FlatOps(ops) && ServeAll(columns, sv, ops).nextId <= top
    ensures ID in fields && ScalarId(fields[ID]).Some?
    ensures HasId(ServeAll(columns, sv, ops), ScalarId(fields[ID]).value)
    ensures ScalarId(fields[ID]).value in ServerIds(top) && ScalarId(fields[ID]).value != ""
  {
    var after := ServeAll(columns, sv, ops);
    ServeAllKeepsIds(columns, sv, ops);
    forall i | 0 <= i < |after.rows| ensures after.rows[i].id < top {
      assert RowSound(columns, after, after.rows[i]);
    }
    if request.Post? {
      ResourceHasId(top, after, |after.rows| - 1);
    } else {
      var i :| 0 <= i < |after.rows| && fields == Resource(after.rows[i]);
      ResourceHasId(top, after, i);
    }
  }

  // ---- what each statement adds ----------------------------------------------------------------------

  lemma LocalWriteIssued(top: nat, sv: Server, t: Table, ms: seq<Meta>, k: Key, op: Operation, status: MetaStatus)
    requires MetasIssued(top, sv, t, ms) && Issued(top, sv, t, k) && MarkLocalWrite(ms, k, op, status).Some?
    ensures MetasIssued(top, sv, t, MarkLocalWrite(ms, k, op, status).value)
  {
  }

  lemma PulledIssued(top: nat, sv: Server, t: Table, ms: seq<Meta>, k: Key, status: MetaStatus)
    requires MetasIssued(top, sv, t, ms) && k.table == t && HasId(sv, k.id)
    ensures MetasIssued(top, sv, t, MarkPulledSynced(ms, k, status))
  {
  }

  lemma FailedIssued(top: nat, sv: Server, t: Table, ms: seq<Meta>, lk: Key)
    requires MetasIssued(top, sv, t, ms)
    ensures MetasIssued(top, sv, t, MarkMetaFailed(ms, lk))
  {
  }

  lemma ReplacedIssued(top: nat, sv: Server, t: Table, ms: seq<Meta>, lk: Key, newId: Id)
    requires MetasIssued(top, sv, t, ms) && lk.table == t && HasId(sv, newId) && MarkReplaced(ms, lk, newId).Some?
    ensures MetasIssued(top, sv, t, MarkReplaced(ms, lk, newId).value)
  {
  }

  lemma RemovedIssued(top: nat, sv: Server, t: Table, q: seq<Item>, id: nat)
    requires QueueIssued(top, sv, t, q)
    ensures QueueIssued(top, sv, t, RemoveItem(q, id))
  {
    var r := RemoveItem(q, id);
    forall i | 0 <= i < |r| ensures Issued(top, sv, t, Key(r[i].table, r[i].entityId)) {
      RemoveItemMembers(q, id, r[i]);
    }
  }

  lemma FireIssued(top: nat, s: Schema, sv: Server, t: Table, db: Db, k: Key, op: Operation, tombstone: bool)
    requires MetasIssued(top, sv, t, db.meta) && QueueIssued(top, sv, t, db.queue)
    requires KeysIssued(top, sv, t, db.rows.Keys)
    requires Issued(top, sv, t, k) && Fire(s, db, k, op, tombstone).Some?
    ensures DbIssued(top, sv, t, Fire(s, db, k, op, tombstone).value)
  {
    hide Issued;
    if !db.locked && s.synced(k.table) {
      LocalWriteIssued(top, sv, t, db.meta, k, if tombstone then Operation.Delete else op,
                       if tombstone then Deleted else Unsynced);
    }
  }

  lemma WriteIssued(top: nat, s: Schema, sv: Server, t: Table, db: Db, w: Write)
    requires DbIssued(top, sv, t, db) && WriteFits(ServerIds(top), db, w)
    ensures DbIssued(top, sv, t, ApplyWrite(s, db, w))
  {
    if TryWrite(s, db, w).Some? && (w.InsertW? || w.key in db.rows) {
      WrittenKeyIssued(top, sv, t, db, w);
      hide Issued, Fire;
      match w
      case InsertW(k, row) => FireIssued(top, s, sv, t, db.(rows := db.rows[k := row]), k, Insert, false);
      case UpdateW(k, cells) =>
        var row := db.rows[k] + cells;
        FireIssued(top, s, sv, t, db.(rows := db.rows[k := row]), k, Update, CellOf(row, DELETED_AT) != Null);
      case DeleteW(k) => FireIssued(top, s, sv, t, db.(rows := db.rows - {k}), k, Operation.Delete, true);
    }
  }

  lemma WrittenKeyIssued(top: nat, sv: Server, t: Table, db: Db, w: Write)
    requires DbIssued(top, sv, t, db) && WriteFits(ServerIds(top), db, w) && (w.InsertW? || w.key in db.rows)
    ensures Issued(top, sv, t, w.key)
  {
    if w.InsertW? && w.key.id in ServerIds(top) {
      var i := FindEntity(db.meta, w.key).value;
      assert MetaIssued(top, sv, t, db.meta[i]) && EntityKeyOf(db.meta[i]) == w.key;
    }
  }

  lemma ApplyRowIssued(top: nat, s: Schema, sv: Server, t: Table, db: Db, body: SyncApplier.Body)
    requires DbIssued(top, sv, t, db) && db.locked && ApplyRow(s, db, t, body).Some?
    requires HasId(sv, PulledKey(s, t, body).value.id)
    ensures DbIssued(top, sv, t, ApplyRow(s, db, t, body).value) && ApplyRow(s, db, t, body).value.locked
  {
    hide HasId, LocalCells, TombstoneApplies, RowApplies;
    var k := PulledKey(s, t, body).value;
    PulledIssued(top, sv, t, db.meta, k, Deleted);
    PulledIssued(top, sv, t, db.meta, k, Synced);
  }

  lemma {:induction false} ApplyRowsIssued(
      top: nat, s: Schema, sv: Server, t: Table, db: Db, page: seq<SyncApplier.Body>)
    requires DbIssued(top, sv, t, db) && db.locked && ApplyRows(s, db, t, page).Some?
    requires forall b <- page :: PulledKey(s, t, b).Some? ==> HasId(sv, PulledKey(s, t, b).value.id)
    ensures DbIssued(top, sv, t, ApplyRows(s, db, t, page).value)
    decreases |page|
  {
    hide DbIssued, HasId, ApplyRow;
    if page != [] {
      assert page[0] in page;
      AppliedHasKey(s, db, t, page[0]);
      ApplyRowIssued(top, s, sv, t, db, page[0]);
      ApplyRowsIssued(top, s, sv, t, ApplyRow(s, db, t, page[0]).value, page[1..]);
    }
  }

  lemma AppliedHasKey(s: Schema, db: Db, t: Table, body: SyncApplier.Body)
    requires ApplyRow(s, db, t, body).Some?
    ensures PulledKey(s, t, body).Some?
  {
  }

  /** The rows of a page carry ids of the server. */
  lemma PageHasIds(top: nat, s: Schema, columns: set<Column>, t: Table, sv: Server, since: int, limit: nat)
    requires s.pk(t) == ID && ServerSound(columns, sv) && sv.nextId <= top
    ensures forall b <- WireAll(List(sv, since, limit)) :: PulledKey(s, t, b).Some? ==>
              var id := PulledKey(s, t, b).value.id;
              HasId(sv, id) && id in ServerIds(top) && id != ""
  {
    ListIsPrefix(sv, since, limit);
    var listed := List(sv, since, limit);
    forall b <- WireAll(listed) | PulledKey(s, t, b).Some?
      ensures var id := PulledKey(s, t, b).value.id; HasId(sv, id) && id in ServerIds(top) && id != ""
    {
      var i :| 0 <= i < |listed| && b == Object(Resource(listed[i]));
      assert listed[i] in listed;
      var j :| 0 <= j < |sv.rows| && sv.rows[j] == listed[i];
      assert RowSound(columns, sv, sv.rows[j]);
      ResourceHasId(top, sv, j);
    }
  }

  // ---- an answer ---------------------------------------------------------------------------------------

  lemma RenamedIssued(top: nat, sv: Server, t: Table, q: seq<Item>, oldId: Id, newId: Id)
    requires QueueIssued(top, sv, t, q) && HasId(sv, newId)
    ensures QueueIssued(top, sv, t, RenameItems(q, t, oldId, newId))
  {
  }

  lemma ReplaceIssued(top: nat, s: Schema, sv: Server, t: Table, db: Db, item: Pushable, fields: Fields)
    requires DbIssued(top, sv, t, db) && s.pk(t) in fields
    requires ScalarId(fields[s.pk(t)]).Some? && HasId(sv, ScalarId(fields[s.pk(t)]).value)
    ensures DbIssued(top, sv, t, Replace(s, db, t, item, Object(fields)).db)
  {
    hide RewriteLocalRow, HasId, FindEntity, FindLocal, LocalCells;
    var open, body, lk := db.(locked := true), Object(fields), LocalKey(t, item);
    RemovedIssued(top, sv, t, db.queue, item.id);
    var recorded := RecordRemoteSuccess(s, open, lk, body);
    if recorded.Some? {
      var r := recorded.value;
      ReplacedIssued(top, sv, t, db.meta, lk, r.newId);
      RewriteFrame(s, r.db, t, r.oldId, r.newId, body);
      var a := RewriteLocalRow(s, r.db, t, r.oldId, r.newId, body);
      RenamedIssued(top, sv, t, db.queue, r.oldId, r.newId);
      RemovedIssued(top, sv, t, a.db.queue, item.id);
    }
  }

  lemma ReplyIssued(top: nat, s: Schema, columns: set<Column>, t: Table, sv: Server, db: Db, blocked: set<Key>, a: Atom,
                    ops: seq<ServerOp>)
    requires a.ReplyA? && ServerSound(columns, sv) && Serves(top, s, columns, t, sv, db, a, ops) && s.pk(t) == ID
    requires var sv' := ServeAll(columns, sv, ops);
             && DbIssued(top, sv', t, db) && KeysIssued(top, sv', t, blocked)
             && Issued(top, sv', t, LocalKey(a.table, a.item))
    ensures var sv' := ServeAll(columns, sv, ops);
            DbIssued(top, sv', t, Act(s, db, a)) && KeysIssued(top, sv', t, Blocks(s, db, blocked, a))
  {
    hide HasId, Replace, Finishes, Answers;
    var sv' := ServeAll(columns, sv, ops);
    RemovedIssued(top, sv', t, db.queue, a.item.id);
    FailedIssued(top, sv', t, db.meta, LocalKey(t, a.item));
    if a.outcome.Response? && 200 <= a.outcome.status <= 299 && !a.request.Remove? {
      AnswerHasId(top, columns, sv, ops, a.request, a.outcome.body.fields);
      ReplaceIssued(top, s, sv', t, db, a.item, a.outcome.body.fields);
    }
  }

  // ---- steps and runs ------------------------------------------------------------------------------------

  lemma SettleIssued(top: nat, s: Schema, sv: Server, t: Table, db: Db, u: Table, item: Pushable)
    requires DbIssued(top, sv, t, db)
    ensures DbIssued(top, sv, t, Act(s, db, SettleA(u, item)))
  {
    hide ReadSnapshot, HasId;
    RemovedIssued(top, sv, t, db.queue, item.id);
    FailedIssued(top, sv, t, db.meta, LocalKey(u, item));
  }

  lemma StepIssued(top: nat, s: Schema, columns: set<Column>, t: Table, sv: Server, db: Db, blocked: set<Key>, a: Atom,
                   ops: seq<ServerOp>)
    requires ServerSound(columns, sv) && Serves(top, s, columns, t, sv, db, a, ops) && s.pk(t) == ID
    requires DbIssued(top, sv, t, db) && KeysIssued(top, sv, t, blocked)
    requires a.ReplyA? ==> Issued(top, sv, t, LocalKey(a.table, a.item))
    ensures var sv' := ServeAll(columns, sv, ops);
            DbIssued(top, sv', t, Act(s, db, a)) && KeysIssued(top, sv', t, Blocks(s, db, blocked, a))
  {
    hide HasId, DbIssued, ApplyPage, Answers;
    var sv' := ServeAll(columns, sv, ops);
    ServeAllKeepsIds(columns, sv, ops);
    StillIssued(top, sv, sv', t, db, blocked);
    match a
    case WriteA(w) => WriteIssued(top, s, sv', t, db, w);
    case SettleA(u, item) => SettleIssued(top, s, sv', t, db, u, item);
    case ReplyA(u, item, _, _) =>
      KeyStillIssued(top, sv, sv', t, LocalKey(u, item));
      ReplyIssued(top, s, columns, t, sv, db, blocked, a, ops);
    case PageA(u, page) => PageIssued(top, s, columns, t, sv', db, page);
  }

  lemma KeyStillIssued(top: nat, sv: Server, sv': Server, t: Table, k: Key)
    requires KeepsIds(sv, sv') && Issued(top, sv, t, k)
    ensures Issued(top, sv', t, k)
  {
    if HasId(sv, k.id) { StillHas(sv, sv', k.id); }
  }

  lemma PageIssued(top: nat, s: Schema, columns: set<Column>, t: Table, sv: Server, db: Db, page: seq<SyncApplier.Body>)
    requires ServerSound(columns, sv) && sv.nextId <= top && DbIssued(top, sv, t, db) && s.pk(t) == ID
    requires exists since: int, limit: nat :: page == WireAll(List(sv, since, limit))
    ensures DbIssued(top, sv, t, ApplyPage(s, db, t, page).GetOr(db))
  {
    hide HasId;
    var since: int, limit: nat :| page == WireAll(List(sv, since, limit));
    PageHasIds(top, s, columns, t, sv, since, limit);
    var open := db.(locked := true);
    if ApplyRows(s, open, t, page).Some? {
      ApplyRowsIssued(top, s, sv, t, open, page);
    }
  }

  /** What the identity results assume of the step. */
  lemma StepFits(top: nat, s: Schema, columns: set<Column>, t: Table, sv: Server, db: Db, blocked: set<Key>, a: Atom,
                 ops: seq<ServerOp>)
    requires ServerSound(columns, sv) && Serves(top, s, columns, t, sv, db, a, ops) && s.pk(t) == ID && s.synced(t)
    requires DbIssued(top, sv, t, db) && KeysIssued(top, sv, t, blocked)
    ensures WorldFits(s, ServerIds(top), db, blocked, a)
  {
    ServeAllKeepsIds(columns, sv, ops);
    match a
    case WriteA(w) =>
    case SettleA(_, _) =>
    case ReplyA(_, _, request, outcome) =>
      if Taken(request, outcome) {
        AnswerFits(top, s, columns, t, sv, db, blocked, request, outcome.body.fields, ops);
      }
    case PageA(_, page) =>
      var since: int, limit: nat :| page == WireAll(List(ServeAll(columns, sv, ops), since, limit));
      PageHasIds(top, s, columns, t, ServeAll(columns, sv, ops), since, limit);
  }

  lemma UnissuedIsNotOwned(top: nat, sv: Server, t: Table, ms: seq<Meta>, k: Key)
    requires MetasIssued(top, sv, t, ms) && !Issued(top, sv, t, k)
    ensures !Owned(ms, k)
  {
    forall i | 0 <= i < |ms| ensures EntityKeyOf(ms[i]) != k {
      assert MetaIssued(top, sv, t, ms[i]);
    }
  }

  lemma AnswerFits(top: nat, s: Schema, columns: set<Column>, t: Table, sv: Server, db: Db, blocked: set<Key>,
                   request: Request, fields: Fields, ops: seq<ServerOp>)
    requires ServeAll(columns, sv, ops).nextId <= top
    requires ServerSound(columns, sv) && FlatOps(ops) && Answers(columns, sv, ops, request, fields) && !request.Remove?
    requires DbIssued(top, sv, t, db) && KeysIssued(top, sv, t, blocked) && s.pk(t) == ID
    ensures IdFits(s, ServerIds(top), db, blocked, t, request, fields)
  {
    AnswerHasId(top, columns, sv, ops, request, fields);
    if request.Post? {
      var before := ServeAll(columns, sv, ops[..|ops| - 1]);
      assert forall op <- ops[..|ops| - 1] :: op in ops;
      ServeAllKeepsIds(columns, sv, ops[..|ops| - 1]);
      ServeLast(columns, sv, ops);
      NextIsNew(columns, sv, before.nextId);
      var k := Key(t, Decimal.DecimalText(before.nextId));
      assert ScalarId(fields[ID]) == Some(k.id);
      UnissuedIsNotOwned(top, sv, t, db.meta, k);
    } else {
      var after := ServeAll(columns, sv, ops);
      var i :| 0 <= i < |after.rows| && after.rows[i].id == ops[|ops| - 1].id && fields == Resource(after.rows[i]);
      ServeAllKeepsIds(columns, sv, ops);
      assert RowSound(columns, after, after.rows[i]);
      ResourceHasId(top, after, i);
    }
  }

  ghost predicate ItemsIssued(top: nat, sv: Server, t: Table, atoms: seq<Atom>) {
    forall a <- atoms :: a.ReplyA? ==> Issued(top, sv, t, LocalKey(a.table, a.item))
  }

  lemma {:induction false} AtomsIssued(top: nat, s: Schema, columns: set<Column>, t: Table, sv: Server, db: Db,
                                       blocked: set<Key>, atoms: seq<Atom>, opss: seq<seq<ServerOp>>)
    requires ServerSound(columns, sv) && ServedRun(top, s, columns, t, sv, db, atoms, opss)
    requires DbIssued(top, sv, t, db) && KeysIssued(top, sv, t, blocked) && ItemsIssued(top, sv, t, atoms)
    requires s.pk(t) == ID && s.synced(t)
    ensures WorldsFit(s, ServerIds(top), db, blocked, atoms)
    ensures var sv' := ServerAfter(columns, sv, opss);
            && ServerSound(columns, sv') && DbIssued(top, sv', t, Acts(s, db, atoms))
            && KeysIssued(top, sv', t, BlockedAfter(s, db, blocked, atoms))
    decreases |atoms|
  {
    hide DbIssued, KeysIssued, Issued, Act, Blocks, WorldFits, ServerSound, KeepsIds;
    if atoms != [] {
      var a, ops := atoms[0], opss[0];
      assert a in atoms;
      var sv' := ServeAll(columns, sv, ops);
      StepFits(top, s, columns, t, sv, db, blocked, a, ops);
      StepIssued(top, s, columns, t, sv, db, blocked, a, ops);
      ServeAllKeepsIds(columns, sv, ops);
      forall b <- atoms[1..] | b.ReplyA? ensures Issued(top, sv', t, LocalKey(b.table, b.item)) {
        assert b in atoms;
        KeyStillIssued(top, sv, sv', t, LocalKey(b.table, b.item));
      }
      AtomsIssued(top, s, columns, t, sv', Act(s, db, a), Blocks(s, db, blocked, a), atoms[1..], opss[1..]);
    }
  }

  // ---- the items of a session ------------------------------------------------------------------------------

  ghost predicate FromItems(atoms: seq<Atom>, t: Table, items: seq<Pushable>) {
    forall a <- atoms :: a.ReplyA? ==> a.table == t && a.item in items
  }

  lemma {:induction false} WritesReplyNothing(ws: seq<Write>, t: Table, items: seq<Pushable>)
    ensures FromItems(WriteAtoms(ws), t, items)
  {
    if ws != [] { WritesReplyNothing(ws[1..], t, items); }
  }

  lemma {:induction false} RepliesAreOfItems(s: Schema, db: Db, t: Table, items: seq<Pushable>, turns: seq<Turn>)
    ensures FromItems(ItemsAtoms(s, db, t, items, turns), t, items)
    decreases |items|
  {
    hide Prepare, PushItem;
    if items != [] && turns != [] {
      var one := PushItem(s, db, t, items[0], turns[0]);
      WritesReplyNothing(turns[0].before, t, items);
      WritesReplyNothing(turns[0].during, t, items);
      assert FromItems(ItemAtoms(s, db, t, items[0], turns[0]), t, items);
      if !one.verdict.Offline? {
        RepliesAreOfItems(s, one.db, t, items[1..], turns[1..]);
      }
    }
  }

  lemma PendingIssued(top: nat, sv: Server, t: Table, db: Db, u: Table, item: Pushable)
    requires DbIssued(top, sv, t, db) && item in ReadPending(db, u, MAX_PUSH_ITEMS)
    ensures Issued(top, sv, t, LocalKey(u, item))
  {
    SyncConservation.PendingItemsSpec(db.meta, db.queue, u);
    assert item in PendingItems(db.meta, db.queue, u);
    var x :| x in db.queue && Wanted(x, u) && item == Read(db.meta, x);
    var k := Key(u, x.entityId);
    if FindEntity(db.meta, k).Some? {
      var i := FindEntity(db.meta, k).value;
      assert MetaIssued(top, sv, t, db.meta[i]);
      assert LocalKey(u, item) == LocalKeyOf(db.meta[i]);
    } else {
      var j :| 0 <= j < |db.queue| && db.queue[j] == x;
      assert Issued(top, sv, t, Key(db.queue[j].table, db.queue[j].entityId));
    }
  }

  lemma EventIssued(top: nat, s: Schema, sv: Server, t: Table, db: Db, e: Event)
    requires DbIssued(top, sv, t, db)
    ensures ItemsIssued(top, sv, t, EventAtoms(s, db, e))
  {
    match e
    case WriteE(_) =>
    case PullE(_, _) =>
    case PushE(u, turns) =>
      var items := ReadPending(db, u, MAX_PUSH_ITEMS);
      RepliesAreOfItems(s, db, u, items, turns);
      forall a <- EventAtoms(s, db, e) | a.ReplyA? ensures Issued(top, sv, t, LocalKey(a.table, a.item)) {
        PendingIssued(top, sv, t, db, u, a.item);
      }
  }

  // ---- whole runs --------------------------------------------------------------------------------------------

  lemma {:induction false} ServedSplit(top: nat, s: Schema, columns: set<Column>, t: Table, sv: Server, db: Db,
                                       a: seq<Atom>, b: seq<Atom>, opss: seq<seq<ServerOp>>)
    requires ServedRun(top, s, columns, t, sv, db, a + b, opss)
    ensures |opss| == |a| + |b| && ServedRun(top, s, columns, t, sv, db, a, opss[..|a|])
    ensures ServedRun(top, s, columns, t, ServerAfter(columns, sv, opss[..|a|]), Acts(s, db, a), b, opss[|a|..])
    ensures ServerAfter(columns, sv, opss)
         == ServerAfter(columns, ServerAfter(columns, sv, opss[..|a|]), opss[|a|..])
    decreases |a|
  {
    hide Serves, Act, ServeAll;
    if a == [] {
      assert a + b == b && opss[..0] == [] && opss[0..] == opss;
    } else {
      assert (a + b)[1..] == a[1..] + b;
      assert opss[..|a|][1..] == opss[1..][..|a| - 1] && opss[1..][|a| - 1..] == opss[|a|..];
      ServedSplit(top, s, columns, t, ServeAll(columns, sv, opss[0]), Act(s, db, a[0]), a[1..], b, opss[1..]);
    }
  }

  lemma {:induction false} WorldsFitJoin(
      s: Schema, server: iset<Id>, db: Db, blocked: set<Key>, a: seq<Atom>, b: seq<Atom>)
    requires WorldsFit(s, server, db, blocked, a)
    requires WorldsFit(s, server, Acts(s, db, a), BlockedAfter(s, db, blocked, a), b)
    ensures WorldsFit(s, server, db, blocked, a + b)
    decreases |a|
  {
    hide WorldFits, Act, Blocks;
    if a == [] {
      assert a + b == b;
    } else {
      assert (a + b)[1..] == a[1..] + b;
      WorldsFitJoin(s, server, Act(s, db, a[0]), Blocks(s, db, blocked, a[0]), a[1..], b);
    }
  }

  lemma {:induction false} ServedEventsFit(top: nat, s: Schema, columns: set<Column>, t: Table, sv: Server, db: Db,
                                           blocked: set<Key>, events: seq<Event>, opss: seq<seq<ServerOp>>)
    requires ServerSound(columns, sv) && ServedRun(top, s, columns, t, sv, db, Atoms(s, db, events), opss)
    requires DbIssued(top, sv, t, db) && KeysIssued(top, sv, t, blocked)
    requires s.pk(t) == ID && s.synced(t)
    ensures EventsFit(s, ServerIds(top), db, blocked, events)
    ensures DbIssued(top, ServerAfter(columns, sv, opss), t, Steps(s, db, events).db)
    decreases |events|
  {
    hide DbIssued, KeysIssued, EventAtoms, ServerSound, ItemsIssued, Step;
    if events != [] {
      var head, next := EventAtoms(s, db, events[0]), Step(s, db, events[0]).db;
      var tail := Atoms(s, next, events[1..]);
      ServedSplit(top, s, columns, t, sv, db, head, tail, opss);
      EventIssued(top, s, sv, t, db, events[0]);
      AtomsIssued(top, s, columns, t, sv, db, blocked, head, opss[..|head|]);
      EventAtomsRun(s, db, events[0]);
      ServedEventsFit(top, s, columns, t, ServerAfter(columns, sv, opss[..|head|]), next,
                      BlockedAfter(s, db, blocked, head), events[1..], opss[|head|..]);
      WorldsFitJoin(s, ServerIds(top), db, blocked, head, tail);
    }
  }

  /**
  From an empty client and an empty server, over any run of one table with other
  clients' writes at any point, answers lost and errors included: nothing needs
  to be assumed of the server's ids. Identity holds, every server id the client
  holds belongs to a row of the server, and no two client rows hold the same.
  */
  lemma ServedRunIsSound(
      top: nat, s: Schema, columns: set<Column>, t: Table, events: seq<Event>, opss: seq<seq<ServerOp>>)
    requires ServerSound(columns, NEW_STORE) && s.pk(t) == ID && s.synced(t)
    requires ServedRun(top, s, columns, t, NEW_STORE, EMPTY, Atoms(s, EMPTY, events), opss)
    ensures EventsFit(s, ServerIds(top), EMPTY, {}, events)
    ensures
      var d, sv := Steps(s, EMPTY, events).db, ServerAfter(columns, NEW_STORE, opss);
      && Inv(s, ServerIds(top), d, BlockedIn(s, EMPTY, {}, events))
      && (forall i | 0 <= i < |d.meta| && d.meta[i].table == t && d.meta[i].remoteId.Some? ::
            HasId(sv, d.meta[i].remoteId.value))
      && (forall i, j | 0 <= i < j < |d.meta| && d.meta[i].table == d.meta[j].table == t ::
            d.meta[i].remoteId.None? || d.meta[i].remoteId != d.meta[j].remoteId)
  {
    hide WorldsFit, Steps, Atoms, BlockedAfter, HasId, ServedRun;
    assert DbIssued(top, NEW_STORE, t, EMPTY);
    ServedEventsFit(top, s, columns, t, NEW_STORE, EMPTY, {}, events, opss);
    EmptyIsSound(s, ServerIds(top));
    IdentityForever(s, ServerIds(top), EMPTY, {}, {}, events);
    var d, sv := Steps(s, EMPTY, events).db, ServerAfter(columns, NEW_STORE, opss);
    forall i | 0 <= i < |d.meta| && d.meta[i].table == t && d.meta[i].remoteId.Some?
      ensures HasId(sv, d.meta[i].remoteId.value)
    {
      assert MetaIssued(top, sv, t, d.meta[i]);
    }
    OneNameEach(top, s, d, BlockedIn(s, EMPTY, {}, events), t);
  }

  lemma OneNameEach(top: nat, s: Schema, d: Db, blocked: set<Key>, t: Table)
    requires MetasSound(ServerIds(top), d.meta, blocked)
    ensures forall i, j | 0 <= i < j < |d.meta| && d.meta[i].table == d.meta[j].table == t ::
              d.meta[i].remoteId.None? || d.meta[i].remoteId != d.meta[j].remoteId
  {
    forall i | 0 <= i < |d.meta| ensures Linked(d.meta[i]) {}
  }

  /**
  And after the server has acknowledged a POST of a row that is not left to a
  human, every later request about it goes to one row of the server.
  */
  lemma ServedOnce(top: nat, s: Schema, columns: set<Column>, t: Table, events: seq<Event>, opss: seq<seq<ServerOp>>,
                   i: nat, j: nat)
    requires ServerSound(columns, NEW_STORE) && s.pk(t) == ID && s.synced(t)
    requires ServedRun(top, s, columns, t, NEW_STORE, EMPTY, Atoms(s, EMPTY, events), opss)
    requires var log := Steps(s, EMPTY, events).log;
             && i < j < |log| && log[i].row == log[j].row && log[i].row.table == t && Acknowledged(log[i])
             && log[i].row !in BlockedIn(s, EMPTY, {}, events)
    ensures var run := Steps(s, EMPTY, events);
            var target := Target(run.log[j].sent.request);
            && target.Some? && target == RemoteIdOf(run.db.meta, run.log[i].row)
            && HasId(ServerAfter(columns, NEW_STORE, opss), target.value)
  {
    hide WorldsFit, Steps, Atoms, BlockedAfter, HasId, ServedRun;
    ServedRunIsSound(top, s, columns, t, events, opss);
    EmptyIsSound(s, ServerIds(top));
    AcknowledgedOnce(s, ServerIds(top), EMPTY, {}, events, i, j);
  }

  // ---- one request, end to end ---------------------------------------------------------------------

  /** The three write endpoints; `n` is the number in the path of a patch or delete. */
  function Handle(columns: set<Column>, sv: Server, clock: int, n: nat, request: Request): (Server, Outcome) {
    match request
    case Post(fields) =>
      var sv' := Serve(columns, sv, Create(clock, fields));
      (sv', Response(201, Object(Resource(sv'.rows[|sv.rows|]))))
    case Patch(_, fields) =>
      var sv' := Serve(columns, sv, ServerOp.Patch(clock, n, fields));
      (sv', match LiveAt(sv.rows, n)
            case None => Response(404, NoObject)
            case Some(i) => Response(200, Object(Resource(sv'.rows[i]))))
    case Remove(_) =>
      (Serve(columns, sv, ServerOp.Delete(clock, n)),
       Response(if LiveAt(sv.rows, n).Some? then 204 else 404, NoObject))
  }

  function LiveAt(rows: seq<ServerRow>, n: nat): (r: Option<nat>)
    ensures r.Some? ==> r.value < |rows| && rows[r.value].id == n && rows[r.value].deletedAt.None?
    ensures r.None? ==> forall i | 0 <= i < |rows| && rows[i].id == n :: rows[i].deletedAt.Some?
  {
    if rows == [] then None
    else
      var last := |rows| - 1;
      if rows[last].id == n && rows[last].deletedAt.None? then Some(last) else LiveAt(rows[..last], n)
  }

  /** The write a request asks for. */
  function Asked(clock: int, n: nat, request: Request): ServerOp {
    match request
    case Post(fields) => Create(clock, fields)
    case Patch(_, fields) => ServerOp.Patch(clock, n, fields)
    case Remove(_) => ServerOp.Delete(clock, n)
  }

  /** The endpoints do what the runs above allow a server to do. */
  lemma HandleComes(columns: set<Column>, sv: Server, clock: int, n: nat, request: Request)
    requires !request.Post? ==> Decimal.DecimalText(n) == request.id
    ensures var (sv', outcome) := Handle(columns, sv, clock, n, request);
            && sv' == ServeAll(columns, sv, [Asked(clock, n, request)])
            && Comes(columns, sv, [Asked(clock, n, request)], request, outcome)
  {
    var op := Asked(clock, n, request);
    assert [op][1..] == [];
    assert ServeAll(columns, Serve(columns, sv, op), []) == Serve(columns, sv, op);
    if request.Patch? && LiveAt(sv.rows, n).Some? {
      var i := LiveAt(sv.rows, n).value;
      assert Serve(columns, sv, op).rows[i].id == n;
    }
  }

  /** A server row's data as a client row wrote it: for every column it may send, what its cell says, or null. */
  ghost predicate WrittenAs(s: Schema, k: Key, row: Row, data: Fields, columns: set<Column>) {
    forall c <- columns :: c in data &&
      (c in s.cols(k.table) && c != s.pk(k.table) && c != "deletedAt" ==>
         if c in row then Carries(row[c], data[c]) else data[c] == WNull)
  }

  /** A create that is handled: the server has one more live row, with the client's data, and answers 201 with it. */
  lemma PostedRowArrives(s: Schema, columns: set<Column>, sv: Server, db: Db, t: Table, item: Pushable, clock: int)
    requires Prepare(s, db, t, item).Send? && Prepare(s, db, t, item).request.Post?
    ensures
      var (sv', outcome) := Handle(columns, sv, clock, 0, Prepare(s, db, t, item).request);
      var k := Key(t, item.entityId);
      && k in db.rows && |sv'.rows| == |sv.rows| + 1 && sv'.rows[..|sv.rows|] == sv.rows
      && var r := sv'.rows[|sv.rows|];
         && r.id == sv.nextId && r.deletedAt.None? && r.data.Keys == columns
         && WrittenAs(s, k, db.rows[k], r.data, columns)
         && outcome == Response(201, Object(Resource(r)))
  {
    SnapshotIs(s, db, Key(t, item.entityId));
  }

  /** A patch that is handled: the live row takes the client's data and the answer is 200 with it; without one, 404. */
  lemma PatchedRowArrives(
      s: Schema, columns: set<Column>, sv: Server, db: Db, t: Table, item: Pushable, clock: int, n: nat)
    requires Prepare(s, db, t, item).Send? && Prepare(s, db, t, item).request.Patch?
    requires Decimal.DecimalText(n) == Prepare(s, db, t, item).request.id
    ensures
      var (sv', outcome) := Handle(columns, sv, clock, n, Prepare(s, db, t, item).request);
      var k := Key(t, Decimal.DecimalText(n));
      && k in db.rows && |sv'.rows| == |sv.rows|
      && (forall i | 0 <= i < |sv.rows| ::
            if sv.rows[i].id == n && sv.rows[i].deletedAt.None?
            then (columns <= sv.rows[i].data.Keys ==> WrittenAs(s, k, db.rows[k], sv'.rows[i].data, columns))
            else sv'.rows[i] == sv.rows[i])
      && (if HasLive(sv.rows, n)
          then exists i :: 0 <= i < |sv'.rows| && sv'.rows[i].id == n &&
                           outcome == Response(200, Object(Resource(sv'.rows[i])))
          else outcome == Response(404, NoObject))
  {
    var k := Key(t, Decimal.DecimalText(n));
    var (sv', outcome) := Handle(columns, sv, clock, n, Prepare(s, db, t, item).request);
    SnapshotIs(s, db, k);
    if HasLive(sv.rows, n) {
      var i := LiveAt(sv.rows, n).value;
      assert sv'.rows[i].id == n;
    }
  }

  /** A delete that is handled is over for the client, whether or not there was still something to delete. */
  lemma DeletedRowIsGone(
      s: Schema, columns: set<Column>, sv: Server, db: Db, t: Table, item: Pushable, clock: int, n: nat, id: Id)
    ensures
      var (sv', outcome) := Handle(columns, sv, clock, n, Remove(id));
      && !HasLive(sv'.rows, n)
      && outcome == Response(if HasLive(sv.rows, n) then 204 else 404, NoObject)
      && Receive(s, db, t, item, Remove(id), outcome) == Received(DropItem(db, item.id), RemotelyDeleted)
  {
    var (sv', outcome) := Handle(columns, sv, clock, n, Remove(id));
    FateByStatus(s, db, t, item, Remove(id), outcome.status, NoObject);
  }
}
