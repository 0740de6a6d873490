/**
Identity over whole runs: however local writes, push sessions and pulled pages
follow one another, the four places that know a row's id agree. A create that
the server accepted but that the client could not carry over to its own row
strands that row; the ids of such rows are collected in a set of blocked keys,
and everything is stated for the rows outside it. A create whose
row was renamed, and that failed only after that, blocks nothing: it leaves
queue items under the row's former name, which no session will ever send.
*/
module SyncIdentity {
  import opened Wrappers
  import opened SyncStore
  import opened SyncApplier
  import opened SyncReplace
  import opened SyncPush
  import opened SyncRuns

  // ---- what is assumed of the world ------------------------------------------------------------

  /** New rows get an id no server hands out, unless they come back under an id the table already knows. */
  ghost predicate WriteFits(server: iset<Id>, db: Db, w: Write) {
    w.InsertW? ==> w.key.id != "" && (w.key.id !in server || Owned(db.meta, w.key))
  }

  /** POST answers with a server id not used before, PATCH with the id it was sent to; either may leave the id out. */
  ghost predicate IdFits(
      s: Schema, server: iset<Id>, db: Db, blocked: set<Key>, t: Table, request: Request, fields: Fields) {
    s.pk(t) in fields ==>
      match request
      case Post(_) =>
        var r := ScalarId(fields[s.pk(t)]);
        && r.Some? && r.value in server && r.value != ""
        && !Owned(db.meta, Key(t, r.value)) && Key(t, r.value) !in blocked
      case Patch(id, _) => ScalarId(fields[s.pk(t)]) == Some(id)
      case Remove(_) => true
  }

  /** An accepted answer that is applied to the row it is about. */
  predicate Taken(request: Request, outcome: Outcome) {
    && outcome.Response? && 200 <= outcome.status <= 299
    && !request.Remove? && outcome.body.Object?
  }

  ghost predicate PageFits(s: Schema, server: iset<Id>, t: Table, page: seq<SyncApplier.Body>) {
    forall b <- page :: PulledKey(s, t, b).Some? ==>
      PulledKey(s, t, b).value.id in server && PulledKey(s, t, b).value.id != ""
  }

  /** Requests and pages are of tables with a sync contract. */
  ghost predicate WorldFits(s: Schema, server: iset<Id>, db: Db, blocked: set<Key>, a: Atom) {
    match a
    case WriteA(w) => WriteFits(server, db, w)
    case SettleA(_, _) => true
    case ReplyA(t, item, request, outcome) =>
      s.synced(t) && (Taken(request, outcome) ==> IdFits(s, server, db, blocked, t, request, outcome.body.fields))
    case PageA(t, page) => s.synced(t) && PageFits(s, server, t, page)
  }

  ghost predicate WorldsFit(s: Schema, server: iset<Id>, db: Db, blocked: set<Key>, atoms: seq<Atom>)
    decreases |atoms|
  {
    atoms == [] ||
    (&& WorldFits(s, server, db, blocked, atoms[0])
     && WorldsFit(s, server, Act(s, db, atoms[0]), Blocks(s, db, blocked, atoms[0]), atoms[1..]))
  }

  ghost predicate EventsFit(s: Schema, server: iset<Id>, db: Db, blocked: set<Key>, events: seq<Event>) {
    WorldsFit(s, server, db, blocked, Atoms(s, db, events))
  }

  // ---- stranded rows ----------------------------------------------------------------------------

  /** A create whose answer names the row. */
  predicate Names(s: Schema, t: Table, request: Request, outcome: Outcome) {
    Taken(request, outcome) && request.Post? && s.pk(t) in outcome.body.fields
  }

  /** Whether step 2 goes through for this answer, judged before it is applied. */
  predicate Finishes(s: Schema, db: Db, about: Key, fields: Fields) {
    Rewritable(s, db, about.table, StoredId(db.meta, about), AnsweredId(s, db.meta, about, fields), fields)
  }

  /**
  Whether the row's old name is free after step 2, judged before the answer is
  applied: no row is stored under it, or the rename is reached and goes through.
  */
  predicate Vacates(s: Schema, db: Db, about: Key, fields: Fields) {
    var oldId := StoredId(db.meta, about);
    || Key(about.table, oldId) !in db.rows
    || (&& LocalCells(s, about.table, fields).Some?
        && RenameAllowed(s, db.rows, about.table, oldId, AnsweredId(s, db.meta, about, fields)))
  }

  /**
  The blocked keys after a step. Only an answered create adds to them: one whose
  row cannot be renamed adds the row's localId and the id it was given, and a row
  already blocked adds whatever id it is given next.
  */
  function Blocks(s: Schema, db: Db, blocked: set<Key>, a: Atom): (r: set<Key>)
    ensures blocked <= r
  {
    match a
    case ReplyA(t, item, request, outcome) =>
      var about := LocalKey(t, item);
      if Names(s, t, request, outcome) && (about in blocked || !Vacates(s, db, about, outcome.body.fields))
      then blocked + {about, Key(t, AnsweredId(s, db.meta, about, outcome.body.fields))}
      else blocked
    case _ => blocked
  }

  function BlockedAfter(s: Schema, db: Db, blocked: set<Key>, atoms: seq<Atom>): (r: set<Key>)
    ensures blocked <= r
    decreases |atoms|
  {
    if atoms == [] then blocked
    else BlockedAfter(s, Act(s, db, atoms[0]), Blocks(s, db, blocked, atoms[0]), atoms[1..])
  }

  /** The rows whose answered create was not carried to its end, renamed or not. */
  function Unfinishes(s: Schema, db: Db, unfinished: set<Key>, a: Atom): (r: set<Key>)
    ensures unfinished <= r
  {
    match a
    case ReplyA(t, item, request, outcome) =>
      if Names(s, t, request, outcome) && !Finishes(s, db, LocalKey(t, item), outcome.body.fields)
      then unfinished + {LocalKey(t, item)} else unfinished
    case _ => unfinished
  }

  function UnfinishedAfter(s: Schema, db: Db, unfinished: set<Key>, atoms: seq<Atom>): (r: set<Key>)
    ensures unfinished <= r
    decreases |atoms|
  {
    if atoms == [] then unfinished
    else UnfinishedAfter(s, Act(s, db, atoms[0]), Unfinishes(s, db, unfinished, atoms[0]), atoms[1..])
  }

  // ---- the invariant -------------------------------------------------------------------------------

  function LocalKeyOf(m: Meta): Key { Key(m.table, m.localId) }

  function EntityKeyOf(m: Meta): Key { Key(m.table, m.entityId) }

  ghost predicate Owned(ms: seq<Meta>, k: Key) { FindEntity(ms, k).Some? }

  /** Per table, no two metadata rows share a localId or an entityId. */
  ghost predicate Distinct(ms: seq<Meta>) {
    forall i, j | 0 <= i < j < |ms| ::
      ms[i].table == ms[j].table ==> ms[i].localId != ms[j].localId && ms[i].entityId != ms[j].entityId
  }

  /** A row is stored under its own localId until the server names it, and then under that name. */
  ghost predicate Linked(m: Meta) {
    && m.localId != "" && m.entityId != ""
    && (m.remoteId.None? ==> m.entityId == m.localId)
    && (m.remoteId.Some? ==> m.remoteId.value == m.entityId)
  }

  /** Local names and server names do not mix. */
  ghost predicate MetaSound(server: iset<Id>, m: Meta) {
    && Linked(m)
    && (m.remoteId.None? ==> m.localId !in server)
    && (m.entityId != m.localId ==> m.entityId in server && m.localId !in server)
  }

  /** A metadata row is blocked with both its keys or with neither. */
  ghost predicate Apart(ms: seq<Meta>, blocked: set<Key>) {
    forall i | 0 <= i < |ms| :: LocalKeyOf(ms[i]) in blocked <==> EntityKeyOf(ms[i]) in blocked
  }

  ghost predicate MetasSound(server: iset<Id>, ms: seq<Meta>, blocked: set<Key>) {
    && Distinct(ms) && Apart(ms, blocked)
    && forall i | 0 <= i < |ms| ::
         Linked(ms[i]) && (LocalKeyOf(ms[i]) !in blocked ==> MetaSound(server, ms[i]))
  }

  function KeyOf(x: Item): Key { Key(x.table, x.entityId) }

  ghost predicate HasKey(q: seq<Item>, k: Key) { exists i :: 0 <= i < |q| && KeyOf(q[i]) == k }

  ghost predicate QueueOwned(ms: seq<Meta>, q: seq<Item>, except: set<Key>) {
    forall i | 0 <= i < |q| :: KeyOf(q[i]) !in except ==> Owned(ms, KeyOf(q[i]))
  }

  /** The former name of a row that goes by a server id now: no row is stored under it, nor will be. */
  ghost predicate Former(s: Schema, server: iset<Id>, ms: seq<Meta>, keys: set<Key>, k: Key) {
    s.synced(k.table) && k.id !in server && FindLocal(ms, k).Some? && !Owned(ms, k) && k !in keys
  }

  /** Every item is owned by a metadata row, or is left over under a former name. */
  ghost predicate QueueKept(
      s: Schema, server: iset<Id>, ms: seq<Meta>, keys: set<Key>, q: seq<Item>, except: set<Key>) {
    forall i | 0 <= i < |q| ::
      KeyOf(q[i]) in except || Owned(ms, KeyOf(q[i])) || Former(s, server, ms, keys, KeyOf(q[i]))
  }

  ghost predicate QueueOrdered(q: seq<Item>, next: nat) {
    && (forall i | 0 <= i < |q| :: q[i].id < next)
    && (forall i, j | 0 <= i < j < |q| :: q[i].id < q[j].id)
  }

  ghost predicate RowsOwned(s: Schema, rows: map<Key, Row>, ms: seq<Meta>, except: set<Key>) {
    forall k <- rows :: s.synced(k.table) && k !in except ==> Owned(ms, k)
  }

  ghost predicate Named(keys: set<Key>) { forall k <- keys :: k.id != "" }

  ghost predicate Sound(s: Schema, server: iset<Id>, db: Db, blocked: set<Key>) {
    && MetasSound(server, db.meta, blocked)
    && QueueKept(s, server, db.meta, db.rows.Keys, db.queue, blocked)
    && QueueOrdered(db.queue, db.nextItem)
    && RowsOwned(s, db.rows, db.meta, blocked)
    && Named(blocked)
  }

  ghost predicate Inv(s: Schema, server: iset<Id>, db: Db, blocked: set<Key>) {
    Sound(s, server, db, blocked) && !db.locked
  }

  // ---- metadata steps ---------------------------------------------------------------------------------

  /** Every row keeps its localId, and every row not blocked stays stored where it is. */
  ghost predicate Grows(ms: seq<Meta>, ms': seq<Meta>, blocked: set<Key>) {
    && |ms| <= |ms'|
    && forall i | 0 <= i < |ms| ::
         && ms'[i].table == ms[i].table && ms'[i].localId == ms[i].localId
         && (LocalKeyOf(ms[i]) !in blocked ==> ms'[i].entityId == ms[i].entityId)
  }

  /** All rows stay where they are, and the server knows exactly the rows it knew. */
  ghost predicate SameIds(ms: seq<Meta>, ms': seq<Meta>) {
    Grows(ms, ms', {}) && forall i | 0 <= i < |ms| :: ms'[i].remoteId == ms[i].remoteId
  }

  /** localIds are frozen; a row not blocked keeps the server id it has learnt and moves only by learning one. */
  ghost predicate Evolves(ms: seq<Meta>, ms': seq<Meta>, blocked: set<Key>) {
    && |ms| <= |ms'|
    && forall i | 0 <= i < |ms| ::
         && ms'[i].table == ms[i].table && ms'[i].localId == ms[i].localId
         && (LocalKeyOf(ms[i]) !in blocked ==>
               && (ms[i].remoteId.Some? ==> ms'[i].remoteId == ms[i].remoteId && ms'[i].entityId == ms[i].entityId)
               && (ms'[i].remoteId.None? ==> ms'[i].entityId == ms[i].entityId))
  }

  lemma GrowsKeepsOwned(ms: seq<Meta>, ms': seq<Meta>, k: Key, blocked: set<Key>)
    requires Grows(ms, ms', blocked) && Apart(ms, blocked) && Owned(ms, k) && k !in blocked
    ensures Owned(ms', k)
  {
    var i := FindEntity(ms, k).value;
    assert EntityKeyOf(ms[i]) == k;
    assert ms'[i].table == k.table && ms'[i].entityId == k.id;
  }

  lemma GrowsKeepsRows(
      s: Schema, rows: map<Key, Row>, ms: seq<Meta>, ms': seq<Meta>, blocked: set<Key>, except: set<Key>)
    requires Grows(ms, ms', blocked) && Apart(ms, blocked) && blocked <= except && RowsOwned(s, rows, ms, except)
    ensures RowsOwned(s, rows, ms', except)
  {
    forall k <- rows | s.synced(k.table) && k !in except ensures Owned(ms', k) {
      GrowsKeepsOwned(ms, ms', k, blocked);
    }
  }

  /** Metadata rows are never taken away and no localId changes. */
  ghost predicate Frozen(ms: seq<Meta>, ms': seq<Meta>) {
    |ms| <= |ms'| && forall i | 0 <= i < |ms| :: LocalKeyOf(ms'[i]) == LocalKeyOf(ms[i])
  }

  /** Rows are stored under no name but those they had, and `k`. */
  ghost predicate NewNames(ms: seq<Meta>, ms': seq<Meta>, k: Key) {
    forall n: Key | Owned(ms', n) :: Owned(ms, n) || n == k
  }

  lemma FormerStays(s: Schema, server: iset<Id>, ms: seq<Meta>, keys: set<Key>, ms': seq<Meta>, keys': set<Key>, k: Key)
    requires Former(s, server, ms, keys, k) && Frozen(ms, ms') && !Owned(ms', k) && k !in keys'
    ensures Former(s, server, ms', keys', k)
  {
    assert LocalKeyOf(ms'[FindLocal(ms, k).value]) == k;
  }

  /** Former names stay former names. */
  ghost predicate FormersStay(
      s: Schema, server: iset<Id>, ms: seq<Meta>, keys: set<Key>, ms': seq<Meta>, keys': set<Key>, except: set<Key>) {
    forall k: Key | Former(s, server, ms, keys, k) && k !in except :: Former(s, server, ms', keys', k)
  }

  lemma NewNamesKeepFormers(s: Schema, server: iset<Id>, ms: seq<Meta>, keys: set<Key>, ms': seq<Meta>, keys': set<Key>,
                            n: Key, except: set<Key>)
    requires Frozen(ms, ms') && NewNames(ms, ms', n) && keys' <= keys + {n}
    requires !Former(s, server, ms, keys, n) || n in except
    ensures FormersStay(s, server, ms, keys, ms', keys', except)
  {
    forall k: Key | Former(s, server, ms, keys, k) && k !in except ensures Former(s, server, ms', keys', k) {
      FormerStays(s, server, ms, keys, ms', keys', k);
    }
  }

  /** What a step must keep for the queue to stay sound. */
  lemma QueueCarries(s: Schema, server: iset<Id>, ms: seq<Meta>, keys: set<Key>, q: seq<Item>,
                     ms': seq<Meta>, keys': set<Key>, q': seq<Item>, blocked: set<Key>)
    requires QueueKept(s, server, ms, keys, q, blocked) && FormersStay(s, server, ms, keys, ms', keys', blocked)
    requires forall k: Key | Owned(ms, k) && k !in blocked :: Owned(ms', k)
    requires forall i | 0 <= i < |q'| :: Owned(ms', KeyOf(q'[i])) || HasKey(q, KeyOf(q'[i]))
    ensures QueueKept(s, server, ms', keys', q', blocked)
  {
    hide Former, Owned;
    forall i | 0 <= i < |q'|
      ensures KeyOf(q'[i]) in blocked || Owned(ms', KeyOf(q'[i])) || Former(s, server, ms', keys', KeyOf(q'[i]))
    {
      if !Owned(ms', KeyOf(q'[i])) {
        var j :| 0 <= j < |q| && KeyOf(q[j]) == KeyOf(q'[i]);
      }
    }
  }

  lemma GrowsKeepsOwnedKeys(ms: seq<Meta>, ms': seq<Meta>, blocked: set<Key>)
    requires Grows(ms, ms', blocked) && Apart(ms, blocked)
    ensures forall k: Key | Owned(ms, k) && k !in blocked :: Owned(ms', k)
    ensures Frozen(ms, ms')
  {
    forall k: Key | Owned(ms, k) && k !in blocked ensures Owned(ms', k) {
      GrowsKeepsOwned(ms, ms', k, blocked);
    }
  }

  lemma LocalWriteNames(ms: seq<Meta>, k: Key, op: Operation, status: MetaStatus)
    requires MarkLocalWrite(ms, k, op, status).Some?
    ensures NewNames(ms, MarkLocalWrite(ms, k, op, status).value, k)
  {
    var ms' := MarkLocalWrite(ms, k, op, status).value;
    forall n: Key | Owned(ms', n) ensures Owned(ms, n) || n == k {
      NameWasThere(ms, ms', n, k);
    }
  }

  lemma PulledNames(ms: seq<Meta>, k: Key, status: MetaStatus)
    ensures NewNames(ms, MarkPulledSynced(ms, k, status), k)
  {
    var ms' := MarkPulledSynced(ms, k, status);
    forall n: Key | Owned(ms', n) ensures Owned(ms, n) || n == k {
      NameWasThere(ms, ms', n, k);
    }
  }

  lemma LocalWriteKeeps(server: iset<Id>, ms: seq<Meta>, k: Key, op: Operation, status: MetaStatus, blocked: set<Key>)
    requires MetasSound(server, ms, blocked) && MarkLocalWrite(ms, k, op, status).Some?
    requires k.id != "" && (k.id !in server || Owned(ms, k) || k in blocked)
    ensures
      var ms' := MarkLocalWrite(ms, k, op, status).value;
      MetasSound(server, ms', blocked) && SameIds(ms, ms') && Owned(ms', k) && NewNames(ms, ms', k)
  {
    hide NewNames;
    var ms' := MarkLocalWrite(ms, k, op, status).value;
    var i := if FindEntity(ms, k).Some? then FindEntity(ms, k).value else |ms|;
    assert ms'[i].table == k.table && ms'[i].entityId == k.id;
    LocalWriteNames(ms, k, op, status);
  }

  lemma NameWasThere(ms: seq<Meta>, ms': seq<Meta>, n: Key, k: Key)
    requires |ms| <= |ms'| && Owned(ms', n)
    requires forall i | 0 <= i < |ms'| ::
      EntityKeyOf(ms'[i]) == k || (i < |ms| && EntityKeyOf(ms'[i]) == EntityKeyOf(ms[i]))
    ensures Owned(ms, n) || n == k
  {
    var i := FindEntity(ms', n).value;
    assert EntityKeyOf(ms'[i]) == n;
  }

  lemma PulledKeeps(server: iset<Id>, ms: seq<Meta>, k: Key, status: MetaStatus, blocked: set<Key>)
    requires MetasSound(server, ms, blocked) && k.id in server && k.id != ""
    ensures
      var ms' := MarkPulledSynced(ms, k, status);
      && MetasSound(server, ms', blocked) && Grows(ms, ms', blocked) && Evolves(ms, ms', blocked)
      && Owned(ms', k) && NewNames(ms, ms', k)
  {
    hide NewNames;
    var ms' := MarkPulledSynced(ms, k, status);
    var i := if FindEntity(ms, k).Some? then FindEntity(ms, k).value
             else if FindLocal(ms, k).Some? then FindLocal(ms, k).value else |ms|;
    if FindEntity(ms, k).None? && FindLocal(ms, k).Some? {
      // A localId the server hands out is only ever its own entityId, unless the row is blocked.
      assert LocalKeyOf(ms[i]) == k;
      assert k in blocked;
    }
    assert ms'[i].table == k.table && ms'[i].entityId == k.id;
    PulledNames(ms, k, status);
  }

  /**
  Without the assumption on ids: a pulled row leaves every row where it is stored
  unless its id is nobody's entityId but some row's localId, which it then re-homes.
  */
  lemma PulledMovesIff(ms: seq<Meta>, k: Key, status: MetaStatus)
    ensures Grows(ms, MarkPulledSynced(ms, k, status), {}) <==> Owned(ms, k) || FindLocal(ms, k).None?
  {
    if !Owned(ms, k) && FindLocal(ms, k).Some? {
      var i := FindLocal(ms, k).value;
      assert MarkPulledSynced(ms, k, status)[i].entityId == k.id != ms[i].entityId;
    }
  }

  lemma MetaFailedKeeps(server: iset<Id>, ms: seq<Meta>, lk: Key, blocked: set<Key>)
    requires MetasSound(server, ms, blocked)
    ensures MetasSound(server, MarkMetaFailed(ms, lk), blocked) && SameIds(ms, MarkMetaFailed(ms, lk))
    ensures forall n: Key | Owned(MarkMetaFailed(ms, lk), n) :: Owned(ms, n)
  {
    var ms' := MarkMetaFailed(ms, lk);
    forall n: Key | Owned(ms', n) ensures Owned(ms, n) {
      var i := FindEntity(ms', n).value;
      assert EntityKeyOf(ms[i]) == n;
    }
  }

  // ---- queue steps --------------------------------------------------------------------------------------

  /** DELETE keeps exactly the other items. */
  lemma {:induction false} RemoveItemMembers(q: seq<Item>, id: nat, x: Item)
    ensures x in RemoveItem(q, id) <==> x in q && x.id != id
  {
    if q != [] {
      RemoveItemMembers(q[1..], id, x);
      assert q == [q[0]] + q[1..];
    }
  }

  /** DELETE keeps the order of the others. */
  lemma {:induction false} RemoveItemKeepsOrder(q: seq<Item>, id: nat, next: nat)
    requires QueueOrdered(q, next)
    ensures QueueOrdered(RemoveItem(q, id), next)
  {
    if q != [] {
      var rest := RemoveItem(q[1..], id);
      RemoveItemKeepsOrder(q[1..], id, next);
      forall i | 0 <= i < |rest| ensures q[0].id < rest[i].id {
        RemoveItemMembers(q[1..], id, rest[i]);
      }
    }
  }

  lemma SameNamesKeepQueue(s: Schema, server: iset<Id>, db: Db, ms': seq<Meta>, q': seq<Item>, blocked: set<Key>)
    requires QueueKept(s, server, db.meta, db.rows.Keys, db.queue, blocked) && Apart(db.meta, blocked)
    requires Grows(db.meta, ms', {}) && forall n: Key | Owned(ms', n) :: Owned(db.meta, n)
    requires forall i | 0 <= i < |q'| :: HasKey(db.queue, KeyOf(q'[i]))
    ensures QueueKept(s, server, ms', db.rows.Keys, q', blocked)
    ensures FormersStay(s, server, db.meta, db.rows.Keys, ms', db.rows.Keys, {})
  {
    GrowsKeepsOwnedKeys(db.meta, ms', {});
    forall k: Key | Former(s, server, db.meta, db.rows.Keys, k) ensures Former(s, server, ms', db.rows.Keys, k) {
      FormerStays(s, server, db.meta, db.rows.Keys, ms', db.rows.Keys, k);
    }
    QueueCarries(s, server, db.meta, db.rows.Keys, db.queue, ms', db.rows.Keys, q', blocked);
  }

  lemma DropKeeps(s: Schema, server: iset<Id>, db: Db, blocked: set<Key>, id: nat)
    requires Sound(s, server, db, blocked)
    ensures Sound(s, server, DropItem(db, id), blocked)
  {
    RemoveItemKeepsOrder(db.queue, id, db.nextItem);
    var q := RemoveItem(db.queue, id);
    forall i | 0 <= i < |q| ensures HasKey(db.queue, KeyOf(q[i])) {
      RemoveItemMembers(db.queue, id, q[i]);
      var j :| 0 <= j < |db.queue| && db.queue[j] == q[i];
    }
    SameNamesKeepQueue(s, server, db, db.meta, q, blocked);
  }

  lemma MarkedIsThere(q: seq<Item>, id: nat, status: ItemStatus)
    ensures forall i | 0 <= i < |q| :: HasKey(q, KeyOf(MarkItem(q, id, status)[i]))
  {
    forall i | 0 <= i < |q| ensures HasKey(q, KeyOf(MarkItem(q, id, status)[i])) {
      assert KeyOf(q[i]) == KeyOf(MarkItem(q, id, status)[i]);
    }
  }

  lemma BlockKeeps(s: Schema, server: iset<Id>, db: Db, blocked: set<Key>, id: nat)
    requires Sound(s, server, db, blocked)
    ensures Sound(s, server, BlockItem(db, id), blocked)
  {
    MarkedIsThere(db.queue, id, Blocked);
    SameNamesKeepQueue(s, server, db, db.meta, MarkItem(db.queue, id, Blocked), blocked);
  }

  lemma FailKeeps(s: Schema, server: iset<Id>, db: Db, blocked: set<Key>, lk: Key, id: nat)
    requires Sound(s, server, db, blocked)
    ensures Sound(s, server, FailItem(db, lk, id), blocked)
  {
    MetaFailedKeeps(server, db.meta, lk, blocked);
    GrowsKeepsRows(s, db.rows, db.meta, MarkMetaFailed(db.meta, lk), {}, blocked);
    MarkedIsThere(db.queue, id, Failed);
    SameNamesKeepQueue(s, server, db, MarkMetaFailed(db.meta, lk), MarkItem(db.queue, id, Failed), blocked);
  }

  // ---- local writes -----------------------------------------------------------------------------------------

  /** A local write never takes a former name: its metadata could not be written. */
  lemma FormerIsNotWritten(ms: seq<Meta>, k: Key, op: Operation, status: MetaStatus)
    requires MarkLocalWrite(ms, k, op, status).Some? && !Owned(ms, k)
    ensures FindLocal(ms, k).None?
  {
  }

  lemma FireKeeps(s: Schema, server: iset<Id>, db: Db, was: set<Key>, blocked: set<Key>, k: Key, op: Operation,
                  tombstone: bool)
    requires MetasSound(server, db.meta, blocked) && QueueKept(s, server, db.meta, was, db.queue, blocked)
    requires QueueOrdered(db.queue, db.nextItem) && Named(blocked)
    requires RowsOwned(s, db.rows, db.meta, blocked + {k}) && db.rows.Keys <= was + {k}
    requires !db.locked && k.id != "" && (k.id !in server || Owned(db.meta, k) || k in blocked)
    requires Fire(s, db, k, op, tombstone).Some?
    ensures var d := Fire(s, db, k, op, tombstone).value;
            && Inv(s, server, d, blocked) && SameIds(db.meta, d.meta)
            && FormersStay(s, server, db.meta, was, d.meta, d.rows.Keys, {})
  {
    hide Former, FormersStay, NewNames, QueueKept;
    if s.synced(k.table) {
      var op' := if tombstone then Delete else op;
      var status := if tombstone then Deleted else Unsynced;
      var d := Fire(s, db, k, op, tombstone).value;
      LocalWriteKeeps(server, db.meta, k, op', status, blocked);
      GrowsKeepsRows(s, db.rows, db.meta, d.meta, {}, blocked + {k});
      WrittenQueueKept(s, server, db, was, blocked, k, op', status, d.queue);
    } else {
      MutedQueueKept(s, server, db, was, blocked, k);
    }
  }

  lemma WrittenQueueKept(s: Schema, server: iset<Id>, db: Db, was: set<Key>, blocked: set<Key>, k: Key, op: Operation,
                         status: MetaStatus, q': seq<Item>)
    requires MetasSound(server, db.meta, blocked) && QueueKept(s, server, db.meta, was, db.queue, blocked)
    requires db.rows.Keys <= was + {k} && MarkLocalWrite(db.meta, k, op, status).Some?
    requires k.id != "" && (k.id !in server || Owned(db.meta, k) || k in blocked)
    requires |q'| == |db.queue| + 1 && q' == db.queue + [q'[|db.queue|]] && KeyOf(q'[|db.queue|]) == k
    ensures var ms' := MarkLocalWrite(db.meta, k, op, status).value;
            && QueueKept(s, server, ms', db.rows.Keys, q', blocked)
            && FormersStay(s, server, db.meta, was, ms', db.rows.Keys, {})
  {
    hide Former, FormersStay, NewNames, QueueKept, MarkLocalWrite, MetasSound;
    var ms' := MarkLocalWrite(db.meta, k, op, status).value;
    LocalWriteKeeps(server, db.meta, k, op, status, blocked);
    WrittenIsNoFormer(s, server, db.meta, was, k, op, status);
    OwnedCarryOver(db.meta, ms');
    NewNamesKeepFormers(s, server, db.meta, was, ms', db.rows.Keys, k, {});
    StayMore(s, server, db.meta, was, ms', db.rows.Keys, blocked);
    OldOrWritten(db.queue, q', ms', k);
    QueueCarries(s, server, db.meta, was, db.queue, ms', db.rows.Keys, q', blocked);
  }

  lemma OwnedCarryOver(ms: seq<Meta>, ms': seq<Meta>)
    requires Grows(ms, ms', {})
    ensures Frozen(ms, ms') && forall k: Key | Owned(ms, k) :: Owned(ms', k)
  {
    GrowsKeepsOwnedKeys(ms, ms', {});
  }

  lemma StayMore(s: Schema, server: iset<Id>, ms: seq<Meta>, keys: set<Key>, ms': seq<Meta>, keys': set<Key>,
                 except: set<Key>)
    requires FormersStay(s, server, ms, keys, ms', keys', {})
    ensures FormersStay(s, server, ms, keys, ms', keys', except)
  {
  }

  lemma MutedQueueKept(s: Schema, server: iset<Id>, db: Db, was: set<Key>, blocked: set<Key>, k: Key)
    requires QueueKept(s, server, db.meta, was, db.queue, blocked) && !s.synced(k.table)
    requires db.rows.Keys <= was + {k}
    ensures QueueKept(s, server, db.meta, db.rows.Keys, db.queue, blocked)
    ensures FormersStay(s, server, db.meta, was, db.meta, db.rows.Keys, {})
  {
    UnsyncedIsNoFormer(s, server, db.meta, was, k);
    OwnedCarryOver(db.meta, db.meta);
    NewNamesKeepFormers(s, server, db.meta, was, db.meta, db.rows.Keys, k, {});
    ThereAlready(db.queue);
    QueueCarries(s, server, db.meta, was, db.queue, db.meta, db.rows.Keys, db.queue, blocked);
  }

  lemma ThereAlready(q: seq<Item>)
    ensures forall i | 0 <= i < |q| :: HasKey(q, KeyOf(q[i]))
  {
  }

  lemma OldOrWritten(q: seq<Item>, q': seq<Item>, ms': seq<Meta>, k: Key)
    requires Owned(ms', k) && |q'| == |q| + 1 && q' == q + [q'[|q|]] && KeyOf(q'[|q|]) == k
    ensures forall i | 0 <= i < |q'| :: Owned(ms', KeyOf(q'[i])) || HasKey(q, KeyOf(q'[i]))
  {
    forall i | 0 <= i < |q'| ensures Owned(ms', KeyOf(q'[i])) || HasKey(q, KeyOf(q'[i])) {
      if i < |q| { assert q'[i] == q[i]; }
    }
  }

  lemma WrittenIsNoFormer(
      s: Schema, server: iset<Id>, ms: seq<Meta>, keys: set<Key>, k: Key, op: Operation, status: MetaStatus)
    requires MarkLocalWrite(ms, k, op, status).Some?
    ensures !Former(s, server, ms, keys, k)
  {
    if !Owned(ms, k) { FormerIsNotWritten(ms, k, op, status); }
  }

  lemma UnsyncedIsNoFormer(s: Schema, server: iset<Id>, ms: seq<Meta>, keys: set<Key>, k: Key)
    requires !s.synced(k.table)
    ensures !Former(s, server, ms, keys, k)
  {
  }

  lemma WriteKeeps(s: Schema, server: iset<Id>, db: Db, blocked: set<Key>, w: Write)
    requires Inv(s, server, db, blocked) && WriteFits(server, db, w)
    ensures
      var d := ApplyWrite(s, db, w);
      && Inv(s, server, d, blocked) && SameIds(db.meta, d.meta)
      && FormersStay(s, server, db.meta, db.rows.Keys, d.meta, d.rows.Keys, {})
  {
    hide Former, FormersStay;
    var keys := db.rows.Keys;
    AllStay(s, server, db.meta, keys);
    if TryWrite(s, db, w).Some? {
      var k := w.key;
      match w
      case InsertW(_, row) =>
        FireKeeps(s, server, db.(rows := db.rows[k := row]), keys, blocked, k, Insert, false);
      case UpdateW(_, cells) =>
        if k in db.rows {
          var row := db.rows[k] + cells;
          var next := db.(rows := db.rows[k := row]);
          assert next.rows.Keys == keys;
          if s.synced(k.table) {
            StoredNonEmpty(s, server, db, blocked, k);
            FireKeeps(s, server, next, keys, blocked, k, Update, CellOf(row, DELETED_AT) != Null);
          }
        }
      case DeleteW(_) =>
        if k in db.rows {
          var next := db.(rows := db.rows - {k});
          if s.synced(k.table) {
            StoredNonEmpty(s, server, db, blocked, k);
            FireKeeps(s, server, next, keys, blocked, k, Delete, true);
          } else {
            UnsyncedIsNoFormer(s, server, db.meta, keys, k);
            UnsyncedRowGone(s, server, db, next, blocked, k);
          }
        }
    }
  }

  lemma AllStay(s: Schema, server: iset<Id>, ms: seq<Meta>, keys: set<Key>)
    ensures FormersStay(s, server, ms, keys, ms, keys, {})
  {
  }

  lemma UnsyncedRowGone(s: Schema, server: iset<Id>, db: Db, next: Db, blocked: set<Key>, k: Key)
    requires Inv(s, server, db, blocked) && next == db.(rows := db.rows - {k})
    requires !Former(s, server, db.meta, db.rows.Keys, k)
    ensures Inv(s, server, next, blocked)
    ensures FormersStay(s, server, db.meta, db.rows.Keys, next.meta, next.rows.Keys, {})
  {
    GrowsKeepsOwnedKeys(db.meta, db.meta, {});
    NewNamesKeepFormers(s, server, db.meta, db.rows.Keys, db.meta, next.rows.Keys, k, {});
    ThereAlready(db.queue);
    QueueCarries(s, server, db.meta, db.rows.Keys, db.queue, db.meta, next.rows.Keys, db.queue, blocked);
  }

  lemma StoredNonEmpty(s: Schema, server: iset<Id>, db: Db, blocked: set<Key>, k: Key)
    requires Sound(s, server, db, blocked) && k in db.rows && s.synced(k.table)
    ensures k.id != "" && (Owned(db.meta, k) || k in blocked)
  {
    if Owned(db.meta, k) {
      assert Linked(db.meta[FindEntity(db.meta, k).value]);
    }
  }

  // ---- pulled pages -------------------------------------------------------------------------------------------

  lemma MarkKeeps(s: Schema, server: iset<Id>, db: Db, was: set<Key>, blocked: set<Key>, k: Key, status: MetaStatus)
    requires MetasSound(server, db.meta, blocked) && QueueKept(s, server, db.meta, was, db.queue, blocked)
    requires QueueOrdered(db.queue, db.nextItem) && Named(blocked) && db.rows.Keys <= was + {k}
    requires RowsOwned(s, db.rows, db.meta, blocked + {k}) && k.id in server && k.id != ""
    ensures
      var ms' := MarkPulledSynced(db.meta, k, status);
      && Sound(s, server, db.(meta := ms'), blocked) && Evolves(db.meta, ms', blocked) && Grows(db.meta, ms', blocked)
      && FormersStay(s, server, db.meta, was, ms', db.rows.Keys, blocked)
  {
    var ms' := MarkPulledSynced(db.meta, k, status);
    PulledKeeps(server, db.meta, k, status, blocked);
    GrowsKeepsRows(s, db.rows, db.meta, ms', blocked, blocked + {k});
    GrowsKeepsOwnedKeys(db.meta, ms', blocked);
    NewNamesKeepFormers(s, server, db.meta, was, ms', db.rows.Keys, k, blocked);
    ThereAlready(db.queue);
    QueueCarries(s, server, db.meta, was, db.queue, ms', db.rows.Keys, db.queue, blocked);
  }

  /** One pulled row: nothing, or its row and its metadata. */
  lemma ApplyRowWrites(s: Schema, db: Db, t: Table, body: SyncApplier.Body)
    requires db.locked && ApplyRow(s, db, t, body).Some?
    ensures PulledKey(s, t, body).Some?
    ensures var k, d := PulledKey(s, t, body).value, ApplyRow(s, db, t, body).value;
            d == db ||
            exists status :: d == db.(rows := d.rows, meta := MarkPulledSynced(db.meta, k, status)) &&
                             d.rows.Keys <= db.rows.Keys + {k}
  {
    var k, d := PulledKey(s, t, body).value, ApplyRow(s, db, t, body).value;
    if d != db {
      assert d.meta == MarkPulledSynced(db.meta, k, Deleted) || d.meta == MarkPulledSynced(db.meta, k, Synced);
    }
  }

  lemma ApplyRowKeeps(s: Schema, server: iset<Id>, db: Db, blocked: set<Key>, t: Table, body: SyncApplier.Body)
    requires Sound(s, server, db, blocked) && db.locked && PageFits(s, server, t, [body])
    requires ApplyRow(s, db, t, body).Some?
    ensures
      var d := ApplyRow(s, db, t, body).value;
      && Sound(s, server, d, blocked) && d.locked && d.queue == db.queue
      && Evolves(db.meta, d.meta, blocked) && Grows(db.meta, d.meta, blocked)
      && FormersStay(s, server, db.meta, db.rows.Keys, d.meta, d.rows.Keys, blocked)
  {
    assert body in [body];
    ApplyRowWrites(s, db, t, body);
    var d := ApplyRow(s, db, t, body).value;
    if d != db {
      hide Sound, MetasSound, ApplyRow, MarkPulledSynced, Evolves, Grows, FormersStay, QueueKept;
      var k := PulledKey(s, t, body).value;
      var status :| d == db.(rows := d.rows, meta := MarkPulledSynced(db.meta, k, status)) &&
                    d.rows.Keys <= db.rows.Keys + {k};
      SoundParts(s, server, db, blocked);
      MarkKeeps(s, server, db.(rows := d.rows), db.rows.Keys, blocked, k, status);
    }
  }

  lemma SoundParts(s: Schema, server: iset<Id>, db: Db, blocked: set<Key>)
    requires Sound(s, server, db, blocked)
    ensures MetasSound(server, db.meta, blocked) && QueueKept(s, server, db.meta, db.rows.Keys, db.queue, blocked)
    ensures QueueOrdered(db.queue, db.nextItem) && Named(blocked)
    ensures RowsOwned(s, db.rows, db.meta, blocked)
  {
  }

  lemma {:induction false} ApplyRowsKeep(
      s: Schema, server: iset<Id>, db: Db, blocked: set<Key>, t: Table, page: seq<SyncApplier.Body>)
    requires Sound(s, server, db, blocked) && db.locked && PageFits(s, server, t, page)
    requires ApplyRows(s, db, t, page).Some?
    ensures
      var d := ApplyRows(s, db, t, page).value;
      && Sound(s, server, d, blocked) && d.locked && d.queue == db.queue
      && Evolves(db.meta, d.meta, blocked) && Grows(db.meta, d.meta, blocked)
      && FormersStay(s, server, db.meta, db.rows.Keys, d.meta, d.rows.Keys, blocked)
    decreases |page|
  {
    hide Sound, ApplyRow, Former;
    if page != [] {
      assert forall b <- page[1..] :: b in page;
      ApplyRowKeeps(s, server, db, blocked, t, page[0]);
      ApplyRowsKeep(s, server, ApplyRow(s, db, t, page[0]).value, blocked, t, page[1..]);
    }
  }

  // ---- the replace transaction -----------------------------------------------------------------------------------

  lemma {:induction false} CascadeFrame(s: Schema, db: Db, rels: seq<Relation>, parent: Table, oldId: Id, newId: Id)
    requires db.locked
    ensures var a := Cascade(s, db, rels, parent, oldId, newId).db;
            a == db.(rows := a.rows) && a.rows.Keys == db.rows.Keys
    decreases |rels|
  {
    if rels != [] {
      if rels[0].parentTable != parent {
        CascadeFrame(s, db, rels[1..], parent, oldId, newId);
      } else if RenameFk(s, db, rels[0], oldId, newId).Some? {
        CascadeFrame(s, RenameFk(s, db, rels[0], oldId, newId).value, rels[1..], parent, oldId, newId);
      }
    }
  }

  /** The keys of the table after the primary-key rewrite. */
  ghost function RenamedKeys(keys: set<Key>, t: Table, oldId: Id, newId: Id): set<Key> {
    if Key(t, oldId) in keys then keys - {Key(t, oldId)} + {Key(t, newId)} else keys
  }

  /** Step 2 touches rows and the queue's entity ids, and the queue only as its last act. */
  lemma RewriteFrame(s: Schema, db: Db, t: Table, oldId: Id, newId: Id, body: SyncApplier.Body)
    requires db.locked
    ensures
      var a := RewriteLocalRow(s, db, t, oldId, newId, body);
      var renamed := RenamedKeys(db.rows.Keys, t, oldId, newId);
      && a.db == db.(rows := a.db.rows, queue := a.db.queue)
      && (a.ok ==> a.db.rows.Keys == if body.Object? then renamed else db.rows.Keys)
      && (a.db.rows.Keys == db.rows.Keys || a.db.rows.Keys == renamed)
      && (newId == oldId ==> a.db.rows.Keys == db.rows.Keys)
      && (body.Object? && newId != oldId ==>
            if LocalCells(s, t, body.fields).Some? && RenameAllowed(s, db.rows, t, oldId, newId)
            then a.db.rows.Keys == renamed else a == Attempt(db, false))
      && a.db.queue
         == if a.ok && body.Object? && newId != oldId then RenameItems(db.queue, t, oldId, newId) else db.queue
  {
    if body.Object? && LocalCells(s, t, body.fields).Some? {
      var cells := LocalCells(s, t, body.fields).value;
      var renamed := if newId != oldId then RenameRow(s, db, t, oldId, newId) else Some(db);
      if renamed.Some? {
        assert renamed.value == db.(rows := renamed.value.rows);
        assert renamed.value.rows.Keys == RenamedKeys(db.rows.Keys, t, oldId, newId);
        var written := WriteEcho(s, renamed.value, Key(t, newId), body.fields, cells);
        if written.Some? {
          assert written.value == db.(rows := written.value.rows);
          assert written.value.rows.Keys == renamed.value.rows.Keys;
          CascadeFrame(s, written.value, s.relations, t, oldId, newId);
        }
      }
    }
  }

  /** The item's row is known, and until the server named it, under the id the item carries. */
  ghost predicate ItemKnown(ms: seq<Meta>, t: Table, item: Pushable) {
    && item.localId.Some?
    && FindLocal(ms, LocalKey(t, item)).Some?
    && var m := ms[FindLocal(ms, LocalKey(t, item)).value];
       m.remoteId.None? ==> m.entityId == item.entityId
  }

  /** Items of blocked rows may have lost their metadata. */
  ghost predicate Tracked(ms: seq<Meta>, blocked: set<Key>, t: Table, item: Pushable) {
    LocalKey(t, item) in blocked || ItemKnown(ms, t, item)
  }

  /** The request was decided from the metadata as it still is. */
  ghost predicate RequestCurrent(ms: seq<Meta>, blocked: set<Key>, t: Table, item: Pushable, request: Request) {
    match request
    case Post(_) => LocalKey(t, item) in blocked || RemoteIdOf(ms, LocalKey(t, item)).None?
    case Patch(id, _) => RemoteIdOf(ms, LocalKey(t, item)) == Some(id)
    case Remove(id) => RemoteIdOf(ms, LocalKey(t, item)) == Some(id)
  }

  lemma LocalIndexUnique(ms: seq<Meta>, lk: Key, i: nat)
    requires Distinct(ms) && i < |ms| && ms[i].table == lk.table && ms[i].localId == lk.id
    ensures FindLocal(ms, lk) == Some(i)
  {
  }

  lemma EntityIndexUnique(ms: seq<Meta>, k: Key, i: nat)
    requires Distinct(ms) && i < |ms| && ms[i].table == k.table && ms[i].entityId == k.id
    ensures FindEntity(ms, k) == Some(i)
  {
  }

  lemma EvolvesKeepsItem(
      server: iset<Id>, ms: seq<Meta>, ms': seq<Meta>, blocked: set<Key>, blocked': set<Key>, t: Table, item: Pushable)
    requires MetasSound(server, ms, blocked) && MetasSound(server, ms', blocked') && blocked <= blocked'
    requires Evolves(ms, ms', blocked') && Tracked(ms, blocked, t, item)
    ensures Tracked(ms', blocked', t, item)
  {
    var lk := LocalKey(t, item);
    if lk !in blocked' {
      LocalIndexUnique(ms', lk, FindLocal(ms, lk).value);
    }
  }

  /** Wider blocking keeps what it does not tear apart. */
  lemma Widen(server: iset<Id>, ms: seq<Meta>, blocked: set<Key>, blocked': set<Key>)
    requires MetasSound(server, ms, blocked) && blocked <= blocked' && Apart(ms, blocked')
    ensures MetasSound(server, ms, blocked')
  {
  }

  /** A server id that no row is stored under is no localId either, unless of a blocked row. */
  lemma FreshIsNoLocal(server: iset<Id>, ms: seq<Meta>, blocked: set<Key>, k: Key)
    requires MetasSound(server, ms, blocked) && k.id in server && !Owned(ms, k) && k !in blocked
    ensures FindLocal(ms, k).None?
  {
    forall i | 0 <= i < |ms| ensures LocalKeyOf(ms[i]) != k {
      assert EntityKeyOf(ms[i]) != k;
    }
  }

  /** The metadata after step 1, if it succeeds: one row learns the answered id. */
  ghost predicate Records(ms: seq<Meta>, ms': seq<Meta>, i: nat, newId: Id) {
    && i < |ms|
    && ms' == ms[i := ms[i].(entityId := newId, remoteId := Some(newId), status := Synced)]
  }

  lemma RecordsKeep(server: iset<Id>, ms: seq<Meta>, ms': seq<Meta>, blocked: set<Key>, i: nat, newId: Id)
    requires MetasSound(server, ms, blocked) && Records(ms, ms', i, newId) && newId != ""
    requires newId != ms[i].entityId ==>
      newId in server && !Owned(ms, Key(ms[i].table, newId)) && Key(ms[i].table, newId) !in blocked
    requires LocalKeyOf(ms[i]) in blocked ==> newId == ms[i].entityId
    requires newId != ms[i].entityId ==> ms[i].remoteId.None?
    ensures MetasSound(server, ms', blocked) && Evolves(ms, ms', blocked)
  {
    if newId != ms[i].entityId {
      FreshIsNoLocal(server, ms, blocked, Key(ms[i].table, newId));
      forall j | 0 <= j < |ms| && j != i && ms[j].table == ms[i].table ensures ms[j].entityId != newId {}
      assert EntityKeyOf(ms[i]) == LocalKeyOf(ms[i]);
    }
  }

  /** The same when the row is blocked from now on: both its names are. */
  lemma RecordsBlock(server: iset<Id>, ms: seq<Meta>, ms': seq<Meta>, blocked: set<Key>, i: nat, newId: Id)
    requires MetasSound(server, ms, blocked) && Records(ms, ms', i, newId) && newId != ""
    requires newId in server && !Owned(ms, Key(ms[i].table, newId)) && Key(ms[i].table, newId) !in blocked
    requires LocalKeyOf(ms[i]) in blocked || ms[i].remoteId.None?
    ensures
      var blocked' := blocked + {LocalKeyOf(ms[i]), Key(ms[i].table, newId)};
      MetasSound(server, ms', blocked') && Evolves(ms, ms', blocked')
  {
    var newKey := Key(ms[i].table, newId);
    FreshIsNoLocal(server, ms, blocked, newKey);
    forall j | 0 <= j < |ms| && j != i
      ensures LocalKeyOf(ms[j]) !in {LocalKeyOf(ms[i]), newKey} && EntityKeyOf(ms[j]) != newKey
      ensures LocalKeyOf(ms[i]) !in blocked ==> EntityKeyOf(ms[j]) != LocalKeyOf(ms[i])
    {}
  }

  /** Step 1 under the id assumption: it never throws, and only this row's id changes. */
  lemma RecordKeeps(s: Schema, server: iset<Id>, db: Db, blocked: set<Key>, t: Table, item: Pushable,
                    request: Request, body: SyncApplier.Body)
    requires MetasSound(server, db.meta, blocked) && FindLocal(db.meta, LocalKey(t, item)).Some?
    requires RequestCurrent(db.meta, blocked, t, item, request)
    requires !request.Remove? && (body.Object? ==> IdFits(s, server, db, blocked, t, request, body.fields))
    requires request.Post? ==> body.Object?
    ensures
      var r := RecordRemoteSuccess(s, db, LocalKey(t, item), body);
      var i := FindLocal(db.meta, LocalKey(t, item)).value;
      && r.Some?
      && r.value.db == db.(meta := r.value.db.meta)
      && r.value.oldId == db.meta[i].entityId && r.value.newId != ""
      && Records(db.meta, r.value.db.meta, i, r.value.newId)
      && (body.Object? ==> r.value.newId == AnsweredId(s, db.meta, LocalKey(t, item), body.fields))
      && (r.value.newId != r.value.oldId ==>
            && request.Post? && body.Object? && s.pk(t) in body.fields && r.value.newId in server
            && !Owned(db.meta, Key(t, r.value.newId)) && Key(t, r.value.newId) !in blocked)
  {
    var lk := LocalKey(t, item);
    var i := FindLocal(db.meta, lk).value;
    assert Linked(db.meta[i]);
    EntityIndexUnique(db.meta, Key(t, db.meta[i].entityId), i);
    if request.Post? && s.pk(t) in body.fields {
      var newId := ScalarId(body.fields[s.pk(t)]).value;
      assert FindEntity(db.meta, Key(t, newId)).None?;
    }
  }

  /** The metadata row `i` goes by another id. */
  ghost predicate Relabels(ms: seq<Meta>, ms': seq<Meta>, i: nat, newId: Id) {
    && i < |ms| == |ms'| && LocalKeyOf(ms'[i]) == LocalKeyOf(ms[i]) && ms'[i].entityId == newId
    && forall j | 0 <= j < |ms| && j != i :: ms'[j] == ms[j]
  }

  /** Moving a metadata row gives one name and takes one. */
  lemma RelabelledNames(ms: seq<Meta>, ms': seq<Meta>, i: nat, newId: Id)
    requires Relabels(ms, ms', i, newId) && Distinct(ms) && Distinct(ms')
    ensures forall k: Key | Owned(ms, k) && k != EntityKeyOf(ms[i]) :: Owned(ms', k)
    ensures Owned(ms', Key(ms[i].table, newId)) && NewNames(ms, ms', Key(ms[i].table, newId)) && Frozen(ms, ms')
    ensures newId != ms[i].entityId ==> !Owned(ms', EntityKeyOf(ms[i]))
  {
    var newKey := Key(ms[i].table, newId);
    forall k: Key | Owned(ms, k) && k != EntityKeyOf(ms[i]) ensures Owned(ms', k) {
      var j := FindEntity(ms, k).value;
      assert EntityKeyOf(ms'[j]) == k;
    }
    assert EntityKeyOf(ms'[i]) == newKey;
    forall n: Key | Owned(ms', n) ensures Owned(ms, n) || n == newKey {
      NameWasThere(ms, ms', n, newKey);
    }
    if newId != ms[i].entityId {
      forall j | 0 <= j < |ms'| ensures EntityKeyOf(ms'[j]) != EntityKeyOf(ms[i]) {
        assert j != i ==> EntityKeyOf(ms[j]) != EntityKeyOf(ms[i]);
      }
    }
  }

  /**
  Renaming one metadata row and the stored row together keeps every row and item
  owned if the queue snapshots follow, and leaves them under the former name if not.
  */
  lemma RenameKeepsOwned(s: Schema, server: iset<Id>, db: Db, ms': seq<Meta>, blocked: set<Key>, i: nat, newId: Id,
                         rows: map<Key, Row>, queue: seq<Item>)
    requires Relabels(db.meta, ms', i, newId) && Distinct(db.meta) && Distinct(ms')
    requires QueueKept(s, server, db.meta, db.rows.Keys, db.queue, blocked)
    requires RowsOwned(s, db.rows, db.meta, blocked)
    requires rows.Keys == RenamedKeys(db.rows.Keys, db.meta[i].table, db.meta[i].entityId, newId)
    requires queue == RenameItems(db.queue, db.meta[i].table, db.meta[i].entityId, newId) || queue == db.queue
    requires newId != db.meta[i].entityId ==>
      && newId in server
      && (queue == db.queue ==>
            && s.synced(db.meta[i].table) && db.meta[i].entityId !in server
            && EntityKeyOf(db.meta[i]) == LocalKeyOf(db.meta[i]))
    ensures QueueKept(s, server, ms', rows.Keys, queue, blocked) && RowsOwned(s, rows, ms', blocked)
    ensures FormersStay(s, server, db.meta, db.rows.Keys, ms', rows.Keys, blocked)
  {
    var ms, oldKey, newKey := db.meta, EntityKeyOf(db.meta[i]), Key(db.meta[i].table, newId);
    RelabelledNames(ms, ms', i, newId);
    assert Owned(ms, oldKey) by { EntityIndexUnique(ms, oldKey, i); }
    NewNamesKeepFormers(s, server, ms, db.rows.Keys, ms', rows.Keys, newKey, blocked);
    forall j | 0 <= j < |queue|
      ensures KeyOf(queue[j]) in blocked || Owned(ms', KeyOf(queue[j])) ||
              Former(s, server, ms', rows.Keys, KeyOf(queue[j]))
    {
      var k := KeyOf(db.queue[j]);
      if k == oldKey && queue == db.queue && newKey != oldKey {
        LocalIndexUnique(ms', LocalKeyOf(ms[i]), i);
        assert Former(s, server, ms', rows.Keys, oldKey);
      }
    }
  }

  /** Whatever step 2 did, rows and items outside the blocked names are where they were. */
  lemma BlockedRewriteKeepsOwned(s: Schema, server: iset<Id>, db: Db, ms': seq<Meta>, after: Db, blocked: set<Key>,
                                 i: nat, newId: Id)
    requires Relabels(db.meta, ms', i, newId) && Distinct(db.meta) && Distinct(ms')
    requires QueueKept(s, server, db.meta, db.rows.Keys, db.queue, blocked)
    requires RowsOwned(s, db.rows, db.meta, blocked)
    requires EntityKeyOf(db.meta[i]) in blocked && Key(db.meta[i].table, newId) in blocked
    requires after.rows.Keys == db.rows.Keys
      || after.rows.Keys == RenamedKeys(db.rows.Keys, db.meta[i].table, db.meta[i].entityId, newId)
    requires after.queue == db.queue
      || after.queue == RenameItems(db.queue, db.meta[i].table, db.meta[i].entityId, newId)
    ensures QueueKept(s, server, ms', after.rows.Keys, after.queue, blocked) && RowsOwned(s, after.rows, ms', blocked)
    ensures FormersStay(s, server, db.meta, db.rows.Keys, ms', after.rows.Keys, blocked)
  {
    hide Former;
    var newKey := Key(db.meta[i].table, newId);
    RelabelledNames(db.meta, ms', i, newId);
    NewNamesKeepFormers(s, server, db.meta, db.rows.Keys, ms', after.rows.Keys, newKey, blocked);
    forall j | 0 <= j < |after.queue|
      ensures KeyOf(after.queue[j]) in blocked || Owned(ms', KeyOf(after.queue[j])) ||
              Former(s, server, ms', after.rows.Keys, KeyOf(after.queue[j]))
    {
      if KeyOf(after.queue[j]) !in blocked {
        assert KeyOf(db.queue[j]) == KeyOf(after.queue[j]);
      }
    }
  }

  /** What a replace transaction does to the row it is about when step 1 finds it. */
  lemma ReplaceSteps(s: Schema, server: iset<Id>, db: Db, blocked: set<Key>, t: Table, item: Pushable,
                     request: Request, body: SyncApplier.Body)
    requires Inv(s, server, db, blocked) && FindLocal(db.meta, LocalKey(t, item)).Some?
    requires RequestCurrent(db.meta, blocked, t, item, request)
    requires !request.Remove? && (body.Object? ==> IdFits(s, server, db, blocked, t, request, body.fields))
    requires request.Post? ==> body.Object?
    ensures
      var r := RecordRemoteSuccess(s, db.(locked := true), LocalKey(t, item), body).value;
      var a := RewriteLocalRow(s, r.db, t, r.oldId, r.newId, body);
      var done := a.db.(locked := false);
      && Replace(s, db, t, item, body)
         == (if a.ok then Received(DropItem(done, item.id), Replaced) else Received(BlockItem(done, item.id), Stuck))
      && (body.Object? ==> (a.ok <==> Finishes(s, db, LocalKey(t, item), body.fields)))
  {
    var open := db.(locked := true);
    RecordKeeps(s, server, open, blocked, t, item, request, body);
    var r := RecordRemoteSuccess(s, open, LocalKey(t, item), body).value;
    if body.Object? {
      RewriteIff(s, r.db, t, r.oldId, r.newId, body.fields);
      SameRowsSameAnswer(s, db, r.db, t, r.oldId, r.newId, body.fields);
    }
  }

  lemma SameRowsSameAnswer(s: Schema, db: Db, db': Db, t: Table, oldId: Id, newId: Id, fields: Fields)
    requires db'.rows == db.rows
    ensures Rewritable(s, db', t, oldId, newId, fields) <==> Rewritable(s, db, t, oldId, newId, fields)
  {
    var at := Key(t, newId);
    var rows := RenamedRows(db.rows, t, oldId, newId);
    assert EchoApplies(s, db.(rows := rows), at, fields) == EchoApplies(s, db'.(rows := rows), at, fields);
  }

  /** An answered create that names a row which is blocked already, or which step 2 cannot rename. */
  ghost predicate Leaves(
      s: Schema, db: Db, blocked: set<Key>, t: Table, item: Pushable, request: Request, body: SyncApplier.Body) {
    && request.Post? && body.Object? && s.pk(t) in body.fields
    && (LocalKey(t, item) in blocked || !Vacates(s, db, LocalKey(t, item), body.fields))
  }

  function WithNames(s: Schema, db: Db, blocked: set<Key>, t: Table, item: Pushable, fields: Fields): set<Key> {
    blocked + {LocalKey(t, item), Key(t, AnsweredId(s, db.meta, LocalKey(t, item), fields))}
  }

  /** A replace that renames nothing, or that frees the old name of a row which is not blocked, finished or not. */
  lemma ReplaceKeeps(s: Schema, server: iset<Id>, db: Db, blocked: set<Key>, t: Table, item: Pushable,
                     request: Request, body: SyncApplier.Body)
    requires Inv(s, server, db, blocked) && FindLocal(db.meta, LocalKey(t, item)).Some? && s.synced(t)
    requires RequestCurrent(db.meta, blocked, t, item, request) && !Leaves(s, db, blocked, t, item, request, body)
    requires !request.Remove? && (body.Object? ==> IdFits(s, server, db, blocked, t, request, body.fields))
    requires request.Post? ==> body.Object?
    ensures
      var d := Replace(s, db, t, item, body).db;
      && Inv(s, server, d, blocked) && Evolves(db.meta, d.meta, blocked)
      && FormersStay(s, server, db.meta, db.rows.Keys, d.meta, d.rows.Keys, blocked)
      && RemoteIdOf(d.meta, LocalKey(t, item)).Some?
  {
    hide RewriteLocalRow, Finishes, RecordRemoteSuccess, Replace, AnsweredId;
    hide FormersStay, QueueKept, QueueOrdered, RowsOwned;
    var lk := LocalKey(t, item);
    var open := db.(locked := true);
    RecordKeeps(s, server, open, blocked, t, item, request, body);
    var i := FindLocal(db.meta, lk).value;
    var r := RecordRemoteSuccess(s, open, lk, body).value;
    ReplaceSteps(s, server, db, blocked, t, item, request, body);
    MovedOnlyUnnamed(server, db.meta, blocked, lk, i, request, r.newId);
    RecordsKeep(server, db.meta, r.db.meta, blocked, i, r.newId);
    LocalIndexUnique(r.db.meta, lk, i);
    RewriteKeeps(s, server, db, blocked, r.db, t, i, r.oldId, r.newId, body);
    var a := RewriteLocalRow(s, r.db, t, r.oldId, r.newId, body);
    DropKeeps(s, server, a.db.(locked := false), blocked, item.id);
    BlockKeeps(s, server, a.db.(locked := false), blocked, item.id);
  }

  lemma MovedOnlyUnnamed(
      server: iset<Id>, ms: seq<Meta>, blocked: set<Key>, lk: Key, i: nat, request: Request, newId: Id)
    requires MetasSound(server, ms, blocked) && FindLocal(ms, lk) == Some(i)
    requires request.Post? ==> lk in blocked || RemoteIdOf(ms, lk).None?
    ensures LocalKeyOf(ms[i]) == lk && Linked(ms[i])
    ensures request.Post? && lk !in blocked ==>
      ms[i].remoteId.None? && EntityKeyOf(ms[i]) == lk && lk.id !in server
  {
    assert Linked(ms[i]);
  }

  /**
  Step 2 after step 1: the row `i` of the metadata now says newId, and if the id
  is new, the stored row follows.
  */
  lemma RewriteKeeps(s: Schema, server: iset<Id>, db: Db, blocked: set<Key>, marked: Db, t: Table, i: nat,
                     oldId: Id, newId: Id, body: SyncApplier.Body)
    requires Inv(s, server, db, blocked) && i < |db.meta| && db.meta[i].table == t && db.meta[i].entityId == oldId
    requires marked == db.(meta := marked.meta, locked := true) && Records(db.meta, marked.meta, i, newId)
    requires MetasSound(server, marked.meta, blocked)
    requires newId != oldId ==>
      && body.Object?
      && (Key(t, oldId) !in db.rows ||
          (LocalCells(s, t, body.fields).Some? && RenameAllowed(s, db.rows, t, oldId, newId)))
      && newId in server && s.synced(t) && oldId !in server && db.meta[i].localId == oldId
    ensures
      var a := RewriteLocalRow(s, marked, t, oldId, newId, body);
      && Inv(s, server, a.db.(locked := false), blocked) && a.db.meta == marked.meta
      && FormersStay(s, server, db.meta, db.rows.Keys, marked.meta, a.db.rows.Keys, blocked)
  {
    hide RewriteLocalRow, Former, RenameAllowed;
    RewriteFrame(s, marked, t, oldId, newId, body);
    var a := RewriteLocalRow(s, marked, t, oldId, newId, body);
    if newId == oldId {
      RenamedSame(db, t, oldId);
    }
    RenameKeepsOwned(s, server, db, marked.meta, blocked, i, newId, a.db.rows, a.db.queue);
    RenamedInOrder(db.queue, a.db.queue, db.nextItem, t, oldId, newId);
  }

  lemma RenamedInOrder(q: seq<Item>, q': seq<Item>, next: nat, t: Table, oldId: Id, newId: Id)
    requires QueueOrdered(q, next) && (q' == q || q' == RenameItems(q, t, oldId, newId))
    ensures QueueOrdered(q', next)
  {
  }

  lemma RenamedSame(db: Db, t: Table, id: Id)
    ensures RenamedKeys(db.rows.Keys, t, id, id) == db.rows.Keys
  {
  }

  /** An answered create of a blocked row, or one that step 2 cannot rename: the rest keeps its identity. */
  lemma ReplaceBlocks(s: Schema, server: iset<Id>, db: Db, blocked: set<Key>, t: Table, item: Pushable,
                      request: Request, body: SyncApplier.Body)
    requires Inv(s, server, db, blocked) && FindLocal(db.meta, LocalKey(t, item)).Some?
    requires RequestCurrent(db.meta, blocked, t, item, request) && Leaves(s, db, blocked, t, item, request, body)
    requires IdFits(s, server, db, blocked, t, request, body.fields)
    ensures
      var d := Replace(s, db, t, item, body).db;
      var blocked' := WithNames(s, db, blocked, t, item, body.fields);
      && Inv(s, server, d, blocked') && Evolves(db.meta, d.meta, blocked')
      && FormersStay(s, server, db.meta, db.rows.Keys, d.meta, d.rows.Keys, blocked')
  {
    hide RewriteLocalRow, Finishes, RecordRemoteSuccess, Replace, Former;
    var lk := LocalKey(t, item);
    var open := db.(locked := true);
    var blocked' := WithNames(s, db, blocked, t, item, body.fields);
    RecordKeeps(s, server, open, blocked, t, item, request, body);
    var i := FindLocal(db.meta, lk).value;
    var r := RecordRemoteSuccess(s, open, lk, body).value;
    ReplaceSteps(s, server, db, blocked, t, item, request, body);
    MovedOnlyUnnamed(server, db.meta, blocked, lk, i, request, r.newId);
    RecordsBlock(server, db.meta, r.db.meta, blocked, i, r.newId);
    RewriteFrame(s, r.db, t, r.oldId, r.newId, body);
    var a := RewriteLocalRow(s, r.db, t, r.oldId, r.newId, body);
    assert EntityKeyOf(db.meta[i]) in blocked';
    BlockedRewriteKeepsOwned(s, server, db, r.db.meta, a.db, blocked', i, r.newId);
    RenamedInOrder(db.queue, a.db.queue, db.nextItem, t, r.oldId, r.newId);
    DropKeeps(s, server, a.db.(locked := false), blocked', item.id);
    BlockKeeps(s, server, a.db.(locked := false), blocked', item.id);
  }

  /** A blocked row whose metadata cannot be found: the transaction rolls back. */
  lemma LostReplaceBlocks(s: Schema, server: iset<Id>, db: Db, blocked: set<Key>, t: Table, item: Pushable,
                          request: Request, body: SyncApplier.Body)
    requires Inv(s, server, db, blocked) && LocalKey(t, item) in blocked && FindLocal(db.meta, LocalKey(t, item)).None?
    requires request.Post? ==> body.Object?
    requires !request.Remove? && (body.Object? ==> IdFits(s, server, db, blocked, t, request, body.fields))
    ensures
      var d := Replace(s, db, t, item, body).db;
      var blocked' := if Leaves(s, db, blocked, t, item, request, body)
                      then WithNames(s, db, blocked, t, item, body.fields) else blocked;
      Inv(s, server, d, blocked') && d.meta == db.meta && d.rows == db.rows
  {
    hide Finishes, Former;
    BlockKeeps(s, server, db, blocked, item.id);
    if Leaves(s, db, blocked, t, item, request, body) {
      var blocked' := WithNames(s, db, blocked, t, item, body.fields);
      var newKey := Key(t, AnsweredId(s, db.meta, LocalKey(t, item), body.fields));
      FreshIsNoLocal(server, db.meta, blocked, newKey);
      forall i | 0 <= i < |db.meta|
        ensures LocalKeyOf(db.meta[i]) in blocked' <==> EntityKeyOf(db.meta[i]) in blocked'
      {
        assert LocalKeyOf(db.meta[i]) != newKey && EntityKeyOf(db.meta[i]) != newKey;
      }
      Widen(server, db.meta, blocked, blocked');
    }
  }

  ghost predicate Queued(q: seq<Item>, t: Table, item: Pushable) {
    exists j :: 0 <= j < |q| && q[j].id == item.id && q[j].table == t && q[j].entityId == item.entityId
  }

  /**
  A create whose answer names the row keeps identity exactly when it vacates the
  row's old name: otherwise the row, the item and every other snapshot of the row
  stay under a name no metadata row owns any more. And the snapshots stay owned
  exactly when the answer's columns are scalars and the tables accept every
  statement of the rewrite.
  */
  lemma ReplaceKeepsIff(
      s: Schema, server: iset<Id>, db: Db, blocked: set<Key>, t: Table, item: Pushable, fields: Fields, sent: Fields)
    requires Inv(s, server, db, blocked) && LocalKey(t, item) !in blocked && ItemKnown(db.meta, t, item)
    requires RequestCurrent(db.meta, blocked, t, item, Post(sent)) && Queued(db.queue, t, item) && s.synced(t)
    requires s.pk(t) in fields && IdFits(s, server, db, blocked, t, Post(sent), fields)
    ensures
      var d := Replace(s, db, t, item, Object(fields)).db;
      && (Inv(s, server, d, blocked) <==> Vacates(s, db, LocalKey(t, item), fields))
      && (QueueOwned(db.meta, db.queue, blocked) ==>
            (Inv(s, server, d, blocked) && QueueOwned(d.meta, d.queue, blocked) <==>
             Finishes(s, db, LocalKey(t, item), fields)))
  {
    hide RewriteLocalRow, Finishes, RecordRemoteSuccess, Replace, Vacates, RequestCurrent, AnsweredId;
    var body, lk := Object(fields), LocalKey(t, item);
    if Finishes(s, db, lk, fields) { FinishedVacates(s, db, lk, fields); }
    if Vacates(s, db, lk, fields) {
      ReplaceKeeps(s, server, db, blocked, t, item, Post(sent), body);
    }
    var d := Replace(s, db, t, item, body).db;
    AnsweredQueue(s, server, db, blocked, t, item, fields, sent);
    if Finishes(s, db, lk, fields) {
      if QueueOwned(db.meta, db.queue, blocked) {
        FinishedOwns(s, server, db, blocked, t, item, fields, sent);
      }
    } else {
      var j :| 0 <= j < |db.queue| && db.queue[j].id == item.id && db.queue[j].table == t &&
               db.queue[j].entityId == item.entityId;
      assert KeyOf(d.queue[j]) == lk && !Owned(d.meta, lk);
      if !Vacates(s, db, lk, fields) {
        assert lk in d.rows;
      }
    }
  }

  lemma FinishedVacates(s: Schema, db: Db, about: Key, fields: Fields)
    requires Finishes(s, db, about, fields)
    ensures Vacates(s, db, about, fields)
  {
  }

  /** Where an answered create leaves its row's old name and the queue. */
  lemma AnsweredQueue(
      s: Schema, server: iset<Id>, db: Db, blocked: set<Key>, t: Table, item: Pushable, fields: Fields, sent: Fields)
    requires Inv(s, server, db, blocked) && LocalKey(t, item) !in blocked && ItemKnown(db.meta, t, item)
    requires RequestCurrent(db.meta, blocked, t, item, Post(sent))
    requires s.pk(t) in fields && IdFits(s, server, db, blocked, t, Post(sent), fields)
    ensures
      var d, lk := Replace(s, db, t, item, Object(fields)).db, LocalKey(t, item);
      && StoredId(db.meta, lk) == lk.id == item.entityId && lk.id !in server && Owned(db.meta, lk)
      && !Owned(d.meta, lk) && FindLocal(d.meta, lk).Some?
      && RemoteIdOf(d.meta, lk) == Some(AnsweredId(s, db.meta, lk, fields))
      && (lk in d.rows <==> !Vacates(s, db, lk, fields))
      && (!Vacates(s, db, lk, fields) ==> d.rows == db.rows)
      && (!Finishes(s, db, lk, fields) ==> d.queue == MarkItem(db.queue, item.id, Blocked))
  {
    hide RewriteLocalRow, Finishes, RecordRemoteSuccess, Replace, RenameAllowed, QueueKept, RowsOwned;
    var body, lk, open := Object(fields), LocalKey(t, item), db.(locked := true);
    RecordKeeps(s, server, open, blocked, t, item, Post(sent), body);
    ReplaceSteps(s, server, db, blocked, t, item, Post(sent), body);
    var i := FindLocal(db.meta, lk).value;
    MovedOnlyUnnamed(server, db.meta, blocked, lk, i, Post(sent), "");
    var r := RecordRemoteSuccess(s, open, lk, body).value;
    RewriteFrame(s, r.db, t, r.oldId, r.newId, body);
    EntityIndexUnique(db.meta, lk, i);
    RecordsKeep(server, db.meta, r.db.meta, blocked, i, r.newId);
    RelabelledNames(db.meta, r.db.meta, i, r.newId);
    LocalIndexUnique(r.db.meta, lk, i);
  }

  /** A finished create leaves every snapshot owned. */
  lemma FinishedOwns(
      s: Schema, server: iset<Id>, db: Db, blocked: set<Key>, t: Table, item: Pushable, fields: Fields, sent: Fields)
    requires Inv(s, server, db, blocked) && LocalKey(t, item) !in blocked && ItemKnown(db.meta, t, item)
    requires RequestCurrent(db.meta, blocked, t, item, Post(sent)) && QueueOwned(db.meta, db.queue, blocked)
    requires s.pk(t) in fields && IdFits(s, server, db, blocked, t, Post(sent), fields)
    requires Finishes(s, db, LocalKey(t, item), fields)
    ensures var d := Replace(s, db, t, item, Object(fields)).db; QueueOwned(d.meta, d.queue, blocked)
  {
    hide RewriteLocalRow, Finishes, RecordRemoteSuccess, Replace, RenameAllowed, QueueKept, RowsOwned, QueueOwned;
    var body, lk, open := Object(fields), LocalKey(t, item), db.(locked := true);
    RecordKeeps(s, server, open, blocked, t, item, Post(sent), body);
    ReplaceSteps(s, server, db, blocked, t, item, Post(sent), body);
    var i := FindLocal(db.meta, lk).value;
    MovedOnlyUnnamed(server, db.meta, blocked, lk, i, Post(sent), "");
    var r := RecordRemoteSuccess(s, open, lk, body).value;
    RewriteFrame(s, r.db, t, r.oldId, r.newId, body);
    RecordsKeep(server, db.meta, r.db.meta, blocked, i, r.newId);
    RenamedOwned(db.meta, r.db.meta, i, r.newId, db.queue, item.id, blocked);
  }

  lemma RenamedOwned(ms: seq<Meta>, ms': seq<Meta>, i: nat, newId: Id, q: seq<Item>, id: nat, blocked: set<Key>)
    requires Relabels(ms, ms', i, newId) && Distinct(ms) && Distinct(ms') && QueueOwned(ms, q, blocked)
    ensures QueueOwned(ms', RemoveItem(RenameItems(q, ms[i].table, ms[i].entityId, newId), id), blocked)
  {
    RelabelledNames(ms, ms', i, newId);
    var renamed := RenameItems(q, ms[i].table, ms[i].entityId, newId);
    var left := RemoveItem(renamed, id);
    forall j | 0 <= j < |left| && KeyOf(left[j]) !in blocked ensures Owned(ms', KeyOf(left[j])) {
      RemoveItemMembers(renamed, id, left[j]);
      var n :| 0 <= n < |renamed| && renamed[n] == left[j];
      assert KeyOf(q[n]) in blocked || Owned(ms, KeyOf(q[n]));
    }
  }

  /** Whether the transaction of an answered request is carried to its end, told beforehand. */
  lemma ReplacedIff(s: Schema, server: iset<Id>, db: Db, blocked: set<Key>, t: Table, item: Pushable,
                    request: Request, fields: Fields)
    requires Inv(s, server, db, blocked) && LocalKey(t, item) !in blocked && ItemKnown(db.meta, t, item)
    requires RequestCurrent(db.meta, blocked, t, item, request) && !request.Remove?
    requires IdFits(s, server, db, blocked, t, request, fields)
    ensures Replace(s, db, t, item, Object(fields)).verdict.Replaced? <==> Finishes(s, db, LocalKey(t, item), fields)
  {
    ReplaceSteps(s, server, db, blocked, t, item, request, Object(fields));
  }

  /**
  Which answers leave their item BLOCKED: a 404 to anything but a delete, and an
  accepted create or patch that step 2 does not carry to its end.
  */
  lemma BlocksItemIff(s: Schema, server: iset<Id>, db: Db, blocked: set<Key>, t: Table, item: Pushable,
                      request: Request, outcome: Outcome)
    requires Inv(s, server, db, blocked) && LocalKey(t, item) !in blocked
    requires ItemKnown(db.meta, t, item) && RequestCurrent(db.meta, blocked, t, item, request)
    requires Taken(request, outcome) ==> IdFits(s, server, db, blocked, t, request, outcome.body.fields)
    ensures Receive(s, db, t, item, request, outcome).verdict.Stuck? <==>
            && outcome.Response? && !request.Remove?
            && (outcome.status == 404 ||
                (Taken(request, outcome) && !Finishes(s, db, LocalKey(t, item), outcome.body.fields)))
  {
    hide Finishes, Replace;
    if Accepted(outcome) && !request.Remove? && (request.Post? ==> outcome.body.Object?) {
      ReplaceSteps(s, server, db, blocked, t, item, request, outcome.body);
      if outcome.body.NoObject? { EmptyReplaceFinishes(s, server, db, blocked, t, item, request); }
    }
  }

  lemma EmptyReplaceFinishes(
      s: Schema, server: iset<Id>, db: Db, blocked: set<Key>, t: Table, item: Pushable, request: Request)
    requires Inv(s, server, db, blocked) && ItemKnown(db.meta, t, item) && request.Patch?
    requires RequestCurrent(db.meta, blocked, t, item, request)
    ensures Replace(s, db, t, item, NoObject).verdict.Replaced?
  {
    RecordKeeps(s, server, db.(locked := true), blocked, t, item, request, NoObject);
  }

  // ---- a whole session ---------------------------------------------------------------------------------------------

  lemma TakenKeeps(s: Schema, server: iset<Id>, db: Db, blocked: set<Key>, t: Table, item: Pushable,
                   request: Request, body: SyncApplier.Body)
    requires Inv(s, server, db, blocked) && Tracked(db.meta, blocked, t, item) && s.synced(t)
    requires RequestCurrent(db.meta, blocked, t, item, request)
    requires !request.Remove? && (body.Object? ==> IdFits(s, server, db, blocked, t, request, body.fields))
    requires request.Post? ==> body.Object?
    ensures
      var d := Replace(s, db, t, item, body).db;
      var blocked' := if Leaves(s, db, blocked, t, item, request, body)
                      then WithNames(s, db, blocked, t, item, body.fields) else blocked;
      && Inv(s, server, d, blocked') && Evolves(db.meta, d.meta, blocked')
      && FormersStay(s, server, db.meta, db.rows.Keys, d.meta, d.rows.Keys, blocked')
      && (LocalKey(t, item) !in blocked' ==> RemoteIdOf(d.meta, LocalKey(t, item)).Some?)
  {
    hide Replace, Inv, Finishes, RequestCurrent, IdFits, Former, Vacates;
    if FindLocal(db.meta, LocalKey(t, item)).None? {
      LostReplaceBlocks(s, server, db, blocked, t, item, request, body);
    } else if Leaves(s, db, blocked, t, item, request, body) {
      ReplaceBlocks(s, server, db, blocked, t, item, request, body);
    } else {
      ReplaceKeeps(s, server, db, blocked, t, item, request, body);
    }
  }

  lemma FailedFormers(s: Schema, server: iset<Id>, db: Db, blocked: set<Key>, lk: Key)
    requires MetasSound(server, db.meta, blocked)
    ensures FormersStay(s, server, db.meta, db.rows.Keys, MarkMetaFailed(db.meta, lk), db.rows.Keys, blocked)
    ensures FormersStay(s, server, db.meta, db.rows.Keys, db.meta, db.rows.Keys, blocked)
  {
    var ms' := MarkMetaFailed(db.meta, lk);
    MetaFailedKeeps(server, db.meta, lk, blocked);
    GrowsKeepsOwnedKeys(db.meta, ms', {});
    forall k: Key | Former(s, server, db.meta, db.rows.Keys, k) ensures Former(s, server, ms', db.rows.Keys, k) {
      FormerStays(s, server, db.meta, db.rows.Keys, ms', db.rows.Keys, k);
    }
  }

  lemma ReceiveKeeps(s: Schema, server: iset<Id>, db: Db, blocked: set<Key>, t: Table, item: Pushable,
                     request: Request, outcome: Outcome)
    requires Inv(s, server, db, blocked) && AtomFits(s, server, db, blocked, ReplyA(t, item, request, outcome))
    ensures
      var d := Receive(s, db, t, item, request, outcome).db;
      var blocked' := Blocks(s, db, blocked, ReplyA(t, item, request, outcome));
      && Inv(s, server, d, blocked') && Evolves(db.meta, d.meta, blocked')
      && FormersStay(s, server, db.meta, db.rows.Keys, d.meta, d.rows.Keys, blocked')
      && (request.Post? && Accepted(outcome) && outcome.body.Object? && LocalKey(t, item) !in blocked' ==>
            RemoteIdOf(d.meta, LocalKey(t, item)).Some?)
  {
    hide Replace, Sound, Finishes, MetasSound, FormersStay, Former, Vacates, QueueKept;
    SoundParts(s, server, db, blocked);
    DropKeeps(s, server, db, blocked, item.id);
    BlockKeeps(s, server, db, blocked, item.id);
    FailKeeps(s, server, db, blocked, LocalKey(t, item), item.id);
    MetaFailedKeeps(server, db.meta, LocalKey(t, item), blocked);
    FailedFormers(s, server, db, blocked, LocalKey(t, item));
    if Accepted(outcome) && !request.Remove? && (request.Post? ==> outcome.body.Object?) {
      TakenKeeps(s, server, db, blocked, t, item, request, outcome.body);
    }
  }

  lemma PlanIsCurrent(s: Schema, server: iset<Id>, db: Db, db': Db, blocked: set<Key>, t: Table, item: Pushable)
    requires Inv(s, server, db, blocked) && Tracked(db.meta, blocked, t, item) && Prepare(s, db, t, item).Send?
    requires MetasSound(server, db'.meta, blocked) && SameIds(db.meta, db'.meta)
    ensures RequestCurrent(db'.meta, blocked, t, item, Prepare(s, db, t, item).request)
    ensures Tracked(db'.meta, blocked, t, item)
  {
    var lk := LocalKey(t, item);
    if FindLocal(db.meta, lk).Some? {
      LocalIndexUnique(db'.meta, lk, FindLocal(db.meta, lk).value);
    }
  }

  // ---- atomic steps -----------------------------------------------------------------------------

  /** The world's part of a step, and what the session itself brings along. */
  ghost predicate AtomFits(s: Schema, server: iset<Id>, db: Db, blocked: set<Key>, a: Atom) {
    && WorldFits(s, server, db, blocked, a)
    && (a.ReplyA? ==>
          Tracked(db.meta, blocked, a.table, a.item) && RequestCurrent(db.meta, blocked, a.table, a.item, a.request))
  }

  ghost predicate AtomsFit(s: Schema, server: iset<Id>, db: Db, blocked: set<Key>, atoms: seq<Atom>)
    decreases |atoms|
  {
    atoms == [] ||
    (&& AtomFits(s, server, db, blocked, atoms[0])
     && AtomsFit(s, server, Act(s, db, atoms[0]), Blocks(s, db, blocked, atoms[0]), atoms[1..]))
  }

  lemma FailedFormersIn(s: Schema, server: iset<Id>, db: Db, blocked: set<Key>, lk: Key)
    requires Inv(s, server, db, blocked)
    ensures FormersStay(s, server, db.meta, db.rows.Keys, MarkMetaFailed(db.meta, lk), db.rows.Keys, blocked)
    ensures FormersStay(s, server, db.meta, db.rows.Keys, db.meta, db.rows.Keys, blocked)
  {
    FailedFormers(s, server, db, blocked, lk);
  }

  lemma SettledDb(s: Schema, db: Db, t: Table, item: Pushable)
    ensures var d := Act(s, db, SettleA(t, item));
            d == db || d == DropItem(db, item.id) || d == FailItem(db, LocalKey(t, item), item.id)
  {
    hide ReadSnapshot;
  }

  lemma SameIdsNot(ms: seq<Meta>)
    ensures SameIds(ms, ms)
  {
  }

  lemma SettleKeeps(s: Schema, server: iset<Id>, db: Db, blocked: set<Key>, t: Table, item: Pushable)
    requires Inv(s, server, db, blocked)
    ensures
      var d := Act(s, db, SettleA(t, item));
      && Inv(s, server, d, blocked) && SameIds(db.meta, d.meta) && d.rows == db.rows
      && FormersStay(s, server, db.meta, db.rows.Keys, d.meta, d.rows.Keys, blocked)
  {
    SettledDb(s, db, t, item);
    hide Sound, Act, MetasSound, FormersStay, QueueKept, QueueOrdered, RowsOwned, SameIds, MarkMetaFailed;
    FailedFormersIn(s, server, db, blocked, LocalKey(t, item));
    SameIdsNot(db.meta);
    SoundParts(s, server, db, blocked);
    DropKeeps(s, server, db, blocked, item.id);
    FailKeeps(s, server, db, blocked, LocalKey(t, item), item.id);
    MetaFailedKeeps(server, db.meta, LocalKey(t, item), blocked);
  }

  lemma PageKeeps(s: Schema, server: iset<Id>, db: Db, blocked: set<Key>, t: Table, page: seq<SyncApplier.Body>)
    requires Inv(s, server, db, blocked) && PageFits(s, server, t, page)
    ensures
      var d := Act(s, db, PageA(t, page));
      && Inv(s, server, d, blocked) && Evolves(db.meta, d.meta, blocked) && Grows(db.meta, d.meta, blocked)
      && FormersStay(s, server, db.meta, db.rows.Keys, d.meta, d.rows.Keys, blocked)
      && d.queue == db.queue
  {
    hide Former;
    if ApplyRows(s, db.(locked := true), t, page).Some? {
      ApplyRowsKeep(s, server, db.(locked := true), blocked, t, page);
    }
  }

  lemma AtomKeeps(s: Schema, server: iset<Id>, db: Db, blocked: set<Key>, a: Atom)
    requires Inv(s, server, db, blocked) && AtomFits(s, server, db, blocked, a)
    ensures
      var d, blocked' := Act(s, db, a), Blocks(s, db, blocked, a);
      && Inv(s, server, d, blocked') && Evolves(db.meta, d.meta, blocked')
      && FormersStay(s, server, db.meta, db.rows.Keys, d.meta, d.rows.Keys, blocked')
  {
    hide Inv, Finishes, Former, Vacates;
    match a
    case WriteA(w) => WriteKeeps(s, server, db, blocked, w);
    case SettleA(t, item) => SettleKeeps(s, server, db, blocked, t, item);
    case ReplyA(t, item, request, outcome) => ReceiveKeeps(s, server, db, blocked, t, item, request, outcome);
    case PageA(t, page) => PageKeeps(s, server, db, blocked, t, page);
  }

  lemma EvolvesTwice(a: seq<Meta>, b: seq<Meta>, c: seq<Meta>, blocked: set<Key>, blocked': set<Key>)
    requires Evolves(a, b, blocked) && Evolves(b, c, blocked') && blocked <= blocked'
    ensures Evolves(a, c, blocked')
  {
  }

  lemma {:induction false} AtomsKeep(s: Schema, server: iset<Id>, db: Db, blocked: set<Key>, atoms: seq<Atom>)
    requires Inv(s, server, db, blocked) && AtomsFit(s, server, db, blocked, atoms)
    ensures
      var d, blocked' := Acts(s, db, atoms), BlockedAfter(s, db, blocked, atoms);
      && Inv(s, server, d, blocked') && Evolves(db.meta, d.meta, blocked')
      && FormersStay(s, server, db.meta, db.rows.Keys, d.meta, d.rows.Keys, blocked')
    decreases |atoms|
  {
    hide Inv, AtomFits, Evolves, Act, Blocks, Former;
    if atoms == [] {
      EvolvesNot(db.meta, blocked);
    } else {
      var next, mid := Act(s, db, atoms[0]), Blocks(s, db, blocked, atoms[0]);
      AtomKeeps(s, server, db, blocked, atoms[0]);
      AtomsKeep(s, server, next, mid, atoms[1..]);
      EvolvesTwice(db.meta, next.meta, Acts(s, db, atoms).meta, mid, BlockedAfter(s, db, blocked, atoms));
    }
  }

  lemma EvolvesNot(ms: seq<Meta>, blocked: set<Key>)
    ensures Evolves(ms, ms, blocked)
  {
  }

  lemma {:induction false} AtomsFitAppend(
      s: Schema, server: iset<Id>, db: Db, blocked: set<Key>, a: seq<Atom>, b: seq<Atom>)
    requires AtomsFit(s, server, db, blocked, a)
    requires AtomsFit(s, server, Acts(s, db, a), BlockedAfter(s, db, blocked, a), b)
    ensures AtomsFit(s, server, db, blocked, a + b)
    decreases |a|
  {
    hide AtomFits, Act, Blocks;
    if a == [] {
      assert a + b == b;
    } else {
      assert (a + b)[1..] == a[1..] + b;
      AtomsFitAppend(s, server, Act(s, db, a[0]), Blocks(s, db, blocked, a[0]), a[1..], b);
    }
  }

  lemma {:induction false} BlockedAppend(s: Schema, db: Db, blocked: set<Key>, a: seq<Atom>, b: seq<Atom>)
    ensures BlockedAfter(s, db, blocked, a + b)
         == BlockedAfter(s, Acts(s, db, a), BlockedAfter(s, db, blocked, a), b)
    decreases |a|
  {
    hide Act, Blocks;
    if a == [] {
      assert a + b == b;
    } else {
      assert (a + b)[1..] == a[1..] + b;
      BlockedAppend(s, Act(s, db, a[0]), Blocks(s, db, blocked, a[0]), a[1..], b);
    }
  }

  lemma {:induction false} WorldsFitSplit(
      s: Schema, server: iset<Id>, db: Db, blocked: set<Key>, a: seq<Atom>, b: seq<Atom>)
    requires WorldsFit(s, server, db, blocked, a + b)
    ensures WorldsFit(s, server, db, blocked, a)
    ensures WorldsFit(s, server, Acts(s, db, a), BlockedAfter(s, db, blocked, a), b)
    decreases |a|
  {
    hide WorldFits, Act, Blocks;
    if a == [] {
      assert a + b == b;
    } else {
      assert (a + b)[1..] == a[1..] + b;
      WorldsFitSplit(s, server, Act(s, db, a[0]), Blocks(s, db, blocked, a[0]), a[1..], b);
    }
  }

  // ---- sessions are made of fitting steps -------------------------------------------------------

  lemma {:induction false} WriteAtomsFit(s: Schema, server: iset<Id>, db: Db, blocked: set<Key>, ws: seq<Write>)
    requires Inv(s, server, db, blocked) && WorldsFit(s, server, db, blocked, WriteAtoms(ws))
    ensures AtomsFit(s, server, db, blocked, WriteAtoms(ws)) && BlockedAfter(s, db, blocked, WriteAtoms(ws)) == blocked
    ensures
      var d := ApplyWrites(s, db, ws);
      && Inv(s, server, d, blocked) && SameIds(db.meta, d.meta)
      && FormersStay(s, server, db.meta, db.rows.Keys, d.meta, d.rows.Keys, {})
    decreases |ws|
  {
    hide Inv, WriteFits, Former;
    if ws != [] {
      assert WriteAtoms(ws)[1..] == WriteAtoms(ws[1..]);
      WriteKeeps(s, server, db, blocked, ws[0]);
      WriteAtomsFit(s, server, ApplyWrite(s, db, ws[0]), blocked, ws[1..]);
    }
  }

  lemma SameIdsEvolve(ms: seq<Meta>, ms': seq<Meta>, blocked: set<Key>)
    requires SameIds(ms, ms')
    ensures Evolves(ms, ms', blocked)
  {
  }

  /** An item read under a former name. */
  ghost predicate LeftOver(s: Schema, server: iset<Id>, db: Db, t: Table, item: Pushable) {
    item.localId.None? && Former(s, server, db.meta, db.rows.Keys, Key(t, item.entityId))
  }

  /** It is never sent, whatever it asks for: there is no row to read, and no server id to address. */
  lemma LeftOverIsDropped(s: Schema, server: iset<Id>, db: Db, t: Table, item: Pushable)
    requires LeftOver(s, server, db, t, item)
    ensures Prepare(s, db, t, item) == Settled(DropItem(db, item.id), Dropped)
  {
  }

  ghost predicate Readable(s: Schema, server: iset<Id>, db: Db, blocked: set<Key>, t: Table, item: Pushable) {
    Tracked(db.meta, blocked, t, item) || LeftOver(s, server, db, t, item)
  }

  lemma ItemAtomsFit(s: Schema, server: iset<Id>, db: Db, blocked: set<Key>, t: Table, item: Pushable, turn: Turn)
    requires Inv(s, server, db, blocked) && Readable(s, server, db, blocked, t, item)
    requires WorldsFit(s, server, db, blocked, ItemAtoms(s, db, t, item, turn))
    ensures AtomsFit(s, server, db, blocked, ItemAtoms(s, db, t, item, turn))
  {
    hide Sound, Prepare, Receive, Readable, RequestCurrent, SameIds, Evolves, Blocks, FormersStay;
    var ready := ApplyWrites(s, db, turn.before);
    var before := WriteAtoms(turn.before);
    var rest := ItemRest(s, db, t, item, turn);
    assert ItemAtoms(s, db, t, item, turn) == before + rest;
    WorldsFitSplit(s, server, db, blocked, before, rest);
    WriteAtomsFit(s, server, db, blocked, turn.before);
    WriteAtomsRun(s, db, turn.before);
    ReadableThroughWrites(s, server, db, ready, blocked, t, item);
    RestFits(s, server, ready, blocked, t, item, turn);
    AtomsFitAppend(s, server, db, blocked, before, rest);
  }

  lemma ReadableThroughWrites(
      s: Schema, server: iset<Id>, db: Db, db': Db, blocked: set<Key>, t: Table, item: Pushable)
    requires Inv(s, server, db, blocked) && Inv(s, server, db', blocked) && SameIds(db.meta, db'.meta)
    requires FormersStay(s, server, db.meta, db.rows.Keys, db'.meta, db'.rows.Keys, {})
    requires Readable(s, server, db, blocked, t, item)
    ensures Readable(s, server, db', blocked, t, item)
  {
    if Tracked(db.meta, blocked, t, item) {
      SameIdsEvolve(db.meta, db'.meta, blocked);
      EvolvesKeepsItem(server, db.meta, db'.meta, blocked, blocked, t, item);
    }
  }

  /** The atoms of an item after the writes that precede it. */
  function ItemRest(s: Schema, db: Db, t: Table, item: Pushable, turn: Turn): seq<Atom> {
    SentAtoms(s, ApplyWrites(s, db, turn.before), t, item, turn)
  }

  function SentAtoms(s: Schema, ready: Db, t: Table, item: Pushable, turn: Turn): seq<Atom> {
    var plan := Prepare(s, ready, t, item);
    if plan.Settled? then [SettleA(t, item)]
    else WriteAtoms(turn.during) + [ReplyA(t, item, plan.request, turn.outcome)]
  }

  lemma RestFits(s: Schema, server: iset<Id>, ready: Db, blocked: set<Key>, t: Table, item: Pushable, turn: Turn)
    requires Inv(s, server, ready, blocked) && Readable(s, server, ready, blocked, t, item)
    requires WorldsFit(s, server, ready, blocked, SentAtoms(s, ready, t, item, turn))
    ensures AtomsFit(s, server, ready, blocked, SentAtoms(s, ready, t, item, turn))
  {
    hide Sound, Prepare, Receive, Tracked, RequestCurrent, Blocks, SameIds;
    var plan := Prepare(s, ready, t, item);
    if LeftOver(s, server, ready, t, item) { LeftOverIsDropped(s, server, ready, t, item); }
    if plan.Settled? {
      assert [SettleA(t, item)][1..] == [];
    } else {
      var during := WriteAtoms(turn.during);
      var last := [ReplyA(t, item, plan.request, turn.outcome)];
      WorldsFitSplit(s, server, ready, blocked, during, last);
      WriteAtomsFit(s, server, ready, blocked, turn.during);
      WriteAtomsRun(s, ready, turn.during);
      var now := ApplyWrites(s, ready, turn.during);
      SoundParts(s, server, now, blocked);
      PlanIsCurrent(s, server, ready, now, blocked, t, item);
      assert last[1..] == [];
      assert AtomsFit(s, server, now, blocked, last);
      AtomsFitAppend(s, server, ready, blocked, during, last);
    }
  }

  ghost predicate ItemsReadable(
      s: Schema, server: iset<Id>, db: Db, blocked: set<Key>, t: Table, items: seq<Pushable>) {
    forall i | 0 <= i < |items| :: Readable(s, server, db, blocked, t, items[i])
  }

  lemma ItemsStayReadable(s: Schema, server: iset<Id>, db: Db, db': Db, blocked: set<Key>, blocked': set<Key>,
                          t: Table, items: seq<Pushable>)
    requires Inv(s, server, db, blocked) && Inv(s, server, db', blocked') && blocked <= blocked'
    requires FormersStay(s, server, db.meta, db.rows.Keys, db'.meta, db'.rows.Keys, blocked')
    requires Evolves(db.meta, db'.meta, blocked') && ItemsReadable(s, server, db, blocked, t, items)
    ensures ItemsReadable(s, server, db', blocked', t, items)
  {
    hide Former;
    forall i | 0 <= i < |items| ensures Readable(s, server, db', blocked', t, items[i]) {
      if Tracked(db.meta, blocked, t, items[i]) {
        EvolvesKeepsItem(server, db.meta, db'.meta, blocked, blocked', t, items[i]);
      } else if Key(t, items[i].entityId) in blocked' {
        assert Tracked(db'.meta, blocked', t, items[i]);
      }
    }
  }

  lemma {:induction false} ItemsAtomsFit(
      s: Schema, server: iset<Id>, db: Db, blocked: set<Key>, t: Table, items: seq<Pushable>, turns: seq<Turn>)
    requires Inv(s, server, db, blocked) && ItemsReadable(s, server, db, blocked, t, items)
    requires WorldsFit(s, server, db, blocked, ItemsAtoms(s, db, t, items, turns))
    ensures AtomsFit(s, server, db, blocked, ItemsAtoms(s, db, t, items, turns))
    decreases |items|
  {
    hide Inv, PushItem, ItemAtoms, Evolves, Readable, Blocks, FormersStay;
    if items != [] && turns != [] {
      var one := PushItem(s, db, t, items[0], turns[0]);
      var head := ItemAtoms(s, db, t, items[0], turns[0]);
      var tail := if one.verdict.Offline? then [] else ItemsAtoms(s, one.db, t, items[1..], turns[1..]);
      WorldsFitSplit(s, server, db, blocked, head, tail);
      ItemAtomsFit(s, server, db, blocked, t, items[0], turns[0]);
      ItemAtomsRun(s, db, t, items[0], turns[0]);
      AtomsKeep(s, server, db, blocked, head);
      var blocked' := BlockedAfter(s, db, blocked, head);
      if !one.verdict.Offline? {
        ItemsStayReadable(s, server, db, one.db, blocked, blocked', t, items);
        assert ItemsReadable(s, server, one.db, blocked', t, items[1..]);
        ItemsAtomsFit(s, server, one.db, blocked', t, items[1..], turns[1..]);
      }
      AtomsFitAppend(s, server, db, blocked, head, tail);
    }
  }

  lemma {:induction false} PendingReadable(
      s: Schema, server: iset<Id>, db: Db, blocked: set<Key>, q: seq<Item>, t: Table)
    requires MetasSound(server, db.meta, blocked)
    requires QueueKept(s, server, db.meta, db.rows.Keys, q, blocked)
    ensures ItemsReadable(s, server, db, blocked, t, PendingItems(db.meta, q, t))
  {
    hide MetasSound, Readable, Former, Owned;
    if q != [] {
      PendingReadable(s, server, db, blocked, q[1..], t);
      if q[0].table == t { ReadReadable(s, server, db, blocked, q[0]); }
    }
  }

  lemma ReadReadable(s: Schema, server: iset<Id>, db: Db, blocked: set<Key>, x: Item)
    requires MetasSound(server, db.meta, blocked)
    requires KeyOf(x) in blocked || Owned(db.meta, KeyOf(x)) ||
             Former(s, server, db.meta, db.rows.Keys, KeyOf(x))
    ensures Readable(s, server, db, blocked, x.table, Read(db.meta, x))
  {
    if Owned(db.meta, KeyOf(x)) {
      var i := FindEntity(db.meta, KeyOf(x)).value;
      assert EntityKeyOf(db.meta[i]) == KeyOf(x);
      LocalIndexUnique(db.meta, LocalKeyOf(db.meta[i]), i);
    }
  }

  lemma {:induction false} EventsAreAtoms(s: Schema, server: iset<Id>, db: Db, blocked: set<Key>, events: seq<Event>)
    requires Inv(s, server, db, blocked) && EventsFit(s, server, db, blocked, events)
    ensures AtomsFit(s, server, db, blocked, Atoms(s, db, events))
    decreases |events|
  {
    if events != [] {
      hide Sound, Step, Blocks, Evolves, FormersStay;
      var e := events[0];
      var head, next := EventAtoms(s, db, e), Step(s, db, e).db;
      WorldsFitSplit(s, server, db, blocked, head, Atoms(s, next, events[1..]));
      EventFits(s, server, db, blocked, e);
      EventAtomsRun(s, db, e);
      AtomsKeep(s, server, db, blocked, head);
      EventsAreAtoms(s, server, next, BlockedAfter(s, db, blocked, head), events[1..]);
      AtomsFitAppend(s, server, db, blocked, head, Atoms(s, next, events[1..]));
    }
  }

  lemma EventFits(s: Schema, server: iset<Id>, db: Db, blocked: set<Key>, e: Event)
    requires Inv(s, server, db, blocked) && WorldsFit(s, server, db, blocked, EventAtoms(s, db, e))
    ensures AtomsFit(s, server, db, blocked, EventAtoms(s, db, e))
  {
    match e
    case WriteE(w) => assert [WriteA(w)][1..] == [];
    case PullE(t, page) => assert [PageA(t, page)][1..] == [];
    case PushE(t, turns) =>
      PendingReadable(s, server, db, blocked, db.queue, t);
      ItemsAtomsFit(s, server, db, blocked, t, ReadPending(db, t, MAX_PUSH_ITEMS), turns);
  }

  // ---- the snapshots of unfinished creates ------------------------------------------------------

  /** What a step must keep for the snapshots to stay owned. */
  lemma OwnedCarries(ms: seq<Meta>, q: seq<Item>, ms': seq<Meta>, q': seq<Item>, except: set<Key>, except': set<Key>)
    requires QueueOwned(ms, q, except) && except <= except'
    requires forall k: Key | Owned(ms, k) && k !in except' :: Owned(ms', k)
    requires forall i | 0 <= i < |q'| :: Owned(ms', KeyOf(q'[i])) || HasKey(q, KeyOf(q'[i]))
    ensures QueueOwned(ms', q', except')
  {
    hide Owned;
    forall i | 0 <= i < |q'| && KeyOf(q'[i]) !in except' ensures Owned(ms', KeyOf(q'[i])) {
      if HasKey(q, KeyOf(q'[i])) {
        var j :| 0 <= j < |q| && KeyOf(q[j]) == KeyOf(q'[i]);
        assert KeyOf(q[j]) in except || Owned(ms, KeyOf(q[j]));
      }
    }
  }

  lemma SettledStaysOwned(db: Db, ms': seq<Meta>, id: nat, except: set<Key>)
    requires QueueOwned(db.meta, db.queue, except) && Grows(db.meta, ms', {})
    ensures QueueOwned(ms', RemoveItem(db.queue, id), except)
    ensures forall status :: QueueOwned(ms', MarkItem(db.queue, id, status), except)
    ensures QueueOwned(ms', db.queue, except)
  {
    forall k: Key | Owned(db.meta, k) ensures Owned(ms', k) {
      var i := FindEntity(db.meta, k).value;
      assert EntityKeyOf(ms'[i]) == k;
    }
    var left := RemoveItem(db.queue, id);
    forall i | 0 <= i < |left| ensures HasKey(db.queue, KeyOf(left[i])) {
      RemoveItemMembers(db.queue, id, left[i]);
      var j :| 0 <= j < |db.queue| && db.queue[j] == left[i];
    }
    OwnedCarries(db.meta, db.queue, ms', left, except, except);
    forall status ensures QueueOwned(ms', MarkItem(db.queue, id, status), except) {
      MarkedIsThere(db.queue, id, status);
      OwnedCarries(db.meta, db.queue, ms', MarkItem(db.queue, id, status), except, except);
    }
    ThereAlready(db.queue);
    OwnedCarries(db.meta, db.queue, ms', db.queue, except, except);
  }

  lemma WriteStaysOwned(s: Schema, server: iset<Id>, db: Db, blocked: set<Key>, w: Write, except: set<Key>)
    requires Inv(s, server, db, blocked) && WriteFits(server, db, w) && QueueOwned(db.meta, db.queue, except)
    ensures var d := ApplyWrite(s, db, w); QueueOwned(d.meta, d.queue, except)
  {
    hide Sound, QueueOwned;
    var d := ApplyWrite(s, db, w);
    WriteKeeps(s, server, db, blocked, w);
    SettledStaysOwned(db, d.meta, 0, except);
    if d.queue != db.queue {
      WrittenIsOwned(s, db, w);
      OldOrWritten(db.queue, d.queue, d.meta, w.key);
      OwnedCarryOver(db.meta, d.meta);
      OwnedCarries(db.meta, db.queue, d.meta, d.queue, except, except);
    }
  }

  lemma WrittenIsOwned(s: Schema, db: Db, w: Write)
    requires ApplyWrite(s, db, w).queue != db.queue
    ensures var d := ApplyWrite(s, db, w);
            && Owned(d.meta, w.key) && |d.queue| == |db.queue| + 1
            && d.queue == db.queue + [d.queue[|db.queue|]] && KeyOf(d.queue[|db.queue|]) == w.key
  {
    var d := ApplyWrite(s, db, w);
    var i := if FindEntity(db.meta, w.key).Some? then FindEntity(db.meta, w.key).value else |db.meta|;
    assert EntityKeyOf(d.meta[i]) == w.key;
  }

  lemma PageStaysOwned(
      s: Schema, server: iset<Id>, db: Db, blocked: set<Key>, t: Table, page: seq<SyncApplier.Body>, except: set<Key>)
    requires Inv(s, server, db, blocked) && PageFits(s, server, t, page)
    requires QueueOwned(db.meta, db.queue, except) && blocked <= except
    ensures var d := Act(s, db, PageA(t, page)); QueueOwned(d.meta, d.queue, except)
  {
    var d := Act(s, db, PageA(t, page));
    PageKeeps(s, server, db, blocked, t, page);
    GrowsKeepsOwnedKeys(db.meta, d.meta, blocked);
    ThereAlready(db.queue);
    OwnedCarries(db.meta, db.queue, d.meta, db.queue, except, except);
  }

  lemma ReplaceStaysOwned(s: Schema, server: iset<Id>, db: Db, blocked: set<Key>, t: Table, item: Pushable,
                          request: Request, body: SyncApplier.Body, except: set<Key>, except': set<Key>)
    requires Inv(s, server, db, blocked) && FindLocal(db.meta, LocalKey(t, item)).Some?
    requires RequestCurrent(db.meta, blocked, t, item, request)
    requires !request.Remove? && (body.Object? ==> IdFits(s, server, db, blocked, t, request, body.fields))
    requires request.Post? ==> body.Object?
    requires QueueOwned(db.meta, db.queue, except) && except <= except'
    requires request.Post? && s.pk(t) in body.fields && !Finishes(s, db, LocalKey(t, item), body.fields) ==>
               Key(t, StoredId(db.meta, LocalKey(t, item))) in except'
    ensures var d := Replace(s, db, t, item, body).db; QueueOwned(d.meta, d.queue, except')
  {
    hide RewriteLocalRow, Finishes, RecordRemoteSuccess, Replace, AnsweredId, RowsOwned, QueueKept, QueueOwned;
    var lk, open := LocalKey(t, item), db.(locked := true);
    RecordKeeps(s, server, open, blocked, t, item, request, body);
    ReplaceSteps(s, server, db, blocked, t, item, request, body);
    var i := FindLocal(db.meta, lk).value;
    var r := RecordRemoteSuccess(s, open, lk, body).value;
    RewriteFrame(s, r.db, t, r.oldId, r.newId, body);
    var a := RewriteLocalRow(s, r.db, t, r.oldId, r.newId, body);
    DistinctRecords(db.meta, r.db.meta, i, r.newId);
    RelabelledOwned(db.meta, r.db.meta, i, r.newId, db.queue, a.db.queue, except, except');
    SettledStaysOwned(a.db, a.db.meta, item.id, except');
  }

  lemma DistinctRecords(ms: seq<Meta>, ms': seq<Meta>, i: nat, newId: Id)
    requires Distinct(ms) && Records(ms, ms', i, newId)
    requires newId != ms[i].entityId ==> !Owned(ms, Key(ms[i].table, newId))
    ensures Distinct(ms') && Relabels(ms, ms', i, newId) && Grows(ms', ms', {})
  {
    if newId != ms[i].entityId {
      forall j | 0 <= j < |ms| && ms[j].table == ms[i].table ensures ms[j].entityId != newId {}
    }
  }

  lemma RelabelledOwned(ms: seq<Meta>, ms': seq<Meta>, i: nat, newId: Id, q: seq<Item>, q': seq<Item>,
                        except: set<Key>, except': set<Key>)
    requires Relabels(ms, ms', i, newId) && Distinct(ms) && Distinct(ms') && QueueOwned(ms, q, except)
    requires except <= except'
    requires q' == RenameItems(q, ms[i].table, ms[i].entityId, newId) ||
             (q' == q && (newId == ms[i].entityId || EntityKeyOf(ms[i]) in except'))
    ensures QueueOwned(ms', q', except')
  {
    RelabelledNames(ms, ms', i, newId);
    forall j | 0 <= j < |q'| && KeyOf(q'[j]) !in except' ensures Owned(ms', KeyOf(q'[j])) {
      assert KeyOf(q[j]) in except || Owned(ms, KeyOf(q[j]));
    }
  }

  lemma ReplyStaysOwned(s: Schema, server: iset<Id>, db: Db, blocked: set<Key>, unfinished: set<Key>, a: Atom)
    requires Inv(s, server, db, blocked) && AtomFits(s, server, db, blocked, a) && a.ReplyA?
    requires QueueOwned(db.meta, db.queue, blocked + unfinished)
    ensures var d := Act(s, db, a);
            QueueOwned(d.meta, d.queue, Blocks(s, db, blocked, a) + Unfinishes(s, db, unfinished, a))
  {
    hide Finishes, Vacates, Replace, QueueOwned, RowsOwned, QueueKept;
    var t, item, request, outcome := a.table, a.item, a.request, a.outcome;
    var except, except' := blocked + unfinished, Blocks(s, db, blocked, a) + Unfinishes(s, db, unfinished, a);
    GrowsNot(db.meta);
    SettledStaysOwned(db, db.meta, item.id, except);
    MetaFailedKeeps(server, db.meta, LocalKey(t, item), blocked);
    SettledStaysOwned(db, MarkMetaFailed(db.meta, LocalKey(t, item)), item.id, except);
    if Accepted(outcome) && !request.Remove? && (request.Post? ==> outcome.body.Object?) {
      if FindLocal(db.meta, LocalKey(t, item)).Some? {
        var i := FindLocal(db.meta, LocalKey(t, item)).value;
        MovedOnlyUnnamed(server, db.meta, blocked, LocalKey(t, item), i, request, "");
        if LocalKey(t, item) in blocked { assert EntityKeyOf(db.meta[i]) in blocked; }
        ReplaceStaysOwned(s, server, db, blocked, t, item, request, outcome.body, except, except');
      } else {
        LostReplaceQueue(s, db, t, item, outcome.body);
        OwnedMore(db.meta, MarkItem(db.queue, item.id, Blocked), except, except');
      }
    } else {
      OwnedMore(db.meta, db.queue, except, except');
    }
  }

  lemma GrowsNot(ms: seq<Meta>)
    ensures Grows(ms, ms, {})
  {
  }

  lemma OwnedMore(ms: seq<Meta>, q: seq<Item>, except: set<Key>, except': set<Key>)
    requires QueueOwned(ms, q, except) && except <= except'
    ensures QueueOwned(ms, q, except')
  {
  }

  lemma LostReplaceQueue(s: Schema, db: Db, t: Table, item: Pushable, body: SyncApplier.Body)
    requires FindLocal(db.meta, LocalKey(t, item)).None?
    ensures Replace(s, db, t, item, body).db == BlockItem(db, item.id)
  {
  }

  lemma StepStaysOwned(s: Schema, server: iset<Id>, db: Db, blocked: set<Key>, unfinished: set<Key>, a: Atom)
    requires Inv(s, server, db, blocked) && AtomFits(s, server, db, blocked, a)
    requires QueueOwned(db.meta, db.queue, blocked + unfinished)
    ensures var d := Act(s, db, a);
            QueueOwned(d.meta, d.queue, Blocks(s, db, blocked, a) + Unfinishes(s, db, unfinished, a))
  {
    hide Inv, QueueOwned;
    match a
    case WriteA(w) => WriteStaysOwned(s, server, db, blocked, w, blocked + unfinished);
    case SettleA(t, item) =>
      hide ReadSnapshot;
      MetaFailedGrows(s, server, db, blocked, LocalKey(t, item));
      GrowsNot(db.meta);
      SettledStaysOwned(db, db.meta, item.id, blocked + unfinished);
      SettledStaysOwned(db, MarkMetaFailed(db.meta, LocalKey(t, item)), item.id, blocked + unfinished);
    case ReplyA(_, _, _, _) => ReplyStaysOwned(s, server, db, blocked, unfinished, a);
    case PageA(t, page) => PageStaysOwned(s, server, db, blocked, t, page, blocked + unfinished);
  }

  lemma MetaFailedGrows(s: Schema, server: iset<Id>, db: Db, blocked: set<Key>, lk: Key)
    requires Inv(s, server, db, blocked)
    ensures Grows(db.meta, MarkMetaFailed(db.meta, lk), {})
  {
    MetaFailedKeeps(server, db.meta, lk, blocked);
  }

  /** The blocked keys at the end of a run. */
  function BlockedIn(s: Schema, db: Db, blocked: set<Key>, events: seq<Event>): set<Key> {
    BlockedAfter(s, db, blocked, Atoms(s, db, events))
  }

  function UnfinishedIn(s: Schema, db: Db, unfinished: set<Key>, events: seq<Event>): set<Key> {
    UnfinishedAfter(s, db, unfinished, Atoms(s, db, events))
  }

  /**
  In every reachable state, for every row that is not stranded: localId and
  entityId are unique per table, its stored row is owned by exactly one metadata
  row, and so are its queue items, but for those that a create which was not
  carried to its end left under the row's former name; its localId never changes
  and its server id is never lost. The lock is free, and unique keys hold for all
  rows alike.
  */
  lemma IdentityForever(
      s: Schema, server: iset<Id>, db: Db, blocked: set<Key>, unfinished: set<Key>, events: seq<Event>)
    requires Inv(s, server, db, blocked) && EventsFit(s, server, db, blocked, events)
    requires QueueOwned(db.meta, db.queue, blocked + unfinished)
    ensures
      var d, blocked' := Steps(s, db, events).db, BlockedIn(s, db, blocked, events);
      && Inv(s, server, d, blocked') && Evolves(db.meta, d.meta, blocked')
      && QueueOwned(d.meta, d.queue, blocked' + UnfinishedIn(s, db, unfinished, events))
  {
    hide Inv, Evolves, QueueOwned, EventsFit;
    EventsAreAtoms(s, server, db, blocked, events);
    AtomsKeep(s, server, db, blocked, Atoms(s, db, events));
    SnapshotsStayOwned(s, server, db, blocked, unfinished, Atoms(s, db, events));
    AtomsRun(s, db, events);
  }

  /** The queue items left under former names belong to creates that were not carried to their end. */
  lemma {:induction false} SnapshotsStayOwned(
      s: Schema, server: iset<Id>, db: Db, blocked: set<Key>, unfinished: set<Key>, atoms: seq<Atom>)
    requires Inv(s, server, db, blocked) && AtomsFit(s, server, db, blocked, atoms)
    requires QueueOwned(db.meta, db.queue, blocked + unfinished)
    ensures var d := Acts(s, db, atoms);
            QueueOwned(d.meta, d.queue,
                       BlockedAfter(s, db, blocked, atoms) + UnfinishedAfter(s, db, unfinished, atoms))
    decreases |atoms|
  {
    hide Inv, AtomFits, Act, Blocks, Unfinishes, QueueOwned;
    if atoms != [] {
      AtomKeeps(s, server, db, blocked, atoms[0]);
      StepStaysOwned(s, server, db, blocked, unfinished, atoms[0]);
      SnapshotsStayOwned(s, server, Act(s, db, atoms[0]), Blocks(s, db, blocked, atoms[0]),
                         Unfinishes(s, db, unfinished, atoms[0]), atoms[1..]);
    }
  }

  /** Whether every answered create of the run frees its row's old name when its answer comes. */
  ghost predicate AllVacate(s: Schema, db: Db, atoms: seq<Atom>)
    decreases |atoms|
  {
    atoms == [] ||
    (&& (atoms[0].ReplyA? && Names(s, atoms[0].table, atoms[0].request, atoms[0].outcome) ==>
           Vacates(s, db, LocalKey(atoms[0].table, atoms[0].item), atoms[0].outcome.body.fields))
     && AllVacate(s, Act(s, db, atoms[0]), atoms[1..]))
  }

  /** The blocked set stays empty in exactly the runs whose answered creates all free their rows' old names. */
  lemma {:induction false} NothingBlockedIff(s: Schema, db: Db, atoms: seq<Atom>)
    ensures BlockedAfter(s, db, {}, atoms) == {} <==> AllVacate(s, db, atoms)
    decreases |atoms|
  {
    hide Vacates, Act, Names;
    if atoms != [] {
      var blocked' := Blocks(s, db, {}, atoms[0]);
      if blocked' == {} {
        NothingBlockedIff(s, Act(s, db, atoms[0]), atoms[1..]);
      } else {
        var k :| k in blocked';
        assert k in BlockedAfter(s, db, {}, atoms);
      }
    }
  }

  lemma EmptyIsSound(s: Schema, server: iset<Id>)
    ensures Inv(s, server, EMPTY, {})
  {
  }
}
