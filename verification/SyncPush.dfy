/**
`SyncPushPhase`: draining the queue of one table. The application keeps writing
while a request is out, so each item comes with what the world did meanwhile.
*/
module SyncPush {
  import opened Wrappers
  import opened SyncStore
  import opened SyncApplier

  const MAX_PUSH_ITEMS := 200

  /** A queue row as the session read it, with the localId its join found. */
  datatype Pushable = Pushable(id: nat, operation: Operation, entityId: Id, localId: Option<Id>)

  datatype Request = Post(fields: Fields) | Patch(id: Id, fields: Fields) | Remove(id: Id)

  datatype Outcome = NetworkError | Response(status: int, body: Body)

  /** The world during one item: local writes before it and while its request is out, and the final outcome. */
  datatype Turn = Turn(before: seq<Write>, during: seq<Write>, outcome: Outcome)

  datatype Sent = Sent(localId: Id, request: Request, outcome: Outcome)

  /** What became of an item. */
  datatype Verdict = Dropped | Replaced | RemotelyDeleted | Rejected | Stuck | Offline

  // ---- reading ------------------------------------------------------------------------

  predicate Wanted(x: Item, t: Table) {
    x.table == t && !x.status.Blocked?
  }

  function Read(ms: seq<Meta>, x: Item): Pushable {
    Pushable(x.id, x.operation, x.entityId, LocalIdOf(ms, Key(x.table, x.entityId)))
  }

  function PendingItems(ms: seq<Meta>, q: seq<Item>, t: Table): seq<Pushable> {
    if q == [] then []
    else (if Wanted(q[0], t) then [Read(ms, q[0])] else []) + PendingItems(ms, q[1..], t)
  }

  function ReadPending(db: Db, t: Table, limit: nat): seq<Pushable> {
    var all := PendingItems(db.meta, db.queue, t);
    if |all| <= limit then all else all[..limit]
  }

  datatype Snapshot = Missing | Tombstoned | Unsupported | Body(fields: Fields)

  function ToWire(c: Cell): Wire
    requires !c.Blob?
  {
    match c
    case Null => WNull
    case Flag(b) => WBool(b)
    case Num(n) => WNum(n)
    case Text(t) => WText(t)
  }

  function ReadSnapshot(s: Schema, db: Db, k: Key): Snapshot {
    if k !in db.rows then Missing
    else
      var row := db.rows[k];
      var sent := set c | c in s.cols(k.table) && c != s.pk(k.table) && c != DELETED_AT;
      if exists c <- sent :: CellOf(row, c).Blob? then Unsupported
      else if CellOf(row, DELETED_AT) != Null then Tombstoned
      else Body(map c | c in sent :: ToWire(CellOf(row, c)))
  }

  /**
  The body of a request for the row stored under `k`: every column of the table
  but the key and the tombstone column, each saying what its cell says, and null
  for a cell that was never written.
  */
  ghost predicate TellsRow(s: Schema, k: Key, row: Row, fields: Fields) {
    && (forall c :: c in fields <==> c in s.cols(k.table) && c != s.pk(k.table) && c != "deletedAt")
    && (forall c <- fields :: if c in row then Carries(row[c], fields[c]) else fields[c] == WNull)
  }

  /** A column that a body would have to carry holds a blob. */
  ghost predicate HasBlob(s: Schema, k: Key, row: Row) {
    exists c :: c in row && c in s.cols(k.table) && c != s.pk(k.table) && c != "deletedAt" && row[c] == Blob
  }

  ghost predicate HasTombstone(row: Row) { "deletedAt" in row && row["deletedAt"] != Null }

  /** What reading a row comes to, told from the row alone. */
  lemma SnapshotIs(s: Schema, db: Db, k: Key)
    ensures var r := ReadSnapshot(s, db, k);
            && (r.Missing? <==> k !in db.rows)
            && (r.Unsupported? <==> k in db.rows && HasBlob(s, k, db.rows[k]))
            && (r.Tombstoned? <==> k in db.rows && !HasBlob(s, k, db.rows[k]) && HasTombstone(db.rows[k]))
            && (r.Body? <==> k in db.rows && !HasBlob(s, k, db.rows[k]) && !HasTombstone(db.rows[k]))
            && (r.Body? ==> TellsRow(s, k, db.rows[k], r.fields))
  {
    if k in db.rows {
      var row := db.rows[k];
      var sent := set c | c in s.cols(k.table) && c != s.pk(k.table) && c != DELETED_AT;
      assert HasBlob(s, k, row) <==> exists c <- sent :: CellOf(row, c).Blob? by {
        if HasBlob(s, k, row) {
          var c :| c in row && c in s.cols(k.table) && c != s.pk(k.table) && c != "deletedAt" && row[c] == Blob;
          assert c in sent && CellOf(row, c).Blob?;
        }
      }
    }
  }

  // ---- one item ---------------------------------------------------------------------------

  function LocalKey(t: Table, item: Pushable): Key {
    Key(t, item.localId.GetOr(item.entityId))
  }

  function RemoteFor(db: Db, t: Table, item: Pushable): Option<Id> {
    if item.localId.None? then None else RemoteIdOf(db.meta, LocalKey(t, item))
  }

  function FailItem(db: Db, lk: Key, id: nat): Db {
    db.(queue := MarkItem(db.queue, id, Failed), meta := MarkMetaFailed(db.meta, lk))
  }

  function BlockItem(db: Db, id: nat): Db {
    db.(queue := MarkItem(db.queue, id, Blocked))
  }

  function DropItem(db: Db, id: nat): Db {
    db.(queue := RemoveItem(db.queue, id))
  }

  datatype Plan = Settled(db: Db, verdict: Verdict) | Send(request: Request)

  function PlanDelete(db: Db, item: Pushable, remote: Option<Id>): Plan {
    match remote
    case None => Settled(DropItem(db, item.id), Dropped)
    case Some(id) => Send(Remove(id))
  }

  /** Everything up to the request: most of an item's fate is decided from the row as it is now. */
  function Prepare(s: Schema, db: Db, t: Table, item: Pushable): Plan {
    var remote := RemoteFor(db, t, item);
    if item.operation.Delete? then PlanDelete(db, item, remote)
    else
      match ReadSnapshot(s, db, Key(t, remote.GetOr(item.entityId)))
      case Unsupported => Settled(FailItem(db, LocalKey(t, item), item.id), Rejected)
      case Tombstoned => PlanDelete(db, item, remote)
      case Missing => Settled(DropItem(db, item.id), Dropped)
      case Body(fields) => Send(if remote.Some? then Patch(remote.value, fields) else Post(fields))
  }

  datatype Received = Received(db: Db, verdict: Verdict)

  predicate Accepted(outcome: Outcome) {
    outcome.Response? && 200 <= outcome.status < 300
  }

  /**
  The replace transaction: an exception in step 1 rolls back, one in step 2
  keeps what was done and blocks the item.
  */
  function Replace(s: Schema, db: Db, t: Table, item: Pushable, body: SyncApplier.Body): Received {
    match RecordRemoteSuccess(s, db.(locked := true), LocalKey(t, item), body)
    case None => Received(BlockItem(db, item.id), Stuck)
    case Some(r) =>
      var a := RewriteLocalRow(s, r.db, t, r.oldId, r.newId, body);
      var done := a.db.(locked := false);
      if a.ok then Received(DropItem(done, item.id), Replaced) else Received(BlockItem(done, item.id), Stuck)
  }

  /** Everything after the request. */
  function Receive(s: Schema, db: Db, t: Table, item: Pushable, request: Request, outcome: Outcome): Received {
    var lk := LocalKey(t, item);
    if outcome.NetworkError? then Received(db, Offline)
    else if !Accepted(outcome) then
      if outcome.status == 404 then
        if request.Remove? then Received(DropItem(db, item.id), RemotelyDeleted)
        else Received(BlockItem(db, item.id), Stuck)
      else Received(FailItem(db, lk, item.id), Rejected)
    else if request.Post? && outcome.body.NoObject? then Received(FailItem(db, lk, item.id), Rejected)
    else if request.Remove? then Received(DropItem(db, item.id), RemotelyDeleted)
    else Replace(s, db, t, item, outcome.body)
  }

  /**
  The fate of an item by the number of the status: a success is 200 to 299. A
  delete that succeeds, or finds nothing to delete, takes the item off; a create
  or patch that finds nothing is blocked; a create must come back with an object;
  what is left of the successes goes to the replace transaction; every other
  status is a failed attempt, to be tried again.
  */
  lemma FateByStatus(
      s: Schema, db: Db, t: Table, item: Pushable, request: Request, status: int, body: SyncApplier.Body)
    ensures
      var r := Receive(s, db, t, item, request, Response(status, body));
      var lk := LocalKey(t, item);
      match request
      case Remove(_) =>
        if 200 <= status <= 299 || status == 404 then r == Received(DropItem(db, item.id), RemotelyDeleted)
        else r == Received(FailItem(db, lk, item.id), Rejected)
      case Patch(_, _) =>
        if 200 <= status <= 299 then r == Replace(s, db, t, item, body)
        else if status == 404 then r == Received(BlockItem(db, item.id), Stuck)
        else r == Received(FailItem(db, lk, item.id), Rejected)
      case Post(_) =>
        if 200 <= status <= 299 && body.Object? then r == Replace(s, db, t, item, body)
        else if status == 404 then r == Received(BlockItem(db, item.id), Stuck)
        else r == Received(FailItem(db, lk, item.id), Rejected)
    ensures Receive(s, db, t, item, request, NetworkError) == Received(db, Offline)
  {
  }

  datatype ItemRun = ItemRun(db: Db, verdict: Verdict, log: seq<Sent>)

  function PushItem(s: Schema, db: Db, t: Table, item: Pushable, turn: Turn): ItemRun {
    var ready := ApplyWrites(s, db, turn.before);
    match Prepare(s, ready, t, item)
    case Settled(next, verdict) => ItemRun(next, verdict, [])
    case Send(request) =>
      var r := Receive(s, ApplyWrites(s, ready, turn.during), t, item, request, turn.outcome);
      ItemRun(r.db, r.verdict, [Sent(LocalKey(t, item).id, request, turn.outcome)])
  }

  // ---- a session ---------------------------------------------------------------------------

  datatype PushRun = PushRun(db: Db, log: seq<Sent>, verdicts: seq<Verdict>)

  function Count(vs: seq<Verdict>, v: Verdict): nat {
    if vs == [] then 0 else (if vs[0] == v then 1 else 0) + Count(vs[1..], v)
  }

  lemma {:induction false} CountAppend(a: seq<Verdict>, b: seq<Verdict>, v: Verdict)
    ensures Count(a + b, v) == Count(a, v) + Count(b, v)
  {
    if a == [] {
      assert a + b == b;
    } else {
      assert (a + b)[1..] == a[1..] + b;
      CountAppend(a[1..], b, v);
    }
  }

  /** Item after item until the network fails; a session cut short by the end of the process has fewer turns. */
  function PushItems(s: Schema, db: Db, t: Table, items: seq<Pushable>, turns: seq<Turn>): PushRun
    decreases |items|
  {
    if items == [] || turns == [] then PushRun(db, [], [])
    else
      var one := PushItem(s, db, t, items[0], turns[0]);
      if one.verdict.Offline? then PushRun(one.db, one.log, [Offline])
      else
        var rest := PushItems(s, one.db, t, items[1..], turns[1..]);
        PushRun(rest.db, one.log + rest.log, [one.verdict] + rest.verdicts)
  }

  function PushSession(s: Schema, db: Db, t: Table, turns: seq<Turn>): PushRun {
    PushItems(s, db, t, ReadPending(db, t, MAX_PUSH_ITEMS), turns)
  }
}
