/**
The reference server's resource store: rows with a tick per write, soft deletes,
and a list ordered by the moment a row last changed.
*/
module SyncServer {
  import opened Wrappers
  import opened SyncStore
  import opened SyncApplier
  import Decimal

  const ID: Column := "id"
  const UPDATED_AT: Column := "updatedAt"

  datatype ServerRow = ServerRow(id: nat, data: Fields, updatedAt: int, deletedAt: Option<int>)

  /** `COALESCE("deletedAt", "updatedAt")`. */
  function ChangedAt(r: ServerRow): int { r.deletedAt.GetOr(r.updatedAt) }

  /** One table's rows in id order, and the tick all tables share. */
  datatype Server = Server(rows: seq<ServerRow>, lastTick: int, nextId: nat)

  const NEW_STORE := Server([], 0, 1)

  /** A write with the clock it found; Elsewhere is a write to another table. */
  datatype ServerOp =
    | Create(clock: int, fields: Fields)
    | Patch(clock: int, id: nat, fields: Fields)
    | Delete(clock: int, id: nat)
    | Elsewhere(clock: int)

  /** `GREATEST(clock, last_tick + 1)`: the earliest time later than every tick and not before the clock. */
  function NextTick(sv: Server, clock: int): (t: int)
    ensures t > sv.lastTick && t >= clock && (t == clock || t == sv.lastTick + 1)
  {
    if clock > sv.lastTick + 1 then clock else sv.lastTick + 1
  }

  function NewData(columns: set<Column>, fields: Fields): Fields {
    map c | c in columns :: if c in fields then fields[c] else WNull
  }

  function Patched(columns: set<Column>, data: Fields, fields: Fields): Fields {
    data + map c | c in columns && c in fields :: fields[c]
  }

  function UpdateWhere(
      rows: seq<ServerRow>, columns: set<Column>, id: nat, fields: Fields, tick: int): (r: seq<ServerRow>)
    ensures |r| == |rows|
    ensures forall i | 0 <= i < |rows| ::
              r[i] == if rows[i].id == id && rows[i].deletedAt.None?
                      then rows[i].(data := Patched(columns, rows[i].data, fields), updatedAt := tick) else rows[i]
  {
    seq(|rows|, i requires 0 <= i < |rows| =>
      if rows[i].id == id && rows[i].deletedAt.None?
      then rows[i].(data := Patched(columns, rows[i].data, fields), updatedAt := tick) else rows[i])
  }

  function DeleteWhere(rows: seq<ServerRow>, id: nat, tick: int): (r: seq<ServerRow>)
    ensures |r| == |rows|
    ensures forall i | 0 <= i < |rows| ::
              r[i] == if rows[i].id == id && rows[i].deletedAt.None? then rows[i].(deletedAt := Some(tick)) else rows[i]
  {
    seq(|rows|, i requires 0 <= i < |rows| =>
      if rows[i].id == id && rows[i].deletedAt.None? then rows[i].(deletedAt := Some(tick)) else rows[i])
  }

  /** The tick advances whether or not a row matches: it is taken in a CTE of its own. */
  function Serve(columns: set<Column>, sv: Server, op: ServerOp): Server {
    var tick := NextTick(sv, op.clock);
    match op
    case Create(_, fields) =>
      Server(sv.rows + [ServerRow(sv.nextId, NewData(columns, fields), tick, None)], tick, sv.nextId + 1)
    case Patch(_, id, fields) => sv.(rows := UpdateWhere(sv.rows, columns, id, fields, tick), lastTick := tick)
    case Delete(_, id) => sv.(rows := DeleteWhere(sv.rows, id, tick), lastTick := tick)
    case Elsewhere(_) => sv.(lastTick := tick)
  }

  function ServeAll(columns: set<Column>, sv: Server, ops: seq<ServerOp>): Server
    decreases |ops|
  {
    if ops == [] then sv else ServeAll(columns, Serve(columns, sv, ops[0]), ops[1..])
  }

  // ---- listing ---------------------------------------------------------------------------------

  function Above(rows: seq<ServerRow>, since: int): seq<ServerRow> {
    if rows == [] then []
    else (if ChangedAt(rows[0]) > since then [rows[0]] else []) + Above(rows[1..], since)
  }

  /** Inserts before the first row that did not change earlier. */
  function InsertByChange(r: ServerRow, sorted: seq<ServerRow>): seq<ServerRow> {
    if sorted == [] || ChangedAt(r) <= ChangedAt(sorted[0]) then [r] + sorted
    else [sorted[0]] + InsertByChange(r, sorted[1..])
  }

  function SortByChange(rows: seq<ServerRow>): seq<ServerRow> {
    if rows == [] then [] else InsertByChange(rows[0], SortByChange(rows[1..]))
  }

  function Take<T>(xs: seq<T>, n: nat): seq<T> {
    if |xs| <= n then xs else xs[..n]
  }

  /** `WHERE .. > since ORDER BY .. ASC, "id" ASC LIMIT limit` over rows kept in id order. */
  function List(sv: Server, since: int, limit: nat): seq<ServerRow> {
    Take(SortByChange(Above(sv.rows, since)), limit)
  }

  /** A row as it travels: a tombstone is its id and the time of the delete. */
  function Resource(r: ServerRow): Fields {
    match r.deletedAt
    case Some(at) => map[ID := WNum(r.id), DELETED_AT := WNum(at)]
    case None => r.data + map[ID := WNum(r.id), UPDATED_AT := WNum(r.updatedAt), DELETED_AT := WNull]
  }

  function WireAll(rows: seq<ServerRow>): (r: seq<Body>)
    ensures |r| == |rows|
    ensures forall i | 0 <= i < |rows| :: r[i] == Object(Resource(rows[i]))
  {
    seq(|rows|, i requires 0 <= i < |rows| => Object(Resource(rows[i])))
  }

  // ---- properties of the list ----------------------------------------------------------------------

  ghost predicate Ascending(rows: seq<ServerRow>) {
    forall i, j | 0 <= i < j < |rows| :: ChangedAt(rows[i]) <= ChangedAt(rows[j])
  }

  ghost predicate ById(rows: seq<ServerRow>) {
    forall i, j | 0 <= i < j < |rows| :: rows[i].id < rows[j].id
  }

  /** Ordered by change, and by id among rows that changed at the same time. */
  ghost predicate Listed(rows: seq<ServerRow>) {
    forall i, j | 0 <= i < j < |rows| ::
      ChangedAt(rows[i]) < ChangedAt(rows[j]) || (ChangedAt(rows[i]) == ChangedAt(rows[j]) && rows[i].id < rows[j].id)
  }

  lemma {:induction false} AboveMembers(rows: seq<ServerRow>, since: int, r: ServerRow)
    ensures r in Above(rows, since) <==> r in rows && ChangedAt(r) > since
  {
    if rows != [] {
      AboveMembers(rows[1..], since, r);
      assert rows == [rows[0]] + rows[1..];
    }
  }

  lemma {:induction false} InsertMembers(r: ServerRow, sorted: seq<ServerRow>, x: ServerRow)
    ensures x in InsertByChange(r, sorted) <==> x == r || x in sorted
  {
    if sorted != [] && ChangedAt(r) > ChangedAt(sorted[0]) {
      InsertMembers(r, sorted[1..], x);
      assert sorted == [sorted[0]] + sorted[1..];
    }
  }

  lemma {:induction false} SortMembers(rows: seq<ServerRow>, x: ServerRow)
    ensures x in SortByChange(rows) <==> x in rows
  {
    if rows != [] {
      SortMembers(rows[1..], x);
      InsertMembers(rows[0], SortByChange(rows[1..]), x);
      assert rows == [rows[0]] + rows[1..];
    }
  }

  lemma {:induction false} InsertListed(r: ServerRow, sorted: seq<ServerRow>)
    requires Listed(sorted) && forall x <- sorted :: r.id < x.id
    ensures Listed(InsertByChange(r, sorted))
  {
    if sorted != [] && ChangedAt(r) > ChangedAt(sorted[0]) {
      InsertListed(r, sorted[1..]);
      var rest := InsertByChange(r, sorted[1..]);
      forall j | 0 <= j < |rest|
        ensures ChangedAt(sorted[0]) < ChangedAt(rest[j]) ||
                (ChangedAt(sorted[0]) == ChangedAt(rest[j]) && sorted[0].id < rest[j].id)
      {
        InsertMembers(r, sorted[1..], rest[j]);
      }
    }
  }

  lemma {:induction false} SortListed(rows: seq<ServerRow>)
    requires ById(rows)
    ensures Listed(SortByChange(rows))
  {
    if rows != [] {
      SortListed(rows[1..]);
      forall x <- SortByChange(rows[1..]) ensures rows[0].id < x.id {
        SortMembers(rows[1..], x);
      }
      InsertListed(rows[0], SortByChange(rows[1..]));
    }
  }

  lemma {:induction false} AboveById(rows: seq<ServerRow>, since: int)
    requires ById(rows)
    ensures ById(Above(rows, since))
  {
    if rows != [] {
      AboveById(rows[1..], since);
      forall x <- Above(rows[1..], since) ensures rows[0].id < x.id {
        AboveMembers(rows[1..], since, x);
      }
    }
  }

  /**
  A page is a prefix of the changes: ordered, all later than `since`, and a
  change it leaves out came no earlier than its last row, on a full page only.
  */
  lemma ListIsPrefix(sv: Server, since: int, limit: nat)
    requires ById(sv.rows)
    ensures var page := List(sv, since, limit);
            && |page| <= limit && Listed(page)
            && (forall r <- page :: r in sv.rows && ChangedAt(r) > since)
            && (forall r <- sv.rows :: ChangedAt(r) > since && r !in page ==>
                  |page| == limit && forall x <- page :: ChangedAt(x) <= ChangedAt(r))
  {
    hide SortByChange, Above, Listed;
    var all := SortByChange(Above(sv.rows, since));
    AboveById(sv.rows, since);
    SortListed(Above(sv.rows, since));
    PrefixListed(all, limit);
    forall r ensures r in all <==> r in sv.rows && ChangedAt(r) > since {
      SortMembers(Above(sv.rows, since), r);
      AboveMembers(sv.rows, since, r);
    }
    hide ChangedAt;
    forall r <- sv.rows | ChangedAt(r) > since && r !in Take(all, limit)
      ensures |Take(all, limit)| == limit && forall x <- Take(all, limit) :: ChangedAt(x) <= ChangedAt(r)
    {
      LeftOutComesLater(all, limit, r);
    }
  }

  lemma PrefixListed(all: seq<ServerRow>, limit: nat)
    requires Listed(all)
    ensures Listed(Take(all, limit)) && |Take(all, limit)| <= limit && forall r <- Take(all, limit) :: r in all
  {}

  lemma LeftOutComesLater(all: seq<ServerRow>, limit: nat, r: ServerRow)
    requires Listed(all) && r in all && r !in Take(all, limit)
    ensures |Take(all, limit)| == limit && forall x <- Take(all, limit) :: ChangedAt(x) <= ChangedAt(r)
  {
    var j :| 0 <= j < |all| && all[j] == r;
    forall k | 0 <= k < |Take(all, limit)| ensures all[k] != r {
      assert Take(all, limit)[k] in Take(all, limit);
    }
    assert j >= |Take(all, limit)|;
  }

  // ---- what every write keeps --------------------------------------------------------------------------

  ghost predicate RowSound(columns: set<Column>, sv: Server, r: ServerRow) {
    && r.id < sv.nextId && r.data.Keys == columns && (forall c <- r.data :: !r.data[c].WNested?)
    && 1 <= r.updatedAt <= sv.lastTick
    && (r.deletedAt.Some? ==> r.updatedAt < r.deletedAt.value <= sv.lastTick)
  }

  ghost predicate ServerSound(columns: set<Column>, sv: Server) {
    && sv.lastTick >= 0 && ById(sv.rows) && ID !in columns && UPDATED_AT !in columns && DELETED_AT !in columns
    && forall i | 0 <= i < |sv.rows| :: RowSound(columns, sv, sv.rows[i])
  }

  /** Column values are scalars. */
  ghost predicate FlatOp(op: ServerOp) {
    (op.Create? || op.Patch?) ==> forall c <- op.fields :: !op.fields[c].WNested?
  }

  ghost predicate FlatOps(ops: seq<ServerOp>) {
    forall op <- ops :: FlatOp(op)
  }

  lemma ServeKeeps(columns: set<Column>, sv: Server, op: ServerOp)
    requires ServerSound(columns, sv) && FlatOp(op)
    ensures ServerSound(columns, Serve(columns, sv, op)) && Serve(columns, sv, op).lastTick > sv.lastTick
  {
    var sv' := Serve(columns, sv, op);
    forall i | 0 <= i < |sv'.rows| ensures RowSound(columns, sv', sv'.rows[i]) {
      assert i < |sv.rows| ==> RowSound(columns, sv, sv.rows[i]);
    }
  }

  /** A write changes at most one version, and the version it makes is later than every tick before. */
  lemma ServeChanges(columns: set<Column>, sv: Server, op: ServerOp, r: ServerRow)
    requires r in Serve(columns, sv, op).rows
    ensures r in sv.rows || ChangedAt(r) > sv.lastTick
  {
  }

  /** No two rows changed at the same moment. */
  ghost predicate Untied(rows: seq<ServerRow>) {
    forall i, j | 0 <= i < j < |rows| :: ChangedAt(rows[i]) != ChangedAt(rows[j])
  }

  /** Every write has a tick of its own, and changes one row at most. */
  lemma ServeUntied(columns: set<Column>, sv: Server, op: ServerOp)
    requires ServerSound(columns, sv) && Untied(sv.rows)
    ensures Untied(Serve(columns, sv, op).rows)
  {
    var rows := Serve(columns, sv, op).rows;
    forall i | 0 <= i < |sv.rows| ensures ChangedAt(sv.rows[i]) <= sv.lastTick {
      assert RowSound(columns, sv, sv.rows[i]);
    }
    forall i, j | 0 <= i < j < |rows| ensures ChangedAt(rows[i]) != ChangedAt(rows[j]) {
      if j < |sv.rows| {
        assert sv.rows[i].id != sv.rows[j].id;
      }
    }
  }

  lemma {:induction false} ServeAllUntied(columns: set<Column>, sv: Server, ops: seq<ServerOp>)
    requires ServerSound(columns, sv) && Untied(sv.rows) && FlatOps(ops)
    ensures ServerSound(columns, ServeAll(columns, sv, ops)) && Untied(ServeAll(columns, sv, ops).rows)
    decreases |ops|
  {
    hide ServerSound, Untied, Serve;
    if ops != [] {
      assert ops[0] in ops;
      ServeKeeps(columns, sv, ops[0]);
      ServeUntied(columns, sv, ops[0]);
      ServeAllUntied(columns, Serve(columns, sv, ops[0]), ops[1..]);
    }
  }

  // ---- the store ---------------------------------------------------------------------------------------

  ghost predicate HasLive(rows: seq<ServerRow>, id: nat) {
    exists i :: 0 <= i < |rows| && rows[i].id == id && rows[i].deletedAt.None?
  }

  /** A tombstone is its id and the time of the delete; a live row has all its columns, and no time of delete. */
  ghost predicate Describes(body: Body, r: ServerRow) {
    && body.Object? && "id" in body.fields && body.fields["id"] == WNum(r.id)
    && "deletedAt" in body.fields
    && (r.deletedAt.Some? ==>
          body.fields["deletedAt"] == WNum(r.deletedAt.value) && body.fields.Keys == {"id", "deletedAt"})
    && (r.deletedAt.None? ==>
          && body.fields["deletedAt"] == WNull
          && "updatedAt" in body.fields && body.fields["updatedAt"] == WNum(r.updatedAt)
          && body.fields.Keys == r.data.Keys + {"id", "updatedAt", "deletedAt"}
          && forall c <- r.data :: c !in {"id", "updatedAt", "deletedAt"} ==> body.fields[c] == r.data[c])
  }

  /** `PostgresResourceStore`: one table and the tick state, updated in place. */
  class ResourceStore {
    const columns: set<Column>
    var rows: seq<ServerRow>
    var lastTick: int
    var nextId: nat

    constructor (columns: set<Column>)
      ensures this.columns == columns && View() == Server([], 0, 1)
    {
      this.columns := columns;
      rows, lastTick, nextId := [], 0, 1;
    }

    function View(): Server
      reads this
    {
      Server(rows, lastTick, nextId)
    }

    /** A tick later than every one before and not before the clock: the clock itself if it is that late. */
    method AllocateTick(clock: int) returns (tick: int)
      modifies this`lastTick
      ensures tick == NextTick(old(View()), clock) && View() == old(View()).(lastTick := tick)
      ensures tick > old(lastTick) && tick >= clock && (tick == clock || tick == old(lastTick) + 1)
    {
      tick := if clock > lastTick + 1 then clock else lastTick + 1;
      lastTick := tick;
    }

    method Create(clock: int, fields: Fields) returns (row: ServerRow)
      modifies this
      ensures View() == Serve(columns, old(View()), ServerOp.Create(clock, fields))
      ensures rows == old(rows) + [row] && row.updatedAt == lastTick && row.deletedAt.None?
    {
      var tick := AllocateTick(clock);
      row := ServerRow(nextId, NewData(columns, fields), tick, None);
      rows, nextId := rows + [row], nextId + 1;
    }

    /** The patched row, or None when there is no live row to patch. */
    method Update(clock: int, id: nat, fields: Fields) returns (row: Option<ServerRow>)
      modifies this
      ensures View() == Serve(columns, old(View()), ServerOp.Patch(clock, id, fields))
      ensures row.Some? <==> HasLive(old(rows), id)
      ensures row.Some? ==>
        && row.value in rows && row.value.id == id && row.value.updatedAt == lastTick
        && row.value.deletedAt.None?
    {
      var tick := AllocateTick(clock);
      ghost var was := rows;
      rows := UpdateWhere(rows, columns, id, fields, tick);
      if i :| 0 <= i < |rows| && rows[i].id == id && rows[i].deletedAt.None? {
        assert was[i].id == id && was[i].deletedAt.None?;
        row := Some(rows[i]);
      } else {
        forall i | 0 <= i < |was| && was[i].id == id ensures was[i].deletedAt.Some? {
          assert rows[i].id == id;
        }
        row := None;
      }
    }

    /** Whether a live row was there to delete. */
    method Remove(clock: int, id: nat) returns (removed: bool)
      modifies this
      ensures View() == Serve(columns, old(View()), ServerOp.Delete(clock, id))
      ensures removed <==> HasLive(old(rows), id)
    {
      var tick := AllocateTick(clock);
      removed := exists i :: 0 <= i < |rows| && rows[i].id == id && rows[i].deletedAt.None?;
      rows := DeleteWhere(rows, id, tick);
    }

    /**
    The page of changes after `since`, as resources: in the order they happened,
    all of them unless the page is full, with the id and the time of the delete
    as the whole of a tombstone.
    */
    method ListPage(since: int, limit: nat) returns (page: seq<Body>)
      ensures page == WireAll(List(View(), since, limit)) && |page| <= limit
      ensures ById(rows) ==>
        var listed := List(View(), since, limit);
        && Listed(listed) && (forall r <- listed :: r in rows && ChangedAt(r) > since)
        && (forall r <- rows :: ChangedAt(r) > since && r !in listed ==>
              |page| == limit && forall x <- listed :: ChangedAt(x) <= ChangedAt(r))
      ensures forall i | 0 <= i < |page| :: Describes(page[i], List(View(), since, limit)[i])
    {
      page := WireAll(List(View(), since, limit));
      if ById(rows) {
        ListIsPrefix(View(), since, limit);
      }
    }

    method ServeEach(ops: seq<ServerOp>)
      modifies this
      ensures View() == ServeAll(columns, old(View()), ops)
    {
      var i := 0;
      while i < |ops|
        invariant 0 <= i <= |ops|
        invariant ServeAll(columns, View(), ops[i..]) == ServeAll(columns, old(View()), ops)
      {
        assert ops[i..][1..] == ops[i + 1..];
        match ops[i] {
          case Create(clock, fields) => var _ := Create(clock, fields);
          case Patch(clock, id, fields) => var _ := Update(clock, id, fields);
          case Delete(clock, id) => var _ := Remove(clock, id);
          case Elsewhere(clock) => var _ := AllocateTick(clock);
        }
        i := i + 1;
      }
    }
  }
}
