/**
A replica without local writes: whatever was re-delivered or skipped on the way,
a session that saw the end of the list leaves its live rows equal to the server's.
*/
module SyncMirror {
  import opened Wrappers
  import opened SyncStore
  import opened SyncApplier
  import opened SyncServer
  import opened SyncPull
  import opened SyncCursor
  import Decimal

  /** The local table mirrors the server's: same key, the reserved columns, one of the two strategies. */
  ghost predicate Mirrors(s: Schema, t: Table) {
    && s.pk(t) == ID && UPDATED_AT in s.cols(t) && DELETED_AT in s.cols(t)
    && (s.conflict(t).strategy.ServerWins? ||
        (s.conflict(t).strategy.LastWriteWins? && s.conflict(t).field == UPDATED_AT))
  }

  function RowKey(t: Table, r: ServerRow): Key {
    Key(t, Decimal.DecimalText(r.id))
  }

  /** The columns every live row arrives with, as far as the local table has them. */
  function Shared(s: Schema, columns: set<Column>, t: Table): set<Column> {
    set c | c in columns + {UPDATED_AT, DELETED_AT} && c in s.cols(t) && c != s.pk(t)
  }

  ghost predicate Live(columns: set<Column>, r: ServerRow) {
    r.deletedAt.None? && r.data.Keys == columns && forall c <- r.data :: !r.data[c].WNested?
  }

  /** A live server row in local columns. */
  ghost function Image(s: Schema, columns: set<Column>, t: Table, r: ServerRow): Row
    requires Live(columns, r)
  {
    map c | c in Shared(s, columns, t) ::
      if c == UPDATED_AT then Num(r.updatedAt) else if c == DELETED_AT then Null
      else
        match r.data[c]
        case WNull => Null
        case WBool(b) => Flag(b)
        case WNum(n) => Num(n)
        case WText(text) => Text(text)
  }

  ghost predicate Reflects(s: Schema, columns: set<Column>, t: Table, rows: map<Key, Row>, r: ServerRow) {
    match r.deletedAt
    case None => Live(columns, r) && RowKey(t, r) in rows && rows[RowKey(t, r)] == Image(s, columns, t, r)
    case Some(at) => RowKey(t, r) in rows ==> CellOf(rows[RowKey(t, r)], DELETED_AT) == Num(at)
  }

  /** The local row is this or an earlier version of `r`. */
  ghost predicate Version(s: Schema, columns: set<Column>, t: Table, r: ServerRow, row: Row) {
    && row.Keys == Shared(s, columns, t)
    && CellOf(row, UPDATED_AT).Num? && CellOf(row, UPDATED_AT).n <= r.updatedAt
    && (CellOf(row, DELETED_AT) == Null || (r.deletedAt.Some? && CellOf(row, DELETED_AT) == Num(r.deletedAt.value)))
    && (Live(columns, r) && CellOf(row, UPDATED_AT).n == r.updatedAt ==> row == Image(s, columns, t, r))
  }

  ghost predicate Known(t: Table, sv: Server, k: Key) {
    exists i :: 0 <= i < |sv.rows| && RowKey(t, sv.rows[i]) == k
  }

  ghost predicate Replica(s: Schema, columns: set<Column>, t: Table, sv: Server, rows: map<Key, Row>) {
    && (forall k <- rows :: k.table == t ==> Known(t, sv, k))
    && (forall i | 0 <= i < |sv.rows| && RowKey(t, sv.rows[i]) in rows ::
          Version(s, columns, t, sv.rows[i], rows[RowKey(t, sv.rows[i])]))
  }

  ghost predicate ReflectsUpTo(
      s: Schema, columns: set<Column>, t: Table, sv: Server, rows: map<Key, Row>, cursor: int) {
    forall i | 0 <= i < |sv.rows| && ChangedAt(sv.rows[i]) <= cursor :: Reflects(s, columns, t, rows, sv.rows[i])
  }

  ghost predicate ReflectsAll(s: Schema, columns: set<Column>, t: Table, sv: Server, rows: map<Key, Row>) {
    forall i | 0 <= i < |sv.rows| :: Reflects(s, columns, t, rows, sv.rows[i])
  }

  ghost predicate MirrorSound(s: Schema, columns: set<Column>, t: Table, sv: Server, rows: map<Key, Row>, cursor: int) {
    && Mirrors(s, t) && ServerSound(columns, sv) && 0 <= cursor <= sv.lastTick
    && Replica(s, columns, t, sv, rows) && ReflectsUpTo(s, columns, t, sv, rows, cursor)
  }

  // ---- server writes -----------------------------------------------------------------------------------

  lemma SameKeySameId(t: Table, a: ServerRow, b: ServerRow)
    ensures RowKey(t, a) == RowKey(t, b) <==> a.id == b.id
  {
    if RowKey(t, a) == RowKey(t, b) {
      Decimal.DigitsInjective(a.id, b.id);
    }
  }

  lemma NewRowIsUnknown(columns: set<Column>, t: Table, sv: Server, r: ServerRow)
    requires ServerSound(columns, sv) && r.id == sv.nextId
    ensures !Known(t, sv, RowKey(t, r))
  {
    forall i | 0 <= i < |sv.rows| ensures RowKey(t, sv.rows[i]) != RowKey(t, r) {
      assert RowSound(columns, sv, sv.rows[i]);
      SameKeySameId(t, sv.rows[i], r);
    }
  }

  lemma ServeMirrors(
      s: Schema, columns: set<Column>, t: Table, sv: Server, op: ServerOp, rows: map<Key, Row>, cursor: int)
    requires MirrorSound(s, columns, t, sv, rows, cursor) && FlatOp(op)
    ensures MirrorSound(s, columns, t, Serve(columns, sv, op), rows, cursor)
  {
    var sv' := Serve(columns, sv, op);
    ServeKeeps(columns, sv, op);
    ServeVersions(s, columns, t, sv, op, rows);
    forall i | 0 <= i < |sv'.rows| && ChangedAt(sv'.rows[i]) <= cursor
      ensures Reflects(s, columns, t, rows, sv'.rows[i])
    {
      ServeChanges(columns, sv, op, sv'.rows[i]);
      var j :| 0 <= j < |sv.rows| && sv.rows[j] == sv'.rows[i];
    }
  }

  lemma ServeVersions(s: Schema, columns: set<Column>, t: Table, sv: Server, op: ServerOp, rows: map<Key, Row>)
    requires Mirrors(s, t) && ServerSound(columns, sv) && Replica(s, columns, t, sv, rows) && FlatOp(op)
    ensures Replica(s, columns, t, Serve(columns, sv, op), rows)
  {
    var sv' := Serve(columns, sv, op);
    forall k <- rows | k.table == t ensures Known(t, sv', k) {
      var i :| 0 <= i < |sv.rows| && RowKey(t, sv.rows[i]) == k;
      assert RowKey(t, sv'.rows[i]) == k;
    }
    forall i | 0 <= i < |sv'.rows| && RowKey(t, sv'.rows[i]) in rows
      ensures Version(s, columns, t, sv'.rows[i], rows[RowKey(t, sv'.rows[i])])
    {
      if i == |sv.rows| {
        NewRowIsUnknown(columns, t, sv, sv'.rows[i]);
      } else {
        assert RowSound(columns, sv, sv.rows[i]);
        assert Version(s, columns, t, sv.rows[i], rows[RowKey(t, sv.rows[i])]);
      }
    }
  }

  lemma {:induction false} ServeAllMirrors(
      s: Schema, columns: set<Column>, t: Table, sv: Server, ops: seq<ServerOp>, rows: map<Key, Row>, cursor: int)
    requires MirrorSound(s, columns, t, sv, rows, cursor) && FlatOps(ops)
    ensures MirrorSound(s, columns, t, ServeAll(columns, sv, ops), rows, cursor)
    decreases |ops|
  {
    if ops != [] {
      ServeMirrors(s, columns, t, sv, ops[0], rows, cursor);
      ServeAllMirrors(s, columns, t, Serve(columns, sv, ops[0]), ops[1..], rows, cursor);
    }
  }

  // ---- pulled rows ----------------------------------------------------------------------------------------

  /** The table after pulling the current version of `r`. */
  ghost function Pulled(s: Schema, columns: set<Column>, t: Table, rows: map<Key, Row>, r: ServerRow): map<Key, Row> {
    var k := RowKey(t, r);
    match r.deletedAt
    case Some(at) => if k in rows then rows[k := rows[k][DELETED_AT := Num(at)]] else rows
    case None => if Live(columns, r) then rows[k := Image(s, columns, t, r)] else rows
  }

  lemma LiveCells(s: Schema, columns: set<Column>, t: Table, r: ServerRow)
    requires Mirrors(s, t) && Live(columns, r) && ID !in columns && UPDATED_AT !in columns && DELETED_AT !in columns
    ensures LocalCells(s, t, Resource(r)) == Some(Image(s, columns, t, r))
    ensures PulledKey(s, t, Object(Resource(r))) == Some(RowKey(t, r))
  {
    var fields := Resource(r);
    var known := set c | c in fields && c in s.cols(t) && c != s.pk(t);
    assert known == Shared(s, columns, t);
    forall c <- known ensures !fields[c].WNested? && ToCell(fields[c]) == Image(s, columns, t, r)[c] {}
    assert (map c | c in known :: ToCell(fields[c])) == Image(s, columns, t, r);
  }

  lemma PullTombstone(s: Schema, columns: set<Column>, t: Table, sv: Server, db: Db, r: ServerRow, i: nat)
    requires Mirrors(s, t) && ServerSound(columns, sv) && i < |sv.rows| && sv.rows[i] == r && r.deletedAt.Some?
    requires Replica(s, columns, t, sv, db.rows) && db.locked && ApplyRow(s, db, t, Object(Resource(r))).Some?
    ensures ApplyRow(s, db, t, Object(Resource(r))).value.rows == Pulled(s, columns, t, db.rows, r)
  {
    var k := RowKey(t, r);
    var at := r.deletedAt.value;
    assert RowSound(columns, sv, r);
    assert Number(Resource(r), DELETED_AT) == Some(at);
    if k in db.rows {
      assert Version(s, columns, t, r, db.rows[k]);
      assert db.rows[k] + map[DELETED_AT := Num(at)] == db.rows[k][DELETED_AT := Num(at)];
    }
  }

  lemma AppliedLive(s: Schema, db: Db, t: Table, body: Body, k: Key, cells: Row)
    requires db.locked && ApplyRow(s, db, t, body).Some? && PulledKey(s, t, body) == Some(k)
    requires Number(body.fields, DELETED_AT).None? && LocalCells(s, t, body.fields) == Some(cells)
    ensures ApplyRow(s, db, t, body).value.rows ==
            if RowApplies(s, db, k, RemoteTime(s, t, body.fields))
            then db.rows[k := if k in db.rows then db.rows[k] + cells else cells] else db.rows
  {
  }

  lemma PullLive(s: Schema, columns: set<Column>, t: Table, sv: Server, db: Db, r: ServerRow, i: nat)
    requires Mirrors(s, t) && ServerSound(columns, sv) && i < |sv.rows| && sv.rows[i] == r && r.deletedAt.None?
    requires Replica(s, columns, t, sv, db.rows) && db.locked && ApplyRow(s, db, t, Object(Resource(r))).Some?
    ensures ApplyRow(s, db, t, Object(Resource(r))).value.rows == Pulled(s, columns, t, db.rows, r)
  {
    hide ApplyRow, LocalCells, PulledKey, ById;
    var k := RowKey(t, r);
    assert RowSound(columns, sv, r);
    LiveCells(s, columns, t, r);
    AppliedLive(s, db, t, Object(Resource(r)), k, Image(s, columns, t, r));
    assert Number(Resource(r), DELETED_AT).None? && Number(Resource(r), UPDATED_AT) == Some(r.updatedAt);
    if k in db.rows {
      assert Version(s, columns, t, r, db.rows[k]);
      assert db.rows[k] + Image(s, columns, t, r) == Image(s, columns, t, r);
      assert db.rows[k] == Image(s, columns, t, r) ==> db.rows[k := Image(s, columns, t, r)] == db.rows;
    }
  }

  ghost predicate Preserves(
      s: Schema, columns: set<Column>, t: Table, sv: Server, rows: map<Key, Row>, rows': map<Key, Row>) {
    forall i | 0 <= i < |sv.rows| && Reflects(s, columns, t, rows, sv.rows[i]) ::
      Reflects(s, columns, t, rows', sv.rows[i])
  }

  /** Pulling a current version reflects it and disturbs no other row. */
  lemma PulledKeeps(s: Schema, columns: set<Column>, t: Table, sv: Server, rows: map<Key, Row>, r: ServerRow, i: nat)
    requires Mirrors(s, t) && ServerSound(columns, sv) && i < |sv.rows| && sv.rows[i] == r
    requires Replica(s, columns, t, sv, rows)
    ensures var rows' := Pulled(s, columns, t, rows, r);
            && Replica(s, columns, t, sv, rows') && Reflects(s, columns, t, rows', r)
            && Preserves(s, columns, t, sv, rows, rows')
  {
    var rows' := Pulled(s, columns, t, rows, r);
    assert RowSound(columns, sv, r);
    forall j | 0 <= j < |sv.rows| ensures RowKey(t, sv.rows[j]) == RowKey(t, r) <==> j == i {
      SameKeySameId(t, sv.rows[j], r);
    }
    forall j | 0 <= j < |sv.rows| && RowKey(t, sv.rows[j]) in rows'
      ensures Version(s, columns, t, sv.rows[j], rows'[RowKey(t, sv.rows[j])])
    {
      if j != i {
        assert Version(s, columns, t, sv.rows[j], rows[RowKey(t, sv.rows[j])]);
      } else if r.deletedAt.Some? {
        assert Version(s, columns, t, r, rows[RowKey(t, r)]);
      }
    }
  }

  ghost predicate FromServer(sv: Server, page: seq<ServerRow>) {
    forall r <- page :: r in sv.rows
  }

  lemma PullMirrors(s: Schema, columns: set<Column>, t: Table, sv: Server, db: Db, r: ServerRow)
    requires Mirrors(s, t) && ServerSound(columns, sv) && Replica(s, columns, t, sv, db.rows) && db.locked
    requires r in sv.rows && ApplyRow(s, db, t, Object(Resource(r))).Some?
    ensures var next := ApplyRow(s, db, t, Object(Resource(r))).value;
            && next.locked && Replica(s, columns, t, sv, next.rows) && Reflects(s, columns, t, next.rows, r)
            && Preserves(s, columns, t, sv, db.rows, next.rows)
  {
    StaysLocked(s, db, t, Object(Resource(r)));
    hide ApplyRow, ServerSound, Mirrors, Replica, Reflects, Preserves;
    var i :| 0 <= i < |sv.rows| && sv.rows[i] == r;
    if r.deletedAt.Some? {
      PullTombstone(s, columns, t, sv, db, r, i);
    } else {
      PullLive(s, columns, t, sv, db, r, i);
    }
    PulledKeeps(s, columns, t, sv, db.rows, r, i);
  }

  lemma StaysLocked(s: Schema, db: Db, t: Table, body: Body)
    requires db.locked && ApplyRow(s, db, t, body).Some?
    ensures ApplyRow(s, db, t, body).value.locked
  {
  }

  /** Applying a page of current versions reflects all of them. */
  lemma {:induction false} PageMirrors(
      s: Schema, columns: set<Column>, t: Table, sv: Server, db: Db, page: seq<ServerRow>)
    requires Mirrors(s, t) && ServerSound(columns, sv) && Replica(s, columns, t, sv, db.rows) && db.locked
    requires FromServer(sv, page) && ApplyRows(s, db, t, WireAll(page)).Some?
    ensures var rows' := ApplyRows(s, db, t, WireAll(page)).value.rows;
            && Replica(s, columns, t, sv, rows') && Preserves(s, columns, t, sv, db.rows, rows')
            && (forall r <- page :: Reflects(s, columns, t, rows', r))
    decreases |page|
  {
    if page != [] {
      var r, rest := page[0], page[1..];
      assert r in page && FromServer(sv, rest);
      assert WireAll(page)[0] == Object(Resource(r)) && WireAll(page)[1..] == WireAll(rest);
      PullMirrors(s, columns, t, sv, db, r);
      PageMirrors(s, columns, t, sv, ApplyRow(s, db, t, Object(Resource(r))).value, rest);
      var i :| 0 <= i < |sv.rows| && sv.rows[i] == r;
      assert page == [r] + rest;
    }
  }

  // ---- sessions ----------------------------------------------------------------------------------------------

  /** No local writes, and faults only of the kind a session throws on. */
  ghost predicate ReplicaTurns(turns: seq<PullTurn>) {
    HonestTurns(turns) && forall i | 0 <= i < |turns| :: turns[i].writes == []
  }

  lemma ReplicaTail(turns: seq<PullTurn>)
    requires ReplicaTurns(turns) && turns != []
    ensures ReplicaTurns(turns[1..]) && HonestTurn(turns[0]) && turns[0].writes == []
  {
    var tail := turns[1..];
    forall i | 0 <= i < |tail| ensures HonestTurn(tail[i]) && tail[i].writes == [] {
      assert tail[i] == turns[i + 1] && HonestTurn(turns[i + 1]);
    }
    assert HonestTurn(turns[0]);
  }

  lemma {:induction false} FetchMirrors(s: Schema, columns: set<Column>, t: Table, sv: Server, db: Db, c: Paging,
                                        since: int, limit: nat, attempts: nat, turns: seq<PullTurn>)
    requires attempts > 0 && ReplicaTurns(turns) && MirrorSound(s, columns, t, sv, db.rows, since)
    ensures var f := Fetch(s, columns, sv, db, c, since, limit, attempts, turns);
            && f.db == db && MirrorSound(s, columns, t, f.server, db.rows, since) && ReplicaTurns(f.rest)
    decreases attempts
  {
    if turns != [] {
      ReplicaTail(turns);
      var sv' := ServeAll(columns, sv, turns[0].ops);
      ServeAllMirrors(s, columns, t, sv, turns[0].ops, db.rows, since);
      assert ApplyWrites(s, db, turns[0].writes) == db;
      FetchUnfolds(s, columns, sv, db, c, since, limit, attempts, turns);
      if attempts > 1 {
        FetchMirrors(s, columns, t, sv', db, c, since, Escalated(limit), attempts - 1, turns[1..]);
      }
    }
  }

  /** The last page came back shorter than the limit asked for. */
  predicate SawTheEnd(last: Option<Got>) {
    last.Some? && |last.value.page| < last.value.asked
  }

  /** Once a page is applied, all it listed is reflected, and everything when it was short. */
  lemma GotMirrors(s: Schema, columns: set<Column>, t: Table, sv: Server, db: Db, since: int, got: Got)
    requires MirrorSound(s, columns, t, sv, db.rows, since) && Honest(sv, since, got)
    requires ApplyPage(s, db, t, got.page).Some?
    ensures var rows' := ApplyPage(s, db, t, got.page).value.rows;
            && MirrorSound(s, columns, t, sv, rows', since)
            && (got.page != [] ==> got.candidate >= since && MirrorSound(s, columns, t, sv, rows', got.candidate))
            && (SawTheEnd(Some(got)) ==> ReflectsAll(s, columns, t, sv, rows'))
  {
    var page := List(sv, since, got.asked);
    ListIsPrefix(sv, since, got.asked);
    PageMirrors(s, columns, t, sv, db.(locked := true), page);
    var rows' := ApplyPage(s, db, t, got.page).value.rows;
    forall i | 0 <= i < |sv.rows| && (ChangedAt(sv.rows[i]) <= since || sv.rows[i] in page)
      ensures Reflects(s, columns, t, rows', sv.rows[i])
    {
    }
    if page != [] {
      var last := page[|page| - 1];
      assert last in page;
      assert exists j :: 0 <= j < |sv.rows| && sv.rows[j] == last;
      forall i | 0 <= i < |sv.rows| && since < ChangedAt(sv.rows[i]) <= got.candidate ensures sv.rows[i] in page {
        assert sv.rows[i] in sv.rows;
      }
    }
    if SawTheEnd(Some(got)) {
      forall i | 0 <= i < |sv.rows| && ChangedAt(sv.rows[i]) > since ensures sv.rows[i] in page {
        assert sv.rows[i] in sv.rows;
      }
    }
  }

  lemma ApplyNothing(s: Schema, db: Db, t: Table)
    ensures ApplyPage(s, db, t, []) == Some(db.(locked := false))
  {}

  lemma MirrorIsSound(s: Schema, columns: set<Column>, t: Table, sv: Server, rows: map<Key, Row>, since: int)
    requires MirrorSound(s, columns, t, sv, rows, since)
    ensures CursorSound(columns, sv, 0, {})
  {
    CursorSoundFromStart(columns, sv);
  }

  lemma {:induction false} PagesMirror(s: Schema, columns: set<Column>, t: Table, sv: Server, db: Db, c: Paging,
                                       since: int, left: nat, last: Option<Got>, turns: seq<PullTurn>)
    requires MirrorSound(s, columns, t, sv, db.rows, since) && c.pageSize > 0 && c.cursorField == UPDATED_AT
    requires ReplicaTurns(turns) && (SawTheEnd(last) ==> ReflectsAll(s, columns, t, sv, db.rows))
    ensures var run := Pages(s, columns, sv, db, t, c, since, left, last, turns);
            && MirrorSound(s, columns, t, run.server, run.db.rows, run.cursor)
            && (SawTheEnd(run.last) ==> ReflectsAll(s, columns, t, run.server, run.db.rows))
    decreases left
  {
    hide MirrorSound, ReflectsAll, Fetch, ApplyPage, Honest, CursorSound;
    if left > 0 {
      var f := Fetch(s, columns, sv, db, c, since, c.pageSize, MAX_ATTEMPTS, turns);
      FetchMirrors(s, columns, t, sv, db, c, since, c.pageSize, MAX_ATTEMPTS, turns);
      MirrorIsSound(s, columns, t, sv, db.rows, since);
      FetchHonest(s, columns, sv, db, c, since, c.pageSize, MAX_ATTEMPTS, turns);
      if f.got.Some? {
        var got := f.got.value;
        ApplyNothing(s, db, t);
        if ApplyPage(s, db, t, got.page).Some? {
          GotMirrors(s, columns, t, f.server, db, since, got);
          var next := ApplyPage(s, db, t, got.page).value;
          if got.page != [] && got.candidate > since && |got.page| >= c.pageSize {
            PagesMirror(s, columns, t, f.server, next, c, got.candidate, left - 1, f.got, f.rest);
          }
        }
      }
    }
  }

  ghost predicate ReplicaEvent(e: PullEvent) {
    match e
    case Served(op) => FlatOp(op)
    case Session(turns) => ReplicaTurns(turns)
  }

  lemma {:induction false} ReplicaForever(
      s: Schema, columns: set<Column>, t: Table, c: Paging, st: PullState, events: seq<PullEvent>)
    requires MirrorSound(s, columns, t, st.server, st.db.rows, st.cursor) && c.pageSize > 0
    requires c.cursorField == UPDATED_AT
    requires forall i | 0 <= i < |events| :: ReplicaEvent(events[i])
    ensures var end := PullSteps(s, columns, t, c, st, events);
            MirrorSound(s, columns, t, end.server, end.db.rows, end.cursor)
    decreases |events|
  {
    if events != [] {
      assert ReplicaEvent(events[0]);
      match events[0] {
        case Served(op) => ServeMirrors(s, columns, t, st.server, op, st.db.rows, st.cursor);
        case Session(turns) =>
          PagesMirror(s, columns, t, st.server, st.db, c, st.cursor, c.maxPages, None, turns);
      }
      ReplicaForever(s, columns, t, c, PullStep(s, columns, t, c, st, events[0]), events[1..]);
    }
  }

  /** The live rows of the table and of the server are the same rows. */
  ghost predicate SameLiveRows(s: Schema, columns: set<Column>, t: Table, sv: Server, rows: map<Key, Row>) {
    && (forall i | 0 <= i < |sv.rows| && sv.rows[i].deletedAt.None? ::
          Live(columns, sv.rows[i]) && RowKey(t, sv.rows[i]) in rows &&
          rows[RowKey(t, sv.rows[i])] == Image(s, columns, t, sv.rows[i]))
    && (forall k <- rows :: k.table == t && CellOf(rows[k], DELETED_AT) == Null ==>
          exists i :: 0 <= i < |sv.rows| && sv.rows[i].deletedAt.None? && RowKey(t, sv.rows[i]) == k)
  }

  lemma ReflectedIsSame(s: Schema, columns: set<Column>, t: Table, sv: Server, rows: map<Key, Row>)
    requires Replica(s, columns, t, sv, rows) && ReflectsAll(s, columns, t, sv, rows)
    ensures SameLiveRows(s, columns, t, sv, rows)
  {
    forall k <- rows | k.table == t && CellOf(rows[k], DELETED_AT) == Null
      ensures exists i :: 0 <= i < |sv.rows| && sv.rows[i].deletedAt.None? && RowKey(t, sv.rows[i]) == k
    {
      assert Known(t, sv, k);
      var i :| 0 <= i < |sv.rows| && RowKey(t, sv.rows[i]) == k;
      assert Reflects(s, columns, t, rows, sv.rows[i]);
    }
  }

  /**
  The mirror. A replica that started empty and never wrote: after any history of
  server writes and sessions, failed or cut short, one more session that ends in
  order on a page shorter than the limit it asked for leaves its live rows equal
  to the server's, under serverWins and lastWriteWins alike.
  */
  lemma SessionMirrors(s: Schema, columns: set<Column>, t: Table, c: Paging, sv: Server, db: Db,
                       history: seq<PullEvent>, turns: seq<PullTurn>)
    requires Mirrors(s, t) && ServerSound(columns, sv) && (forall k <- db.rows :: k.table != t)
    requires c.pageSize > 0 && c.cursorField == UPDATED_AT
    requires (forall i | 0 <= i < |history| :: ReplicaEvent(history[i])) && ReplicaTurns(turns)
    ensures var st := PullSteps(s, columns, t, c, PullState(sv, db, 0, {}), history);
            var run := PullSession(s, columns, st.server, st.db, t, c, st.cursor, turns);
            SawTheEnd(run.last) ==> SameLiveRows(s, columns, t, run.server, run.db.rows)
  {
    var start := PullState(sv, db, 0, {});
    forall i | 0 <= i < |sv.rows| ensures RowSound(columns, sv, sv.rows[i]) {}
    assert MirrorSound(s, columns, t, sv, db.rows, 0);
    ReplicaForever(s, columns, t, c, start, history);
    var st := PullSteps(s, columns, t, c, start, history);
    PagesMirror(s, columns, t, st.server, st.db, c, st.cursor, c.maxPages, None, turns);
    var run := PullSession(s, columns, st.server, st.db, t, c, st.cursor, turns);
    if SawTheEnd(run.last) {
      ReflectedIsSame(s, columns, t, run.server, run.db.rows);
    }
  }
}
