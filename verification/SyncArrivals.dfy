/**
What a pulled row does to the client database, told from the answer, the rows
and the metadata alone; and what a replica holds of the rows that were delivered
to it under clientWins.
*/
module SyncArrivals {
  import opened Wrappers
  import opened SyncStore
  import opened SyncApplier
  import opened SyncRuns
  import opened SyncRows
  import opened SyncServer
  import opened SyncPull
  import opened SyncCursor
  import opened SyncMirror
  import opened SyncConflicts
  import Decimal

  // ---- one row ------------------------------------------------------------------------------

  /** The answer is about the row `id`: its key is this text, or a number this text prints. */
  ghost predicate IsAbout(s: Schema, t: Table, body: Body, id: Id) {
    && body.Object? && s.pk(t) in body.fields
    && (body.fields[s.pk(t)] == WText(id) ||
        exists n :: body.fields[s.pk(t)] == WNum(n) && id == Decimal.DecimalText(n))
  }

  /** It carries the time of a deletion. */
  ghost predicate IsGrave(fields: Fields, at: int) { "deletedAt" in fields && fields["deletedAt"] == WNum(at) }

  ghost predicate IsLive(fields: Fields) { forall at :: !IsGrave(fields, at) }

  /** The cells are the answer's columns that the table has, without its key, each as the answer says it. */
  ghost predicate Tells(s: Schema, t: Table, fields: Fields, cells: Row) {
    && (forall c :: c in cells <==> c in fields && c in s.cols(t) && c != s.pk(t))
    && (forall c <- cells :: Carries(cells[c], fields[c]))
  }

  /** A number in the compared column of the answer, and zero when it has none. */
  ghost predicate Claims(s: Schema, t: Table, fields: Fields, time: int) {
    var field := s.conflict(t).field;
    if field in fields && fields[field].WNum? then fields[field] == WNum(time) else time == 0
  }

  /** The stored row holds a number in the compared column that `time` does not exceed. */
  ghost predicate Holds(s: Schema, t: Table, row: Row, time: int) {
    exists mine :: s.conflict(t).field in row && row[s.conflict(t).field] == Num(mine) && time <= mine
  }

  /** What the metadata says of a row that was pulled. */
  ghost predicate Marked(ms: seq<Meta>, k: Key, status: MetaStatus) {
    exists i :: 0 <= i < |ms| && ms[i].table == k.table && ms[i].entityId == k.id && ms[i].remoteId == Some(k.id) &&
                ms[i].status == status
  }

  lemma AboutIsKey(s: Schema, t: Table, body: Body, id: Id)
    ensures PulledKey(s, t, body) == Some(Key(t, id)) <==> IsAbout(s, t, body, id)
  {
  }

  lemma LiveHasNoTime(fields: Fields)
    ensures Number(fields, DELETED_AT).None? <==> IsLive(fields)
  {
    if Number(fields, DELETED_AT).Some? {
      assert IsGrave(fields, fields[DELETED_AT].n);
    }
  }

  lemma TellsIsCells(s: Schema, t: Table, fields: Fields, cells: Row)
    ensures LocalCells(s, t, fields) == Some(cells) <==> Tells(s, t, fields, cells)
  {
    LocalCellsCarry(s, t, fields);
    if Tells(s, t, fields, cells) {
      forall c <- fields | c in s.cols(t) && c != s.pk(t) ensures !fields[c].WNested? {
        assert c in cells;
      }
      assert LocalCells(s, t, fields).value == cells;
    }
  }

  lemma MarkedPulled(ms: seq<Meta>, k: Key, status: MetaStatus)
    ensures Marked(MarkPulledSynced(ms, k, status), k, status)
  {
    var ms' := MarkPulledSynced(ms, k, status);
    var i := FindEntity(ms, k).GetOr(FindLocal(ms, k).GetOr(|ms|));
    assert ms'[i].entityId == k.id;
  }

  /**
  A live row whose key is not stored: under every strategy the tables decide, and
  if they accept it the row is stored with exactly the answer's cells, and its
  metadata says that it is the server's and in step.
  */
  lemma NewRowIsStored(s: Schema, db: Db, k: Key, body: Body, cells: Row)
    requires db.locked && k !in db.rows && IsAbout(s, k.table, body, k.id) && IsLive(body.fields)
    requires Tells(s, k.table, body.fields, cells)
    ensures var r := ApplyRow(s, db, k.table, body);
            && (r.Some? <==> s.constraints(db.rows[k := cells]))
            && (r.Some? ==> r.value.rows == db.rows[k := cells] && r.value.queue == db.queue &&
                            Marked(r.value.meta, k, Synced))
  {
    AboutIsKey(s, k.table, body, k.id);
    TellsIsCells(s, k.table, body.fields, cells);
    LiveHasNoTime(body.fields);
    MarkedPulled(db.meta, k, Synced);
  }

  /** The strategy lets an answer of this time change the stored row. */
  ghost predicate Yields(s: Schema, t: Table, row: Row, time: int) {
    match s.conflict(t).strategy
    case ServerWins => true
    case ClientWins => false
    case LastWriteWins => !Holds(s, t, row, time)
  }

  /**
  A live row whose key is stored: the answer's cells are written over it if the
  strategy yields, and nothing at all happens if it does not.
  */
  lemma StoredRowIsUpdated(s: Schema, db: Db, k: Key, body: Body, cells: Row, time: int)
    requires db.locked && k in db.rows && IsAbout(s, k.table, body, k.id) && IsLive(body.fields)
    requires Tells(s, k.table, body.fields, cells) && Claims(s, k.table, body.fields, time)
    ensures var r, after := ApplyRow(s, db, k.table, body), db.rows[k := db.rows[k] + cells];
            if !Yields(s, k.table, db.rows[k], time) then r == Some(db)
            else
              && (r.Some? <==> s.constraints(after))
              && (r.Some? ==> r.value.rows == after && r.value.queue == db.queue && Marked(r.value.meta, k, Synced))
  {
    AboutIsKey(s, k.table, body, k.id);
    TellsIsCells(s, k.table, body.fields, cells);
    LiveHasNoTime(body.fields);
    assert RemoteTime(s, k.table, body.fields) == time;
    HoldsIsOlder(s, db, k, time);
    MarkedPulled(db.meta, k, Synced);
  }

  lemma HoldsIsOlder(s: Schema, db: Db, k: Key, time: int)
    requires k in db.rows
    ensures Newer(s, db, k, time) <==> !Holds(s, k.table, db.rows[k], time)
  {
    var field := s.conflict(k.table).field;
    if !Newer(s, db, k, time) {
      assert db.rows[k][field] == Num(LocalTime(s, db, k).value);
    }
  }

  /**
  A tombstone: a stored row gets the time of the deletion if the strategy yields
  to that time; otherwise, and for a row that is not stored, nothing happens.
  */
  lemma GraveIsMarked(s: Schema, db: Db, k: Key, body: Body, at: int)
    requires db.locked && IsAbout(s, k.table, body, k.id) && IsGrave(body.fields, at)
    ensures
      var r := ApplyRow(s, db, k.table, body);
      if k !in db.rows || !Yields(s, k.table, db.rows[k], at) then r == Some(db)
      else
        var after := db.rows[k := db.rows[k]["deletedAt" := Num(at)]];
        && (r.Some? <==> s.constraints(after))
        && (r.Some? ==> r.value.rows == after && r.value.queue == db.queue && Marked(r.value.meta, k, Deleted))
  {
    AboutIsKey(s, k.table, body, k.id);
    assert Number(body.fields, DELETED_AT) == Some(at);
    if k in db.rows {
      HoldsIsOlder(s, db, k, at);
      assert db.rows[k] + map[DELETED_AT := Num(at)] == db.rows[k]["deletedAt" := Num(at)];
    }
    MarkedPulled(db.meta, k, Deleted);
  }

  /** An answer that is about no row throws. */
  lemma StrangerThrows(s: Schema, db: Db, t: Table, body: Body)
    requires forall id :: !IsAbout(s, t, body, id)
    ensures ApplyRow(s, db, t, body).None?
  {
    if PulledKey(s, t, body).Some? {
      AboutIsKey(s, t, body, PulledKey(s, t, body).value.id);
    }
  }

  /** So does a live one that would be written, but has an array or object in a column of the table. */
  lemma UnreadableRowThrows(s: Schema, db: Db, k: Key, body: Body, time: int)
    requires IsAbout(s, k.table, body, k.id) && IsLive(body.fields) && Claims(s, k.table, body.fields, time)
    requires k in db.rows ==> Yields(s, k.table, db.rows[k], time)
    requires exists c :: c in body.fields && c in s.cols(k.table) && c != s.pk(k.table) && body.fields[c] == WNested
    ensures ApplyRow(s, db, k.table, body).None?
  {
    AboutIsKey(s, k.table, body, k.id);
    LiveHasNoTime(body.fields);
    LocalCellsCarry(s, k.table, body.fields);
    assert RemoteTime(s, k.table, body.fields) == time;
    if k in db.rows {
      HoldsIsOlder(s, db, k, time);
    }
  }

  // ---- one answer to a list request ---------------------------------------------------------------------

  /** The cursor a page's last row proposes: a millisecond before its deletion, or before its change. */
  ghost predicate Proposes(last: Body, field: Column, at: int) {
    last.Object? &&
    (IsGrave(last.fields, at + 1) ||
     (IsLive(last.fields) && field in last.fields && last.fields[field] == WNum(at + 1)))
  }

  lemma CandidateIs(last: Body, field: Column)
    ensures forall at :: Proposes(last, field, at) <==> CandidateCursor(last, field) == Some(at)
  {
    if last.Object? {
      LiveHasNoTime(last.fields);
      forall at ensures Proposes(last, field, at) <==> CandidateCursor(last, field) == Some(at) {
        assert IsGrave(last.fields, at + 1) <==> Number(last.fields, DELETED_AT) == Some(at + 1);
      }
    }
  }

  /**
  What an answer does to a session, whoever gave it: a network error, a status
  outside 200 to 299, a body that is no array and a last row without a time end
  it; an empty page is the end of the list; a page is taken unless it is full and
  would not move the cursor, when the question is put again, up to three times.
  */
  lemma AnswerIsTaken(
      s: Schema, columns: set<Column>, sv: Server, db: Db, c: Paging, since: int, limit: nat, attempts: nat,
      turns: seq<PullTurn>, outcome: ListOutcome)
    requires attempts > 0 && turns != [] && turns[0].fault == Some(outcome)
    ensures
      var f := Fetch(s, columns, sv, db, c, since, limit, attempts, turns);
      if outcome.ListNetworkError? || outcome.status < 200 || outcome.status > 299 || outcome.rows.None? then
        f.got.None?
      else if outcome.rows.value == [] then f.got == Some(Got([], limit, since))
      else
        var page := outcome.rows.value;
        var last := page[|page| - 1];
        && ((forall at :: !Proposes(last, c.cursorField, at)) ==> f.got.None?)
        && (forall at :: Proposes(last, c.cursorField, at) ==>
              if at <= since && |page| == limit && attempts > 1
              then f == Fetch(s, columns, ServeAll(columns, sv, turns[0].ops), ApplyWrites(s, db, turns[0].writes), c,
                              since, if limit < 250 then limit * 8 else 2000, attempts - 1, turns[1..])
              else f.got == Some(Got(page, limit, at)))
  {
    if outcome.ListAnswer? && outcome.rows.Some? && outcome.rows.value != [] {
      CandidateIs(outcome.rows.value[|outcome.rows.value| - 1], c.cursorField);
    }
  }

  /** The reference server answers a list with 200 and its rows, each described by the columns its state calls for. */
  lemma ServerAnswers(sv: Server, since: int, limit: nat, turn: PullTurn)
    requires turn.fault.None?
    ensures
      var a := Answer(sv, since, limit, turn);
      && a.ListAnswer? && a.status == 200 && a.rows.Some? && |a.rows.value| == |List(sv, since, limit)|
      && forall i | 0 <= i < |a.rows.value| :: Describes(a.rows.value[i], List(sv, since, limit)[i])
  {}

  // ---- clientWins: what a replica holds of what it was sent ---------------------------------------------

  ghost predicate Brings(s: Schema, k: Key, body: Body) {
    IsAbout(s, k.table, body, k.id) && IsLive(body.fields)
  }

  /** The row is what the first live answer about it said. */
  ghost predicate FirstTold(s: Schema, k: Key, bodies: seq<Body>, row: Row) {
    exists i :: 0 <= i < |bodies| && Brings(s, k, bodies[i]) && Tells(s, k.table, bodies[i].fields, row) &&
                (forall j :: 0 <= j < i ==> !Brings(s, k, bodies[j]))
  }

  /** A live answer about the row came in, or none did. */
  ghost predicate Brought(s: Schema, k: Key, bodies: seq<Body>) {
    exists i :: 0 <= i < |bodies| && Brings(s, k, bodies[i])
  }

  /** Of a row that was not there: it is stored if and only if it was brought, and then as it was first told. */
  ghost predicate Arrived(s: Schema, k: Key, bodies: seq<Body>, rows: map<Key, Row>) {
    && (k in rows <==> Brought(s, k, bodies))
    && (k in rows ==> FirstTold(s, k, bodies, rows[k]))
  }

  lemma ArrivedThen(s: Schema, k: Key, a: seq<Body>, b: seq<Body>, rows: map<Key, Row>, rows': map<Key, Row>)
    requires Arrived(s, k, a, rows)
    requires if k in rows then k in rows' && rows'[k] == rows[k] else Arrived(s, k, b, rows')
    ensures Arrived(s, k, a + b, rows')
  {
    if k in rows {
      var i :| 0 <= i < |a| && Brings(s, k, a[i]) && Tells(s, k.table, a[i].fields, rows[k]) &&
               (forall j :: 0 <= j < i ==> !Brings(s, k, a[j]));
      assert (a + b)[i] == a[i];
    } else if k in rows' {
      var i :| 0 <= i < |b| && Brings(s, k, b[i]) && Tells(s, k.table, b[i].fields, rows'[k]) &&
               (forall j :: 0 <= j < i ==> !Brings(s, k, b[j]));
      assert (a + b)[|a| + i] == b[i];
      forall j | 0 <= j < |a| + i ensures !Brings(s, k, (a + b)[j]) {}
    } else {
      forall j | 0 <= j < |a + b| ensures !Brings(s, k, (a + b)[j]) {}
    }
  }

  /** One answer under clientWins, and a row that is not stored. */
  lemma RowArrives(s: Schema, db: Db, k: Key, body: Body)
    requires db.locked && k !in db.rows && s.conflict(k.table).strategy.ClientWins?
    requires ApplyRow(s, db, k.table, body).Some?
    ensures Arrived(s, k, [body], ApplyRow(s, db, k.table, body).value.rows)
  {
    assert forall j :: 0 <= j < |[body]| ==> [body][j] == body;
    if Brings(s, k, body) {
      assert [body][0] == body;
      AboutIsKey(s, k.table, body, k.id);
      LiveHasNoTime(body.fields);
      var cells := LocalCells(s, k.table, body.fields).value;
      TellsIsCells(s, k.table, body.fields, cells);
      NewRowIsStored(s, db, k, body, cells);
    } else {
      ElsewhereOrGone(s, db, k, body);
    }
  }

  lemma ElsewhereOrGone(s: Schema, db: Db, k: Key, body: Body)
    requires db.locked && k !in db.rows && !Brings(s, k, body)
    requires ApplyRow(s, db, k.table, body).Some?
    ensures k !in ApplyRow(s, db, k.table, body).value.rows
  {
    AboutIsKey(s, k.table, body, k.id);
    if IsAbout(s, k.table, body, k.id) {
      LiveHasNoTime(body.fields);
      var at :| IsGrave(body.fields, at);
      GraveIsMarked(s, db, k, body, at);
    }
  }

  lemma {:induction false} PageArrives(s: Schema, db: Db, k: Key, page: seq<Body>)
    requires db.locked && k !in db.rows && s.conflict(k.table).strategy.ClientWins?
    requires ApplyRows(s, db, k.table, page).Some?
    ensures Arrived(s, k, page, ApplyRows(s, db, k.table, page).value.rows)
    decreases |page|
  {
    hide ApplyRow, Brings;
    if page != [] {
      var next := ApplyRow(s, db, k.table, page[0]).value;
      RowArrives(s, db, k, page[0]);
      StaysLocked(s, db, k.table, page[0]);
      var rows' := ApplyRows(s, next, k.table, page[1..]).value.rows;
      if k in next.rows {
        ClientWinsPage(s, next, k.table, page[1..], k);
      } else {
        PageArrives(s, next, k, page[1..]);
      }
      ArrivedThen(s, k, [page[0]], page[1..], next.rows, rows');
      assert [page[0]] + page[1..] == page;
    }
  }

  /** The rows of the pages that were applied to the table, in order; a page that fails leaves nothing. */
  ghost function Committed(s: Schema, db: Db, t: Table, events: seq<Event>): seq<Body>
    decreases |events|
  {
    if events == [] then []
    else
      var e := events[0];
      (if e.PullE? && e.table == t && ApplyPage(s, db, t, e.page).Some? then e.page else []) +
      Committed(s, Step(s, db, e).db, t, events[1..])
  }

  lemma EventArrives(s: Schema, db: Db, k: Key, e: Event)
    requires k !in db.rows && s.conflict(k.table).strategy.ClientWins? && e.PullE?
    ensures Arrived(s, k, Committed(s, db, k.table, [e]), Step(s, db, e).db.rows)
  {
    hide ApplyRows, Brings;
    assert Committed(s, db, k.table, [e]) ==
           if e.table == k.table && ApplyPage(s, db, k.table, e.page).Some? then e.page else [];
    if ApplyPage(s, db, e.table, e.page).Some? {
      if e.table == k.table {
        PageArrives(s, db.(locked := true), k, e.page);
      } else {
        OtherTable(s, db.(locked := true), e.table, e.page, k);
      }
    }
  }

  lemma {:induction false} OtherTable(s: Schema, db: Db, t: Table, page: seq<Body>, k: Key)
    requires db.locked && k !in db.rows && t != k.table && ApplyRows(s, db, t, page).Some?
    ensures k !in ApplyRows(s, db, t, page).value.rows
    decreases |page|
  {
    if page != [] {
      OtherTable(s, ApplyRow(s, db, t, page[0]).value, t, page[1..], k);
    }
  }

  /**
  Under clientWins, over any run of pulled pages, of this table and of others: a
  row that the client did not have is stored if and only if a page that was
  applied brought it alive, and as the first such answer said, whatever the later
  ones say.
  */
  lemma {:induction false} PullsArrive(s: Schema, db: Db, k: Key, events: seq<Event>)
    requires k !in db.rows && s.conflict(k.table).strategy.ClientWins? && forall e <- events :: e.PullE?
    ensures Arrived(s, k, Committed(s, db, k.table, events), Steps(s, db, events).db.rows)
    decreases |events|
  {
    hide ApplyPage, Brings;
    if events != [] {
      var e, rest := events[0], events[1..];
      var next := Step(s, db, e).db;
      EventArrives(s, db, k, e);
      if k in next.rows {
        ClientWinsKeeps(s, next, rest, k);
      } else {
        PullsArrive(s, next, k, rest);
      }
      assert Committed(s, db, k.table, events) == Committed(s, db, k.table, [e]) + Committed(s, next, k.table, rest);
      ArrivedThen(s, k, Committed(s, db, k.table, [e]), Committed(s, next, k.table, rest), next.rows,
                  Steps(s, next, rest).db.rows);
    }
  }

  /** The same over the pages of a session, whatever the server answers. */
  lemma {:induction false} SessionArrives(
      s: Schema, columns: set<Column>, sv: Server, db: Db, k: Key, c: Paging, since: int, left: nat, last: Option<Got>,
      turns: seq<PullTurn>)
    requires s.conflict(k.table).strategy.ClientWins? && NoWrites(turns)
    ensures var run := Pages(s, columns, sv, db, k.table, c, since, left, last, turns);
            if k in db.rows then k in run.db.rows && run.db.rows[k] == db.rows[k]
            else Arrived(s, k, run.applied, run.db.rows)
    decreases left
  {
    hide Fetch, ApplyRows, Brings;
    if left > 0 {
      var f := Fetch(s, columns, sv, db, c, since, c.pageSize, MAX_ATTEMPTS, turns);
      FetchWritesNothing(s, columns, sv, db, c, since, c.pageSize, MAX_ATTEMPTS, turns);
      if f.got.Some? && f.got.value.page != [] && ApplyPage(s, db, k.table, f.got.value.page).Some? {
        var page := f.got.value.page;
        var next := ApplyPage(s, db, k.table, page).value;
        if k in db.rows {
          ClientWinsPage(s, db.(locked := true), k.table, page, k);
        } else {
          PageArrives(s, db.(locked := true), k, page);
        }
        if f.got.value.candidate > since && |page| >= c.pageSize {
          var rest := Pages(s, columns, f.server, next, k.table, c, f.got.value.candidate, left - 1, f.got, f.rest);
          SessionArrives(s, columns, f.server, next, k, c, f.got.value.candidate, left - 1, f.got, f.rest);
          if k !in db.rows {
            ArrivedThen(s, k, page, rest.applied, next.rows, rest.db.rows);
          }
        }
      }
    }
  }

  ghost predicate NoWrites(turns: seq<PullTurn>) { forall i | 0 <= i < |turns| :: turns[i].writes == [] }

  lemma {:induction false} FetchWritesNothing(
      s: Schema, columns: set<Column>, sv: Server, db: Db, c: Paging, since: int, limit: nat, attempts: nat,
      turns: seq<PullTurn>)
    requires attempts > 0 && NoWrites(turns)
    ensures var f := Fetch(s, columns, sv, db, c, since, limit, attempts, turns);
            f.db == db && NoWrites(f.rest)
    decreases attempts
  {
    if turns != [] {
      assert turns[0].writes == [] && NoWrites(turns[1..]);
      assert ApplyWrites(s, db, turns[0].writes) == db;
      if attempts > 1 {
        FetchWritesNothing(
          s, columns, ServeAll(columns, sv, turns[0].ops), db, c, since, Escalated(limit), attempts - 1, turns[1..]);
      }
    }
  }
}
