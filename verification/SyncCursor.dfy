/**
The cursor: in every interleaving of server writes and pull sessions nothing at
or below it was missed, it never moves back, and against a quiet server it gets
to the end.
*/
module SyncCursor {
  import opened Wrappers
  import opened SyncStore
  import opened SyncApplier
  import opened SyncServer
  import opened SyncPull

  // ---- no change is skipped ------------------------------------------------------------------------

  /** Every row the cursor has passed was applied in its current version. */
  ghost predicate Covered(sv: Server, cursor: int, applied: set<Body>) {
    forall r <- sv.rows :: ChangedAt(r) <= cursor ==> Object(Resource(r)) in applied
  }

  /** The cursor has not passed a tick that is still to come. */
  ghost predicate CursorSound(columns: set<Column>, sv: Server, cursor: int, applied: set<Body>) {
    ServerSound(columns, sv) && 0 <= cursor <= sv.lastTick && Covered(sv, cursor, applied)
  }

  lemma ServeCovers(columns: set<Column>, sv: Server, op: ServerOp, cursor: int, applied: set<Body>)
    requires CursorSound(columns, sv, cursor, applied) && FlatOp(op)
    ensures CursorSound(columns, Serve(columns, sv, op), cursor, applied)
  {
    ServeKeeps(columns, sv, op);
    forall r <- Serve(columns, sv, op).rows | ChangedAt(r) <= cursor ensures Object(Resource(r)) in applied {
      ServeChanges(columns, sv, op, r);
    }
  }

  lemma {:induction false} ServeAllCovers(
      columns: set<Column>, sv: Server, ops: seq<ServerOp>, cursor: int, applied: set<Body>)
    requires CursorSound(columns, sv, cursor, applied) && FlatOps(ops)
    ensures CursorSound(columns, ServeAll(columns, sv, ops), cursor, applied)
    decreases |ops|
  {
    if ops != [] {
      ServeCovers(columns, sv, ops[0], cursor, applied);
      ServeAllCovers(columns, Serve(columns, sv, ops[0]), ops[1..], cursor, applied);
    }
  }

  /** Faults are errors the session throws on, not made-up pages. */
  ghost predicate HonestTurns(turns: seq<PullTurn>) {
    forall i | 0 <= i < |turns| :: HonestTurn(turns[i])
  }

  ghost predicate HonestTurn(turn: PullTurn) {
    FlatOps(turn.ops) && (turn.fault.Some? ==> ReadList(turn.fault.value).None?)
  }

  lemma WireTime(columns: set<Column>, sv: Server, r: ServerRow)
    requires ServerSound(columns, sv) && r in sv.rows
    ensures CandidateCursor(Object(Resource(r)), UPDATED_AT) == Some(ChangedAt(r) - 1)
  {
  }

  /** A fetched page is the server's own list of the moment, and its candidate the last change but one millisecond. */
  ghost predicate Honest(sv: Server, since: int, got: Got) {
    var rows := List(sv, since, got.asked);
    && got.asked > 0 && got.page == WireAll(rows)
    && got.candidate == if rows == [] then since else ChangedAt(rows[|rows| - 1]) - 1
  }

  /** The client reads from a list the candidate the server's rows imply. */
  lemma ListedCandidate(columns: set<Column>, sv: Server, since: int, limit: nat)
    requires ServerSound(columns, sv)
    ensures var page := WireAll(List(sv, since, limit));
            page != [] ==>
              CandidateCursor(page[|page| - 1], UPDATED_AT) == Some(ChangedAt(List(sv, since, limit)[|page| - 1]) - 1)
  {
    var rows := List(sv, since, limit);
    if rows != [] {
      ListIsPrefix(sv, since, limit);
      assert rows[|rows| - 1] in rows;
      WireTime(columns, sv, rows[|rows| - 1]);
    }
  }

  /** A request either ends the fetch where it found the world or hands on to the next one. */
  lemma FetchUnfolds(s: Schema, columns: set<Column>, sv: Server, db: Db, c: Paging, since: int, limit: nat,
                     attempts: nat, turns: seq<PullTurn>)
    requires attempts > 0 && turns != []
    ensures var f := Fetch(s, columns, sv, db, c, since, limit, attempts, turns);
            var sv' := ServeAll(columns, sv, turns[0].ops);
            var db' := ApplyWrites(s, db, turns[0].writes);
            || (f.server == sv' && f.db == db' && f.rest == turns[1..])
            || (attempts > 1 && f == Fetch(s, columns, sv', db', c, since, Escalated(limit), attempts - 1, turns[1..]))
  {
  }

  lemma {:induction false} FetchCovers(s: Schema, columns: set<Column>, sv: Server, db: Db, c: Paging, since: int,
                                       limit: nat, attempts: nat, turns: seq<PullTurn>, applied: set<Body>)
    requires attempts > 0 && HonestTurns(turns) && CursorSound(columns, sv, since, applied)
    ensures var f := Fetch(s, columns, sv, db, c, since, limit, attempts, turns);
            CursorSound(columns, f.server, since, applied) && HonestTurns(f.rest)
    decreases attempts
  {
    if turns != [] {
      var turn, tail := turns[0], turns[1..];
      assert HonestTurn(turn);
      assert HonestTurns(tail) by {
        forall i | 0 <= i < |tail| ensures HonestTurn(tail[i]) {
          assert tail[i] == turns[i + 1];
        }
      }
      var sv' := ServeAll(columns, sv, turn.ops);
      var db' := ApplyWrites(s, db, turn.writes);
      ServeAllCovers(columns, sv, turn.ops, since, applied);
      FetchUnfolds(s, columns, sv, db, c, since, limit, attempts, turns);
      if attempts > 1 {
        FetchCovers(s, columns, sv', db', c, since, Escalated(limit), attempts - 1, tail, applied);
      }
    }
  }

  lemma {:induction false} FetchHonest(s: Schema, columns: set<Column>, sv: Server, db: Db, c: Paging, since: int,
                                       limit: nat, attempts: nat, turns: seq<PullTurn>)
    requires attempts > 0 && limit > 0 && c.cursorField == UPDATED_AT && HonestTurns(turns)
    requires CursorSound(columns, sv, 0, {})
    ensures var f := Fetch(s, columns, sv, db, c, since, limit, attempts, turns);
            f.got.Some? ==> Honest(f.server, since, f.got.value)
    decreases attempts
  {
    hide List, WireAll, ServerSound, ChangedAt, CandidateCursor, ServeAll, ApplyWrites, Covered;
    if turns != [] {
      var turn := turns[0];
      assert HonestTurn(turn);
      var sv' := ServeAll(columns, sv, turn.ops);
      var db' := ApplyWrites(s, db, turn.writes);
      ServeAllCovers(columns, sv, turn.ops, 0, {});
      ListedCandidate(columns, sv', since, limit);
      if attempts > 1 {
        FetchHonest(s, columns, sv', db', c, since, Escalated(limit), attempts - 1, turns[1..]);
      }
    }
  }

  lemma CursorSoundFromStart(columns: set<Column>, sv: Server)
    requires ServerSound(columns, sv)
    ensures CursorSound(columns, sv, 0, {})
  {
  }

  ghost function Bodies(page: seq<Body>): set<Body> {
    set b | b in page
  }

  /** Applying a page makes its candidate safe: whatever came no later is on the page or was passed before. */
  lemma PageCovers(columns: set<Column>, sv: Server, since: int, got: Got, applied: set<Body>)
    requires CursorSound(columns, sv, since, applied) && Honest(sv, since, got) && got.page != []
    ensures since <= got.candidate ==> CursorSound(columns, sv, got.candidate, applied + Bodies(got.page))
    ensures CursorSound(columns, sv, since, applied + Bodies(got.page)) && got.candidate >= since
  {
    var rows := List(sv, since, got.asked);
    ListIsPrefix(sv, since, got.asked);
    var last := rows[|rows| - 1];
    assert last in rows;
    assert exists i :: 0 <= i < |sv.rows| && sv.rows[i] == last;
    forall r <- sv.rows | ChangedAt(r) <= got.candidate ensures Object(Resource(r)) in applied + Bodies(got.page) {
      if ChangedAt(r) > since {
        assert r in rows;
        var i :| 0 <= i < |rows| && rows[i] == r;
        assert got.page[i] == Object(Resource(r));
      }
    }
  }

  lemma {:induction false} PagesCover(s: Schema, columns: set<Column>, sv: Server, db: Db, t: Table, c: Paging,
                                      since: int, left: nat, last: Option<Got>, turns: seq<PullTurn>,
                                      applied: set<Body>)
    requires CursorSound(columns, sv, since, applied) && c.pageSize > 0 && c.cursorField == UPDATED_AT
    requires HonestTurns(turns)
    ensures var run := Pages(s, columns, sv, db, t, c, since, left, last, turns);
            CursorSound(columns, run.server, run.cursor, applied + Bodies(run.applied)) && run.cursor >= since
    decreases left
  {
    hide ApplyPage, Fetch;
    assert applied + Bodies([]) == applied;
    if left > 0 {
      var f := Fetch(s, columns, sv, db, c, since, c.pageSize, MAX_ATTEMPTS, turns);
      FetchCovers(s, columns, sv, db, c, since, c.pageSize, MAX_ATTEMPTS, turns, applied);
      CursorSoundFromStart(columns, sv);
      FetchHonest(s, columns, sv, db, c, since, c.pageSize, MAX_ATTEMPTS, turns);
      if f.got.Some? && f.got.value.page != [] {
        var got := f.got.value;
        PageCovers(columns, f.server, since, got, applied);
        var next := ApplyPage(s, f.db, t, got.page);
        if next.Some? && got.candidate > since && |got.page| >= c.pageSize {
          PagesCover(s, columns, f.server, next.value, t, c, got.candidate, left - 1, Some(got), f.rest,
                     applied + Bodies(got.page));
          var rest := Pages(s, columns, f.server, next.value, t, c, got.candidate, left - 1, Some(got), f.rest);
          BodiesAppend(applied, got.page, rest.applied);
        }
      }
    }
  }

  lemma BodiesAppend(applied: set<Body>, a: seq<Body>, b: seq<Body>)
    ensures applied + Bodies(a) + Bodies(b) == applied + Bodies(a + b)
  {
  }

  /** The server working on its own, or a pull session. */
  datatype PullEvent = Served(op: ServerOp) | Session(turns: seq<PullTurn>)

  datatype PullState = PullState(server: Server, db: Db, cursor: int, applied: set<Body>)

  ghost function PullStep(
      s: Schema, columns: set<Column>, t: Table, c: Paging, st: PullState, e: PullEvent): PullState {
    match e
    case Served(op) => st.(server := Serve(columns, st.server, op))
    case Session(turns) =>
      var run := PullSession(s, columns, st.server, st.db, t, c, st.cursor, turns);
      PullState(run.server, run.db, run.cursor, st.applied + Bodies(run.applied))
  }

  ghost function PullSteps(
      s: Schema, columns: set<Column>, t: Table, c: Paging, st: PullState, events: seq<PullEvent>): PullState
    decreases |events|
  {
    if events == [] then st else PullSteps(s, columns, t, c, PullStep(s, columns, t, c, st, events[0]), events[1..])
  }

  ghost predicate HonestEvents(events: seq<PullEvent>) {
    forall i | 0 <= i < |events| :: HonestEvent(events[i])
  }

  ghost predicate HonestEvent(e: PullEvent) {
    match e
    case Served(op) => FlatOp(op)
    case Session(turns) => HonestTurns(turns)
  }

  /**
  In every interleaving of server writes with pull sessions, whatever the client
  writes locally, whichever requests fail and wherever sessions are cut short:
  every row whose last change is at or before the saved cursor has had its
  current version applied, and the cursor never moves back.
  */
  lemma {:induction false} NothingIsSkipped(
      s: Schema, columns: set<Column>, t: Table, c: Paging, st: PullState, events: seq<PullEvent>)
    requires CursorSound(columns, st.server, st.cursor, st.applied) && HonestEvents(events)
    requires c.pageSize > 0 && c.cursorField == UPDATED_AT
    ensures var end := PullSteps(s, columns, t, c, st, events);
            && Covered(end.server, end.cursor, end.applied) && end.cursor >= st.cursor
            && CursorSound(columns, end.server, end.cursor, end.applied)
    decreases |events|
  {
    if events != [] {
      assert HonestEvent(events[0]);
      match events[0] {
        case Served(op) => ServeCovers(columns, st.server, op, st.cursor, st.applied);
        case Session(turns) =>
          PagesCover(s, columns, st.server, st.db, t, c, st.cursor, c.maxPages, None, turns, st.applied);
      }
      NothingIsSkipped(s, columns, t, c, PullStep(s, columns, t, c, st, events[0]), events[1..]);
    }
  }

  // ---- getting to the end ------------------------------------------------------------------------------

  function CountAt(rows: seq<ServerRow>, at: int): nat {
    if rows == [] then 0 else (if ChangedAt(rows[0]) == at then 1 else 0) + CountAt(rows[1..], at)
  }

  function CountAfter(rows: seq<ServerRow>, at: int): nat {
    if rows == [] then 0 else (if ChangedAt(rows[0]) > at then 1 else 0) + CountAfter(rows[1..], at)
  }

  /** Changes beyond the millisecond every session overlaps. */
  function Remaining(sv: Server, cursor: int): nat { CountAfter(sv.rows, cursor + 1) }

  /** Changes tied on that millisecond. */
  function Tied(sv: Server, cursor: int): nat { CountAt(sv.rows, cursor + 1) }

  lemma {:induction false} InsertCounts(r: ServerRow, sorted: seq<ServerRow>, at: int)
    ensures CountAt(InsertByChange(r, sorted), at) == CountAt([r], at) + CountAt(sorted, at)
    ensures |InsertByChange(r, sorted)| == |sorted| + 1
  {
    if sorted != [] && ChangedAt(r) > ChangedAt(sorted[0]) {
      InsertCounts(r, sorted[1..], at);
      assert InsertByChange(r, sorted)[1..] == InsertByChange(r, sorted[1..]);
    } else {
      assert ([r] + sorted)[1..] == sorted;
    }
  }

  lemma {:induction false} SortCounts(rows: seq<ServerRow>, at: int)
    ensures CountAt(SortByChange(rows), at) == CountAt(rows, at) && |SortByChange(rows)| == |rows|
  {
    if rows != [] {
      SortCounts(rows[1..], at);
      InsertCounts(rows[0], SortByChange(rows[1..]), at);
    }
  }

  lemma {:induction false} AboveCounts(rows: seq<ServerRow>, since: int)
    ensures CountAt(Above(rows, since), since + 1) == CountAt(rows, since + 1)
    ensures |Above(rows, since)| == CountAt(rows, since + 1) + CountAfter(rows, since + 1)
  {
    if rows != [] {
      AboveCounts(rows[1..], since);
      var rest := Above(rows[1..], since);
      assert ([rows[0]] + rest)[1..] == rest && [] + rest == rest;
    }
  }

  /** In an ordered list nothing of which is earlier than `at`, the ties come first. */
  lemma {:induction false} TiesFirst(sorted: seq<ServerRow>, at: int)
    requires Ascending(sorted) && forall r <- sorted :: ChangedAt(r) >= at
    ensures CountAt(sorted, at) <= |sorted|
    ensures forall i | 0 <= i < |sorted| :: ChangedAt(sorted[i]) == at <==> i < CountAt(sorted, at)
  {
    if sorted != [] {
      TiesFirst(sorted[1..], at);
      if ChangedAt(sorted[0]) > at {
        forall i | 0 <= i < |sorted[1..]| ensures ChangedAt(sorted[1..][i]) > at {
          assert ChangedAt(sorted[0]) <= ChangedAt(sorted[i + 1]);
        }
        assert CountAt(sorted[1..], at) == 0;
      }
      forall i | 0 <= i < |sorted| ensures ChangedAt(sorted[i]) == at <==> i < CountAt(sorted, at) {
        if i > 0 {
          assert sorted[i] == sorted[1..][i - 1];
        }
      }
    }
  }

  /** One request moves the cursor exactly when its limit reaches past the ties. */
  lemma PageAdvancesIff(columns: set<Column>, sv: Server, since: int, limit: nat)
    requires ServerSound(columns, sv) && limit > 0
    ensures var rows := List(sv, since, limit);
            && (rows != [] && ChangedAt(rows[|rows| - 1]) - 1 > since
                <==> Remaining(sv, since) > 0 && Tied(sv, since) < limit)
            && (|rows| < limit ==> |rows| == Tied(sv, since) + Remaining(sv, since))
  {
    var above := Above(sv.rows, since);
    var all := SortByChange(above);
    var rows := List(sv, since, limit);
    AboveCounts(sv.rows, since);
    SortCounts(above, since + 1);
    AboveById(sv.rows, since);
    SortListed(above);
    forall r <- all ensures ChangedAt(r) >= since + 1 {
      SortMembers(above, r);
      AboveMembers(sv.rows, since, r);
    }
    TiesFirst(all, since + 1);
    if rows != [] {
      assert rows[|rows| - 1] == all[|rows| - 1];
      assert all[|rows| - 1] in all;
    }
  }

  /** The limit of the last attempt. */
  function Largest(limit: nat, attempts: nat): nat
    decreases attempts
  {
    if attempts <= 1 then limit else Largest(Escalated(limit), attempts - 1)
  }

  /** One attempt after the other asks for eight times as much, and for no more than 2000. */
  lemma EscalationInNumbers(limit: nat)
    ensures Escalated(limit) == if limit <= 250 then 8 * limit else 2000
    ensures 0 < limit <= 2000 ==> Largest(limit, MAX_ATTEMPTS) == if limit <= 3 then 512 * limit else 2000
  {
    assert Largest(limit, 4) == Largest(Escalated(limit), 3);
    assert Largest(Escalated(limit), 3) == Largest(Escalated(Escalated(limit)), 2);
    assert Largest(Escalated(Escalated(limit)), 2) == Largest(Escalated(Escalated(Escalated(limit))), 1);
  }

  lemma {:induction false} LargestIsLargest(limit: nat, attempts: nat)
    requires 0 < limit <= MAX_LIMIT
    ensures limit <= Largest(limit, attempts) <= MAX_LIMIT
    decreases attempts
  {
    if attempts > 1 {
      LargestIsLargest(Escalated(limit), attempts - 1);
    }
  }

  ghost predicate QuietTurns(turns: seq<PullTurn>) {
    forall i | 0 <= i < |turns| :: turns[i].ops == [] && turns[i].fault.None?
  }

  lemma QuietTail(turns: seq<PullTurn>)
    requires QuietTurns(turns) && turns != []
    ensures QuietTurns(turns[1..])
  {
    forall i | 0 <= i < |turns[1..]| ensures turns[1..][i].ops == [] && turns[1..][i].fault.None? {
      assert turns[1..][i] == turns[i + 1];
    }
  }

  /** What one request against a quiet server proposes. */
  ghost function ListGot(sv: Server, since: int, limit: nat): Got {
    var rows := List(sv, since, limit);
    Got(WireAll(rows), limit, if rows == [] then since else ChangedAt(rows[|rows| - 1]) - 1)
  }

  /** What the escalating requests against a quiet server come to. */
  ghost function QuietGot(sv: Server, since: int, limit: nat, attempts: nat): Got
    decreases attempts
  {
    var got := ListGot(sv, since, limit);
    if got.page == [] || got.candidate > since || |got.page| != limit || attempts <= 1 then got
    else QuietGot(sv, since, Escalated(limit), attempts - 1)
  }

  lemma ListIsBounded(sv: Server, since: int, limit: nat)
    ensures |List(sv, since, limit)| <= limit
  {}

  lemma {:induction false} QuietFetchGets(s: Schema, columns: set<Column>, sv: Server, db: Db, c: Paging,
                                          since: int, limit: nat, attempts: nat, turns: seq<PullTurn>)
    requires ServerSound(columns, sv) && c.cursorField == UPDATED_AT
    requires 0 < attempts <= |turns| && QuietTurns(turns)
    ensures Fetch(s, columns, sv, db, c, since, limit, attempts, turns).got
         == Some(QuietGot(sv, since, limit, attempts))
    decreases attempts
  {
    hide List, WireAll, ServerSound, ApplyWrites, ChangedAt, CandidateCursor;
    assert turns[0].ops == [] && turns[0].fault.None?;
    assert ServeAll(columns, sv, turns[0].ops) == sv;
    ListedCandidate(columns, sv, since, limit);
    if attempts > 1 {
      QuietTail(turns);
      QuietFetchGets(s, columns, sv, ApplyWrites(s, db, turns[0].writes), c, since, Escalated(limit), attempts - 1,
                     turns[1..]);
    }
  }

  /**
  Against a quiet server a fetch moves the cursor exactly when something lies
  beyond the ties and the ties fit under the largest limit it would try.
  */
  lemma {:induction false} FetchAdvancesIff(columns: set<Column>, sv: Server, since: int, limit: nat, attempts: nat)
    requires ServerSound(columns, sv) && 0 < limit <= MAX_LIMIT && 0 < attempts
    ensures var got := QuietGot(sv, since, limit, attempts);
            && Honest(sv, since, got)
            && (got.candidate > since <==> Remaining(sv, since) > 0 && Tied(sv, since) < Largest(limit, attempts))
    decreases attempts
  {
    hide ServerSound, Remaining, Tied, List, WireAll, ChangedAt;
    PageAdvancesIff(columns, sv, since, limit);
    LargestIsLargest(limit, attempts);
    ListIsBounded(sv, since, limit);
    if attempts > 1 {
      FetchAdvancesIff(columns, sv, since, Escalated(limit), attempts - 1);
    }
  }

  lemma {:induction false} CountAfterMonotone(rows: seq<ServerRow>, a: int, b: int)
    requires a <= b
    ensures CountAfter(rows, b) <= CountAfter(rows, a)
    ensures (exists r :: r in rows && a < ChangedAt(r) <= b) ==> CountAfter(rows, b) < CountAfter(rows, a)
  {
    if rows != [] {
      CountAfterMonotone(rows[1..], a, b);
      assert rows == [rows[0]] + rows[1..];
    }
  }

  /** The first page of a quiet session can be applied. */
  ghost predicate FirstPageApplies(
      s: Schema, columns: set<Column>, sv: Server, db: Db, t: Table, c: Paging, cursor: int, turns: seq<PullTurn>) {
    var f := Fetch(s, columns, sv, db, c, cursor, c.pageSize, MAX_ATTEMPTS, turns);
    f.got.Some? ==> ApplyPage(s, f.db, t, f.got.value.page).Some?
  }

  ghost predicate Workable(c: Paging) {
    0 < c.pageSize <= MAX_LIMIT && c.maxPages > 0 && c.cursorField == UPDATED_AT
  }

  /** A page that moves the cursor is where the rest of the session goes on from. */
  lemma PagesUnfold(s: Schema, columns: set<Column>, sv: Server, db: Db, t: Table, c: Paging, since: int, left: nat,
                    last: Option<Got>, turns: seq<PullTurn>)
    requires left > 0
    ensures var run := Pages(s, columns, sv, db, t, c, since, left, last, turns);
            var f := Fetch(s, columns, sv, db, c, since, c.pageSize, MAX_ATTEMPTS, turns);
            if f.got.None? || f.got.value.page == [] || ApplyPage(s, f.db, t, f.got.value.page).None? ||
               f.got.value.candidate <= since
            then run.server == f.server && run.cursor == since
            else
              var next := Pages(s, columns, f.server, ApplyPage(s, f.db, t, f.got.value.page).value, t, c,
                                f.got.value.candidate, left - 1, f.got, f.rest);
              || (run.server == f.server && run.cursor == f.got.value.candidate)
              || (run.server == next.server && run.cursor == next.cursor)
  {
  }

  lemma {:induction false} QuietPages(s: Schema, columns: set<Column>, sv: Server, db: Db, t: Table, c: Paging,
                                      since: int, left: nat, last: Option<Got>, turns: seq<PullTurn>)
    requires ServerSound(columns, sv) && 0 <= since <= sv.lastTick && Workable(c) && QuietTurns(turns)
    ensures var run := Pages(s, columns, sv, db, t, c, since, left, last, turns);
            run.server == sv && since <= run.cursor <= sv.lastTick
    decreases left
  {
    hide Fetch, ApplyPage, ServerSound;
    if left > 0 {
      var f := Fetch(s, columns, sv, db, c, since, c.pageSize, MAX_ATTEMPTS, turns);
      PagesUnfold(s, columns, sv, db, t, c, since, left, last, turns);
      QuietFetch(s, columns, sv, db, c, since, c.pageSize, MAX_ATTEMPTS, turns);
      if f.got.Some? && f.got.value.page != [] {
        QuietCandidate(s, columns, sv, db, c, since, turns);
        if ApplyPage(s, f.db, t, f.got.value.page).Some? && f.got.value.candidate > since {
          QuietPages(s, columns, sv, ApplyPage(s, f.db, t, f.got.value.page).value, t, c, f.got.value.candidate,
                     left - 1, f.got, f.rest);
        }
      }
    }
  }

  lemma QuietCandidate(s: Schema, columns: set<Column>, sv: Server, db: Db, c: Paging, since: int, turns: seq<PullTurn>)
    requires ServerSound(columns, sv) && 0 <= since <= sv.lastTick && Workable(c) && QuietTurns(turns)
    ensures var f := Fetch(s, columns, sv, db, c, since, c.pageSize, MAX_ATTEMPTS, turns);
            f.got.Some? ==> f.got.value.candidate <= sv.lastTick
  {
    QuietIsHonest(turns);
    CursorSoundFromStart(columns, sv);
    QuietFetch(s, columns, sv, db, c, since, c.pageSize, MAX_ATTEMPTS, turns);
    FetchHonest(s, columns, sv, db, c, since, c.pageSize, MAX_ATTEMPTS, turns);
    var f := Fetch(s, columns, sv, db, c, since, c.pageSize, MAX_ATTEMPTS, turns);
    if f.got.Some? {
      var rows := List(sv, since, f.got.value.asked);
      if rows != [] {
        ListIsPrefix(sv, since, f.got.value.asked);
        assert rows[|rows| - 1] in rows;
      }
    }
  }

  /** Every quiet session strictly lowers what remains, until nothing does. */
  lemma SessionConverges(
      s: Schema, columns: set<Column>, sv: Server, db: Db, t: Table, c: Paging, cursor: int, turns: seq<PullTurn>)
    requires ServerSound(columns, sv) && 0 <= cursor <= sv.lastTick && Workable(c)
    requires QuietTurns(turns) && |turns| >= MAX_ATTEMPTS && FirstPageApplies(s, columns, sv, db, t, c, cursor, turns)
    requires Tied(sv, cursor) < Largest(c.pageSize, MAX_ATTEMPTS)
    ensures var run := PullSession(s, columns, sv, db, t, c, cursor, turns);
            && run.server == sv && cursor <= run.cursor <= sv.lastTick
            && (Remaining(sv, cursor) > 0 ==> Remaining(sv, run.cursor) < Remaining(sv, cursor))
  {
    QuietPages(s, columns, sv, db, t, c, cursor, c.maxPages, None, turns);
    if Remaining(sv, cursor) > 0 {
      SessionMoves(s, columns, sv, db, t, c, cursor, turns);
      var got := QuietGot(sv, cursor, c.pageSize, MAX_ATTEMPTS);
      FetchAdvancesIff(columns, sv, cursor, c.pageSize, MAX_ATTEMPTS);
      LessRemains(columns, sv, cursor, got, PullSession(s, columns, sv, db, t, c, cursor, turns).cursor);
    }
  }

  lemma SessionMoves(
      s: Schema, columns: set<Column>, sv: Server, db: Db, t: Table, c: Paging, cursor: int, turns: seq<PullTurn>)
    requires ServerSound(columns, sv) && 0 <= cursor <= sv.lastTick && Workable(c)
    requires QuietTurns(turns) && |turns| >= MAX_ATTEMPTS && FirstPageApplies(s, columns, sv, db, t, c, cursor, turns)
    requires Tied(sv, cursor) < Largest(c.pageSize, MAX_ATTEMPTS) && Remaining(sv, cursor) > 0
    ensures PullSession(s, columns, sv, db, t, c, cursor, turns).cursor
         >= QuietGot(sv, cursor, c.pageSize, MAX_ATTEMPTS).candidate
  {
    hide QuietGot, Fetch, ServerSound, Pages, ApplyPage;
    var f := Fetch(s, columns, sv, db, c, cursor, c.pageSize, MAX_ATTEMPTS, turns);
    QuietFetchGets(s, columns, sv, db, c, cursor, c.pageSize, MAX_ATTEMPTS, turns);
    FetchAdvancesIff(columns, sv, cursor, c.pageSize, MAX_ATTEMPTS);
    QuietFetch(s, columns, sv, db, c, cursor, c.pageSize, MAX_ATTEMPTS, turns);
    QuietCandidate(s, columns, sv, db, c, cursor, turns);
    PagesUnfold(s, columns, sv, db, t, c, cursor, c.maxPages, None, turns);
    var got := f.got.value;
    QuietPages(s, columns, sv, ApplyPage(s, f.db, t, got.page).value, t, c, got.candidate, c.maxPages - 1, f.got,
               f.rest);
  }

  lemma LessRemains(columns: set<Column>, sv: Server, since: int, got: Got, cursor: int)
    requires ServerSound(columns, sv) && Honest(sv, since, got) && since < got.candidate <= cursor
    ensures Remaining(sv, cursor) < Remaining(sv, since)
  {
    hide List, WireAll, Resource;
    var rows := List(sv, since, got.asked);
    ListIsPrefix(sv, since, got.asked);
    assert rows[|rows| - 1] in rows;
    CountAfterMonotone(sv.rows, since + 1, got.candidate + 1);
    CountAfterMonotone(sv.rows, got.candidate + 1, cursor + 1);
  }

  lemma QuietIsHonest(turns: seq<PullTurn>)
    requires QuietTurns(turns)
    ensures HonestTurns(turns)
  {
    forall i | 0 <= i < |turns| ensures HonestTurn(turns[i]) {
      assert turns[i].ops == [];
    }
  }

  lemma {:induction false} QuietFetch(s: Schema, columns: set<Column>, sv: Server, db: Db, c: Paging, since: int,
                                      limit: nat, attempts: nat, turns: seq<PullTurn>)
    requires attempts > 0 && QuietTurns(turns)
    ensures var f := Fetch(s, columns, sv, db, c, since, limit, attempts, turns);
            f.server == sv && QuietTurns(f.rest)
    decreases attempts
  {
    if turns != [] {
      assert turns[0].ops == [];
      assert ServeAll(columns, sv, turns[0].ops) == sv;
      QuietTail(turns);
      FetchUnfolds(s, columns, sv, db, c, since, limit, attempts, turns);
      if attempts > 1 {
        QuietFetch(s, columns, sv, ApplyWrites(s, db, turns[0].writes), c, since, Escalated(limit), attempts - 1,
                   turns[1..]);
      }
    }
  }

  // ---- any number of quiet sessions ------------------------------------------------------------------------

  /** Sessions only, each quiet, long enough for one page, and able to apply it. */
  ghost predicate QuietEvents(
      s: Schema, columns: set<Column>, t: Table, c: Paging, st: PullState, events: seq<PullEvent>)
    decreases |events|
  {
    events == [] ||
    (&& events[0].Session? && QuietTurns(events[0].turns) && |events[0].turns| >= MAX_ATTEMPTS
     && FirstPageApplies(s, columns, st.server, st.db, t, c, st.cursor, events[0].turns)
     && QuietEvents(s, columns, t, c, PullStep(s, columns, t, c, st, events[0]), events[1..]))
  }

  /** No more rows share a millisecond than the largest limit can fetch at once. */
  ghost predicate TiesFit(sv: Server, limit: nat) {
    forall at: int :: CountAt(sv.rows, at) < limit
  }

  lemma QuietStep(s: Schema, columns: set<Column>, t: Table, c: Paging, st: PullState, e: PullEvent)
    requires ServerSound(columns, st.server) && 0 <= st.cursor <= st.server.lastTick && Workable(c)
    requires TiesFit(st.server, Largest(c.pageSize, MAX_ATTEMPTS)) && e.Session? && QuietTurns(e.turns)
    requires |e.turns| >= MAX_ATTEMPTS && FirstPageApplies(s, columns, st.server, st.db, t, c, st.cursor, e.turns)
    ensures var next := PullStep(s, columns, t, c, st, e);
            && next.server == st.server && st.cursor <= next.cursor <= st.server.lastTick
            && (Remaining(st.server, st.cursor) > 0 ==>
                  Remaining(st.server, next.cursor) < Remaining(st.server, st.cursor))
            && Remaining(st.server, next.cursor) <= Remaining(st.server, st.cursor)
  {
    assert CountAt(st.server.rows, st.cursor + 1) < Largest(c.pageSize, MAX_ATTEMPTS);
    SessionConverges(s, columns, st.server, st.db, t, c, st.cursor, e.turns);
    CountAfterMonotone(st.server.rows, st.cursor + 1, PullStep(s, columns, t, c, st, e).cursor + 1);
  }

  /** As many quiet sessions as changes remain bring the client to the end. */
  lemma {:induction false} QuietSessionsFinish(
      s: Schema, columns: set<Column>, t: Table, c: Paging, st: PullState, events: seq<PullEvent>)
    requires ServerSound(columns, st.server) && 0 <= st.cursor <= st.server.lastTick && Workable(c)
    requires TiesFit(st.server, Largest(c.pageSize, MAX_ATTEMPTS)) && QuietEvents(s, columns, t, c, st, events)
    ensures var end := PullSteps(s, columns, t, c, st, events);
            && end.server == st.server && end.cursor >= st.cursor
            && Remaining(end.server, end.cursor) <= Remaining(st.server, st.cursor)
            && (|events| >= Remaining(st.server, st.cursor) ==> Remaining(end.server, end.cursor) == 0)
    decreases |events|
  {
    if events != [] {
      QuietStep(s, columns, t, c, st, events[0]);
      QuietSessionsFinish(s, columns, t, c, PullStep(s, columns, t, c, st, events[0]), events[1..]);
    }
  }

  // ---- against the reference server ---------------------------------------------------------------

  ghost predicate Ticked(columns: set<Column>, sv: Server) { ServerSound(columns, sv) && Untied(sv.rows) }

  lemma {:induction false} FetchTicked(s: Schema, columns: set<Column>, sv: Server, db: Db, c: Paging, since: int,
                                       limit: nat, attempts: nat, turns: seq<PullTurn>)
    requires attempts > 0 && HonestTurns(turns) && Ticked(columns, sv)
    ensures var f := Fetch(s, columns, sv, db, c, since, limit, attempts, turns);
            Ticked(columns, f.server) && HonestTurns(f.rest)
    decreases attempts
  {
    hide ServerSound, Untied;
    if turns != [] {
      var turn, tail := turns[0], turns[1..];
      assert HonestTurn(turn);
      assert HonestTurns(tail) by {
        forall i | 0 <= i < |tail| ensures HonestTurn(tail[i]) {
          assert tail[i] == turns[i + 1];
        }
      }
      ServeAllUntied(columns, sv, turn.ops);
      FetchUnfolds(s, columns, sv, db, c, since, limit, attempts, turns);
      if attempts > 1 {
        FetchTicked(s, columns, ServeAll(columns, sv, turn.ops), ApplyWrites(s, db, turn.writes), c, since,
                    Escalated(limit), attempts - 1, tail);
      }
    }
  }

  lemma {:induction false} PagesTicked(s: Schema, columns: set<Column>, sv: Server, db: Db, t: Table, c: Paging,
                                       since: int, left: nat, last: Option<Got>, turns: seq<PullTurn>)
    requires HonestTurns(turns) && Ticked(columns, sv)
    ensures Ticked(columns, Pages(s, columns, sv, db, t, c, since, left, last, turns).server)
    decreases left
  {
    hide Fetch, ApplyPage, Ticked;
    if left > 0 {
      var f := Fetch(s, columns, sv, db, c, since, c.pageSize, MAX_ATTEMPTS, turns);
      FetchTicked(s, columns, sv, db, c, since, c.pageSize, MAX_ATTEMPTS, turns);
      if f.got.Some? && f.got.value.page != [] && ApplyPage(s, f.db, t, f.got.value.page).Some? {
        PagesTicked(s, columns, f.server, ApplyPage(s, f.db, t, f.got.value.page).value, t, c, f.got.value.candidate,
                    left - 1, f.got, f.rest);
      }
    }
  }

  lemma {:induction false} StepsTicked(
      s: Schema, columns: set<Column>, t: Table, c: Paging, st: PullState, events: seq<PullEvent>)
    requires HonestEvents(events) && Ticked(columns, st.server)
    ensures Ticked(columns, PullSteps(s, columns, t, c, st, events).server)
    decreases |events|
  {
    hide Pages, ServerSound, Untied, Serve;
    if events != [] {
      assert HonestEvent(events[0]);
      match events[0] {
        case Served(op) =>
          ServeKeeps(columns, st.server, op);
          ServeUntied(columns, st.server, op);
        case Session(turns) =>
          PagesTicked(s, columns, st.server, st.db, t, c, st.cursor, c.maxPages, None, turns);
      }
      assert forall i | 0 <= i < |events[1..]| :: events[1..][i] == events[i + 1];
      StepsTicked(s, columns, t, c, PullStep(s, columns, t, c, st, events[0]), events[1..]);
    }
  }

  lemma {:induction false} UntiedCounts(rows: seq<ServerRow>, at: int)
    requires Untied(rows)
    ensures CountAt(rows, at) <= 1
    ensures CountAt(rows, at) > 0 ==> exists i :: 0 <= i < |rows| && ChangedAt(rows[i]) == at
  {
    if rows != [] {
      assert Untied(rows[1..]);
      UntiedCounts(rows[1..], at);
      if CountAt(rows[1..], at) > 0 {
        var i :| 0 <= i < |rows[1..]| && ChangedAt(rows[1..][i]) == at;
        assert ChangedAt(rows[i + 1]) == at;
      }
    }
  }

  /** The reference server's ties fit under every page size. */
  lemma TiesAlwaysFit(columns: set<Column>, sv: Server, c: Paging)
    requires Ticked(columns, sv) && Workable(c)
    ensures TiesFit(sv, Largest(c.pageSize, MAX_ATTEMPTS))
  {
    LargestIsLargest(Escalated(c.pageSize), MAX_ATTEMPTS - 1);
    forall at: int ensures CountAt(sv.rows, at) < Largest(c.pageSize, MAX_ATTEMPTS) {
      UntiedCounts(sv.rows, at);
    }
  }

  /**
  Whatever the client and an initially empty reference server went through, with
  failed requests and sessions cut short: as many quiet sessions as changes
  remain bring the client to the end, for every page size up to the largest limit.
  */
  lemma ReferenceServerFinishes(s: Schema, columns: set<Column>, t: Table, c: Paging, db: Db,
                                history: seq<PullEvent>, events: seq<PullEvent>)
    requires ServerSound(columns, NEW_STORE) && Workable(c) && HonestEvents(history)
    requires var st := PullSteps(s, columns, t, c, PullState(NEW_STORE, db, 0, {}), history);
             && QuietEvents(s, columns, t, c, st, events)
             && |events| >= Remaining(st.server, st.cursor)
    ensures var st := PullSteps(s, columns, t, c, PullState(NEW_STORE, db, 0, {}), history);
            var end := PullSteps(s, columns, t, c, st, events);
            end.server == st.server && end.cursor >= st.cursor && Remaining(end.server, end.cursor) == 0
  {
    hide PullSteps, QuietEvents, Remaining;
    var start := PullState(NEW_STORE, db, 0, {});
    var st := PullSteps(s, columns, t, c, start, history);
    NothingIsSkipped(s, columns, t, c, start, history);
    StepsTicked(s, columns, t, c, start, history);
    TiesAlwaysFit(columns, st.server, c);
    QuietSessionsFinish(s, columns, t, c, st, events);
  }

  // ---- how a session ends ------------------------------------------------------------------------------

  /** Where a session stands when it asks for a page. */
  datatype Visit = Visit(server: Server, db: Db, since: int, turns: seq<PullTurn>)

  ghost function VisitFetch(s: Schema, columns: set<Column>, c: Paging, v: Visit): Fetched {
    Fetch(s, columns, v.server, v.db, c, v.since, c.pageSize, MAX_ATTEMPTS, v.turns)
  }

  /** The page was full and moved the cursor, and the next visit is where that leaves the world. */
  ghost predicate Follows(s: Schema, columns: set<Column>, t: Table, c: Paging, v: Visit, w: Visit) {
    var f := VisitFetch(s, columns, c, v);
    && f.got.Some? && |f.got.value.page| >= c.pageSize && f.got.value.page != [] && f.got.value.candidate > v.since
    && ApplyPage(s, f.db, t, f.got.value.page).Some?
    && w == Visit(f.server, ApplyPage(s, f.db, t, f.got.value.page).value, f.got.value.candidate, f.rest)
  }

  ghost predicate IsSession(s: Schema, columns: set<Column>, t: Table, c: Paging, vs: seq<Visit>) {
    forall i | 0 < i < |vs| :: Follows(s, columns, t, c, vs[i - 1], vs[i])
  }

  /**
  A session visits page after page, each after a full one that moved the cursor.
  If it comes to an orderly end before its pages are used up, the last page was
  empty, shorter than the page size, or did not move the cursor.
  */
  lemma {:induction false} SessionVisits(s: Schema, columns: set<Column>, sv: Server, db: Db, t: Table, c: Paging,
                                         since: int, left: nat, last: Option<Got>, turns: seq<PullTurn>)
      returns (vs: seq<Visit>)
    requires left > 0
    ensures 0 < |vs| <= left && vs[0] == Visit(sv, db, since, turns) && IsSession(s, columns, t, c, vs)
    ensures
      var run := Pages(s, columns, sv, db, t, c, since, left, last, turns);
      var f := VisitFetch(s, columns, c, vs[|vs| - 1]);
      && run.server == f.server && run.last == (if run.last.Some? then f.got else None)
      && (run.last.Some? ==>
            && f.got.Some?
            && (|vs| < left ==>
                  || f.got.value.page == [] || |f.got.value.page| < c.pageSize
                  || f.got.value.candidate <= vs[|vs| - 1].since)
            && run.cursor == if f.got.value.page != [] && f.got.value.candidate > vs[|vs| - 1].since
                             then f.got.value.candidate else vs[|vs| - 1].since)
    decreases left
  {
    hide Fetch, ApplyPage;
    var here := Visit(sv, db, since, turns);
    var f := VisitFetch(s, columns, c, here);
    vs := [here];
    if f.got.Some? && f.got.value.page != [] && ApplyPage(s, f.db, t, f.got.value.page).Some? &&
       f.got.value.candidate > since && |f.got.value.page| >= c.pageSize && left > 1 {
      var db' := ApplyPage(s, f.db, t, f.got.value.page).value;
      var rest := SessionVisits(s, columns, f.server, db', t, c, f.got.value.candidate, left - 1, f.got, f.rest);
      vs := [here] + rest;
      assert vs[|vs| - 1] == rest[|rest| - 1];
      forall i | 0 < i < |vs| ensures Follows(s, columns, t, c, vs[i - 1], vs[i]) {
        if i == 1 {
          assert vs[1] == rest[0];
        } else {
          assert vs[i] == rest[i - 1] && vs[i - 1] == rest[i - 2];
        }
      }
    }
  }

  /** What is left after a page of a quiet session. */
  lemma QuietVisit(s: Schema, columns: set<Column>, t: Table, c: Paging, v: Visit)
    requires ServerSound(columns, v.server) && Workable(c) && QuietTurns(v.turns) && 0 <= v.since
    requires TiesFit(v.server, Largest(c.pageSize, MAX_ATTEMPTS))
    ensures var f := VisitFetch(s, columns, c, v);
            && f.server == v.server && QuietTurns(f.rest)
            && (f.got.Some? ==>
                  && (f.got.value.candidate > v.since ==>
                        Remaining(v.server, f.got.value.candidate) < Remaining(v.server, v.since))
                  && (f.got.value.page == [] || f.got.value.candidate <= v.since ==> Remaining(v.server, v.since) == 0)
                  && (|f.got.value.page| < c.pageSize && f.got.value.candidate > v.since ==>
                        Remaining(v.server, f.got.value.candidate) == 0))
  {
    var f := VisitFetch(s, columns, c, v);
    QuietFetch(s, columns, v.server, v.db, c, v.since, c.pageSize, MAX_ATTEMPTS, v.turns);
    if f.got.Some? {
      QuietFetchIsGot(s, columns, v.server, v.db, c, v.since, c.pageSize, MAX_ATTEMPTS, v.turns);
      var got := f.got.value;
      FetchAdvancesIff(columns, v.server, v.since, c.pageSize, MAX_ATTEMPTS);
      assert CountAt(v.server.rows, v.since + 1) < Largest(c.pageSize, MAX_ATTEMPTS);
      if got.candidate > v.since {
        LessRemains(columns, v.server, v.since, got, got.candidate);
        if |got.page| < c.pageSize {
          AskedAtLeast(v.server, v.since, c.pageSize, MAX_ATTEMPTS);
          ShortPageEnds(columns, v.server, v.since, got);
        }
      }
    }
  }

  /** If the turns suffice for a page at all, it is the one the quiet server gives. */
  lemma {:induction false} QuietFetchIsGot(s: Schema, columns: set<Column>, sv: Server, db: Db, c: Paging,
                                           since: int, limit: nat, attempts: nat, turns: seq<PullTurn>)
    requires ServerSound(columns, sv) && c.cursorField == UPDATED_AT && attempts > 0 && QuietTurns(turns)
    requires Fetch(s, columns, sv, db, c, since, limit, attempts, turns).got.Some?
    ensures Fetch(s, columns, sv, db, c, since, limit, attempts, turns).got
         == Some(QuietGot(sv, since, limit, attempts))
    decreases attempts
  {
    hide List, WireAll, ServerSound, ApplyWrites, ChangedAt, CandidateCursor;
    if turns != [] {
      assert turns[0].ops == [] && turns[0].fault.None?;
      assert ServeAll(columns, sv, turns[0].ops) == sv;
      ListedCandidate(columns, sv, since, limit);
      var db' := ApplyWrites(s, db, turns[0].writes);
      if attempts > 1 && Fetch(s, columns, sv, db', c, since, Escalated(limit), attempts - 1, turns[1..]).got.Some? {
        QuietTail(turns);
        QuietFetchIsGot(s, columns, sv, db', c, since, Escalated(limit), attempts - 1, turns[1..]);
      }
    }
  }

  lemma {:induction false} AskedAtLeast(sv: Server, since: int, limit: nat, attempts: nat)
    requires 0 < limit <= MAX_LIMIT
    ensures QuietGot(sv, since, limit, attempts).asked >= limit
    decreases attempts
  {
    if attempts > 1 {
      AskedAtLeast(sv, since, Escalated(limit), attempts - 1);
    }
  }

  /** Behind a page shorter than what was asked for nothing is left. */
  lemma ShortPageEnds(columns: set<Column>, sv: Server, since: int, got: Got)
    requires ServerSound(columns, sv) && Honest(sv, since, got) && |got.page| < got.asked && got.page != []
    ensures Remaining(sv, got.candidate) == 0
  {
    hide WireAll, Resource;
    var rows := List(sv, since, got.asked);
    ListIsPrefix(sv, since, got.asked);
    var end := ChangedAt(rows[|rows| - 1]);
    forall r <- sv.rows ensures ChangedAt(r) <= end {
      if ChangedAt(r) > since {
        assert r in rows;
        var i :| 0 <= i < |rows| && rows[i] == r;
      } else {
        assert rows[|rows| - 1] in rows;
      }
    }
    NoneAfter(sv.rows, end);
  }

  lemma {:induction false} NoneAfter(rows: seq<ServerRow>, at: int)
    requires forall r <- rows :: ChangedAt(r) <= at
    ensures CountAfter(rows, at) == 0
  {
    if rows != [] {
      assert rows[0] in rows;
      forall r <- rows[1..] ensures ChangedAt(r) <= at { assert r in rows; }
      NoneAfter(rows[1..], at);
    }
  }

  lemma {:induction false} QuietVisits(
      s: Schema, columns: set<Column>, t: Table, c: Paging, vs: seq<Visit>, n: nat)
    requires IsSession(s, columns, t, c, vs) && n < |vs| && Workable(c)
    requires ServerSound(columns, vs[0].server) && QuietTurns(vs[0].turns) && 0 <= vs[0].since
    requires TiesFit(vs[0].server, Largest(c.pageSize, MAX_ATTEMPTS))
    ensures vs[n].server == vs[0].server && QuietTurns(vs[n].turns) && 0 <= vs[n].since
    ensures Remaining(vs[0].server, vs[n].since) + n <= Remaining(vs[0].server, vs[0].since)
  {
    hide ServerSound, Remaining, TiesFit, ApplyPage, QuietTurns;
    if n > 0 {
      QuietVisits(s, columns, t, c, vs, n - 1);
      assert Follows(s, columns, t, c, vs[n - 1], vs[n]);
      QuietVisit(s, columns, t, c, vs[n - 1]);
    }
  }

  /**
  One quiet session is enough: if it comes to an orderly end and may fetch as many
  pages as changes remain, nothing remains. It goes on after every full page.
  */
  lemma QuietSessionFinishes(
      s: Schema, columns: set<Column>, sv: Server, db: Db, t: Table, c: Paging, cursor: int, turns: seq<PullTurn>)
    requires ServerSound(columns, sv) && 0 <= cursor && Workable(c) && QuietTurns(turns)
    requires TiesFit(sv, Largest(c.pageSize, MAX_ATTEMPTS)) && c.maxPages >= Remaining(sv, cursor)
    ensures var run := PullSession(s, columns, sv, db, t, c, cursor, turns);
            run.last.Some? ==> run.server == sv && Remaining(sv, run.cursor) == 0
  {
    hide ServerSound, Remaining, TiesFit, Pages, QuietTurns;
    var run := PullSession(s, columns, sv, db, t, c, cursor, turns);
    var vs := SessionVisits(s, columns, sv, db, t, c, cursor, c.maxPages, None, turns);
    var n := |vs| - 1;
    QuietVisits(s, columns, t, c, vs, n);
    QuietVisit(s, columns, t, c, vs[n]);
  }

  /** The session has a turn for every attempt of every page, and each page it gets can be applied. */
  ghost predicate PagesApply(s: Schema, columns: set<Column>, sv: Server, db: Db, t: Table, c: Paging, since: int,
                             left: nat, turns: seq<PullTurn>)
    decreases left
  {
    left > 0 ==>
      var f := Fetch(s, columns, sv, db, c, since, c.pageSize, MAX_ATTEMPTS, turns);
      f.got.Some? && f.got.value.page != [] ==>
        && ApplyPage(s, f.db, t, f.got.value.page).Some?
        && PagesApply(s, columns, f.server, ApplyPage(s, f.db, t, f.got.value.page).value, t, c,
                      f.got.value.candidate, left - 1, f.rest)
  }

  lemma {:induction false} QuietFetchUses(s: Schema, columns: set<Column>, sv: Server, db: Db, c: Paging, since: int,
                                          limit: nat, attempts: nat, turns: seq<PullTurn>)
    requires attempts > 0 && QuietTurns(turns) && |turns| >= attempts
    ensures |Fetch(s, columns, sv, db, c, since, limit, attempts, turns).rest| >= |turns| - attempts
    decreases attempts
  {
    hide List, WireAll, ServeAll, ApplyWrites, CandidateCursor;
    QuietTail(turns);
    FetchUnfolds(s, columns, sv, db, c, since, limit, attempts, turns);
    if attempts > 1 {
      var sv', db' := ServeAll(columns, sv, turns[0].ops), ApplyWrites(s, db, turns[0].writes);
      QuietFetchUses(s, columns, sv', db', c, since, Escalated(limit), attempts - 1, turns[1..]);
    }
  }

  /** And such a session does come to an orderly end. */
  lemma {:induction false} QuietSessionEnds(
      s: Schema, columns: set<Column>, sv: Server, db: Db, t: Table, c: Paging, since: int, left: nat,
      last: Option<Got>, turns: seq<PullTurn>)
    requires ServerSound(columns, sv) && Workable(c) && QuietTurns(turns) && |turns| >= MAX_ATTEMPTS * left
    requires PagesApply(s, columns, sv, db, t, c, since, left, turns) && (left == 0 ==> last.Some?)
    ensures Pages(s, columns, sv, db, t, c, since, left, last, turns).last.Some?
    decreases left
  {
    hide Fetch, ApplyPage, ServerSound;
    if left > 0 {
      var f := Fetch(s, columns, sv, db, c, since, c.pageSize, MAX_ATTEMPTS, turns);
      QuietFetchGets(s, columns, sv, db, c, since, c.pageSize, MAX_ATTEMPTS, turns);
      QuietFetch(s, columns, sv, db, c, since, c.pageSize, MAX_ATTEMPTS, turns);
      QuietFetchUses(s, columns, sv, db, c, since, c.pageSize, MAX_ATTEMPTS, turns);
      if f.got.value.page != [] {
        QuietSessionEnds(s, columns, f.server, ApplyPage(s, f.db, t, f.got.value.page).value, t, c,
                         f.got.value.candidate, left - 1, f.got, f.rest);
      }
    }
  }

  /**
  One quiet session drains the server: with a page for each change that remains
  and turns for all attempts, and pages that the tables accept, nothing remains.
  */
  lemma QuietSessionDrains(
      s: Schema, columns: set<Column>, sv: Server, db: Db, t: Table, c: Paging, cursor: int, turns: seq<PullTurn>)
    requires ServerSound(columns, sv) && 0 <= cursor && Workable(c) && QuietTurns(turns)
    requires TiesFit(sv, Largest(c.pageSize, MAX_ATTEMPTS)) && c.maxPages >= Remaining(sv, cursor)
    requires |turns| >= MAX_ATTEMPTS * c.maxPages && PagesApply(s, columns, sv, db, t, c, cursor, c.maxPages, turns)
    ensures var run := PullSession(s, columns, sv, db, t, c, cursor, turns);
            run.last.Some? && run.server == sv && Remaining(sv, run.cursor) == 0
  {
    hide ServerSound, Remaining, TiesFit, Pages, QuietTurns, PagesApply;
    QuietSessionFinishes(s, columns, sv, db, t, c, cursor, turns);
    QuietSessionEnds(s, columns, sv, db, t, c, cursor, c.maxPages, None, turns);
  }
}
