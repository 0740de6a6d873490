/**
`SyncPullPhase`: paging through the server's changes. Server writes land between
any two requests, local writes between an answer and what the client does next.
*/
module SyncPull {
  import opened Wrappers
  import opened SyncStore
  import opened SyncApplier
  import opened SyncServer

  const MAX_ATTEMPTS := 4
  const MAX_LIMIT := 2000

  datatype Paging = Paging(pageSize: nat, maxPages: nat, cursorField: Column)

  datatype ListOutcome = ListNetworkError | ListAnswer(status: int, rows: Option<seq<Body>>)

  /**
  The world around one list request: server writes before it, an answer that is
  not the server's own if `fault` says so, local writes after it.
  */
  datatype PullTurn = PullTurn(ops: seq<ServerOp>, fault: Option<ListOutcome>, writes: seq<Write>)

  /** What the session throws on becomes None. */
  function ReadList(outcome: ListOutcome): Option<seq<Body>> {
    match outcome
    case ListNetworkError => None
    case ListAnswer(status, rows) => if 200 <= status < 300 then rows else None
  }

  /** One millisecond before the last row's change; None when it carries no time to go by. */
  function CandidateCursor(last: Body, cursorField: Column): Option<int> {
    if last.NoObject? then None
    else
      match Number(last.fields, DELETED_AT)
      case Some(at) => Some(at - 1)
      case None =>
        match Number(last.fields, cursorField)
        case Some(at) => Some(at - 1)
        case None => None
  }

  /** `min(limit * 8, 2000)`. */
  function Escalated(limit: nat): nat {
    if limit * 8 < MAX_LIMIT then limit * 8 else MAX_LIMIT
  }

  function Answer(sv: Server, since: int, limit: nat, turn: PullTurn): ListOutcome {
    match turn.fault
    case Some(outcome) => outcome
    case None => ListAnswer(200, Some(WireAll(List(sv, since, limit))))
  }

  /** A page, the limit that was asked for, and the cursor it proposes. */
  datatype Got = Got(page: seq<Body>, asked: nat, candidate: int)

  /** `got` is None when the session ended: by an exception, or because the process did. */
  datatype Fetched = Fetched(server: Server, db: Db, got: Option<Got>, rest: seq<PullTurn>)

  /** Asks again with a bigger limit as long as a full page would not move the cursor. */
  function Fetch(s: Schema, cols: set<Column>, sv: Server, db: Db, c: Paging, since: int, limit: nat, attempts: nat,
                 turns: seq<PullTurn>): Fetched
    requires attempts > 0
    decreases |turns|
  {
    if turns == [] then Fetched(sv, db, None, [])
    else
      var sv' := ServeAll(cols, sv, turns[0].ops);
      var db' := ApplyWrites(s, db, turns[0].writes);
      match ReadList(Answer(sv', since, limit, turns[0]))
      case None => Fetched(sv', db', None, turns[1..])
      case Some(page) =>
        if page == [] then Fetched(sv', db', Some(Got(page, limit, since)), turns[1..])
        else
          match CandidateCursor(page[|page| - 1], c.cursorField)
          case None => Fetched(sv', db', None, turns[1..])
          case Some(candidate) =>
            if candidate > since || |page| != limit || attempts == 1
            then Fetched(sv', db', Some(Got(page, limit, candidate)), turns[1..])
            else Fetch(s, cols, sv', db', c, since, Escalated(limit), attempts - 1, turns[1..])
  }

  /** Where a pull session leaves the world; `last` is its last page if it came to an orderly end. */
  datatype PullRun = PullRun(server: Server, db: Db, cursor: int, last: Option<Got>, applied: seq<Body>)

  function Pages(s: Schema, cols: set<Column>, sv: Server, db: Db, t: Table, c: Paging, since: int, left: nat,
                 last: Option<Got>, turns: seq<PullTurn>): PullRun
    decreases left
  {
    if left == 0 then PullRun(sv, db, since, last, [])
    else
      var f := Fetch(s, cols, sv, db, c, since, c.pageSize, MAX_ATTEMPTS, turns);
      match f.got
      case None => PullRun(f.server, f.db, since, None, [])
      case Some(got) =>
        if got.page == [] then PullRun(f.server, f.db, since, Some(got), [])
        else
          match ApplyPage(s, f.db, t, got.page)
          case None => PullRun(f.server, f.db, since, None, [])
          case Some(db') =>
            if got.candidate <= since then PullRun(f.server, db', since, Some(got), got.page)
            else if |got.page| < c.pageSize then PullRun(f.server, db', got.candidate, Some(got), got.page)
            else
              var rest := Pages(s, cols, f.server, db', t, c, got.candidate, left - 1, Some(got), f.rest);
              rest.(applied := got.page + rest.applied)
  }

  function PullSession(s: Schema, cols: set<Column>, sv: Server, db: Db, t: Table, c: Paging, cursor: int,
                       turns: seq<PullTurn>): PullRun {
    Pages(s, cols, sv, db, t, c, cursor, c.maxPages, None, turns)
  }
}
