/**
Foreign keys follow identity: whichever of grandparents, parents and children
the server names first, every child keeps naming the same logical parent.
*/
module SyncRelations {
  import opened Wrappers
  import opened SyncStore
  import opened SyncApplier
  import opened SyncReplace
  import opened SyncPush
  import opened SyncRuns
  import opened SyncIdentity
  import opened SyncRows

  /** The logical parent a foreign-key cell names, if the table knows one under that id. */
  function Referent(ms: seq<Meta>, parent: Table, cell: Cell): Option<Id> {
    if cell.Text? then LocalIdOf(ms, Key(parent, cell.s)) else None
  }

  /** The edge of the logical graph that `rel` gives the row `lk`. */
  function Edge(db: Db, lk: Key, rel: Relation): Option<Id> {
    match LogicalRow(db, lk)
    case None => None
    case Some(row) => Referent(db.meta, rel.parentTable, CellOf(row, rel.fkColumn))
  }

  ghost predicate SameGraph(s: Schema, db: Db, db': Db) {
    forall lk, i | LogicalRow(db, lk).Some? && 0 <= i < |s.relations| && s.relations[i].childTable == lk.table ::
      LogicalRow(db', lk).Some? && Edge(db', lk, s.relations[i]) == Edge(db, lk, s.relations[i])
  }

  /** One foreign-key column has one parent: the primary key of `_salve_relations`. */
  ghost predicate RelationsKeyed(s: Schema) {
    forall i, j | 0 <= i < |s.relations| && 0 <= j < |s.relations| ::
      s.relations[i].childTable == s.relations[j].childTable && s.relations[i].fkColumn == s.relations[j].fkColumn ==>
        s.relations[i] == s.relations[j]
  }

  /** No row already refers to `id`, which no row of `parent` has yet. */
  ghost predicate Unreferenced(s: Schema, db: Db, parent: Table, id: Id) {
    forall lk, i | LogicalRow(db, lk).Some? && 0 <= i < |s.relations| &&
                   s.relations[i].childTable == lk.table && s.relations[i].parentTable == parent ::
      CellOf(LogicalRow(db, lk).value, s.relations[i].fkColumn) != Text(id)
  }

  /** The data taken from an answer leaves the row's own foreign keys as they are. */
  ghost predicate EchoKeepsRefs(s: Schema, db: Db, about: Key, fields: Fields) {
    LogicalRow(db, about).Some? ==>
      var row := LogicalRow(db, about).value;
      forall i | 0 <= i < |s.relations| && s.relations[i].childTable == about.table ::
        CellOf(row + EchoCells(s, db, StoredAt(db.meta, about), fields), s.relations[i].fkColumn) ==
        CellOf(row, s.relations[i].fkColumn)
  }

  lemma RefIff(s: Schema, i: nat, parent: Table)
    requires RelationsKeyed(s) && i < |s.relations|
    ensures var rel := s.relations[i];
            IsRef(s.relations, rel.childTable, rel.fkColumn, parent) <==> rel.parentTable == parent
  {
    var rel := s.relations[i];
    if rel.parentTable == parent {
      assert s.relations[i] == Relation(rel.childTable, rel.fkColumn, parent);
    }
  }

  /** The metadata after an answer about row `i`, up to its status. */
  ghost predicate Moves(ms: seq<Meta>, ms': seq<Meta>, i: nat, newId: Id) {
    && i < |ms| == |ms'|
    && forall j | 0 <= j < |ms| ::
         && ms'[j].table == ms[j].table && ms'[j].localId == ms[j].localId
         && ms'[j].entityId == if j == i then newId else ms[j].entityId
  }

  /** Following a rename, a cell keeps its referent; a cell that already held the fresh id would gain one. */
  lemma ReferentFollows(ms: seq<Meta>, ms': seq<Meta>, i: nat, newId: Id, parent: Table, cell: Cell)
    requires Distinct(ms) && Distinct(ms') && Moves(ms, ms', i, newId)
    requires newId != ms[i].entityId ==> !Owned(ms, Key(ms[i].table, newId))
    ensures var cell' := if parent == ms[i].table && cell == Text(ms[i].entityId) then Text(newId) else cell;
            Referent(ms', parent, cell') == Referent(ms, parent, cell)
            <==> (parent == ms[i].table && newId != ms[i].entityId ==> cell != Text(newId))
  {
    if cell.Text? {
      var k := Key(parent, cell.s);
      if k == Key(ms[i].table, ms[i].entityId) {
        EntityIndexUnique(ms, k, i);
        EntityIndexUnique(ms', Key(parent, newId), i);
      } else if FindEntity(ms, k).Some? {
        EntityIndexUnique(ms', k, FindEntity(ms, k).value);
      } else if k == Key(ms[i].table, newId) {
        EntityIndexUnique(ms', k, i);
      } else {
        assert FindEntity(ms', k).None?;
      }
    }
  }

  /** An answer that is carried to its end, told beforehand. */
  predicate Rewrites(s: Schema, db: Db, t: Table, item: Pushable, request: Request, outcome: Outcome) {
    Taken(request, outcome) && Finishes(s, db, LocalKey(t, item), outcome.body.fields)
  }

  /** An applied answer moves one metadata row, or none when it cannot find it. */
  lemma AnswerMoves(s: Schema, server: iset<Id>, db: Db, blocked: set<Key>, t: Table, item: Pushable,
                    request: Request, outcome: Outcome)
    requires Inv(s, server, db, blocked) && AtomFits(s, server, db, blocked, ReplyA(t, item, request, outcome))
    requires Taken(request, outcome)
    ensures var after := Receive(s, db, t, item, request, outcome).db;
            match FindLocal(db.meta, LocalKey(t, item))
            case None => after.meta == db.meta
            case Some(i) =>
              var newId := AnsweredId(s, db.meta, LocalKey(t, item), outcome.body.fields);
              && Moves(db.meta, after.meta, i, newId) && db.meta[i].table == t
              && (newId != db.meta[i].entityId ==>
                    request.Post? && s.pk(t) in outcome.body.fields && !Owned(db.meta, Key(t, newId)))
  {
    hide Inv, RewriteLocalRow, Finishes;
    var body, open := outcome.body, db.(locked := true);
    if FindLocal(db.meta, LocalKey(t, item)).Some? {
      OpenMetas(s, server, db, blocked);
      RecordKeeps(s, server, open, blocked, t, item, request, body);
      var r := RecordRemoteSuccess(s, open, LocalKey(t, item), body).value;
      RewriteFrame(s, r.db, t, r.oldId, r.newId, body);
    }
  }

  lemma OpenMetas(s: Schema, server: iset<Id>, db: Db, blocked: set<Key>)
    requires Inv(s, server, db, blocked)
    ensures MetasSound(server, db.meta, blocked) && Distinct(db.meta)
  {
  }

  /** A rewrite that goes through renames every reference. */
  lemma FinishedPast(s: Schema, db: Db, about: Key, fields: Fields)
    requires Finishes(s, db, about, fields) && AnsweredId(s, db.meta, about, fields) != StoredId(db.meta, about)
    ensures Past(s, db, about, fields) == s.relations
  {
    hide AnsweredId, StoredId;
    var oldId, newId := StoredId(db.meta, about), AnsweredId(s, db.meta, about, fields);
    var renamed := db.(rows := RenamedRows(db.rows, about.table, oldId, newId));
    var cells := LocalCells(s, about.table, fields).value;
    var echoed := EchoedRows(s, renamed, Key(about.table, newId), fields, cells);
    AllowedReachesAll(s, echoed, s.relations, about.table, oldId, newId);
    assert s.relations[..|s.relations|] == s.relations;
  }

  lemma UnmovedPast(s: Schema, db: Db, about: Key, fields: Fields)
    requires AnsweredId(s, db.meta, about, fields) == StoredId(db.meta, about)
    ensures Past(s, db, about, fields) == []
  {
  }

  lemma RewriteEdge(s: Schema, server: iset<Id>, db: Db, blocked: set<Key>, t: Table, item: Pushable,
                    request: Request, outcome: Outcome, lk: Key, i: nat)
    requires Inv(s, server, db, blocked) && AtomFits(s, server, db, blocked, ReplyA(t, item, request, outcome))
    requires Rewrites(s, db, t, item, request, outcome) && LocalKey(t, item) !in blocked && RelationsKeyed(s)
    requires EchoKeepsRefs(s, db, LocalKey(t, item), outcome.body.fields)
    requires LogicalRow(db, lk).Some? && i < |s.relations| && s.relations[i].childTable == lk.table
    ensures var after := Receive(s, db, t, item, request, outcome).db;
            var newId := AnsweredId(s, db.meta, LocalKey(t, item), outcome.body.fields);
            && LogicalRow(after, lk).Some?
            && (Edge(after, lk, s.relations[i]) == Edge(db, lk, s.relations[i])
                <==> (s.relations[i].parentTable == t && newId != StoredAt(db.meta, LocalKey(t, item)).id ==>
                        CellOf(LogicalRow(db, lk).value, s.relations[i].fkColumn) != Text(newId)))
  {
    hide Sound, Finishes, Receive, RewriteReach, EchoCells, AnsweredId, LogicalRow;
    hide MetasSound, IdFits, RequestCurrent, Past, RelationsKeyed;
    var about, fields := LocalKey(t, item), outcome.body.fields;
    var after := Receive(s, db, t, item, request, outcome).db;
    var newId := AnsweredId(s, db.meta, about, fields);
    var j := FindLocal(db.meta, about).value;
    var row := LogicalRow(db, lk).value;
    var rel := s.relations[i];
    FinishedVacates(s, db, about, fields);
    ReceiveKeeps(s, server, db, blocked, t, item, request, outcome);
    AnswerMoves(s, server, db, blocked, t, item, request, outcome);
    OpenMetas(s, server, db, blocked);
    OpenMetas(s, server, after, blocked);
    RewritesLogical(s, server, db, blocked, t, item, request, outcome, lk);
    var merged := if lk == about then row + EchoCells(s, db, StoredAt(db.meta, about), fields) else row;
    assert CellOf(merged, rel.fkColumn) == CellOf(row, rel.fkColumn);
    RefIff(s, i, t);
    if newId == StoredId(db.meta, about) {
      UnmovedPast(s, db, about, fields);
    } else {
      FinishedPast(s, db, about, fields);
      RenameRefsCell(s.relations, lk.table, merged, t, db.meta[j].entityId, newId, rel.fkColumn);
    }
    ReferentFollows(db.meta, after.meta, j, newId, rel.parentTable, CellOf(row, rel.fkColumn));
  }

  lemma FinishedEchoes(s: Schema, db: Db, about: Key, fields: Fields)
    requires Finishes(s, db, about, fields)
    ensures Echoed(s, db, about, fields)
  {
  }

  /** An answer that rewrites an unblocked row, on every logical row. */
  lemma RewritesLogical(s: Schema, server: iset<Id>, db: Db, blocked: set<Key>, t: Table, item: Pushable,
                        request: Request, outcome: Outcome, lk: Key)
    requires Inv(s, server, db, blocked) && AtomFits(s, server, db, blocked, ReplyA(t, item, request, outcome))
    requires Rewrites(s, db, t, item, request, outcome) && LocalKey(t, item) !in blocked
    requires LogicalRow(db, lk).Some?
    ensures var about, fields := LocalKey(t, item), outcome.body.fields;
            var row := LogicalRow(db, lk).value;
            var merged := if lk == about then row + EchoCells(s, db, StoredAt(db.meta, about), fields) else row;
            && FindLocal(db.meta, about).Some?
            && LogicalRow(Receive(s, db, t, item, request, outcome).db, lk)
            == Some(RenameRefs(Past(s, db, about, fields), lk.table, merged, t, StoredId(db.meta, about),
                               AnsweredId(s, db.meta, about, fields)))
  {
    hide Inv, Finishes, Replace, LogicalRow, IdFits, RequestCurrent, MetasSound, Past, EchoCells, AnsweredId, StoredAt;
    hide Vacates, Echoed;
    FinishedVacates(s, db, LocalKey(t, item), outcome.body.fields);
    FinishedEchoes(s, db, LocalKey(t, item), outcome.body.fields);
    ReplaceLogical(s, server, db, blocked, t, item, request, outcome.body.fields, lk);
  }

  /**
  One answered row: the logical graph is the same afterwards exactly when no
  other row already referred to the id the server chose.
  */
  lemma RewriteKeepsGraphIff(s: Schema, server: iset<Id>, db: Db, blocked: set<Key>, t: Table, item: Pushable,
                             request: Request, outcome: Outcome)
    requires Inv(s, server, db, blocked) && AtomFits(s, server, db, blocked, ReplyA(t, item, request, outcome))
    requires Rewrites(s, db, t, item, request, outcome) && LocalKey(t, item) !in blocked && RelationsKeyed(s)
    requires EchoKeepsRefs(s, db, LocalKey(t, item), outcome.body.fields)
    ensures var newId := AnsweredId(s, db.meta, LocalKey(t, item), outcome.body.fields);
            SameGraph(s, db, Receive(s, db, t, item, request, outcome).db)
            <==> newId == StoredAt(db.meta, LocalKey(t, item)).id || Unreferenced(s, db, t, newId)
  {
    hide Inv, Receive, Edge, LogicalRow, EchoKeepsRefs, AnsweredId, StoredAt, AtomFits, Finishes, RelationsKeyed;
    forall lk, i: nat | LogicalRow(db, lk).Some? && i < |s.relations| && s.relations[i].childTable == lk.table
      ensures var after := Receive(s, db, t, item, request, outcome).db;
              var newId := AnsweredId(s, db.meta, LocalKey(t, item), outcome.body.fields);
              && LogicalRow(after, lk).Some?
              && (Edge(after, lk, s.relations[i]) == Edge(db, lk, s.relations[i])
                  <==> (s.relations[i].parentTable == t && newId != StoredAt(db.meta, LocalKey(t, item)).id ==>
                          CellOf(LogicalRow(db, lk).value, s.relations[i].fkColumn) != Text(newId)))
    {
      RewriteEdge(s, server, db, blocked, t, item, request, outcome, lk, i);
    }
  }

  // ---- whole runs -----------------------------------------------------------------------------------

  /** What the step brings for the row `lk` itself, if anything, leaves this cell as it is. */
  ghost predicate LeavesCell(s: Schema, db: Db, a: Atom, lk: Key, col: Column) {
    LogicalRow(db, lk).Some? ==>
      var row := LogicalRow(db, lk).value;
      match a
      case WriteA(w) =>
        w.key == StoredAt(db.meta, lk) ==>
          !w.DeleteW? && (w.UpdateW? ==> CellOf(row + w.cells, col) == CellOf(row, col))
      case SettleA(_, _) => true
      case ReplyA(t, item, request, outcome) =>
        LocalKey(t, item) == lk && Merges(s, db, t, item, request, outcome) ==>
          CellOf(row + EchoCells(s, db, StoredAt(db.meta, lk), outcome.body.fields), col) == CellOf(row, col)
      case PageA(t, page) =>
        t == lk.table ==> CellOf(PageInto(s, StoredAt(db.meta, lk), row, page), col) == CellOf(row, col)
  }

  ghost predicate AllLeaveCell(s: Schema, db: Db, atoms: seq<Atom>, lk: Key, col: Column)
    decreases |atoms|
  {
    atoms == [] ||
    (LeavesCell(s, db, atoms[0], lk, col) && AllLeaveCell(s, Act(s, db, atoms[0]), atoms[1..], lk, col))
  }

  /** The metadata row an edge names. */
  function NamedBy(db: Db, lk: Key, rel: Relation): (j: nat)
    requires Edge(db, lk, rel).Some?
    ensures j < |db.meta| && db.meta[j].table == rel.parentTable && Some(db.meta[j].localId) == Edge(db, lk, rel)
    ensures LogicalRow(db, lk).Some? && CellOf(LogicalRow(db, lk).value, rel.fkColumn) == Text(db.meta[j].entityId)
  {
    FindEntity(db.meta, Key(rel.parentTable, CellOf(LogicalRow(db, lk).value, rel.fkColumn).s)).value
  }

  /** An edge is kept by keeping the parent's metadata row and having the cell name wherever that row now is. */
  lemma EdgeKept(db: Db, db': Db, lk: Key, rel: Relation)
    requires Edge(db, lk, rel).Some? && LogicalRow(db', lk).Some? && Distinct(db'.meta)
    requires var j := NamedBy(db, lk, rel);
             && j < |db'.meta| && db'.meta[j].table == db.meta[j].table && db'.meta[j].localId == db.meta[j].localId
             && CellOf(LogicalRow(db', lk).value, rel.fkColumn) == Text(db'.meta[j].entityId)
    ensures Edge(db', lk, rel) == Edge(db, lk, rel)
  {
    var j := NamedBy(db, lk, rel);
    EntityIndexUnique(db'.meta, Key(rel.parentTable, db'.meta[j].entityId), j);
  }

  /** Steps that move neither the parent nor the cell. */
  lemma UnmovedEdge(db: Db, db': Db, blocked: set<Key>, lk: Key, rel: Relation)
    requires Edge(db, lk, rel).Some? && Distinct(db'.meta) && Grows(db.meta, db'.meta, blocked)
    requires Key(rel.parentTable, Edge(db, lk, rel).value) !in blocked
    requires LogicalRow(db', lk).Some?
    requires CellOf(LogicalRow(db', lk).value, rel.fkColumn) == CellOf(LogicalRow(db, lk).value, rel.fkColumn)
    ensures Edge(db', lk, rel) == Edge(db, lk, rel)
  {
    var j := NamedBy(db, lk, rel);
    assert LocalKeyOf(db.meta[j]) == Key(rel.parentTable, Edge(db, lk, rel).value);
    EdgeKept(db, db', lk, rel);
  }

  /** The cell of an edge after an applied answer: it still names the parent, under its new id if it got one. */
  lemma AnsweredCell(s: Schema, db: Db, lk: Key, about: Key, fields: Fields, i: nat)
    requires RelationsKeyed(s) && i < |s.relations| && s.relations[i].childTable == lk.table && Distinct(db.meta)
    requires Edge(db, lk, s.relations[i]).Some? && FindLocal(db.meta, about).Some?
    requires lk == about && Echoed(s, db, about, fields) ==>
      var row := LogicalRow(db, lk).value;
      CellOf(row + EchoCells(s, db, StoredAt(db.meta, lk), fields), s.relations[i].fkColumn)
      == CellOf(row, s.relations[i].fkColumn)
    requires Key(s.relations[i].parentTable, Edge(db, lk, s.relations[i]).value) == about ==>
      Finishes(s, db, about, fields) || AnsweredId(s, db.meta, about, fields) == StoredId(db.meta, about)
    ensures var rel, j := s.relations[i], NamedBy(db, lk, s.relations[i]);
            && Answered(s, db, lk, about, fields).Some?
            && CellOf(Answered(s, db, lk, about, fields).value, rel.fkColumn)
               == Text(if FindLocal(db.meta, about) == Some(j) then AnsweredId(s, db.meta, about, fields)
                       else db.meta[j].entityId)
  {
    hide Finishes, Echoed, RewriteReach, AnsweredId, EchoCells, RelationsKeyed, Edge;
    var rel, j := s.relations[i], NamedBy(db, lk, s.relations[i]);
    var oldId, newId := StoredId(db.meta, about), AnsweredId(s, db.meta, about, fields);
    var past := Past(s, db, about, fields);
    LocalIndexUnique(db.meta, LocalKeyOf(db.meta[j]), j);
    var row := LogicalRow(db, lk).value;
    var merged := if lk == about && Echoed(s, db, about, fields)
                  then row + EchoCells(s, db, StoredAt(db.meta, about), fields) else row;
    RefIff(s, i, about.table);
    RenameRefsCell(past, lk.table, merged, about.table, oldId, newId, rel.fkColumn);
    if IsRef(past, lk.table, rel.fkColumn, about.table) { PrefixRef(s, |past|, lk.table, rel.fkColumn, about.table); }
    if newId == oldId {
      UnmovedPast(s, db, about, fields);
    } else if FindLocal(db.meta, about) == Some(j) {
      FinishedPast(s, db, about, fields);
    }
  }

  lemma PrefixRef(s: Schema, n: nat, table: Table, col: Column, parent: Table)
    requires n <= |s.relations| && IsRef(s.relations[..n], table, col, parent)
    ensures IsRef(s.relations, table, col, parent)
  {
    var i :| 0 <= i < n && s.relations[..n][i] == Relation(table, col, parent);
    assert s.relations[i] == Relation(table, col, parent);
  }

  /** An answer keeps every edge, whichever row it is about and however far its rewrite came. */
  lemma ReplyKeepsEdge(s: Schema, server: iset<Id>, db: Db, blocked: set<Key>, a: Atom, lk: Key, i: nat)
    requires Inv(s, server, db, blocked) && AtomFits(s, server, db, blocked, a) && a.ReplyA? && RelationsKeyed(s)
    requires i < |s.relations| && s.relations[i].childTable == lk.table && Edge(db, lk, s.relations[i]).Some?
    requires LeavesCell(s, db, a, lk, s.relations[i].fkColumn)
    requires var parent := Key(s.relations[i].parentTable, Edge(db, lk, s.relations[i]).value);
             && lk !in Blocks(s, db, blocked, a) && parent !in Blocks(s, db, blocked, a)
             && parent !in Unfinishes(s, db, {}, a)
    ensures Edge(Act(s, db, a), lk, s.relations[i]) == Edge(db, lk, s.relations[i])
  {
    hide Sound, Finishes, Vacates, Echoed, Receive, EchoCells, AnsweredId, Answered;
    hide RelationsKeyed, IdFits, RequestCurrent, Tracked;
    var t, item, request, outcome := a.table, a.item, a.request, a.outcome;
    var rel, j := s.relations[i], NamedBy(db, lk, s.relations[i]);
    var d, blocked' := Act(s, db, a), Blocks(s, db, blocked, a);
    ReceiveKeeps(s, server, db, blocked, t, item, request, outcome);
    ReplyLogical(s, server, db, blocked, t, item, request, outcome, lk);
    OpenMetas(s, server, db, blocked);
    OpenMetas(s, server, d, blocked');
    if !Taken(request, outcome) {
      UntakenReply(s, server, db, blocked, t, item, request, outcome);
      UnmovedEdge(db, d, {}, lk, rel);
    } else if FindLocal(db.meta, LocalKey(t, item)).None? {
      AnswerMoves(s, server, db, blocked, t, item, request, outcome);
      LostReplaceLogical(s, db, t, item, outcome.body.fields, lk);
      UnmovedEdge(db, d, {}, lk, rel);
    } else {
      AnswerMoves(s, server, db, blocked, t, item, request, outcome);
      AnsweredCell(s, db, lk, LocalKey(t, item), outcome.body.fields, i);
      EdgeKept(db, d, lk, rel);
    }
  }

  lemma StepKeepsEdge(s: Schema, server: iset<Id>, db: Db, blocked: set<Key>, a: Atom, lk: Key, i: nat)
    requires Inv(s, server, db, blocked) && AtomFits(s, server, db, blocked, a) && RelationsKeyed(s)
    requires i < |s.relations| && s.relations[i].childTable == lk.table && Edge(db, lk, s.relations[i]).Some?
    requires LeavesCell(s, db, a, lk, s.relations[i].fkColumn)
    requires var parent := Key(s.relations[i].parentTable, Edge(db, lk, s.relations[i]).value);
             && lk !in Blocks(s, db, blocked, a) && parent !in Blocks(s, db, blocked, a)
             && parent !in Unfinishes(s, db, {}, a)
    ensures Edge(Act(s, db, a), lk, s.relations[i]) == Edge(db, lk, s.relations[i])
  {
    hide Sound, RelationsKeyed, PageInto;
    var rel, d := s.relations[i], Act(s, db, a);
    var j := NamedBy(db, lk, rel);
    match a
    case WriteA(w) =>
      WriteKeeps(s, server, db, blocked, w);
      WriteLogical(s, server, db, blocked, w, lk);
      OpenMetas(s, server, d, blocked);
      UnmovedEdge(db, d, {}, lk, rel);
    case SettleA(t, item) =>
      SettleKeeps(s, server, db, blocked, t, item);
      AtomLogical(s, server, db, blocked, a, lk);
      OpenMetas(s, server, d, blocked);
      UnmovedEdge(db, d, {}, lk, rel);
    case ReplyA(_, _, _, _) => ReplyKeepsEdge(s, server, db, blocked, a, lk, i);
    case PageA(t, page) =>
      PageKeeps(s, server, db, blocked, t, page);
      AtomLogical(s, server, db, blocked, a, lk);
      OpenMetas(s, server, d, blocked);
      UnmovedEdge(db, d, blocked, lk, rel);
  }

  lemma {:induction false} StepsKeepEdge(s: Schema, server: iset<Id>, db: Db, blocked: set<Key>,
                                         unfinished: set<Key>, atoms: seq<Atom>, lk: Key, i: nat)
    requires Inv(s, server, db, blocked) && AtomsFit(s, server, db, blocked, atoms) && RelationsKeyed(s)
    requires i < |s.relations| && s.relations[i].childTable == lk.table && Edge(db, lk, s.relations[i]).Some?
    requires AllLeaveCell(s, db, atoms, lk, s.relations[i].fkColumn)
    requires var blocked', parent := BlockedAfter(s, db, blocked, atoms),
                                     Key(s.relations[i].parentTable, Edge(db, lk, s.relations[i]).value);
             lk !in blocked' && parent !in blocked' && parent !in UnfinishedAfter(s, db, unfinished, atoms)
    ensures Edge(Acts(s, db, atoms), lk, s.relations[i]) == Edge(db, lk, s.relations[i])
    decreases |atoms|
  {
    hide Inv, AtomFits, Act, Blocks, Edge, LeavesCell, RelationsKeyed, Finishes, Names;
    if atoms != [] {
      var next, mid := Act(s, db, atoms[0]), Blocks(s, db, blocked, atoms[0]);
      AtomKeeps(s, server, db, blocked, atoms[0]);
      StepKeepsEdge(s, server, db, blocked, atoms[0], lk, i);
      StepsKeepEdge(s, server, next, mid, Unfinishes(s, db, unfinished, atoms[0]), atoms[1..], lk, i);
    }
  }

  /**
  Over any run of local writes, push sessions of any tables in any order, and
  pulled pages: a foreign key that names a logical parent names the same parent
  at the end, whatever ids parent and child were given meanwhile, as long as
  neither is stranded, the parent's create was carried to its end, and
  nothing the run brings for the child itself changes that cell.
  */
  lemma ForeignKeysFollow(
      s: Schema, server: iset<Id>, db: Db, blocked: set<Key>, events: seq<Event>, lk: Key, i: nat)
    requires Inv(s, server, db, blocked) && EventsFit(s, server, db, blocked, events) && RelationsKeyed(s)
    requires i < |s.relations| && s.relations[i].childTable == lk.table && Edge(db, lk, s.relations[i]).Some?
    requires AllLeaveCell(s, db, Atoms(s, db, events), lk, s.relations[i].fkColumn)
    requires var blocked', parent := BlockedIn(s, db, blocked, events),
                                     Key(s.relations[i].parentTable, Edge(db, lk, s.relations[i]).value);
             lk !in blocked' && parent !in blocked' && parent !in UnfinishedIn(s, db, {}, events)
    ensures Edge(Steps(s, db, events).db, lk, s.relations[i]) == Edge(db, lk, s.relations[i])
  {
    hide Inv, Edge, RelationsKeyed;
    EventsAreAtoms(s, server, db, blocked, events);
    AtomsRun(s, db, events);
    StepsKeepEdge(s, server, db, blocked, {}, Atoms(s, db, events), lk, i);
  }

  /** The cells beside foreign keys: an answer changes none but those it writes over its own row. */
  lemma AnswerKeepsOtherCells(s: Schema, server: iset<Id>, db: Db, blocked: set<Key>, t: Table, item: Pushable,
                              request: Request, outcome: Outcome, lk: Key, col: Column)
    requires Inv(s, server, db, blocked) && AtomFits(s, server, db, blocked, ReplyA(t, item, request, outcome))
    requires LogicalRow(db, lk).Some? && lk !in Blocks(s, db, blocked, ReplyA(t, item, request, outcome))
    requires !IsRef(s.relations, lk.table, col, t)
    ensures var after := LogicalRow(Receive(s, db, t, item, request, outcome).db, lk);
            var echo := if lk == LocalKey(t, item) && Merges(s, db, t, item, request, outcome)
                        then EchoCells(s, db, StoredAt(db.meta, lk), outcome.body.fields) else map[];
            && after.Some?
            && CellOf(after.value, col) == if col in echo then echo[col] else CellOf(LogicalRow(db, lk).value, col)
  {
    hide Inv, Receive, AnsweredId, StoredId, StoredAt, EchoCells, Echoed, AtomFits, Blocks, IsRef;
    hide RewriteReach;
    ReplyLogical(s, server, db, blocked, t, item, request, outcome, lk);
    if Taken(request, outcome) {
      var about, fields := LocalKey(t, item), outcome.body.fields;
      var row := LogicalRow(db, lk).value;
      var merged := if lk == about && Echoed(s, db, about, fields)
                    then row + EchoCells(s, db, StoredAt(db.meta, about), fields) else row;
      var past := Past(s, db, about, fields);
      if IsRef(past, lk.table, col, t) { PrefixRef(s, |past|, lk.table, col, t); }
      RenameRefsCell(past, lk.table, merged, t, StoredId(db.meta, about), AnsweredId(s, db.meta, about, fields), col);
    }
  }
}
