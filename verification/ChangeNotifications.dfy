/**
Change notifications of a database connection: the tables the engine reports
as touched are gathered, and handed to the subscribers once per statement or
once per committed transaction. The connection keeps a flag of its own beside
the engine's transaction, and `execute` takes any text, transaction statements
included.
*/
module ChangeNotifications {

  /** How the engine answered; an aborted statement or commit also rolled the whole transaction back. */
  datatype Outcome = Done | Failed | Aborted

  /** Transaction statements sent as text through `execute`. */
  datatype Control = BeginText | CommitText | RollbackText

  datatype Event =
    | Statement(tables: set<string>, outcome: Outcome)
    | Raw(text: Control, outcome: Outcome)
    | Begin(fails: bool)
    | Commit(outcome: Outcome)
    | Rollback(fails: bool)
    | Subscribe
    | Unsubscribe(id: nat)

  /**
  `touched`, `inTransaction`, `inboxes` and `nextId` are the connection's own.
  `open` is whether the engine has a transaction. Nobody was yet told of the
  tables in `pending`, written in that transaction, and of those in `due`, whose
  writes are committed. `sent` is every notification so far.
  */
  datatype State = State(
    touched: set<string>,
    inTransaction: bool,
    inboxes: map<nat, seq<set<string>>>,
    nextId: nat,
    open: bool,
    pending: set<string>,
    due: set<string>,
    sent: seq<set<string>>)

  const START := State({}, false, map[], 0, false, {}, {}, [])

  function Delivered(inboxes: map<nat, seq<set<string>>>, tables: set<string>): map<nat, seq<set<string>>> {
    map id | id in inboxes :: inboxes[id] + [tables]
  }

  function Flushed(s: State): State {
    if s.touched == {} then s
    else
      s.(touched := {}, pending := s.pending - s.touched, due := s.due - s.touched, sent := s.sent + [s.touched],
         inboxes := Delivered(s.inboxes, s.touched))
  }

  /** The engine has no use for this text now. */
  predicate Refused(s: State, text: Control) { if text.BeginText? then s.open else !s.open }

  /** Whether the call throws. Only `beginTransaction` looks at the connection's own flag. */
  predicate Throws(s: State, e: Event) {
    match e
    case Statement(_, outcome) => outcome != Done
    case Raw(text, outcome) => Refused(s, text) || outcome != Done
    case Begin(fails) => s.inTransaction || s.open || fails
    case Commit(outcome) => !s.open || outcome != Done
    case Rollback(fails) => !s.open || fails
    case Subscribe => false
    case Unsubscribe(_) => false
  }

  /** The engine drops its transaction and everything written in it. */
  function Abandoned(s: State): State { s.(open := false, pending := {}) }

  /** The engine commits its transaction. */
  function Committing(s: State): State { s.(open := false, pending := {}, due := s.due + s.pending) }

  function Obeyed(s: State, text: Control): State {
    match text
    case BeginText => s.(open := true)
    case CommitText => Committing(s)
    case RollbackText => Abandoned(s)
  }

  function Step(s: State, e: Event): State {
    match e
    case Statement(tables, outcome) =>
      var hooked := s.(touched := s.touched + tables);
      if outcome == Aborted then Abandoned(hooked)
      else if outcome == Failed then hooked
      else
        var written := if s.open then hooked.(pending := s.pending + tables) else hooked.(due := s.due + tables);
        if s.inTransaction then written else Flushed(written)
    case Raw(text, outcome) =>
      if Throws(s, e) then (if !Refused(s, text) && outcome == Aborted then Abandoned(s) else s)
      else if s.inTransaction then Obeyed(s, text)
      else Flushed(Obeyed(s, text))
    case Begin(_) => if Throws(s, e) then s else s.(open := true, inTransaction := true)
    case Commit(outcome) =>
      if s.open && outcome == Aborted then Abandoned(s)
      else if Throws(s, e) then s
      else Flushed(Committing(s).(inTransaction := false))
    case Rollback(_) => if Throws(s, e) then s else Abandoned(s).(inTransaction := false, touched := {})
    case Subscribe => s.(inboxes := s.inboxes[s.nextId := []], nextId := s.nextId + 1)
    case Unsubscribe(id) => s.(inboxes := s.inboxes - {id})
  }

  function Steps(s: State, events: seq<Event>): State
    decreases |events|
  {
    if events == [] then s else Steps(Step(s, events[0]), events[1..])
  }

  predicate Sound(s: State) {
    && s.pending <= s.touched
    && (!s.open || !s.inTransaction ==> s.pending == {})
    && forall id <- s.inboxes :: id < s.nextId
  }

  lemma StepIsSound(s: State, e: Event)
    requires Sound(s)
    ensures Sound(Step(s, e))
  {}

  // ---- committed writes are notified ------------------------------------------------------------

  /** The connection believes in a transaction that the engine no longer has. */
  predicate Stuck(s: State) { s.inTransaction && !s.open }

  /** The transaction of `beginTransaction` ended, but not by `commit` or `rollback`. */
  predicate LosesTrack(s: State, e: Event) {
    && s.inTransaction && s.open
    && match e
       case Statement(_, outcome) => outcome == Aborted
       case Raw(text, outcome) => !text.BeginText? && outcome != Failed
       case Commit(outcome) => outcome == Aborted
       case _ => false
  }

  /** A write the engine committed although the connection still waits for its transaction to end. */
  predicate Loses(s: State, e: Event) {
    s.inTransaction && !Throws(s, e) &&
    match e
    case Statement(tables, _) => !s.open && tables != {}
    case Raw(text, _) => text.CommitText? && s.pending != {}
    case _ => false
  }

  ghost predicate EverLoses(s: State, events: seq<Event>)
    decreases |events|
  {
    events != [] && (Loses(s, events[0]) || EverLoses(Step(s, events[0]), events[1..]))
  }

  /** After no step of the run is a committed write still unknown to the subscribers. */
  ghost predicate NeverOwes(s: State, events: seq<Event>)
    decreases |events|
  {
    s.due == {} && (events == [] || NeverOwes(Step(s, events[0]), events[1..]))
  }

  lemma StepOwes(s: State, e: Event)
    requires Sound(s) && s.due == {}
    ensures Step(s, e).due == {} <==> !Loses(s, e)
  {
    if Loses(s, e) {
      assert (if e.Statement? then e.tables else s.pending) <= Step(s, e).due;
    }
  }

  /**
  In any run, transaction statements as text included: every committed write has
  been notified by the end of its statement or commit, unless one was committed
  while the connection believed in a transaction that was not the engine's.
  */
  lemma {:induction false} NotifiedIff(s: State, events: seq<Event>)
    requires Sound(s) && s.due == {}
    ensures NeverOwes(s, events) <==> !EverLoses(s, events)
    decreases |events|
  {
    hide Sound, Step, Loses;
    if events != [] {
      StepIsSound(s, events[0]);
      StepOwes(s, events[0]);
      if Step(s, events[0]).due == {} {
        NotifiedIff(Step(s, events[0]), events[1..]);
      } else {
        assert !NeverOwes(Step(s, events[0]), events[1..]);
      }
    }
  }

  lemma StuckStep(s: State, e: Event)
    requires Sound(s)
    ensures Stuck(Step(s, e)) <==> LosesTrack(s, e) || (Stuck(s) && e != Raw(BeginText, Done))
  {}

  lemma StepsTail(s: State, events: seq<Event>, i: nat)
    requires 0 < i <= |events|
    ensures Steps(s, events[..i]) == Steps(Step(s, events[0]), events[1..][..i - 1])
  {
    assert events[..i][1..] == events[1..][..i - 1];
  }

  /** From step `i` on the connection is stuck: it was so at the start, or lost track in the step before. */
  ghost predicate StuckFrom(s: State, events: seq<Event>, i: nat)
    requires i <= |events|
  {
    if i == 0 then Stuck(s) else LosesTrack(Steps(s, events[..i - 1]), events[i - 1])
  }

  ghost predicate NoBeginText(events: seq<Event>) { Raw(BeginText, Done) !in events }

  /**
  A connection is stuck exactly when it lost track of a transaction and no BEGIN
  was executed as text since.
  */
  lemma {:induction false} StuckIff(s: State, events: seq<Event>)
    requires Sound(s)
    ensures Stuck(Steps(s, events)) <==>
            exists i: nat | i <= |events| :: StuckFrom(s, events, i) && NoBeginText(events[i..])
    decreases |events|
  {
    hide Sound, Step, LosesTrack;
    if events == [] {
      assert NoBeginText(events[0..]);
      assert StuckFrom(s, events, 0) <==> Stuck(s);
    } else {
      var s', rest := Step(s, events[0]), events[1..];
      StepIsSound(s, events[0]);
      StuckStep(s, events[0]);
      StuckIff(s', rest);
      forall i: nat | i <= |rest| ensures rest[i..] == events[i + 1..] {}
      forall i: nat | 0 < i <= |rest| ensures StuckFrom(s', rest, i) == StuckFrom(s, events, i + 1) {
        StepsTail(s, events, i);
      }
      assert events[..0] == [] && events[0..] == events;
      assert StuckFrom(s, events, 1) == LosesTrack(s, events[0]);
      assert NoBeginText(events[0..]) <==> events[0] != Raw(BeginText, Done) && NoBeginText(events[1..]);
      if Stuck(Steps(s, events)) {
        var i: nat :| i <= |rest| && StuckFrom(s', rest, i) && NoBeginText(rest[i..]);
        if i > 0 || LosesTrack(s, events[0]) {
          assert StuckFrom(s, events, i + 1) && NoBeginText(events[i + 1..]);
        } else {
          assert StuckFrom(s, events, 0) && NoBeginText(events[0..]);
        }
      }
      if i: nat :| i <= |events| && StuckFrom(s, events, i) && NoBeginText(events[i..]) {
        if i > 1 {
          assert StuckFrom(s', rest, i - 1) && NoBeginText(rest[i - 1..]);
        } else {
          assert StuckFrom(s', rest, 0) && NoBeginText(rest[0..]);
        }
      }
    }
  }

  /** A stuck connection notifies nothing and goes on owing, whatever is called but a BEGIN as text. */
  lemma {:induction false} StuckNeverNotifies(s: State, events: seq<Event>)
    requires Sound(s) && Stuck(s) && NoBeginText(events)
    ensures Stuck(Steps(s, events)) && Steps(s, events).sent == s.sent && s.due <= Steps(s, events).due
    decreases |events|
  {
    hide Sound;
    if events != [] {
      StepIsSound(s, events[0]);
      StuckNeverNotifies(Step(s, events[0]), events[1..]);
    }
  }

  lemma TwoSteps(s: State, first: Event, second: Event)
    ensures Steps(s, [first, second]) == Step(Step(s, first), second)
  {
    assert [first, second][1..] == [second] && [second][1..] == [];
    assert Steps(Step(s, first), [second]) == Steps(Step(Step(s, first), second), []);
  }

  /**
  The way out of being stuck: BEGIN as text, then `commit`, which tells the
  subscribers everything gathered. Ending with `rollback` instead forgets it:
  what was owed stays owed and nothing is gathered any more.
  */
  lemma WayOut(s: State)
    requires Sound(s) && Stuck(s)
    ensures
      var end := Steps(s, [Raw(BeginText, Done), Commit(Done)]);
      && !end.inTransaction && !end.open && end.due == s.due - s.touched
      && end.sent == s.sent + Notice(s.touched)
    ensures
      var end := Steps(s, [Raw(BeginText, Done), Rollback(false)]);
      && !end.inTransaction && !end.open && end.due == s.due && end.sent == s.sent && end.touched == {}
  {
    TwoSteps(s, Raw(BeginText, Done), Commit(Done));
    TwoSteps(s, Raw(BeginText, Done), Rollback(false));
    if s.touched == {} {
      assert s.due - {} == s.due && s.sent + [] == s.sent;
    }
  }

  ghost predicate EverStuck(s: State, events: seq<Event>)
    decreases |events|
  {
    Stuck(s) || (events != [] && EverStuck(Step(s, events[0]), events[1..]))
  }

  /** A connection that never gets stuck never owes anything. */
  lemma {:induction false} NothingOwed(s: State, events: seq<Event>)
    requires Sound(s) && s.due == {} && !EverStuck(s, events)
    ensures NeverOwes(s, events)
    decreases |events|
  {
    if events != [] {
      hide Sound, Step, Loses;
      StepIsSound(s, events[0]);
      StepOwes(s, events[0]);
      if Loses(s, events[0]) { LosingGetsStuck(s, events[0]); }
      NothingOwed(Step(s, events[0]), events[1..]);
    }
  }

  lemma LosingGetsStuck(s: State, e: Event)
    requires Loses(s, e)
    ensures Stuck(Step(s, e))
  {}

  /** The trap: after the rollback neither COMMIT nor ROLLBACK clears the flag, and the next write is never notified. */
  lemma AbandonedWriteIsLost(table: string)
    ensures
      var run := [Begin(false), Statement({}, Aborted), Rollback(false), Statement({table}, Done)];
      Steps(START, run).due == {table} && Steps(START, run).sent == []
  {
    var run := [Begin(false), Statement({}, Aborted), Rollback(false), Statement({table}, Done)];
    var s2 := Step(Step(START, Begin(false)), Statement({}, Aborted));
    assert run[1..] == [Statement({}, Aborted), Rollback(false), Statement({table}, Done)];
    assert run[1..][1..] == [Rollback(false), Statement({table}, Done)];
    TwoSteps(s2, Rollback(false), Statement({table}, Done));
    assert Steps(Step(START, Begin(false)), run[1..]) == Steps(s2, run[1..][1..]);
  }

  // ---- what a notification lists ----------------------------------------------------------------

  function Notice(tables: set<string>): seq<set<string>> { if tables == {} then [] else [tables] }

  /** Engine and connection agree at every point of the run on whether there is a transaction. */
  ghost predicate InStep(s: State, events: seq<Event>)
    decreases |events|
  {
    s.open == s.inTransaction && (events == [] || InStep(Step(s, events[0]), events[1..]))
  }

  /** The engine begins or ends a transaction behind the connection's back. */
  predicate PartsWays(s: State, e: Event) { LosesTrack(s, e) || (e == Raw(BeginText, Done) && !s.open) }

  ghost predicate EverPartsWays(s: State, events: seq<Event>)
    decreases |events|
  {
    events != [] && (PartsWays(s, events[0]) || EverPartsWays(Step(s, events[0]), events[1..]))
  }

  /** They fall out of step exactly by an engine rollback or by a transaction statement sent as text. */
  lemma {:induction false} InStepIff(s: State, events: seq<Event>)
    requires s.open == s.inTransaction
    ensures InStep(s, events) <==> !EverPartsWays(s, events)
    decreases |events|
  {
    if events != [] {
      var s' := Step(s, events[0]);
      assert s'.open == s'.inTransaction <==> !PartsWays(s, events[0]);
      if s'.open == s'.inTransaction { InStepIff(s', events[1..]); }
    }
  }

  /** The transaction under way, with the tables its successful statements wrote. */
  datatype Scope = Outside | Inside(tables: set<string>)

  /** Whether the step commits something: a statement of its own or the transaction. */
  predicate Commits(scope: Scope, e: Event) {
    if scope.Outside? then e.Statement? && e.outcome == Done else e == Commit(Done)
  }

  function Own(scope: Scope, e: Event): set<string>
    requires Commits(scope, e)
  {
    if scope.Outside? then e.tables else scope.tables
  }

  function Next(scope: Scope, e: Event): Scope {
    match scope
    case Outside => if e == Begin(false) then Inside({}) else Outside
    case Inside(tables) =>
      if e == Commit(Done) || e == Rollback(false) then Outside
      else if e.Statement? && e.outcome == Done then Inside(tables + e.tables)
      else scope
  }

  /** The tables of failed statements, until a flush or a rollback. */
  function Residue(scope: Scope, residue: set<string>, e: Event): set<string> {
    if Commits(scope, e) || (scope.Inside? && e == Rollback(false)) then {}
    else if e.Statement? && e.outcome != Done then residue + e.tables
    else residue
  }

  /** One notification a commit, listing what was committed and the residue of failed statements. */
  function Notices(events: seq<Event>, scope: Scope, residue: set<string>): seq<set<string>>
    decreases |events|
  {
    if events == [] then []
    else
      (if Commits(scope, events[0]) then Notice(Own(scope, events[0]) + residue) else []) +
      Notices(events[1..], Next(scope, events[0]), Residue(scope, residue, events[0]))
  }

  /** One notification a commit, listing what was committed. */
  function CommitNotices(events: seq<Event>, scope: Scope): seq<set<string>>
    decreases |events|
  {
    if events == [] then []
    else
      (if Commits(scope, events[0]) then Notice(Own(scope, events[0])) else []) +
      CommitNotices(events[1..], Next(scope, events[0]))
  }

  predicate InScope(s: State, scope: Scope, residue: set<string>) {
    match scope
    case Outside => !s.inTransaction && !s.open && s.touched == residue
    case Inside(tables) => s.inTransaction && s.open && s.touched == tables + residue
  }

  lemma StepInScope(s: State, e: Event, scope: Scope, residue: set<string>)
    requires InScope(s, scope, residue) && Step(s, e).open == Step(s, e).inTransaction
    ensures InScope(Step(s, e), Next(scope, e), Residue(scope, residue, e))
    ensures Step(s, e).sent == s.sent + if Commits(scope, e) then Notice(Own(scope, e) + residue) else []
  {
    assert {} + residue == residue;
    assert s.sent + [] == s.sent;
    if e.Statement? {
      assert residue + e.tables == e.tables + residue;
      if scope.Inside? {
        assert scope.tables + residue + e.tables == scope.tables + (residue + e.tables);
        assert scope.tables + residue + e.tables == (scope.tables + e.tables) + residue;
      }
    }
  }

  /**
  In any run in which connection and engine stay in step, failing calls
  included: one notification a commit, listing the tables committed and those of
  the statements that failed since the last flush or rollback.
  */
  lemma {:induction false} SentAsExpected(s: State, events: seq<Event>, scope: Scope, residue: set<string>)
    requires InScope(s, scope, residue) && InStep(s, events)
    ensures Steps(s, events).sent == s.sent + Notices(events, scope, residue)
    decreases |events|
  {
    hide Step, InScope, Commits, Own, Next, Residue;
    if events == [] {
      assert s.sent + [] == s.sent;
    } else {
      var e, s' := events[0], Step(s, events[0]);
      assert InStep(s', events[1..]);
      StepInScope(s, e, scope, residue);
      SentAsExpected(s', events[1..], Next(scope, e), Residue(scope, residue, e));
      var now := if Commits(scope, e) then Notice(Own(scope, e) + residue) else [];
      var later := Notices(events[1..], Next(scope, e), Residue(scope, residue, e));
      assert s.sent + now + later == s.sent + (now + later);
    }
  }

  /** A commit that finds a table some failed statement left behind and that it did not write itself. */
  predicate Stale(scope: Scope, residue: set<string>, e: Event) {
    Commits(scope, e) && !(residue <= Own(scope, e))
  }

  ghost predicate EverStale(events: seq<Event>, scope: Scope, residue: set<string>)
    decreases |events|
  {
    && events != []
    && (Stale(scope, residue, events[0]) ||
        EverStale(events[1..], Next(scope, events[0]), Residue(scope, residue, events[0])))
  }

  lemma {:induction false} NotFewer(events: seq<Event>, scope: Scope, residue: set<string>)
    ensures |Notices(events, scope, residue)| >= |CommitNotices(events, scope)|
    decreases |events|
  {
    hide Commits, Own, Next, Residue;
    if events != [] {
      NotFewer(events[1..], Next(scope, events[0]), Residue(scope, residue, events[0]));
      if Commits(scope, events[0]) {
        var own := Own(scope, events[0]);
        assert own <= own + residue;
      }
    }
  }

  lemma SameTail<T>(head: seq<T>, a: seq<T>, b: seq<T>)
    ensures head + a == head + b <==> a == b
  {
    if head + a == head + b {
      assert a == (head + a)[|head|..] && b == (head + b)[|head|..];
    }
  }

  /** The notifications list exactly what was committed if and only if no commit finds such a table. */
  lemma {:induction false} OwnTablesIff(events: seq<Event>, scope: Scope, residue: set<string>)
    ensures Notices(events, scope, residue) == CommitNotices(events, scope) <==> !EverStale(events, scope, residue)
    decreases |events|
  {
    hide Commits, Own, Next, Residue;
    if events != [] {
      var e, rest := events[0], events[1..];
      var scope', residue' := Next(scope, e), Residue(scope, residue, e);
      var all, own := Notices(rest, scope', residue'), CommitNotices(rest, scope');
      if !Stale(scope, residue, e) {
        OwnTablesIff(rest, scope', residue');
        if Commits(scope, e) {
          assert Own(scope, e) + residue == Own(scope, e);
          SameTail(Notice(Own(scope, e)), all, own);
        } else {
          SameTail([], all, own);
        }
      } else {
        NotFewer(rest, scope', residue');
        var mine := Own(scope, e);
        assert mine + residue != mine;
        assert Notices(events, scope, residue) == [mine + residue] + all;
        if mine != {} {
          assert ([mine + residue] + all)[0] != ([mine] + own)[0];
        } else {
          assert CommitNotices(events, scope) == own;
        }
      }
    }
  }

  function Union(notices: seq<set<string>>): set<string> {
    if notices == [] then {} else notices[0] + Union(notices[1..])
  }

  /** Whether the transaction now open, if any, will be committed. */
  predicate WillCommit(events: seq<Event>)
    decreases |events|
  {
    events != [] && (events[0] == Commit(Done) || (events[0] != Rollback(false) && WillCommit(events[1..])))
  }

  /** The tables of the successful writes that end up committed, by looking ahead from each write. */
  function Committed(events: seq<Event>, open: bool): set<string>
    decreases |events|
  {
    if events == [] then {}
    else
      var e, rest := events[0], events[1..];
      var open' := if open then e != Commit(Done) && e != Rollback(false) else e == Begin(false);
      (if e.Statement? && e.outcome == Done && (!open || WillCommit(rest)) then e.tables else {}) +
      Committed(rest, open')
  }

  lemma UnionAcross(a: seq<set<string>>, b: seq<set<string>>)
    ensures Union(a + b) == Union(a) + Union(b)
  {
    if a == [] {
      assert a + b == b;
    } else {
      assert (a + b)[1..] == a[1..] + b;
      UnionAcross(a[1..], b);
    }
  }

  lemma NoticeUnion(tables: set<string>, rest: seq<set<string>>)
    ensures Union(Notice(tables) + rest) == tables + Union(rest)
  {
    UnionAcross(Notice(tables), rest);
    if tables != {} { assert Union([tables]) == tables + Union([]); }
  }

  /** The two readings of "committed" agree: by looking ahead from a write, and by gathering until a commit. */
  lemma {:induction false} CommitNoticesAreCommitted(events: seq<Event>, scope: Scope)
    ensures Union(CommitNotices(events, scope))
         == Committed(events, scope.Inside?) + if scope.Inside? && WillCommit(events) then scope.tables else {}
    decreases |events|
  {
    if events != [] {
      var rest := events[1..];
      var later := CommitNotices(rest, Next(scope, events[0]));
      CommitNoticesAreCommitted(rest, Next(scope, events[0]));
      if Commits(scope, events[0]) {
        NoticeUnion(Own(scope, events[0]), later);
      } else {
        assert [] + later == later;
      }
    }
  }

  /**
  In any run that stays in step: the notifications list, commit by commit,
  exactly the tables committed if and only if no commit finds a table that a
  failed statement left behind and that it did not write; all notifications
  together then name exactly the tables with a committed write.
  */
  lemma OnlyCommittedIsSent(events: seq<Event>)
    requires InStep(START, events)
    ensures Steps(START, events).sent == CommitNotices(events, Outside) <==> !EverStale(events, Outside, {})
    ensures !EverStale(events, Outside, {}) ==> Union(Steps(START, events).sent) == Committed(events, false)
  {
    SentAsExpected(START, events, Outside, {});
    assert START.sent + Notices(events, Outside, {}) == Notices(events, Outside, {});
    OwnTablesIff(events, Outside, {});
    CommitNoticesAreCommitted(events, Outside);
  }

  /** A call that does not fail, and no transaction statement as text. */
  predicate Smooth(e: Event) {
    match e
    case Statement(_, outcome) => outcome == Done
    case Raw(_, _) => false
    case Begin(fails) => !fails
    case Commit(outcome) => outcome == Done
    case Rollback(fails) => !fails
    case Subscribe => true
    case Unsubscribe(_) => true
  }

  /** Runs without failures stay in step, and no commit in them finds anything left behind. */
  lemma {:induction false} SmoothRuns(s: State, events: seq<Event>, scope: Scope)
    requires InScope(s, scope, {}) && forall e <- events :: Smooth(e)
    ensures InStep(s, events) && !EverStale(events, scope, {})
    decreases |events|
  {
    if events != [] {
      var e := events[0];
      assert Smooth(e);
      StepInScope(s, e, scope, {});
      assert Residue(scope, {}, e) == {};
      SmoothRuns(Step(s, e), events[1..], Next(scope, e));
    }
  }

  /** With a failing statement it is not so: what the statement touched is notified with the next write. */
  lemma FailedWriteIsNotifiedLater(a: string, b: string)
    requires a != b
    ensures
      var run := [Statement({a}, Failed), Statement({b}, Done)];
      Steps(START, run).sent == [{a, b}] && Committed(run, false) == {b}
  {
    var run := [Statement({a}, Failed), Statement({b}, Done)];
    TwoSteps(START, run[0], run[1]);
    assert run[1..] == [Statement({b}, Done)] && run[1..][1..] == [];
    assert {} + {a} + {b} == {a, b};
    assert Committed(run[1..], false) == {b} + Committed([], false);
  }

  // ---- subscribers ------------------------------------------------------------------------------

  /** A subscriber hears every notification from the moment it subscribed. */
  lemma {:induction false} SubscriberHearsAll(s: State, events: seq<Event>, id: nat)
    requires Sound(s) && id in s.inboxes && Unsubscribe(id) !in events
    ensures
      var end := Steps(s, events);
      && id in end.inboxes
      && s.sent <= end.sent
      && end.inboxes[id] == s.inboxes[id] + end.sent[|s.sent|..]
    decreases |events|
  {
    hide Sound, Step;
    if events == [] {
      assert s.sent[|s.sent|..] == [];
      assert s.inboxes[id] + [] == s.inboxes[id];
    } else {
      var s' := Step(s, events[0]);
      StepIsSound(s, events[0]);
      StepIsHeard(s, events[0], id);
      SubscriberHearsAll(s', events[1..], id);
      var end := Steps(s', events[1..]);
      assert end.sent[|s.sent|..] == s'.sent[|s.sent|..] + end.sent[|s'.sent|..];
      assert s.inboxes[id] + s'.sent[|s.sent|..] + end.sent[|s'.sent|..]
          == s.inboxes[id] + (s'.sent[|s.sent|..] + end.sent[|s'.sent|..]);
    }
  }

  lemma StepIsHeard(s: State, e: Event, id: nat)
    requires Sound(s) && id in s.inboxes && e != Unsubscribe(id)
    ensures
      var s' := Step(s, e);
      && id in s'.inboxes
      && s.sent <= s'.sent
      && s'.inboxes[id] == s.inboxes[id] + s'.sent[|s.sent|..]
  {
    var s' := Step(s, e);
    if s'.sent == s.sent {
      assert s.sent[|s.sent|..] == [];
      assert s.inboxes[id] + [] == s.inboxes[id];
    } else {
      assert s'.sent[|s.sent|..] == [s'.sent[|s.sent|]];
    }
  }

  lemma {:induction false} StepsAreSound(s: State, events: seq<Event>)
    requires Sound(s)
    ensures Sound(Steps(s, events)) && Steps(s, events).nextId >= s.nextId
    decreases |events|
  {
    hide Sound;
    if events != [] {
      StepIsSound(s, events[0]);
      StepsAreSound(Step(s, events[0]), events[1..]);
    }
  }

  lemma {:induction false} GoneStaysGone(s: State, events: seq<Event>, id: nat)
    requires id < s.nextId && id !in s.inboxes
    ensures id !in Steps(s, events).inboxes
    decreases |events|
  {
    if events != [] {
      GoneStaysGone(Step(s, events[0]), events[1..], id);
    }
  }

  /**
  In any run: a subscription gets an id nobody had, and its inbox is exactly what
  was sent since it was made; from its end on there is no such inbox any more.
  */
  lemma SubscriptionHears(before: seq<Event>, after: seq<Event>, later: seq<Event>)
    requires Unsubscribe(Steps(START, before).nextId) !in after
    ensures
      var s := Steps(START, before);
      var end := Steps(Steps(s, [Subscribe]), after);
      && s.nextId !in s.inboxes && s.nextId in end.inboxes
      && s.sent <= end.sent && end.inboxes[s.nextId] == end.sent[|s.sent|..]
      && s.nextId !in Steps(Steps(end, [Unsubscribe(s.nextId)]), later).inboxes
  {
    var s := Steps(START, before);
    StepsAreSound(START, before);
    assert [Subscribe][1..] == [] && [Unsubscribe(s.nextId)][1..] == [];
    var joined := Step(s, Subscribe);
    assert Steps(s, [Subscribe]) == Steps(joined, []) == joined;
    StepIsSound(s, Subscribe);
    SubscriberHearsAll(joined, after, s.nextId);
    StepsAreSound(joined, after);
    var end := Steps(joined, after);
    assert [] + end.sent[|s.sent|..] == end.sent[|s.sent|..];
    var closed := Step(end, Unsubscribe(s.nextId));
    assert Steps(end, [Unsubscribe(s.nextId)]) == Steps(closed, []) == closed;
    GoneStaysGone(closed, later, s.nextId);
  }

  // ---- the connection's fields ------------------------------------------------------------------

  class Connection {
    var touchedTables: set<string>
    var inTransaction: bool
    var subscribers: map<nat, seq<set<string>>>
    var nextSubscriberId: nat
    var engineOpen: bool
    ghost var pending: set<string>
    ghost var due: set<string>
    ghost var sent: seq<set<string>>

    constructor ()
      ensures View() == START
    {
      touchedTables, inTransaction, subscribers, nextSubscriberId, engineOpen := {}, false, map[], 0, false;
      pending, due, sent := {}, {}, [];
    }

    ghost function View(): State
      reads this
    {
      State(touchedTables, inTransaction, subscribers, nextSubscriberId, engineOpen, pending, due, sent)
    }

    /** Every subscriber is called with the tables gathered, after the set was emptied. */
    method FlushChangeNotifications()
      modifies this
      ensures View() == Flushed(old(View()))
    {
      if touchedTables == {} { return; }
      var tables := touchedTables;
      touchedTables := {};
      pending, due, sent := pending - tables, due - tables, sent + [tables];
      var waiting := subscribers.Keys;
      while waiting != {}
        invariant waiting <= subscribers.Keys == old(subscribers).Keys
        invariant forall id <- subscribers ::
          subscribers[id] == if id in waiting then old(subscribers)[id] else old(subscribers)[id] + [tables]
        decreases waiting
        modifies this`subscribers
      {
        var id :| id in waiting;
        subscribers := subscribers[id := subscribers[id] + [tables]];
        waiting := waiting - {id};
      }
      assert subscribers == Delivered(old(subscribers), tables);
    }

    /** `execute`: the update hook reports `tables` while the statement runs, however it ends. */
    method Execute(tables: set<string>, outcome: Outcome) returns (threw: bool)
      modifies this
      ensures View() == Step(old(View()), Statement(tables, outcome))
      ensures threw == Throws(old(View()), Statement(tables, outcome))
    {
      touchedTables := touchedTables + tables;
      match outcome {
        case Aborted => engineOpen, pending := false, {};
        case Failed =>
        case Done => if engineOpen { pending := pending + tables; } else { due := due + tables; }
      }
      if outcome != Done { return true; }
      if !inTransaction { FlushChangeNotifications(); }
      return false;
    }

    /** `execute` with a transaction statement as its text: the engine obeys, the flag is not touched. */
    method ExecuteControl(text: Control, outcome: Outcome) returns (threw: bool)
      modifies this
      ensures View() == Step(old(View()), Raw(text, outcome))
      ensures threw == Throws(old(View()), Raw(text, outcome))
    {
      if if text.BeginText? then engineOpen else !engineOpen { return true; }
      if outcome == Aborted { engineOpen, pending := false, {}; }
      if outcome != Done { return true; }
      match text {
        case BeginText => engineOpen := true;
        case CommitText => due := due + pending; engineOpen, pending := false, {};
        case RollbackText => engineOpen, pending := false, {};
      }
      if !inTransaction { FlushChangeNotifications(); }
      return false;
    }

    method BeginTransaction(fails: bool) returns (threw: bool)
      modifies this
      ensures View() == Step(old(View()), Begin(fails))
      ensures threw == Throws(old(View()), Begin(fails))
    {
      if inTransaction { return true; }
      if engineOpen || fails { return true; }
      engineOpen := true;
      inTransaction := true;
      return false;
    }

    method CommitTransaction(outcome: Outcome) returns (threw: bool)
      modifies this
      ensures View() == Step(old(View()), Commit(outcome))
      ensures threw == Throws(old(View()), Commit(outcome))
    {
      if !engineOpen { return true; }
      if outcome == Aborted { engineOpen, pending := false, {}; }
      if outcome != Done { return true; }
      due := due + pending;
      engineOpen, pending := false, {};
      inTransaction := false;
      FlushChangeNotifications();
      return false;
    }

    method RollbackTransaction(fails: bool) returns (threw: bool)
      modifies this
      ensures View() == Step(old(View()), Rollback(fails))
      ensures threw == Throws(old(View()), Rollback(fails))
    {
      if !engineOpen || fails { return true; }
      engineOpen, pending := false, {};
      inTransaction := false;
      touchedTables := {};
      return false;
    }

    method Subscribe() returns (id: nat)
      modifies this
      ensures id == old(nextSubscriberId) && View() == Step(old(View()), Event.Subscribe)
    {
      id := nextSubscriberId;
      nextSubscriberId := nextSubscriberId + 1;
      subscribers := subscribers[id := []];
    }

    method Unsubscribe(id: nat)
      modifies this
      ensures View() == Step(old(View()), Event.Unsubscribe(id))
    {
      subscribers := subscribers - {id};
    }
  }
}
