/**
Runs of the client: local writes, push sessions and pulled pages in any order,
and the same runs cut into the atomic steps they are made of.
*/
module SyncRuns {
  import opened Wrappers
  import opened SyncStore
  import opened SyncApplier
  import opened SyncPush

  datatype Event =
    | WriteE(write: Write)
    | PushE(table: Table, turns: seq<Turn>)
    | PullE(table: Table, page: seq<SyncApplier.Body>)

  /** A request tagged with the row it is about. */
  datatype Logged = Logged(row: Key, sent: Sent)

  datatype Run = Run(db: Db, log: seq<Logged>)

  function Tag(t: Table, log: seq<Sent>): seq<Logged> {
    if log == [] then [] else [Logged(Key(t, log[0].localId), log[0])] + Tag(t, log[1..])
  }

  function Step(s: Schema, db: Db, e: Event): Run {
    match e
    case WriteE(w) => Run(ApplyWrite(s, db, w), [])
    case PushE(t, turns) =>
      var p := PushSession(s, db, t, turns);
      Run(p.db, Tag(t, p.log))
    case PullE(t, page) => Run(ApplyPage(s, db, t, page).GetOr(db), [])
  }

  function Steps(s: Schema, db: Db, events: seq<Event>): Run
    decreases |events|
  {
    if events == [] then Run(db, [])
    else
      var one := Step(s, db, events[0]);
      var rest := Steps(s, one.db, events[1..]);
      Run(rest.db, one.log + rest.log)
  }

  // ---- atomic steps -----------------------------------------------------------------------------

  datatype Atom =
    | WriteA(write: Write)
    | SettleA(table: Table, item: Pushable)
    | ReplyA(table: Table, item: Pushable, request: Request, outcome: Outcome)
    | PageA(table: Table, page: seq<SyncApplier.Body>)

  function Act(s: Schema, db: Db, a: Atom): Db {
    match a
    case WriteA(w) => ApplyWrite(s, db, w)
    case SettleA(t, item) => if Prepare(s, db, t, item).Settled? then Prepare(s, db, t, item).db else db
    case ReplyA(t, item, request, outcome) => Receive(s, db, t, item, request, outcome).db
    case PageA(t, page) => ApplyPage(s, db, t, page).GetOr(db)
  }

  function Acts(s: Schema, db: Db, atoms: seq<Atom>): Db
    decreases |atoms|
  {
    if atoms == [] then db else Acts(s, Act(s, db, atoms[0]), atoms[1..])
  }

  function WriteAtoms(ws: seq<Write>): seq<Atom> {
    if ws == [] then [] else [WriteA(ws[0])] + WriteAtoms(ws[1..])
  }

  function ItemAtoms(s: Schema, db: Db, t: Table, item: Pushable, turn: Turn): seq<Atom> {
    var plan := Prepare(s, ApplyWrites(s, db, turn.before), t, item);
    WriteAtoms(turn.before) +
    if plan.Settled? then [SettleA(t, item)]
    else WriteAtoms(turn.during) + [ReplyA(t, item, plan.request, turn.outcome)]
  }

  function ItemsAtoms(s: Schema, db: Db, t: Table, items: seq<Pushable>, turns: seq<Turn>): seq<Atom>
    decreases |items|
  {
    if items == [] || turns == [] then []
    else
      var one := PushItem(s, db, t, items[0], turns[0]);
      ItemAtoms(s, db, t, items[0], turns[0]) +
      if one.verdict.Offline? then [] else ItemsAtoms(s, one.db, t, items[1..], turns[1..])
  }

  function EventAtoms(s: Schema, db: Db, e: Event): seq<Atom> {
    match e
    case WriteE(w) => [WriteA(w)]
    case PushE(t, turns) => ItemsAtoms(s, db, t, ReadPending(db, t, MAX_PUSH_ITEMS), turns)
    case PullE(t, page) => [PageA(t, page)]
  }

  function Atoms(s: Schema, db: Db, events: seq<Event>): seq<Atom>
    decreases |events|
  {
    if events == [] then []
    else EventAtoms(s, db, events[0]) + Atoms(s, Step(s, db, events[0]).db, events[1..])
  }

  /** The requests among the atoms. */
  function LogOf(atoms: seq<Atom>): seq<Logged> {
    if atoms == [] then []
    else
      var a := atoms[0];
      (if a.ReplyA?
       then [Logged(LocalKey(a.table, a.item), Sent(LocalKey(a.table, a.item).id, a.request, a.outcome))]
       else []) + LogOf(atoms[1..])
  }

  // ---- the two views agree ------------------------------------------------------------------------

  lemma {:induction false} ActsAppend(s: Schema, db: Db, a: seq<Atom>, b: seq<Atom>)
    ensures Acts(s, db, a + b) == Acts(s, Acts(s, db, a), b)
    decreases |a|
  {
    if a == [] {
      assert a + b == b;
    } else {
      assert (a + b)[1..] == a[1..] + b;
      ActsAppend(s, Act(s, db, a[0]), a[1..], b);
    }
  }

  lemma {:induction false} LogAppend(a: seq<Atom>, b: seq<Atom>)
    ensures LogOf(a + b) == LogOf(a) + LogOf(b)
  {
    if a == [] {
      assert a + b == b;
    } else {
      assert (a + b)[1..] == a[1..] + b;
      LogAppend(a[1..], b);
    }
  }

  lemma {:induction false} TagAppend(t: Table, a: seq<Sent>, b: seq<Sent>)
    ensures Tag(t, a + b) == Tag(t, a) + Tag(t, b)
  {
    if a == [] {
      assert a + b == b;
    } else {
      assert (a + b)[1..] == a[1..] + b;
      TagAppend(t, a[1..], b);
    }
  }

  lemma {:induction false} WriteAtomsRun(s: Schema, db: Db, ws: seq<Write>)
    ensures Acts(s, db, WriteAtoms(ws)) == ApplyWrites(s, db, ws) && LogOf(WriteAtoms(ws)) == []
    decreases |ws|
  {
    if ws != [] {
      WriteAtomsRun(s, ApplyWrite(s, db, ws[0]), ws[1..]);
      assert WriteAtoms(ws)[1..] == WriteAtoms(ws[1..]);
    }
  }

  lemma ItemAtomsRun(s: Schema, db: Db, t: Table, item: Pushable, turn: Turn)
    ensures Acts(s, db, ItemAtoms(s, db, t, item, turn)) == PushItem(s, db, t, item, turn).db
    ensures LogOf(ItemAtoms(s, db, t, item, turn)) == Tag(t, PushItem(s, db, t, item, turn).log)
  {
    WriteAtomsRun(s, db, turn.before);
    var ready := ApplyWrites(s, db, turn.before);
    match Prepare(s, ready, t, item)
    case Settled(_, _) =>
      var last := [SettleA(t, item)];
      ActsAppend(s, db, WriteAtoms(turn.before), last);
      LogAppend(WriteAtoms(turn.before), last);
      assert Acts(s, ready, last) == Act(s, ready, last[0]);
    case Send(request) =>
      var last := [ReplyA(t, item, request, turn.outcome)];
      WriteAtomsRun(s, ready, turn.during);
      ActsAppend(s, db, WriteAtoms(turn.before), WriteAtoms(turn.during) + last);
      LogAppend(WriteAtoms(turn.before), WriteAtoms(turn.during) + last);
      ActsAppend(s, ready, WriteAtoms(turn.during), last);
      LogAppend(WriteAtoms(turn.during), last);
      assert Acts(s, ApplyWrites(s, ready, turn.during), last) == Act(s, ApplyWrites(s, ready, turn.during), last[0]);
  }

  lemma {:induction false} ItemsAtomsRun(s: Schema, db: Db, t: Table, items: seq<Pushable>, turns: seq<Turn>)
    ensures Acts(s, db, ItemsAtoms(s, db, t, items, turns)) == PushItems(s, db, t, items, turns).db
    ensures LogOf(ItemsAtoms(s, db, t, items, turns)) == Tag(t, PushItems(s, db, t, items, turns).log)
    decreases |items|
  {
    if items != [] && turns != [] {
      var one := PushItem(s, db, t, items[0], turns[0]);
      var head := ItemAtoms(s, db, t, items[0], turns[0]);
      ItemAtomsRun(s, db, t, items[0], turns[0]);
      if one.verdict.Offline? {
        assert head + [] == head;
      } else {
        ItemsAtomsRun(s, one.db, t, items[1..], turns[1..]);
        ActsAppend(s, db, head, ItemsAtoms(s, one.db, t, items[1..], turns[1..]));
        LogAppend(head, ItemsAtoms(s, one.db, t, items[1..], turns[1..]));
        TagAppend(t, one.log, PushItems(s, one.db, t, items[1..], turns[1..]).log);
      }
    }
  }

  lemma EventAtomsRun(s: Schema, db: Db, e: Event)
    ensures Acts(s, db, EventAtoms(s, db, e)) == Step(s, db, e).db
    ensures LogOf(EventAtoms(s, db, e)) == Step(s, db, e).log
  {
    match e
    case WriteE(w) =>
    case PushE(t, turns) => ItemsAtomsRun(s, db, t, ReadPending(db, t, MAX_PUSH_ITEMS), turns);
    case PullE(t, page) =>
  }

  /** Cutting a run into atomic steps changes neither the database it reaches nor the requests it sends. */
  lemma {:induction false} AtomsRun(s: Schema, db: Db, events: seq<Event>)
    ensures Acts(s, db, Atoms(s, db, events)) == Steps(s, db, events).db
    ensures LogOf(Atoms(s, db, events)) == Steps(s, db, events).log
    decreases |events|
  {
    if events != [] {
      var one := Step(s, db, events[0]);
      EventAtomsRun(s, db, events[0]);
      AtomsRun(s, one.db, events[1..]);
      ActsAppend(s, db, EventAtoms(s, db, events[0]), Atoms(s, one.db, events[1..]));
      LogAppend(EventAtoms(s, db, events[0]), Atoms(s, one.db, events[1..]));
    }
  }
}
