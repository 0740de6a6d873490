/**
The throttled trigger for background syncs. A dispatch is deferred, runs
against the bridge of its own registration, and finishes some time later; new
requests and registrations may come at any point in between.
*/
module SyncTrigger {
  import opened Wrappers

  const READ_SYNC_THROTTLE_MS := 5000

  /** Deferred, then either running its sync or skipped, then finished. */
  datatype Stage = Deferred | Running | Skipped | Finished

  datatype Task = Task(schema: string, token: nat, bridge: nat, at: int, stage: Stage)

  /** A call of `triggerSync`: for which task, and under which registration it was made. */
  datatype Fired = Fired(task: nat, token: nat, bridge: nat)

  /** The module's variables, with every dispatch, trigger and registration so far. */
  datatype State = State(
    bridge: Option<nat>,
    token: nat,
    lastAttemptAt: map<string, int>,
    inFlight: set<string>,
    tasks: seq<Task>,
    fired: seq<Fired>,
    registrations: seq<nat>)

  const START := State(None, 0, map[], {}, [], [], [])

  datatype Event =
    | Register(bridge: nat)
    | Request(schema: string, now: int)
    | RunDeferred(task: nat)
    | Complete(task: nat)

  predicate Accepts(s: State, schema: string, now: int) {
    && s.bridge.Some?
    && schema !in s.inFlight
    && (schema in s.lastAttemptAt ==> now - s.lastAttemptAt[schema] >= READ_SYNC_THROTTLE_MS)
  }

  function Step(s: State, e: Event): State {
    match e
    case Register(bridge) =>
      s.(bridge := Some(bridge), token := s.token + 1, lastAttemptAt := map[], inFlight := {},
         registrations := s.registrations + [bridge])
    case Request(schema, now) =>
      if !Accepts(s, schema, now) then s
      else
        s.(lastAttemptAt := s.lastAttemptAt[schema := now], inFlight := s.inFlight + {schema},
           tasks := s.tasks + [Task(schema, s.token, s.bridge.value, now, Deferred)])
    case RunDeferred(id) =>
      if id >= |s.tasks| || s.tasks[id].stage != Deferred then s
      else if s.token != s.tasks[id].token then s.(tasks := s.tasks[id := s.tasks[id].(stage := Skipped)])
      else
        s.(tasks := s.tasks[id := s.tasks[id].(stage := Running)],
           fired := s.fired + [Fired(id, s.token, s.tasks[id].bridge)])
    case Complete(id) =>
      if id >= |s.tasks| || s.tasks[id].stage !in {Running, Skipped} then s
      else
        var task := s.tasks[id];
        s.(tasks := s.tasks[id := task.(stage := Finished)],
           inFlight := if s.token == task.token then s.inFlight - {task.schema} else s.inFlight)
  }

  function Steps(s: State, events: seq<Event>): State
    decreases |events|
  {
    if events == [] then s else Steps(Step(s, events[0]), events[1..])
  }

  // ---- what every schedule keeps ----------------------------------------------------------------

  /** A task of the current registration for the schema that has not finished. */
  ghost predicate Busy(tasks: seq<Task>, token: nat, schema: string) {
    exists i :: 0 <= i < |tasks| && tasks[i].schema == schema && tasks[i].token == token && tasks[i].stage != Finished
  }

  /** Dispatches of one schema under one registration never overlap and keep their distance. */
  predicate Spaced(tasks: seq<Task>) {
    forall i, j :: 0 <= i < j < |tasks| && tasks[i].schema == tasks[j].schema && tasks[i].token == tasks[j].token ==>
      tasks[i].stage == Finished && tasks[j].at - tasks[i].at >= 5000
  }

  /** No time is recorded that is before an attempt of this registration, nor without one. */
  predicate Recorded(tasks: seq<Task>, token: nat, lastAttemptAt: map<string, int>) {
    && (forall i :: 0 <= i < |tasks| && tasks[i].token == token ==>
          tasks[i].schema in lastAttemptAt && tasks[i].at <= lastAttemptAt[tasks[i].schema])
    && (forall schema <- lastAttemptAt ::
          exists i :: 0 <= i < |tasks| && tasks[i].token == token && tasks[i].schema == schema
                   && tasks[i].at == lastAttemptAt[schema])
  }

  predicate Registered(s: State) {
    && |s.registrations| == s.token
    && s.bridge == (if s.token == 0 then None else Some(s.registrations[s.token - 1]))
    && forall i :: 0 <= i < |s.tasks| ==>
         0 < s.tasks[i].token <= s.token && s.tasks[i].bridge == s.registrations[s.tasks[i].token - 1]
  }

  /** Each sync was triggered while its own registration was current, once, on that registration's bridge. */
  predicate FiredRight(tasks: seq<Task>, fired: seq<Fired>) {
    && (forall k :: 0 <= k < |fired| ==>
          var f := fired[k];
          && f.task < |tasks|
          && f.token == tasks[f.task].token
          && f.bridge == tasks[f.task].bridge
          && tasks[f.task].stage in {Running, Finished})
    && (forall j, k :: 0 <= j < k < |fired| ==> fired[j].task != fired[k].task)
  }

  ghost predicate Inv(s: State) {
    && Registered(s)
    && Spaced(s.tasks)
    && Recorded(s.tasks, s.token, s.lastAttemptAt)
    && (forall schema: string :: schema in s.inFlight <==> Busy(s.tasks, s.token, schema))
    && FiredRight(s.tasks, s.fired)
  }

  lemma RegisterKeeps(s: State, bridge: nat)
    requires Inv(s)
    ensures Inv(Step(s, Register(bridge)))
  {
    var s' := Step(s, Register(bridge));
    assert forall i :: 0 <= i < |s.tasks| ==> s.tasks[i].token < s'.token;
    assert forall k :: 0 <= k < |s.registrations| ==> s'.registrations[k] == s.registrations[k];
  }

  lemma BusyAppend(tasks: seq<Task>, task: Task, token: nat, schema: string)
    ensures Busy(tasks + [task], token, schema)
       <==> Busy(tasks, token, schema) || (task.schema == schema && task.token == token && task.stage != Finished)
  {
    var all := tasks + [task];
    if Busy(tasks, token, schema) {
      var i :| 0 <= i < |tasks| && tasks[i].schema == schema && tasks[i].token == token && tasks[i].stage != Finished;
      assert all[i] == tasks[i];
    }
    if task.schema == schema && task.token == token && task.stage != Finished {
      assert all[|tasks|] == task;
    }
  }

  lemma RecordedAppend(tasks: seq<Task>, task: Task, last: map<string, int>)
    requires Recorded(tasks, task.token, last)
    requires task.schema in last ==> task.at >= last[task.schema]
    ensures Recorded(tasks + [task], task.token, last[task.schema := task.at])
  {
    var all, last' := tasks + [task], last[task.schema := task.at];
    forall x | x in last'
      ensures exists i :: 0 <= i < |all| && all[i].token == task.token && all[i].schema == x && all[i].at == last'[x]
    {
      if x == task.schema {
        assert all[|tasks|].at == task.at;
      } else {
        var i :| 0 <= i < |tasks| && tasks[i].token == task.token && tasks[i].schema == x && tasks[i].at == last[x];
        assert all[i] == tasks[i];
      }
    }
  }

  lemma SpacedAppend(tasks: seq<Task>, task: Task, last: map<string, int>)
    requires Spaced(tasks) && Recorded(tasks, task.token, last) && !Busy(tasks, task.token, task.schema)
    requires task.schema in last ==> task.at - last[task.schema] >= READ_SYNC_THROTTLE_MS
    ensures Spaced(tasks + [task])
  {
    forall i | 0 <= i < |tasks| && tasks[i].schema == task.schema && tasks[i].token == task.token
      ensures tasks[i].stage == Finished && task.at - tasks[i].at >= READ_SYNC_THROTTLE_MS
    {}
  }

  lemma RequestKeeps(s: State, schema: string, now: int)
    requires Inv(s) && Accepts(s, schema, now)
    ensures Inv(Step(s, Request(schema, now)))
  {
    hide Busy, Spaced, Recorded, FiredRight;
    var s' := Step(s, Request(schema, now));
    var task := Task(schema, s.token, s.bridge.value, now, Deferred);
    assert !Busy(s.tasks, s.token, schema);
    SpacedAppend(s.tasks, task, s.lastAttemptAt);
    RecordedAppend(s.tasks, task, s.lastAttemptAt);
    forall x: string ensures x in s'.inFlight <==> Busy(s'.tasks, s'.token, x) {
      BusyAppend(s.tasks, task, s.token, x);
    }
    FiredAppend(s, task);
  }

  lemma FiredAppend(s: State, task: Task)
    requires FiredRight(s.tasks, s.fired)
    ensures FiredRight(s.tasks + [task], s.fired)
  {}

  /** A task moving on without finishing changes nothing the other facts speak of. */
  lemma MoveKeeps(tasks: seq<Task>, id: nat, stage: Stage, token: nat, lastAttemptAt: map<string, int>)
    requires id < |tasks| && Spaced(tasks) && Recorded(tasks, token, lastAttemptAt)
    requires tasks[id].stage == Finished ==> stage == Finished
    ensures
      var tasks' := tasks[id := tasks[id].(stage := stage)];
      Spaced(tasks') && Recorded(tasks', token, lastAttemptAt)
  {
    var tasks' := tasks[id := tasks[id].(stage := stage)];
    forall schema | schema in lastAttemptAt
      ensures exists i :: 0 <= i < |tasks'| && tasks'[i].token == token && tasks'[i].schema == schema
                       && tasks'[i].at == lastAttemptAt[schema]
    {
      var i :| 0 <= i < |tasks| && tasks[i].token == token && tasks[i].schema == schema &&
               tasks[i].at == lastAttemptAt[schema];
      assert tasks'[i].at == tasks[i].at;
    }
  }

  lemma BusyWhileMoving(tasks: seq<Task>, id: nat, stage: Stage, token: nat, schema: string)
    requires id < |tasks| && tasks[id].stage != Finished && stage != Finished
    ensures Busy(tasks[id := tasks[id].(stage := stage)], token, schema) <==> Busy(tasks, token, schema)
  {
    var tasks' := tasks[id := tasks[id].(stage := stage)];
    if Busy(tasks, token, schema) {
      var i :| 0 <= i < |tasks| && tasks[i].schema == schema && tasks[i].token == token && tasks[i].stage != Finished;
      assert tasks'[i].schema == schema;
    }
  }

  lemma RunKeeps(s: State, id: nat)
    requires Inv(s)
    ensures Inv(Step(s, RunDeferred(id)))
  {
    if id < |s.tasks| && s.tasks[id].stage == Deferred {
      hide Busy, Spaced, Recorded, FiredRight;
      var s' := Step(s, RunDeferred(id));
      MoveKeeps(s.tasks, id, s'.tasks[id].stage, s.token, s.lastAttemptAt);
      forall x: string ensures x in s'.inFlight <==> Busy(s'.tasks, s'.token, x) {
        BusyWhileMoving(s.tasks, id, s'.tasks[id].stage, s.token, x);
      }
    }
  }

  lemma BusyAfterFinish(tasks: seq<Task>, id: nat, token: nat, schema: string)
    requires id < |tasks| && tasks[id].stage != Finished && Spaced(tasks)
    ensures Busy(tasks[id := tasks[id].(stage := Finished)], token, schema)
       <==> Busy(tasks, token, schema) && !(tasks[id].schema == schema && tasks[id].token == token)
  {
    var tasks' := tasks[id := tasks[id].(stage := Finished)];
    if Busy(tasks, token, schema) && !(tasks[id].schema == schema && tasks[id].token == token) {
      var i :| 0 <= i < |tasks| && tasks[i].schema == schema && tasks[i].token == token && tasks[i].stage != Finished;
      assert tasks'[i] == tasks[i];
    }
  }

  lemma CompleteKeeps(s: State, id: nat)
    requires Inv(s)
    ensures Inv(Step(s, Complete(id)))
  {
    hide Busy, Spaced, Recorded;
    if id < |s.tasks| && s.tasks[id].stage in {Running, Skipped} {
      var s' := Step(s, Complete(id));
      MoveKeeps(s.tasks, id, Finished, s.token, s.lastAttemptAt);
      forall x: string ensures x in s'.inFlight <==> Busy(s'.tasks, s'.token, x) {
        BusyAfterFinish(s.tasks, id, s.token, x);
      }
    }
  }

  lemma {:induction false} StepKeeps(s: State, e: Event)
    requires Inv(s)
    ensures Inv(Step(s, e))
  {
    hide Inv;
    match e
    case Register(bridge) => RegisterKeeps(s, bridge);
    case Request(schema, now) => if Accepts(s, schema, now) { RequestKeeps(s, schema, now); }
    case RunDeferred(id) => RunKeeps(s, id);
    case Complete(id) => CompleteKeeps(s, id);
  }

  lemma {:induction false} StepsKeep(s: State, events: seq<Event>)
    requires Inv(s)
    ensures Inv(Steps(s, events))
    decreases |events|
  {
    hide Inv, Step;
    if events != [] {
      StepKeeps(s, events[0]);
      StepsKeep(Step(s, events[0]), events[1..]);
    }
  }

  /**
  In every schedule: dispatches of a schema under one registration are at
  least five seconds apart, even when the clock goes back, and each has
  finished before the next; no sync is triggered for a registration that is
  no longer current; the schemas marked in flight are exactly those with an
  unfinished dispatch of the current registration.
  */
  lemma EveryScheduleKeeps(events: seq<Event>)
    ensures
      var s := Steps(START, events);
      && Spaced(s.tasks)
      && FiredRight(s.tasks, s.fired)
      && forall schema: string :: schema in s.inFlight <==> Busy(s.tasks, s.token, schema)
  {
    StepsKeep(START, events);
  }

  /** Told by the dispatches alone: when a request starts a sync. */
  lemma AcceptedIff(s: State, schema: string, now: int)
    requires Inv(s)
    ensures Accepts(s, schema, now) <==>
      && s.token > 0
      && forall i :: 0 <= i < |s.tasks| && s.tasks[i].schema == schema && s.tasks[i].token == s.token ==>
           s.tasks[i].stage == Finished && now - s.tasks[i].at >= 5000
  {
    if schema in s.lastAttemptAt {
      var i :| 0 <= i < |s.tasks| && s.tasks[i].token == s.token && s.tasks[i].schema == schema &&
               s.tasks[i].at == s.lastAttemptAt[schema];
    }
  }

  /**
  A deferred tick calls the native side, on the bridge of its dispatch, exactly
  when its task still waits and its registration is the current one; a task that
  waited then runs if it called and is skipped if it did not.
  */
  lemma FiresIff(s: State, id: nat)
    ensures
      var s' := Step(s, RunDeferred(id));
      var waiting := id < |s.tasks| && s.tasks[id].stage == Deferred;
      && s'.fired == s.fired + (if waiting && s.tasks[id].token == s.token
                                then [Fired(id, s.token, s.tasks[id].bridge)] else [])
      && (waiting ==> s'.tasks[id].stage == if s.tasks[id].token == s.token then Running else Skipped)
      && |s'.tasks| == |s.tasks| && (forall i | 0 <= i < |s.tasks| :: i != id || !waiting ==> s'.tasks[i] == s.tasks[i])
  {}

  /**
  A dispatch goes through: it is recorded with its time, its tick calls the
  native side once on the current bridge, and after its end the schema is
  dispatched again from five seconds after its beginning on.
  */
  lemma DispatchGoesThrough(s: State, schema: string, now: int)
    requires Inv(s) && Accepts(s, schema, now)
    ensures
      var id := |s.tasks|;
      var asked := Step(s, Request(schema, now));
      var run := Step(asked, RunDeferred(id));
      var done := Step(run, Complete(id));
      && asked.fired == s.fired && schema in asked.inFlight
      && (forall later :: !Accepts(asked, schema, later) && !Accepts(run, schema, later))
      && run.fired == s.fired + [Fired(id, s.token, s.bridge.value)] && done.fired == run.fired
      && done.tasks == s.tasks + [Task(schema, s.token, s.bridge.value, now, Finished)]
      && done.inFlight == s.inFlight
      && (forall later :: Accepts(done, schema, later) <==> later - now >= 5000)
  {
    var asked := Step(s, Request(schema, now));
    FiresIff(asked, |s.tasks|);
  }

  /** A dispatch whose registration is gone by the time of its tick calls nothing. */
  lemma OvertakenDispatchIsSkipped(s: State, schema: string, now: int, bridge: nat)
    requires Inv(s) && Accepts(s, schema, now)
    ensures
      var id := |s.tasks|;
      var replaced := Step(Step(s, Request(schema, now)), Register(bridge));
      var done := Step(Step(replaced, RunDeferred(id)), Complete(id));
      && done.fired == s.fired && done.inFlight == {} && done.lastAttemptAt == map[]
      && done.token == s.token + 1 && done.bridge == Some(bridge)
      && done.tasks == s.tasks + [Task(schema, s.token, s.bridge.value, now, Finished)]
  {
    var replaced := Step(Step(s, Request(schema, now)), Register(bridge));
    FiresIff(replaced, |s.tasks|);
  }

  /** A new registration forgets the throttle: any schema may be dispatched at once. */
  lemma RegistrationForgets(s: State, bridge: nat, schema: string, now: int)
    requires Inv(s)
    ensures Accepts(Step(s, Register(bridge)), schema, now)
  {
    RegisterKeeps(s, bridge);
    AcceptedIff(Step(s, Register(bridge)), schema, now);
  }

  /** Whatever the old tasks still do, they leave the marks and times of the new registration alone. */
  lemma {:induction false} OldTasksTouchNothing(s: State, events: seq<Event>)
    requires Inv(s)
    requires forall e <- events ::
               (e.RunDeferred? || e.Complete?) && e.task < |s.tasks| && s.tasks[e.task].token < s.token
    ensures
      var s' := Steps(s, events);
      s'.inFlight == s.inFlight && s'.lastAttemptAt == s.lastAttemptAt && s'.fired == s.fired
    decreases |events|
  {
    if events != [] {
      hide Inv, Step;
      assert events[0] in events;
      var s1 := Step(s, events[0]);
      StepKeeps(s, events[0]);
      OldTaskTouchesNothing(s, events[0]);
      assert forall e <- events[1..] :: e in events;
      OldTasksTouchNothing(s1, events[1..]);
    }
  }

  lemma OldTaskTouchesNothing(s: State, e: Event)
    requires (e.RunDeferred? || e.Complete?) && e.task < |s.tasks| && s.tasks[e.task].token < s.token
    ensures
      var s' := Step(s, e);
      && s'.inFlight == s.inFlight && s'.lastAttemptAt == s.lastAttemptAt && s'.fired == s.fired
      && s'.token == s.token && |s'.tasks| == |s.tasks|
      && forall i :: 0 <= i < |s.tasks| ==> s'.tasks[i].token == s.tasks[i].token
  {}

  // ---- the module's variables -------------------------------------------------------------------

  class Trigger {
    var bridge: Option<nat>
    var registrationToken: nat
    var lastAttemptAt: map<string, int>
    var inFlight: set<string>
    var tasks: seq<Task>
    ghost var fired: seq<Fired>
    ghost var registrations: seq<nat>

    constructor ()
      ensures View() == START && Inv(View())
    {
      bridge, registrationToken, lastAttemptAt, inFlight, tasks := None, 0, map[], {}, [];
      fired, registrations := [], [];
    }

    ghost function View(): State
      reads this
    {
      State(bridge, registrationToken, lastAttemptAt, inFlight, tasks, fired, registrations)
    }

    method RegisterSyncBridge(nextBridge: nat)
      requires Inv(View())
      modifies this
      ensures Inv(View()) && View() == Step(old(View()), Register(nextBridge))
    {
      hide Inv;
      StepKeeps(View(), Register(nextBridge));
      bridge := Some(nextBridge);
      registrationToken := registrationToken + 1;
      lastAttemptAt := map[];
      inFlight := {};
      registrations := registrations + [nextBridge];
    }

    method DispatchSync(schemaName: string, now: int)
      requires Inv(View())
      modifies this
      ensures Inv(View()) && View() == Step(old(View()), Request(schemaName, now))
    {
      hide Inv;
      StepKeeps(View(), Request(schemaName, now));
      if bridge == None { return; }
      if schemaName in inFlight { return; }
      if schemaName in lastAttemptAt && now - lastAttemptAt[schemaName] < READ_SYNC_THROTTLE_MS { return; }
      lastAttemptAt := lastAttemptAt[schemaName := now];
      inFlight := inFlight + {schemaName};
      var currentBridge := bridge.value;
      var currentToken := registrationToken;
      tasks := tasks + [Task(schemaName, currentToken, currentBridge, now, Deferred)];
    }

    /** The deferred tick: whether `triggerSync` is called. */
    method RunDeferredTask(id: nat) returns (triggered: bool)
      requires Inv(View())
      modifies this
      ensures Inv(View()) && View() == Step(old(View()), RunDeferred(id))
      ensures triggered <==> |fired| > |old(fired)|
    {
      hide Inv;
      StepKeeps(View(), RunDeferred(id));
      if id >= |tasks| || tasks[id].stage != Deferred { return false; }
      if registrationToken != tasks[id].token {
        tasks := tasks[id := tasks[id].(stage := Skipped)];
        return false;
      }
      fired := fired + [Fired(id, registrationToken, tasks[id].bridge)];
      tasks := tasks[id := tasks[id].(stage := Running)];
      return true;
    }

    /** The `finally` of a dispatch. */
    method CompleteTask(id: nat)
      requires Inv(View())
      modifies this
      ensures Inv(View()) && View() == Step(old(View()), Complete(id))
    {
      hide Inv;
      StepKeeps(View(), Complete(id));
      if id >= |tasks| || tasks[id].stage !in {Running, Skipped} { return; }
      var task := tasks[id];
      tasks := tasks[id := task.(stage := Finished)];
      if registrationToken == task.token { inFlight := inFlight - {task.schema}; }
    }
  }
}
