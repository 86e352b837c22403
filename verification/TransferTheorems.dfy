/** What the scheduler guarantees over whole runs. */
module TransferTheorems {
  import opened Prelude
  import opened TransferModel
  import opened TransferProofs

  lemma SessionCounts(s: State, session: string)
    requires Inv(s)
    ensures session in s.sh.runningSession <==> session in s.running
    ensures session in s.sh.runningSession ==> s.sh.runningSession[session] == 1
  {
    hide Fifo, InOrder, TasksExact, Attended, Counted;
    assert SessionAt(s, session);
  }

  lemma TaskHolds(s: State, id: Id)
    requires Inv(s)
    ensures id in s.sh.queue <==> id in s.sh.tasks && s.sh.tasks[id].state == Queued
    ensures id in s.sh.tasks ==> (Active(s.sh.tasks[id].state) <==>
              s.sh.tasks[id].session in s.running && s.running[s.sh.tasks[id].session] == id)
  {
    hide Fifo, InOrder, SessionsExact, Attended, Counted;
    assert TaskAt(s, id);
  }

  lemma QueueIsDistinct(s: State)
    requires InOrder(s)
    ensures Distinct(s.sh.queue)
  {
    forall i, j | 0 <= i < j < |s.sh.queue| ensures s.sh.queue[i] != s.sh.queue[j] {
      assert Ticket(s, s.sh.queue[i]) != Ticket(s, s.sh.queue[j]);
    }
  }

  /** Caps, counts and the queue, in every state a fresh manager can reach. */
  lemma AccountsAgree(events: seq<Event>)
    requires Possible(Initial(), events)
    ensures var s := Run(Initial(), events);
      && s.sh.runningGlobal == |s.running| <= 3
      && (forall session :: session in s.sh.runningSession <==> session in s.running)
      && (forall session :: session in s.sh.runningSession ==> s.sh.runningSession[session] == 1)
      && (forall id :: id in s.sh.tasks ==> (Active(s.sh.tasks[id].state) <==>
            s.sh.tasks[id].session in s.running && s.running[s.sh.tasks[id].session] == id))
      && Distinct(s.sh.queue)
      && (forall id :: id in s.sh.queue <==> id in s.sh.tasks && s.sh.tasks[id].state == Queued)
  {
    InitialInv();
    RunKeepsInv(Initial(), events);
    hide Run, Possible, Initial, Fifo, Attended, TasksExact, SessionsExact, InOrder, Distinct, Active;
    var s := Run(Initial(), events);
    QueueIsDistinct(s);
    forall session: string {
      SessionCounts(s, session);
    }
    forall id: Id {
      TaskHolds(s, id);
    }
  }

  /** When no call of schedule is owed and the manager is open, it is full or every queued task's session is busy. */
  lemma NothingIsForgotten(s: State)
    requires Inv(s) && s.owed == 0 && !s.sh.closed
    ensures s.sh.runningGlobal == 3
         || forall id :: id in s.sh.queue ==> id in s.sh.tasks && s.sh.tasks[id].session in s.running
  {
    hide Fifo, InOrder;
    if s.sh.runningGlobal != MAX_GLOBAL {
      forall id | id in s.sh.queue ensures id in s.sh.tasks && s.sh.tasks[id].session in s.running {
        var j :| 0 <= j < |s.sh.queue| && s.sh.queue[j] == id;
        assert TaskAt(s, id) && !Startable(s.sh, s.sh.queue[j]);
        assert SessionAt(s, s.sh.tasks[id].session);
      }
    }
  }

  /** Tasks of one session start in the order they were enqueued. */
  lemma SessionsAreFifo(events: seq<Event>, i: nat, j: nat)
    requires Possible(Initial(), events)
    requires i < j < |Run(Initial(), events).starts|
    ensures var s := Run(Initial(), events);
      SameSession(s, s.starts[i], s.starts[j]) ==> Ticket(s, s.starts[i]) < Ticket(s, s.starts[j])
  {
    InitialInv();
    RunKeepsInv(Initial(), events);
    hide Run, Possible, Initial, TasksExact, SessionsExact, Attended;
  }

  // ---------------------------------------------------------------- shutdown

  /** Nothing starts after Dispose. */
  lemma {:induction false} NothingStartsAfterDispose(s: State, events: seq<Event>)
    requires Inv(s) && s.sh.closed && Possible(s, events)
    ensures Run(s, events).starts == s.starts && Run(s, events).sh.closed && Run(s, events).sh.queue == []
    decreases |events|
  {
    hide Step, Enabled, TasksExact, SessionsExact, Fifo, InOrder, CanLaunch;
    if events != [] {
      StepKeepsInv(s, events[0]);
      GateKept(s, events[0]);
      NothingStartsAfterDispose(Step(s, events[0]), events[1..]);
    }
  }

  // ---------------------------------------------------------------- the life of a task

  predicate MayBecome(a: TaskState, b: TaskState) {
    || a == b
    || (a == Queued && (b == Running || b == Cancelled))
    || (a == Running && (b == Finalizing || Terminal(b)))
    || (a == Finalizing && Terminal(b))
  }

  /** A task known to s either moved along its life or was removed after its end; a removed one stays away. */
  ghost predicate Lived(s: State, t: State, id: Id) {
    && (id in s.born ==> id in t.born)
    && (id in s.born && id !in s.sh.tasks ==> id !in t.sh.tasks)
    && (id in s.sh.tasks ==>
          if id in t.sh.tasks then MayBecome(s.sh.tasks[id].state, t.sh.tasks[id].state) else Terminal(s.sh.tasks[id].state))
  }

  lemma LaunchLives(s: State, id: Id)
    requires Core(s) && CanLaunch(s.sh)
    ensures Launched(s).sh.tasks.Keys == s.sh.tasks.Keys && Launched(s).born == s.born
    ensures id in s.sh.tasks ==>
      var a, b := s.sh.tasks[id].state, Launched(s).sh.tasks[id].state; b == a || (a == Queued && b == Running)
  {
    hide Fifo, InOrder, SessionsExact, Counted, Pick;
    assert TaskAt(s, s.sh.queue[Pick(s.sh, 0)]);
  }

  lemma {:induction false} ScheduleLives(s: State, id: Id)
    requires Core(s)
    ensures Scheduled(s).sh.tasks.Keys == s.sh.tasks.Keys && Scheduled(s).born == s.born
    ensures id in s.sh.tasks ==>
      var a, b := s.sh.tasks[id].state, Scheduled(s).sh.tasks[id].state; b == a || (a == Queued && b == Running)
    decreases |s.sh.queue|
  {
    hide Core, CanLaunch, Launched, Schedule, Launches;
    if CanLaunch(s.sh) {
      LaunchLives(s, id);
      LaunchedCore(s);
      QueueShrinks(s);
      ScheduleLives(Launched(s), id);
    }
  }

  lemma {:induction false} EnqueueLives(s: State, session: string, orders: seq<Order>, id: Id)
    requires Core(s) && (id in s.born ==> forall o :: o in orders ==> o.id != id)
    ensures id in s.born ==> id in Enqueued(s, session, orders).born
    ensures id in s.born ==> (id in Enqueued(s, session, orders).sh.tasks <==> id in s.sh.tasks)
    ensures id in s.sh.tasks ==> id in s.born && Enqueued(s, session, orders).sh.tasks[id] == s.sh.tasks[id]
    decreases |orders|
  {
    hide SessionsExact, Counted, InOrder, Fifo, Enqueue;
    assert TaskAt(s, id);
    if orders != [] && id in s.born {
      var task := Task(session, orders[0].job, Queued, false, None);
      assert orders[0] in orders;
      assert forall o :: o in orders[1..] ==> o in orders;
      BearUnrelated(s, orders[0].id, task, session, orders[1..], id);
    }
  }

  lemma {:induction false} BearUnrelated(s: State, newId: Id, task: Task, session: string, orders: seq<Order>, id: Id)
    requires id in s.born && newId != id && forall o :: o in orders ==> o.id != id
    ensures id in Enqueued(Bear(s, newId, task), session, orders).born
    ensures id in Enqueued(Bear(s, newId, task), session, orders).sh.tasks <==> id in s.sh.tasks
    ensures id in s.sh.tasks ==> Enqueued(Bear(s, newId, task), session, orders).sh.tasks[id] == s.sh.tasks[id]
    decreases |orders|
  {
    hide Enqueue;
    if orders != [] {
      assert orders[0] in orders;
      assert forall o :: o in orders[1..] ==> o in orders;
      BearUnrelated(Bear(s, newId, task), orders[0].id, Task(session, orders[0].job, Queued, false, None),
                    session, orders[1..], id);
    }
  }

  lemma StepLives(s: State, e: Event, id: Id)
    requires Inv(s) && Enabled(s, e)
    ensures Lived(s, Step(s, e), id)
  {
    assert TaskAt(s, id);
    hide SessionsExact, Counted, InOrder, Fifo, Schedule, Launches, Enqueue, CanLaunch, Without;
    match e
    case Enqueues(session, orders) => EnqueueLives(s, session, orders, id);
    case Schedules => ScheduleLives(s, id);
    case _ =>
  }

  /** Terminal states are absorbing: the task keeps its end until it is cleared, and then it is gone for good. */
  lemma {:induction false} TerminalIsFinal(s: State, id: Id, end: TaskState, events: seq<Event>)
    requires Inv(s) && id in s.born && Terminal(end) && (id in s.sh.tasks ==> s.sh.tasks[id].state == end)
    requires Possible(s, events)
    ensures var t := Run(s, events); id in t.born && (id in t.sh.tasks ==> t.sh.tasks[id].state == end)
    decreases |events|
  {
    hide Inv, Step, Enabled;
    if events != [] {
      StepKeepsInv(s, events[0]);
      StepLives(s, events[0], id);
      TerminalIsFinal(Step(s, events[0]), id, end, events[1..]);
    }
  }

  // ---------------------------------------------------------------- overtaking

  /** Task q waits at index i of the queue and its session is idle. */
  ghost predicate Waits(s: State, q: Id, i: nat) {
    i < |s.sh.queue| && s.sh.queue[i] == q && q in s.sh.tasks && s.sh.tasks[q].session !in s.running
  }

  /** One launch past a waiting task takes it, a task of its session, or an earlier one: its index goes down. */
  lemma LaunchPasses(s: State, q: Id, i: nat)
    requires Core(s) && CanLaunch(s.sh) && Waits(s, q, i)
    ensures Pick(s.sh, 0) <= i
    ensures var id := s.sh.queue[Pick(s.sh, 0)];
      id in s.sh.tasks && (s.sh.tasks[id].session != s.sh.tasks[q].session ==> i > 0 && Waits(Launched(s), q, i - 1))
  {
    hide Fifo, InOrder, Counted, TasksExact;
    assert SessionAt(s, s.sh.tasks[q].session);
    assert Startable(s.sh, s.sh.queue[i]);
  }

  /** A busy session starts nothing more in the same call of schedule, and what left the queue does not start again. */
  lemma {:induction false} NotLaunched(s: State, q: Id)
    requires Core(s) && (q in s.sh.queue ==> q in s.sh.tasks && s.sh.tasks[q].session in s.running)
    ensures q !in Launches(s.sh)
    decreases |s.sh.queue|
  {
    hide Fifo, InOrder, Counted, Schedule;
    if CanLaunch(s.sh) {
      PickSplits(s);
      LaunchedCore(s);
      QueueShrinks(s);
      NotLaunched(Launched(s), q);
    }
  }

  /** Of the launches of one call of schedule, at most i come before a task that waits at index i. */
  lemma {:induction false} LaunchPosition(s: State, q: Id, i: nat, p: nat)
    requires Core(s) && Waits(s, q, i)
    requires p < |Launches(s.sh)| && Launches(s.sh)[p] == q
    ensures p <= i
    decreases |s.sh.queue|
  {
    hide Core, Pick, CanLaunch, Launch;
    if p > 0 {
      LaunchPasses(s, q, i);
      LaunchedCore(s);
      QueueShrinks(s);
      assert Launches(Launch(s.sh))[p - 1] == q;
      assert q in Launches(Launched(s).sh);
      LaunchedSameOrMate(s, q);
      LaunchPosition(Launched(s), q, i - 1, p - 1);
    }
  }

  lemma LaunchedSameOrMate(s: State, q: Id)
    requires Core(s) && CanLaunch(s.sh) && q in s.sh.tasks && q in Launches(Launched(s).sh)
    requires s.sh.queue[Pick(s.sh, 0)] in s.sh.tasks
    ensures s.sh.tasks[s.sh.queue[Pick(s.sh, 0)]].session != s.sh.tasks[q].session
  {
    hide Fifo, InOrder, Counted, Launches, TasksExact, SessionsExact, Pick;
    LaunchedCore(s);
    if s.sh.tasks[s.sh.queue[Pick(s.sh, 0)]].session == s.sh.tasks[q].session {
      NotLaunched(Launched(s), q);
    }
  }

  /** No launch from the given one on was of the session of q. */
  ghost predicate NoMates(s: State, from: nat, q: Id) {
    forall k :: from <= k < |s.starts| ==> !SameSession(s, s.starts[k], q)
  }

  lemma {:induction false} SchedulePasses(s: State, q: Id, i: nat) returns (j: nat)
    requires Core(s) && Waits(s, q, i) && NoMates(Scheduled(s), |s.starts|, q)
    ensures Waits(Scheduled(s), q, j) && j + |Scheduled(s).starts| == i + |s.starts|
    decreases |s.sh.queue|
  {
    hide Core, CanLaunch, Launched, Schedule, Launches, Pick;
    j := i;
    if CanLaunch(s.sh) {
      LaunchPasses(s, q, i);
      LaunchedCore(s);
      QueueShrinks(s);
      LaunchIsNoMate(s, q);
      j := SchedulePasses(Launched(s), q, i - 1);
    }
  }

  lemma LaunchIsNoMate(s: State, q: Id)
    requires Core(s) && CanLaunch(s.sh) && q in s.sh.tasks && NoMates(Scheduled(s), |s.starts|, q)
    ensures var id := s.sh.queue[Pick(s.sh, 0)]; id in s.sh.tasks ==> s.sh.tasks[id].session != s.sh.tasks[q].session
    ensures |Launched(s).starts| == |s.starts| + 1
  {
    hide Pick, SessionsExact, Fifo, InOrder, Counted, Launch, Schedule;
    var id := s.sh.queue[Pick(s.sh, 0)];
    assert TaskAt(s, id) && TaskAt(s, q);
    var t := Scheduled(s);
    assert t.starts[|s.starts|] == id;
    assert !SameSession(t, id, q);
  }

  lemma {:induction false} WithoutIndex(queue: seq<Id>, id: Id, i: nat) returns (j: nat)
    requires i < |queue| && queue[i] != id
    ensures j <= i && j < |Without(queue, id)| && Without(queue, id)[j] == queue[i]
  {
    if queue[0] == id {
      j := i - 1;
    } else if i == 0 {
      j := 0;
    } else {
      j := WithoutIndex(queue[1..], id, i - 1);
      j := j + 1;
    }
  }

  lemma {:induction false} EnqueueAppends(s: State, session: string, orders: seq<Order>)
    ensures |s.sh.queue| <= |Enqueued(s, session, orders).sh.queue|
    ensures Enqueued(s, session, orders).sh.queue[..|s.sh.queue|] == s.sh.queue
    decreases |orders|
  {
    hide Enqueue;
    if orders != [] {
      var t := Bear(s, orders[0].id, Task(session, orders[0].job, Queued, false, None));
      EnqueueAppends(t, session, orders[1..]);
      assert t.sh.queue[..|s.sh.queue|] == s.sh.queue;
    }
  }

  lemma CancelPasses(s: State, id: Id, q: Id, i: nat) returns (j: nat)
    requires Inv(s) && Waits(s, q, i) && q in Step(s, Cancels(id)).sh.queue
    ensures Waits(Step(s, Cancels(id)), q, j) && j <= i
  {
    hide SessionsExact, Counted, Fifo, CanLaunch;
    WithoutKeeps(s, s.sh.queue, id);
    if id in s.sh.tasks && s.sh.tasks[id].state == Queued {
      j := WithoutIndex(s.sh.queue, id, i);
    } else {
      j := i;
    }
  }

  lemma StepPasses(s: State, e: Event, q: Id, i: nat) returns (j: nat)
    requires Inv(s) && Enabled(s, e) && Waits(s, q, i)
    requires q in Step(s, e).sh.queue && NoMates(Step(s, e), |s.starts|, q)
    ensures Waits(Step(s, e), q, j) && j + |Step(s, e).starts| <= i + |s.starts|
  {
    assert TaskAt(s, q);
    hide TasksExact, SessionsExact, Counted, Fifo, InOrder, CanLaunch, Enqueue, Schedule, Launches, Without;
    match e
    case Enqueues(session, orders) =>
      EnqueueAppends(s, session, orders);
      EnqueueLives(s, session, orders, q);
      j := i;
    case Schedules =>
      NoMatesFrame(Scheduled(s), s.owed - 1, |s.starts|, q);
      j := SchedulePasses(s, q, i);
    case Cancels(id) =>
      j := CancelPasses(s, id, q, i);
    case _ =>
      j := i;
  }

  lemma NoMatesFrame(s: State, owed: nat, from: nat, q: Id)
    requires NoMates(s.(owed := owed), from, q)
    ensures NoMates(s, from, q)
  {
    forall k | from <= k < |s.starts| ensures !SameSession(s, s.starts[k], q) {
      assert !SameSession(s.(owed := owed), s.starts[k], q);
    }
  }

  /** Launches are only ever appended, and births never change. */
  ghost predicate Extends(s: State, t: State) {
    && |s.starts| <= |t.starts| && t.starts[..|s.starts|] == s.starts
    && forall id :: id in s.born ==> id in t.born && t.born[id] == s.born[id]
  }

  lemma {:induction false} EnqueueExtends(s: State, session: string, orders: seq<Order>)
    requires forall o :: o in orders ==> o.id !in s.born
    requires forall i, j :: 0 <= i < j < |orders| ==> orders[i].id != orders[j].id
    ensures Extends(s, Enqueued(s, session, orders))
    decreases |orders|
  {
    hide Enqueue;
    if orders != [] {
      assert orders[0] in orders;
      var t := Bear(s, orders[0].id, Task(session, orders[0].job, Queued, false, None));
      forall o | o in orders[1..] ensures o.id !in t.born {
        assert o in orders;
        var k :| 0 <= k < |orders| - 1 && orders[1..][k] == o;
        assert orders[k + 1].id != orders[0].id;
      }
      EnqueueExtends(t, session, orders[1..]);
    }
  }

  lemma StepExtends(s: State, e: Event)
    requires Enabled(s, e)
    ensures Extends(s, Step(s, e))
  {
    hide Schedule, Launches, Enqueue, CanLaunch, Without;
    match e
    case Enqueues(session, orders) => EnqueueExtends(s, session, orders);
    case _ =>
  }

  lemma {:induction false} RunExtends(s: State, events: seq<Event>)
    requires Possible(s, events)
    ensures Extends(s, Run(s, events))
    decreases |events|
  {
    hide Step, Enabled;
    if events != [] {
      var s1 := Step(s, events[0]);
      StepExtends(s, events[0]);
      RunExtends(s1, events[1..]);
      var t := Run(s, events);
      assert t.starts[..|s.starts|] == t.starts[..|s1.starts|][..|s.starts|];
    }
  }

  lemma NoMatesBefore(s: State, t: State, from: nat, q: Id)
    requires Extends(s, t) && NoMates(t, from, q)
    ensures NoMates(s, from, q)
  {
    forall k | from <= k < |s.starts| ensures !SameSession(s, s.starts[k], q) {
      assert t.starts[k] == t.starts[..|s.starts|][k];
    }
  }

  /** A queued task never leaves the queue and comes back. */
  lemma {:induction false} GoneStaysGone(s: State, q: Id, events: seq<Event>)
    requires Inv(s) && q in s.born && q !in s.sh.queue && Possible(s, events)
    ensures q !in Run(s, events).sh.queue
    decreases |events|
  {
    hide Step, Enabled, Inv;
    if events != [] {
      StepKeepsInv(s, events[0]);
      StepLives(s, events[0], q);
      QueuedStates(s, q);
      QueuedStates(Step(s, events[0]), q);
      GoneStaysGone(Step(s, events[0]), q, events[1..]);
    }
  }

  lemma QueuedStates(s: State, q: Id)
    requires Inv(s)
    ensures q in s.sh.queue <==> q in s.sh.tasks && s.sh.tasks[q].state == Queued
  {
    assert TaskAt(s, q);
  }

  /** While a task waits at index i with its session idle and nothing of that session starts, at most i tasks start. */
  lemma {:induction false} FewOvertake(s: State, q: Id, i: nat, events: seq<Event>) returns (j: nat)
    requires Inv(s) && Waits(s, q, i) && Possible(s, events)
    requires q in Run(s, events).sh.queue && NoMates(Run(s, events), |s.starts|, q)
    ensures Waits(Run(s, events), q, j) && j + |Run(s, events).starts| <= i + |s.starts|
    decreases |events|
  {
    hide Step, Enabled, Inv, NoMates, Waits;
    j := i;
    if events != [] {
      var s1, rest := Step(s, events[0]), events[1..];
      var t := Run(s, events);
      StepKeepsInv(s, events[0]);
      StepExtends(s, events[0]);
      RunExtends(s1, rest);
      NoMatesBefore(s1, t, |s.starts|, q);
      StillQueued(s, events[0], rest, q, i);
      j := StepPasses(s, events[0], q, i);
      LaterMates(t, |s.starts|, |s1.starts|, q);
      j := FewOvertake(s1, q, j, rest);
    }
  }

  lemma StillQueued(s: State, e: Event, rest: seq<Event>, q: Id, i: nat)
    requires Inv(s) && Waits(s, q, i) && Enabled(s, e) && Possible(Step(s, e), rest)
    requires q in Run(Step(s, e), rest).sh.queue
    ensures q in Step(s, e).sh.queue
  {
    assert TaskAt(s, q);
    hide Step, Enabled, TasksExact, SessionsExact, Counted, Fifo, InOrder, Attended;
    StepKeepsInv(s, e);
    StepExtends(s, e);
    if q !in Step(s, e).sh.queue {
      GoneStaysGone(Step(s, e), q, rest);
    }
  }

  lemma LaterMates(t: State, from: nat, later: nat, q: Id)
    requires NoMates(t, from, q) && from <= later
    ensures NoMates(t, later, q)
  {
  }

  /** Fairness: until its own start, at most i others start past a task that waits at index i with its session idle. */
  lemma OvertakingIsBounded(s: State, q: Id, i: nat, events: seq<Event>, p: nat)
    requires Inv(s) && Waits(s, q, i) && Possible(s, events)
    requires var t := Run(s, events);
      q in t.sh.queue && NoMates(t, |s.starts|, q) && p < |Launches(t.sh)| && Launches(t.sh)[p] == q
    ensures |Run(s, events).starts| - |s.starts| + p <= i
  {
    hide Run, Possible, NoMates, Waits, Launches;
    RunKeepsInv(s, events);
    var j := FewOvertake(s, q, i, events);
    LaunchPosition(Run(s, events), q, j, p);
  }
}
