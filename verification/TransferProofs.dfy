/** Every section of the transfer manager keeps the invariant. */
module TransferProofs {
  import opened Prelude
  import opened TransferModel

  ghost predicate Core(s: State) {
    TasksExact(s) && SessionsExact(s) && Counted(s) && InOrder(s) && Fifo(s)
  }

  // ---------------------------------------------------------------- a launch

  /** Splitting the queue at the pick. */
  lemma PickSplits(s: State)
    requires Core(s) && CanLaunch(s.sh)
    ensures var i, q := Pick(s.sh, 0), s.sh.queue;
      && (forall id :: id in Launch(s.sh).queue <==> id in q && id != q[i])
      && (forall j :: 0 <= j < |q| && j != i ==> q[j] != q[i])
      && (forall j :: 0 <= j < i ==> !SameSession(s, q[j], q[i]))
      && s.sh.tasks[q[i]].session !in s.running
  {
    hide Fifo, Counted;
    var i, q := Pick(s.sh, 0), s.sh.queue;
    assert SessionAt(s, s.sh.tasks[q[i]].session);
    forall j | 0 <= j < |q| && j != i ensures q[j] != q[i] {
      assert Ticket(s, q[j]) != Ticket(s, q[i]);
    }
    forall j | 0 <= j < i ensures !SameSession(s, q[j], q[i]) {
      assert TaskAt(s, q[j]) && TaskAt(s, q[i]);
      assert !Startable(s.sh, q[j]);
    }
    assert q == q[..i] + [q[i]] + q[i + 1..];
  }

  lemma LaunchKeepsTasks(s: State)
    requires Core(s) && CanLaunch(s.sh)
    ensures TasksExact(Launched(s))
  {
    PickSplits(s);
    hide Fifo, Counted, InOrder, SameSession, Pick;
    forall id ensures TaskAt(Launched(s), id) {
      assert TaskAt(s, id) && TaskAt(s, s.sh.queue[Pick(s.sh, 0)]);
    }
  }

  lemma LaunchKeepsSessions(s: State)
    requires Core(s) && CanLaunch(s.sh)
    ensures SessionsExact(Launched(s)) && Counted(Launched(s))
  {
    PickSplits(s);
    hide Fifo, InOrder, SameSession, Pick, TasksExact;
    forall session ensures SessionAt(Launched(s), session) {
      assert SessionAt(s, session);
    }
  }

  lemma LaunchKeepsOrder(s: State)
    requires Core(s) && CanLaunch(s.sh)
    ensures InOrder(Launched(s))
  {
    hide Fifo, SameSession, Pick, SessionsExact;
    assert TaskAt(s, s.sh.queue[Pick(s.sh, 0)]);
  }

  /** The pick is the oldest queued task of its session. */
  lemma LaunchKeepsFifo(s: State)
    requires Core(s) && CanLaunch(s.sh)
    ensures Fifo(Launched(s))
  {
    PickSplits(s);
    hide Pick, SessionsExact, TasksExact, Startable;
    var t := Launched(s);
    var i, q := Pick(s.sh, 0), s.sh.queue;
    forall a, b | a in t.starts && b in t.sh.queue && SameSession(t, a, b) ensures Ticket(t, a) < Ticket(t, b) {
      assert b in q;
      if a !in s.starts {
        var j :| 0 <= j < |q| && q[j] == b;
        assert a == q[i] && SameSession(s, q[j], q[i]);
      } else {
        assert SameSession(s, a, b);
      }
    }
    forall k, j | 0 <= k < j < |t.starts| && SameSession(t, t.starts[k], t.starts[j])
      ensures Ticket(t, t.starts[k]) < Ticket(t, t.starts[j])
    {
      assert t.starts[k] == s.starts[k] && s.starts[k] in s.starts;
      if j < |s.starts| {
        assert SameSession(s, s.starts[k], s.starts[j]);
      } else {
        assert q[i] in q && SameSession(s, s.starts[k], q[i]);
      }
    }
  }

  lemma LaunchedCore(s: State)
    requires Core(s) && CanLaunch(s.sh)
    ensures Core(Launched(s))
  {
    hide TasksExact, SessionsExact, Counted, InOrder, Fifo, CanLaunch;
    LaunchKeepsTasks(s);
    LaunchKeepsSessions(s);
    LaunchKeepsOrder(s);
    LaunchKeepsFifo(s);
  }

  lemma {:induction false} ScheduledCore(s: State)
    requires Core(s)
    ensures Core(Scheduled(s)) && !CanLaunch(Scheduled(s).sh)
    decreases |s.sh.queue|
  {
    hide Core, CanLaunch;
    if CanLaunch(s.sh) {
      LaunchedCore(s);
      QueueShrinks(s);
      ScheduledCore(Launched(s));
    }
  }

  lemma QueueShrinks(s: State)
    requires CanLaunch(s.sh)
    ensures |Launched(s).sh.queue| < |s.sh.queue|
  {
  }

  // ---------------------------------------------------------------- a new task

  lemma BearKeepsTasks(s: State, id: Id, task: Task)
    requires Core(s) && id !in s.born && task.state == Queued
    ensures TasksExact(Bear(s, id, task)) && SessionsExact(Bear(s, id, task)) && Counted(Bear(s, id, task))
  {
    hide Fifo, InOrder, SameSession;
    forall x ensures TaskAt(Bear(s, id, task), x) {
      assert TaskAt(s, x) && TaskAt(s, id);
      if task.session in s.running {
        assert SessionAt(s, task.session);
      }
    }
    forall session ensures SessionAt(Bear(s, id, task), session) {
      assert SessionAt(s, session) && TaskAt(s, id);
    }
  }

  lemma BearKeepsOrder(s: State, id: Id, task: Task)
    requires Core(s) && id !in s.born
    ensures InOrder(Bear(s, id, task)) && Fifo(Bear(s, id, task))
  {
    hide SessionsExact, Counted;
    var t := Bear(s, id, task);
    assert |t.born| == |s.born| + 1;
    assert forall x :: x in s.sh.queue ==> x in s.born && x != id by {
      forall x | x in s.sh.queue ensures x in s.born && x != id {
        assert TaskAt(s, x);
      }
    }
    BearOrder(s, id, task);
    BearFifo(s, id, task);
  }

  lemma BearOrder(s: State, id: Id, task: Task)
    requires InOrder(s) && id !in s.born
    requires forall x :: x in s.sh.queue ==> x in s.born && x != id
    ensures InOrder(Bear(s, id, task))
  {
    var t := Bear(s, id, task);
    assert |t.born| == |s.born| + 1;
    forall i, j | 0 <= i < j < |t.sh.queue| ensures Ticket(t, t.sh.queue[i]) < Ticket(t, t.sh.queue[j]) {
      assert t.sh.queue[i] == s.sh.queue[i] && s.sh.queue[i] in s.sh.queue;
    }
  }

  lemma BearFifo(s: State, id: Id, task: Task)
    requires InOrder(s) && Fifo(s) && id !in s.born
    requires forall x :: x in s.sh.queue ==> x in s.born && x != id
    ensures Fifo(Bear(s, id, task))
  {
    var t := Bear(s, id, task);
    forall a, b | a in t.starts && b in t.sh.queue && SameSession(t, a, b) ensures Ticket(t, a) < Ticket(t, b) {
      assert a in s.born;
      if b != id {
        assert SameSession(s, a, b);
      }
    }
    forall i, j | 0 <= i < j < |t.starts| && SameSession(t, t.starts[i], t.starts[j])
      ensures Ticket(t, t.starts[i]) < Ticket(t, t.starts[j])
    {
      assert s.starts[i] in s.starts && s.starts[j] in s.starts;
      assert SameSession(s, s.starts[i], s.starts[j]);
    }
  }

  lemma BornCore(s: State, id: Id, task: Task)
    requires Core(s) && id !in s.born && task.state == Queued
    ensures Core(Bear(s, id, task))
  {
    BearKeepsTasks(s, id, task);
    BearKeepsOrder(s, id, task);
    hide TasksExact, SessionsExact, Counted, InOrder, Fifo;
  }

  lemma {:induction false} EnqueuedCore(s: State, session: string, orders: seq<Order>)
    requires Core(s)
    requires forall o :: o in orders ==> o.id !in s.born
    requires forall i, j :: 0 <= i < j < |orders| ==> orders[i].id != orders[j].id
    ensures Core(Enqueued(s, session, orders))
    decreases |orders|
  {
    hide Core;
    if orders != [] {
      assert orders[0] in orders;
      var task := Task(session, orders[0].job, Queued, false, None);
      BornCore(s, orders[0].id, task);
      forall o | o in orders[1..] ensures o.id !in Bear(s, orders[0].id, task).born {
        assert o in orders;
        var k :| 0 <= k < |orders| - 1 && orders[1..][k] == o;
        assert orders[k + 1].id != orders[0].id;
      }
      EnqueuedCore(Bear(s, orders[0].id, task), session, orders[1..]);
    }
  }

  // ---------------------------------------------------------------- sections that enqueue and start nothing

  predicate Quiet(e: Event) {
    e.Cancels? || e.Clears? || e.ClearsCompleted? || e.Disposes? || e.Progresses? || e.Finishes?
  }

  lemma {:induction false} WithoutKeeps(s: State, queue: seq<Id>, id: Id)
    requires forall i, j :: 0 <= i < j < |queue| ==> Ticket(s, queue[i]) < Ticket(s, queue[j])
    ensures var r := Without(queue, id);
      && (forall x :: x in r <==> x in queue && x != id)
      && (forall i, j :: 0 <= i < j < |r| ==> Ticket(s, r[i]) < Ticket(s, r[j]))
  {
    if queue != [] {
      var rest := queue[1..];
      WithoutKeeps(s, rest, id);
      assert queue == [queue[0]] + rest;
      forall x | x in rest ensures Ticket(s, queue[0]) < Ticket(s, x) {
        var k :| 0 <= k < |rest| && rest[k] == x;
        assert queue[k + 1] == x;
      }
    }
  }

  lemma QuietKeepsOrder(s: State, t: State)
    requires InOrder(s) && Fifo(s) && t.born == s.born && t.starts == s.starts
    requires forall x :: x in t.sh.queue ==> x in s.sh.queue
    requires forall i, j :: 0 <= i < j < |t.sh.queue| ==> Ticket(s, t.sh.queue[i]) < Ticket(s, t.sh.queue[j])
    ensures InOrder(t) && Fifo(t)
  {
    forall a, b | a in t.starts && b in t.sh.queue && SameSession(t, a, b) ensures Ticket(t, a) < Ticket(t, b) {
      assert SameSession(s, a, b);
    }
    forall i, j | 0 <= i < j < |t.starts| && SameSession(t, t.starts[i], t.starts[j])
      ensures Ticket(t, t.starts[i]) < Ticket(t, t.starts[j])
    {
      assert SameSession(s, s.starts[i], s.starts[j]);
    }
  }

  /** A quiet section only takes from the queue: one cancelled task, or all of it. */
  lemma QuietQueue(s: State, e: Event)
    requires Enabled(s, e) && Quiet(e)
    ensures (Step(s, e).born, Step(s, e).starts) == (s.born, s.starts)
    ensures Step(s, e).sh.queue == (if e.Cancels? then Without(s.sh.queue, e.id) else []) || Step(s, e).sh.queue == s.sh.queue
  {
  }

  lemma QuietFrame(s: State, e: Event)
    requires InOrder(s) && Enabled(s, e) && Quiet(e)
    ensures var t := Step(s, e);
      && (t.born, t.starts) == (s.born, s.starts)
      && (forall x :: x in t.sh.queue ==> x in s.sh.queue)
      && (forall i, j :: 0 <= i < j < |t.sh.queue| ==> Ticket(s, t.sh.queue[i]) < Ticket(s, t.sh.queue[j]))
  {
    QuietQueue(s, e);
    if e.Cancels? {
      WithoutKeeps(s, s.sh.queue, e.id);
    }
    hide Step, Enabled, Without;
  }

  lemma CancelKeepsTasks(s: State, id: Id)
    requires Core(s)
    ensures TasksExact(Step(s, Cancels(id)))
  {
    WithoutKeeps(s, s.sh.queue, id);
    hide Fifo, InOrder, Without, Ticket, SessionsExact, Counted;
    forall x ensures TaskAt(Step(s, Cancels(id)), x) {
      assert TaskAt(s, x) && TaskAt(s, id);
    }
  }

  lemma CancelKeepsSessions(s: State, id: Id)
    requires Core(s)
    ensures SessionsExact(Step(s, Cancels(id))) && Counted(Step(s, Cancels(id)))
  {
    hide Fifo, InOrder, Without, TasksExact;
    forall session ensures SessionAt(Step(s, Cancels(id)), session) {
      assert SessionAt(s, session);
    }
  }

  lemma FinishKeepsTasks(s: State, id: Id, result: RunResult)
    requires Core(s) && Enabled(s, Finishes(id, result))
    ensures var t := Step(s, Finishes(id, result)); TasksExact(t) && SessionsExact(t) && Counted(t)
  {
    hide Fifo, InOrder;
    var t := Step(s, Finishes(id, result));
    var held := s.sh.tasks[id].session;
    assert SessionAt(s, held) && TaskAt(s, id);
    assert t.running.Keys == s.running.Keys - {held};
    forall x ensures TaskAt(t, x) {
      assert TaskAt(s, x);
    }
    forall session ensures SessionAt(t, session) {
      assert SessionAt(s, session);
      if session in s.running && session != held {
        assert TaskAt(s, s.running[session]);
      }
    }
    assert |t.running| == |t.running.Keys| && |s.running| == |s.running.Keys|;
  }

  lemma QuietKeepsTasks(s: State, e: Event)
    requires Core(s) && Enabled(s, e) && Quiet(e) && !e.Cancels? && !e.Finishes?
    ensures var t := Step(s, e); TasksExact(t) && SessionsExact(t) && Counted(t)
  {
    hide Fifo, InOrder;
    var t := Step(s, e);
    forall x ensures TaskAt(t, x) {
      assert TaskAt(s, x);
    }
    forall session ensures SessionAt(t, session) {
      assert SessionAt(s, session);
      if session in s.running {
        assert TaskAt(s, s.running[session]);
      }
    }
  }

  lemma QuietCore(s: State, e: Event)
    requires Core(s) && Enabled(s, e) && Quiet(e)
    ensures Core(Step(s, e))
  {
    QuietFrame(s, e);
    QuietKeepsOrder(s, Step(s, e));
    if e.Cancels? {
      CancelKeepsTasks(s, e.id);
      CancelKeepsSessions(s, e.id);
    } else if e.Finishes? {
      FinishKeepsTasks(s, e.id, e.result);
    } else {
      QuietKeepsTasks(s, e);
    }
    hide Step, TasksExact, SessionsExact, Counted, InOrder, Fifo;
  }

  // ---------------------------------------------------------------- no forgotten schedule

  /** Sections that leave the queue, the loads and the queued tasks' sessions alone enable no launch. */
  lemma SameChance(a: Shared, b: Shared)
    requires b.queue == a.queue && b.runningGlobal == a.runningGlobal && b.closed == a.closed
    requires b.runningSession == a.runningSession
    requires forall id :: id in a.queue && id in b.tasks ==> id in a.tasks && a.tasks[id].session == b.tasks[id].session
    ensures CanLaunch(b) ==> CanLaunch(a)
  {
    if CanLaunch(b) {
      var i := Pick(b, 0);
      assert a.queue[i] in a.queue;
      assert Startable(a, a.queue[i]);
    }
  }

  lemma ClosedLaunchesNothing(sh: Shared)
    requires sh.closed
    ensures !CanLaunch(sh)
  {
  }

  /** Owed calls and the gate, event by event. */
  lemma QuietAttended(s: State, e: Event)
    requires Core(s) && Attended(s) && Enabled(s, e) && Quiet(e)
    ensures Step(s, e).owed > 0 || !CanLaunch(Step(s, e).sh)
  {
    hide Core, CanLaunch;
    var t := Step(s, e);
    if t.sh.closed {
      ClosedLaunchesNothing(t.sh);
    } else if t.owed == 0 {
      SameChance(s.sh, t.sh);
    }
  }

  lemma {:induction false} EnqueueKeepsGate(s: State, session: string, orders: seq<Order>)
    ensures Enqueued(s, session, orders).sh.closed == s.sh.closed
    decreases |orders|
  {
    if orders != [] {
      EnqueueKeepsGate(Bear(s, orders[0].id, Task(session, orders[0].job, Queued, false, None)), session, orders[1..]);
    }
  }

  lemma {:induction false} ScheduleKeepsGate(s: State)
    ensures Scheduled(s).sh.closed == s.sh.closed && (s.sh.closed ==> Scheduled(s) == s)
    decreases |s.sh.queue|
  {
    hide Pick;
    if CanLaunch(s.sh) {
      QueueShrinks(s);
      ScheduleKeepsGate(Launched(s));
    }
  }

  /** The gate closes once, and empties the queue for good. */
  lemma GateKept(s: State, e: Event)
    requires Attended(s) && Enabled(s, e)
    ensures s.sh.closed ==> Step(s, e).sh.closed && Step(s, e).starts == s.starts
    ensures Step(s, e).sh.closed ==> Step(s, e).sh.queue == []
  {
    hide CanLaunch, Enqueue, Schedule, Launches;
    match e
    case Enqueues(session, orders) => EnqueueKeepsGate(s, session, orders);
    case Schedules => ScheduleKeepsGate(s);
    case _ =>
  }

  lemma StepKeepsInv(s: State, e: Event)
    requires Inv(s) && Enabled(s, e)
    ensures Inv(Step(s, e))
  {
    hide TasksExact, SessionsExact, Counted, InOrder, Fifo, CanLaunch, Enqueue, Schedule, Launches, TransferModel.Cancel;
    GateKept(s, e);
    match e
    case Enqueues(session, orders) =>
      EnqueuedCore(s, session, orders);
      OweKeepsCore(Enqueued(s, session, orders), s.owed + 1);
    case Schedules =>
      ScheduledCore(s);
      OweKeepsCore(Scheduled(s), s.owed - 1);
    case Retries(id, newId) =>
      if Retryable(s.sh, id) {
        var task := Task(s.sh.tasks[id].session, s.sh.tasks[id].job, Queued, false, Some(id));
        BornCore(s, newId, task);
        OweKeepsCore(Bear(s, newId, task), s.owed + 1);
      }
    case _ =>
      QuietCore(s, e);
      QuietAttended(s, e);
  }

  lemma OweKeepsCore(s: State, owed: nat)
    requires Core(s)
    ensures Core(s.(owed := owed))
  {
    var t := s.(owed := owed);
    OweKeepsTasks(s, owed);
    assert forall id :: Ticket(t, id) == Ticket(s, id);
    assert forall a, b :: SameSession(t, a, b) == SameSession(s, a, b);
    hide Ticket, SameSession, TasksExact, SessionsExact;
  }

  lemma OweKeepsTasks(s: State, owed: nat)
    requires TasksExact(s) && SessionsExact(s)
    ensures TasksExact(s.(owed := owed)) && SessionsExact(s.(owed := owed))
  {
    forall id ensures TaskAt(s.(owed := owed), id) {
      assert TaskAt(s, id);
    }
    forall session ensures SessionAt(s.(owed := owed), session) {
      assert SessionAt(s, session);
    }
  }

  lemma {:induction false} RunKeepsInv(s: State, events: seq<Event>)
    requires Inv(s) && Possible(s, events)
    ensures Inv(Run(s, events))
    decreases |events|
  {
    hide Inv, Step, Enabled;
    if events != [] {
      StepKeepsInv(s, events[0]);
      RunKeepsInv(Step(s, events[0]), events[1..]);
    }
  }

  lemma InitialInv()
    ensures Inv(Initial())
  {
  }
}
