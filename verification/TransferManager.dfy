/**
 The transfer manager object: its fields, the runs of the calls as ghost state,
 and one method for each critical section, with the source's loops. Each is a
 step of TransferModel, so what is proved about runs holds of the object.
 */
module TransferManagers {
  import opened Prelude
  import opened TransferModel
  import opened TransferProofs

  /** Dispose after the first part of the queue was cancelled. */
  ghost function CancelledIn(tasks: map<Id, Task>, queue: seq<Id>): map<Id, Task> {
    map id | id in tasks :: if id in queue then tasks[id].(state := Cancelled) else tasks[id]
  }

  lemma CancelNext(tasks: map<Id, Task>, front: seq<Id>, id: Id)
    ensures id in tasks ==>
      CancelledIn(tasks, front + [id]) == CancelledIn(tasks, front)[id := tasks[id].(state := Cancelled)]
    ensures id !in tasks ==> CancelledIn(tasks, front + [id]) == CancelledIn(tasks, front)
    ensures id in CancelledIn(tasks, front) <==> id in tasks
    ensures id in tasks ==> CancelledIn(tasks, front)[id].(state := Cancelled) == tasks[id].(state := Cancelled)
  {
  }

  lemma NothingCancelled(tasks: map<Id, Task>)
    ensures CancelledIn(tasks, []) == tasks
  {
  }

  /** Every running task signalled, the others as they are. */
  ghost function SignalledIn(tasks: map<Id, Task>, ids: set<Id>): map<Id, Task> {
    map id | id in tasks ::
      if id in ids && tasks[id].state == Running then tasks[id].(signalled := true) else tasks[id]
  }

  lemma SignalNext(tasks: map<Id, Task>, done: set<Id>, id: Id)
    requires id in tasks && id !in done
    ensures id in SignalledIn(tasks, done) && SignalledIn(tasks, done)[id] == tasks[id]
    ensures SignalledIn(tasks, done + {id})
         == if tasks[id].state == Running then SignalledIn(tasks, done)[id := tasks[id].(signalled := true)]
            else SignalledIn(tasks, done)
  {
  }

  lemma NothingSignalled(tasks: map<Id, Task>)
    ensures SignalledIn(tasks, {}) == tasks
  {
  }

  lemma DisposeInTwoPasses(sh: Shared)
    requires !sh.closed
    ensures Dispose(sh).tasks == SignalledIn(CancelledIn(sh.tasks, sh.queue), CancelledIn(sh.tasks, sh.queue).Keys)
  {
  }

  /** These tasks were enqueued: each with its job, in order, and nothing else changed. */
  ghost predicate JoinsTheQueue(before: Shared, session: string, orders: seq<Order>, after: Shared) {
    && after.queue == before.queue + OrderIds(orders)
    && (forall id :: id in after.tasks <==> id in before.tasks || id in OrderIds(orders))
    && (forall i :: 0 <= i < |orders| ==>
          orders[i].id in after.tasks && after.tasks[orders[i].id] == Task(session, orders[i].job, Queued, false, None))
    && (forall id :: id in before.tasks && id !in OrderIds(orders) ==>
          id in after.tasks && after.tasks[id] == before.tasks[id])
  }

  lemma IdsUnfold(orders: seq<Order>)
    requires orders != []
    ensures OrderIds(orders) == [orders[0].id] + OrderIds(orders[1..])
    ensures forall id :: id in OrderIds(orders) <==> id == orders[0].id || id in OrderIds(orders[1..])
  {
  }

  lemma FirstJoins(sh: Shared, session: string, orders: seq<Order>, after: Shared)
    requires orders != [] && orders[0].id !in OrderIds(orders[1..])
    requires JoinsTheQueue(Add(sh, orders[0].id, Task(session, orders[0].job, Queued, false, None)), session, orders[1..], after)
    ensures JoinsTheQueue(sh, session, orders, after)
  {
    hide OrderIds;
    var first, rest := orders[0], orders[1..];
    var mid := Add(sh, first.id, Task(session, first.job, Queued, false, None));
    IdsUnfold(orders);
    ConcatAssociative(sh.queue, [first.id], OrderIds(rest));
    assert first.id in mid.tasks && after.tasks[first.id] == mid.tasks[first.id];
    forall i | 0 < i < |orders|
      ensures orders[i].id in after.tasks && after.tasks[orders[i].id] == Task(session, orders[i].job, Queued, false, None)
    {
      assert rest[i - 1] == orders[i];
    }
    forall id | id in sh.tasks && id !in OrderIds(orders) ensures id in after.tasks && after.tasks[id] == sh.tasks[id] {
      assert id in mid.tasks && mid.tasks[id] == sh.tasks[id];
    }
  }

  lemma NothingJoins(sh: Shared, session: string)
    ensures JoinsTheQueue(sh, session, [], sh)
  {
  }

  lemma {:induction false} EnqueueAdds(sh: Shared, session: string, orders: seq<Order>)
    requires forall i, j :: 0 <= i < j < |orders| ==> orders[i].id != orders[j].id
    ensures JoinsTheQueue(sh, session, orders, TransferModel.Enqueue(sh, session, orders))
    decreases |orders|
  {
    hide JoinsTheQueue;
    if orders == [] {
      NothingJoins(sh, session);
    } else {
      EnqueueAdds(Add(sh, orders[0].id, Task(session, orders[0].job, Queued, false, None)), session, orders[1..]);
      assert forall i :: 0 <= i < |OrderIds(orders[1..])| ==> OrderIds(orders[1..])[i] == orders[i + 1].id;
      FirstJoins(sh, session, orders, TransferModel.Enqueue(sh, session, orders));
    }
  }

  /** What a call of schedule does to the tasks: the launched ones run, unsignalled, and the others are as they were. */
  lemma {:induction false} ScheduleStarts(sh: Shared)
    ensures forall id :: id in Launches(sh) ==>
              id in sh.tasks && id in Schedule(sh).tasks
              && Schedule(sh).tasks[id] == sh.tasks[id].(state := Running, signalled := false)
    ensures forall id :: id in sh.tasks && id !in Launches(sh) ==>
              id in Schedule(sh).tasks && Schedule(sh).tasks[id] == sh.tasks[id]
    decreases |sh.queue|
  {
    hide Pick;
    if CanLaunch(sh) {
      ScheduleStarts(Launch(sh));
    }
  }

  class TransferManager {
    var tasks: map<Id, Task>
    var queue: seq<Id>
    var runningGlobal: int
    var runningSession: map<string, int>
    var closed: bool
    /** The calls so far; its shared part is not used. */
    ghost var calls: State

    ghost function Fields(): Shared
      reads this
    {
      Shared(tasks, queue, runningGlobal, runningSession, closed)
    }

    ghost function Abstract(): State
      reads this
    {
      calls.(sh := Fields())
    }

    ghost predicate Valid()
      reads this
    {
      Inv(Abstract())
    }

    constructor ()
      ensures Valid() && Abstract() == Initial()
    {
      tasks, queue, runningGlobal, runningSession, closed := map[], [], 0, map[], false;
      calls := Initial();
      new;
      InitialInv();
    }

    /**
     The locked part of EnqueueUpload, and of EnqueueDownload with one order.
     The ids are new, and without a file to send the source does not come here.
     */
    method Enqueue(session: string, orders: seq<Order>) returns (ok: bool)
      requires Valid() && orders != []
      requires forall o :: o in orders ==> o.id !in calls.born
      requires forall i, j :: 0 <= i < j < |orders| ==> orders[i].id != orders[j].id
      modifies this`tasks, this`queue, this`calls
      ensures ok <==> !closed
      ensures Valid() && (ok ==> Abstract() == Step(old(Abstract()), Enqueues(session, orders)))
      ensures !ok ==> Abstract() == old(Abstract())
      ensures ok ==> JoinsTheQueue(old(Fields()), session, orders, Fields())
    {
      hide Inv, JoinsTheQueue;
      if closed {
        return false;
      }
      ok := true;
      EnqueueAdds(Fields(), session, orders);
      StepKeepsInv(Abstract(), Enqueues(session, orders));
      calls := Step(Abstract(), Enqueues(session, orders));
      for i := 0 to |orders|
        modifies this`tasks, this`queue
        invariant TransferModel.Enqueue(Fields(), session, orders[i..])
               == TransferModel.Enqueue(old(Fields()), session, orders)
      {
        assert orders[i..][1..] == orders[i + 1..];
        var task := Task(session, orders[i].job, Queued, false, None);
        tasks := tasks[orders[i].id := task];
        queue := queue + [orders[i].id];
      }
    }

    /** Takes the first occurrence of a task out of the queue. */
    method Unqueue(id: Id)
      modifies this`queue
      ensures queue == Without(old(queue), id)
    {
      for i := 0 to |queue|
        invariant queue == old(queue) && id !in queue[..i]
      {
        if queue[i] == id {
          WithoutSplits(queue, i);
          queue := queue[..i] + queue[i + 1..];
          return;
        }
      }
      assert queue[..|queue|] == queue;
      WithoutAbsent(queue, id);
    }

    method Cancel(id: Id) returns (found: bool, owes: bool)
      requires Valid()
      modifies this`tasks, this`queue, this`calls
      ensures Valid() && Abstract() == Step(old(Abstract()), Cancels(id))
      ensures found <==> id in old(tasks)
      ensures owes <==> id in old(tasks) && old(tasks)[id].state == Queued
      ensures tasks.Keys == old(tasks).Keys && forall other :: other in tasks && other != id ==> tasks[other] == old(tasks)[other]
      ensures id in tasks ==>
                match old(tasks)[id].state
                case Queued => tasks[id] == old(tasks)[id].(state := Cancelled) && id !in queue
                case Running => tasks[id] == old(tasks)[id].(signalled := true) && queue == old(queue)
                case _ => tasks[id] == old(tasks)[id] && queue == old(queue)
      ensures forall other :: other != id ==> (other in queue <==> other in old(queue))
    {
      hide Inv;
      QueuedOnce(old(Abstract()), id);
      StepKeepsInv(Abstract(), Cancels(id));
      calls := Step(Abstract(), Cancels(id));
      found, owes := id in tasks, false;
      if !found {
        return;
      }
      if tasks[id].state == Queued {
        Unqueue(id);
        tasks := tasks[id := tasks[id].(state := Cancelled)];
        owes := true;
        return;
      }
      if tasks[id].state == Running {
        tasks := tasks[id := tasks[id].(signalled := true)];
      }
    }

    /** Retry inherits the session and the job under a new id. */
    method Retry(id: Id, newId: Id) returns (ok: bool)
      requires Valid() && newId !in calls.born
      modifies this`tasks, this`queue, this`calls
      ensures Valid() && Abstract() == Step(old(Abstract()), Retries(id, newId))
      ensures ok <==> !closed && id in old(tasks) && old(tasks)[id].state in {Failed, Cancelled}
      ensures ok ==>
                && queue == old(queue) + [newId]
                && tasks == old(tasks)[newId := Task(old(tasks)[id].session, old(tasks)[id].job, Queued, false, Some(id))]
      ensures !ok ==> tasks == old(tasks) && queue == old(queue)
    {
      hide Inv;
      StepKeepsInv(Abstract(), Retries(id, newId));
      calls := Step(Abstract(), Retries(id, newId));
      if closed || id !in tasks {
        return false;
      }
      var task := tasks[id];
      if task.state != Failed && task.state != Cancelled {
        return false;
      }
      tasks := tasks[newId := Task(task.session, task.job, Queued, false, Some(id))];
      queue := queue + [newId];
      ok := true;
    }

    method Clear(id: Id) returns (ok: bool)
      requires Valid()
      modifies this`tasks, this`calls
      ensures Valid() && Abstract() == Step(old(Abstract()), Clears(id))
      ensures ok <==> id !in tasks
      ensures id in old(tasks) && id !in tasks <==> id in old(tasks) && old(tasks)[id].state in {Succeeded, Failed, Cancelled}
      ensures tasks == if id in tasks then old(tasks) else old(tasks) - {id}
    {
      hide Inv;
      StepKeepsInv(Abstract(), Clears(id));
      calls := Step(Abstract(), Clears(id));
      if id !in tasks {
        return true;
      }
      var st := tasks[id].state;
      if st == Queued || st == Running || st == Finalizing {
        return false;
      }
      tasks := tasks - {id};
      ok := true;
    }

    /** Whatever order the map is walked in, the finished tasks go. */
    method ClearCompleted()
      requires Valid()
      modifies this`tasks, this`calls
      ensures Valid() && Abstract() == Step(old(Abstract()), ClearsCompleted)
      ensures forall id :: id in tasks <==> id in old(tasks) && old(tasks)[id].state !in {Succeeded, Failed, Cancelled}
      ensures forall id :: id in tasks ==> tasks[id] == old(tasks)[id]
    {
      hide Inv;
      StepKeepsInv(Abstract(), ClearsCompleted);
      calls := Step(Abstract(), ClearsCompleted);
      var todo := tasks.Keys;
      while todo != {}
        modifies this`tasks
        invariant todo <= tasks.Keys <= old(tasks).Keys
        invariant forall id :: id in tasks ==> tasks[id] == old(tasks)[id]
        invariant forall id :: id in old(tasks) && id !in todo ==> (id in tasks <==> !Terminal(old(tasks)[id].state))
        decreases |todo|
      {
        var id :| id in todo;
        todo := todo - {id};
        if tasks[id].state == Succeeded || tasks[id].state == Failed || tasks[id].state == Cancelled {
          tasks := tasks - {id};
        }
      }
      assert tasks == TransferModel.ClearCompleted(old(Fields())).tasks;
    }

    /** Cancels everything queued. */
    method CancelQueue()
      modifies this`tasks
      ensures tasks == CancelledIn(old(tasks), queue)
    {
      hide CancelledIn;
      assert queue[..0] == [];
      NothingCancelled(tasks);
      for i := 0 to |queue|
        invariant tasks == CancelledIn(old(tasks), queue[..i])
      {
        assert queue[..i + 1] == queue[..i] + [queue[i]];
        CancelNext(old(tasks), queue[..i], queue[i]);
        if queue[i] in tasks {
          tasks := tasks[queue[i] := tasks[queue[i]].(state := Cancelled)];
        }
      }
      assert queue[..|queue|] == queue;
    }

    /** Signals everything running, in any order. */
    method SignalRunning()
      modifies this`tasks
      ensures tasks == SignalledIn(old(tasks), old(tasks).Keys)
    {
      hide SignalledIn;
      NothingSignalled(tasks);
      var all := tasks.Keys;
      var todo := all;
      assert all - todo == {};
      while todo != {}
        invariant todo <= all == old(tasks).Keys
        invariant tasks == SignalledIn(old(tasks), all - todo)
        decreases |todo|
      {
        var id :| id in todo;
        SignalNext(old(tasks), all - todo, id);
        assert all - (todo - {id}) == (all - todo) + {id};
        todo := todo - {id};
        if tasks[id].state == Running {
          tasks := tasks[id := tasks[id].(signalled := true)];
        }
      }
      assert all - todo == all;
    }

    method Dispose()
      requires Valid()
      modifies this`tasks, this`queue, this`closed, this`calls
      ensures Valid() && Abstract() == Step(old(Abstract()), Disposes)
      ensures closed && queue == [] && tasks.Keys == old(tasks).Keys
      ensures old(closed) ==> tasks == old(tasks)
      ensures !old(closed) ==> forall id :: id in tasks ==>
                match old(tasks)[id].state
                case Queued => tasks[id] == old(tasks)[id].(state := Cancelled)
                case Running => tasks[id] == old(tasks)[id].(signalled := true)
                case _ => tasks[id] == old(tasks)[id]
    {
      hide Inv;
      if closed {
        QueueOfClosed(Abstract());
      }
      QueueIsQueued(Abstract());
      StepKeepsInv(Abstract(), Disposes);
      calls := Step(Abstract(), Disposes);
      if closed {
        return;
      }
      closed := true;
      CancelQueue();
      queue := [];
      SignalRunning();
      DisposeInTwoPasses(old(Fields()));
    }

    /** The scan for the first runnable entry. */
    method FindRunnable() returns (picked: int)
      ensures picked == Pick(Fields(), 0)
    {
      picked := -1;
      for i := 0 to |queue|
        invariant Pick(Fields(), i) == Pick(Fields(), 0)
      {
        if queue[i] !in tasks {
          continue;
        }
        var session := tasks[queue[i]].session;
        var load := if session in runningSession then runningSession[session] else 0;
        if load < MAX_SESSION {
          return i;
        }
      }
    }

    /** Starts the task at the picked index. */
    method LaunchAt(picked: nat) returns (id: Id)
      requires CanLaunch(Fields()) && picked == Pick(Fields(), 0)
      modifies this`tasks, this`queue, this`runningGlobal, this`runningSession
      ensures id == old(queue[picked])
      ensures Fields() == Launch(old(Fields())) && |queue| < |old(queue)|
    {
      hide Pick;
      id := queue[picked];
      var task := tasks[id];
      var load := if task.session in runningSession then runningSession[task.session] else 0;
      queue := queue[..picked] + queue[picked + 1..];
      tasks := tasks[id := task.(state := Running, signalled := false)];
      runningGlobal := runningGlobal + 1;
      runningSession := runningSession[task.session := load + 1];
    }

    lemma Unfolds(sh: Shared, launched: seq<Id>)
      ensures CanLaunch(sh) ==>
        && Schedule(sh) == Schedule(Launch(sh))
        && launched + Launches(sh) == launched + [sh.queue[Pick(sh, 0)]] + Launches(Launch(sh))
      ensures !CanLaunch(sh) ==> Schedule(sh) == sh && launched + Launches(sh) == launched
    {
    }

    method ScheduleLocked() returns (launches: seq<Id>)
      requires Valid() && calls.owed > 0
      modifies this`tasks, this`queue, this`runningGlobal, this`runningSession, this`calls
      ensures Valid() && Abstract() == Step(old(Abstract()), Schedules)
      ensures calls.starts == old(calls.starts) + launches
      ensures !CanLaunch(Fields())
      ensures forall id :: id in launches ==>
                id in old(tasks) && id in tasks && tasks[id] == old(tasks)[id].(state := Running, signalled := false)
      ensures forall id :: id in old(tasks) && id !in launches ==> id in tasks && tasks[id] == old(tasks)[id]
    {
      hide Inv, Pick, Schedule, Launches, Launch;
      StepKeepsInv(Abstract(), Schedules);
      ScheduleStarts(Fields());
      calls := Step(Abstract(), Schedules);
      launches := [];
      Unfolds(Fields(), []);
      if closed {
        ClosedLaunchesNothing(Fields());
        return;
      }
      assert [] + Launches(Fields()) == Launches(Fields());
      while runningGlobal < MAX_GLOBAL && |queue| > 0
        modifies this`tasks, this`queue, this`runningGlobal, this`runningSession
        invariant Schedule(Fields()) == Schedule(old(Fields()))
        invariant launches + Launches(Fields()) == Launches(old(Fields()))
        decreases |queue|
      {
        var picked := FindRunnable();
        if picked == -1 {
          break;
        }
        Unfolds(Fields(), launches);
        var id := LaunchAt(picked);
        launches := launches + [id];
      }
      NoneLeft(Fields());
      Unfolds(Fields(), launches);
    }

    lemma QueuedOnce(s: State, id: Id)
      requires Inv(s)
      ensures forall x :: x in Without(s.sh.queue, id) <==> x in s.sh.queue && x != id
    {
      hide TasksExact, SessionsExact, Counted, Fifo, Attended, Without, Ticket;
      WithoutKeeps(s, s.sh.queue, id);
    }

    lemma QueueIsQueued(s: State)
      requires Inv(s)
      ensures forall id :: id in s.sh.queue <==> id in s.sh.tasks && s.sh.tasks[id].state == Queued
    {
      hide SessionsExact, Counted, InOrder, Fifo, Attended;
      forall id ensures id in s.sh.queue <==> id in s.sh.tasks && s.sh.tasks[id].state == Queued {
        assert TaskAt(s, id);
      }
    }

    lemma NoneLeft(sh: Shared)
      ensures sh.queue == [] ==> !CanLaunch(sh)
    {
    }

    lemma QueueOfClosed(s: State)
      requires Inv(s) && s.sh.closed
      ensures s.sh.queue == []
    {
      hide TasksExact, SessionsExact, Counted, InOrder, Fifo;
    }

    /** The progress callback: what it reports late, of a task that ended, changes nothing. */
    method Progress(id: Id, finalizing: bool)
      requires Valid()
      modifies this`tasks, this`calls
      ensures Valid() && Abstract() == Step(old(Abstract()), Progresses(id, finalizing))
      ensures tasks == if id in old(tasks) && finalizing && old(tasks)[id].state == Running
                       then old(tasks)[id := old(tasks)[id].(state := Finalizing)] else old(tasks)
      ensures id in old(tasks) && old(tasks)[id].state in {Succeeded, Failed, Cancelled} ==> tasks == old(tasks)
    {
      hide Inv;
      StepKeepsInv(Abstract(), Progresses(id, finalizing));
      calls := Step(Abstract(), Progresses(id, finalizing));
      if id in tasks && finalizing && tasks[id].state == Running {
        tasks := tasks[id := tasks[id].(state := Finalizing)];
      }
    }

    /** The end of runTask, of a task that holds its session; a schedule is owed unless the manager was disposed. */
    method Finish(id: Id, result: RunResult) returns (owes: bool)
      requires Valid() && Enabled(Abstract(), Finishes(id, result))
      modifies this`tasks, this`runningGlobal, this`runningSession, this`calls
      ensures Valid() && Abstract() == Step(old(Abstract()), Finishes(id, result))
      ensures owes <==> !closed
      ensures id in tasks && tasks[id].state in {Succeeded, Failed, Cancelled} && tasks[id].session !in runningSession
      ensures tasks[id].state == Succeeded <==> result == Completed
      ensures tasks[id].state == Failed <==>
                result == OtherError && (!old(tasks)[id].signalled || old(tasks)[id].state == Finalizing)
      ensures tasks == old(tasks)[id := old(tasks)[id].(state := tasks[id].state)]
      ensures runningGlobal == |runningSession| == old(runningGlobal) - 1
    {
      hide Inv;
      Held(Abstract(), id);
      StepKeepsInv(Abstract(), Finishes(id, result));
      calls := Step(Abstract(), Finishes(id, result));
      var task := tasks[id];
      var end;
      if result == Completed {
        end := Succeeded;
      } else if result == CancelError {
        end := Cancelled;
      } else if task.signalled && task.state != Finalizing {
        end := Cancelled;
      } else {
        end := Failed;
      }
      tasks := tasks[id := task.(state := end)];
      runningGlobal := runningGlobal - 1;
      var load := (if task.session in runningSession then runningSession[task.session] else 0) - 1;
      runningSession := runningSession[task.session := load];
      if load <= 0 {
        runningSession := runningSession - {task.session};
        assert runningSession == old(runningSession) - {task.session};
      }
      owes := !closed;
      BusySessions(Abstract());
    }

    /** A task that holds its session is the only one counted for it. */
    lemma Held(s: State, id: Id)
      requires Inv(s) && id in s.sh.tasks && s.sh.tasks[id].session in s.running
      ensures Load(s.sh, s.sh.tasks[id].session) == 1
    {
      hide TasksExact, Counted, InOrder, Fifo, Attended;
      assert SessionAt(s, s.sh.tasks[id].session);
    }

    lemma BusySessions(s: State)
      requires Inv(s)
      ensures s.sh.runningGlobal == |s.sh.runningSession|
    {
      hide TasksExact, InOrder, Fifo, Attended;
      assert s.sh.runningSession.Keys == s.running.Keys by {
        forall session ensures session in s.sh.runningSession <==> session in s.running {
          assert SessionAt(s, session);
        }
      }
      assert |s.running| == |s.running.Keys| && |s.sh.runningSession| == |s.sh.runningSession.Keys|;
    }
  }
}
