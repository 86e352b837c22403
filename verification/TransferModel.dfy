/**
 The transfer scheduler: what the manager's mutex protects, one function for
 each of its critical sections, and the runs of all of them in any order.
 */
module TransferModel {
  import opened Prelude

  type Id = string

  const MAX_GLOBAL := 3
  const MAX_SESSION := 1

  datatype TaskState = Queued | Running | Finalizing | Succeeded | Failed | Cancelled

  /** A transfer; job stands for its direction and paths, signalled for its cancelled context. */
  datatype Task = Task(session: string, job: string, state: TaskState, signalled: bool, retryOf: Option<Id>)

  datatype RunResult = Completed | CancelError | OtherError

  datatype Shared = Shared(
    tasks: map<Id, Task>,
    queue: seq<Id>,
    runningGlobal: int,
    runningSession: map<string, int>,
    closed: bool
  )

  predicate Active(st: TaskState) {
    st == Running || st == Finalizing
  }

  predicate Terminal(st: TaskState) {
    st == Succeeded || st == Failed || st == Cancelled
  }

  // ---------------------------------------------------------------- scheduling

  function Load(sh: Shared, session: string): int {
    if session in sh.runningSession then sh.runningSession[session] else 0
  }

  predicate Startable(sh: Shared, id: Id) {
    id in sh.tasks && Load(sh, sh.tasks[id].session) < MAX_SESSION
  }

  /** The least index at or behind from whose session is below its cap, or -1. */
  function Pick(sh: Shared, from: nat): (i: int)
    requires from <= |sh.queue|
    ensures i == -1 || from <= i < |sh.queue|
    ensures i >= 0 ==> Startable(sh, sh.queue[i]) && forall j :: from <= j < i ==> !Startable(sh, sh.queue[j])
    ensures i == -1 ==> forall j :: from <= j < |sh.queue| ==> !Startable(sh, sh.queue[j])
    decreases |sh.queue| - from
  {
    if from == |sh.queue| then -1
    else if Startable(sh, sh.queue[from]) then from
    else Pick(sh, from + 1)
  }

  predicate CanLaunch(sh: Shared) {
    !sh.closed && sh.runningGlobal < MAX_GLOBAL && Pick(sh, 0) >= 0
  }

  function Launch(sh: Shared): Shared
    requires CanLaunch(sh)
  {
    var i := Pick(sh, 0);
    var id := sh.queue[i];
    var task := sh.tasks[id];
    sh.(queue := sh.queue[..i] + sh.queue[i + 1..],
        tasks := sh.tasks[id := task.(state := Running, signalled := false)],
        runningGlobal := sh.runningGlobal + 1,
        runningSession := sh.runningSession[task.session := Load(sh, task.session) + 1])
  }

  /** scheduleLocked: launch until nothing can be. */
  function Schedule(sh: Shared): Shared
    decreases |sh.queue|
  {
    if CanLaunch(sh) then Schedule(Launch(sh)) else sh
  }

  /** The tasks scheduleLocked launches, in order. */
  function Launches(sh: Shared): seq<Id>
    decreases |sh.queue|
  {
    if CanLaunch(sh) then [sh.queue[Pick(sh, 0)]] + Launches(Launch(sh)) else []
  }

  // ---------------------------------------------------------------- the other sections

  datatype Order = Order(id: Id, job: string)

  function OrderIds(orders: seq<Order>): (ids: seq<Id>)
    ensures |ids| == |orders| && forall i :: 0 <= i < |orders| ==> ids[i] == orders[i].id
  {
    if orders == [] then [] else [orders[0].id] + OrderIds(orders[1..])
  }

  function Add(sh: Shared, id: Id, task: Task): Shared {
    sh.(tasks := sh.tasks[id := task], queue := sh.queue + [id])
  }

  function Enqueue(sh: Shared, session: string, orders: seq<Order>): Shared
    decreases |orders|
  {
    if orders == [] then sh
    else Enqueue(Add(sh, orders[0].id, Task(session, orders[0].job, Queued, false, None)), session, orders[1..])
  }

  function Cancel(sh: Shared, id: Id): Shared {
    if id !in sh.tasks then sh
    else if sh.tasks[id].state == Queued then
      sh.(queue := Without(sh.queue, id), tasks := sh.tasks[id := sh.tasks[id].(state := Cancelled)])
    else if sh.tasks[id].state == Running then
      sh.(tasks := sh.tasks[id := sh.tasks[id].(signalled := true)])
    else sh
  }

  predicate Retryable(sh: Shared, id: Id) {
    !sh.closed && id in sh.tasks && (sh.tasks[id].state == Failed || sh.tasks[id].state == Cancelled)
  }

  function Retry(sh: Shared, id: Id, newId: Id): Shared {
    if Retryable(sh, id) then
      Add(sh, newId, Task(sh.tasks[id].session, sh.tasks[id].job, Queued, false, Some(id)))
    else sh
  }

  function Clear(sh: Shared, id: Id): Shared {
    if id in sh.tasks && Terminal(sh.tasks[id].state) then sh.(tasks := sh.tasks - {id}) else sh
  }

  function ClearCompleted(sh: Shared): Shared {
    sh.(tasks := map id | id in sh.tasks && !Terminal(sh.tasks[id].state) :: sh.tasks[id])
  }

  /** What Dispose does to one task. */
  function Disposed(queue: seq<Id>, id: Id, task: Task): Task {
    if id in queue then task.(state := Cancelled)
    else if task.state == Running then task.(signalled := true)
    else task
  }

  function Dispose(sh: Shared): Shared {
    if sh.closed then sh
    else sh.(closed := true, queue := [], tasks := map id | id in sh.tasks :: Disposed(sh.queue, id, sh.tasks[id]))
  }

  function Progress(sh: Shared, id: Id, finalizing: bool): Shared {
    if id in sh.tasks && finalizing && sh.tasks[id].state == Running then
      sh.(tasks := sh.tasks[id := sh.tasks[id].(state := Finalizing)])
    else sh
  }

  function Ended(task: Task, result: RunResult): TaskState {
    match result
    case Completed => Succeeded
    case CancelError => Cancelled
    case OtherError => if task.signalled && task.state != Finalizing then Cancelled else Failed
  }

  /** The end of runTask. */
  function Finish(sh: Shared, id: Id, result: RunResult): Shared
    requires id in sh.tasks
  {
    var task := sh.tasks[id];
    var load := Load(sh, task.session) - 1;
    sh.(tasks := sh.tasks[id := task.(state := Ended(task, result))],
        runningGlobal := sh.runningGlobal - 1,
        runningSession := if load <= 0 then sh.runningSession - {task.session} else sh.runningSession[task.session := load])
  }

  // ---------------------------------------------------------------- runs

  /** When a task was enqueued, and for which session. */
  datatype Birth = Birth(ticket: nat, session: string)

  datatype State = State(
    sh: Shared,
    running: map<string, Id>,  // the launched and unfinished task of each busy session
    owed: nat,                 // calls of schedule that a section promised and that did not come yet
    born: map<Id, Birth>,      // every id ever enqueued
    starts: seq<Id>            // every launch, in order
  )

  datatype Event =
    | Enqueues(session: string, orders: seq<Order>) | Schedules
    | Cancels(id: Id) | Retries(id: Id, newId: Id)
    | Clears(id: Id) | ClearsCompleted | Disposes
    | Progresses(id: Id, finalizing: bool) | Finishes(id: Id, result: RunResult)

  /** Ids are fresh; a task reports its end once, and progress at any time. */
  predicate Enabled(s: State, e: Event) {
    match e
    case Enqueues(_, orders) =>
      && !s.sh.closed && orders != []
      && (forall o :: o in orders ==> o.id !in s.born)
      && (forall i, j :: 0 <= i < j < |orders| ==> orders[i].id != orders[j].id)
    case Schedules => s.owed > 0
    case Retries(id, newId) => newId !in s.born
    case Finishes(id, _) => id in s.sh.tasks && s.sh.tasks[id].session in s.running && s.running[s.sh.tasks[id].session] == id
    case _ => true
  }

  function Launched(s: State): State
    requires CanLaunch(s.sh)
  {
    var id := s.sh.queue[Pick(s.sh, 0)];
    s.(sh := Launch(s.sh), running := s.running[s.sh.tasks[id].session := id], starts := s.starts + [id])
  }

  function Scheduled(s: State): (r: State)
    ensures (r.sh, r.owed, r.born) == (Schedule(s.sh), s.owed, s.born)
    ensures r.starts == s.starts + Launches(s.sh)
    decreases |s.sh.queue|
  {
    if CanLaunch(s.sh) then
      ConcatAssociative(s.starts, [s.sh.queue[Pick(s.sh, 0)]], Launches(Launch(s.sh)));
      Scheduled(Launched(s))
    else s
  }

  function Bear(s: State, id: Id, task: Task): State {
    s.(sh := Add(s.sh, id, task), born := s.born[id := Birth(|s.born|, task.session)])
  }

  function Enqueued(s: State, session: string, orders: seq<Order>): (r: State)
    ensures (r.sh, r.owed, r.running, r.starts) == (Enqueue(s.sh, session, orders), s.owed, s.running, s.starts)
    decreases |orders|
  {
    if orders == [] then s
    else Enqueued(Bear(s, orders[0].id, Task(session, orders[0].job, Queued, false, None)), session, orders[1..])
  }

  function Step(s: State, e: Event): State
    requires Enabled(s, e)
  {
    match e
    case Enqueues(session, orders) => Enqueued(s, session, orders).(owed := s.owed + 1)
    case Schedules => Scheduled(s).(owed := s.owed - 1)
    case Cancels(id) =>
      s.(sh := Cancel(s.sh, id),
         owed := if id in s.sh.tasks && s.sh.tasks[id].state == Queued then s.owed + 1 else s.owed)
    case Retries(id, newId) =>
      if Retryable(s.sh, id) then
        Bear(s, newId, Task(s.sh.tasks[id].session, s.sh.tasks[id].job, Queued, false, Some(id))).(owed := s.owed + 1)
      else s
    case Clears(id) => s.(sh := Clear(s.sh, id))
    case ClearsCompleted => s.(sh := ClearCompleted(s.sh))
    case Disposes => s.(sh := Dispose(s.sh))
    case Progresses(id, finalizing) => s.(sh := Progress(s.sh, id, finalizing))
    case Finishes(id, result) =>
      s.(sh := Finish(s.sh, id, result), running := s.running - {s.sh.tasks[id].session},
         owed := if s.sh.closed then s.owed else s.owed + 1)
  }

  ghost predicate Possible(s: State, events: seq<Event>)
    decreases |events|
  {
    events == [] || (Enabled(s, events[0]) && Possible(Step(s, events[0]), events[1..]))
  }

  function Run(s: State, events: seq<Event>): State
    requires Possible(s, events)
    decreases |events|
  {
    if events == [] then s else Run(Step(s, events[0]), events[1..])
  }

  function Initial(): State {
    State(Shared(map[], [], 0, map[], false), map[], 0, map[], [])
  }

  // ---------------------------------------------------------------- the invariant

  /** One task: it is queued exactly while Queued, and holds its session exactly while active. */
  ghost predicate TaskAt(s: State, id: Id) {
    && (id in s.sh.queue <==> id in s.sh.tasks && s.sh.tasks[id].state == Queued)
    && (id in s.sh.tasks ==>
          && id in s.born && s.born[id].session == s.sh.tasks[id].session
          && (Active(s.sh.tasks[id].state) <==>
                s.sh.tasks[id].session in s.running && s.running[s.sh.tasks[id].session] == id))
  }

  ghost predicate TasksExact(s: State) {
    forall id :: TaskAt(s, id)
  }

  /** One session: busy exactly while one task holds it. */
  ghost predicate SessionAt(s: State, session: string) {
    && Load(s.sh, session) == (if session in s.running then 1 else 0)
    && (session in s.sh.runningSession <==> session in s.running)
    && (session in s.running ==>
          s.running[session] in s.sh.tasks && s.sh.tasks[s.running[session]].session == session)
  }

  ghost predicate SessionsExact(s: State) {
    forall session :: SessionAt(s, session)
  }

  ghost predicate Counted(s: State) {
    s.sh.runningGlobal == |s.running| <= MAX_GLOBAL
  }

  function Ticket(s: State, id: Id): int {
    if id in s.born then s.born[id].ticket else -1
  }

  /** Every id has a ticket from its enqueue, and the queue is in ticket order. */
  ghost predicate InOrder(s: State) {
    && (forall id :: id in s.born ==> s.born[id].ticket < |s.born|)
    && (forall id :: id in s.starts ==> id in s.born)
    && (forall i, j :: 0 <= i < j < |s.sh.queue| ==> Ticket(s, s.sh.queue[i]) < Ticket(s, s.sh.queue[j]))
  }

  ghost predicate SameSession(s: State, a: Id, b: Id) {
    a in s.born && b in s.born && s.born[a].session == s.born[b].session
  }

  /** Within a session nothing queued is older than something started, and starts are in ticket order. */
  ghost predicate Fifo(s: State) {
    && (forall a, b :: a in s.starts && b in s.sh.queue && SameSession(s, a, b) ==> Ticket(s, a) < Ticket(s, b))
    && (forall i, j :: 0 <= i < j < |s.starts| && SameSession(s, s.starts[i], s.starts[j]) ==>
          Ticket(s, s.starts[i]) < Ticket(s, s.starts[j]))
  }

  /** Unless a call of schedule is owed, everything that may run does. */
  ghost predicate Attended(s: State) {
    && (s.sh.closed ==> s.sh.queue == [])
    && (s.owed > 0 || !CanLaunch(s.sh))
  }

  ghost predicate Inv(s: State) {
    TasksExact(s) && SessionsExact(s) && Counted(s) && InOrder(s) && Fifo(s) && Attended(s)
  }
}
