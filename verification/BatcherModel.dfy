/**
 The terminal output batcher as a state machine. One step is what one thread
 does while it holds the batcher's mutex; `cond.Wait` ends a step, and the
 thread's continuation is a later step, so every interleaving of producers,
 timer callbacks, the worker, Close and Discard is a sequence of steps.
 */
module BatcherModel {
  import opened Prelude
  import Utf8

  const MAX_FLUSH := 96 * 1024
  const ADAPTIVE_HIGH := 8

  /** The values a constructor fixes. */
  datatype Config = Config(threshold: nat, thresholdCap: int, maxBatch: int, maxBatches: nat, adaptive: bool) {

    /** The byte count that triggers an enqueue at queue depth q. */
    function Threshold(q: nat): (t: nat)
      ensures t >= threshold
      ensures t > threshold ==> t <= MAX_FLUSH
      ensures t > threshold ==> adaptive && q >= ADAPTIVE_HIGH
    {
      if !adaptive || q < ADAPTIVE_HIGH then threshold
      else
        var span := if maxBatches - ADAPTIVE_HIGH < 1 then 1 else maxBatches - ADAPTIVE_HIGH;
        var extra := threshold * (q - ADAPTIVE_HIGH + 1) / span;
        var capAt := if thresholdCap <= 0 || thresholdCap > MAX_FLUSH then MAX_FLUSH else thresholdCap;
        var t := if threshold + extra > capAt then capAt else threshold + extra;
        if t < threshold then threshold else t
    }

    /** The hard limit on one queued batch. */
    function Cap(): (c: nat)
      ensures 0 < c <= MAX_FLUSH
    {
      if maxBatch <= 0 || maxBatch > MAX_FLUSH then MAX_FLUSH else maxBatch
    }
  }

  datatype Worker = Idle | Delivering(chunk: Bytes) | Exited

  /** Where the one effective Close call is. */
  datatype Closer = NotClosing | Waiting | Finished

  /**
   The monitor's fields, the threads inside it, and two records of the outside
   world: the bytes Add accepted and the batches handed to the sink.
   */
  datatype State = State(
    pending: Bytes,
    queue: seq<Bytes>,
    timerSet: bool,
    closed: bool,
    discarded: bool,
    worker: Worker,
    addsWaiting: nat,
    timersWaiting: nat,
    closer: Closer,
    closeWaited: bool,
    accepted: Bytes,
    delivered: seq<Bytes>)

  const Initial := State([], [], false, false, false, Idle, 0, 0, NotClosing, false, [], [])

  // ---------------------------------------------------------------- pieces of steps

  function Enqueue(s: State, b: Utf8.Batch): State {
    s.(pending := b.rest, queue := s.queue + [b.out])
  }

  function Arm(s: State): State {
    if s.closed || s.discarded then s else s.(timerSet := true)
  }

  /** The end of Add and of the timer callback: leftovers arm the timer. */
  function ArmForRest(s: State): State {
    if s.pending != [] then Arm(s) else s
  }

  datatype Progress = Blocked(state: State) | Through(state: State)

  /** flushReadyLocked up to its return, or up to the point where it waits for a slot. */
  function Flush(c: Config, s: State): (p: Progress)
    requires !s.closed && !s.discarded
    decreases |s.pending|
  {
    if |s.pending| < c.Threshold(|s.queue|) then Through(s)
    else if |s.queue| >= c.maxBatches then Blocked(s)
    else
      var b := Utf8.TakeBatch(s.pending, c.Cap(), false);
      if b.out == [] then Through(s) else Flush(c, Enqueue(s, b))
  }

  function AfterFlush(p: Progress): State {
    match p
    case Blocked(s) => s.(addsWaiting := s.addsWaiting + 1)
    case Through(s) => ArmForRest(s)
  }

  /** The timer callback's loop from its head. */
  function TimerLoop(c: Config, s: State): (p: Progress)
    requires !s.closed && !s.discarded
    decreases |s.pending|
  {
    if |s.queue| >= c.maxBatches then Blocked(s)
    else
      var b := Utf8.TakeBatch(s.pending, c.Cap(), false);
      if b.out == [] then Through(s)
      else
        var t := Enqueue(s, b);
        if t.pending == [] || (|t.pending| < c.Cap() && |t.pending| < c.Threshold(|t.queue|)) then Through(t)
        else TimerLoop(c, t)
  }

  function AfterTimer(p: Progress): State {
    match p
    case Blocked(s) => s.(timersWaiting := s.timersWaiting + 1)
    case Through(s) => ArmForRest(s)
  }

  /** Close's loop from its head. */
  function CloseLoop(c: Config, s: State): (p: Progress)
    decreases |s.pending|
  {
    if s.pending == [] || s.discarded then Through(s)
    else if |s.queue| >= c.maxBatches then Blocked(s)
    else CloseLoop(c, Enqueue(s, Utf8.TakeBatch(s.pending, c.Cap(), true)))
  }

  function AfterClose(p: Progress): State {
    match p
    case Blocked(s) => s.(closer := Waiting, closeWaited := true)
    case Through(s) => s.(closer := Finished)
  }

  // ---------------------------------------------------------------- steps

  datatype Event =
    | Add(data: Bytes)
    | AddResumes
    | TimerFires
    | TimerResumes
    | Close
    | CloseResumes
    | Discard
    | WorkerTakes
    | WorkerDelivers
    | WorkerExits

  predicate Enabled(s: State, e: Event) {
    match e
    case Add(_) => true
    case AddResumes => s.addsWaiting > 0
    case TimerFires => true
    case TimerResumes => s.timersWaiting > 0
    case Close => true
    case CloseResumes => s.closer == Waiting
    case Discard => true
    case WorkerTakes => s.worker == Idle && !s.discarded && s.queue != []
    case WorkerDelivers => s.worker.Delivering?
    case WorkerExits => s.worker == Idle && (s.discarded || (s.queue == [] && s.closed))
  }

  function AddStep(c: Config, s: State, data: Bytes): State {
    if s.closed || s.discarded || data == [] then s
    else AfterFlush(Flush(c, s.(pending := s.pending + data, accepted := s.accepted + data)))
  }

  /** A producer woken from its wait for a slot: it takes without testing the threshold again. */
  function AddResumeStep(c: Config, s: State): State
    requires s.addsWaiting > 0
  {
    if s.closed || s.discarded then s.(addsWaiting := s.addsWaiting - 1)
    else if |s.queue| >= c.maxBatches then s
    else
      var t := s.(addsWaiting := s.addsWaiting - 1);
      var b := Utf8.TakeBatch(t.pending, c.Cap(), false);
      if b.out == [] then ArmForRest(t) else AfterFlush(Flush(c, Enqueue(t, b)))
  }

  function TimerStep(c: Config, s: State): State {
    var t := s.(timerSet := false);
    if t.closed || t.discarded then t else AfterTimer(TimerLoop(c, t))
  }

  function TimerResumeStep(c: Config, s: State): State
    requires s.timersWaiting > 0
  {
    var t := s.(timersWaiting := s.timersWaiting - 1);
    if s.closed || s.discarded then t else AfterTimer(TimerLoop(c, t))
  }

  function CloseStep(c: Config, s: State): State {
    if s.closed then s
    else AfterClose(CloseLoop(c, s.(closed := true, timerSet := false)))
  }

  function CloseResumeStep(c: Config, s: State): State
    requires s.closer == Waiting
  {
    AfterClose(CloseLoop(c, s))
  }

  function DiscardStep(s: State): State {
    s.(discarded := true, closed := true, timerSet := false, pending := [], queue := [])
  }

  /** One step; an event that is not enabled changes nothing. */
  function Step(c: Config, s: State, e: Event): State
  {
    if !Enabled(s, e) then s
    else
    match e
    case Add(data) => AddStep(c, s, data)
    case AddResumes => AddResumeStep(c, s)
    case TimerFires => TimerStep(c, s)
    case TimerResumes => TimerResumeStep(c, s)
    case Close => CloseStep(c, s)
    case CloseResumes => CloseResumeStep(c, s)
    case Discard => DiscardStep(s)
    case WorkerTakes => s.(worker := Delivering(s.queue[0]), queue := s.queue[1..])
    case WorkerDelivers => s.(worker := Idle, delivered := s.delivered + [s.worker.chunk])
    case WorkerExits => s.(worker := Exited, queue := if s.discarded then [] else s.queue)
  }

  function Run(c: Config, s: State, events: seq<Event>): State
    decreases |events|
  {
    if events == [] then s else Run(c, Step(c, s, events[0]), events[1..])
  }

  // ---------------------------------------------------------------- the invariant

  function InFlight(w: Worker): seq<Bytes> {
    if w.Delivering? then [w.chunk] else []
  }

  /** Every batch cut so far, in order. */
  function Batches(s: State): seq<Bytes> {
    s.delivered + InFlight(s.worker) + s.queue
  }

  /** Until a discard no accepted byte is lost, duplicated or reordered. */
  ghost predicate Conserved(s: State) {
    if s.discarded then Flatten(s.delivered + InFlight(s.worker)) <= s.accepted
    else Flatten(Batches(s)) + s.pending == s.accepted
  }

  ghost predicate Bounded(c: Config, s: State) {
    && |s.queue| <= c.maxBatches
    && forall b :: b in s.queue ==> 0 < |b| <= c.Cap()
  }

  /** How the teardown flags, the closing thread and the worker depend on each other. */
  ghost predicate TeardownOrdered(s: State) {
    && (s.discarded ==> s.closed && s.pending == [] && s.queue == [])
    && (!s.closed ==> s.closer == NotClosing && s.worker != Exited && !s.closeWaited)
    && (s.closed && !s.discarded ==> s.closer != NotClosing)
    && (s.closer == Waiting ==> s.closeWaited)
    && (s.closer == Finished && !s.discarded ==> s.pending == [])
    && (s.worker == Exited && !s.discarded && !s.closeWaited ==> s.queue == [])
  }

  /** Pending bytes always have a timer or a blocked thread that will move them. */
  ghost predicate Attended(s: State) {
    !s.closed && s.pending != [] ==> s.timerSet || s.addsWaiting > 0 || s.timersWaiting > 0
  }

  ghost predicate Inv(c: Config, s: State) {
    Conserved(s) && Bounded(c, s) && TeardownOrdered(s) && Attended(s)
  }

  /** t is s with some pending bytes moved, in order, into new batches of the queue. */
  ghost predicate Moved(c: Config, s: State, t: State) {
    && s.queue <= t.queue
    && t == s.(pending := t.pending, queue := t.queue)
    && Flatten(t.queue[|s.queue|..]) + t.pending == s.pending
    && (forall b :: b in t.queue[|s.queue|..] ==> 0 < |b| <= c.Cap())
    && (|t.queue| <= c.maxBatches || t.queue == s.queue)
  }

  lemma MovedNothing(c: Config, s: State)
    ensures Moved(c, s, s)
  {
    assert s.queue[|s.queue|..] == [];
  }

  lemma MovedOnce(c: Config, s: State, final: bool, t: State)
    requires |s.queue| < c.maxBatches
    requires Utf8.TakeBatch(s.pending, c.Cap(), final).out != []
    requires Moved(c, Enqueue(s, Utf8.TakeBatch(s.pending, c.Cap(), final)), t)
    ensures Moved(c, s, t)
  {
    var b := Utf8.TakeBatch(s.pending, c.Cap(), final);
    var parts := t.queue[|s.queue| + 1..];
    assert t.queue[|s.queue|..] == [b.out] + parts;
    assert Flatten([b.out] + parts) == b.out + Flatten(parts) by {
      assert ([b.out] + parts)[1..] == parts;
    }
    ConcatAssociative(b.out, Flatten(parts), t.pending);
  }

  lemma {:induction false} FlushMoves(c: Config, s: State)
    requires !s.closed && !s.discarded
    ensures Moved(c, s, Flush(c, s).state)
    decreases |s.pending|
  {
    MovedNothing(c, s);
    var b := Utf8.TakeBatch(s.pending, c.Cap(), false);
    if |s.pending| >= c.Threshold(|s.queue|) && |s.queue| < c.maxBatches && b.out != [] {
      FlushMoves(c, Enqueue(s, b));
      MovedOnce(c, s, false, Flush(c, s).state);
    }
  }

  lemma {:induction false} TimerMoves(c: Config, s: State)
    requires !s.closed && !s.discarded
    ensures Moved(c, s, TimerLoop(c, s).state)
    decreases |s.pending|
  {
    MovedNothing(c, s);
    var b := Utf8.TakeBatch(s.pending, c.Cap(), false);
    if |s.queue| < c.maxBatches && b.out != [] {
      var t := Enqueue(s, b);
      MovedNothing(c, t);
      if !(t.pending == [] || (|t.pending| < c.Cap() && |t.pending| < c.Threshold(|t.queue|))) {
        TimerMoves(c, t);
      }
      MovedOnce(c, s, false, TimerLoop(c, s).state);
    }
  }

  lemma {:induction false} CloseMoves(c: Config, s: State)
    ensures Moved(c, s, CloseLoop(c, s).state)
    ensures CloseLoop(c, s).Through? ==> s.discarded || CloseLoop(c, s).state.pending == []
    decreases |s.pending|
  {
    MovedNothing(c, s);
    if s.pending != [] && !s.discarded && |s.queue| < c.maxBatches {
      var b := Utf8.TakeBatch(s.pending, c.Cap(), true);
      CloseMoves(c, Enqueue(s, b));
      MovedOnce(c, s, true, CloseLoop(c, s).state);
    }
  }

  /** Moving bytes into the queue keeps conservation and the bounds. */
  lemma MovingConserves(c: Config, s: State, t: State)
    requires Moved(c, s, t) && !s.discarded
    requires Conserved(s) && Bounded(c, s)
    ensures Conserved(t) && Bounded(c, t)
  {
    var parts := t.queue[|s.queue|..];
    assert t.queue == s.queue + parts;
    assert Batches(t) == Batches(s) + parts;
    FlattenConcat(Batches(s), parts);
    ConcatAssociative(Flatten(Batches(s)), Flatten(parts), t.pending);
  }

  lemma AcceptingConserves(c: Config, s: State, data: Bytes)
    requires Conserved(s) && Bounded(c, s) && !s.discarded
    ensures var t := s.(pending := s.pending + data, accepted := s.accepted + data); Conserved(t) && Bounded(c, t)
  {
    var t := s.(pending := s.pending + data, accepted := s.accepted + data);
    assert Batches(t) == Batches(s);
    ConcatAssociative(Flatten(Batches(s)), s.pending, data);
  }

  lemma AddKeepsInv(c: Config, s: State, data: Bytes)
    requires Inv(c, s)
    ensures Inv(c, AddStep(c, s, data))
  {
    if !(s.closed || s.discarded || data == []) {
      var t := s.(pending := s.pending + data, accepted := s.accepted + data);
      AcceptingConserves(c, s, data);
      FlushMoves(c, t);
      MovingConserves(c, t, Flush(c, t).state);
    }
  }

  lemma AddResumeKeepsInv(c: Config, s: State)
    requires Inv(c, s) && s.addsWaiting > 0
    ensures Inv(c, AddResumeStep(c, s))
  {
    var t := s.(addsWaiting := s.addsWaiting - 1);
    assert Batches(t) == Batches(s);
    if !s.closed && |s.queue| < c.maxBatches {
      var b := Utf8.TakeBatch(t.pending, c.Cap(), false);
      if b.out != [] {
        FlushMoves(c, Enqueue(t, b));
        MovedOnce(c, t, false, Flush(c, Enqueue(t, b)).state);
        MovingConserves(c, t, Flush(c, Enqueue(t, b)).state);
      }
    }
  }

  lemma TimerKeepsInv(c: Config, s: State, t: State)
    requires Inv(c, s)
    requires t == s.(timerSet := t.timerSet, timersWaiting := t.timersWaiting)
    ensures Inv(c, if s.closed || s.discarded then t else AfterTimer(TimerLoop(c, t)))
  {
    assert Batches(t) == Batches(s);
    if !s.closed {
      TimerMoves(c, t);
      MovingConserves(c, t, TimerLoop(c, t).state);
    }
  }

  lemma CloseKeepsInv(c: Config, s: State, t: State)
    requires Inv(c, s)
    requires t == s.(closed := true, timerSet := t.timerSet)
    requires s.closed ==> t == s && s.closer == Waiting
    ensures Inv(c, AfterClose(CloseLoop(c, t)))
  {
    assert Batches(t) == Batches(s);
    CloseMoves(c, t);
    MovedNothing(c, t);
    if !s.discarded {
      MovingConserves(c, t, CloseLoop(c, t).state);
    }
  }

  lemma DiscardKeepsInv(c: Config, s: State)
    requires Inv(c, s)
    ensures Inv(c, DiscardStep(s))
  {
    if !s.discarded {
      var out := s.delivered + InFlight(s.worker);
      FlattenConcat(out, s.queue);
      assert Flatten(out) <= Flatten(Batches(s)) <= s.accepted;
    }
  }

  lemma WorkerKeepsInv(c: Config, s: State, e: Event)
    requires Inv(c, s) && e in {WorkerTakes, WorkerDelivers, WorkerExits}
    ensures Inv(c, Step(c, s, e))
  {
    var t := Step(c, s, e);
    if Enabled(s, e) {
      match e
      case WorkerTakes =>
        assert s.queue == [s.queue[0]] + t.queue;
        assert Batches(t) == Batches(s);
      case WorkerDelivers =>
        assert t.delivered + InFlight(t.worker) == s.delivered + InFlight(s.worker);
      case WorkerExits =>
    }
  }

  /** The invariant is kept by every step of every thread. */
  lemma StepKeepsInv(c: Config, s: State, e: Event)
    requires Inv(c, s)
    ensures Inv(c, Step(c, s, e))
  {
    hide Inv, Flush, TimerLoop, CloseLoop;
    match e
    case Add(data) => AddKeepsInv(c, s, data);
    case AddResumes => if Enabled(s, e) { AddResumeKeepsInv(c, s); }
    case TimerFires => TimerKeepsInv(c, s, s.(timerSet := false));
    case TimerResumes => if Enabled(s, e) { TimerKeepsInv(c, s, s.(timersWaiting := s.timersWaiting - 1)); }
    case Close => if !s.closed { CloseKeepsInv(c, s, s.(closed := true, timerSet := false)); }
    case CloseResumes => if Enabled(s, e) { ClosedWhileWaiting(c, s); CloseKeepsInv(c, s, s); }
    case Discard => DiscardKeepsInv(c, s);
    case WorkerTakes => WorkerKeepsInv(c, s, e);
    case WorkerDelivers => WorkerKeepsInv(c, s, e);
    case WorkerExits => WorkerKeepsInv(c, s, e);
  }

  lemma ClosedWhileWaiting(c: Config, s: State)
    requires Inv(c, s) && s.closer == Waiting
    ensures s.closed
  {
  }

  lemma InitialInv(c: Config)
    ensures Inv(c, Initial)
  {
  }

  lemma {:induction false} RunKeepsInv(c: Config, s: State, events: seq<Event>)
    requires Inv(c, s)
    ensures Inv(c, Run(c, s, events))
    decreases |events|
  {
    if events != [] {
      StepKeepsInv(c, s, events[0]);
      RunKeepsInv(c, Step(c, s, events[0]), events[1..]);
    }
  }
}
