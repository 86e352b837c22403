/** What holds over whole runs of the output batcher. */
module BatcherTheorems {
  import opened Prelude
  import opened BatcherModel
  import Utf8

  /** Conservation, over every interleaving from the start. */
  lemma BytesAreConserved(c: Config, events: seq<Event>)
    ensures var s := Run(c, Initial, events);
            && (!s.discarded ==>
                  Flatten(s.delivered) + Flatten(InFlight(s.worker)) + Flatten(s.queue) + s.pending == s.accepted)
            && (s.discarded ==> Flatten(s.delivered) + Flatten(InFlight(s.worker)) <= s.accepted)
            && |s.queue| <= c.maxBatches
            && (forall b :: b in s.queue ==> |b| <= c.Cap())
  {
    InitialInv(c);
    RunKeepsInv(c, Initial, events);
    var s := Run(c, Initial, events);
    FlattenConcat(s.delivered, InFlight(s.worker));
    FlattenConcat(s.delivered + InFlight(s.worker), s.queue);
  }

  // ---------------------------------------------------------------- after the worker is gone

  lemma {:induction false} NothingIsDeliveredAfterExit(c: Config, s: State, events: seq<Event>)
    requires Inv(c, s) && s.worker == Exited
    ensures var t := Run(c, s, events); t.worker == Exited && t.delivered == s.delivered
    decreases |events|
  {
    if events != [] {
      StepAfterExit(c, s, events[0]);
      StepKeepsInv(c, s, events[0]);
      NothingIsDeliveredAfterExit(c, Step(c, s, events[0]), events[1..]);
    }
  }

  /** What every step that is not the worker's leaves alone. */
  ghost predicate WorkerUntouched(s: State, t: State) {
    && t.worker == s.worker
    && t.delivered == s.delivered
    && (s.closed ==> t.accepted == s.accepted && t.closed)
    && (s.discarded ==> t.discarded)
  }

  lemma AddLeavesTheWorker(c: Config, s: State, data: Bytes)
    ensures WorkerUntouched(s, AddStep(c, s, data))
  {
    hide Flush;
    if !(s.closed || s.discarded || data == []) {
      FlushMoves(c, s.(pending := s.pending + data, accepted := s.accepted + data));
    }
  }

  lemma AddResumeLeavesTheWorker(c: Config, s: State)
    requires s.addsWaiting > 0
    ensures WorkerUntouched(s, AddResumeStep(c, s))
  {
    hide Flush;
    if !s.closed && !s.discarded {
      var t := s.(addsWaiting := s.addsWaiting - 1);
      FlushMoves(c, Enqueue(t, Utf8.TakeBatch(t.pending, c.Cap(), false)));
    }
  }

  lemma TimerLeavesTheWorker(c: Config, s: State, t: State)
    requires t == s.(timerSet := t.timerSet, timersWaiting := t.timersWaiting)
    ensures WorkerUntouched(s, if s.closed || s.discarded then t else AfterTimer(TimerLoop(c, t)))
  {
    hide TimerLoop;
    if !s.closed && !s.discarded {
      TimerMoves(c, t);
    }
  }

  lemma CloseLeavesTheWorker(c: Config, s: State, t: State)
    requires t == s.(closed := true, timerSet := t.timerSet)
    ensures WorkerUntouched(s, AfterClose(CloseLoop(c, t)))
  {
    hide CloseLoop;
    CloseMoves(c, t);
  }

  lemma OnlyTheWorkerDelivers(c: Config, s: State, e: Event)
    requires e !in {WorkerTakes, WorkerDelivers, WorkerExits}
    requires e == CloseResumes && Enabled(s, e) ==> s.closed
    ensures WorkerUntouched(s, Step(c, s, e))
  {
    hide AddStep, AddResumeStep, TimerLoop, CloseLoop, AfterTimer, AfterClose;
    match e
    case Add(data) => AddLeavesTheWorker(c, s, data);
    case AddResumes => if Enabled(s, e) { AddResumeLeavesTheWorker(c, s); }
    case TimerFires => TimerLeavesTheWorker(c, s, s.(timerSet := false));
    case TimerResumes =>
      if Enabled(s, e) { TimerLeavesTheWorker(c, s, s.(timersWaiting := s.timersWaiting - 1)); }
    case Close => CloseLeavesTheWorker(c, s, s.(closed := true, timerSet := false));
    case CloseResumes => if Enabled(s, e) { CloseLeavesTheWorker(c, s, s); }
    case Discard =>
  }

  lemma StepAfterExit(c: Config, s: State, e: Event)
    requires Inv(c, s) && s.worker == Exited
    ensures var t := Step(c, s, e); t.worker == Exited && t.delivered == s.delivered
  {
    if e !in {WorkerTakes, WorkerDelivers, WorkerExits} {
      OnlyTheWorkerDelivers(c, s, e);
    }
  }

  /** After Discard at most the batch already handed to the sink is still delivered; then nothing. */
  lemma {:induction false} DiscardStopsTheOutput(c: Config, s: State, events: seq<Event>)
    requires Inv(c, s) && s.discarded
    ensures var t := Run(c, s, events);
            && t.discarded
            && t.delivered + InFlight(t.worker) == s.delivered + InFlight(s.worker)
    decreases |events|
  {
    if events != [] {
      var e := events[0];
      if e !in {WorkerTakes, WorkerDelivers, WorkerExits} {
        OnlyTheWorkerDelivers(c, s, e);
      }
      StepKeepsInv(c, s, e);
      DiscardStopsTheOutput(c, Step(c, s, e), events[1..]);
    }
  }

  lemma {:induction false} NoMoreIsAccepted(c: Config, s: State, events: seq<Event>)
    requires Inv(c, s) && s.closed
    ensures var t := Run(c, s, events); t.closed && t.accepted == s.accepted
    decreases |events|
  {
    if events != [] {
      var e := events[0];
      if e !in {WorkerTakes, WorkerDelivers, WorkerExits} {
        OnlyTheWorkerDelivers(c, s, e);
      }
      StepKeepsInv(c, s, e);
      NoMoreIsAccepted(c, Step(c, s, e), events[1..]);
    }
  }

  // ---------------------------------------------------------------- when Close delivers everything

  /** The number of batches Close needs for what is pending. */
  function BatchesNeeded(c: Config, pending: Bytes): nat
    decreases |pending|
  {
    if pending == [] then 0 else 1 + BatchesNeeded(c, Utf8.TakeBatch(pending, c.Cap(), true).rest)
  }

  lemma {:induction false} CloseBlocksWhenShortOfSlots(c: Config, s: State)
    requires !s.discarded && |s.queue| <= c.maxBatches
    ensures CloseLoop(c, s).Blocked? <==> |s.queue| + BatchesNeeded(c, s.pending) > c.maxBatches
    ensures CloseLoop(c, s).Blocked? ==> CloseLoop(c, s).state.pending != []
    decreases |s.pending|
  {
    if s.pending != [] && |s.queue| < c.maxBatches {
      CloseBlocksWhenShortOfSlots(c, Enqueue(s, Utf8.TakeBatch(s.pending, c.Cap(), true)));
    }
  }

  /** A Close that never had to wait: once the worker is gone, everything accepted was delivered. */
  lemma WithoutWaitingAllIsDelivered(c: Config, s: State)
    requires Inv(c, s)
    requires s.worker == Exited && !s.discarded && !s.closeWaited
    ensures Flatten(s.delivered) == s.accepted
  {
    assert Batches(s) == s.delivered;
  }

  /** A Close that did not wait at once never waits, and no one discards behind its back. */
  lemma {:induction false} NotWaitingStaysSo(c: Config, s: State, events: seq<Event>)
    requires Inv(c, s)
    requires s.closed && !s.discarded && !s.closeWaited
    requires Discard !in events
    ensures var t := Run(c, s, events); Inv(c, t) && t.closed && !t.discarded && !t.closeWaited
    decreases |events|
  {
    if events != [] {
      var e := events[0];
      assert e != Discard && Discard !in events[1..];
      StepKeepsInv(c, s, e);
      NotWaitingStep(c, s, e);
      NotWaitingStaysSo(c, Step(c, s, e), events[1..]);
    }
  }

  lemma NotWaitingStep(c: Config, s: State, e: Event)
    requires Inv(c, s)
    requires s.closed && !s.discarded && !s.closeWaited && e != Discard
    ensures var t := Step(c, s, e); t.closed && !t.discarded && !t.closeWaited
  {
  }

  /** The steps by which the worker empties the queue and goes, faster than Close can resume. */
  function DrainSteps(s: State): seq<Event>
    requires s.worker != Exited && s.closed && !s.discarded
    decreases |s.queue|, if s.worker.Delivering? then 1 else 0
  {
    if s.worker.Delivering? then
      [WorkerDelivers] + DrainSteps(s.(worker := Idle, delivered := s.delivered + [s.worker.chunk]))
    else if s.queue != [] then
      [WorkerTakes, WorkerDelivers]
      + DrainSteps(s.(queue := s.queue[1..], delivered := s.delivered + [s.queue[0]]))
    else [WorkerExits]
  }

  lemma RunTwo(c: Config, s: State, e: Event, f: Event, rest: seq<Event>)
    ensures Run(c, s, [e] + rest) == Run(c, Step(c, s, e), rest)
    ensures Run(c, s, [e, f] + rest) == Run(c, Step(c, Step(c, s, e), f), rest)
  {
    assert ([e] + rest)[1..] == rest;
    assert ([e, f] + rest)[1..] == [f] + rest;
    assert ([f] + rest)[1..] == rest;
  }

  lemma {:induction false} DrainStepsDrain(c: Config, s: State)
    requires s.worker != Exited && s.closed && !s.discarded
    ensures var t := Run(c, s, DrainSteps(s));
            t.worker == Exited && t.pending == s.pending && !t.discarded && t.queue == []
    ensures Discard !in DrainSteps(s)
    decreases |s.queue|, if s.worker.Delivering? then 1 else 0
  {
    if s.worker.Delivering? {
      var t := s.(worker := Idle, delivered := s.delivered + [s.worker.chunk]);
      assert Step(c, s, WorkerDelivers) == t;
      RunTwo(c, s, WorkerDelivers, WorkerDelivers, DrainSteps(t));
      DrainStepsDrain(c, t);
    } else if s.queue != [] {
      var t := s.(queue := s.queue[1..], delivered := s.delivered + [s.queue[0]]);
      var u := Step(c, s, WorkerTakes);
      assert Step(c, u, WorkerDelivers) == t;
      RunTwo(c, s, WorkerTakes, WorkerDelivers, DrainSteps(t));
      DrainStepsDrain(c, t);
    } else {
      assert Run(c, s, [WorkerExits]) == Run(c, Step(c, s, WorkerExits), []);
    }
  }

  /** In every continuation without a Discard, the worker leaves only after delivering everything accepted. */
  ghost predicate AlwaysDelivers(c: Config, s: State) {
    forall events: seq<Event> :: Discard !in events && Run(c, s, events).worker == Exited ==>
      Flatten(Run(c, s, events).delivered) == Run(c, s, events).accepted
  }

  lemma WithRoomCloseDelivers(c: Config, s: State)
    requires Inv(c, s) && !s.closed
    requires |s.queue| + BatchesNeeded(c, s.pending) <= c.maxBatches
    ensures AlwaysDelivers(c, Step(c, s, Close))
  {
    hide CloseLoop, BatchesNeeded, Run;
    var t := Step(c, s, Close);
    StepKeepsInv(c, s, Close);
    CloseBlocksWhenShortOfSlots(c, s.(closed := true, timerSet := false));
    CloseMoves(c, s.(closed := true, timerSet := false));
    forall events: seq<Event> | Discard !in events && Run(c, t, events).worker == Exited
      ensures Flatten(Run(c, t, events).delivered) == Run(c, t, events).accepted
    {
      NotWaitingStaysSo(c, t, events);
      WithoutWaitingAllIsDelivered(c, Run(c, t, events));
    }
  }

  /** Short of slots there is an interleaving in which the worker leaves bytes behind. */
  lemma WithoutRoomTheWorkerMayLeave(c: Config, s: State) returns (events: seq<Event>)
    requires Inv(c, s) && !s.closed
    requires |s.queue| + BatchesNeeded(c, s.pending) > c.maxBatches
    ensures Discard !in events
    ensures var t := Run(c, Step(c, s, Close), events);
            Inv(c, t) && t.worker == Exited && !t.discarded && t.pending != []
  {
    hide CloseLoop, BatchesNeeded, Run;
    var t := Step(c, s, Close);
    StepKeepsInv(c, s, Close);
    CloseBlocksWhenShortOfSlots(c, s.(closed := true, timerSet := false));
    CloseMoves(c, s.(closed := true, timerSet := false));
    events := DrainSteps(t);
    DrainStepsDrain(c, t);
    RunKeepsInv(c, t, events);
  }

  lemma PendingIsUndelivered(c: Config, s: State)
    requires Inv(c, s) && !s.discarded && s.pending != []
    ensures Flatten(s.delivered) != s.accepted
  {
    hide TeardownOrdered, Attended, Bounded;
    var rest := InFlight(s.worker) + s.queue;
    FlattenConcat(s.delivered, rest);
    assert Batches(s) == s.delivered + rest;
    assert |Flatten(s.delivered) + Flatten(rest) + s.pending| > |Flatten(s.delivered)|;
  }

  /**
   Close is documented to deliver all pending bytes before it returns. It does
   so in every interleaving exactly when, at the call, the queue has room for
   all of them; otherwise the worker can leave while Close waits for a slot.
   */
  lemma CloseDeliversExactlyWhenTheQueueHasRoom(c: Config, s: State)
    requires Inv(c, s) && !s.closed
    ensures AlwaysDelivers(c, Step(c, s, Close)) <==> |s.queue| + BatchesNeeded(c, s.pending) <= c.maxBatches
  {
    hide Step, Run, BatchesNeeded, Inv;
    if |s.queue| + BatchesNeeded(c, s.pending) <= c.maxBatches {
      WithRoomCloseDelivers(c, s);
    } else {
      var events := WithoutRoomTheWorkerMayLeave(c, s);
      PendingIsUndelivered(c, Run(c, Step(c, s, Close), events));
    }
  }

  // ---------------------------------------------------------------- a run that loses bytes

  function Letters(n: nat): (data: Bytes)
    ensures |data| == n
  {
    if n == 0 then [] else [65] + Letters(n - 1)
  }

  lemma {:induction false} LettersAreValid(n: nat)
    ensures Utf8.Valid(Letters(n))
  {
    if n > 0 {
      LettersAreValid(n - 1);
      assert Letters(n)[1..] == Letters(n - 1);
    }
  }

  /** As many bytes as so many batches and one more trigger can hold. */
  function Flood(c: Config, slots: nat): (n: nat)
    ensures n >= c.threshold + MAX_FLUSH
  {
    if slots == 0 then c.threshold + MAX_FLUSH else Flood(c, slots - 1) + c.Cap()
  }

  lemma FlushEnqueues(c: Config, s: State)
    requires !s.closed && !s.discarded && |s.pending| >= c.Threshold(|s.queue|)
    ensures |s.queue| >= c.maxBatches ==> Flush(c, s) == Blocked(s)
    ensures var b := Utf8.TakeBatch(s.pending, c.Cap(), false);
            |s.queue| < c.maxBatches && b.out != [] ==> Flush(c, s) == Flush(c, Enqueue(s, b))
  {
  }

  lemma TriggerIsBounded(c: Config, q: nat)
    ensures c.Threshold(q) <= c.threshold + MAX_FLUSH
  {
  }

  /** More than a full queue and one trigger hold: the flush fills the queue and waits with bytes pending. */
  lemma {:induction false} TooMuchBlocks(c: Config, s: State, slots: nat)
    requires c.Cap() > 3 && !s.closed && !s.discarded && Utf8.ValidPrefix(s.pending)
    requires |s.queue| + slots == c.maxBatches && |s.pending| >= Flood(c, slots)
    ensures Flush(c, s).Blocked?
    ensures Flush(c, s).state.pending != [] && |Flush(c, s).state.queue| == c.maxBatches
    decreases slots
  {
    hide Utf8.TakeBatch, Utf8.ValidPrefix, Flush;
    TriggerIsBounded(c, |s.queue|);
    FlushEnqueues(c, s);
    if slots > 0 {
      var b := Utf8.TakeBatch(s.pending, c.Cap(), false);
      Utf8.TakeKeepsRunesWhole(s.pending, c.Cap());
      assert |s.pending| == |b.out| + |b.rest|;
      TooMuchBlocks(c, Enqueue(s, b), slots - 1);
    }
  }

  lemma AddFloods(c: Config, data: Bytes)
    requires data != []
    ensures Step(c, Initial, Add(data)) == AfterFlush(Flush(c, Initial.(pending := data, accepted := data)))
  {
    hide Flush;
    assert [] + data == data;
  }

  /** A single Add, from the start, after which the queue is short of room. */
  lemma OneAddFillsTheQueue(c: Config) returns (data: Bytes)
    requires c.Cap() > 3
    ensures var s := Step(c, Initial, Add(data));
            Inv(c, s) && !s.closed && |s.queue| + BatchesNeeded(c, s.pending) > c.maxBatches
  {
    hide Flush, Letters, Utf8.ValidPrefix, Utf8.Valid, Inv, Step, Flood;
    data := Letters(Flood(c, c.maxBatches));
    LettersAreValid(|data|);
    Utf8.ValidIsValidPrefix(data);
    var start := Initial.(pending := data, accepted := data);
    TooMuchBlocks(c, start, c.maxBatches);
    AddFloods(c, data);
    FlushMoves(c, start);
    InitialInv(c);
    StepKeepsInv(c, Initial, Add(data));
    SomethingNeedsABatch(c, Flush(c, start).state.pending);
  }

  lemma SomethingNeedsABatch(c: Config, pending: Bytes)
    requires pending != []
    ensures BatchesNeeded(c, pending) > 0
  {
  }

  /** Whatever the configuration, a run from the start can lose bytes: Close waits, and the worker leaves. */
  lemma CloseCanLoseBytes(c: Config) returns (events: seq<Event>)
    requires c.Cap() > 3
    ensures Close in events && Discard !in events
    ensures var t := Run(c, Initial, events);
            t.worker == Exited && !t.discarded && t.pending != [] && Flatten(t.delivered) != t.accepted
  {
    var data := OneAddFillsTheQueue(c);
    hide Run, Step, Inv, BatchesNeeded;
    var rest := WithoutRoomTheWorkerMayLeave(c, Step(c, Initial, Add(data)));
    events := [Add(data), Close] + rest;
    RunTwo(c, Initial, Add(data), Close, rest);
    assert events[1] == Close;
    PendingIsUndelivered(c, Run(c, Initial, events));
  }

  /** Bytes the worker left behind are never delivered, whatever happens next. */
  lemma LeftBehindIsLost(c: Config, s: State, events: seq<Event>)
    requires Inv(c, s) && s.worker == Exited && !s.discarded && s.pending != []
    ensures Flatten(Run(c, s, events).delivered) != Run(c, s, events).accepted
  {
    NothingIsDeliveredAfterExit(c, s, events);
    NoMoreIsAccepted(c, s, events);
    PendingIsUndelivered(c, s);
  }

  // ---------------------------------------------------------------- whole runes

  /**
   While the stream accepted so far can be completed to valid UTF-8 every batch
   is whole runes; once Close cut the rest, this holds for a stream that is valid as it ended.
   */
  ghost predicate WholeRunes(s: State) {
    (if s.closer == NotClosing then Utf8.ValidPrefix(s.accepted) else Utf8.Valid(s.accepted)) ==>
      forall b :: b in Batches(s) ==> Utf8.Valid(b)
  }

  ghost predicate AllValid(parts: seq<Bytes>) {
    forall b :: b in parts ==> Utf8.Valid(b)
  }

  lemma PendingOfWholeRunes(c: Config, s: State)
    requires Conserved(s) && !s.discarded && AllValid(Batches(s))
    ensures Utf8.ValidPrefix(s.accepted) ==> Utf8.ValidPrefix(s.pending)
    ensures Utf8.Valid(s.accepted) ==> Utf8.Valid(s.pending)
  {
    Utf8.ValidFlatten(Batches(s));
    if Utf8.ValidPrefix(s.accepted) {
      Utf8.ValidPrefixRest(Flatten(Batches(s)), s.pending);
    }
    Utf8.ValidAppend(Flatten(Batches(s)), s.pending);
  }

  lemma {:induction false} FlushCutsWholeRunes(c: Config, s: State)
    requires !s.closed && !s.discarded && Utf8.ValidPrefix(s.pending) && AllValid(s.queue)
    ensures AllValid(Flush(c, s).state.queue)
    decreases |s.pending|
  {
    var b := Utf8.TakeBatch(s.pending, c.Cap(), false);
    Utf8.TakeKeepsRunesWhole(s.pending, c.Cap());
    if |s.pending| >= c.Threshold(|s.queue|) && |s.queue| < c.maxBatches && b.out != [] {
      FlushCutsWholeRunes(c, Enqueue(s, b));
    }
  }

  lemma {:induction false} TimerCutsWholeRunes(c: Config, s: State)
    requires !s.closed && !s.discarded && Utf8.ValidPrefix(s.pending) && AllValid(s.queue)
    ensures AllValid(TimerLoop(c, s).state.queue)
    decreases |s.pending|
  {
    var b := Utf8.TakeBatch(s.pending, c.Cap(), false);
    Utf8.TakeKeepsRunesWhole(s.pending, c.Cap());
    if |s.queue| < c.maxBatches && b.out != [] {
      TimerCutsWholeRunes(c, Enqueue(s, b));
    }
  }

  lemma {:induction false} CloseCutsWholeRunes(c: Config, s: State)
    requires c.Cap() >= 4 && Utf8.Valid(s.pending) && AllValid(s.queue)
    ensures AllValid(CloseLoop(c, s).state.queue)
    decreases |s.pending|
  {
    if s.pending != [] && !s.discarded && |s.queue| < c.maxBatches {
      Utf8.FinalTakeKeepsRunesWhole(s.pending, c.Cap());
      CloseCutsWholeRunes(c, Enqueue(s, Utf8.TakeBatch(s.pending, c.Cap(), true)));
    }
  }

  /** A step that only moves pending bytes into new valid batches keeps all batches valid. */
  lemma MovedBatchesValid(c: Config, s: State, t: State)
    requires Moved(c, s, t) && AllValid(Batches(s)) && AllValid(t.queue)
    ensures AllValid(Batches(t))
  {
    forall b | b in Batches(t) ensures Utf8.Valid(b) {
      assert b in s.delivered + InFlight(s.worker) || b in t.queue;
      assert b in s.delivered + InFlight(s.worker) ==> b in Batches(s);
    }
  }

  lemma AddKeepsRunesWhole(c: Config, s: State, data: Bytes)
    requires Inv(c, s) && WholeRunes(s)
    ensures WholeRunes(AddStep(c, s, data))
  {
    var t := s.(pending := s.pending + data, accepted := s.accepted + data);
    if !(s.closed || s.discarded || data == []) && Utf8.ValidPrefix(t.accepted) {
      Utf8.ValidPrefixShorter(s.accepted, data);
      AcceptingConserves(c, s, data);
      assert Batches(t) == Batches(s);
      PendingOfWholeRunes(c, t);
      QueueOfBatches(t);
      FlushCutsWholeRunes(c, t);
      FlushMoves(c, t);
      MovedBatchesValid(c, t, Flush(c, t).state);
      assert Batches(AfterFlush(Flush(c, t))) == Batches(Flush(c, t).state);
    } else if !(s.closed || s.discarded || data == []) {
      FlushMoves(c, t);
    }
  }

  lemma QueueOfBatches(s: State)
    requires AllValid(Batches(s))
    ensures AllValid(s.queue)
  {
    assert forall b :: b in s.queue ==> b in Batches(s);
  }

  lemma AddResumeKeepsRunesWhole(c: Config, s: State)
    requires Inv(c, s) && WholeRunes(s) && s.addsWaiting > 0
    ensures WholeRunes(AddResumeStep(c, s))
  {
    var t := s.(addsWaiting := s.addsWaiting - 1);
    assert Batches(t) == Batches(s);
    if !s.closed && |s.queue| < c.maxBatches {
      var b := Utf8.TakeBatch(t.pending, c.Cap(), false);
      if b.out != [] {
        var u := Enqueue(t, b);
        FlushMoves(c, u);
        if Utf8.ValidPrefix(s.accepted) {
          PendingOfWholeRunes(c, s);
          QueueOfBatches(s);
          Utf8.TakeKeepsRunesWhole(t.pending, c.Cap());
          FlushCutsWholeRunes(c, u);
          MovedOnce(c, t, false, Flush(c, u).state);
          MovedBatchesValid(c, t, Flush(c, u).state);
          assert Batches(AfterFlush(Flush(c, u))) == Batches(Flush(c, u).state);
        }
      }
    }
  }

  lemma TimerKeepsRunesWhole(c: Config, s: State, t: State)
    requires Inv(c, s) && WholeRunes(s)
    requires t == s.(timerSet := t.timerSet, timersWaiting := t.timersWaiting)
    ensures WholeRunes(if s.closed || s.discarded then t else AfterTimer(TimerLoop(c, t)))
  {
    assert Batches(t) == Batches(s);
    if !s.closed {
      TimerMoves(c, t);
      if Utf8.ValidPrefix(s.accepted) {
        PendingOfWholeRunes(c, s);
        QueueOfBatches(s);
        TimerCutsWholeRunes(c, t);
        MovedBatchesValid(c, t, TimerLoop(c, t).state);
        assert Batches(AfterTimer(TimerLoop(c, t))) == Batches(TimerLoop(c, t).state);
      }
    }
  }

  lemma CloseKeepsRunesWhole(c: Config, s: State, t: State)
    requires c.Cap() >= 4 && Inv(c, s) && WholeRunes(s)
    requires t == s.(closed := true, timerSet := t.timerSet)
    requires s.closed ==> t == s
    ensures WholeRunes(AfterClose(CloseLoop(c, t)))
  {
    assert Batches(t) == Batches(s);
    CloseMoves(c, t);
    if Utf8.Valid(s.accepted) {
      Utf8.ValidIsValidPrefix(s.accepted);
      if !s.discarded {
        PendingOfWholeRunes(c, s);
        QueueOfBatches(s);
        CloseCutsWholeRunes(c, t);
        MovedBatchesValid(c, t, CloseLoop(c, t).state);
      }
    }
    assert Batches(AfterClose(CloseLoop(c, t))) == Batches(CloseLoop(c, t).state);
  }

  lemma WorkerKeepsRunesWhole(c: Config, s: State, e: Event)
    requires Inv(c, s) && WholeRunes(s) && e in {WorkerTakes, WorkerDelivers, WorkerExits, Discard}
    ensures WholeRunes(Step(c, s, e))
  {
    var t := Step(c, s, e);
    assert forall b :: b in Batches(t) ==> b in Batches(s);
    if Utf8.Valid(s.accepted) {
      Utf8.ValidIsValidPrefix(s.accepted);
    }
  }

  lemma StepKeepsRunesWhole(c: Config, s: State, e: Event)
    requires c.Cap() >= 4 && Inv(c, s) && WholeRunes(s)
    ensures WholeRunes(Step(c, s, e))
  {
    hide WholeRunes, AddStep, AddResumeStep, TimerLoop, CloseLoop, AfterTimer, AfterClose;
    match e
    case Add(data) => AddKeepsRunesWhole(c, s, data);
    case AddResumes => if Enabled(s, e) { AddResumeKeepsRunesWhole(c, s); }
    case TimerFires => TimerKeepsRunesWhole(c, s, s.(timerSet := false));
    case TimerResumes =>
      if Enabled(s, e) { TimerKeepsRunesWhole(c, s, s.(timersWaiting := s.timersWaiting - 1)); }
    case Close => if !s.closed { CloseKeepsRunesWhole(c, s, s.(closed := true, timerSet := false)); }
    case CloseResumes => if Enabled(s, e) { CloseKeepsRunesWhole(c, s, s); }
    case Discard => WorkerKeepsRunesWhole(c, s, e);
    case WorkerTakes => WorkerKeepsRunesWhole(c, s, e);
    case WorkerDelivers => WorkerKeepsRunesWhole(c, s, e);
    case WorkerExits => WorkerKeepsRunesWhole(c, s, e);
  }

  lemma {:induction false} RunKeepsRunesWhole(c: Config, s: State, events: seq<Event>)
    requires c.Cap() >= 4 && Inv(c, s) && WholeRunes(s)
    ensures WholeRunes(Run(c, s, events))
    decreases |events|
  {
    if events != [] {
      StepKeepsInv(c, s, events[0]);
      StepKeepsRunesWhole(c, s, events[0]);
      RunKeepsRunesWhole(c, Step(c, s, events[0]), events[1..]);
    }
  }

  /** What the sink receives: each batch repaired on its own. */
  function Emitted(batches: seq<Bytes>): Bytes {
    if batches == [] then [] else Utf8.Repaired(batches[0], false) + Emitted(batches[1..])
  }

  lemma {:induction false} EmittedAppend(batches: seq<Bytes>, last: Bytes)
    ensures Emitted(batches + [last]) == Emitted(batches) + Utf8.Repaired(last, false)
  {
    if batches == [] {
      assert [last][1..] == [];
      assert Emitted([last]) == Utf8.Repaired(last, false) + Emitted([]);
    } else {
      assert (batches + [last])[1..] == batches[1..] + [last];
      EmittedAppend(batches[1..], last);
    }
  }

  lemma {:induction false} EmittedValidBatches(batches: seq<Bytes>)
    requires AllValid(batches)
    ensures Emitted(batches) == Flatten(batches)
  {
    if batches != [] {
      assert batches[0] in batches;
      Utf8.RepairOfValid(batches[0], false);
      EmittedValidBatches(batches[1..]);
    }
  }

  lemma DeliveredIsABeginning(c: Config, s: State)
    requires Inv(c, s)
    ensures Flatten(s.delivered) <= s.accepted
  {
    FlattenConcat(s.delivered, InFlight(s.worker));
    FlattenConcat(s.delivered + InFlight(s.worker), s.queue);
  }

  /**
   However a valid stream is cut into Adds, and whatever the interleaving, the
   sink receives a beginning of exactly that stream, and all of it once a
   Close that never waited has let the worker go.
   */
  lemma ValidStreamIsEmittedUnchanged(c: Config, events: seq<Event>)
    requires c.Cap() >= 4
    requires Utf8.Valid(Run(c, Initial, events).accepted)
    ensures var s := Run(c, Initial, events);
            && Emitted(s.delivered) == Flatten(s.delivered)
            && Flatten(s.delivered) <= s.accepted
            && (s.worker == Exited && !s.discarded && !s.closeWaited ==> Emitted(s.delivered) == s.accepted)
  {
    var s := Run(c, Initial, events);
    InitialInv(c);
    RunKeepsInv(c, Initial, events);
    assert WholeRunes(Initial);
    RunKeepsRunesWhole(c, Initial, events);
    hide Inv, Run, TeardownOrdered, Conserved;
    Utf8.ValidIsValidPrefix(s.accepted);
    assert forall b :: b in s.delivered ==> b in Batches(s);
    EmittedValidBatches(s.delivered);
    DeliveredIsABeginning(c, s);
    if s.worker == Exited && !s.discarded && !s.closeWaited {
      WithoutWaitingAllIsDelivered(c, s);
    }
  }

  /** On a valid stream an Add that did not have to wait leaves less than the trigger pending. */
  lemma {:induction false} FlushEndsBelowTheTrigger(c: Config, s: State)
    requires c.threshold > 3 && c.Cap() > 3
    requires !s.closed && !s.discarded && Utf8.ValidPrefix(s.pending)
    ensures var p := Flush(c, s); p.Through? ==> |p.state.pending| < c.Threshold(|p.state.queue|)
    decreases |s.pending|
  {
    var b := Utf8.TakeBatch(s.pending, c.Cap(), false);
    Utf8.TakeKeepsRunesWhole(s.pending, c.Cap());
    if |s.pending| >= c.Threshold(|s.queue|) && |s.queue| < c.maxBatches {
      FlushEndsBelowTheTrigger(c, Enqueue(s, b));
    }
  }
}
