/**
 What one critical section of the batcher does, said of the state before and
 after it: when it waits, what it leaves pending, what it queues and accepts.
 */
module BatcherLaws {
  import opened Prelude
  import opened BatcherModel
  import Utf8

  predicate Open(s: State) {
    !s.closed && !s.discarded
  }

  lemma DiscardedIsClosed(c: Config, s: State)
    requires Inv(c, s)
    ensures s.discarded ==> s.closed && s.pending == [] && s.queue == []
    ensures s.closer == Waiting ==> s.closed
  {
  }

  /** A take that may not split a rune finds nothing to take. */
  predicate Stuck(c: Config, pending: Bytes) {
    Utf8.TakeBatch(pending, c.Cap(), false).out == []
  }

  /** In a valid stream that means no whole rune within the cap. */
  lemma StuckMeansUnfinished(c: Config, pending: Bytes)
    requires Utf8.ValidPrefix(pending) && Stuck(c, pending)
    ensures forall k: nat :: 0 < k <= |pending| && k <= c.Cap() ==> !Utf8.Valid(pending[..k])
  {
    Utf8.TakeIsLongest(pending, c.Cap());
  }

  /** A complete stream within the cap is taken whole. */
  lemma WholeIsTaken(c: Config, pending: Bytes)
    requires Utf8.Valid(pending) && |pending| <= c.Cap()
    ensures Utf8.TakeBatch(pending, c.Cap(), false) == Utf8.Batch(pending, [])
  {
    hide Utf8.TakeBatch;
    Utf8.ValidIsValidPrefix(pending);
    Utf8.TakeIsLongest(pending, c.Cap());
    var b := Utf8.TakeBatch(pending, c.Cap(), false);
    assert pending[..|pending|] == pending;
    assert |b.out| == |pending|;
    assert b.rest == [];
  }

  // ---------------------------------------------------------------- the trigger

  /**
   The trigger rises with the queue: the plain threshold below depth eight,
   twice it, or the cap if that is less, at the last free slot. A batch may be
   as large as configured, up to 96 KiB.
   */
  lemma TriggerRises(c: Config, p: nat, q: nat)
    requires p <= q
    ensures c.Cap() == if 0 < c.maxBatch <= 98304 then c.maxBatch else 98304
    ensures c.Threshold(p) <= c.Threshold(q)
    ensures !c.adaptive || p < 8 ==> c.Threshold(p) == c.threshold
    ensures c.adaptive && c.maxBatches > 8 ==>
              var limit := if 0 < c.thresholdCap <= 98304 then c.thresholdCap else 98304;
              c.Threshold(c.maxBatches - 1) == if 2 * c.threshold <= limit then 2 * c.threshold
                                               else if limit <= c.threshold then c.threshold else limit
  {
    var span := if c.maxBatches - 8 < 1 then 1 else c.maxBatches - 8;
    if 8 <= p {
      GrowsWith(c.threshold, p - 7, q - 7, span);
    }
    if c.maxBatches > 8 {
      assert c.maxBatches - 1 - 8 + 1 == span;
      WholeShare(c.threshold, span);
    }
  }

  lemma GrowsWith(threshold: nat, a: nat, b: nat, span: nat)
    requires a <= b && span > 0
    ensures threshold * a / span <= threshold * b / span
  {
    assert threshold * a <= threshold * b;
    DivGrows(threshold * a, threshold * b, span);
  }

  lemma DivGrows(x: nat, y: nat, span: nat)
    requires x <= y && span > 0
    ensures x / span <= y / span
  {
    var p, q := x / span, y / span;
    assert x == p * span + x % span && y == q * span + y % span;
    TimesGrows(q, p, span);
  }

  lemma WholeShare(threshold: nat, span: nat)
    requires span > 0
    ensures threshold * span / span == threshold
  {
    var x, q := threshold * span, threshold * span / span;
    assert x == q * span + x % span;
    TimesGrows(q, threshold, span);
  }

  lemma TimesGrows(q: int, t: int, span: nat)
    ensures q < t ==> q * span + span <= t * span
    ensures q > t ==> q * span >= t * span + span
  {
    if q < t {
      assert (q + 1) * span <= t * span;
    } else if q > t {
      assert (t + 1) * span <= q * span;
    }
  }

  // ---------------------------------------------------------------- the loops

  /** What the end of a timer callback leaves: nothing, an unfinished rune, or little behind a batch it queued. */
  ghost predicate TimerRests(c: Config, s: State, t: State) {
    || t.pending == []
    || Stuck(c, t.pending)
    || (|t.queue| > |s.queue| && |t.pending| < c.Cap() && |t.pending| < c.Threshold(|t.queue|))
  }

  /** Bytes that may be taken are: the first batch is what a take gives. */
  ghost predicate Takes(c: Config, s: State, t: State) {
    !Stuck(c, s.pending) && |s.queue| < c.maxBatches ==>
      s.queue + [Utf8.TakeBatch(s.pending, c.Cap(), false).out] <= t.queue
  }

  lemma {:induction false} TimerEnds(c: Config, s: State)
    requires Open(s)
    ensures var p := TimerLoop(c, s);
      && Takes(c, s, p.state) && s.queue <= p.state.queue
      && if p.Blocked? then |p.state.queue| >= c.maxBatches else TimerRests(c, s, p.state)
    decreases |s.pending|
  {
    hide Utf8.TakeBatch;
    var b := Utf8.TakeBatch(s.pending, c.Cap(), false);
    if |s.queue| < c.maxBatches && b.out != [] {
      var t := Enqueue(s, b);
      if !(t.pending == [] || (|t.pending| < c.Cap() && |t.pending| < c.Threshold(|t.queue|))) {
        TimerEnds(c, t);
      }
    }
  }

  lemma {:induction false} FlushEnds(c: Config, s: State)
    requires Open(s)
    ensures var p := Flush(c, s);
      && s.queue <= p.state.queue
      && (|s.pending| >= c.Threshold(|s.queue|) ==> Takes(c, s, p.state))
      && (|s.pending| < c.Threshold(|s.queue|) ==> p == Through(s))
      && if p.Blocked? then |p.state.queue| >= c.maxBatches && |p.state.pending| >= c.Threshold(|p.state.queue|)
         else |p.state.pending| < c.Threshold(|p.state.queue|) || Stuck(c, p.state.pending)
    decreases |s.pending|
  {
    hide Utf8.TakeBatch;
    var b := Utf8.TakeBatch(s.pending, c.Cap(), false);
    if |s.pending| >= c.Threshold(|s.queue|) && |s.queue| < c.maxBatches && b.out != [] {
      FlushEnds(c, Enqueue(s, b));
    }
  }

  lemma {:induction false} CloseEnds(c: Config, s: State)
    ensures var p := CloseLoop(c, s);
      if p.Blocked? then |p.state.queue| >= c.maxBatches && p.state.pending != [] && !s.discarded
      else (s.discarded && p.state == s) || p.state.pending == []
    decreases |s.pending|
  {
    hide Utf8.TakeBatch;
    if s.pending != [] && !s.discarded && |s.queue| < c.maxBatches {
      CloseEnds(c, Enqueue(s, Utf8.TakeBatch(s.pending, c.Cap(), true)));
    }
  }

  // ---------------------------------------------------------------- the sections

  /** The timer, fired or woken, waits only for a full queue; otherwise it takes what may be taken. */
  lemma TimerTakes(c: Config, s: State, e: Event)
    requires Open(s) && (e == TimerFires || e == TimerResumes) && Enabled(s, e)
    ensures var t := Step(c, s, e);
      var waits := t.timersWaiting > s.timersWaiting - (if e == TimerResumes then 1 else 0);
      && Takes(c, s, t)
      && t.timersWaiting >= s.timersWaiting - (if e == TimerResumes then 1 else 0)
      && (waits ==> |t.queue| >= c.maxBatches)
      && (!waits ==> TimerRests(c, s, t))
  {
    hide TimerLoop, Utf8.TakeBatch;
    TimerEnds(c, s.(timerSet := false));
    TimerEnds(c, s.(timersWaiting := if s.timersWaiting > 0 then s.timersWaiting - 1 else 0));
    TimerMoves(c, s.(timerSet := false));
    TimerMoves(c, s.(timersWaiting := if s.timersWaiting > 0 then s.timersWaiting - 1 else 0));
  }

  /** Output that is complete, fits a batch and has a slot is queued whole, and the timer is not armed again. */
  lemma ShortOutputIsShown(c: Config, s: State)
    requires Open(s) && Utf8.Valid(s.pending) && 0 < |s.pending| <= c.Cap() && |s.queue| < c.maxBatches
    ensures Step(c, s, TimerFires) == s.(pending := [], queue := s.queue + [s.pending], timerSet := false)
  {
    hide Utf8.TakeBatch, Utf8.Valid;
    WholeIsTaken(c, s.pending);
  }

  /** An Add below the trigger only collects; at it, what may be taken is; it waits only for a full queue. */
  lemma AddTakes(c: Config, s: State, data: Bytes)
    requires Open(s) && data != []
    ensures var t := Step(c, s, Add(data));
      var all := s.pending + data;
      && t.accepted == s.accepted + data
      && (|all| < c.Threshold(|s.queue|) ==> t == s.(pending := all, accepted := s.accepted + data, timerSet := true))
      && (|all| >= c.Threshold(|s.queue|) ==> Takes(c, s.(pending := all), t))
      && (t.addsWaiting > s.addsWaiting ==> |t.queue| >= c.maxBatches && |t.pending| >= c.Threshold(|t.queue|))
      && (t.addsWaiting == s.addsWaiting ==> |t.pending| < c.Threshold(|t.queue|) || Stuck(c, t.pending))
  {
    hide Flush, Utf8.TakeBatch;
    var r := s.(pending := s.pending + data, accepted := s.accepted + data);
    FlushEnds(c, r);
    FlushMoves(c, r);
  }

  /** A woken Add leaves its wait exactly when there is a slot, and takes before it tests the trigger again. */
  lemma AddResumeTakes(c: Config, s: State)
    requires Open(s) && s.addsWaiting > 0
    ensures var t := Step(c, s, AddResumes);
      && (|s.queue| >= c.maxBatches ==> t == s)
      && (|s.queue| < c.maxBatches ==> Takes(c, s, t))
      && (|s.queue| < c.maxBatches && t.addsWaiting >= s.addsWaiting ==>
            |t.queue| >= c.maxBatches && |t.pending| >= c.Threshold(|t.queue|))
      && (t.addsWaiting < s.addsWaiting ==> |t.pending| < c.Threshold(|t.queue|) || Stuck(c, t.pending))
  {
    hide Flush, Utf8.TakeBatch;
    var r := s.(addsWaiting := s.addsWaiting - 1);
    var b := Utf8.TakeBatch(r.pending, c.Cap(), false);
    if |s.queue| < c.maxBatches && b.out != [] {
      FlushEnds(c, Enqueue(r, b));
      FlushMoves(c, Enqueue(r, b));
    }
  }

  /** Close shuts the gate at once, and waits only for a full queue with bytes left. */
  lemma CloseFlushes(c: Config, s: State, e: Event)
    requires (e == Close && !s.closed) || (e == CloseResumes && s.closer == Waiting && s.closed)
    ensures var t := Step(c, s, e);
      && t.closed && (e == Close ==> !t.timerSet)
      && (t.closer == Waiting ==> |t.queue| >= c.maxBatches && t.pending != [] && !s.discarded)
      && (t.closer == Finished ==> (s.discarded && t.pending == s.pending) || t.pending == [])
      && t.closer != NotClosing
  {
    hide CloseLoop;
    CloseEnds(c, s);
    CloseEnds(c, s.(closed := true, timerSet := false));
    CloseMoves(c, s);
    CloseMoves(c, s.(closed := true, timerSet := false));
  }

  // ---------------------------------------------------------------- what is accepted

  /** The bytes given to Add before the first Close or Discard. */
  function Added(events: seq<Event>, open: bool): Bytes {
    if events == [] then []
    else if events[0].Add? then (if open then events[0].data else []) + Added(events[1..], open)
    else Added(events[1..], open && !events[0].Close? && !events[0].Discard?)
  }

  lemma StepAccepts(c: Config, s: State, e: Event)
    requires s.discarded ==> s.closed
    ensures var t := Step(c, s, e);
      && (t.discarded ==> t.closed)
      && t.closed == (s.closed || e.Close? || e.Discard?)
      && t.accepted == if e.Add? && !s.closed then s.accepted + e.data else s.accepted
  {
    hide Flush, TimerLoop, CloseLoop, Utf8.TakeBatch;
    if Enabled(s, e) {
      match e
      case Add(data) =>
        if Open(s) {
          FlushMoves(c, s.(pending := s.pending + data, accepted := s.accepted + data));
        }
      case AddResumes =>
        if Open(s) {
          FlushMoves(c, Enqueue(s.(addsWaiting := s.addsWaiting - 1), Utf8.TakeBatch(s.pending, c.Cap(), false)));
        }
      case TimerFires => if Open(s) { TimerMoves(c, s.(timerSet := false)); }
      case TimerResumes => if Open(s) { TimerMoves(c, s.(timersWaiting := s.timersWaiting - 1)); }
      case Close => CloseMoves(c, s.(closed := true, timerSet := false));
      case CloseResumes => CloseMoves(c, s);
      case _ =>
    }
  }

  lemma {:induction false} RunAccepts(c: Config, s: State, events: seq<Event>)
    requires s.discarded ==> s.closed
    ensures Run(c, s, events).accepted == s.accepted + Added(events, !s.closed)
    decreases |events|
  {
    hide Step;
    if events == [] {
      assert s.accepted + [] == s.accepted;
    } else {
      var e, t := events[0], Step(c, s, events[0]);
      StepAccepts(c, s, e);
      RunAccepts(c, t, events[1..]);
      if e.Add? {
        ConcatAssociative(s.accepted, if s.closed then [] else e.data, Added(events[1..], !s.closed));
        assert s.accepted + [] == s.accepted;
      }
    }
  }

  /** Nothing else is accepted and nothing is refused: the accepted bytes are those added while it was open. */
  lemma AcceptedIsWhatWasAdded(c: Config, events: seq<Event>)
    ensures Run(c, Initial, events).accepted == Added(events, true)
  {
    hide Run;
    RunAccepts(c, Initial, events);
    assert [] + Added(events, true) == Added(events, true);
  }
}
