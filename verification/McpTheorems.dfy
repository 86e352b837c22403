/** What the runtime's invariant means over whole runs, however its sections interleave. */
module McpTheorems {
  import opened Prelude
  import opened McpModel

  /** No phantom session: once its session:closed was handled, an id is never registered again. */
  lemma ClosedSessionStaysGone(cfg: Config, s: State, id: Id, events: seq<Event>)
    requires Inv(cfg, s) && Enabled(s, SessionClosed(id))
    requires Possible(cfg, Step(cfg, s, SessionClosed(id)), events)
    ensures var t := Run(cfg, Step(cfg, s, SessionClosed(id)), events); id !in t.sh.meta && id !in t.sh.order
  {
    hide Enabled, Step, Generations, Slots, Placed, BusyExact, Gate, TodoCovers, LoopsOwned;
    var s1 := Step(cfg, s, SessionClosed(id));
    StepKeepsInv(cfg, s, SessionClosed(id));
    ClosingIsHandled(cfg, s, id);
    HandledStays(cfg, s1, id, events);
    RunKeepsInv(cfg, s1, events);
  }

  lemma ClosingIsHandled(cfg: Config, s: State, id: Id)
    requires Enabled(s, SessionClosed(id))
    ensures id in Step(cfg, s, SessionClosed(id)).handled
  {
  }

  lemma HandledGrows(cfg: Config, s: State, e: Event)
    requires Enabled(s, e)
    ensures s.handled <= Step(cfg, s, e).handled
  {
  }

  lemma {:induction false} HandledStays(cfg: Config, s: State, id: Id, events: seq<Event>)
    requires id in s.handled && Possible(cfg, s, events)
    ensures id in Run(cfg, s, events).handled
    decreases |events|
  {
    hide Step, Enabled;
    if events != [] {
      HandledGrows(cfg, s, events[0]);
      HandledStays(cfg, Step(cfg, s, events[0]), id, events[1..]);
    }
  }

  /** From a fresh runtime, every run keeps the limit, the list and the slot count. */
  lemma LimitAndList(cfg: Config, events: seq<Event>)
    requires Possible(cfg, Initial(), events)
    ensures var s := Run(cfg, Initial(), events);
      && |s.sh.meta| + s.sh.pending <= cfg.maxSess
      && s.sh.pending == s.dialing + |s.arriving| + |s.refused| + |s.discarding| + s.releasing
      && Distinct(s.sh.order) && (forall id :: id in s.sh.order <==> id in s.sh.meta)
  {
    hide Step, Enabled, Generations, Placed, BusyExact, Gate, TodoCovers, LoopsOwned, NoPhantom, Initial;
    InitialInv(cfg);
    RunKeepsInv(cfg, Initial(), events);
  }

  /** The guard of releaseReserve never decides anything: a slot is there to be released. */
  lemma ReleaseAlwaysReleases(cfg: Config, s: State)
    requires Inv(cfg, s) && Enabled(s, Releases)
    ensures Step(cfg, s, Releases).sh.pending == s.sh.pending - 1 >= 0
  {
    hide Generations, Placed, BusyExact, Gate, TodoCovers, LoopsOwned, NoPhantom, Listed;
  }

  // ---------------------------------------------------------------- reaping

  /** The reaper picked the session, or it is gone for good after that. */
  ghost predicate Doomed(s: State, id: Id) {
    id in s.issued && id !in s.arriving && (id in s.sh.meta ==> s.sh.meta[id].reaping) && s.ops[id] == 0
  }

  lemma DoomedTools(cfg: Config, s: State, id: Id, e: Event)
    requires Doomed(s, id) && Enabled(s, e) && OfTools(e)
    ensures Doomed(Step(cfg, s, e), id)
  {
  }

  lemma DoomedOthers(cfg: Config, s: State, id: Id, e: Event)
    requires Doomed(s, id) && Enabled(s, e) && !OfTools(e)
    ensures Doomed(Step(cfg, s, e), id)
  {
  }

  lemma DoomedStep(cfg: Config, s: State, id: Id, e: Event)
    requires Doomed(s, id) && Enabled(s, e)
    ensures Doomed(Step(cfg, s, e), id)
  {
    hide Step, Enabled, Doomed;
    if OfTools(e) {
      DoomedTools(cfg, s, id, e);
    } else {
      DoomedOthers(cfg, s, id, e);
    }
  }

  lemma {:induction false} DoomedStays(cfg: Config, s: State, id: Id, events: seq<Event>)
    requires Doomed(s, id) && Possible(cfg, s, events)
    ensures Doomed(Run(cfg, s, events), id)
    decreases |events|
  {
    hide Step, Enabled, Doomed;
    if events != [] {
      DoomedStep(cfg, s, id, events[0]);
      DoomedStays(cfg, Step(cfg, s, events[0]), id, events[1..]);
    }
  }

  /** A session the reaper marked has no operation in flight and never gets one again. */
  lemma ReapingIsFinal(cfg: Config, s: State, id: Id, events: seq<Event>)
    requires Inv(cfg, s) && id in s.sh.meta && s.sh.meta[id].reaping
    requires Possible(cfg, s, events)
    ensures var t := Run(cfg, s, events);
      t.ops[id] == 0 && !CanBegin(t.sh, id) && (id in t.sh.meta ==> t.sh.meta[id].reaping)
  {
    hide Run, Possible, Generations, Gate, TodoCovers, LoopsOwned, NoPhantom, Listed, Slots;
    assert PlacedAt(s, id) && BusyAt(s, id);
    DoomedStays(cfg, s, id, events);
  }

  /** The reaper never picks a session with an operation in flight, and an open one can always start one. */
  lemma BusyIsNeverReaped(cfg: Config, s: State, id: Id, now: int)
    requires Inv(cfg, s) && id in s.sh.meta && s.ops[id] > 0
    ensures !Step(cfg, s, Reaps(now)).sh.meta[id].reaping
    ensures CanBegin(s.sh, id)
  {
    hide Generations, Gate, TodoCovers, LoopsOwned, NoPhantom, Listed, Slots, Placed;
    assert BusyAt(s, id);
  }

  /** The session is registered only unmarked, and was used at t or later. */
  ghost predicate UsedSince(s: State, id: Id, t: int) {
    id in s.sh.meta ==> !s.sh.meta[id].reaping && s.sh.meta[id].lastUsed >= t
  }

  /** The clock did not go back behind t, and no Reap came when the idle time since t was over. */
  ghost predicate Within(cfg: Config, t: int, e: Event) {
    && (e.Arrives? || e.Begins? || e.Ends? || e.Reaps? ==> e.now >= t)
    && (e.Reaps? ==> e.now - t < cfg.idle)
  }

  /** The start and the end of an operation, and the registration, are uses. */
  lemma UseCounts(cfg: Config, s: State, id: Id, e: Event)
    requires Inv(cfg, s) && Enabled(s, e)
    requires (e.Arrives? && Inserts(s.sh, e.id)) || (e.Begins? && CanBegin(s.sh, e.id)) || e.Ends?
    requires e.id == id && (id in s.sh.meta ==> !s.sh.meta[id].reaping)
    ensures e.Arrives? || e.Begins? ==> id in Step(cfg, s, e).sh.meta
    ensures UsedSince(Step(cfg, s, e), id, e.now)
  {
  }

  lemma UsedTools(cfg: Config, s: State, id: Id, t: int, e: Event)
    requires UsedSince(s, id, t) && Within(cfg, t, e) && Enabled(s, e) && OfTools(e)
    ensures UsedSince(Step(cfg, s, e), id, t)
  {
  }

  lemma UsedOthers(cfg: Config, s: State, id: Id, t: int, e: Event)
    requires UsedSince(s, id, t) && Within(cfg, t, e) && Enabled(s, e) && !OfTools(e)
    ensures UsedSince(Step(cfg, s, e), id, t)
  {
  }

  /** A session used at t is not picked by any Reap that comes less than the idle time later. */
  lemma {:induction false} RecentUseKeeps(cfg: Config, s: State, id: Id, t: int, events: seq<Event>)
    requires UsedSince(s, id, t) && Possible(cfg, s, events) && forall e :: e in events ==> Within(cfg, t, e)
    ensures UsedSince(Run(cfg, s, events), id, t)
    decreases |events|
  {
    hide Step, Enabled, UsedSince, Within;
    if events != [] {
      assert events[0] in events;
      if OfTools(events[0]) {
        UsedTools(cfg, s, id, t, events[0]);
      } else {
        UsedOthers(cfg, s, id, t, events[0]);
      }
      RecentUseKeeps(cfg, Step(cfg, s, events[0]), id, t, events[1..]);
    }
  }

  // ---------------------------------------------------------------- shutdown

  lemma DisposedStep(cfg: Config, s: State, e: Event)
    requires s.disposed && Enabled(s, e)
    ensures Step(cfg, s, e).disposed
  {
  }

  lemma {:induction false} DisposedStays(cfg: Config, s: State, events: seq<Event>)
    requires s.disposed && Possible(cfg, s, events)
    ensures Run(cfg, s, events).disposed
    decreases |events|
  {
    hide Step, Enabled;
    if events != [] {
      DisposedStep(cfg, s, events[0]);
      DisposedStays(cfg, Step(cfg, s, events[0]), events[1..]);
    }
  }

  /** After a DisposeAll returned, no session and no reaper ever comes back, and every connect is refused. */
  lemma ShutdownIsFinal(cfg: Config, s: State, events: seq<Event>)
    requires Inv(cfg, s) && s.disposed && Possible(cfg, s, events)
    ensures var t := Run(cfg, s, events);
      t.sh.closed && t.sh.meta == map[] && t.sh.order == [] && t.sh.reap.None? && !HasSlot(cfg, t.sh)
  {
    hide Step, Enabled, Generations, Slots, Placed, BusyExact, LoopsOwned, NoPhantom;
    RunKeepsInv(cfg, s, events);
    DisposedStays(cfg, s, events);
    var sh := Run(cfg, s, events).sh;
    SomeElement(sh.order);
  }

  lemma SomeElement<T>(s: seq<T>)
    ensures s == [] || exists x :: x in s
  {
    if s != [] {
      assert s[0] in s;
    }
  }

  lemma LoopsStartOpen(cfg: Config, s: State, e: Event)
    requires s.sh.closed && Enabled(s, e)
    ensures Step(cfg, s, e).looping <= s.looping
  {
  }

  lemma {:induction false} LoopsOnlyEnd(cfg: Config, s: State, events: seq<Event>)
    requires s.sh.closed && Possible(cfg, s, events)
    ensures Run(cfg, s, events).looping <= s.looping
    decreases |events|
  {
    hide Step, Enabled;
    if events != [] {
      LoopsStartOpen(cfg, s, events[0]);
      ClosedOnlyShrinks(cfg, s, events[0]);
      LoopsOnlyEnd(cfg, Step(cfg, s, events[0]), events[1..]);
    }
  }

  lemma ReturnKeepsLoops(cfg: Config, s: State, d: nat)
    requires Gate(s) && LoopsOwned(s) && Enabled(s, DisposeReturns(d))
    ensures Step(cfg, s, DisposeReturns(d)).sh.closed && Step(cfg, s, DisposeReturns(d)).disposed
    ensures Step(cfg, s, DisposeReturns(d)).looping == s.looping
    ensures forall gen :: s.disposers[d].waits == Some(gen) ==> gen !in s.looping
  {
  }

  /**
   When a DisposeAll returns, the loop it detached has ended and none starts
   again; whatever loop still runs later is being stopped by another call that
   has not returned.
   */
  lemma OwnLoopHasEnded(cfg: Config, s: State, d: nat, events: seq<Event>)
    requires Inv(cfg, s) && Enabled(s, DisposeReturns(d)) && Possible(cfg, Step(cfg, s, DisposeReturns(d)), events)
    ensures var t := Run(cfg, Step(cfg, s, DisposeReturns(d)), events);
      && t.looping <= s.looping && (forall gen :: s.disposers[d].waits == Some(gen) ==> gen !in t.looping)
      && (forall gen :: gen in t.looping ==> gen in t.toClose || gen in t.joining)
  {
    hide Step, Enabled, Generations, Slots, Placed, BusyExact, NoPhantom, Listed, TodoCovers;
    var r := Step(cfg, s, DisposeReturns(d));
    ReturnKeepsLoops(cfg, s, d);
    StepKeepsInv(cfg, s, DisposeReturns(d));
    RunKeepsInv(cfg, r, events);
    DisposedStays(cfg, r, events);
    LoopsOnlyEnd(cfg, r, events);
  }

  /** The gate and the detach of one DisposeAll. */
  lemma GateAndDetach(cfg: Config, s: State, d: nat)
    requires s.holder.None? && d !in s.disposers
    ensures Enabled(s, Gates(d)) && Enabled(Step(cfg, s, Gates(d)), GateDetaches(d))
    ensures var t := Step(cfg, Step(cfg, s, Gates(d)), GateDetaches(d));
      (t.holder, t.disposers[d], t.disposers.Keys, t.sh.reap, t.sh.order, t.looping)
      == (None, Disposer(s.sh.order, s.sh.reap), s.disposers.Keys + {d}, None, s.sh.order, s.looping)
  {
    var t := Step(cfg, Step(cfg, s, Gates(d)), GateDetaches(d));
    assert t.disposers.Keys == s.disposers.Keys + {d};
  }

  lemma Started(cfg: Config)
    ensures Enabled(Initial(), Starts)
    ensures var s := Step(cfg, Initial(), Starts);
      s.holder.None? && s.disposers.Keys == {} && 0 in s.looping && s.sh.order == []
  {
  }

  /** Two DisposeAll calls at once: the second finds no reaper and returns while its loop still runs. */
  lemma SecondDisposeAllDoesNotWait(cfg: Config)
    ensures var events := [Starts, Gates(1), GateDetaches(1), Gates(2), GateDetaches(2), DisposeReturns(2)];
      && Possible(cfg, Initial(), events)
      && Run(cfg, Initial(), events).disposed && 0 in Run(cfg, Initial(), events).looping
  {
    hide *;
    Started(cfg);
    var s0 := Initial();
    var s1 := Step(cfg, s0, Starts);
    GateAndDetach(cfg, s1, 1);
    var s2 := Step(cfg, s1, Gates(1));
    var s3 := Step(cfg, s2, GateDetaches(1));
    GateAndDetach(cfg, s3, 2);
    var s4 := Step(cfg, s3, Gates(2));
    var s5 := Step(cfg, s4, GateDetaches(2));
    ReturnsAtOnce(cfg, s5, 2);
    Nothing(cfg, Step(cfg, s5, DisposeReturns(2)));
    Prefix(cfg, s5, DisposeReturns(2), []);
    var l5 := [DisposeReturns(2)] + [];
    Prefix(cfg, s4, GateDetaches(2), l5);
    var l4 := [GateDetaches(2)] + l5;
    Prefix(cfg, s3, Gates(2), l4);
    var l3 := [Gates(2)] + l4;
    Prefix(cfg, s2, GateDetaches(1), l3);
    var l2 := [GateDetaches(1)] + l3;
    Prefix(cfg, s1, Gates(1), l2);
    var l1 := [Gates(1)] + l2;
    Prefix(cfg, s0, Starts, l1);
    assert [Starts, Gates(1), GateDetaches(1), Gates(2), GateDetaches(2), DisposeReturns(2)] == [Starts] + l1;
  }

  lemma ReturnsAtOnce(cfg: Config, s: State, d: nat)
    requires s.holder.None? && d in s.disposers && s.disposers[d] == Disposer([], None)
    ensures Enabled(s, DisposeReturns(d))
    ensures Step(cfg, s, DisposeReturns(d)).disposed && Step(cfg, s, DisposeReturns(d)).looping == s.looping
  {
  }

  lemma Nothing(cfg: Config, s: State)
    ensures Possible(cfg, s, []) && Run(cfg, s, []) == s
  {
  }

  lemma Prefix(cfg: Config, s: State, e: Event, rest: seq<Event>)
    requires Enabled(s, e) && Possible(cfg, Step(cfg, s, e), rest)
    ensures Possible(cfg, s, [e] + rest) && Run(cfg, s, [e] + rest) == Run(cfg, Step(cfg, s, e), rest)
  {
    assert ([e] + rest)[1..] == rest;
  }

  /** The stop channel of every reaper generation is closed at most once, in every run. */
  lemma StopChannelsCloseOnce(cfg: Config, events: seq<Event>, gen: nat)
    requires Possible(cfg, Initial(), events)
    ensures Run(cfg, Initial(), events).stops[gen] <= 1
  {
    hide Step, Enabled, Slots, Placed, BusyExact, LoopsOwned, NoPhantom, Listed, Gate, TodoCovers, Initial;
    InitialInv(cfg);
    RunKeepsInv(cfg, Initial(), events);
    assert Claims(Run(cfg, Initial(), events), gen) <= 1;
  }
}
