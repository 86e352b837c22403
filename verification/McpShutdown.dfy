/** Exactly when DisposeAll returns with no reap loop running. */
module McpShutdown {
  import opened Prelude
  import opened McpModel
  import opened McpTheorems

  /** However the run goes on behind its gate, when DisposeAll d returns no reap loop runs. */
  ghost predicate ReturnLeavesNoLoop(cfg: Config, s: State, d: nat)
    requires Enabled(s, Gates(d))
  {
    forall events: seq<Event> ::
      var t := Step(cfg, s, Gates(d));
      Possible(cfg, t, events) && Enabled(Run(cfg, t, events), DisposeReturns(d)) ==> Run(cfg, t, events).looping == {}
  }

  // ---------------------------------------------------------------- when the current loop is the only one

  /** Only the loop of the generation gen may run, and DisposeAll d has detached it or is about to. */
  ghost predicate OnlyOwn(s: State, d: nat, gen: Option<nat>) {
    && s.sh.closed
    && (forall g :: g in s.looping ==>
          && gen == Some(g) && d in s.disposers
          && if s.holder == Some(d) then s.sh.reap == Some(g) else s.disposers[d].waits == Some(g))
  }

  lemma OwnLoopEnds(s: State, d: nat, gen: Option<nat>)
    requires OnlyOwn(s, d, gen) && LoopsOwned(s) && Gate(s) && Enabled(s, DisposeReturns(d))
    ensures s.looping == {}
  {
    assert s.sh.reap.None?;
    assert forall g :: g in s.looping ==> s.disposers[d].waits == Some(g);
    assert forall g :: s.disposers[d].waits == Some(g) ==> g !in s.toClose && g !in s.joining;
  }

  lemma OnlyOwnKept(cfg: Config, s: State, d: nat, gen: Option<nat>, e: Event)
    requires OnlyOwn(s, d, gen) && LoopsOwned(s) && Gate(s) && Enabled(s, e)
    ensures OnlyOwn(Step(cfg, s, e), d, gen)
  {
    ClosedOnlyShrinks(cfg, s, e);
    LoopsStartOpen(cfg, s, e);
    var t := Step(cfg, s, e);
    forall g | g in t.looping
      ensures gen == Some(g) && d in t.disposers
        && if t.holder == Some(d) then t.sh.reap == Some(g) else t.disposers[d].waits == Some(g)
    {
      OwnerKept(cfg, s, d, e, g);
    }
  }

  lemma OwnerKept(cfg: Config, s: State, d: nat, e: Event, g: nat)
    requires s.sh.closed && LoopsOwned(s) && Gate(s) && Enabled(s, e) && g in s.looping && d in s.disposers
    requires if s.holder == Some(d) then s.sh.reap == Some(g) else s.disposers[d].waits == Some(g)
    ensures var t := Step(cfg, s, e);
      d in t.disposers && if t.holder == Some(d) then t.sh.reap == Some(g) else t.disposers[d].waits == Some(g)
  {
    if !OfShutdown(e) {
      hide Step, Enabled, Gate, LoopsOwned;
      GateFrame(cfg, s, e);
    } else {
      ShutdownOwner(cfg, s, d, e, g);
    }
  }

  lemma ShutdownOwner(cfg: Config, s: State, d: nat, e: Event, g: nat)
    requires s.sh.closed && LoopsOwned(s) && Gate(s) && Enabled(s, e) && OfShutdown(e)
    requires g in s.looping && d in s.disposers
    requires if s.holder == Some(d) then s.sh.reap == Some(g) else s.disposers[d].waits == Some(g)
    ensures var t := Step(cfg, s, e);
      d in t.disposers && if t.holder == Some(d) then t.sh.reap == Some(g) else t.disposers[d].waits == Some(g)
  {
    assert g in s.toClose || g in s.joining || s.sh.reap == Some(g);
  }

  lemma {:induction false} OnlyOwnStays(cfg: Config, s: State, d: nat, gen: Option<nat>, events: seq<Event>)
    requires Inv(cfg, s) && OnlyOwn(s, d, gen) && Possible(cfg, s, events)
    ensures Inv(cfg, Run(cfg, s, events)) && OnlyOwn(Run(cfg, s, events), d, gen)
    decreases |events|
  {
    hide Step, Enabled, OnlyOwn, Gate, LoopsOwned, Placed, BusyExact, Generations, NoPhantom, Slots, Listed, TodoCovers;
    if events != [] {
      StepKeepsInv(cfg, s, events[0]);
      OnlyOwnKept(cfg, s, d, gen, events[0]);
      OnlyOwnStays(cfg, Step(cfg, s, events[0]), d, gen, events[1..]);
    }
  }

  lemma GateOwns(cfg: Config, s: State, d: nat)
    requires Enabled(s, Gates(d)) && forall g :: g in s.looping ==> s.sh.reap == Some(g)
    ensures OnlyOwn(Step(cfg, s, Gates(d)), d, s.sh.reap)
  {
  }

  lemma CurrentLoopIsJoined(cfg: Config, s: State, d: nat)
    requires Inv(cfg, s) && Enabled(s, Gates(d))
    requires forall g :: g in s.looping ==> s.sh.reap == Some(g)
    ensures ReturnLeavesNoLoop(cfg, s, d)
  {
    hide Step, Enabled, OnlyOwn, Gate, LoopsOwned, Placed, BusyExact, Generations, NoPhantom, Slots, Listed, TodoCovers,
         Possible, Run;
    var t := Step(cfg, s, Gates(d));
    GateOwns(cfg, s, d);
    StepKeepsInv(cfg, s, Gates(d));
    forall events: seq<Event> | Possible(cfg, t, events) && Enabled(Run(cfg, t, events), DisposeReturns(d))
      ensures Run(cfg, t, events).looping == {}
    {
      OnlyOwnStays(cfg, t, d, s.sh.reap, events);
      OwnLoopEnds(Run(cfg, t, events), d, s.sh.reap);
    }
  }

  // ---------------------------------------------------------------- when another call stops a loop

  /** DisposeAll d goes through what it still has to disconnect, while the loop g keeps running. */
  lemma {:induction false} FinishDispose(cfg: Config, s: State, d: nat, g: nat) returns (events: seq<Event>)
    requires s.holder.None? && d in s.disposers && Joined(s, s.disposers[d].waits) && g in s.looping
    ensures Possible(cfg, s, events)
    ensures Enabled(Run(cfg, s, events), DisposeReturns(d)) && g in Run(cfg, s, events).looping
    decreases |s.disposers[d].todo|
  {
    events := [];
    if s.disposers[d].todo != [] {
      NextDisposal(cfg, s, d, g);
      var more := FinishDispose(cfg, Step(cfg, s, DisposesNext(d)), d, g);
      hide Step, Enabled, Possible, Run;
      Prefix(cfg, s, DisposesNext(d), more);
      events := [DisposesNext(d)] + more;
    }
  }

  lemma NextDisposal(cfg: Config, s: State, d: nat, g: nat)
    requires s.holder.None? && d in s.disposers && Joined(s, s.disposers[d].waits) && g in s.looping
    requires s.disposers[d].todo != []
    ensures Enabled(s, DisposesNext(d))
    ensures var t := Step(cfg, s, DisposesNext(d));
      t.holder.None? && d in t.disposers && Joined(t, t.disposers[d].waits) && g in t.looping
      && |t.disposers[d].todo| < |s.disposers[d].todo|
  {
  }

  /** The state of DisposeAll d between its detach and its join. */
  ghost predicate Joining(s: State, d: nat, own: nat, g: nat) {
    s.holder.None? && d in s.disposers && s.disposers[d].waits == Some(own) && g in s.looping && g != own
  }

  lemma ClosesOwn(cfg: Config, s: State, d: nat, own: nat, g: nat)
    requires Joining(s, d, own, g) && s.toClose[own] == 1 && s.joining[own] == 0
    ensures Enabled(s, Closes(own))
    ensures var t := Step(cfg, s, Closes(own));
      Joining(t, d, own, g) && t.toClose[own] == 0 && t.joining[own] == 1 && own in t.stops
  {
  }

  lemma OwnLoopExits(cfg: Config, s: State, d: nat, own: nat, g: nat)
    requires Joining(s, d, own, g) && s.toClose[own] == 0 && s.joining[own] == 1 && own in s.stops && own in s.looping
    ensures Enabled(s, LoopExits(own))
    ensures var t := Step(cfg, s, LoopExits(own));
      Joining(t, d, own, g) && t.toClose[own] == 0 && t.joining[own] == 1 && own !in t.looping
  {
  }

  lemma JoinsOwn(cfg: Config, s: State, d: nat, own: nat, g: nat)
    requires Joining(s, d, own, g) && s.toClose[own] == 0 && s.joining[own] == 1 && own !in s.looping
    ensures Enabled(s, Joins(own))
    ensures var t := Step(cfg, s, Joins(own));
      t.holder.None? && d in t.disposers && Joined(t, t.disposers[d].waits) && g in t.looping
  {
  }

  /** The detached generation is closed, its loop ends, and it is joined; the loop g is another one. */
  lemma JoinOwn(cfg: Config, s: State, d: nat, own: nat, g: nat) returns (events: seq<Event>)
    requires Joining(s, d, own, g) && s.toClose[own] == 1 && s.joining[own] == 0
    ensures Possible(cfg, s, events)
    ensures var t := Run(cfg, s, events);
      t.holder.None? && d in t.disposers && Joined(t, t.disposers[d].waits) && g in t.looping
  {
    hide Step, Enabled, Possible, Run, Joining, Joined;
    ClosesOwn(cfg, s, d, own, g);
    var s1 := Step(cfg, s, Closes(own));
    var s2 := s1;
    if own in s1.looping {
      OwnLoopExits(cfg, s1, d, own, g);
      s2 := Step(cfg, s1, LoopExits(own));
    }
    JoinsOwn(cfg, s2, d, own, g);
    Nothing(cfg, Step(cfg, s2, Joins(own)));
    Prefix(cfg, s2, Joins(own), []);
    events := [Joins(own)] + [];
    if own in s1.looping {
      Prefix(cfg, s1, LoopExits(own), events);
      events := [LoopExits(own)] + events;
    }
    Prefix(cfg, s, Closes(own), events);
    events := [Closes(own)] + events;
  }

  lemma {:induction false} RunJoins(cfg: Config, s: State, a: seq<Event>, b: seq<Event>)
    requires Possible(cfg, s, a) && Possible(cfg, Run(cfg, s, a), b)
    ensures Possible(cfg, s, a + b) && Run(cfg, s, a + b) == Run(cfg, Run(cfg, s, a), b)
    decreases |a|
  {
    hide Step, Enabled;
    if a == [] {
      assert a + b == b;
    } else {
      RunJoins(cfg, Step(cfg, s, a[0]), a[1..], b);
      assert (a + b)[1..] == a[1..] + b;
    }
  }

  lemma DetachOwns(cfg: Config, s: State, d: nat)
    requires Enabled(s, Gates(d))
    ensures var t := Step(cfg, s, Gates(d));
      Enabled(t, GateDetaches(d)) && t.looping == s.looping
    ensures var t := Step(cfg, Step(cfg, s, Gates(d)), GateDetaches(d));
      && t.holder.None? && d in t.disposers && t.looping == s.looping
      && t.disposers[d].waits == s.sh.reap && (s.sh.reap.Some? ==> s.sh.reap.value in t.toClose)
  {
  }

  lemma OtherLoopIsLeft(cfg: Config, s: State, d: nat, g: nat)
    requires Inv(cfg, s) && Enabled(s, Gates(d)) && g in s.looping && s.sh.reap != Some(g)
    ensures !ReturnLeavesNoLoop(cfg, s, d)
  {
    DetachOwns(cfg, s, d);
    var t := Step(cfg, s, Gates(d));
    var u := Step(cfg, t, GateDetaches(d));
    StepKeepsInv(cfg, s, Gates(d));
    StepKeepsInv(cfg, t, GateDetaches(d));
    Nothing(cfg, u);
    hide Step, Enabled, Inv, Run, Possible;
    var joins: seq<Event> := [];
    if s.sh.reap.Some? {
      OwnIsFresh(cfg, u, s.sh.reap.value);
      joins := JoinOwn(cfg, u, d, s.sh.reap.value, g);
    }
    var rest := FinishDispose(cfg, Run(cfg, u, joins), d, g);
    RunJoins(cfg, u, joins, rest);
    Prefix(cfg, t, GateDetaches(d), joins + rest);
    var events := [GateDetaches(d)] + (joins + rest);
    assert Possible(cfg, t, events) && Enabled(Run(cfg, t, events), DisposeReturns(d));
    assert g in Run(cfg, t, events).looping;
  }

  /**
   DisposeAll is documented to leave no reap loop running. It does so in every
   interleaving exactly when, at its gate, no other call is still stopping a
   loop that runs: it joins the current loop, but not one another call detached.
   */
  lemma NoLoopIsLeftExactlyWhenOnlyTheCurrentOneRuns(cfg: Config, s: State, d: nat)
    requires Inv(cfg, s) && Enabled(s, Gates(d))
    ensures ReturnLeavesNoLoop(cfg, s, d) <==> forall g :: g in s.looping ==> s.sh.reap == Some(g)
  {
    hide Step, Enabled, Inv, Run, Possible, ReturnLeavesNoLoop;
    if forall g :: g in s.looping ==> s.sh.reap == Some(g) {
      CurrentLoopIsJoined(cfg, s, d);
    } else {
      var g :| g in s.looping && s.sh.reap != Some(g);
      OtherLoopIsLeft(cfg, s, d, g);
    }
  }
}
