/**
 The runtime object: its fields, the calls in flight as ghost state, and one
 method for each critical section. Each is a step of McpModel, so what is
 proved about runs holds of the object.
 */
module McpRuntime {
  import opened Prelude
  import opened McpModel
  import opened McpTheorems

  /** The sessions Reap returns: idle, without an operation, not picked yet, in insertion order. */
  function Idle(cfg: Config, meta: map<Id, Meta>, order: seq<Id>, now: int): seq<Id> {
    if order == [] then []
    else
      var last := order[|order| - 1];
      Idle(cfg, meta, order[..|order| - 1], now)
      + (if last in meta && Reapable(cfg, meta[last], now) then [last] else [])
  }

  /** Some of the elements of b, in its order. */
  ghost predicate Subsequence<T>(a: seq<T>, b: seq<T>)
    decreases |b|
  {
    || a == []
    || (b != [] && a[|a| - 1] == b[|b| - 1] && Subsequence(a[..|a| - 1], b[..|b| - 1]))
    || (b != [] && Subsequence(a, b[..|b| - 1]))
  }

  lemma {:induction false} IdleInOrder(cfg: Config, meta: map<Id, Meta>, order: seq<Id>, now: int)
    ensures Subsequence(Idle(cfg, meta, order, now), order)
  {
    if order != [] {
      var front, last := order[..|order| - 1], order[|order| - 1];
      IdleInOrder(cfg, meta, front, now);
      var a, b := Idle(cfg, meta, front, now), Idle(cfg, meta, order, now);
      if last in meta && Reapable(cfg, meta[last], now) {
        assert b[..|a|] == a;
      } else {
        assert b == a;
      }
    }
  }

  /** Reap's picks are exactly the reapable sessions of the list, in its order. */
  lemma {:induction false} IdleIsFilter(cfg: Config, meta: map<Id, Meta>, order: seq<Id>, now: int)
    requires Distinct(order)
    ensures Distinct(Idle(cfg, meta, order, now)) && Subsequence(Idle(cfg, meta, order, now), order)
    ensures forall id :: id in Idle(cfg, meta, order, now)
                    <==> id in order && id in meta && Reapable(cfg, meta[id], now)
  {
    hide Subsequence;
    IdleInOrder(cfg, meta, order, now);
    if order != [] {
      var front, last := order[..|order| - 1], order[|order| - 1];
      assert order == front + [last];
      IdleIsFilter(cfg, meta, front, now);
      assert last !in front;
    }
  }

  /** The marks after the first part of the list was looked at. */
  ghost function MarkedIn(cfg: Config, meta: map<Id, Meta>, order: seq<Id>, now: int): map<Id, Meta> {
    map id | id in meta :: if id in order && Reapable(cfg, meta[id], now) then meta[id].(reaping := true) else meta[id]
  }

  lemma MarkNext(cfg: Config, meta: map<Id, Meta>, front: seq<Id>, last: Id, now: int)
    ensures MarkedIn(cfg, meta, front + [last], now)
         == if last in meta && Reapable(cfg, meta[last], now)
            then MarkedIn(cfg, meta, front, now)[last := meta[last].(reaping := true)]
            else MarkedIn(cfg, meta, front, now)
  {
    hide Reapable;
    var a, b := MarkedIn(cfg, meta, front, now), MarkedIn(cfg, meta, front + [last], now);
    assert forall id :: id in front + [last] <==> id in front || id == last;
    assert forall id | id in meta :: id != last ==> a[id] == b[id];
    if last in meta && Reapable(cfg, meta[last], now) {
      assert b == a[last := meta[last].(reaping := true)];
    } else {
      assert b == a;
    }
  }

  lemma PickNext(cfg: Config, meta: map<Id, Meta>, front: seq<Id>, last: Id, now: int)
    ensures Idle(cfg, meta, front + [last], now)
         == Idle(cfg, meta, front, now) + (if last in meta && Reapable(cfg, meta[last], now) then [last] else [])
  {
    assert (front + [last])[..|front|] == front;
  }

  lemma MarkedAt(cfg: Config, meta: map<Id, Meta>, front: seq<Id>, id: Id, now: int)
    requires id !in front
    ensures id in MarkedIn(cfg, meta, front, now) <==> id in meta
    ensures id in meta ==> MarkedIn(cfg, meta, front, now)[id] == meta[id]
  {
  }

  lemma NothingMarked(cfg: Config, meta: map<Id, Meta>, now: int)
    ensures MarkedIn(cfg, meta, [], now) == meta && Idle(cfg, meta, [], now) == []
  {
  }

  lemma UnmarkAbsent(sh: Shared, id: Id)
    ensures id !in sh.localClosing ==> Unmark(sh, id) == sh
  {
    if id !in sh.localClosing {
      assert sh.localClosing - {id} == sh.localClosing;
    }
  }

  lemma MarkedIsReaped(cfg: Config, sh: Shared, now: int)
    ensures Reaped(cfg, sh, now) == sh.(meta := MarkedIn(cfg, sh.meta, sh.order, now))
  {
  }

  /** The next generation was never closed. */
  lemma NextIsOpen(cfg: Config, s: State)
    requires Inv(cfg, s)
    ensures s.nextGen !in s.stops
  {
    hide Listed, Placed, NoPhantom, BusyExact, Slots, LoopsOwned, JoinsStopped, Gate, TodoCovers;
    assert Claims(s, s.nextGen) == 0;
  }

  /** The generation was closed, and its loop has ended and was waited for. */
  function LoopEnded(s: State, gen: nat): State {
    s.(toClose := s.toClose - multiset{gen}, stops := s.stops + multiset{gen}, looping := s.looping - {gen})
  }

  lemma EndsWithTheJoin(cfg: Config, s: State, gen: nat)
    requires s.toClose[gen] == 1 && s.stops[gen] == 0 && s.joining[gen] == 0
    ensures Enabled(s, Closes(gen))
    ensures var closed := Step(cfg, s, Closes(gen));
      && closed.looping == s.looping && gen in closed.stops
      && (gen in s.looping ==> Enabled(closed, LoopExits(gen)))
      && var ended := if gen in s.looping then Step(cfg, closed, LoopExits(gen)) else closed;
      && gen !in ended.looping && Enabled(ended, Joins(gen))
      && Step(cfg, ended, Joins(gen)) == LoopEnded(s, gen)
    ensures gen !in LoopEnded(s, gen).toClose && gen !in LoopEnded(s, gen).joining
  {
    assert s.joining + multiset{gen} - multiset{gen} == s.joining;
    assert gen !in s.looping ==> s.looping - {gen} == s.looping;
  }

  /** The DisposeAll d has joined the loop it detached and has these sessions left. */
  ghost predicate Draining(s: State, d: nat, todo: seq<Id>, gen: Option<nat>) {
    s.holder.None? && d in s.disposers && s.disposers[d] == Disposer(todo, gen) && Joined(s, gen)
  }

  lemma DrainsWithoutLoop(s: State, d: nat, todo: seq<Id>)
    requires s.holder.None? && d in s.disposers && s.disposers[d] == Disposer(todo, None)
    ensures Draining(s, d, todo, None)
  {
  }

  lemma CanEnd(s: State, id: Id)
    requires id in s.disconnecting
    ensures Enabled(s, DisconnectEnds(id))
  {
  }

  ghost function Others(looping: set<nat>, gen: Option<nat>): set<nat> {
    looping - Held(gen)
  }

  ghost function Held(gen: Option<nat>): set<nat> {
    if gen.Some? then {gen.value} else {}
  }

  lemma LoopEndedDrains(s: State, d: nat, todo: seq<Id>, gen: nat)
    requires s.holder.None? && d in s.disposers && s.disposers[d] == Disposer(todo, Some(gen))
    requires s.toClose[gen] == 1 && s.joining[gen] == 0
    ensures Draining(LoopEnded(s, gen), d, todo, Some(gen))
  {
  }

  lemma DrainsOn(cfg: Config, s: State, d: nat, todo: seq<Id>, gen: Option<nat>)
    requires Draining(s, d, todo, gen) && todo != []
    ensures Enabled(s, DisposesNext(d)) && s.disposers[d].todo[0] == todo[0]
    ensures var t := Step(cfg, s, DisposesNext(d));
      && Draining(t, d, todo[1..], gen) && t.looping == s.looping && t.sh.pending == s.sh.pending
      && t.sh.closed == s.sh.closed && t.sh.reap == s.sh.reap
  {
  }

  lemma DrainFrame(cfg: Config, s: State, d: nat, todo: seq<Id>, gen: Option<nat>, id: Id)
    requires Draining(s, d, todo, gen) && Enabled(s, DisconnectEnds(id))
    ensures var t := Step(cfg, s, DisconnectEnds(id)); Draining(t, d, todo, gen) && t.looping == s.looping
  {
  }

  lemma Drained(cfg: Config, s: State, d: nat, gen: Option<nat>)
    requires Draining(s, d, [], gen)
    ensures Enabled(s, DisposeReturns(d))
    ensures Step(cfg, s, DisposeReturns(d)).disposed && Step(cfg, s, DisposeReturns(d)).looping == s.looping
  {
  }

  lemma BusyIsCount(cfg: Config, s: State, id: Id)
    requires Inv(cfg, s)
    ensures id in s.sh.meta ==> s.sh.meta[id].busy == s.ops[id]
  {
    hide Listed, Placed, NoPhantom, Slots, Generations, LoopsOwned, JoinsStopped, Gate, TodoCovers;
    assert BusyAt(s, id);
  }

  /** Registered, not picked before, without an operation in flight, and unused for the idle time. */
  ghost predicate Due(cfg: Config, s: State, id: Id, now: int) {
    && id in s.sh.meta && !s.sh.meta[id].reaping && s.ops[id] == 0
    && now - s.sh.meta[id].lastUsed >= cfg.idle
  }

  lemma PicksAreDue(cfg: Config, s: State, now: int)
    requires Inv(cfg, s)
    ensures forall id :: id in Idle(cfg, s.sh.meta, s.sh.order, now) <==> Due(cfg, s, id, now)
  {
    hide Inv;
    InvParts(cfg, s);
    IdleIsFilter(cfg, s.sh.meta, s.sh.order, now);
    forall id ensures id in Idle(cfg, s.sh.meta, s.sh.order, now) <==> Due(cfg, s, id, now) {
      BusyIsCount(cfg, s, id);
    }
  }

  /** What Reap does to every session, in one step of the machine. */
  lemma ReapMarks(cfg: Config, s: State, now: int)
    requires Inv(cfg, s)
    ensures var t := Step(cfg, s, Reaps(now));
      && t.sh.meta.Keys == s.sh.meta.Keys
      && forall id :: id in s.sh.meta ==>
           t.sh.meta[id] == s.sh.meta[id].(reaping := s.sh.meta[id].reaping || Due(cfg, s, id, now))
  {
    hide Inv;
    InvParts(cfg, s);
    var t := Step(cfg, s, Reaps(now));
    forall id | id in s.sh.meta
      ensures t.sh.meta[id] == s.sh.meta[id].(reaping := s.sh.meta[id].reaping || Due(cfg, s, id, now))
    {
      BusyIsCount(cfg, s, id);
    }
  }

  lemma ArrivingIsAbsent(cfg: Config, s: State, id: Id)
    requires Inv(cfg, s) && id in s.arriving
    ensures id !in s.sh.meta
  {
    hide Listed, NoPhantom, BusyExact, Slots, Generations, LoopsOwned, JoinsStopped, Gate, TodoCovers;
    assert PlacedAt(s, id);
  }

  lemma InvParts(cfg: Config, s: State)
    requires Inv(cfg, s)
    ensures Listed(s.sh) && (s.disposed ==> s.sh.meta == map[] && s.sh.closed && s.sh.reap.None?)
    ensures forall d, id :: d in s.disposers && id in s.sh.meta ==> id in s.disposers[d].todo
  {
  }

  class Runtime {
    const cfg: Config
    var meta: map<Id, Meta>
    var order: seq<Id>
    var pending: int
    var closed: bool
    var tombstones: set<Id>
    var localClosing: set<Id>
    var reap: Option<nat>
    /** The reaper generations whose stop channel is closed; closing one twice would panic. */
    var stopped: set<nat>
    /** The reaper generations made so far, so that the next one is a new object. */
    var made: nat
    /** The calls in flight; its shared part is not used. */
    ghost var calls: State

    ghost function Fields(): Shared
      reads this
    {
      Shared(meta, order, pending, closed, tombstones, localClosing, reap)
    }

    ghost function Abstract(): State
      reads this
    {
      calls.(sh := Fields())
    }

    ghost predicate Valid()
      reads this
    {
      Inv(cfg, Abstract()) && made == calls.nextGen && (forall g :: g in stopped <==> g in calls.stops)
    }

    constructor (cfg: Config)
      ensures Valid() && this.cfg == cfg && Abstract() == Initial()
    {
      this.cfg := cfg;
      meta, order, pending, closed := map[], [], 0, false;
      tombstones, localClosing, reap, stopped, made := {}, {}, None, {}, 0;
      calls := Initial();
      new;
      InitialInv(cfg);
    }

    // -------------------------------------------------------------- connecting

    method Reserve() returns (ok: bool)
      requires Valid()
      modifies this`pending, this`calls
      ensures Valid() && Abstract() == Step(cfg, old(Abstract()), Reserves)
      ensures ok <==> !old(closed) && |old(meta)| + old(pending) < cfg.maxSess
      ensures |meta| + pending <= cfg.maxSess
    {
      hide Listed, Placed, NoPhantom, BusyExact, Generations, LoopsOwned, JoinsStopped, Gate, TodoCovers;
      StepKeepsInv(cfg, Abstract(), Reserves);
      calls := Step(cfg, Abstract(), Reserves);
      if closed {
        return false;
      }
      if |meta| + pending >= cfg.maxSess {
        return false;
      }
      pending := pending + 1;
      ok := true;
    }

    /** The deferred release of a failed connect: the guard never hides a missing slot. */
    method ReleaseReserve()
      requires Valid() && calls.releasing > 0
      modifies this`pending, this`calls
      ensures Valid() && Abstract() == Step(cfg, old(Abstract()), Releases)
      ensures pending == old(pending) - 1 >= 0
    {
      hide Inv;
      ReleaseAlwaysReleases(cfg, Abstract());
      StepKeepsInv(cfg, Abstract(), Releases);
      calls := Step(cfg, Abstract(), Releases);
      if pending > 0 {
        pending := pending - 1;
      }
    }

    /** The manager creates a session for a connect that holds a slot. */
    ghost method SessionIssued(id: Id)
      requires Valid() && calls.dialing > 0 && id !in calls.issued
      modifies this`calls
      ensures Valid() && Abstract() == Step(cfg, old(Abstract()), Issues(id))
    {
      hide Inv;
      StepKeepsInv(cfg, Abstract(), Issues(id));
      calls := Step(cfg, Abstract(), Issues(id));
    }

    /** A connect fails before it has a session. */
    ghost method DialFailed()
      requires Valid() && calls.dialing > 0
      modifies this`calls
      ensures Valid() && Abstract() == Step(cfg, old(Abstract()), DialFails)
    {
      hide Inv;
      StepKeepsInv(cfg, Abstract(), DialFails);
      calls := Step(cfg, Abstract(), DialFails);
    }

    /** The end of ConnectHost, after the manager returned a session. */
    method Insert(id: Id, now: int) returns (committed: bool)
      requires Valid() && id in calls.arriving
      modifies this`meta, this`order, this`pending, this`tombstones, this`calls
      ensures Valid() && Abstract() == Step(cfg, old(Abstract()), Arrives(id, now))
      ensures committed <==> !old(closed) && id !in old(tombstones)
      ensures committed <==> id in meta
      ensures committed ==> meta == old(meta)[id := Meta(0, now, false)] && order == old(order) + [id]
      ensures !committed ==> meta == old(meta) && order == old(order) && pending == old(pending)
      ensures tombstones == if closed then old(tombstones) else old(tombstones) - {id}
    {
      hide Inv;
      ArrivingIsAbsent(cfg, Abstract(), id);
      StepKeepsInv(cfg, Abstract(), Arrives(id, now));
      calls := Step(cfg, Abstract(), Arrives(id, now));
      if closed {
        return false;
      }
      if id in tombstones {
        tombstones := tombstones - {id};
        return false;
      }
      meta := meta[id := Meta(0, now, false)];
      order := order + [id];
      pending := pending - 1;
      committed := true;
    }

    /** discardLateConnect without interference: the refused session leaves no mark and gives its slot back. */
    method DiscardLateConnect(id: Id)
      requires Valid() && id in calls.refused
      modifies this`localClosing, this`pending, this`calls
      ensures Valid() && id !in localClosing && meta == old(meta) && pending == old(pending) - 1
    {
      hide Inv;
      MarkClosing(id);
      UnmarkClosing(id);
      ReleaseReserve();
    }

    method MarkClosing(id: Id)
      requires Valid() && id in calls.refused
      modifies this`localClosing, this`calls
      ensures Valid() && Abstract() == Step(cfg, old(Abstract()), Marks(id))
      ensures id in calls.discarding
    {
      hide Inv;
      StepKeepsInv(cfg, Abstract(), Marks(id));
      calls := Step(cfg, Abstract(), Marks(id));
      localClosing := localClosing + {id};
    }

    method UnmarkClosing(id: Id)
      requires Valid() && id in calls.discarding
      modifies this`localClosing, this`calls
      ensures Valid() && Abstract() == Step(cfg, old(Abstract()), Unmarks(id))
    {
      hide Inv;
      StepKeepsInv(cfg, Abstract(), Unmarks(id));
      calls := Step(cfg, Abstract(), Unmarks(id));
      localClosing := localClosing - {id};
    }

    // -------------------------------------------------------------- closing

    /** dropLocked. */
    method DropLocked(id: Id)
      modifies this`meta, this`order
      ensures Fields() == Drop(old(Fields()), id)
    {
      meta := meta - {id};
      for i := 0 to |order|
        invariant order == old(order) && id !in order[..i]
        invariant meta == old(meta) - {id}
      {
        if order[i] == id {
          WithoutSplits(order, i);
          order := order[..i] + order[i + 1..];
          return;
        }
      }
      assert order[..|order|] == order;
      WithoutAbsent(order, id);
    }

    /** The session:closed handler. */
    method OnClosed(id: Id) returns (known: bool)
      requires Valid() && id in calls.issued && id !in calls.handled
      modifies this`meta, this`order, this`localClosing, this`tombstones, this`calls
      ensures Valid() && Abstract() == Step(cfg, old(Abstract()), SessionClosed(id))
      ensures known <==> id in old(meta)
      ensures meta == old(meta) - {id} && localClosing == old(localClosing) - {id}
      ensures tombstones == if known || id in old(localClosing) then old(tombstones) else old(tombstones) + {id}
    {
      hide Inv;
      StepKeepsInv(cfg, Abstract(), SessionClosed(id));
      calls := Step(cfg, Abstract(), SessionClosed(id));
      known := id in meta;
      var closing := id in localClosing;
      if closing {
        localClosing := localClosing - {id};
      }
      assert Fields() == Unmark(old(Fields()), id) by { UnmarkAbsent(old(Fields()), id); }
      if known {
        DropLocked(id);
      } else if !closing {
        UnmarkAbsent(old(Fields()), id);
        tombstones := tombstones + {id};
      }
    }

    method DropAndMark(id: Id) returns (known: bool)
      modifies this`meta, this`order, this`localClosing
      ensures Fields() == Disconnect(old(Fields()), id)
      ensures known <==> id in old(meta)
      ensures meta == old(meta) - {id}
      ensures localClosing == if known then old(localClosing) + {id} else old(localClosing)
    {
      known := id in meta;
      if known {
        DropLocked(id);
        localClosing := localClosing + {id};
      } else {
        assert meta == old(meta) - {id};
      }
    }

    /** The first section of disconnectSession. */
    method BeginDisconnect(id: Id) returns (known: bool)
      requires Valid()
      modifies this`meta, this`order, this`localClosing, this`calls
      ensures Valid() && Abstract() == Step(cfg, old(Abstract()), Disconnects(id))
      ensures known <==> id in old(meta)
      ensures meta == old(meta) - {id} && (known ==> id in calls.disconnecting)
      ensures localClosing == if known then old(localClosing) + {id} else old(localClosing)
    {
      hide Inv;
      StepKeepsInv(cfg, Abstract(), Disconnects(id));
      calls := Step(cfg, Abstract(), Disconnects(id));
      known := DropAndMark(id);
    }

    method EndDisconnect(id: Id)
      requires Valid() && id in calls.disconnecting
      modifies this`localClosing, this`calls
      ensures Valid() && Abstract() == Step(cfg, old(Abstract()), DisconnectEnds(id))
      ensures localClosing == old(localClosing) - {id}
    {
      hide Inv;
      StepKeepsInv(cfg, Abstract(), DisconnectEnds(id));
      calls := Step(cfg, Abstract(), DisconnectEnds(id));
      localClosing := localClosing - {id};
    }

    /** disconnectSession without interference: nothing of a known session stays, not even the mark. */
    method DisconnectSession(id: Id)
      requires Valid()
      modifies this`meta, this`order, this`localClosing, this`calls
      ensures Valid() && meta == old(meta) - {id} && id !in order && reap == old(reap)
      ensures localClosing == if id in old(meta) then old(localClosing) - {id} else old(localClosing)
    {
      hide Inv, Step;
      var known := BeginDisconnect(id);
      if known {
        EndDisconnect(id);
      }
      InvParts(cfg, Abstract());
    }

    // -------------------------------------------------------------- operations and reaping

    method Begin(id: Id, now: int) returns (ok: bool)
      requires Valid()
      modifies this`meta, this`calls
      ensures Valid() && Abstract() == Step(cfg, old(Abstract()), Begins(id, now))
      ensures ok <==> id in old(meta) && !old(meta)[id].reaping
      ensures ok ==> id in calls.ops && meta == old(meta)[id := Meta(old(meta)[id].busy + 1, now, false)]
    {
      hide Inv;
      StepKeepsInv(cfg, Abstract(), Begins(id, now));
      calls := Step(cfg, Abstract(), Begins(id, now));
      if id !in meta {
        return false;
      }
      if meta[id].reaping {
        return false;
      }
      meta := meta[id := meta[id].(busy := meta[id].busy + 1, lastUsed := now)];
      ok := true;
    }

    method Done(id: Id, now: int)
      requires Valid() && id in calls.ops
      modifies this`meta, this`calls
      ensures Valid() && Abstract() == Step(cfg, old(Abstract()), Ends(id, now))
      ensures id in meta ==> meta[id].busy == calls.ops[id] == old(meta[id].busy) - 1 && meta[id].lastUsed == now
    {
      hide Inv;
      BusyIsCount(cfg, Abstract(), id);
      StepKeepsInv(cfg, Abstract(), Ends(id, now));
      calls := Step(cfg, Abstract(), Ends(id, now));
      if id in meta {
        meta := meta[id := meta[id].(busy := meta[id].busy - 1, lastUsed := now)];
      }
    }

    /** The loop of Reap. */
    method MarkLoop(now: int) returns (ids: seq<Id>)
      requires Listed(Fields())
      modifies this`meta
      ensures ids == Idle(cfg, old(meta), order, now)
      ensures Fields() == Reaped(cfg, old(Fields()), now)
    {
      hide MarkedIn, Idle;
      ids := [];
      assert order[..0] == [];
      NothingMarked(cfg, meta, now);
      for i := 0 to |order|
        invariant meta == MarkedIn(cfg, old(meta), order[..i], now)
        invariant ids == Idle(cfg, old(meta), order[..i], now)
      {
        var id := order[i];
        assert order[..i + 1] == order[..i] + [id];
        MarkNext(cfg, old(meta), order[..i], id, now);
        PickNext(cfg, old(meta), order[..i], id, now);
        MarkedAt(cfg, old(meta), order[..i], id, now);
        if id !in meta || meta[id].busy > 0 || meta[id].reaping {
          continue;
        }
        if now - meta[id].lastUsed >= cfg.idle {
          meta := meta[id := meta[id].(reaping := true)];
          ids := ids + [id];
        }
      }
      assert order[..|order|] == order;
      MarkedIsReaped(cfg, old(Fields()), now);
    }

    /** The marking section of Reap: no session it picks has an operation in flight. */
    method MarkIdle(now: int) returns (ids: seq<Id>)
      requires Valid()
      modifies this`meta, this`calls
      ensures Valid() && Abstract() == Step(cfg, old(Abstract()), Reaps(now))
      ensures ids == Idle(cfg, old(meta), old(order), now)
      ensures Distinct(ids) && Subsequence(ids, order)
      ensures forall id :: id in ids <==> Due(cfg, old(Abstract()), id, now)
      ensures meta.Keys == old(meta).Keys
      ensures forall id :: id in meta ==> meta[id] == old(meta)[id].(reaping := old(meta)[id].reaping || id in ids)
    {
      hide Inv, Idle;
      InvParts(cfg, Abstract());
      IdleIsFilter(cfg, meta, order, now);
      PicksAreDue(cfg, Abstract(), now);
      ReapMarks(cfg, Abstract(), now);
      StepKeepsInv(cfg, Abstract(), Reaps(now));
      calls := Step(cfg, Abstract(), Reaps(now));
      ids := MarkLoop(now);
    }

    /** Reap without interference: exactly the sessions that are due are torn down. */
    method Reap(now: int) returns (ids: seq<Id>)
      requires Valid()
      modifies this`meta, this`order, this`localClosing, this`calls
      ensures Valid() && forall id :: id in ids <==> Due(cfg, old(Abstract()), id, now)
      ensures forall id :: id in meta <==> id in old(meta) && !Due(cfg, old(Abstract()), id, now)
      ensures forall id :: id in meta ==> meta[id] == old(meta)[id]
    {
      hide Inv, Step, Idle, Due, Subsequence, Distinct;
      ids := MarkIdle(now);
      ghost var marked := meta;
      for i := 0 to |ids|
        invariant Valid()
        invariant forall id :: id in meta <==> id in marked && id !in ids[..i]
        invariant forall id :: id in meta ==> meta[id] == marked[id]
      {
        assert ids[..i + 1] == ids[..i] + [ids[i]];
        DisconnectSession(ids[i]);
      }
      assert ids[..|ids|] == ids;
    }

    // -------------------------------------------------------------- the reaper and the shutdown

    /** StartReaper publishes a new generation unless one runs or the runtime is closed. */
    method StartReaper() returns (gen: Option<nat>)
      requires Valid() && calls.holder.None?
      modifies this`reap, this`made, this`calls
      ensures Valid() && Abstract() == Step(cfg, old(Abstract()), Starts)
      ensures gen.Some? <==> old(reap).None? && !old(closed)
      ensures gen.Some? ==> reap == gen && gen.value !in stopped && gen.value in calls.looping
      ensures gen.None? ==> reap == old(reap)
    {
      hide Inv;
      StepKeepsInv(cfg, Abstract(), Starts);
      NextIsOpen(cfg, Abstract());
      calls := Step(cfg, Abstract(), Starts);
      if reap.Some? {
        return None;
      }
      if closed {
        return None;
      }
      made := made + 1;
      reap := Some(made - 1);
      return reap;
    }

    /** The section of StopReaper: only one call takes a generation away, and nobody has closed it. */
    method DetachReaper() returns (gen: Option<nat>)
      requires Valid() && calls.holder.None?
      modifies this`reap, this`calls
      ensures Valid() && Abstract() == Step(cfg, old(Abstract()), Detaches)
      ensures gen == old(reap) && reap.None?
      ensures gen.Some? ==> gen.value in calls.toClose && gen.value !in stopped
    {
      hide Inv;
      StepKeepsInv(cfg, Abstract(), Detaches);
      calls := Step(cfg, Abstract(), Detaches);
      gen := reap;
      reap := None;
      if gen.Some? {
        OwnIsFresh(cfg, Abstract(), gen.value);
      }
    }

    /** close(gen.stop): the channel is open, as closing it again would panic. */
    method CloseStop(gen: nat)
      requires Valid() && gen in calls.toClose
      modifies this`stopped, this`calls
      ensures Valid() && Abstract() == Step(cfg, old(Abstract()), Closes(gen))
      ensures gen !in old(stopped) && stopped == old(stopped) + {gen}
    {
      hide Inv;
      OwnIsFresh(cfg, Abstract(), gen);
      StepKeepsInv(cfg, Abstract(), Closes(gen));
      calls := Step(cfg, Abstract(), Closes(gen));
      stopped := stopped + {gen};
    }

    /** The reap loop sees its stop channel closed. */
    ghost method LoopExit(gen: nat)
      requires Valid() && gen in calls.looping && gen in stopped
      modifies this`calls
      ensures Valid() && Abstract() == Step(cfg, old(Abstract()), LoopExits(gen))
    {
      hide Inv;
      StepKeepsInv(cfg, Abstract(), LoopExits(gen));
      calls := Step(cfg, Abstract(), LoopExits(gen));
    }

    /** The wait for the loop ends when the loop has. */
    ghost method JoinLoop(gen: nat)
      requires Valid() && gen in calls.joining && gen !in calls.looping
      modifies this`calls
      ensures Valid() && Abstract() == Step(cfg, old(Abstract()), Joins(gen))
    {
      hide Inv;
      StepKeepsInv(cfg, Abstract(), Joins(gen));
      calls := Step(cfg, Abstract(), Joins(gen));
    }

    /** What StopReaper and DisposeAll do with a generation they detached, up to the end of its loop. */
    method CloseAndJoin(gen: nat)
      requires Valid() && gen in calls.toClose
      modifies this`stopped, this`calls
      ensures Valid() && gen !in old(stopped) && stopped == old(stopped) + {gen}
      ensures Abstract() == LoopEnded(old(Abstract()), gen)
      ensures gen !in calls.toClose && gen !in calls.joining
    {
      hide Inv, Step;
      OwnIsFresh(cfg, Abstract(), gen);
      EndsWithTheJoin(cfg, Abstract(), gen);
      CloseStop(gen);
      if gen in calls.looping {
        LoopExit(gen);
      }
      JoinLoop(gen);
    }

    /** StopReaper without interference: the current loop has ended. */
    method StopReaper()
      requires Valid() && calls.holder.None?
      modifies this`reap, this`stopped, this`calls
      ensures Valid() && reap.None? && meta == old(meta)
      ensures old(reap).Some? ==> old(reap).value in stopped && old(reap).value !in calls.looping
    {
      hide Inv;
      var gen := DetachReaper();
      if gen.None? {
        return;
      }
      CloseAndJoin(gen.value);
    }

    /** The gate of the DisposeAll d and its snapshot, which holds every registered session. */
    method CloseGate(ghost d: nat) returns (ids: seq<Id>)
      requires Valid() && calls.holder.None? && d !in calls.disposers
      modifies this`closed, this`calls
      ensures Valid() && Abstract() == Step(cfg, old(Abstract()), Gates(d))
      ensures ids == order == calls.disposers[d].todo && Distinct(ids) && forall id :: id in ids <==> id in meta
      ensures closed
    {
      hide Inv;
      InvParts(cfg, Abstract());
      StepKeepsInv(cfg, Abstract(), Gates(d));
      calls := Step(cfg, Abstract(), Gates(d));
      closed := true;
      ids := order;
    }

    /** The detach of DisposeAll, under the same lock as its gate. */
    method GateDetach(ghost d: nat) returns (gen: Option<nat>)
      requires Valid() && calls.holder == Some(d) && d in calls.disposers
      modifies this`reap, this`calls
      ensures Valid() && Abstract() == Step(cfg, old(Abstract()), GateDetaches(d))
      ensures gen == old(reap) == calls.disposers[d].waits
      ensures gen.Some? ==> gen.value in calls.toClose && gen.value !in stopped
    {
      hide Inv;
      StepKeepsInv(cfg, Abstract(), GateDetaches(d));
      calls := Step(cfg, Abstract(), GateDetaches(d));
      gen := reap;
      reap := None;
      if gen.Some? {
        OwnIsFresh(cfg, Abstract(), gen.value);
      }
    }

    /** DisposeAll begins to disconnect the next session of its snapshot. */
    method DisposeNext(ghost d: nat, id: Id) returns (known: bool)
      requires Valid() && Enabled(Abstract(), DisposesNext(d)) && calls.disposers[d].todo[0] == id
      modifies this`meta, this`order, this`localClosing, this`calls
      ensures Valid() && Abstract() == Step(cfg, old(Abstract()), DisposesNext(d))
      ensures known <==> id in old(meta)
      ensures known ==> id in calls.disconnecting
    {
      hide Inv;
      StepKeepsInv(cfg, Abstract(), DisposesNext(d));
      calls := Step(cfg, Abstract(), DisposesNext(d));
      known := DropAndMark(id);
    }

    ghost method DisposeReturn(d: nat)
      requires Valid() && Enabled(Abstract(), DisposeReturns(d))
      modifies this`calls
      ensures Valid() && Abstract() == Step(cfg, old(Abstract()), DisposeReturns(d))
    {
      hide Inv;
      StepKeepsInv(cfg, Abstract(), DisposeReturns(d));
      calls := Step(cfg, Abstract(), DisposeReturns(d));
    }

    /** DisposeAll up to the end of the loop it found. */
    method CloseAndStop(ghost d: nat) returns (ids: seq<Id>, ghost gen: Option<nat>)
      requires Valid() && calls.holder.None? && d !in calls.disposers
      modifies this`closed, this`reap, this`stopped, this`calls
      ensures Valid() && Draining(Abstract(), d, ids, gen) && gen == old(reap)
      ensures closed && reap.None? && calls.looping == Others(old(calls.looping), gen)
      ensures gen.Some? ==> gen.value !in old(stopped)
      ensures stopped == old(stopped) + Held(gen)
    {
      hide Inv, Step, Draining, Enabled;
      GateAndDetach(cfg, Abstract(), d);
      ids := CloseGate(d);
      var loop := GateDetach(d);
      gen := loop;
      if loop.Some? {
        OwnIsFresh(cfg, Abstract(), loop.value);
        LoopEndedDrains(Abstract(), d, ids, loop.value);
        CloseAndJoin(loop.value);
      } else {
        DrainsWithoutLoop(Abstract(), d, ids);
      }
    }

    /** One round of the loop of DisposeAll without interference. */
    method DisconnectNext(ghost d: nat, ghost todo: seq<Id>, ghost gen: Option<nat>, id: Id)
      requires Valid() && Draining(Abstract(), d, todo, gen) && todo != [] && todo[0] == id
      modifies this`meta, this`order, this`localClosing, this`calls
      ensures Valid() && Draining(Abstract(), d, todo[1..], gen) && calls.looping == old(calls.looping)
    {
      hide Inv, Step, Draining, Enabled;
      DrainsOn(cfg, Abstract(), d, todo, gen);
      var known := DisposeNext(d, id);
      if known {
        CanEnd(Abstract(), id);
        DrainFrame(cfg, Abstract(), d, todo[1..], gen, id);
        EndDisconnect(id);
      }
    }

    /**
     DisposeAll without interference: no session stays, the loop it found is
     stopped once and has ended, and no loop runs unless another call is
     stopping one.
     */
    method DisposeAll(ghost d: nat)
      requires Valid() && calls.holder.None? && d !in calls.disposers
      modifies this
      ensures Valid() && calls.disposed && closed && meta == map[] && order == [] && reap.None?
      ensures pending == old(pending)
      ensures calls.looping == Others(old(calls.looping), old(reap))
      ensures old(reap).Some? ==> old(reap).value !in old(stopped)
      ensures stopped == old(stopped) + Held(old(reap))
    {
      hide Inv, Step, Draining, Enabled;
      var ids, gen := CloseAndStop(d);
      for i := 0 to |ids|
        modifies this`meta, this`order, this`localClosing, this`calls
        invariant Valid() && Draining(Abstract(), d, ids[i..], gen)
        invariant calls.looping == Others(old(calls.looping), gen)
      {
        assert ids[i..][1..] == ids[i + 1..];
        DisconnectNext(d, ids[i..], gen, ids[i]);
      }
      assert ids[|ids|..] == [];
      Drained(cfg, Abstract(), d, gen);
      DisposeReturn(d);
      InvParts(cfg, Abstract());
      EmptyList(order);
    }
  }

  lemma EmptyList(order: seq<Id>)
    ensures order == [] || exists id :: id in order
  {
    if order != [] {
      assert order[0] in order;
    }
  }
}
