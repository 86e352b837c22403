/**
 The MCP session runtime as interleaved critical sections. Shared is what the
 two mutexes protect, with one function for each section; State adds how far
 the calls in flight have come, and Step is one section of one of them.
 */
module McpModel {
  import opened Prelude

  type Id = string

  datatype Config = Config(maxSess: nat, idle: int)

  datatype Meta = Meta(busy: int, lastUsed: int, reaping: bool)

  datatype Shared = Shared(
    meta: map<Id, Meta>,
    order: seq<Id>,
    pending: int,
    closed: bool,
    tombstones: set<Id>,
    localClosing: set<Id>,
    reap: Option<nat>
  )

  // ---------------------------------------------------------------- critical sections

  predicate HasSlot(cfg: Config, sh: Shared) {
    !sh.closed && |sh.meta| + sh.pending < cfg.maxSess
  }

  function Reserve(cfg: Config, sh: Shared): Shared {
    if HasSlot(cfg, sh) then sh.(pending := sh.pending + 1) else sh
  }

  function Release(sh: Shared): Shared {
    if sh.pending > 0 then sh.(pending := sh.pending - 1) else sh
  }

  predicate Inserts(sh: Shared, id: Id) {
    !sh.closed && id !in sh.tombstones
  }

  /** The last section of ConnectHost. */
  function Arrive(sh: Shared, id: Id, now: int): Shared {
    if sh.closed then sh
    else if id in sh.tombstones then sh.(tombstones := sh.tombstones - {id})
    else sh.(meta := sh.meta[id := Meta(0, now, false)], order := sh.order + [id], pending := sh.pending - 1)
  }

  function Drop(sh: Shared, id: Id): Shared {
    sh.(meta := sh.meta - {id}, order := Without(sh.order, id))
  }

  function Mark(sh: Shared, id: Id): Shared {
    sh.(localClosing := sh.localClosing + {id})
  }

  function Unmark(sh: Shared, id: Id): Shared {
    sh.(localClosing := sh.localClosing - {id})
  }

  /** onClosed. */
  function OnClosed(sh: Shared, id: Id): Shared {
    if id in sh.meta then Drop(Unmark(sh, id), id)
    else if id in sh.localClosing then Unmark(sh, id)
    else sh.(tombstones := sh.tombstones + {id})
  }

  /** The first section of disconnectSession. */
  function Disconnect(sh: Shared, id: Id): Shared {
    if id in sh.meta then Mark(Drop(sh, id), id) else sh
  }

  predicate CanBegin(sh: Shared, id: Id) {
    id in sh.meta && !sh.meta[id].reaping
  }

  function Begin(sh: Shared, id: Id, now: int): Shared {
    if CanBegin(sh, id) then sh.(meta := sh.meta[id := Meta(sh.meta[id].busy + 1, now, false)]) else sh
  }

  function Done(sh: Shared, id: Id, now: int): Shared {
    if id in sh.meta then sh.(meta := sh.meta[id := sh.meta[id].(busy := sh.meta[id].busy - 1, lastUsed := now)]) else sh
  }

  predicate Reapable(cfg: Config, m: Meta, now: int) {
    m.busy <= 0 && !m.reaping && now - m.lastUsed >= cfg.idle
  }

  function Reaped(cfg: Config, sh: Shared, now: int): Shared {
    sh.(meta := map id | id in sh.meta ::
          if id in sh.order && Reapable(cfg, sh.meta[id], now) then sh.meta[id].(reaping := true) else sh.meta[id])
  }

  // ---------------------------------------------------------------- the calls in flight

  /** A DisposeAll behind its gate: the sessions it still has to disconnect and the loop it waits for. */
  datatype Disposer = Disposer(todo: seq<Id>, waits: Option<nat>)

  datatype State = State(
    sh: Shared,
    dialing: nat,            // connects with a slot and no session yet
    arriving: set<Id>,       // sessions whose connect has not inserted or refused them
    refused: set<Id>,        // refused sessions before discardLateConnect marks them
    discarding: set<Id>,     // refused sessions marked as closing locally
    releasing: nat,          // failed connects before their deferred release
    disconnecting: set<Id>,  // sessions between the sections of disconnectSession
    issued: set<Id>,         // ids the manager handed out
    handled: set<Id>,        // ids whose session:closed was handled
    ops: multiset<Id>,       // tool operations in flight
    nextGen: nat,            // reaper generations made
    toClose: multiset<nat>,  // generations detached by a call that has not closed them yet
    stops: multiset<nat>,    // closes of each stop channel
    joining: multiset<nat>,  // generations whose detacher waits for the loop
    looping: set<nat>,       // reap loops that run
    holder: Option<nat>,     // the DisposeAll that holds reapMu between its gate and its detach
    disposers: map<nat, Disposer>,
    disposed: bool           // some DisposeAll has returned
  )

  datatype Event =
    | Reserves | DialFails | Issues(id: Id) | Arrives(id: Id, now: int)
    | Marks(id: Id) | Unmarks(id: Id) | Releases
    | SessionClosed(id: Id)
    | Disconnects(id: Id) | DisconnectEnds(id: Id)
    | Begins(id: Id, now: int) | Ends(id: Id, now: int)
    | Reaps(now: int)
    | Starts | Detaches | Closes(gen: nat) | LoopExits(gen: nat) | Joins(gen: nat)
    | Gates(d: nat) | GateDetaches(d: nat) | DisposesNext(d: nat) | DisposeReturns(d: nat)

  predicate Joined(s: State, waits: Option<nat>) {
    waits.Some? ==> waits.value !in s.toClose && waits.value !in s.joining
  }

  /** When a section may run: the manager's ids are fresh and each is closed at most once. */
  predicate Enabled(s: State, e: Event) {
    match e
    case Reserves => true
    case DialFails => s.dialing > 0
    case Issues(id) => s.dialing > 0 && id !in s.issued
    case Arrives(id, _) => id in s.arriving
    case Marks(id) => id in s.refused
    case Unmarks(id) => id in s.discarding
    case Releases => s.releasing > 0
    case SessionClosed(id) => id in s.issued && id !in s.handled
    case Disconnects(_) => true
    case DisconnectEnds(id) => id in s.disconnecting
    case Begins(_, _) => true
    case Ends(id, _) => id in s.ops
    case Reaps(_) => true
    case Starts => s.holder.None?
    case Detaches => s.holder.None?
    case Closes(g) => g in s.toClose
    case LoopExits(g) => g in s.looping && g in s.stops
    case Joins(g) => g in s.joining && g !in s.looping
    case Gates(d) => s.holder.None? && d !in s.disposers
    case GateDetaches(d) => s.holder == Some(d) && d in s.disposers
    case DisposesNext(d) =>
      s.holder != Some(d) && d in s.disposers && Joined(s, s.disposers[d].waits) && s.disposers[d].todo != []
    case DisposeReturns(d) =>
      s.holder != Some(d) && d in s.disposers && Joined(s, s.disposers[d].waits) && s.disposers[d].todo == []
  }

  function Owning(gen: Option<nat>): multiset<nat> {
    if gen.Some? then multiset{gen.value} else multiset{}
  }

  function Step(cfg: Config, s: State, e: Event): State
    requires Enabled(s, e)
  {
    match e
    case Reserves =>
      s.(sh := Reserve(cfg, s.sh), dialing := if HasSlot(cfg, s.sh) then s.dialing + 1 else s.dialing)
    case DialFails => s.(dialing := s.dialing - 1, releasing := s.releasing + 1)
    case Issues(id) => s.(dialing := s.dialing - 1, arriving := s.arriving + {id}, issued := s.issued + {id})
    case Arrives(id, now) =>
      s.(sh := Arrive(s.sh, id, now), arriving := s.arriving - {id},
         refused := if Inserts(s.sh, id) then s.refused else s.refused + {id})
    case Marks(id) => s.(sh := Mark(s.sh, id), refused := s.refused - {id}, discarding := s.discarding + {id})
    case Unmarks(id) =>
      s.(sh := Unmark(s.sh, id), discarding := s.discarding - {id}, releasing := s.releasing + 1)
    case Releases => s.(sh := Release(s.sh), releasing := s.releasing - 1)
    case SessionClosed(id) => s.(sh := OnClosed(s.sh, id), handled := s.handled + {id})
    case Disconnects(id) =>
      s.(sh := Disconnect(s.sh, id), disconnecting := if id in s.sh.meta then s.disconnecting + {id} else s.disconnecting)
    case DisconnectEnds(id) => s.(sh := Unmark(s.sh, id), disconnecting := s.disconnecting - {id})
    case Begins(id, now) =>
      s.(sh := Begin(s.sh, id, now), ops := if CanBegin(s.sh, id) then s.ops + multiset{id} else s.ops)
    case Ends(id, now) => s.(sh := Done(s.sh, id, now), ops := s.ops - multiset{id})
    case Reaps(now) => s.(sh := Reaped(cfg, s.sh, now))
    case Starts =>
      if s.sh.reap.Some? || s.sh.closed then s
      else s.(sh := s.sh.(reap := Some(s.nextGen)), nextGen := s.nextGen + 1, looping := s.looping + {s.nextGen})
    case Detaches => s.(sh := s.sh.(reap := None), toClose := s.toClose + Owning(s.sh.reap))
    case Closes(g) =>
      s.(toClose := s.toClose - multiset{g}, stops := s.stops + multiset{g}, joining := s.joining + multiset{g})
    case LoopExits(g) => s.(looping := s.looping - {g})
    case Joins(g) => s.(joining := s.joining - multiset{g})
    case Gates(d) =>
      s.(sh := s.sh.(closed := true), holder := Some(d), disposers := s.disposers[d := Disposer(s.sh.order, None)])
    case GateDetaches(d) =>
      s.(sh := s.sh.(reap := None), toClose := s.toClose + Owning(s.sh.reap), holder := None,
         disposers := s.disposers[d := s.disposers[d].(waits := s.sh.reap)])
    case DisposesNext(d) =>
      var id := s.disposers[d].todo[0];
      s.(sh := Disconnect(s.sh, id), disconnecting := if id in s.sh.meta then s.disconnecting + {id} else s.disconnecting,
         disposers := s.disposers[d := s.disposers[d].(todo := s.disposers[d].todo[1..])])
    case DisposeReturns(d) => s.(disposers := s.disposers - {d}, disposed := true)
  }

  ghost predicate Possible(cfg: Config, s: State, events: seq<Event>)
    decreases |events|
  {
    events == [] || (Enabled(s, events[0]) && Possible(cfg, Step(cfg, s, events[0]), events[1..]))
  }

  function Run(cfg: Config, s: State, events: seq<Event>): State
    requires Possible(cfg, s, events)
    decreases |events|
  {
    if events == [] then s else Run(cfg, Step(cfg, s, events[0]), events[1..])
  }

  function Initial(): State {
    State(Shared(map[], [], 0, false, {}, {}, None), 0, {}, {}, {}, 0, {}, {}, {}, multiset{},
          0, multiset{}, multiset{}, multiset{}, {}, None, map[], false)
  }

  // ---------------------------------------------------------------- the invariant

  /** order lists the registered sessions, each once. */
  ghost predicate Listed(sh: Shared) {
    Distinct(sh.order) && forall id :: id in sh.order <==> id in sh.meta
  }

  /** Every slot is accounted for and the limit holds. */
  ghost predicate Slots(cfg: Config, s: State) {
    && s.sh.pending == s.dialing + |s.arriving| + |s.refused| + |s.discarding| + s.releasing
    && |s.sh.meta| + s.sh.pending <= cfg.maxSess
  }

  /** One session is in one place of its life, and only ids that were handed out are anywhere. */
  ghost predicate PlacedAt(s: State, id: Id) {
    && (id !in s.issued ==>
          && id !in s.arriving && id !in s.refused && id !in s.discarding && id !in s.disconnecting
          && id !in s.handled && id !in s.sh.meta && id !in s.ops)
    && (id in s.arriving ==>
          id !in s.sh.meta && id !in s.ops && id !in s.refused && id !in s.discarding && id !in s.disconnecting)
    && (id in s.refused ==> id !in s.discarding)
    && (id in s.refused || id in s.discarding || id in s.disconnecting || id in s.sh.localClosing ==> id !in s.sh.meta)
    && (id in s.sh.localClosing ==> id in s.discarding || id in s.disconnecting)
  }

  ghost predicate Placed(s: State) {
    forall id :: PlacedAt(s, id)
  }

  /** No phantom: a session whose close was handled is gone, and is not let in if it still arrives. */
  ghost predicate NoPhantom(s: State) {
    forall id :: id in s.handled ==> id !in s.sh.meta && (id in s.arriving ==> id in s.sh.tombstones)
  }

  /** busyCount is the number of operations in flight; a session picked by the reaper has none. */
  ghost predicate BusyAt(s: State, id: Id) {
    id in s.sh.meta ==> s.sh.meta[id].busy == s.ops[id] && (s.sh.meta[id].reaping ==> s.ops[id] == 0)
  }

  ghost predicate BusyExact(s: State) {
    forall id :: BusyAt(s, id)
  }

  /** The claims on one generation: as the current one, by calls that will close it, by closes. */
  ghost function Claims(s: State, g: nat): nat {
    s.toClose[g] + s.stops[g] + (if s.sh.reap == Some(g) then 1 else 0)
  }

  /** Each reaper generation is current, held by one call, or closed once. */
  ghost predicate Generations(s: State) {
    forall g: nat :: Claims(s, g) == if g < s.nextGen then 1 else 0
  }

  /** A running loop is the current one, or some call is stopping it. */
  ghost predicate LoopsOwned(s: State) {
    forall g :: g in s.looping ==> s.sh.reap == Some(g) || g in s.toClose || g in s.joining
  }

  /** A call waits only for loops whose stop channel is closed. */
  ghost predicate JoinsStopped(s: State) {
    forall g :: s.joining[g] <= s.stops[g]
  }

  /** Behind the gate there is no current reaper. */
  ghost predicate Gate(s: State) {
    && (s.disposed || s.disposers != map[] ==> s.sh.closed)
    && (s.sh.closed && s.holder.None? ==> s.sh.reap.None?)
    && (s.holder.Some? ==> s.holder.value in s.disposers)
    && (s.disposed ==> s.sh.reap.None?)
    && (forall d :: d in s.disposers && s.holder != Some(d) ==> s.sh.reap.None?)
  }

  /** Nothing is registered that a DisposeAll in flight will not disconnect, and nothing after one returned. */
  ghost predicate TodoCovers(s: State) {
    && (forall d, id :: d in s.disposers && id in s.sh.meta ==> id in s.disposers[d].todo)
    && (s.disposed ==> s.sh.meta == map[])
  }

  ghost predicate Inv(cfg: Config, s: State) {
    && Listed(s.sh) && Slots(cfg, s) && Placed(s) && NoPhantom(s)
    && BusyExact(s) && Generations(s) && LoopsOwned(s) && JoinsStopped(s) && Gate(s) && TodoCovers(s)
  }

  // ---------------------------------------------------------------- each section keeps it

  lemma {:induction false} WithoutIs(order: seq<Id>, id: Id)
    requires Distinct(order)
    ensures Distinct(Without(order, id))
    ensures forall x :: x in Without(order, id) <==> x in order && x != id
  {
    if order != [] {
      assert Distinct(order[1..]);
      assert order == [order[0]] + order[1..];
      assert order[0] !in order[1..] by {
        assert forall j :: 0 <= j < |order| - 1 ==> order[1..][j] == order[j + 1];
      }
      WithoutIs(order[1..], id);
    }
  }

  lemma ListedFrame(a: Shared, b: Shared)
    requires Listed(a) && a.order == b.order && a.meta.Keys == b.meta.Keys
    ensures Listed(b)
  {
    assert forall id :: id in a.meta <==> id in a.meta.Keys;
    assert forall id :: id in b.meta <==> id in b.meta.Keys;
  }

  lemma ArriveListed(sh: Shared, id: Id, now: int)
    requires Listed(sh) && id !in sh.meta
    ensures Listed(Arrive(sh, id, now))
  {
  }

  lemma OnClosedListed(sh: Shared, id: Id)
    requires Listed(sh)
    ensures Listed(OnClosed(sh, id))
  {
    WithoutIs(sh.order, id);
  }

  lemma DisconnectListed(sh: Shared, id: Id)
    requires Listed(sh)
    ensures Listed(Disconnect(sh, id))
  {
    WithoutIs(sh.order, id);
  }

  predicate MovesSessions(e: Event) {
    e.Arrives? || e.SessionClosed? || e.Disconnects? || e.DisposesNext?
  }

  predicate OfTools(e: Event) {
    e.Begins? || e.Ends? || e.Reaps?
  }

  lemma SectionKeys(sh: Shared, id: Id, now: int)
    ensures Begin(sh, id, now).order == sh.order && Begin(sh, id, now).meta.Keys == sh.meta.Keys
    ensures Done(sh, id, now).order == sh.order && Done(sh, id, now).meta.Keys == sh.meta.Keys
  {
  }

  lemma ToolKeys(cfg: Config, s: State, e: Event)
    requires Enabled(s, e) && OfTools(e)
    ensures Step(cfg, s, e).sh.order == s.sh.order && Step(cfg, s, e).sh.meta.Keys == s.sh.meta.Keys
  {
    hide Reaped, Begin, Done;
    match e
    case Reaps(now) => ReapedFrame(cfg, s.sh, now);
    case Begins(id, now) => SectionKeys(s.sh, id, now);
    case Ends(id, now) => SectionKeys(s.sh, id, now);
  }

  lemma OtherKeys(cfg: Config, s: State, e: Event)
    requires Enabled(s, e) && !OfTools(e) && !MovesSessions(e)
    ensures var t := Step(cfg, s, e).sh;
      t == Shared(s.sh.meta, s.sh.order, t.pending, t.closed, t.tombstones, t.localClosing, t.reap)
  {
    match e
    case Reserves =>
    case DialFails =>
    case Issues(_) =>
    case Marks(_) =>
    case Unmarks(_) =>
    case Releases =>
    case DisconnectEnds(_) =>
    case Starts =>
    case Detaches =>
    case Closes(_) =>
    case LoopExits(_) =>
    case Joins(_) =>
    case Gates(_) =>
    case GateDetaches(_) =>
    case DisposeReturns(_) =>
  }

  lemma KeysFrame(cfg: Config, s: State, e: Event)
    requires Enabled(s, e) && !MovesSessions(e)
    ensures Step(cfg, s, e).sh.order == s.sh.order && Step(cfg, s, e).sh.meta.Keys == s.sh.meta.Keys
  {
    hide Step, Enabled;
    if OfTools(e) {
      ToolKeys(cfg, s, e);
    } else {
      OtherKeys(cfg, s, e);
    }
  }

  lemma ListedKept(cfg: Config, s: State, e: Event)
    requires Listed(s.sh) && Placed(s) && Enabled(s, e)
    ensures Listed(Step(cfg, s, e).sh)
  {
    if MovesSessions(e) {
      MoveListed(cfg, s, e);
    } else {
      hide Step, Enabled;
      KeysFrame(cfg, s, e);
      ListedFrame(s.sh, Step(cfg, s, e).sh);
    }
  }

  lemma MoveListed(cfg: Config, s: State, e: Event)
    requires Listed(s.sh) && Placed(s) && Enabled(s, e) && MovesSessions(e)
    ensures Listed(Step(cfg, s, e).sh)
  {
    hide Listed, OnClosed, Disconnect, Arrive;
    match e
    case Arrives(id, now) =>
      assert PlacedAt(s, id);
      ArriveListed(s.sh, id, now);
    case SessionClosed(id) => OnClosedListed(s.sh, id);
    case Disconnects(id) => DisconnectListed(s.sh, id);
    case DisposesNext(d) => DisconnectListed(s.sh, s.disposers[d].todo[0]);
  }

  lemma ReapedFrame(cfg: Config, sh: Shared, now: int)
    ensures Reaped(cfg, sh, now).meta.Keys == sh.meta.Keys
    ensures Reaped(cfg, sh, now).order == sh.order && Reaped(cfg, sh, now).pending == sh.pending
  {
  }

  lemma SubsetSize<T>(a: set<T>, b: set<T>)
    requires a <= b
    ensures |a| <= |b|
  {
    assert b == a + (b - a);
  }

  lemma DropSize(sh: Shared, id: Id)
    ensures |Drop(sh, id).meta| <= |sh.meta| && Drop(sh, id).pending == sh.pending
  {
    assert Drop(sh, id).meta.Keys <= sh.meta.Keys;
    SubsetSize(Drop(sh, id).meta.Keys, sh.meta.Keys);
  }

  lemma SameKeys(a: map<Id, Meta>, b: map<Id, Meta>)
    requires a.Keys == b.Keys
    ensures |a| == |b|
  {
    assert |a| == |a.Keys| && |b| == |b.Keys|;
  }

  lemma Moves(a: set<Id>, b: set<Id>, id: Id)
    requires id in a && id !in b
    ensures |a - {id}| == |a| - 1 && |b + {id}| == |b| + 1
  {
  }

  /** The sessions on their way through a connect keep their slot until it is released or used. */
  lemma ConnectKeepsSlots(cfg: Config, s: State, e: Event)
    requires Slots(cfg, s) && Placed(s) && Enabled(s, e)
    requires e.Issues? || e.Arrives? || e.Marks? || e.Unmarks?
    ensures Slots(cfg, Step(cfg, s, e))
  {
    var id := e.id;
    assert PlacedAt(s, id);
    match e
    case Issues(_) => Moves({id}, s.arriving, id);
    case Arrives(_, now) => Moves(s.arriving, s.refused, id);
    case Marks(_) => Moves(s.refused, s.discarding, id);
    case Unmarks(_) => Moves(s.discarding, s.discarding - {id}, id);
  }

  lemma SlotsKept(cfg: Config, s: State, e: Event)
    requires Slots(cfg, s) && Placed(s) && Enabled(s, e)
    ensures Slots(cfg, Step(cfg, s, e))
  {
    hide Drop, PlacedAt, Reaped;
    if e.Issues? || e.Arrives? || e.Marks? || e.Unmarks? {
      ConnectKeepsSlots(cfg, s, e);
    } else {
      match e
      case SessionClosed(id) => DropSize(Unmark(s.sh, id), id);
      case Disconnects(id) => DropSize(s.sh, id);
      case DisposesNext(d) => DropSize(s.sh, s.disposers[d].todo[0]);
      case Reaps(now) =>
        ReapedFrame(cfg, s.sh, now);
        SameKeys(s.sh.meta, Reaped(cfg, s.sh, now).meta);
      case _ =>
    }
  }

  lemma PlacedKept(cfg: Config, s: State, e: Event)
    requires Placed(s) && Enabled(s, e)
    ensures Placed(Step(cfg, s, e))
  {
    forall id ensures PlacedAt(Step(cfg, s, e), id) {
      assert PlacedAt(s, id);
    }
  }

  lemma NoPhantomKept(cfg: Config, s: State, e: Event)
    requires NoPhantom(s) && Placed(s) && Enabled(s, e)
    ensures NoPhantom(Step(cfg, s, e))
  {
    forall id | id in Step(cfg, s, e).handled
      ensures id !in Step(cfg, s, e).sh.meta && (id in Step(cfg, s, e).arriving ==> id in Step(cfg, s, e).sh.tombstones)
    {
      assert PlacedAt(s, id);
    }
  }

  lemma ToolsKeepBusy(cfg: Config, s: State, e: Event, id: Id)
    requires BusyAt(s, id) && Enabled(s, e) && OfTools(e)
    ensures BusyAt(Step(cfg, s, e), id)
  {
  }

  lemma OthersKeepBusy(cfg: Config, s: State, e: Event, id: Id)
    requires BusyAt(s, id) && PlacedAt(s, id) && Enabled(s, e) && !OfTools(e)
    ensures BusyAt(Step(cfg, s, e), id)
  {
  }

  lemma BusyExactKept(cfg: Config, s: State, e: Event)
    requires BusyExact(s) && Placed(s) && Enabled(s, e)
    ensures BusyExact(Step(cfg, s, e))
  {
    hide Step, Enabled, PlacedAt;
    forall id ensures BusyAt(Step(cfg, s, e), id) {
      assert PlacedAt(s, id) && BusyAt(s, id);
      if OfTools(e) {
        ToolsKeepBusy(cfg, s, e, id);
      } else {
        OthersKeepBusy(cfg, s, e, id);
      }
    }
  }

  predicate OfReaper(e: Event) {
    e.Starts? || e.Detaches? || e.Closes? || e.LoopExits? || e.Joins? || e.GateDetaches?
  }

  lemma ReaperFrame(cfg: Config, s: State, e: Event)
    requires Enabled(s, e) && !OfReaper(e)
    ensures var t := Step(cfg, s, e);
      (t.sh.reap, t.nextGen, t.toClose, t.stops, t.joining, t.looping)
      == (s.sh.reap, s.nextGen, s.toClose, s.stops, s.joining, s.looping)
  {
  }

  lemma GenerationsKept(cfg: Config, s: State, e: Event)
    requires Generations(s) && Enabled(s, e)
    ensures Generations(Step(cfg, s, e))
  {
    hide Step, Enabled;
    if !OfReaper(e) {
      ReaperFrame(cfg, s, e);
    }
    forall g: nat ensures Claims(Step(cfg, s, e), g) == if g < Step(cfg, s, e).nextGen then 1 else 0 {
      assert Claims(s, g) == if g < s.nextGen then 1 else 0;
      if OfReaper(e) {
        ReaperClaims(cfg, s, e, g);
      }
    }
  }

  lemma ReaperClaims(cfg: Config, s: State, e: Event, g: nat)
    requires Enabled(s, e) && OfReaper(e)
    requires Claims(s, g) == if g < s.nextGen then 1 else 0
    ensures Claims(Step(cfg, s, e), g) == if g < Step(cfg, s, e).nextGen then 1 else 0
  {
  }

  lemma LoopsOwnedKept(cfg: Config, s: State, e: Event)
    requires LoopsOwned(s) && Enabled(s, e)
    ensures LoopsOwned(Step(cfg, s, e))
  {
    hide Step, Enabled;
    if OfReaper(e) {
      ReaperLoops(cfg, s, e);
    } else {
      ReaperFrame(cfg, s, e);
    }
  }

  lemma JoinsStoppedKept(cfg: Config, s: State, e: Event)
    requires JoinsStopped(s) && Enabled(s, e)
    ensures JoinsStopped(Step(cfg, s, e))
  {
    if OfReaper(e) {
      ReaperJoins(cfg, s, e);
    } else {
      hide Step, Enabled;
      ReaperFrame(cfg, s, e);
    }
  }

  lemma ReaperJoins(cfg: Config, s: State, e: Event)
    requires JoinsStopped(s) && Enabled(s, e) && OfReaper(e)
    ensures JoinsStopped(Step(cfg, s, e))
  {
  }

  lemma ReaperLoops(cfg: Config, s: State, e: Event)
    requires LoopsOwned(s) && Enabled(s, e) && OfReaper(e)
    ensures LoopsOwned(Step(cfg, s, e))
  {
    var t := Step(cfg, s, e);
    forall g | g in t.looping ensures t.sh.reap == Some(g) || g in t.toClose || g in t.joining {
      LoopOwner(cfg, s, e, g);
    }
  }

  lemma LoopOwner(cfg: Config, s: State, e: Event, g: nat)
    requires Enabled(s, e) && OfReaper(e) && g in Step(cfg, s, e).looping
    requires g in s.looping ==> s.sh.reap == Some(g) || g in s.toClose || g in s.joining
    ensures var t := Step(cfg, s, e); t.sh.reap == Some(g) || g in t.toClose || g in t.joining
  {
  }

  /** Once the gate is closed no section registers a session. */
  lemma ClosedOnlyShrinks(cfg: Config, s: State, e: Event)
    requires s.sh.closed && Enabled(s, e)
    ensures Step(cfg, s, e).sh.closed && Step(cfg, s, e).sh.meta.Keys <= s.sh.meta.Keys
  {
    if !MovesSessions(e) {
      KeysFrame(cfg, s, e);
    }
  }

  predicate OfShutdown(e: Event) {
    e.Starts? || e.Detaches? || e.Gates? || e.GateDetaches? || e.DisposesNext? || e.DisposeReturns?
  }

  lemma GateFrame(cfg: Config, s: State, e: Event)
    requires Enabled(s, e) && !OfShutdown(e)
    ensures var t := Step(cfg, s, e);
      (t.sh.closed, t.sh.reap, t.holder, t.disposers, t.disposed)
      == (s.sh.closed, s.sh.reap, s.holder, s.disposers, s.disposed)
  {
  }

  lemma DetachKeepsGate(cfg: Config, s: State, e: Event)
    requires Gate(s) && Enabled(s, e) && (e.Starts? || e.Detaches? || e.GateDetaches?)
    ensures Gate(Step(cfg, s, e))
  {
  }

  lemma DisposeKeepsGate(cfg: Config, s: State, e: Event)
    requires Gate(s) && Enabled(s, e) && (e.Gates? || e.DisposesNext? || e.DisposeReturns?)
    ensures Gate(Step(cfg, s, e))
  {
  }

  lemma GateKept(cfg: Config, s: State, e: Event)
    requires Gate(s) && Enabled(s, e)
    ensures Gate(Step(cfg, s, e))
  {
    hide Step, Enabled;
    if OfShutdown(e) {
      if e.Starts? || e.Detaches? || e.GateDetaches? {
        DetachKeepsGate(cfg, s, e);
      } else {
        DisposeKeepsGate(cfg, s, e);
      }
    } else {
      GateFrame(cfg, s, e);
    }
  }

  lemma TodoKept(cfg: Config, s: State, e: Event)
    requires TodoCovers(s) && Gate(s) && Listed(s.sh) && Enabled(s, e)
    ensures TodoCovers(Step(cfg, s, e))
  {
    var t := Step(cfg, s, e);
    forall d, id | d in t.disposers && id in t.sh.meta ensures id in t.disposers[d].todo {
      if s.sh.closed {
        assert id in s.sh.meta by { ClosedOnlyShrinks(cfg, s, e); }
      }
      TodoKeptAt(cfg, s, e, d, id);
    }
    if s.disposed {
      ClosedOnlyShrinks(cfg, s, e);
    } else if t.disposed {
      assert e.DisposeReturns? && s.disposers[e.d].todo == [];
      assert t.sh.meta.Keys == {};
    }
  }

  lemma TodoKeptAt(cfg: Config, s: State, e: Event, d: nat, id: Id)
    requires Gate(s) && Enabled(s, e) && Listed(s.sh)
    requires d in Step(cfg, s, e).disposers && id in Step(cfg, s, e).sh.meta
    requires s.sh.closed ==> id in s.sh.meta
    requires d in s.disposers && id in s.sh.meta ==> id in s.disposers[d].todo
    ensures id in Step(cfg, s, e).disposers[d].todo
  {
    if e.DisposesNext? && e.d == d {
      var todo := s.disposers[d].todo;
      assert todo == [todo[0]] + todo[1..];
    }
  }

  lemma StepKeepsInv(cfg: Config, s: State, e: Event)
    requires Inv(cfg, s) && Enabled(s, e)
    ensures Inv(cfg, Step(cfg, s, e))
  {
    hide Step, Listed, Placed, Generations, LoopsOwned, JoinsStopped, BusyExact, NoPhantom, Slots, Gate, TodoCovers, Enabled;
    ListedKept(cfg, s, e);
    SlotsKept(cfg, s, e);
    PlacedKept(cfg, s, e);
    NoPhantomKept(cfg, s, e);
    BusyExactKept(cfg, s, e);
    GenerationsKept(cfg, s, e);
    LoopsOwnedKept(cfg, s, e);
    JoinsStoppedKept(cfg, s, e);
    GateKept(cfg, s, e);
    TodoKept(cfg, s, e);
  }

  lemma {:induction false} RunKeepsInv(cfg: Config, s: State, events: seq<Event>)
    requires Inv(cfg, s) && Possible(cfg, s, events)
    ensures Inv(cfg, Run(cfg, s, events))
    decreases |events|
  {
    hide Inv, Step, Enabled;
    if events != [] {
      StepKeepsInv(cfg, s, events[0]);
      RunKeepsInv(cfg, Step(cfg, s, events[0]), events[1..]);
    }
  }

  lemma InitialInv(cfg: Config)
    ensures Inv(cfg, Initial())
  {
  }

  /** A detached generation is closed by nobody yet, and nobody waits for it. */
  lemma OwnIsFresh(cfg: Config, s: State, own: nat)
    requires Inv(cfg, s) && own in s.toClose
    ensures s.toClose[own] == 1 && s.stops[own] == 0 && s.joining[own] == 0
  {
    hide Slots, Placed, BusyExact, Gate, TodoCovers, LoopsOwned, NoPhantom, Listed;
    assert Claims(s, own) == if own < s.nextGen then 1 else 0;
    assert s.joining[own] <= s.stops[own];
  }
}
