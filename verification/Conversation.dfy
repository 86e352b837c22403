/**
 The agent's conversations over their whole life: a prompt opens a run, the run
 compacts, appends what the model produced, closes what it left open and ends;
 Clear and Dispose may detach the conversation at any point of that.
 */
module Conversations {
  import opened Prelude
  import opened Transcript
  import opened Compaction

  /** How far the run of a conversation has come. */
  datatype Phase = Idle | Asked | Answered | Closed

  lemma TrimIsAnEnd(msgs: seq<Message>)
    ensures exists j :: 0 <= j <= |msgs| && Trimmed(msgs) == msgs[j..]
  {
    var newest := Newest(msgs);
    DropLeadingIsSuffix(newest);
    var k :| 0 <= k <= |newest| && DropLeadingTools(newest) == newest[k..];
    var from := |msgs| - |newest|;
    assert newest == msgs[from..] && newest[k..] == msgs[from + k..];
  }

  lemma TrimKeepsTheEnd(msgs: seq<Message>)
    ensures SystemFirst(msgs) ==> SystemFirst(Trimmed(msgs))
    ensures msgs != [] && msgs[|msgs| - 1].role != Tool ==> EndsLike(Trimmed(msgs), msgs)
  {
    TrimIsAnEnd(msgs);
    if msgs != [] && msgs[|msgs| - 1].role != Tool {
      DroppingStops(Newest(msgs));
    }
    hide Trimmed;
    var j :| 0 <= j <= |msgs| && Trimmed(msgs) == msgs[j..];
  }

  lemma {:induction false} DroppingStops(msgs: seq<Message>)
    requires msgs != [] && msgs[|msgs| - 1].role != Tool
    ensures DropLeadingTools(msgs) != []
  {
    if msgs[0].role == Tool {
      DroppingStops(msgs[1..]);
    }
  }

  function UserMessage(prompt: string): Message {
    Message(User, prompt, [], "")
  }

  /** A prompt stays at the end, and opens a run in good shape behind a transcript that is closed. */
  lemma PromptOpensARun(msgs: seq<Message>, prompt: string)
    ensures var r := Trimmed(msgs + [UserMessage(prompt)]);
      && EndsInPrompt(r) && EndsLike(r, [UserMessage(prompt)])
      && (WellFormed(msgs) && SystemFirst(msgs) ==> Prompted(r))
  {
    hide WellFormed, Trimmed;
    TrimCaps(msgs + [UserMessage(prompt)]);
    TrimKeepsTheEnd(msgs + [UserMessage(prompt)]);
    if WellFormed(msgs) && SystemFirst(msgs) {
      PlainFirst(UserMessage(prompt), []) by { NothingIsWellFormed(); }
      assert [UserMessage(prompt)] + [] == [UserMessage(prompt)];
      AppendWellFormed(msgs, [UserMessage(prompt)]);
      TrimKeepsShape(msgs + [UserMessage(prompt)]);
    }
  }

  lemma NothingIsWellFormed()
    ensures WellFormed([])
  {
  }

  /** What a run may produce without breaking the transcript: whole rounds, with at most the last one open. */
  ghost predicate Orderly(produced: seq<Message>) {
    Resumable(produced) && NoSystem(produced)
  }

  /** Appending never breaks the cap, and keeps the shape of a well-formed transcript if the run was orderly. */
  lemma AppendingStaysResumable(msgs: seq<Message>, produced: seq<Message>)
    ensures Capped(Trimmed(msgs + produced))
    ensures WellFormed(msgs) && SystemFirst(msgs) && Orderly(produced) ==>
              Resumable(Trimmed(msgs + produced)) && SystemFirst(Trimmed(msgs + produced))
  {
    hide WellFormed, Resumable, Trimmed;
    TrimCaps(msgs + produced);
    if WellFormed(msgs) && SystemFirst(msgs) && Orderly(produced) {
      AppendWellFormed(msgs, produced);
      TrimKeepsShape(msgs + produced);
      if msgs == [] {
        assert msgs + produced == produced;
      }
      assert forall i :: 0 <= i < |produced| ==> produced[i] in produced;
      TrimKeepsTheEnd(msgs + produced);
    }
  }

  /**
   A run on a prompted transcript, as far as the cap does not bite, is closed
   to a well-formed one exactly when what it produced is whole rounds with at
   most the last one open. The source does not check that.
   */
  lemma RunClosesExactlyWhen(msgs: seq<Message>, produced: seq<Message>)
    requires Prompted(msgs)
    requires |msgs + produced + Additions(msgs + produced)| <= MAX_HISTORY
    ensures WellFormed(Reconciled(Trimmed(msgs + produced))) <==> Resumable(produced)
  {
    hide WellFormed, Resumable, Additions, Trimmed;
    var all := msgs + produced;
    TrimCaps(all);
    TrimCaps(all + Additions(all));
    AppendWellFormed(msgs, produced);
    ClosesExactlyWhenResumable(all);
    if LastCalling(all) < 0 {
      NothingToAdd([], all);
      assert [] + all == all && all + [] == all;
    }
  }

  lemma ReconcilingKeepsSystemFirst(msgs: seq<Message>)
    requires SystemFirst(msgs)
    ensures SystemFirst(Reconciled(msgs))
  {
    hide LastCalling, MissingAnswers, AnsweredIds, Trimmed;
    var last := LastCalling(msgs);
    if last >= 0 {
      MissingIsTools(msgs[last].calls, AnsweredIds(msgs[last + 1..]));
      var more := Additions(msgs);
      assert forall i :: 0 <= i < |more| ==> more[i] in more;
      TrimKeepsTheEnd(msgs + more);
    }
  }

  lemma {:induction false} MissingIsTools(calls: seq<Call>, answered: set<string>)
    ensures AllTools(MissingAnswers(calls, answered))
  {
    if calls != [] {
      MissingIsTools(calls[1..], answered);
    }
  }

  /** The shape of the transcript at each point of a run, if the model kept the protocol so far. */
  ghost predicate InShape(phase: Phase, msgs: seq<Message>) {
    SystemFirst(msgs) && if phase == Answered then Resumable(msgs) else WellFormed(msgs)
  }

  class Conversation {
    var messages: seq<Message>
    var running: bool
    ghost var phase: Phase
    /** Every run so far produced whole rounds with at most the last one open. */
    ghost var orderly: bool

    ghost predicate Sound()
      reads this
    {
      && Capped(messages)
      && running == (phase != Idle)
      && (phase == Asked ==> EndsInPrompt(messages))
      && (phase in {Idle, Closed} ==> Additions(messages) == [])
      && (orderly ==> InShape(phase, messages))
    }

    constructor ()
      ensures Sound() && phase == Idle && messages == [] && orderly
    {
      messages, running, phase, orderly := [], false, Idle, true;
    }

    method Ask(prompt: string)
      requires Sound() && phase == Idle
      modifies this
      ensures Sound() && phase == Asked && orderly == old(orderly)
      ensures messages == Trimmed(old(messages) + [UserMessage(prompt)])
      ensures messages != [] && messages[|messages| - 1].role == User && messages[|messages| - 1].content == prompt
      ensures KeepsTheNewest(old(messages) + [messages[|messages| - 1]], messages)
    {
      hide WellFormed, SystemFirst, Trimmed, Additions, KeepsTheNewest;
      PromptOpensARun(messages, prompt);
      running := true;
      phase := Asked;
      messages := TrimHistory(messages + [UserMessage(prompt)]);
    }

    /** appendAll. */
    method AppendAll(produced: seq<Message>)
      requires Sound() && phase == Asked
      modifies this`messages, this`phase, this`orderly
      ensures Sound() && phase == Answered
      ensures messages == if produced == [] then old(messages) else Trimmed(old(messages) + produced)
      ensures orderly == (old(orderly) && Orderly(produced))
    {
      hide WellFormed, Resumable, SystemFirst, Trimmed, NoSystem, Additions;
      if orderly {
        WellFormedIsResumable(messages);
      }
      phase := Answered;
      if |produced| == 0 {
        NothingIsOrderly();
        return;
      }
      AppendingStaysResumable(messages, produced);
      orderly := orderly && Orderly(produced);
      messages := TrimHistory(messages + produced);
    }

    lemma NothingIsOrderly()
      ensures Orderly([])
    {
    }

    /** reconcile: whatever the run left, no call of the last round stays open. */
    method Reconcile()
      requires Sound() && phase == Answered
      modifies this`messages, this`phase
      ensures Sound() && phase == Closed
      ensures messages == Reconciled(old(messages))
      ensures old(WellFormed(messages)) ==> messages == old(messages)
    {
      hide WellFormed, Resumable, SystemFirst, Reconciled, Additions;
      ReconcileIsIdempotent(messages);
      LeavesSoundAlone(messages);
      if orderly {
        ReconcileCloses(messages);
        ReconcilingKeepsSystemFirst(messages);
      }
      phase := Closed;
      messages := Transcript.Reconcile(messages);
    }

    lemma LeavesSoundAlone(msgs: seq<Message>)
      requires Capped(msgs)
      ensures WellFormed(msgs) ==> Reconciled(msgs) == msgs
    {
      hide WellFormed;
      if WellFormed(msgs) {
        WellFormedIsResumable(msgs);
        ReconcileCloses(msgs);
      }
    }
  }

  class Agent {
    var convs: map<string, Conversation>
    var closed: bool
    /** Every conversation ever handed out, the detached ones included. */
    ghost var all: set<Conversation>

    ghost predicate Valid()
      reads this, all
    {
      && (forall id :: id in convs ==> convs[id] in all)
      && (forall a, b :: a in convs && b in convs && convs[a] == convs[b] ==> a == b)
      && (forall c :: c in all ==> c.Sound())
      && (closed ==> convs == map[])
    }

    constructor ()
      ensures Valid() && convs == map[] && !closed && all == {}
    {
      convs, closed, all := map[], false, {};
    }

    /** Prompt: refused during shutdown and while the conversation still runs. */
    method Prompt(id: string, prompt: string) returns (accepted: bool)
      requires Valid()
      modifies this, all
      ensures Valid() && old(all) <= all && fresh(all - old(all)) && closed == old(closed)
      ensures accepted <==> !closed && (id in old(convs) ==> !old(convs[id].running))
      ensures !accepted ==> convs == old(convs) && forall c :: c in old(all) ==> unchanged(c)
      ensures accepted ==>
        && id in convs && convs[id].phase == Asked && convs == old(convs)[id := convs[id]]
        && (id in old(convs) ==> convs[id] == old(convs[id]))
        && convs[id].messages != [] && convs[id].messages[|convs[id].messages| - 1].content == prompt
        && convs[id].messages == Trimmed((if id in old(convs) then old(convs[id].messages) else []) + [UserMessage(prompt)])
        && (forall c :: c in old(all) && c != convs[id] ==> unchanged(c))
    {
      hide WellFormed, Resumable, SystemFirst, Trimmed, Prompted, KeepsTheNewest, Additions, InShape, Capped, EndsInPrompt;
      accepted := false;
      if closed {
        return;
      }
      if id !in convs {
        var c := new Conversation();
        convs := convs[id := c];
        all := all + {c};
      }
      if convs[id].running {
        return;
      }
      convs[id].Ask(prompt);
      accepted := true;
    }

    /** prepareContext, whose summary is never empty: the compaction is written back only to a conversation that is still attached. */
    method PrepareContext(id: string, c: Conversation, over: seq<Message> -> bool, summary: seq<Message> -> string)
      requires Valid() && c in all && c.phase == Asked
      modifies c
      ensures Valid() && c.phase == Asked && unchanged(this)
      ensures c.messages == if over(old(c.messages)) && id in convs && convs[id] == c
                            then Compacted(old(c.messages), over, summary) else old(c.messages)
      ensures EndsLike(c.messages, old(c.messages))
    {
      hide WellFormed, Resumable, SystemFirst, Compacted, Additions;
      var history := c.messages;
      if !over(history) {
        return;
      }
      CompactionIsSound(history, over, summary);
      var compressed := Compress(history, over, summary);
      if id in convs && convs[id] == c {
        c.messages := compressed;
      }
    }

    /**
     The end of a run: appendAll, reconcile, and the release of an attached
     conversation. Whatever the run produced, the transcript is capped, starts
     with no orphan result and has no open call in its last round; it is well
     formed if this run and those before it were orderly.
     */
    method FinishRun(id: string, c: Conversation, produced: seq<Message>)
      requires Valid() && c in all && c.phase == Asked
      modifies c
      ensures Valid() && unchanged(this)
      ensures c.messages == Reconciled(if produced == [] then old(c.messages) else Trimmed(old(c.messages) + produced))
      ensures Capped(c.messages) && Additions(c.messages) == []
      ensures c.orderly == (old(c.orderly) && Orderly(produced))
      ensures c.orderly ==> WellFormed(c.messages)
      ensures c.running <==> !(id in convs && convs[id] == c)
    {
      hide WellFormed, Resumable, SystemFirst, Reconciled, Trimmed, Additions, Orderly;
      c.AppendAll(produced);
      c.Reconcile();
      if id in convs && convs[id] == c {
        c.running := false;
        c.phase := Idle;
      }
    }

    /** Clear detaches the conversation: whatever its run still writes, the session starts empty. */
    method Clear(id: string)
      requires Valid()
      modifies this
      ensures Valid() && closed == old(closed) && old(all) <= all && fresh(all - old(all))
      ensures id !in old(convs) ==> convs == old(convs)
      ensures id in old(convs) ==>
        && convs.Keys == old(convs.Keys) && fresh(convs[id])
        && convs[id].messages == [] && !convs[id].running
        && (forall other :: other in convs && other != id ==> convs[other] == old(convs[other]))
    {
      if id !in convs {
        return;
      }
      var c := new Conversation();
      convs := convs[id := c];
      all := all + {c};
    }

    method Dispose(id: string)
      requires Valid()
      modifies this
      ensures Valid() && closed == old(closed) && all == old(all)
      ensures convs == old(convs) - {id}
    {
      convs := convs - {id};
    }

    /** After DisposeAll every prompt is refused: Valid keeps convs empty once closed. */
    method DisposeAll()
      requires Valid()
      modifies this
      ensures Valid() && closed && convs == map[] && all == old(all)
    {
      closed := true;
      convs := map[];
    }
  }
}
