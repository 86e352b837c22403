/**
 The agent's transcript: which message sequences the provider accepts, and the
 operations that cap it and close it after a run.
 */
module Transcript {
  import opened Prelude

  const MAX_HISTORY := 40

  datatype Role = System | User | Assistant | Tool
  datatype Call = Call(id: string, name: string, arguments: string)
  datatype Message = Message(role: Role, content: string, calls: seq<Call>, callId: string)

  predicate Calling(m: Message) {
    m.role == Assistant && m.calls != []
  }

  /** A message that neither calls nor answers a tool. */
  predicate Plain(m: Message) {
    m.role != Tool && m.calls == []
  }

  predicate AllTools(msgs: seq<Message>) {
    forall m :: m in msgs ==> m.role == Tool
  }

  function CallIds(calls: seq<Call>): seq<string> {
    seq(|calls|, i requires 0 <= i < |calls| => calls[i].id)
  }

  function AnswerIds(msgs: seq<Message>): seq<string> {
    seq(|msgs|, i requires 0 <= i < |msgs| => msgs[i].callId)
  }

  /** The results answer calls of m, each call at most once. */
  ghost predicate PartlyAnswers(m: Message, results: seq<Message>) {
    && Calling(m)
    && Distinct(CallIds(m.calls))
    && AllTools(results)
    && multiset(AnswerIds(results)) <= multiset(CallIds(m.calls))
  }

  /** The results answer every call of m exactly once. */
  ghost predicate Answers(m: Message, results: seq<Message>) {
    PartlyAnswers(m, results) && |results| == |m.calls|
  }

  /** The transcript starts with a complete round. */
  ghost predicate RoundFirst(msgs: seq<Message>): (r: bool)
    ensures r ==> msgs != [] && 0 < |msgs[0].calls| < |msgs|
  {
    && msgs != []
    && 0 < |msgs[0].calls| < |msgs|
    && Answers(msgs[0], msgs[1..|msgs[0].calls| + 1])
  }

  function AfterRound(msgs: seq<Message>): seq<Message>
    requires msgs != [] && |msgs[0].calls| < |msgs|
  {
    msgs[|msgs[0].calls| + 1..]
  }

  /** Plain messages and complete tool rounds: what the provider accepts. */
  ghost predicate WellFormed(msgs: seq<Message>)
    decreases |msgs|
  {
    || msgs == []
    || (Plain(msgs[0]) && WellFormed(msgs[1..]))
    || (RoundFirst(msgs) && WellFormed(AfterRound(msgs)))
  }

  /** Well-formed except that the last round may still miss answers: a run that was stopped. */
  ghost predicate Resumable(msgs: seq<Message>)
    decreases |msgs|
  {
    || msgs == []
    || (Plain(msgs[0]) && Resumable(msgs[1..]))
    || (RoundFirst(msgs) && Resumable(AfterRound(msgs)))
    || PartlyAnswers(msgs[0], msgs[1..])
  }

  lemma RoundIsTools(msgs: seq<Message>)
    requires RoundFirst(msgs)
    ensures Calling(msgs[0]) && !Plain(msgs[0])
    ensures forall i :: 1 <= i <= |msgs[0].calls| ==> msgs[i].role == Tool
  {
    var results := msgs[1..|msgs[0].calls| + 1];
    forall i | 1 <= i <= |msgs[0].calls| ensures msgs[i].role == Tool {
      assert msgs[i] == results[i - 1];
    }
  }

  lemma OpenRoundIsTools(msgs: seq<Message>)
    requires msgs != [] && PartlyAnswers(msgs[0], msgs[1..])
    ensures Calling(msgs[0]) && !Plain(msgs[0])
    ensures forall i :: 1 <= i < |msgs| ==> msgs[i].role == Tool
  {
    forall i | 1 <= i < |msgs| ensures msgs[i].role == Tool {
      assert msgs[i] == msgs[1..][i - 1];
    }
  }

  lemma {:induction false} WellFormedIsResumable(msgs: seq<Message>)
    requires WellFormed(msgs)
    ensures Resumable(msgs)
    decreases |msgs|
  {
    hide RoundFirst;
    if msgs != [] {
      if Plain(msgs[0]) && WellFormed(msgs[1..]) {
        WellFormedIsResumable(msgs[1..]);
      } else {
        WellFormedIsResumable(AfterRound(msgs));
      }
    }
  }

  lemma RoundFirstExtends(a: seq<Message>, b: seq<Message>)
    requires RoundFirst(a)
    ensures RoundFirst(a + b) && AfterRound(a + b) == AfterRound(a) + b
  {
    var n := |a[0].calls|;
    assert (a + b)[1..n + 1] == a[1..n + 1];
  }

  lemma {:induction false} AppendWellFormed(a: seq<Message>, b: seq<Message>)
    requires WellFormed(a)
    ensures WellFormed(a + b) <==> WellFormed(b)
    ensures Resumable(a + b) <==> Resumable(b)
    decreases |a|
  {
    hide RoundFirst, PartlyAnswers;
    if a == [] {
      assert a + b == b;
    } else if Plain(a[0]) && WellFormed(a[1..]) {
      assert (a + b)[1..] == a[1..] + b;
      AppendWellFormed(a[1..], b);
      PlainOpensNothing(a + b);
    } else {
      RoundFirstExtends(a, b);
      AppendWellFormed(AfterRound(a), b);
      RoundIsTools(a + b);
      if PartlyAnswers((a + b)[0], (a + b)[1..]) {
        FullRoundTakesNoMore(a + b);
        assert AfterRound(a) + b == [];
        assert b == [] == AfterRound(a);
      }
    }
  }

  lemma PlainOpensNothing(msgs: seq<Message>)
    requires msgs != [] && Plain(msgs[0])
    ensures !RoundFirst(msgs) && !PartlyAnswers(msgs[0], msgs[1..])
  {
  }

  lemma FullRoundTakesNoMore(msgs: seq<Message>)
    requires RoundFirst(msgs) && PartlyAnswers(msgs[0], msgs[1..])
    ensures AfterRound(msgs) == []
  {
    var ids := AnswerIds(msgs[1..]);
    assert |multiset(ids)| == |ids| == |msgs| - 1;
    assert |multiset(CallIds(msgs[0].calls))| == |msgs[0].calls|;
    SmallerOrEqual(multiset(ids), multiset(CallIds(msgs[0].calls)));
  }

  lemma SmallerOrEqual<T>(a: multiset<T>, b: multiset<T>)
    requires a <= b
    ensures |a| <= |b|
  {
    assert b == a + (b - a);
  }

  /** A beginning of a well-formed transcript leaves at most its last round open. */
  lemma {:induction false} PrefixIsResumable(a: seq<Message>, b: seq<Message>)
    requires WellFormed(a + b)
    ensures Resumable(a)
    decreases |a|
  {
    hide RoundFirst, PartlyAnswers;
    if a != [] {
      var all := a + b;
      if Plain(a[0]) && WellFormed(all[1..]) {
        assert all[1..] == a[1..] + b;
        PrefixIsResumable(a[1..], b);
      } else if |a| > |a[0].calls| {
        assert a == all[..|a|];
        RoundFirstShrinks(all, |a|);
        assert AfterRound(all) == AfterRound(a) + b;
        PrefixIsResumable(AfterRound(a), b);
      } else {
        CutRoundIsOpen(all, |a|);
        assert all[..|a|] == a;
      }
    }
  }

  lemma CutRoundIsOpen(msgs: seq<Message>, k: nat)
    requires RoundFirst(msgs) && 0 < k <= |msgs[0].calls|
    ensures PartlyAnswers(msgs[..k][0], msgs[..k][1..])
  {
    var n := |msgs[0].calls|;
    var all, some := AnswerIds(msgs[1..n + 1]), AnswerIds(msgs[..k][1..]);
    assert all == some + all[k - 1..];
    assert multiset(all) == multiset(some) + multiset(all[k - 1..]);
    forall m | m in msgs[..k][1..] ensures m.role == Tool {
      var i :| 0 <= i < k - 1 && msgs[..k][1..][i] == m;
      assert msgs[1..n + 1][i] == m;
    }
  }

  lemma StartsWithNoTool(msgs: seq<Message>)
    requires Resumable(msgs)
    ensures msgs == [] || msgs[0].role != Tool
  {
  }

  /** A well-formed transcript may be cut before any message that is not a tool result. */
  lemma {:induction false} CutsCleanly(msgs: seq<Message>, k: nat)
    requires WellFormed(msgs) && k <= |msgs|
    requires k == |msgs| || msgs[k].role != Tool
    ensures WellFormed(msgs[..k]) && WellFormed(msgs[k..])
    decreases |msgs|
  {
    hide RoundFirst;
    if k == 0 {
      assert msgs[0..] == msgs;
    } else if Plain(msgs[0]) && WellFormed(msgs[1..]) {
      CutsCleanly(msgs[1..], k - 1);
      assert msgs[..k][1..] == msgs[1..][..k - 1] && msgs[k..] == msgs[1..][k - 1..];
    } else {
      RoundIsTools(msgs);
      var n := |msgs[0].calls| + 1;
      CutsCleanly(AfterRound(msgs), k - n);
      RoundFirstShrinks(msgs, k);
      assert msgs[k..] == AfterRound(msgs)[k - n..];
    }
  }

  lemma RoundFirstShrinks(msgs: seq<Message>, k: nat)
    requires RoundFirst(msgs) && |msgs[0].calls| < k <= |msgs|
    ensures RoundFirst(msgs[..k]) && AfterRound(msgs[..k]) == AfterRound(msgs)[..k - |msgs[0].calls| - 1]
  {
    var n := |msgs[0].calls|;
    assert msgs[..k][1..n + 1] == msgs[1..n + 1];
  }

  // ---------------------------------------------------------------- capping

  function DropLeadingTools(msgs: seq<Message>): seq<Message> {
    if msgs != [] && msgs[0].role == Tool then DropLeadingTools(msgs[1..]) else msgs
  }

  function Newest(msgs: seq<Message>): (r: seq<Message>)
    ensures |r| <= MAX_HISTORY
  {
    if |msgs| > MAX_HISTORY then msgs[|msgs| - MAX_HISTORY..] else msgs
  }

  /** trimHistory: the newest messages, without leading orphan results. */
  function Trimmed(msgs: seq<Message>): seq<Message> {
    DropLeadingTools(Newest(msgs))
  }

  /** The end of msgs from k on: the newest forty messages without the results they start with, and nothing else. */
  ghost predicate KeepsFrom(msgs: seq<Message>, k: nat, r: seq<Message>) {
    var from := if |msgs| > 40 then |msgs| - 40 else 0;
    && from <= k <= |msgs| && r == msgs[k..]
    && (forall i :: from <= i < k ==> msgs[i].role == Tool)
    && (k < |msgs| ==> msgs[k].role != Tool)
  }

  ghost predicate KeepsTheNewest(msgs: seq<Message>, r: seq<Message>) {
    exists k: nat :: KeepsFrom(msgs, k, r)
  }

  lemma {:induction false} DroppedAreTools(msgs: seq<Message>) returns (k: nat)
    ensures k <= |msgs| && DropLeadingTools(msgs) == msgs[k..]
    ensures forall i :: 0 <= i < k ==> msgs[i].role == Tool
    ensures k < |msgs| ==> msgs[k].role != Tool
  {
    k := 0;
    if msgs != [] && msgs[0].role == Tool {
      var j := DroppedAreTools(msgs[1..]);
      k := j + 1;
      assert msgs[1..][j..] == msgs[k..];
      assert forall i :: 0 < i < k ==> msgs[i] == msgs[1..][i - 1];
    } else {
      assert msgs[0..] == msgs;
    }
  }

  /** What the cap keeps: only leading results of the newest forty messages go. */
  lemma TrimKeepsTheNewest(msgs: seq<Message>)
    ensures KeepsTheNewest(msgs, Trimmed(msgs))
    ensures |msgs| > 40 && msgs[|msgs| - 40].role != Tool ==> Trimmed(msgs) == msgs[|msgs| - 40..]
  {
    hide DropLeadingTools;
    var from := if |msgs| > 40 then |msgs| - 40 else 0;
    assert Newest(msgs) == msgs[from..];
    var j := DroppedAreTools(msgs[from..]);
    assert msgs[from..][j..] == msgs[from + j..];
    assert forall i :: from <= i < from + j ==> msgs[i] == msgs[from..][i - from];
    assert KeepsFrom(msgs, from + j, Trimmed(msgs));
  }

  method TrimHistory(msgs: seq<Message>) returns (r: seq<Message>)
    ensures r == Trimmed(msgs)
    ensures KeepsTheNewest(msgs, r)
  {
    TrimKeepsTheNewest(msgs);
    r := msgs;
    if |r| > MAX_HISTORY {
      r := r[|r| - MAX_HISTORY..];
    }
    while |r| > 0 && r[0].role == Tool
      invariant DropLeadingTools(r) == Trimmed(msgs)
    {
      r := r[1..];
    }
  }

  /** Whatever the cap cuts away, dropping leading results restores the shape. */
  lemma {:induction false} SuffixOfWellFormed(msgs: seq<Message>, k: nat)
    requires WellFormed(msgs) && k <= |msgs|
    ensures WellFormed(DropLeadingTools(msgs[k..]))
    decreases |msgs|
  {
    hide RoundFirst;
    if msgs != [] && Plain(msgs[0]) && WellFormed(msgs[1..]) {
      if k > 0 {
        SuffixOfWellFormed(msgs[1..], k - 1);
        assert msgs[k..] == msgs[1..][k - 1..];
      } else {
        assert msgs[0..] == msgs;
      }
    } else if msgs != [] {
      SuffixOfRound(msgs, k);
      WellFormedIsResumable(AfterRound(msgs));
      if k > |msgs[0].calls| {
        SuffixOfWellFormed(AfterRound(msgs), k - |msgs[0].calls| - 1);
      }
    }
  }

  lemma {:induction false} SuffixOfResumable(msgs: seq<Message>, k: nat)
    requires Resumable(msgs) && k <= |msgs|
    ensures Resumable(DropLeadingTools(msgs[k..]))
    decreases |msgs|
  {
    hide RoundFirst, PartlyAnswers;
    if k == 0 {
      StartsWithNoTool(msgs);
      assert msgs[0..] == msgs;
    } else if Plain(msgs[0]) && Resumable(msgs[1..]) {
      SuffixOfResumable(msgs[1..], k - 1);
      assert msgs[k..] == msgs[1..][k - 1..];
    } else if RoundFirst(msgs) && Resumable(AfterRound(msgs)) {
      SuffixOfRound(msgs, k);
      if k > |msgs[0].calls| {
        SuffixOfResumable(AfterRound(msgs), k - |msgs[0].calls| - 1);
      }
    } else {
      OpenRoundIsTools(msgs);
      DropToolsUpTo(msgs[k..], |msgs| - k);
    }
  }

  /** Cutting into a round leaves its results, which go; cutting behind it leaves it alone. */
  lemma SuffixOfRound(msgs: seq<Message>, k: nat)
    requires RoundFirst(msgs) && k <= |msgs|
    ensures k == 0 ==> DropLeadingTools(msgs[k..]) == msgs
    ensures 0 < k <= |msgs[0].calls| ==> DropLeadingTools(msgs[k..]) == DropLeadingTools(AfterRound(msgs))
    ensures k > |msgs[0].calls| ==> msgs[k..] == AfterRound(msgs)[k - |msgs[0].calls| - 1..]
    ensures Resumable(AfterRound(msgs)) ==> DropLeadingTools(AfterRound(msgs)) == AfterRound(msgs)
  {
    RoundIsTools(msgs);
    var n := |msgs[0].calls| + 1;
    assert msgs[0..] == msgs;
    if 0 < k < n {
      DropToolsUpTo(msgs[k..], n - k);
      assert msgs[k..][n - k..] == AfterRound(msgs);
    }
    if Resumable(AfterRound(msgs)) {
      StartsWithNoTool(AfterRound(msgs));
    }
  }

  lemma {:induction false} DropToolsUpTo(msgs: seq<Message>, n: nat)
    requires n <= |msgs|
    requires forall i :: 0 <= i < n ==> msgs[i].role == Tool
    ensures DropLeadingTools(msgs) == DropLeadingTools(msgs[n..])
  {
    if n > 0 {
      DropToolsUpTo(msgs[1..], n - 1);
      assert msgs[1..][n - 1..] == msgs[n..];
    } else {
      assert msgs[0..] == msgs;
    }
  }

  /** Within the cap and without a leading orphan result. */
  ghost predicate Capped(msgs: seq<Message>) {
    |msgs| <= MAX_HISTORY && (msgs != [] ==> msgs[0].role != Tool)
  }

  /** Whatever it is given, trimHistory caps it, and it changes nothing a second time. */
  lemma TrimCaps(msgs: seq<Message>)
    ensures Capped(Trimmed(msgs))
    ensures Trimmed(msgs) == msgs <==> Capped(msgs)
  {
    DropLeadingIsSuffix(Newest(msgs));
    NoLeadingTool(Newest(msgs));
    if msgs != [] {
      DropLeadingIsSuffix(msgs[1..]);
    }
  }

  lemma {:induction false} NoLeadingTool(msgs: seq<Message>)
    ensures DropLeadingTools(msgs) != [] ==> DropLeadingTools(msgs)[0].role != Tool
  {
    if msgs != [] && msgs[0].role == Tool {
      NoLeadingTool(msgs[1..]);
    }
  }

  /** trimHistory keeps the shape and the cap, and leaves a short well-formed transcript alone. */
  lemma TrimKeepsShape(msgs: seq<Message>)
    ensures WellFormed(msgs) ==> WellFormed(Trimmed(msgs))
    ensures Resumable(msgs) ==> Resumable(Trimmed(msgs))
    ensures Resumable(msgs) && |msgs| <= MAX_HISTORY ==> Trimmed(msgs) == msgs
    ensures |Trimmed(msgs)| <= MAX_HISTORY
  {
    hide WellFormed, Resumable;
    var k := if |msgs| > MAX_HISTORY then |msgs| - MAX_HISTORY else 0;
    assert Newest(msgs) == msgs[k..];
    if WellFormed(msgs) { SuffixOfWellFormed(msgs, k); }
    if Resumable(msgs) {
      SuffixOfResumable(msgs, k);
      StartsWithNoTool(msgs);
    }
    DropLeadingIsSuffix(Newest(msgs));
  }

  lemma {:induction false} DropLeadingIsSuffix(msgs: seq<Message>)
    ensures exists k :: 0 <= k <= |msgs| && DropLeadingTools(msgs) == msgs[k..]
  {
    if msgs != [] && msgs[0].role == Tool {
      DropLeadingIsSuffix(msgs[1..]);
      var k :| 0 <= k <= |msgs| - 1 && DropLeadingTools(msgs[1..]) == msgs[1..][k..];
      assert msgs[1..][k..] == msgs[k + 1..];
    } else {
      assert msgs[0..] == msgs;
    }
  }

  // ---------------------------------------------------------------- the replayed transcript

  /** trimStateMessages: the cap behind an optional system message. */
  method TrimStateMessages(msgs: seq<Message>) returns (r: seq<Message>)
    ensures r == TrimmedState(msgs)
    ensures ReplaysTheNewest(msgs, r)
  {
    StateKeepsTheNewest(msgs);
    var head := 0;
    if |msgs| > 0 && msgs[0].role == System {
      head := 1;
    }
    if |msgs| - head <= MAX_HISTORY {
      return msgs;
    }
    var tail := msgs[|msgs| - MAX_HISTORY..];
    while |tail| > 0 && tail[0].role == Tool
      invariant DropLeadingTools(tail) == DropLeadingTools(msgs[|msgs| - MAX_HISTORY..])
    {
      tail := tail[1..];
    }
    r := msgs[..head] + tail;
  }

  function TrimmedState(msgs: seq<Message>): seq<Message> {
    var head := if msgs != [] && msgs[0].role == System then 1 else 0;
    if |msgs| - head <= MAX_HISTORY then msgs
    else msgs[..head] + DropLeadingTools(msgs[|msgs| - MAX_HISTORY..])
  }

  /** A leading system message stays; a body over the cap keeps its newest forty messages, less leading results. */
  ghost predicate ReplaysTheNewest(msgs: seq<Message>, r: seq<Message>) {
    var head := if msgs != [] && msgs[0].role == System then msgs[..1] else [];
    if |msgs| - |head| <= 40 then r == msgs
    else (head <= r && KeepsTheNewest(msgs[|head|..], r[|head|..]))
  }

  lemma StateKeepsTheNewest(msgs: seq<Message>)
    ensures ReplaysTheNewest(msgs, TrimmedState(msgs))
  {
    hide DropLeadingTools, KeepsTheNewest;
    var head := if msgs != [] && msgs[0].role == System then msgs[..1] else [];
    var body := msgs[|head|..];
    if |body| > 40 {
      TrimKeepsTheNewest(body);
      assert msgs[|msgs| - 40..] == body[|body| - 40..];
      assert TrimmedState(msgs) == head + Trimmed(body);
      assert (head + Trimmed(body))[|head|..] == Trimmed(body);
    }
  }

  lemma ReplayOfParts(head: seq<Message>, body: seq<Message>)
    requires |head| <= 1 && forall m :: m in head ==> m.role == System
    requires head == [] && body != [] ==> body[0].role != System
    ensures TrimmedState(head + body) == if |body| <= MAX_HISTORY then head + body else head + Trimmed(body)
  {
    hide DropLeadingTools;
    var msgs := head + body;
    assert (msgs != [] && msgs[0].role == System) == (|head| == 1);
    if |body| > MAX_HISTORY {
      assert msgs[..|head|] == head;
      assert msgs[|msgs| - MAX_HISTORY..] == Newest(body);
    }
  }

  /**
   Behind the system prompt the replayed transcript is capped exactly like the
   stored one, unless the body fits the cap and starts with an orphan result:
   the stored transcript drops it, the replay does not.
   */
  lemma ReplayIsCappedLikeTheTranscript(head: seq<Message>, body: seq<Message>)
    requires |head| <= 1 && forall m :: m in head ==> m.role == System
    requires head == [] && body != [] ==> body[0].role != System
    ensures TrimmedState(head + body) == head + Trimmed(body)
       <==> |body| > MAX_HISTORY || body == [] || body[0].role != Tool
    ensures WellFormed(body) ==> TrimmedState(head + body) == head + Trimmed(body)
  {
    hide WellFormed, Resumable, DropLeadingTools, TrimmedState;
    ReplayOfParts(head, body);
    LeadingToolsGo(body);
    ConcatCancels(head, Trimmed(body), body);
    if WellFormed(body) {
      WellFormedIsResumable(body);
      StartsWithNoTool(body);
    }
  }

  lemma LeadingToolsGo(msgs: seq<Message>)
    ensures DropLeadingTools(msgs) == msgs <==> msgs == [] || msgs[0].role != Tool
  {
    if msgs != [] {
      DropLeadingIsSuffix(msgs[1..]);
    }
  }

  /** modelInput: a leading system message moves into the instruction. */
  function ModelInput(instruction: string, msgs: seq<Message>): (string, seq<Message>) {
    if msgs != [] && msgs[0].role == System then (instruction + "\n\n" + msgs[0].content, msgs[1..])
    else (instruction, msgs)
  }

  /** A system message, if any, is the first message. */
  ghost predicate SystemFirst(msgs: seq<Message>) {
    forall i :: 0 < i < |msgs| ==> msgs[i].role != System
  }

  lemma SystemIsNoRound(msgs: seq<Message>)
    requires WellFormed(msgs) && msgs != [] && msgs[0].role == System
    ensures WellFormed(msgs[1..])
  {
    if RoundFirst(msgs) {
      RoundIsTools(msgs);
    }
  }

  /** A leading system message reaches the model as the end of its instruction, and every other message as it is. */
  lemma SummaryReachesTheModel(instruction: string, msgs: seq<Message>)
    ensures var input := ModelInput(instruction, msgs);
      if msgs != [] && msgs[0].role == System
      then && |input.0| >= |instruction| + |msgs[0].content| && instruction <= input.0
           && input.0[|input.0| - |msgs[0].content|..] == msgs[0].content
           && [msgs[0]] + input.1 == msgs
      else input == (instruction, msgs)
  {
  }

  /** The model sees one system message, the instruction, and a well-formed conversation. */
  lemma ModelSeesNoSystemMessage(instruction: string, msgs: seq<Message>)
    requires SystemFirst(msgs)
    ensures forall m :: m in ModelInput(instruction, msgs).1 ==> m.role != System
    ensures WellFormed(msgs) ==> WellFormed(ModelInput(instruction, msgs).1)
  {
    var rest := ModelInput(instruction, msgs).1;
    if WellFormed(msgs) && msgs != [] && msgs[0].role == System {
      SystemIsNoRound(msgs);
    }
    assert forall i :: 0 <= i < |rest| ==> rest[i].role != System;
  }

  // ---------------------------------------------------------------- closing a stopped run

  const STOPPED := "error: the run stopped before this call finished"

  function StoppedAnswer(id: string): Message {
    Message(Tool, STOPPED, [], id)
  }

  /** The answers reconcile adds for the calls whose ids are not among the answered ones. */
  function MissingAnswers(calls: seq<Call>, answered: set<string>): seq<Message> {
    if calls == [] then []
    else (if calls[0].id in answered then [] else [StoppedAnswer(calls[0].id)])
         + MissingAnswers(calls[1..], answered)
  }

  function AnsweredIds(msgs: seq<Message>): set<string> {
    set m | m in msgs && m.role == Tool :: m.callId
  }

  /** The last assistant message with calls, or -1. */
  function LastCalling(msgs: seq<Message>): (i: int)
    ensures -1 <= i < |msgs|
    ensures i >= 0 ==> Calling(msgs[i])
    ensures forall j :: i < j < |msgs| ==> !Calling(msgs[j])
  {
    if msgs == [] then -1
    else if Calling(msgs[|msgs| - 1]) then |msgs| - 1
    else LastCalling(msgs[..|msgs| - 1])
  }

  function Additions(msgs: seq<Message>): seq<Message> {
    var last := LastCalling(msgs);
    if last < 0 then [] else MissingAnswers(msgs[last].calls, AnsweredIds(msgs[last + 1..]))
  }

  function Reconciled(msgs: seq<Message>): seq<Message> {
    if LastCalling(msgs) < 0 then msgs else Trimmed(msgs + Additions(msgs))
  }

  lemma LastCallingUnique(msgs: seq<Message>, i: int)
    requires -1 <= i < |msgs|
    requires i >= 0 ==> Calling(msgs[i])
    requires forall j :: i < j < |msgs| ==> !Calling(msgs[j])
    ensures LastCalling(msgs) == i
  {
  }

  lemma {:induction false} MissingAppend(calls: seq<Call>, last: Call, answered: set<string>)
    ensures MissingAnswers(calls + [last], answered)
         == MissingAnswers(calls, answered) + (if last.id in answered then [] else [StoppedAnswer(last.id)])
  {
    if calls == [] {
      assert ([] + [last])[1..] == [] && ([last] + [])[0] == last;
    } else {
      assert (calls + [last])[1..] == calls[1..] + [last];
      MissingAppend(calls[1..], last, answered);
    }
  }

  method FindLastCalling(msgs: seq<Message>) returns (last: int)
    ensures last == LastCalling(msgs)
  {
    hide LastCalling;
    last := |msgs| - 1;
    while last >= 0
      invariant -1 <= last < |msgs|
      invariant forall j :: last < j < |msgs| ==> !Calling(msgs[j])
    {
      if msgs[last].role == Assistant && |msgs[last].calls| > 0 {
        break;
      }
      last := last - 1;
    }
    LastCallingUnique(msgs, last);
  }

  lemma AnsweredAppend(msgs: seq<Message>, m: Message)
    ensures AnsweredIds(msgs + [m]) == AnsweredIds(msgs) + (if m.role == Tool then {m.callId} else {})
  {
    assert forall x :: x in msgs + [m] <==> x in msgs || x == m;
  }

  method CollectAnswered(msgs: seq<Message>) returns (answered: set<string>)
    ensures answered == AnsweredIds(msgs)
  {
    hide AnsweredIds;
    answered := {};
    assert AnsweredIds(msgs[..0]) == {} by { NoneAnswered(msgs[..0]); }
    for j := 0 to |msgs|
      invariant answered == AnsweredIds(msgs[..j])
    {
      assert msgs[..j + 1] == msgs[..j] + [msgs[j]];
      AnsweredAppend(msgs[..j], msgs[j]);
      if msgs[j].role == Tool {
        answered := answered + {msgs[j].callId};
      }
    }
    assert msgs[..|msgs|] == msgs;
  }

  lemma NoneAnswered(msgs: seq<Message>)
    requires msgs == []
    ensures AnsweredIds(msgs) == {}
  {
  }

  method AnswerMissing(calls: seq<Call>, answered: set<string>) returns (more: seq<Message>)
    ensures more == MissingAnswers(calls, answered)
  {
    more := [];
    for j := 0 to |calls|
      invariant more == MissingAnswers(calls[..j], answered)
    {
      MissingAppend(calls[..j], calls[j], answered);
      assert calls[..j + 1] == calls[..j] + [calls[j]];
      if calls[j].id !in answered {
        more := more + [StoppedAnswer(calls[j].id)];
      }
    }
    assert calls[..|calls|] == calls;
  }

  /** reconcile: answers every call of the last round that is still open, then caps. */
  method Reconcile(msgs: seq<Message>) returns (r: seq<Message>)
    ensures r == Reconciled(msgs)
    ensures ClosesTheEnd(msgs, r)
  {
    hide LastCalling, MissingAnswers, AnsweredIds, Trimmed, ClosesTheEnd;
    ReconcileAnswersTheEnd(msgs);
    var last := FindLastCalling(msgs);
    if last < 0 {
      return msgs;
    }
    var answered := CollectAnswered(msgs[last + 1..]);
    var more := AnswerMissing(msgs[last].calls, answered);
    r := TrimHistory(msgs + more);
  }

  /** The added answers are exactly the unanswered calls, in call order. */
  lemma {:induction false} MissingIds(calls: seq<Call>, answered: set<string>)
    requires Distinct(CallIds(calls))
    ensures AllTools(MissingAnswers(calls, answered))
    ensures forall id :: multiset(AnswerIds(MissingAnswers(calls, answered)))[id]
                      == if id in answered then 0 else multiset(CallIds(calls))[id]
  {
    if calls != [] {
      var rest := calls[1..];
      assert CallIds(calls) == [calls[0].id] + CallIds(rest);
      DistinctTail(CallIds(calls));
      MissingIds(rest, answered);
      var more := MissingAnswers(rest, answered);
      assert AnswerIds([StoppedAnswer(calls[0].id)] + more) == [calls[0].id] + AnswerIds(more);
      assert [] + more == more;
    }
  }

  lemma DistinctTail<T>(s: seq<T>)
    requires Distinct(s) && s != []
    ensures Distinct(s[1..])
  {
  }

  lemma {:induction false} DistinctCounts<T>(s: seq<T>)
    requires Distinct(s)
    ensures forall x :: multiset(s)[x] <= 1
    ensures forall x :: x in s <==> multiset(s)[x] == 1
  {
    if s != [] {
      assert s == [s[0]] + s[1..];
      DistinctTail(s);
      DistinctCounts(s[1..]);
      assert s[0] !in s[1..] by {
        assert forall j :: 0 <= j < |s| - 1 ==> s[1..][j] == s[j + 1] != s[0];
      }
    }
  }

  lemma AnsweredIdsAreAnswers(msgs: seq<Message>)
    requires AllTools(msgs)
    ensures forall id :: id in AnsweredIds(msgs) <==> multiset(AnswerIds(msgs))[id] > 0
  {
    forall id | id in AnsweredIds(msgs) ensures id in AnswerIds(msgs) {
      var m :| m in msgs && m.callId == id;
      var i :| 0 <= i < |msgs| && msgs[i] == m;
      assert AnswerIds(msgs)[i] == id;
    }
    forall id | id in AnswerIds(msgs) ensures id in AnsweredIds(msgs) {
      var i :| 0 <= i < |msgs| && AnswerIds(msgs)[i] == id;
      assert msgs[i] in msgs;
    }
  }

  /** An open round with the missing answers appended is complete. */
  lemma ClosesTheRound(m: Message, results: seq<Message>)
    requires PartlyAnswers(m, results)
    ensures Answers(m, results + MissingAnswers(m.calls, AnsweredIds(results)))
  {
    var more := MissingAnswers(m.calls, AnsweredIds(results));
    MissingIds(m.calls, AnsweredIds(results));
    AnsweredIdsAreAnswers(results);
    DistinctCounts(CallIds(m.calls));
    assert AnswerIds(results + more) == AnswerIds(results) + AnswerIds(more);
    forall id ensures multiset(AnswerIds(results + more))[id] == multiset(CallIds(m.calls))[id] {
      assert multiset(AnswerIds(results))[id] <= multiset(CallIds(m.calls))[id];
    }
    assert multiset(AnswerIds(results + more)) == multiset(CallIds(m.calls));
    assert |AnswerIds(results + more)| == |multiset(CallIds(m.calls))|;
  }

  /** Answers that are already there are not given twice. */
  lemma {:induction false} NothingMissing(calls: seq<Call>, answered: set<string>)
    requires forall c :: c in calls ==> c.id in answered
    ensures MissingAnswers(calls, answered) == []
  {
    if calls != [] {
      assert calls[0] in calls;
      NothingMissing(calls[1..], answered);
    }
  }

  lemma CompleteRoundMissesNothing(m: Message, results: seq<Message>, after: seq<Message>)
    requires Answers(m, results)
    ensures MissingAnswers(m.calls, AnsweredIds(results + after)) == []
  {
    AnsweredIdsAreAnswers(results);
    DistinctCounts(CallIds(m.calls));
    SameSize(multiset(AnswerIds(results)), multiset(CallIds(m.calls)));
    forall c | c in m.calls ensures c.id in AnsweredIds(results + after) {
      var i :| 0 <= i < |m.calls| && m.calls[i] == c;
      assert CallIds(m.calls)[i] == c.id;
      assert c.id in AnsweredIds(results);
      var r :| r in results && r.role == Tool && r.callId == c.id;
      assert r in results + after;
    }
    NothingMissing(m.calls, AnsweredIds(results + after));
  }

  lemma SameSize<T>(a: multiset<T>, b: multiset<T>)
    requires a <= b && |a| == |b|
    ensures a == b
  {
    assert b == a + (b - a);
    assert |b - a| == 0;
  }

  /** What the last round is depends only on what follows a leading block. */
  lemma AdditionsShift(block: seq<Message>, rest: seq<Message>)
    requires LastCalling(rest) >= 0
    ensures Additions(block + rest) == Additions(rest)
  {
    hide LastCalling, MissingAnswers, AnsweredIds;
    var msgs := block + rest;
    var k := LastCalling(rest);
    forall j | |block| + k < j < |msgs| ensures !Calling(msgs[j]) {
      assert msgs[j] == rest[j - |block|];
    }
    assert msgs[|block| + k] == rest[k];
    LastCallingUnique(msgs, |block| + k);
    assert msgs[|block| + k + 1..] == rest[k + 1..];
  }

  lemma NothingToAdd(block: seq<Message>, rest: seq<Message>)
    requires LastCalling(rest) < 0 && forall m :: m in block ==> !Calling(m)
    ensures Additions(block + rest) == []
  {
    LastCallingUnique(block + rest, -1);
  }

  lemma PlainKeepsAdditions(m: Message, rest: seq<Message>)
    requires Plain(m)
    ensures Additions([m] + rest) == Additions(rest)
  {
    if LastCalling(rest) >= 0 {
      AdditionsShift([m], rest);
    } else {
      NothingToAdd([m], rest);
    }
  }

  lemma RoundKeepsAdditions(msgs: seq<Message>)
    requires RoundFirst(msgs)
    ensures Additions(msgs) == Additions(AfterRound(msgs))
  {
    hide LastCalling, MissingAnswers, AnsweredIds;
    var n := |msgs[0].calls| + 1;
    var rest := AfterRound(msgs);
    assert msgs == msgs[..n] + rest;
    if LastCalling(rest) >= 0 {
      AdditionsShift(msgs[..n], rest);
    } else {
      RoundIsTools(msgs);
      forall j | 0 < j < |msgs| ensures !Calling(msgs[j]) {
        assert j >= n ==> msgs[j] == rest[j - n];
      }
      LastCallingUnique(msgs, 0);
      CompleteRoundMissesNothing(msgs[0], msgs[1..n], rest);
      assert msgs[1..] == msgs[1..n] + rest;
    }
  }

  /** A stopped run, with the missing answers added, is well formed; a well-formed one needs none. */
  lemma {:induction false} AdditionsClose(msgs: seq<Message>)
    requires Resumable(msgs)
    ensures WellFormed(msgs + Additions(msgs))
    decreases |msgs|
  {
    hide RoundFirst, PartlyAnswers, Additions;
    if msgs == [] {
      NothingToAdd([], []);
      assert [] + [] == msgs + Additions(msgs);
    } else if Plain(msgs[0]) && Resumable(msgs[1..]) {
      assert msgs == [msgs[0]] + msgs[1..];
      PlainKeepsAdditions(msgs[0], msgs[1..]);
      AdditionsClose(msgs[1..]);
      assert (msgs + Additions(msgs))[1..] == msgs[1..] + Additions(msgs[1..]);
    } else if RoundFirst(msgs) && Resumable(AfterRound(msgs)) {
      RoundKeepsAdditions(msgs);
      AdditionsClose(AfterRound(msgs));
      RoundFirstExtends(msgs, Additions(msgs));
    } else {
      OpenRoundCloses(msgs);
    }
  }

  lemma OpenRoundCloses(msgs: seq<Message>)
    requires msgs != [] && PartlyAnswers(msgs[0], msgs[1..])
    ensures WellFormed(msgs + Additions(msgs))
  {
    hide LastCalling, MissingAnswers, AnsweredIds, PartlyAnswers;
    var n := |msgs[0].calls|;
    OpenRoundIsTools(msgs);
    LastCallingUnique(msgs, 0);
    ClosesTheRound(msgs[0], msgs[1..]);
    var all := msgs + Additions(msgs);
    assert msgs[1..] + Additions(msgs) == all[1..n + 1];
    assert AfterRound(all) == [];
  }

  lemma {:induction false} WellFormedNeedsNothing(msgs: seq<Message>)
    requires WellFormed(msgs)
    ensures Additions(msgs) == []
    decreases |msgs|
  {
    hide RoundFirst, Additions;
    if msgs == [] {
      NothingToAdd([], []);
      assert [] + [] == msgs;
    } else if Plain(msgs[0]) && WellFormed(msgs[1..]) {
      assert msgs == [msgs[0]] + msgs[1..];
      PlainKeepsAdditions(msgs[0], msgs[1..]);
      WellFormedNeedsNothing(msgs[1..]);
    } else {
      RoundKeepsAdditions(msgs);
      WellFormedNeedsNothing(AfterRound(msgs));
    }
  }

  /** After reconcile no call is unanswered and no result is orphaned; a sound transcript is left alone. */
  lemma ReconcileCloses(msgs: seq<Message>)
    requires Resumable(msgs) && |msgs| <= MAX_HISTORY
    ensures WellFormed(Reconciled(msgs)) && |Reconciled(msgs)| <= MAX_HISTORY
    ensures WellFormed(msgs) ==> Reconciled(msgs) == msgs
  {
    hide WellFormed, Resumable, Additions;
    AdditionsClose(msgs);
    TrimKeepsShape(msgs + Additions(msgs));
    TrimKeepsShape(msgs);
    assert msgs + [] == msgs;
    if LastCalling(msgs) < 0 {
      NothingToAdd([], msgs);
      assert [] + msgs == msgs;
    }
    if WellFormed(msgs) {
      WellFormedNeedsNothing(msgs);
    }
  }

  /** Up to the cap, reconcile closes exactly the transcripts with at most their last round open. */
  lemma ClosesExactlyWhenResumable(msgs: seq<Message>)
    ensures WellFormed(msgs + Additions(msgs)) <==> Resumable(msgs)
  {
    hide WellFormed, Resumable, Additions;
    if Resumable(msgs) {
      AdditionsClose(msgs);
    }
    if WellFormed(msgs + Additions(msgs)) {
      PrefixIsResumable(msgs, Additions(msgs));
    }
  }

  lemma {:induction false} MissingCovers(calls: seq<Call>, answered: set<string>)
    ensures AllTools(MissingAnswers(calls, answered))
    ensures forall c :: c in calls ==> c.id in answered || c.id in AnsweredIds(MissingAnswers(calls, answered))
  {
    if calls != [] {
      MissingCovers(calls[1..], answered);
      var rest, more := MissingAnswers(calls[1..], answered), MissingAnswers(calls, answered);
      assert forall m :: m in rest ==> m in more;
      forall c | c in calls ensures c.id in answered || c.id in AnsweredIds(more) {
        if c == calls[0] {
          if c.id !in answered {
            assert StoppedAnswer(c.id) in more;
          }
        } else {
          assert c in calls[1..];
        }
      }
    }
  }

  /** Whatever the transcript is, with the added answers no call of its last round is open. */
  lemma NothingMoreToAdd(msgs: seq<Message>)
    ensures Additions(msgs + Additions(msgs)) == []
  {
    hide LastCalling, MissingAnswers, AnsweredIds;
    var last, more := LastCalling(msgs), Additions(msgs);
    var all := msgs + more;
    if last >= 0 {
      var calls, behind := msgs[last].calls, msgs[last + 1..];
      MissingCovers(calls, AnsweredIds(behind));
      forall j | last < j < |all| ensures !Calling(all[j]) {
        if j >= |msgs| {
          assert all[j] in more;
        }
      }
      LastCallingUnique(all, last);
      assert all[last + 1..] == behind + more;
      AnsweredUnion(behind, more);
      NothingMissing(calls, AnsweredIds(behind + more));
    } else {
      assert all == msgs;
    }
  }

  lemma AnsweredUnion(a: seq<Message>, b: seq<Message>)
    ensures AnsweredIds(a + b) == AnsweredIds(a) + AnsweredIds(b)
  {
    assert forall m :: m in a + b <==> m in a || m in b;
  }

  lemma EndMissesNothing(msgs: seq<Message>, k: nat)
    requires k <= |msgs| && Additions(msgs) == []
    ensures Additions(msgs[k..]) == []
  {
    if LastCalling(msgs[k..]) >= 0 {
      AdditionsShift(msgs[..k], msgs[k..]);
      assert msgs == msgs[..k] + msgs[k..];
    }
  }

  /** For every transcript, sound or not: reconcile leaves no call of the last round open, and a second one does nothing. */
  lemma ReconcileIsIdempotent(msgs: seq<Message>)
    ensures Additions(Reconciled(msgs)) == []
    ensures Reconciled(Reconciled(msgs)) == Reconciled(msgs)
    ensures Capped(msgs) ==> Capped(Reconciled(msgs))
  {
    hide LastCalling, MissingAnswers, AnsweredIds, DropLeadingTools;
    var all := msgs + Additions(msgs);
    if LastCalling(msgs) >= 0 {
      NothingMoreToAdd(msgs);
      DropLeadingIsSuffix(Newest(all));
      var k :| 0 <= k <= |Newest(all)| && DropLeadingTools(Newest(all)) == Newest(all)[k..];
      var from := |all| - |Newest(all)|;
      assert Newest(all) == all[from..];
      EndMissesNothing(all, from);
      EndMissesNothing(all[from..], k);
      TrimCaps(all);
      TrimCaps(Trimmed(all));
      assert Trimmed(all) + [] == Trimmed(all);
    }
  }

  /** The ids of the calls that no result behind them answers, in call order. */
  ghost function Unanswered(calls: seq<Call>, behind: seq<Message>): seq<string> {
    if calls == [] then []
    else (if exists m :: m in behind && m.role == Tool && m.callId == calls[0].id then [] else [calls[0].id])
         + Unanswered(calls[1..], behind)
  }

  lemma {:induction false} MissingAreUnanswered(calls: seq<Call>, behind: seq<Message>)
    ensures AnswerIds(MissingAnswers(calls, AnsweredIds(behind))) == Unanswered(calls, behind)
    ensures forall m :: m in MissingAnswers(calls, AnsweredIds(behind)) ==> m.role == Tool && m.content == STOPPED
  {
    if calls != [] {
      MissingAreUnanswered(calls[1..], behind);
      var rest := MissingAnswers(calls[1..], AnsweredIds(behind));
      if calls[0].id in AnsweredIds(behind) {
        var m :| m in behind && m.role == Tool && m.callId == calls[0].id;
        assert [] + rest == rest;
      } else {
        assert AnswerIds([StoppedAnswer(calls[0].id)] + rest) == [calls[0].id] + AnswerIds(rest);
      }
    }
  }

  /** Without a calling message nothing happens; otherwise its open calls are answered at the end, in order, and the cap applies. */
  ghost predicate ClosesTheEnd(msgs: seq<Message>, r: seq<Message>) {
    if forall i :: 0 <= i < |msgs| ==> !Calling(msgs[i]) then r == msgs
    else exists last: nat, more: seq<Message> ::
      && IsLastCalling(msgs, last) && AnswerIds(more) == Unanswered(msgs[last].calls, msgs[last + 1..])
      && (forall m :: m in more ==> m.role == Tool && m.content == STOPPED)
      && KeepsTheNewest(msgs + more, r)
  }

  ghost predicate IsLastCalling(msgs: seq<Message>, last: nat) {
    last < |msgs| && Calling(msgs[last]) && forall j :: last < j < |msgs| ==> !Calling(msgs[j])
  }

  lemma ReconcileAnswersTheEnd(msgs: seq<Message>)
    ensures ClosesTheEnd(msgs, Reconciled(msgs))
  {
    hide MissingAnswers, Unanswered, Trimmed, KeepsTheNewest;
    var last := LastCalling(msgs);
    if last >= 0 {
      MissingAreUnanswered(msgs[last].calls, msgs[last + 1..]);
      TrimKeepsTheNewest(msgs + Additions(msgs));
      assert IsLastCalling(msgs, last);
    }
  }
}
