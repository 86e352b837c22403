/**
 Compaction of a transcript that outgrew the context window: tool rounds,
 the split into an older prefix and a verbatim tail, dropped rounds, and the
 escalation that stops at the first result that fits.
 */
module Compaction {
  import opened Prelude
  import opened Transcript

  const KEEP_RECENT_MESSAGES := 8
  const KEEP_TOOL_ROUNDS := 2

  // ---------------------------------------------------------------- tool rounds

  /** The messages from start (the call) up to end (behind the last answer). */
  datatype Round = Round(start: nat, end: nat)

  /** The end of the run of tool results that starts at j. */
  function ToolsEnd(msgs: seq<Message>, j: nat): (e: nat)
    requires j <= |msgs|
    ensures j <= e <= |msgs|
    ensures forall k :: j <= k < e ==> msgs[k].role == Tool
    ensures e == |msgs| || msgs[e].role != Tool
    decreases |msgs| - j
  {
    if j < |msgs| && msgs[j].role == Tool then ToolsEnd(msgs, j + 1) else j
  }

  predicate CompleteAt(msgs: seq<Message>, i: nat) {
    i < |msgs| && Calling(msgs[i]) && ToolsEnd(msgs, i + 1) == i + 1 + |msgs[i].calls|
  }

  /** The complete rounds that start at or behind i, in order. */
  function Rounds(msgs: seq<Message>, i: nat): seq<Round>
    requires i <= |msgs|
    decreases |msgs| - i
  {
    if i == |msgs| then []
    else if CompleteAt(msgs, i) then [Round(i, ToolsEnd(msgs, i + 1))] + Rounds(msgs, ToolsEnd(msgs, i + 1))
    else Rounds(msgs, i + 1)
  }

  /** toolRounds: one pass that jumps behind every complete round it finds. */
  method ToolRounds(msgs: seq<Message>) returns (rounds: seq<Round>)
    ensures rounds == Rounds(msgs, 0)
  {
    rounds := [];
    var i := 0;
    while i < |msgs|
      invariant 0 <= i <= |msgs|
      invariant rounds + Rounds(msgs, i) == Rounds(msgs, 0)
    {
      if msgs[i].role != Assistant || |msgs[i].calls| == 0 {
        i := i + 1;
        continue;
      }
      var j := i + 1;
      while j < |msgs| && msgs[j].role == Tool
        invariant i < j <= |msgs|
        invariant ToolsEnd(msgs, j) == ToolsEnd(msgs, i + 1)
      {
        j := j + 1;
      }
      if j - i - 1 != |msgs[i].calls| {
        i := i + 1;
        continue;
      }
      ConcatAssociative(rounds, [Round(i, j)], Rounds(msgs, j));
      rounds := rounds + [Round(i, j)];
      i := j;
    }
  }

  /** The list is exactly the complete rounds: each is one, each one is in it, in order and disjoint. */
  lemma {:induction false} RoundsExact(msgs: seq<Message>, i: nat)
    requires i <= |msgs|
    ensures var rounds := Rounds(msgs, i);
      && (forall r :: r in rounds ==> i <= r.start && CompleteAt(msgs, r.start) && r.end == ToolsEnd(msgs, r.start + 1))
      && (forall a, b :: 0 <= a < b < |rounds| ==> rounds[a].end <= rounds[b].start)
      && (forall p :: i <= p < |msgs| && CompleteAt(msgs, p) ==> Round(p, ToolsEnd(msgs, p + 1)) in rounds)
    decreases |msgs| - i
  {
    if i < |msgs| {
      var e := if CompleteAt(msgs, i) then ToolsEnd(msgs, i + 1) else i + 1;
      RoundsExact(msgs, e);
      var rest := Rounds(msgs, e);
      forall b | 0 <= b < |rest| ensures e <= rest[b].start {
        assert rest[b] in rest;
      }
      forall p | i < p < e ensures !CompleteAt(msgs, p) {
        assert msgs[p].role == Tool;
      }
    }
  }

  /** Between two neighbouring rounds of the list no round is complete. */
  lemma NoRoundBetween(msgs: seq<Message>, k: nat, p: nat)
    requires k < |Rounds(msgs, 0)|
    requires (if k == 0 then 0 else Rounds(msgs, 0)[k - 1].end) <= p < Rounds(msgs, 0)[k].start
    requires p < |msgs|
    ensures !CompleteAt(msgs, p)
  {
    hide CompleteAt, ToolsEnd, Rounds;
    var rounds := Rounds(msgs, 0);
    RoundsExact(msgs, 0);
    CompleteIsInside(msgs);
    forall l | 0 <= l < |rounds| ensures rounds[l].start != p {
      assert rounds[l] in rounds && rounds[k] in rounds;
      if l < k {
        assert l == k - 1 || rounds[l].end <= rounds[k - 1].start;
        assert rounds[k - 1] in rounds;
      }
    }
    assert Round(p, ToolsEnd(msgs, p + 1)) !in rounds;
  }

  // ---------------------------------------------------------------- the split

  /** The cuts that leave the newest messages and the newest rounds whole in the tail. */
  ghost predicate Admissible(msgs: seq<Message>, keepMessages: nat, keepRounds: nat, cut: nat) {
    && cut <= |msgs|
    && (cut == 0 || cut + keepMessages <= |msgs|)
    && (0 < cut < |msgs| ==> msgs[cut].role != Tool)
    && forall k :: 0 <= k < |Rounds(msgs, 0)| && |Rounds(msgs, 0)| - keepRounds <= k ==> cut <= Rounds(msgs, 0)[k].start
  }

  /** A tail that starts with a result orphans it: back to the message that called. */
  method BackToCall(msgs: seq<Message>, start: nat) returns (from: nat)
    requires start < |msgs|
    ensures from <= start && (from > 0 ==> msgs[from].role != Tool)
    ensures forall cut :: from < cut <= start ==> msgs[cut].role == Tool
  {
    from := start;
    while from > 0 && msgs[from].role == Tool
      invariant from <= start
      invariant forall cut :: from < cut <= start ==> msgs[cut].role == Tool
    {
      from := from - 1;
    }
  }

  method BackToRounds(rounds: seq<Round>, keepRounds: nat, start: nat) returns (from: nat)
    ensures from <= start
    ensures forall k :: 0 <= k < |rounds| && |rounds| - keepRounds <= k ==> from <= rounds[k].start
    ensures from == start || exists k :: 0 <= k < |rounds| && |rounds| - keepRounds <= k && from == rounds[k].start
  {
    from := start;
    var i := |rounds| - 1;
    while i >= 0 && i >= |rounds| - keepRounds
      invariant -1 <= i < |rounds|
      invariant from <= start
      invariant forall k :: i < k < |rounds| && |rounds| - keepRounds <= k ==> from <= rounds[k].start
      invariant from == start || exists k :: i < k < |rounds| && |rounds| - keepRounds <= k && from == rounds[k].start
    {
      if rounds[i].start < from {
        from := rounds[i].start;
      }
      i := i - 1;
    }
  }

  /** splitForCompression: the longest admissible prefix is compacted. */
  method SplitForCompression(msgs: seq<Message>, keepMessages: nat, keepRounds: nat)
    returns (prefix: seq<Message>, keep: seq<Message>)
    requires keepMessages > 0
    ensures prefix + keep == msgs
    ensures Admissible(msgs, keepMessages, keepRounds, |prefix|)
    ensures forall cut: nat :: Admissible(msgs, keepMessages, keepRounds, cut) ==> cut <= |prefix|
    ensures msgs != [] ==> keep != []
  {
    hide Rounds;
    if |msgs| == 0 {
      RoundsOfNothing();
      return [], [];
    }
    var start := |msgs| - keepMessages;
    if start < 0 {
      start := 0;
    }
    var back := BackToCall(msgs, start);
    var rounds := ToolRounds(msgs);
    var from := BackToRounds(rounds, keepRounds, back);
    KeptRoundsStartWithCalls(msgs);
    prefix, keep := msgs[..from], msgs[from..];
  }

  lemma RoundsOfNothing()
    ensures Rounds([], 0) == []
  {
  }

  lemma KeptRoundsStartWithCalls(msgs: seq<Message>)
    ensures forall k :: 0 <= k < |Rounds(msgs, 0)| ==>
              Rounds(msgs, 0)[k].start < |msgs| && msgs[Rounds(msgs, 0)[k].start].role == Assistant
  {
    RoundsExact(msgs, 0);
    forall k | 0 <= k < |Rounds(msgs, 0)|
      ensures Rounds(msgs, 0)[k].start < |msgs| && msgs[Rounds(msgs, 0)[k].start].role == Assistant
    {
      assert Rounds(msgs, 0)[k] in Rounds(msgs, 0);
    }
  }

  lemma AdmissibleCutsCleanly(msgs: seq<Message>, keepMessages: nat, keepRounds: nat, cut: nat)
    requires WellFormed(msgs) && Admissible(msgs, keepMessages, keepRounds, cut)
    ensures WellFormed(msgs[..cut]) && WellFormed(msgs[cut..])
  {
    hide WellFormed;
    if cut == 0 && msgs != [] {
      WellFormedIsResumable(msgs);
      StartsWithNoTool(msgs);
    }
    CutsCleanly(msgs, cut);
  }

  // ---------------------------------------------------------------- dropping rounds

  function Join(calls: seq<Call>): string {
    if calls == [] then ""
    else if |calls| == 1 then calls[0].name
    else calls[0].name + ", " + Join(calls[1..])
  }

  /** The note that replaces a dropped round. */
  function Note(m: Message): Message {
    Message(Assistant,
            "(earlier tool call: " + Join(m.calls) + "; its output was dropped to fit the context window)", [], "")
  }

  predicate OccursAt(text: string, word: string, i: nat) {
    i + |word| <= |text| && text[i..i + |word|] == word
  }

  ghost predicate Mentions(text: string, word: string) {
    exists i: nat :: OccursAt(text, word, i)
  }

  lemma OccursBehind(front: string, text: string, back: string, word: string, i: nat)
    requires OccursAt(text, word, i)
    ensures OccursAt(front + text + back, word, |front| + i)
  {
    var all := front + text + back;
    assert all[|front| + i..|front| + i + |word|] == text[i..i + |word|];
  }

  lemma {:induction false} JoinMentions(calls: seq<Call>, k: nat) returns (i: nat)
    requires k < |calls|
    ensures OccursAt(Join(calls), calls[k].name, i)
  {
    i := 0;
    if k > 0 {
      var j := JoinMentions(calls[1..], k - 1);
      OccursBehind(calls[0].name + ", ", Join(calls[1..]), "", calls[k].name, j);
      i := |calls[0].name + ", "| + j;
      assert Join(calls) == calls[0].name + ", " + Join(calls[1..]) + "";
    }
  }

  /** The note names every tool the dropped round called. */
  lemma NoteNamesTheCalls(m: Message)
    ensures forall c :: c in m.calls ==> Mentions(Note(m).content, c.name)
  {
    hide OccursAt, Join;
    var front, back := "(earlier tool call: ", "; its output was dropped to fit the context window)";
    forall c | c in m.calls ensures Mentions(Note(m).content, c.name) {
      var k :| 0 <= k < |m.calls| && m.calls[k] == c;
      var i := JoinMentions(m.calls, k);
      OccursBehind(front, Join(m.calls), back, c.name, i);
    }
  }

  function DropRound(msgs: seq<Message>, r: Round): seq<Message> {
    if r.end > |msgs| || r.start >= r.end then msgs
    else msgs[..r.start] + [Note(msgs[r.start])] + msgs[r.end..]
  }

  /** The simple form: walk from the front and note the first n complete rounds. */
  function NoteOldest(msgs: seq<Message>, n: nat): seq<Message>
    decreases |msgs|
  {
    if n == 0 || msgs == [] then msgs
    else if CompleteAt(msgs, 0) then [Note(msgs[0])] + NoteOldest(msgs[ToolsEnd(msgs, 1)..], n - 1)
    else [msgs[0]] + NoteOldest(msgs[1..], n)
  }

  function Dropped(msgs: seq<Message>, keepRounds: nat): seq<Message> {
    var n := |Rounds(msgs, 0)|;
    NoteOldest(msgs, if n <= keepRounds then 0 else n - keepRounds)
  }

  lemma {:induction false} ToolsEndShift(msgs: seq<Message>, i: nat, j: nat)
    requires i <= j <= |msgs|
    ensures ToolsEnd(msgs[i..], j - i) == ToolsEnd(msgs, j) - i
    decreases |msgs| - j
  {
    if j < |msgs| && msgs[j].role == Tool {
      ToolsEndShift(msgs, i, j + 1);
    }
  }

  lemma CompleteShift(msgs: seq<Message>, i: nat)
    requires i < |msgs|
    ensures CompleteAt(msgs[i..], 0) == CompleteAt(msgs, i)
    ensures ToolsEnd(msgs[i..], 1) == ToolsEnd(msgs, i + 1) - i
  {
    ToolsEndShift(msgs, i, i + 1);
  }

  lemma NoteSkips(msgs: seq<Message>, a: nat, n: nat)
    requires a < |msgs| && !CompleteAt(msgs, a)
    ensures NoteOldest(msgs[a..], n) == [msgs[a]] + NoteOldest(msgs[a + 1..], n)
  {
    CompleteShift(msgs, a);
    assert msgs[a..][1..] == msgs[a + 1..];
  }

  lemma NoteHits(msgs: seq<Message>, r: Round, n: nat)
    requires CompleteAt(msgs, r.start) && r.end == ToolsEnd(msgs, r.start + 1)
    ensures NoteOldest(msgs[r.start..], n + 1) == [Note(msgs[r.start])] + NoteOldest(msgs[r.end..], n)
  {
    CompleteShift(msgs, r.start);
    assert msgs[r.start..][r.end - r.start..] == msgs[r.end..];
  }

  /** Noting from a, when the first complete round behind a is r. */
  lemma {:induction false} NoteReaches(msgs: seq<Message>, a: nat, r: Round, n: nat)
    requires a <= r.start < |msgs| && CompleteAt(msgs, r.start) && r.end == ToolsEnd(msgs, r.start + 1)
    requires forall p: nat :: a <= p < r.start ==> !CompleteAt(msgs, p)
    ensures NoteOldest(msgs[a..], n + 1)
         == msgs[a..r.start] + ([Note(msgs[r.start])] + NoteOldest(msgs[r.end..], n))
    decreases r.start - a
  {
    hide CompleteAt, ToolsEnd, Note, NoteOldest;
    var tail := [Note(msgs[r.start])] + NoteOldest(msgs[r.end..], n);
    if a == r.start {
      NoteHits(msgs, r, n);
      assert msgs[a..a] + tail == tail;
    } else {
      NoteSkips(msgs, a, n + 1);
      NoteReaches(msgs, a + 1, r, n);
      assert msgs[a..r.start] == [msgs[a]] + msgs[a + 1..r.start];
      ConcatAssociative([msgs[a]], msgs[a + 1..r.start], tail);
    }
  }

  function RoundsEnd(msgs: seq<Message>, k: nat): (e: nat)
    requires k <= |Rounds(msgs, 0)|
  {
    if k == 0 then 0 else Rounds(msgs, 0)[k - 1].end
  }

  lemma RoundsEndInRange(msgs: seq<Message>, k: nat)
    requires k <= |Rounds(msgs, 0)|
    ensures RoundsEnd(msgs, k) <= |msgs|
    ensures k > 0 ==>
      var r := Rounds(msgs, 0)[k - 1];
      RoundsEnd(msgs, k - 1) <= r.start < r.end <= |msgs| && CompleteAt(msgs, r.start) && r.end == ToolsEnd(msgs, r.start + 1)
  {
    hide CompleteAt;
    RoundsExact(msgs, 0);
    var rounds := Rounds(msgs, 0);
    if k > 0 {
      assert rounds[k - 1] in rounds;
    }
    CompleteIsInside(msgs);
  }

  lemma CompleteIsInside(msgs: seq<Message>)
    ensures forall i: nat :: CompleteAt(msgs, i) ==> i < |msgs| && i < ToolsEnd(msgs, i + 1) <= |msgs|
  {
  }

  /** One backward step: dropping round k - 1 when the younger rounds are already noted. */
  lemma DropStep(msgs: seq<Message>, k: nat, n: nat)
    requires 0 < k <= |Rounds(msgs, 0)|
    ensures RoundsEnd(msgs, k) <= |msgs| && RoundsEnd(msgs, k - 1) <= |msgs|
    ensures DropRound(msgs[..RoundsEnd(msgs, k)] + NoteOldest(msgs[RoundsEnd(msgs, k)..], n), Rounds(msgs, 0)[k - 1])
         == msgs[..RoundsEnd(msgs, k - 1)] + NoteOldest(msgs[RoundsEnd(msgs, k - 1)..], n + 1)
  {
    hide CompleteAt, NoteOldest, Rounds, Note;
    RoundsEndInRange(msgs, k);
    RoundsEndInRange(msgs, k - 1);
    var r := Rounds(msgs, 0)[k - 1];
    var a := RoundsEnd(msgs, k - 1);
    forall p: nat | a <= p < r.start ensures !CompleteAt(msgs, p) {
      NoRoundBetween(msgs, k - 1, p);
    }
    NoteReaches(msgs, a, r, n);
    var tail := NoteOldest(msgs[r.end..], n);
    var out := msgs[..r.end] + tail;
    assert out[..r.start] == msgs[..a] + msgs[a..r.start];
    assert out[r.start] == msgs[r.start] && out[r.end..] == tail;
    ConcatAssociative(msgs[..a] + msgs[a..r.start], [Note(msgs[r.start])], tail);
    ConcatAssociative(msgs[..a], msgs[a..r.start], [Note(msgs[r.start])] + tail);
  }

  lemma NoteNothing(msgs: seq<Message>)
    ensures NoteOldest(msgs, 0) == msgs
  {
  }

  /** dropOldToolResults: dropping from the newest to the oldest is noting the oldest from the front. */
  method DropOldToolResults(msgs: seq<Message>, keepRounds: nat) returns (out: seq<Message>)
    ensures out == Dropped(msgs, keepRounds)
  {
    hide Rounds, NoteOldest, DropRound, RoundsEnd;
    var rounds := ToolRounds(msgs);
    NoteNothing(msgs);
    if |rounds| <= keepRounds {
      return msgs;
    }
    out := msgs;
    var n := |rounds| - keepRounds;
    var i := n - 1;
    RoundsEndInRange(msgs, n);
    NoteNothing(msgs[RoundsEnd(msgs, n)..]);
    while i >= 0
      invariant -1 <= i < n
      invariant RoundsEnd(msgs, i + 1) <= |msgs|
      invariant out == msgs[..RoundsEnd(msgs, i + 1)] + NoteOldest(msgs[RoundsEnd(msgs, i + 1)..], n - 1 - i)
    {
      DropStep(msgs, i + 1, n - 1 - i);
      out := DropRound(out, rounds[i]);
      i := i - 1;
    }
    assert RoundsEnd(msgs, 0) == 0 by { RoundsStartAtZero(msgs); }
    assert msgs[0..] == msgs && msgs[..0] + NoteOldest(msgs, n) == NoteOldest(msgs, n);
  }

  lemma RoundsStartAtZero(msgs: seq<Message>)
    ensures RoundsEnd(msgs, 0) == 0
  {
  }

  // ---------------------------------------------------------------- what dropping keeps

  lemma {:induction false} RoundsShift(msgs: seq<Message>, i: nat, j: nat)
    requires i <= j <= |msgs|
    ensures |Rounds(msgs[i..], j - i)| == |Rounds(msgs, j)|
    decreases |msgs| - j
  {
    hide CompleteAt, ToolsEnd;
    if j < |msgs| {
      CompleteShift(msgs, j);
      CompleteShift(msgs[i..], j - i);
      assert msgs[i..][j - i..] == msgs[j..];
      RoundsShift(msgs, i, if CompleteAt(msgs, j) then ToolsEnd(msgs, j + 1) else j + 1);
    }
  }

  function RoundCount(msgs: seq<Message>): nat {
    |Rounds(msgs, 0)|
  }

  lemma RoundCountUnfolds(msgs: seq<Message>)
    requires msgs != []
    ensures CompleteAt(msgs, 0) ==> RoundCount(msgs) == 1 + RoundCount(msgs[ToolsEnd(msgs, 1)..])
    ensures !CompleteAt(msgs, 0) ==> RoundCount(msgs) == RoundCount(msgs[1..])
  {
    hide CompleteAt, ToolsEnd;
    var e := if CompleteAt(msgs, 0) then ToolsEnd(msgs, 1) else 1;
    RoundsShift(msgs, e, e);
  }

  /** Noting rounds does not change the run of results a transcript starts with. */
  lemma {:induction false} LeadingToolsStay(msgs: seq<Message>, n: nat)
    ensures ToolsEnd(NoteOldest(msgs, n), 0) == ToolsEnd(msgs, 0)
    decreases |msgs|
  {
    if n > 0 && msgs != [] && msgs[0].role == Tool {
      LeadingToolsStay(msgs[1..], n);
      ToolsEndShift(msgs, 1, 1);
      ToolsEndShift(NoteOldest(msgs, n), 1, 1);
      assert NoteOldest(msgs, n)[1..] == NoteOldest(msgs[1..], n);
    }
  }

  /** Keeping the head and noting behind it neither completes nor breaks the head's round. */
  lemma HeadCompleteness(msgs: seq<Message>, n: nat)
    requires msgs != []
    ensures CompleteAt([msgs[0]] + NoteOldest(msgs[1..], n), 0) == CompleteAt(msgs, 0)
  {
    var noted := [msgs[0]] + NoteOldest(msgs[1..], n);
    LeadingToolsStay(msgs[1..], n);
    ToolsEndShift(msgs, 1, 1);
    ToolsEndShift(noted, 1, 1);
    assert noted[1..] == NoteOldest(msgs[1..], n);
  }

  /** Noting the n oldest rounds leaves exactly the others complete. */
  lemma {:induction false} NotingCounts(msgs: seq<Message>, n: nat)
    requires n <= RoundCount(msgs)
    ensures RoundCount(NoteOldest(msgs, n)) == RoundCount(msgs) - n
    decreases |msgs|
  {
    hide CompleteAt, ToolsEnd, Rounds, RoundCount, Note;
    if n > 0 && msgs != [] {
      RoundCountUnfolds(msgs);
      var noted := NoteOldest(msgs, n);
      RoundCountUnfolds(noted);
      if CompleteAt(msgs, 0) {
        var rest := msgs[ToolsEnd(msgs, 1)..];
        NotingCounts(rest, n - 1);
        NoteIsNoCall(msgs[0], NoteOldest(rest, n - 1));
        assert noted[1..] == NoteOldest(rest, n - 1);
      } else {
        NotingCounts(msgs[1..], n);
        HeadCompleteness(msgs, n);
        assert noted[1..] == NoteOldest(msgs[1..], n);
      }
    } else if n > 0 {
      NoRounds();
    }
  }

  lemma NoRounds()
    ensures RoundCount([]) == 0
  {
  }

  lemma NoteIsNoCall(m: Message, rest: seq<Message>)
    ensures !CompleteAt([Note(m)] + rest, 0) && Plain(Note(m)) && Note(m).role == Assistant
  {
  }

  /** Exactly min(keepRounds, all) complete rounds remain. */
  lemma DroppingKeepsTheNewestRounds(msgs: seq<Message>, keepRounds: nat)
    ensures RoundCount(Dropped(msgs, keepRounds)) == if RoundCount(msgs) <= keepRounds then RoundCount(msgs) else keepRounds
  {
    var n := RoundCount(msgs);
    NotingCounts(msgs, if n <= keepRounds then 0 else n - keepRounds);
  }

  lemma WellFormedRoundIsComplete(msgs: seq<Message>)
    requires RoundFirst(msgs) && WellFormed(AfterRound(msgs))
    ensures CompleteAt(msgs, 0) && msgs[ToolsEnd(msgs, 1)..] == AfterRound(msgs)
  {
    hide WellFormed, RoundFirst;
    RoundIsTools(msgs);
    WellFormedIsResumable(AfterRound(msgs));
    StartsWithNoTool(AfterRound(msgs));
    var n := |msgs[0].calls| + 1;
    assert n < |msgs| ==> msgs[n] == AfterRound(msgs)[0];
    var e := ToolsEnd(msgs, 1);
    assert e >= n;
    assert e <= n;
  }

  lemma {:induction false} NotingKeepsShape(msgs: seq<Message>, n: nat)
    requires WellFormed(msgs)
    ensures WellFormed(NoteOldest(msgs, n))
    decreases |msgs|
  {
    hide CompleteAt, ToolsEnd, RoundFirst, Note, AfterRound;
    if n > 0 && msgs != [] {
      var noted := NoteOldest(msgs, n);
      if Plain(msgs[0]) && WellFormed(msgs[1..]) {
        PlainIsNoRound(msgs);
        NotingKeepsShape(msgs[1..], n);
        assert noted[1..] == NoteOldest(msgs[1..], n);
      } else {
        WellFormedRoundIsComplete(msgs);
        AfterRoundIsShorter(msgs);
        NotingKeepsShape(AfterRound(msgs), n - 1);
        NoteIsNoCall(msgs[0], noted);
        assert noted[1..] == NoteOldest(AfterRound(msgs), n - 1);
      }
    }
  }

  lemma PlainIsNoRound(msgs: seq<Message>)
    requires msgs != [] && Plain(msgs[0])
    ensures !CompleteAt(msgs, 0)
  {
  }

  lemma AfterRoundIsShorter(msgs: seq<Message>)
    requires RoundFirst(msgs)
    ensures |AfterRound(msgs)| < |msgs|
  {
  }

  ghost predicate NoSystem(msgs: seq<Message>) {
    forall m :: m in msgs ==> m.role != System
  }

  /** Noting makes nothing longer. */
  lemma {:induction false} NotingIsNoLonger(msgs: seq<Message>, n: nat)
    ensures |NoteOldest(msgs, n)| <= |msgs|
    decreases |msgs|
  {
    hide Note, CompleteAt, ToolsEnd;
    if n > 0 && msgs != [] {
      CompleteIsInside(msgs);
      if CompleteAt(msgs, 0) {
        NotingIsNoLonger(msgs[ToolsEnd(msgs, 1)..], n - 1);
      } else {
        NotingIsNoLonger(msgs[1..], n);
      }
    }
  }

  /** Noting adds no system message. */
  lemma {:induction false} NotingAddsNoSystem(msgs: seq<Message>, n: nat)
    requires NoSystem(msgs)
    ensures NoSystem(NoteOldest(msgs, n))
    decreases |msgs|
  {
    hide Note, CompleteAt, ToolsEnd;
    if n > 0 && msgs != [] {
      CompleteIsInside(msgs);
      if CompleteAt(msgs, 0) {
        NoteIsNoCall(msgs[0], []);
        NotingAddsNoSystem(msgs[ToolsEnd(msgs, 1)..], n - 1);
      } else {
        NotingAddsNoSystem(msgs[1..], n);
      }
    }
  }

  /** Noting keeps a last message that is no tool result. */
  lemma {:induction false} NotingKeepsTheLast(msgs: seq<Message>, n: nat)
    requires msgs != [] && msgs[|msgs| - 1].role != Tool
    ensures EndsLike(NoteOldest(msgs, n), msgs)
    decreases |msgs|
  {
    hide Note, CompleteAt, ToolsEnd;
    if n > 0 {
      CompleteIsInside(msgs);
      if CompleteAt(msgs, 0) {
        RoundEndsWithTool(msgs);
        NotingKeepsTheLast(msgs[ToolsEnd(msgs, 1)..], n - 1);
      } else if |msgs| > 1 {
        NotingKeepsTheLast(msgs[1..], n);
      }
    }
  }

  ghost predicate EndsLike(a: seq<Message>, b: seq<Message>)
    requires b != []
  {
    a != [] && a[|a| - 1] == b[|b| - 1]
  }

  lemma RoundEndsWithTool(msgs: seq<Message>)
    requires CompleteAt(msgs, 0)
    ensures msgs[ToolsEnd(msgs, 1) - 1].role == Tool
  {
  }

  lemma NotingKeepsSystemFirst(msgs: seq<Message>, n: nat)
    requires SystemFirst(msgs)
    ensures SystemFirst(NoteOldest(msgs, n))
  {
    hide Note;
    if n > 0 && msgs != [] {
      var e := if CompleteAt(msgs, 0) then ToolsEnd(msgs, 1) else 1;
      assert forall m :: m in msgs[e..] ==> m.role != System;
      NotingAddsNoSystem(msgs[e..], if CompleteAt(msgs, 0) then n - 1 else n);
      var noted := NoteOldest(msgs, n);
      forall i | 0 < i < |noted| ensures noted[i].role != System {
        assert noted[i] in noted[1..];
      }
    }
  }

  // ---------------------------------------------------------------- the escalation

  /** What a compaction of history may be: no longer, and with the same message at the end. */
  ghost predicate Compacts(history: seq<Message>, r: seq<Message>) {
    0 < |r| <= |history| && r[|r| - 1] == history[|history| - 1]
  }

  /** A capped history that ends in the prompt of the run, whatever is in front of it. */
  ghost predicate EndsInPrompt(msgs: seq<Message>) {
    Capped(msgs) && msgs != [] && msgs[|msgs| - 1].role == User
  }

  /** The history of a run in the shape the provider accepts. */
  ghost predicate Prompted(msgs: seq<Message>) {
    EndsInPrompt(msgs) && WellFormed(msgs) && SystemFirst(msgs)
  }

  function Summarised(summary: seq<Message> -> string, prefix: seq<Message>, keep: seq<Message>): seq<Message> {
    [Message(System, summary(prefix), [], "")] + keep
  }

  lemma SummarisedCompacts(summary: seq<Message> -> string, msgs: seq<Message>, cut: nat, keepMessages: nat, keepRounds: nat)
    requires EndsInPrompt(msgs) && 0 < cut < |msgs| && Admissible(msgs, keepMessages, keepRounds, cut)
    ensures var r := Summarised(summary, msgs[..cut], msgs[cut..]);
      EndsInPrompt(r) && Compacts(msgs, r) && (Prompted(msgs) ==> Prompted(r))
  {
    hide WellFormed;
    if WellFormed(msgs) {
      AdmissibleCutsCleanly(msgs, keepMessages, keepRounds, cut);
      PlainFirst(Message(System, summary(msgs[..cut]), [], ""), msgs[cut..]);
    }
  }

  lemma PlainFirst(m: Message, rest: seq<Message>)
    requires Plain(m) && WellFormed(rest)
    ensures WellFormed([m] + rest)
  {
    assert ([m] + rest)[1..] == rest;
  }

  lemma NotingKeepsTheHead(msgs: seq<Message>, n: nat)
    requires msgs != [] && msgs[0].role != Tool
    ensures NoteOldest(msgs, n) != [] && NoteOldest(msgs, n)[0].role != Tool
  {
  }

  lemma DroppedCompacts(msgs: seq<Message>, keepRounds: nat)
    requires EndsInPrompt(msgs)
    ensures var r := Dropped(msgs, keepRounds); EndsInPrompt(r) && Compacts(msgs, r) && (Prompted(msgs) ==> Prompted(r))
  {
    hide WellFormed, NoteOldest, SystemFirst;
    var n := RoundCount(msgs);
    var k := if n <= keepRounds then 0 else n - keepRounds;
    NotingKeepsTheHead(msgs, k);
    NotingIsNoLonger(msgs, k);
    NotingKeepsTheLast(msgs, k);
    if Prompted(msgs) {
      NotingKeepsShape(msgs, k);
      NotingKeepsSystemFirst(msgs, k);
    }
  }

  lemma CompactsTransitive(a: seq<Message>, b: seq<Message>, c: seq<Message>)
    requires Compacts(a, b) && Compacts(b, c)
    ensures Compacts(a, c)
  {
  }

  lemma PromptedCompactsItself(msgs: seq<Message>)
    requires EndsInPrompt(msgs)
    ensures Compacts(msgs, msgs) && Trimmed(msgs) == msgs
  {
    TrimCaps(msgs);
  }

  /** The longest admissible cut. */
  ghost function LongestCut(msgs: seq<Message>, keepMessages: nat, keepRounds: nat, bound: nat): (cut: nat)
    ensures cut <= bound && (cut == 0 || Admissible(msgs, keepMessages, keepRounds, cut))
    ensures forall c: nat :: c <= bound && Admissible(msgs, keepMessages, keepRounds, c) ==> c <= cut
  {
    if bound == 0 || Admissible(msgs, keepMessages, keepRounds, bound) then bound
    else LongestCut(msgs, keepMessages, keepRounds, bound - 1)
  }

  lemma LongestCutIs(msgs: seq<Message>, keepMessages: nat, keepRounds: nat, cut: nat)
    requires Admissible(msgs, keepMessages, keepRounds, cut)
    requires forall c: nat :: Admissible(msgs, keepMessages, keepRounds, c) ==> c <= cut
    ensures LongestCut(msgs, keepMessages, keepRounds, |msgs|) == cut
  {
  }

  /** Nothing may be summarised. */
  ghost predicate Uncut(msgs: seq<Message>, keepMessages: nat, keepRounds: nat) {
    LongestCut(msgs, keepMessages, keepRounds, |msgs|) == 0
  }

  /** One summary in the place of the longest prefix that may go. */
  ghost function Shortened(summary: seq<Message> -> string, msgs: seq<Message>, keepMessages: nat, keepRounds: nat): seq<Message> {
    var cut := LongestCut(msgs, keepMessages, keepRounds, |msgs|);
    if 0 < cut <= |msgs| then Summarised(summary, msgs[..cut], msgs[cut..]) else msgs
  }

  /**
   The escalation: summarise, summarise harder, drop rounds, and stop at the
   first that fits; where nothing more helps, the plain cap.
   */
  ghost function Compacted(history: seq<Message>, over: seq<Message> -> bool, summary: seq<Message> -> string): seq<Message> {
    var once := Shortened(summary, history, KEEP_RECENT_MESSAGES, KEEP_TOOL_ROUNDS);
    var twice := Shortened(summary, once, KEEP_RECENT_MESSAGES / 2, 1);
    if Uncut(history, KEEP_RECENT_MESSAGES, KEEP_TOOL_ROUNDS) then Trimmed(history)
    else if !over(once) then once
    else if !over(twice) then twice
    else if !over(Dropped(twice, 1)) then Dropped(twice, 1)
    else Trimmed(Dropped(twice, 1))
  }

  /** r is msgs with its longest admissible beginning replaced by one system message that holds its summary. */
  ghost predicate SummaryOf(msgs: seq<Message>, keepMessages: nat, keepRounds: nat,
                            summary: seq<Message> -> string, r: seq<Message>) {
    exists cut: nat ::
      && 0 < cut <= |msgs| && Admissible(msgs, keepMessages, keepRounds, cut)
      && (forall c: nat :: Admissible(msgs, keepMessages, keepRounds, c) ==> c <= cut)
      && r != [] && r[0].role == System && r[0].content == summary(msgs[..cut]) && r[0].calls == []
      && r[1..] == msgs[cut..]
  }

  lemma ShortenedIsSummary(summary: seq<Message> -> string, msgs: seq<Message>, keepMessages: nat, keepRounds: nat)
    ensures if Uncut(msgs, keepMessages, keepRounds) then Shortened(summary, msgs, keepMessages, keepRounds) == msgs
            else SummaryOf(msgs, keepMessages, keepRounds, summary, Shortened(summary, msgs, keepMessages, keepRounds))
    ensures Uncut(msgs, keepMessages, keepRounds) <==>
              forall c: nat :: Admissible(msgs, keepMessages, keepRounds, c) ==> c == 0
  {
    hide Rounds;
    var cut := LongestCut(msgs, keepMessages, keepRounds, |msgs|);
    if cut > 0 {
      var r := Summarised(summary, msgs[..cut], msgs[cut..]);
      assert r[1..] == msgs[cut..];
      assert Admissible(msgs, keepMessages, keepRounds, cut);
    }
  }

  /**
   The stages of a compaction, each taken only when the one before did not fit:
   the plain cap where nothing may be summarised, one summary, a second and
   harder one, dropped rounds, and the plain cap at last.
   */
  ghost predicate Escalates(history: seq<Message>, over: seq<Message> -> bool, summary: seq<Message> -> string,
                            r: seq<Message>) {
    if forall c: nat :: Admissible(history, 8, 2, c) ==> c == 0 then KeepsTheNewest(history, r)
    else exists once ::
      && SummaryOf(history, 8, 2, summary, once)
      && (!over(once) ==> r == once)
      && (over(once) ==> exists twice ::
            && (SummaryOf(once, 4, 1, summary, twice)
                || (twice == once && forall c: nat :: Admissible(once, 4, 1, c) ==> c == 0))
            && (!over(twice) ==> r == twice)
            && (over(twice) && !over(Dropped(twice, 1)) ==> r == Dropped(twice, 1))
            && (over(twice) && over(Dropped(twice, 1)) ==> KeepsTheNewest(Dropped(twice, 1), r)))
  }

  lemma CompactedEscalates(history: seq<Message>, over: seq<Message> -> bool, summary: seq<Message> -> string)
    ensures Escalates(history, over, summary, Compacted(history, over, summary))
  {
    hide Shortened, Dropped, Trimmed, Uncut, SummaryOf, KeepsTheNewest, Admissible;
    var once := Shortened(summary, history, 8, 2);
    var twice := Shortened(summary, once, 4, 1);
    ShortenedIsSummary(summary, history, 8, 2);
    ShortenedIsSummary(summary, once, 4, 1);
    TrimKeepsTheNewest(history);
    TrimKeepsTheNewest(Dropped(twice, 1));
  }

  lemma ShortenedCompacts(summary: seq<Message> -> string, msgs: seq<Message>, keepMessages: nat, keepRounds: nat)
    requires EndsInPrompt(msgs) && keepMessages > 0
    ensures var r := Shortened(summary, msgs, keepMessages, keepRounds);
      EndsInPrompt(r) && Compacts(msgs, r) && (Prompted(msgs) ==> Prompted(r))
  {
    hide EndsInPrompt, Prompted, Compacts, Summarised, Rounds;
    PromptedCompactsItself(msgs);
    var cut := LongestCut(msgs, keepMessages, keepRounds, |msgs|);
    if 0 < cut {
      SummarisedCompacts(summary, msgs, cut, keepMessages, keepRounds);
    }
  }

  /**
   Whatever the estimator and the summariser say, compaction keeps the prompt
   and the cap, and the protocol if the history keeps it.
   */
  lemma CompactionIsSound(history: seq<Message>, over: seq<Message> -> bool, summary: seq<Message> -> string)
    requires EndsInPrompt(history)
    ensures var r := Compacted(history, over, summary);
      && Compacts(history, r) && EndsInPrompt(r) && (Prompted(history) ==> Prompted(r))
      && (Uncut(history, KEEP_RECENT_MESSAGES, KEEP_TOOL_ROUNDS) ==> r == history)
      && (over(r) && !Uncut(history, KEEP_RECENT_MESSAGES, KEEP_TOOL_ROUNDS) ==> RoundCount(r) <= 1)
  {
    hide EndsInPrompt, Prompted, Compacts, Shortened, Dropped, RoundCount, Uncut;
    var once := Shortened(summary, history, KEEP_RECENT_MESSAGES, KEEP_TOOL_ROUNDS);
    var twice := Shortened(summary, once, KEEP_RECENT_MESSAGES / 2, 1);
    PromptedCompactsItself(history);
    ShortenedCompacts(summary, history, KEEP_RECENT_MESSAGES, KEEP_TOOL_ROUNDS);
    ShortenedCompacts(summary, once, KEEP_RECENT_MESSAGES / 2, 1);
    CompactsTransitive(history, once, twice);
    DroppedCompacts(twice, 1);
    PromptedCompactsItself(Dropped(twice, 1));
    DroppingKeepsTheNewestRounds(twice, 1);
    CompactsTransitive(history, twice, Dropped(twice, 1));
  }

  method SummariseOnce(msgs: seq<Message>, keepMessages: nat, keepRounds: nat, summary: seq<Message> -> string)
    returns (r: seq<Message>, changed: bool)
    requires keepMessages > 0
    ensures r == Shortened(summary, msgs, keepMessages, keepRounds)
    ensures changed <==> !Uncut(msgs, keepMessages, keepRounds)
    ensures if changed then SummaryOf(msgs, keepMessages, keepRounds, summary, r) else r == msgs
  {
    hide Admissible, Summarised, SummaryOf;
    ShortenedIsSummary(summary, msgs, keepMessages, keepRounds);
    var prefix, keep := SplitForCompression(msgs, keepMessages, keepRounds);
    LongestCutIs(msgs, keepMessages, keepRounds, |prefix|);
    CutIsPrefix(msgs, prefix, keep);
    changed := |prefix| > 0;
    r := if changed then Summarised(summary, prefix, keep) else msgs;
  }

  /** compress. */
  method Compress(history: seq<Message>, over: seq<Message> -> bool, summary: seq<Message> -> string)
    returns (r: seq<Message>)
    ensures r == Compacted(history, over, summary)
    ensures Escalates(history, over, summary, r)
  {
    hide Shortened, Dropped, Trimmed, Uncut, Escalates;
    CompactedEscalates(history, over, summary);
    var changed;
    r, changed := SummariseOnce(history, KEEP_RECENT_MESSAGES, KEEP_TOOL_ROUNDS, summary);
    if !changed {
      r := TrimHistory(history);
      return;
    }
    if !over(r) {
      return;
    }
    r, changed := SummariseOnce(r, KEEP_RECENT_MESSAGES / 2, 1, summary);
    if changed && !over(r) {
      return;
    }
    r := DropOldToolResults(r, 1);
    if !over(r) {
      return;
    }
    r := TrimHistory(r);
  }

  lemma CutIsPrefix(msgs: seq<Message>, prefix: seq<Message>, keep: seq<Message>)
    requires prefix + keep == msgs
    ensures prefix == msgs[..|prefix|] && keep == msgs[|prefix|..]
  {
  }
}
