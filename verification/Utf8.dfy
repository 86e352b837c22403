/**
 UTF-8 over bytes (sections 3 and 4 of RFC 3629) and the terminal batcher's
 helpers that cut a byte stream without splitting a rune.
 */
module Utf8 {
  import opened Prelude

  /** A continuation byte; every other byte may start a rune (Go's utf8.RuneStart). */
  predicate Continuation(b: byte) {
    0x80 <= b < 0xC0
  }

  /** The length of the well-formed rune at the start of s, or 0 when there is none. */
  function RuneLen(s: Bytes): (n: nat)
    ensures n <= |s| && n <= 4
    ensures n > 0 ==> !Continuation(s[0]) && forall i :: 1 <= i < n ==> Continuation(s[i])
    ensures n == 1 <==> s != [] && s[0] < 0x80
  {
    if s == [] then 0
    else if s[0] < 0x80 then 1
    else if 0xC2 <= s[0] < 0xE0 then
      if |s| >= 2 && Continuation(s[1]) then 2 else 0
    else if 0xE0 <= s[0] < 0xF0 then
      if |s| >= 3 && SecondByte(s[0], s[1]) && Continuation(s[2]) then 3 else 0
    else if 0xF0 <= s[0] <= 0xF4 then
      if |s| >= 4 && SecondByte(s[0], s[1]) && Continuation(s[2]) && Continuation(s[3]) then 4 else 0
    else 0
  }

  /** The second bytes RFC 3629 allows after a three- or four-byte lead. */
  predicate SecondByte(lead: byte, b: byte) {
    && Continuation(b)
    && (lead == 0xE0 ==> b >= 0xA0)
    && (lead == 0xED ==> b < 0xA0)
    && (lead == 0xF0 ==> b >= 0x90)
    && (lead == 0xF4 ==> b < 0x90)
  }

  /** s is a sequence of whole runes. */
  predicate Valid(s: Bytes) {
    s == [] || (RuneLen(s) > 0 && Valid(s[RuneLen(s)..]))
  }

  /** s can be continued to a sequence of whole runes. */
  ghost predicate ValidPrefix(s: Bytes) {
    exists t: Bytes :: Valid(s + t)
  }

  lemma RuneLenOfPrefix(s: Bytes, t: Bytes)
    requires RuneLen(s) > 0
    ensures RuneLen(s + t) == RuneLen(s)
  {
  }

  lemma {:induction false} ValidAppend(s: Bytes, t: Bytes)
    requires Valid(s)
    ensures Valid(s + t) <==> Valid(t)
  {
    if s == [] {
      assert s + t == t;
    } else {
      var n := RuneLen(s);
      RuneLenOfPrefix(s, t);
      assert (s + t)[n..] == s[n..] + t;
      ValidAppend(s[n..], t);
    }
  }

  lemma {:induction false} ValidFlatten(parts: seq<Bytes>)
    requires forall p :: p in parts ==> Valid(p)
    ensures Valid(Flatten(parts))
  {
    if parts != [] {
      assert parts[0] in parts;
      ValidFlatten(parts[1..]);
      ValidAppend(parts[0], Flatten(parts[1..]));
    }
  }

  lemma ValidPrefixRest(s: Bytes, t: Bytes)
    requires Valid(s) && ValidPrefix(s + t)
    ensures ValidPrefix(t)
  {
    var u: Bytes :| Valid(s + t + u);
    assert s + t + u == s + (t + u);
    ValidAppend(s, t + u);
  }

  lemma ValidPrefixShorter(s: Bytes, t: Bytes)
    requires ValidPrefix(s + t)
    ensures ValidPrefix(s)
  {
    var u: Bytes :| Valid(s + t + u);
    assert s + t + u == s + (t + u);
  }

  lemma ValidIsValidPrefix(s: Bytes)
    requires Valid(s)
    ensures ValidPrefix(s)
  {
    assert s + [] == s;
  }

  // ---------------------------------------------------------------- partial runes

  /** The number of bytes a rune takes, judged by its first byte (utf8Len of the source). */
  function LengthByLead(lead: byte): nat {
    if lead < 0xE0 then 2 else if lead < 0xF0 then 3 else 4
  }

  /** A proper, non-empty beginning of one rune, as far as length and lead byte tell. */
  predicate Partial(s: Bytes) {
    && s != []
    && 0xC0 <= s[0] < 0xF8
    && |s| < LengthByLead(s[0])
    && forall i :: 1 <= i < |s| ==> Continuation(s[i])
  }

  /** The length of the longest beginning of s that is whole runes. */
  function WholeLen(s: Bytes): (n: nat)
    ensures n <= |s|
  {
    if RuneLen(s) == 0 then 0 else RuneLen(s) + WholeLen(s[RuneLen(s)..])
  }

  lemma RuneLenLocal(s: Bytes, t: Bytes)
    requires RuneLen(s + t) <= |s|
    ensures RuneLen(s) == RuneLen(s + t) || RuneLen(s + t) == 0
  {
  }

  lemma UnfinishedRuneIsPartial(s: Bytes)
    requires ValidPrefix(s) && RuneLen(s) == 0 && s != []
    ensures Partial(s) && BackToStart(s, |s| - 1) == 0
  {
    var t: Bytes :| Valid(s + t);
    assert forall i :: 0 <= i < |s| ==> (s + t)[i] == s[i];
    if RuneLen(s + t) <= |s| {
      RuneLenLocal(s, t);
    }
  }

  /** A valid stream cut anywhere is whole runes and then at most one partial rune. */
  lemma {:induction false} ValidPrefixShape(s: Bytes)
    requires ValidPrefix(s)
    ensures Valid(s[..WholeLen(s)])
    ensures var rest := s[WholeLen(s)..]; rest == [] || Partial(rest)
  {
    hide RuneLen, Partial;
    var n := RuneLen(s);
    if n == 0 {
      assert s[0..] == s;
      if s != [] {
        UnfinishedRuneIsPartial(s);
      }
    } else {
      assert s == s[..n] + s[n..];
      SingleRuneIsValid(s);
      ValidPrefixRest(s[..n], s[n..]);
      ValidPrefixShape(s[n..]);
      ValidAppend(s[..n], s[n..][..WholeLen(s[n..])]);
      assert s[..WholeLen(s)] == s[..n] + s[n..][..WholeLen(s[n..])];
      assert s[WholeLen(s)..] == s[n..][WholeLen(s[n..])..];
    }
  }

  lemma SingleRuneIsValid(s: Bytes)
    requires RuneLen(s) > 0
    ensures RuneLen(s[..RuneLen(s)]) == RuneLen(s) && Valid(s[..RuneLen(s)])
  {
    var r := s[..RuneLen(s)];
    assert r[RuneLen(s)..] == [];
  }

  // ---------------------------------------------------------------- cutting at a boundary

  /** In a valid stream a byte that may start a rune does start one. */
  lemma {:induction false} StartByteIsBoundary(s: Bytes, k: nat)
    requires ValidPrefix(s)
    requires k < |s| && !Continuation(s[k])
    ensures Valid(s[..k])
  {
    var n := RuneLen(s);
    if k > 0 {
      if n > 0 {
        assert s == s[..n] + s[n..];
        SingleRuneIsValid(s);
        ValidPrefixRest(s[..n], s[n..]);
        StartByteIsBoundary(s[n..], k - n);
        ValidAppend(s[..n], s[n..][..k - n]);
        assert s[..k] == s[..n] + s[n..][..k - n];
      } else {
        UnfinishedRuneIsPartial(s);
      }
    }
  }

  /** A valid stream never has four continuation bytes in a row, and starts with none. */
  lemma {:induction false} ContinuationRunsAreShort(s: Bytes, k: nat)
    requires ValidPrefix(s)
    requires k < |s|
    ensures exists i :: (if k < 3 then 0 else k - 3) <= i <= k && !Continuation(s[i])
  {
    var n := RuneLen(s);
    if n > 0 {
      if k < n {
        assert !Continuation(s[0]);
      } else {
        assert s == s[..n] + s[n..];
        SingleRuneIsValid(s);
        ValidPrefixRest(s[..n], s[n..]);
        ContinuationRunsAreShort(s[n..], k - n);
        var i :| (if k - n < 3 then 0 else k - n - 3) <= i <= k - n && !Continuation(s[n..][i]);
        assert !Continuation(s[n + i]);
      }
    } else {
      UnfinishedRuneIsPartial(s);
      assert !Continuation(s[0]);
    }
  }

  /** Walking back from position n to a byte that may start a rune. */
  function BackToStart(s: Bytes, n: nat): (k: nat)
    requires n < |s|
    ensures k <= n
    ensures k == 0 || !Continuation(s[k])
    ensures forall i :: k < i <= n ==> Continuation(s[i])
  {
    if n > 0 && Continuation(s[n]) then BackToStart(s, n - 1) else n
  }

  /** utf8PrefixLen: walks back from the limit to a byte that may start a rune. */
  method PrefixLen(s: Bytes, limit: int) returns (n: nat)
    ensures n == PrefixLenSpec(s, limit)
  {
    if limit >= |s| {
      return |s|;
    }
    if limit <= 0 {
      return 0;
    }
    n := limit;
    while n > 0 && Continuation(s[n])
      invariant n <= limit
      invariant BackToStart(s, n) == BackToStart(s, limit)
    {
      n := n - 1;
    }
  }

  function PrefixLenSpec(s: Bytes, limit: int): (n: nat)
    ensures n <= |s|
    ensures limit >= 0 ==> n <= limit || limit >= |s|
  {
    if limit >= |s| then |s| else if limit <= 0 then 0 else BackToStart(s, limit)
  }

  /** The source's trailingPartialLen: how many trailing bytes look like an unfinished rune. */
  method TrailingPartial(s: Bytes) returns (held: nat)
    ensures held == TrailingPartialSpec(s)
  {
    var n := |s|;
    if n == 0 {
      return 0;
    }
    var last := s[n - 1];
    if last < 0x80 {
      return 0;
    }
    var i: nat := n - 1;
    while i > 0 && Continuation(s[i])
      invariant i <= n - 1
      invariant BackToStart(s, i) == BackToStart(s, n - 1)
    {
      i := i - 1;
    }
    var lead := s[i];
    if lead >= 0xC0 && lead < 0xF8 {
      var want := LengthByLead(lead) - 1;
      var have := n - 1 - i;
      if have < want {
        return n - i;
      }
    }
    return 0;
  }

  function TrailingPartialSpec(s: Bytes): (held: nat)
    ensures held <= |s|
  {
    if s == [] || s[|s| - 1] < 0x80 then 0
    else
      var i := BackToStart(s, |s| - 1);
      if 0xC0 <= s[i] < 0xF8 && |s| - i < LengthByLead(s[i]) then |s| - i else 0
  }

  /** What a valid stream has beyond its whole runes is exactly what the helper holds back. */
  lemma {:induction false} TrailingPartialIsTheRest(s: Bytes)
    requires ValidPrefix(s)
    ensures TrailingPartialSpec(s) == |s| - WholeLen(s)
  {
    hide RuneLen, Valid, ValidPrefix, Continuation;
    var n := RuneLen(s);
    if n == 0 {
      if s != [] {
        UnfinishedRuneIsPartial(s);
        NothingWholeAllHeld(s);
      }
    } else if n == |s| {
      NothingHeldAfterOneRune(s);
      assert s[n..] == [];
    } else {
      var rest := s[n..];
      assert s == s[..n] + rest;
      SingleRuneIsValid(s);
      ValidPrefixRest(s[..n], rest);
      TrailingPartialIsTheRest(rest);
      FirstByteStarts(rest);
      HeldInRest(s, n);
    }
  }

  lemma HeldInRest(s: Bytes, n: nat)
    requires n < |s| && !Continuation(s[n])
    ensures TrailingPartialSpec(s) == TrailingPartialSpec(s[n..])
  {
    BackToStartInRest(s, n, |s| - 1);
    assert s[|s| - 1] == s[n..][|s| - n - 1];
  }

  lemma NothingWholeAllHeld(s: Bytes)
    requires Partial(s) && BackToStart(s, |s| - 1) == 0
    ensures TrailingPartialSpec(s) == |s|
  {
  }

  lemma NothingHeldAfterOneRune(s: Bytes)
    requires s != [] && RuneLen(s) == |s|
    ensures TrailingPartialSpec(s) == 0
  {
    if |s| > 1 {
      LeadTellsLength(s);
      assert BackToStart(s, |s| - 1) == 0;
    }
  }

  lemma LeadTellsLength(s: Bytes)
    requires RuneLen(s) > 1
    ensures 0xC0 <= s[0] < 0xF8 && LengthByLead(s[0]) == RuneLen(s)
  {
  }

  lemma FirstByteStarts(s: Bytes)
    requires ValidPrefix(s) && s != []
    ensures !Continuation(s[0])
  {
    var t: Bytes :| Valid(s + t);
    assert (s + t)[0] == s[0];
  }

  lemma {:induction false} BackToStartInRest(s: Bytes, n: nat, k: nat)
    requires n <= k < |s| && !Continuation(s[n])
    ensures BackToStart(s, k) == n + BackToStart(s[n..], k - n)
  {
    if k > n && Continuation(s[k]) {
      BackToStartInRest(s, n, k - 1);
    }
  }

  // ---------------------------------------------------------------- taking a batch

  datatype Batch = Batch(out: Bytes, rest: Bytes)

  /** What takeLocked removes from `pending`, and what it leaves. */
  function TakeBatch(pending: Bytes, max: nat, final: bool): (b: Batch)
    requires max > 0
    ensures b.out + b.rest == pending
    ensures b.out == [] ==> b.rest == pending
    ensures |b.out| <= max
    ensures final && pending != [] ==> b.out != []
  {
    if pending == [] then Batch([], [])
    else
      var fit := PrefixLenSpec(pending, max);
      var n := if fit > 0 then fit else if !final then 0 else if max > |pending| then |pending| else max;
      var cut := if final then n else n - TrailingPartialSpec(pending[..n]);
      Batch(pending[..cut], pending[cut..])
  }

  /** In a valid stream the capped prefix ends at a rune boundary, at most three bytes short. */
  lemma PrefixLenIsBoundary(s: Bytes, limit: nat)
    requires ValidPrefix(s) && 0 < limit < |s|
    ensures var n := PrefixLenSpec(s, limit); n >= limit - 3 && Valid(s[..n])
  {
    var n := PrefixLenSpec(s, limit);
    ContinuationRunsAreShort(s, limit);
    if n > 0 {
      StartByteIsBoundary(s, n);
    }
  }

  lemma NothingHeldAfterWholeRunes(s: Bytes)
    requires Valid(s)
    ensures TrailingPartialSpec(s) == 0
  {
    ValidIsValidPrefix(s);
    TrailingPartialIsTheRest(s);
    WholeLenOfValid(s);
  }

  /**
   A non-final take from a valid stream is whole runes, at most three bytes
   short of the cap or of what is pending, and leaves a valid stream.
   */
  lemma TakeKeepsRunesWhole(pending: Bytes, max: nat)
    requires max > 0 && ValidPrefix(pending)
    ensures var b := TakeBatch(pending, max, false);
            && Valid(b.out)
            && ValidPrefix(b.rest)
            && |b.out| >= (if |pending| < max then |pending| else max) - 3
  {
    hide RuneLen, Valid, BackToStart, TrailingPartialSpec, WholeLen, ValidPrefix;
    var b := TakeBatch(pending, max, false);
    if max >= |pending| {
      assert pending[..|pending|] == pending;
      TrailingPartialIsTheRest(pending);
      ValidPrefixShape(pending);
    } else {
      PrefixLenIsBoundary(pending, max);
      NothingHeldAfterWholeRunes(pending[..PrefixLenSpec(pending, max)]);
    }
    assert pending == b.out + b.rest;
    ValidPrefixRest(b.out, b.rest);
  }

  /** A final take from a complete valid stream is whole runes too, when a rune fits the cap. */
  lemma FinalTakeKeepsRunesWhole(pending: Bytes, max: nat)
    requires max >= 4 && Valid(pending)
    ensures var b := TakeBatch(pending, max, true); Valid(b.out) && Valid(b.rest)
  {
    var b := TakeBatch(pending, max, true);
    if max < |pending| {
      ValidIsValidPrefix(pending);
      ContinuationRunsAreShort(pending, max);
      var n := PrefixLenSpec(pending, max);
      StartByteIsBoundary(pending, n);
    } else {
      assert pending[..|pending|] == pending;
    }
    assert pending == b.out + b.rest;
    ValidAppend(b.out, b.rest);
  }

  lemma {:induction false} WholeLenOfValid(s: Bytes)
    requires Valid(s)
    ensures WholeLen(s) == |s|
  {
    if s != [] {
      WholeLenOfValid(s[RuneLen(s)..]);
    }
  }

  lemma {:induction false} WholeLenIsLongest(s: Bytes, k: nat)
    requires k <= |s| && Valid(s[..k])
    ensures k <= WholeLen(s)
    decreases |s|
  {
    if k > 0 {
      var n := RuneLen(s[..k]);
      RuneLenOfPrefix(s[..k], s[k..]);
      assert s == s[..k] + s[k..];
      assert s[..k][n..] == s[n..][..k - n];
      WholeLenIsLongest(s[n..], k - n);
    }
  }

  /** Cutting a valid stream in front of a continuation byte leaves no whole runes. */
  lemma CutInsideIsNotWhole(s: Bytes, k: nat)
    requires ValidPrefix(s) && k < |s| && Continuation(s[k])
    ensures !Valid(s[..k])
  {
    if Valid(s[..k]) {
      assert s == s[..k] + s[k..];
      ValidPrefixRest(s[..k], s[k..]);
      FirstByteStarts(s[k..]);
    }
  }

  /** The longest beginning that is whole runes and at most max bytes. */
  ghost predicate LongestWhole(pending: Bytes, max: nat, out: Bytes) {
    out <= pending && Valid(out) && forall k: nat :: |out| < k <= |pending| && k <= max ==> !Valid(pending[..k])
  }

  /** What a take from a valid stream is: as many whole runes as the cap allows. */
  lemma TakeIsLongest(pending: Bytes, max: nat)
    requires max > 0 && ValidPrefix(pending)
    ensures LongestWhole(pending, max, TakeBatch(pending, max, false).out)
    ensures max >= 4 && Valid(pending) ==> LongestWhole(pending, max, TakeBatch(pending, max, true).out)
  {
    hide RuneLen, Valid, BackToStart, TrailingPartialSpec, WholeLen, ValidPrefix;
    TakeKeepsRunesWhole(pending, max);
    if max >= |pending| {
      assert pending[..|pending|] == pending;
      TrailingPartialIsTheRest(pending);
      forall k: nat | WholeLen(pending) < k <= |pending| ensures !Valid(pending[..k]) {
        if Valid(pending[..k]) {
          WholeLenIsLongest(pending, k);
        }
      }
    } else {
      var n := PrefixLenSpec(pending, max);
      PrefixLenIsBoundary(pending, max);
      NothingHeldAfterWholeRunes(pending[..n]);
      forall k: nat | n < k <= max ensures !Valid(pending[..k]) {
        CutInsideIsNotWhole(pending, k);
      }
    }
  }

  // ---------------------------------------------------------------- replacing invalid bytes

  /** U+FFFD in UTF-8. */
  const REPLACEMENT: Bytes := [0xEF, 0xBF, 0xBD]

  /** Every maximal run of bytes outside well-formed runes becomes one replacement. */
  function Repaired(s: Bytes, inRun: bool): Bytes {
    if s == [] then []
    else if RuneLen(s) > 0 then s[..RuneLen(s)] + Repaired(s[RuneLen(s)..], false)
    else (if inRun then [] else REPLACEMENT) + Repaired(s[1..], true)
  }

  lemma {:induction false} RepairOfValid(s: Bytes, inRun: bool)
    requires Valid(s)
    ensures Repaired(s, inRun) == s
  {
    if s != [] {
      RepairOfValid(s[RuneLen(s)..], false);
      assert s == s[..RuneLen(s)] + s[RuneLen(s)..];
    }
  }

  /** Whatever the bytes, what is emitted is valid UTF-8. */
  lemma {:induction false} RepairIsValid(s: Bytes, inRun: bool)
    ensures Valid(Repaired(s, inRun))
  {
    if s != [] {
      var n := RuneLen(s);
      if n > 0 {
        SingleRuneIsValid(s);
        RepairIsValid(s[n..], false);
        ValidAppend(s[..n], Repaired(s[n..], false));
      } else {
        RepairIsValid(s[1..], true);
        assert RuneLen(REPLACEMENT) == 3 && REPLACEMENT[3..] == [];
        ValidAppend(REPLACEMENT, Repaired(s[1..], true));
        assert [] + Repaired(s[1..], true) == Repaired(s[1..], true);
      }
    }
  }

  /** Whole runes in front are kept as they are. */
  lemma {:induction false} RepairKeepsRunes(a: Bytes, t: Bytes)
    requires Valid(a)
    ensures Repaired(a + t, false) == a + Repaired(t, false)
  {
    hide RuneLen;
    if a == [] {
      assert a + t == t;
    } else {
      var n := RuneLen(a);
      RuneLenOfPrefix(a, t);
      assert (a + t)[n..] == a[n..] + t && (a + t)[..n] == a[..n];
      RepairKeepsRunes(a[n..], t);
      ConcatAssociative(a[..n], a[n..], Repaired(t, false));
      assert a[..n] + a[n..] == a;
    }
  }

  lemma RunEnds(s: Bytes)
    requires s == [] || RuneLen(s) > 0
    ensures Repaired(s, true) == Repaired(s, false)
  {
  }

  lemma RunStarts(s: Bytes)
    requires s != [] && RuneLen(s) == 0
    ensures Repaired(s, false) == REPLACEMENT + Repaired(s[1..], true)
    ensures Repaired(s, true) == Repaired(s[1..], true)
  {
    assert [] + Repaired(s[1..], true) == Repaired(s[1..], true);
  }

  /** No rune starts at any of the first n bytes, and one does behind them unless they are the end. */
  ghost predicate BadRun(s: Bytes, n: nat) {
    && n <= |s| && (n == |s| || RuneLen(s[n..]) > 0)
    && forall i :: 0 <= i < n ==> RuneLen(s[i..]) == 0
  }

  lemma BadRunTail(s: Bytes, n: nat)
    requires BadRun(s, n)
    ensures n == 0 ==> s[n..] == s && (s == [] || RuneLen(s) > 0)
    ensures n > 0 ==> BadRun(s[1..], n - 1) && s[1..][n - 1..] == s[n..] && s != [] && RuneLen(s) == 0
  {
    hide RuneLen;
    assert s[0..] == s;
    if n > 0 {
      forall i | 0 <= i < n - 1 ensures RuneLen(s[1..][i..]) == 0 {
        assert s[1..][i..] == s[i + 1..];
      }
      assert s[1..][n - 1..] == s[n..];
    }
  }

  lemma {:induction false} RestOfTheRun(s: Bytes, n: nat)
    requires BadRun(s, n)
    ensures Repaired(s, true) == Repaired(s[n..], false)
  {
    hide RuneLen, Repaired;
    BadRunTail(s, n);
    if n == 0 {
      RunEnds(s);
    } else {
      RunStarts(s);
      RestOfTheRun(s[1..], n - 1);
    }
  }

  /** A run of bytes at which no rune starts becomes one U+FFFD. */
  lemma RepairReplacesARun(s: Bytes, n: nat)
    requires BadRun(s, n) && n > 0
    ensures Repaired(s, false) == [0xEF, 0xBF, 0xBD] + Repaired(s[n..], false)
  {
    hide RuneLen, Repaired, BadRun;
    BadRunTail(s, n);
    RunStarts(s);
    RestOfTheRun(s[1..], n - 1);
  }

  /** One turn of the repair loop at index i, with `done` already produced. */
  lemma RepairedStep(done: Bytes, s: Bytes, i: nat, inRun: bool)
    requires i < |s|
    ensures var size := RuneLen(s[i..]);
            done + Repaired(s[i..], inRun)
              == if size > 0 then done + s[i..i + size] + Repaired(s[i + size..], false)
                 else (if inRun then done else done + REPLACEMENT) + Repaired(s[i + 1..], true)
  {
    var size := RuneLen(s[i..]);
    assert s[i..][..size] == s[i..i + size] && s[i..][size..] == s[i + size..];
    assert s[i..][1..] == s[i + 1..];
    if size > 0 {
      ConcatAssociative(done, s[i..i + size], Repaired(s[i + size..], false));
    } else {
      ConcatAssociative(done, if inRun then [] else REPLACEMENT, Repaired(s[i + 1..], true));
      assert done + [] == done;
    }
  }

  lemma RepairedEnd(done: Bytes, s: Bytes, inRun: bool)
    ensures done + Repaired(s[|s|..], inRun) == done
  {
  }

  /** The emit-time repair loop (toValidUTF8). */
  method ToValidUtf8(s: Bytes) returns (r: Bytes)
    ensures r == Repaired(s, false)
    ensures Valid(r)
    ensures Valid(s) ==> r == s
  {
    RepairIsValid(s, false);
    if Valid(s) {
      RepairOfValid(s, false);
      return s;
    }
    r := RepairLoop(s);
  }

  method RepairLoop(s: Bytes) returns (r: Bytes)
    ensures r == Repaired(s, false)
  {
    hide RuneLen, Repaired;
    r := [];
    var invalid := false;
    var i: nat := 0;
    assert s[0..] == s;
    while i < |s|
      invariant i <= |s|
      invariant r + Repaired(s[i..], invalid) == Repaired(s, false)
    {
      var size := RuneLen(s[i..]);
      RepairedStep(r, s, i, invalid);
      if size == 0 {
        r := if invalid then r else r + REPLACEMENT;
        i, invalid := i + 1, true;
      } else {
        r := r + s[i..i + size];
        i, invalid := i + size, false;
      }
    }
    RepairedEnd(r, s, invalid);
  }
}
