/** Which lines the Codex document is cut at, which lines are read, and what a detection means. */
module CodexLaws {
  import opened Prelude
  import opened TomlStrings
  import opened CodexConfig
  import opened CodexTheorems
  import opened CodexEntries

  // ---------------------------------------------------------------- lines

  /** Blanks, the header, and behind it blanks and perhaps a comment. */
  ghost predicate HeaderLine(line: string) {
    exists i: nat, j: nat :: HeaderSpans(line, i, j)
  }

  ghost predicate OnlyOf(chars: string, s: string) {
    forall c :: c in s ==> c in chars
  }

  lemma OnlyBlanks(s: string)
    ensures OnlyOf(" \t", s) <==> AllIn(Blanks, s)
    ensures OnlyOf(" \t\r", s) <==> AllIn(BlanksCr, s)
  {
    TheBlanks();
  }

  lemma TheBlanks()
    ensures forall c :: c in " \t" <==> In(Blanks, c)
    ensures forall c :: c in " \t\r" <==> In(BlanksCr, c)
  {
    var two, three := " \t", " \t\r";
    assert two[0] == ' ' && two[1] == '\t' && three[0] == ' ' && three[1] == '\t' && three[2] == '\r';
  }

  ghost predicate HeaderSpans(line: string, i: nat, j: nat) {
    var head := "[mcp_servers.nodeshell]";
    && i + |head| + j <= |line| && line[i..i + |head|] == head
    && OnlyOf(" \t", line[..i]) && OnlyOf(" \t\r", line[i + |head|..i + |head| + j])
    && (i + |head| + j == |line| || line[i + |head| + j] == '#')
  }

  lemma HeaderExactly(line: string)
    ensures IsHeader(line) <==> HeaderLine(line)
  {
    hide TrimLeft, OnlyOf, AllIn;
    if IsHeader(line) {
      var t := TrimLeft(Blanks, line);
      var i := |line| - |t|;
      TrimLeftDrops(Blanks, line);
      TrimLeftIsSuffix(Blanks, line);
      var more := t[|HEADER|..];
      var r := TrimLeft(BlanksCr, more);
      TrimLeftDrops(BlanksCr, more);
      TrimLeftIsSuffix(BlanksCr, more);
      var j := |more| - |r|;
      OnlyBlanks(line[..i]);
      OnlyBlanks(more[..j]);
      assert line[i..] == t && line[i..i + |HEADER|] == t[..|HEADER|];
      assert line[i + |HEADER|..] == more && line[i + |HEADER|..i + |HEADER| + j] == more[..j];
      assert HeaderSpans(line, i, j);
    }
    if HeaderLine(line) {
      var i: nat, j: nat :| HeaderSpans(line, i, j);
      SpansIsHeader(line, i, j);
    }
  }

  lemma TrimsTo(cut: Cut, s: string, k: nat)
    requires k <= |s| && AllIn(cut, s[..k]) && (k < |s| ==> !In(cut, s[k]))
    ensures TrimLeft(cut, s) == s[k..]
  {
    hide In, AllIn, TrimLeft;
    assert s == s[..k] + s[k..];
    TrimLeftParts(cut, s[..k], s[k..]);
    if k == |s| {
      TrimLeftWhole(cut, s[k..]) by { NothingIsIn(cut); }
      NothingIsIn(cut);
    } else {
      TrimLeftWhole(cut, s[k..]);
    }
  }

  lemma SpanSlices(line: string, i: nat, h: nat, j: nat)
    requires i + h + j <= |line|
    ensures line[i..][..h] == line[i..i + h] && line[i..][h..] == line[i + h..]
    ensures line[i + h..][..j] == line[i + h..i + h + j]
  {
  }

  lemma SpansIsHeader(line: string, i: nat, j: nat)
    requires HeaderSpans(line, i, j)
    ensures IsHeader(line)
  {
    hide TrimLeft, AllIn, OnlyOf;
    var h := |HEADER|;
    SpanSlices(line, i, h, j);
    OnlyBlanks(line[i + h..i + h + j]);
    OnlyBlanks(line[..i]);
    assert line[i] == line[i..i + h][0] == '[';
    TrimsTo(Blanks, line, i);
    TrimsTo(BlanksCr, line[i + h..], j);
  }

  /** Blanks and an opening bracket: whatever stands behind it, the line opens a table. */
  lemma TableExactly(line: string)
    ensures OpensTable(line) <==> exists k: nat :: OpensAt(line, k)
  {
    hide TrimLeft, OnlyOf, AllIn;
    var t := TrimLeft(Blanks, line);
    TrimLeftDrops(Blanks, line);
    TrimLeftIsSuffix(Blanks, line);
    OnlyBlanks(line[..|line| - |t|]);
    if OpensTable(line) {
      assert OpensAt(line, |line| - |t|);
    }
    if k: nat :| OpensAt(line, k) {
      OnlyBlanks(line[..k]);
      TrimsTo(Blanks, line, k);
    }
  }

  ghost predicate OpensAt(line: string, k: nat) {
    k < |line| && line[k] == '[' && OnlyOf(" \t", line[..k])
  }

  predicate LineStart(text: string, k: nat): (r: bool)
    ensures r ==> k <= |text|
  {
    k <= |text| && (k == 0 || text[k - 1] == '\n')
  }

  function LineFrom(text: string, k: nat): string
    requires k <= |text|
  {
    FirstLine(text[k..])
  }

  /** The lines behind the first one are the lines of what follows it. */
  lemma LinesShift(text: string, k: nat)
    requires Behind(text).Some? && 0 < k && LineStart(text, k)
    ensures var n := |FirstLine(text)| + 1;
      k >= n && LineStart(Behind(text).value, k - n) && LineFrom(text, k) == LineFrom(Behind(text).value, k - n)
  {
    var line, rest := FirstLine(text), Behind(text).value;
    var n := |line| + 1;
    NoBreakInside(text);
    assert text[n..] == rest && text[k..] == rest[k - n..];
    assert k > n ==> text[k - 1] == rest[k - n - 1];
  }

  lemma NoBreakInside(text: string)
    ensures forall i :: 0 <= i < |FirstLine(text)| ==> text[i] != '\n'
  {
    forall i | 0 <= i < |FirstLine(text)| ensures text[i] != '\n' {
      assert FirstLine(text)[i] in FirstLine(text);
    }
  }

  lemma LinesShiftBack(text: string, k: nat)
    requires Behind(text).Some? && LineStart(Behind(text).value, k)
    ensures var n := |FirstLine(text)| + 1;
      LineStart(text, n + k) && LineFrom(text, n + k) == LineFrom(Behind(text).value, k)
  {
    var n := |FirstLine(text)| + 1;
    assert text[n..] == Behind(text).value && text[n + k..] == Behind(text).value[k..];
  }

  lemma OneLineOnly(text: string)
    requires Behind(text).None?
    ensures forall k: nat :: LineStart(text, k) ==> k == 0
  {
    NoBreakInside(text);
  }

  /** The header found is the first line that is one. */
  lemma {:induction false} FoundExactly(text: string)
    ensures var i := FindHeader(text);
      && (i >= 0 ==> LineStart(text, i) && HeaderLine(LineFrom(text, i)))
      && forall k: nat :: LineStart(text, k) && (i < 0 || k < i) ==> !HeaderLine(LineFrom(text, k))
    decreases |text|
  {
    hide HeaderLine, FirstLine, IsHeader, LineStart, LineFrom;
    var i := FindHeader(text);
    FirstStart(text);
    HeaderExactly(FirstLine(text));
    if Behind(text).Some? {
      var rest := Behind(text).value;
      FoundExactly(rest);
      if FindHeader(rest) >= 0 {
        LinesShiftBack(text, FindHeader(rest));
      }
    }
    if Behind(text).None? {
      OneLineOnly(text);
    }
    forall k: nat | LineStart(text, k) && (i < 0 || k < i) ensures !HeaderLine(LineFrom(text, k)) {
      if k > 0 {
        LinesShift(text, k);
      }
    }
  }

  lemma FirstStart(text: string)
    ensures LineStart(text, 0) && LineFrom(text, 0) == FirstLine(text)
  {
    assert text[0..] == text;
  }

  /** The block ends at the first line behind its own that opens a table, or at the end of the text. */
  lemma {:induction false} BlockExactly(text: string)
    ensures var n := BlockLength(text);
      && (n < |text| ==> n > 0 && LineStart(text, n) && OpensTable(LineFrom(text, n)))
      && forall k: nat :: 0 < k < n && LineStart(text, k) ==> !OpensTable(LineFrom(text, k))
    decreases |text|
  {
    hide OpensTable, FirstLine, LineStart, LineFrom;
    var n := BlockLength(text);
    if Behind(text).Some? {
      var rest := Behind(text).value;
      FirstStart(rest);
      LinesShiftBack(text, 0);
      if !OpensTable(FirstLine(rest)) {
        BlockExactly(rest);
        if BlockLength(rest) < |rest| {
          LinesShiftBack(text, BlockLength(rest));
        }
      }
      forall k: nat | 0 < k < n && LineStart(text, k) ensures !OpensTable(LineFrom(text, k)) {
        LinesShift(text, k);
      }
    } else {
      OneLineOnly(text);
    }
  }

  // ---------------------------------------------------------------- what a merge leaves alone

  /** A table that follows the block survives a merge: it and all behind it end the document, up to trailing blanks. */
  lemma NextTableSurvives(text: string, spec: LaunchSpec, k: nat) returns (i: nat)
    requires 0 <= FindHeader(text) < k < |text| && text[k - 1] == '\n' && text[k] == '['
    ensures i <= |Merge(text, spec)|
    ensures Merge(text, spec)[i..] == TrimRight(BlanksCrLf, text[k..]) + DetectEol(text)
  {
    hide Merge, Render, FindHeader, TrimRight, FirstLine, Tidy, BlockLength;
    var start, eol := FindHeader(text), DetectEol(text);
    var end := start + BlockLength(text[start..]);
    EndsBefore(text, start, k);
    MergeKeepsTheRest(text, spec);
    var front := text[..start] + Render(spec, eol);
    TailSurvives(front, text[end..k], text[k..], eol);
    assert text[end..] == text[end..k] + text[k..];
    i := |front + text[end..k]|;
    assert Merge(text, spec) == front + text[end..k] + (TrimRight(BlanksCrLf, text[k..]) + eol);
  }

  lemma EndsBefore(text: string, start: nat, k: nat)
    requires start < k < |text| && text[k - 1] == '\n' && text[k] == '['
    ensures start + BlockLength(text[start..]) <= k
  {
    hide BlockLength, FirstLine, OpensTable;
    var block := text[start..];
    BlockExactly(block);
    TableOpens(text[k..]);
    assert block[k - start - 1] == '\n' && block[k - start..] == text[k..];
    assert LineStart(block, k - start);
  }

  lemma TailSurvives(front: string, gap: string, table: string, eol: string)
    requires table != "" && table[0] == '['
    ensures front + Tidy(gap + table, eol) == front + gap + (TrimRight(BlanksCrLf, table) + eol)
  {
    hide TrimRight;
    var kept := TrimRight(BlanksCrLf, table);
    BracketIsKept(table);
    TrimRightParts(BlanksCrLf, gap, table);
    ConcatAssociative(gap, kept, eol);
    ConcatAssociative(front, gap, kept + eol);
  }

  lemma TableOpens(t: string)
    requires t != "" && t[0] == '['
    ensures OpensTable(FirstLine(t))
  {
    TrimLeftWhole(Blanks, t);
    OpensWithText(t);
  }

  lemma BracketIsKept(t: string)
    requires t != "" && t[0] == '['
    ensures TrimRight(BlanksCrLf, t) != ""
  {
    TrimRightAll(BlanksCrLf, t);
    assert t[0] in t;
  }

  /** The merged text keeps the kind of line ending: a carriage return is written exactly when the text has one before a line feed. */
  lemma EolExactly(text: string)
    ensures DetectEol(text) == "\r\n" <==> exists i :: 0 < i < |text| && text[i - 1] == '\r' && text[i] == '\n'
  {
  }

  // ---------------------------------------------------------------- what a detection means

  /** Missing without a header line; registered when the block reads as a command that is the same under norm, with --mcp. */
  lemma DetectExactly(text: string, spec: LaunchSpec, norm: string -> string)
    ensures Detect(text, spec, norm).Missing? <==>
              forall k: nat :: LineStart(text, k) ==> !HeaderLine(LineFrom(text, k))
    ensures Detect(text, spec, norm).Registered? <==>
              && FindHeader(text) >= 0
              && exists found ::
                   && ReadBlock(text[FindHeader(text)..][..BlockLength(text[FindHeader(text)..])]) == Some(found)
                   && norm(found.command) == norm(spec.command) && "--mcp" in found.args
  {
    hide HeaderLine, FindHeader, BlockLength, ReadBlock, LineStart, LineFrom;
    FoundExactly(text);
    var start := FindHeader(text);
    if start >= 0 {
      var n := BlockLength(text[start..]);
      assert text[start..][..n] == text[start..start + n];
    }
  }

  /** Whose registration a document carries: that of the same command and no other. */
  lemma OtherSpecIsDetected(text: string, other: LaunchSpec, spec: LaunchSpec, norm: string -> string)
    ensures Detect(Merge(text, other), spec, norm)
         == if other.command != "" && norm(other.command) == norm(spec.command) && "--mcp" in other.args
            then Registered else Stale
  {
    var m := MergeShape(text, other);
    MergedBlock(Merge(text, other), m, other);
    RenderedReadsBack(other, m.cr);
    hide Merge, Render, ReadBlock, OpensTable, Tidy, DetectEol, FindHeader, BlockLength;
  }

  // ---------------------------------------------------------------- the lines of a block

  /** Blank lines, comments, table headers, lines without '=', and other keys say nothing. */
  lemma OtherLineSkips(line: string, rest: string, spec: LaunchSpec)
    requires '\n' !in line
    requires KeyOf(line).None? || !IsKey(KeyOf(line).value)
    ensures ReadLines(Cons(line, rest), spec) == ReadLines(rest, spec)
    ensures ReadLines(line, spec) == Some(spec)
  {
    hide FirstLine, TrimSpace, Behind, Find, Read, ReadArray;
    LineIs(line, rest);
    LastLineIs(line);
    OneLine(Cons(line, rest), spec);
  }

  /** A line with a key and its whole value is applied to what was read before: the last one wins. */
  lemma EntryLineApplies(key: string, before: string, after: string, value: string, rest: string, spec: LaunchSpec)
    requires IsKey(key) && IsValue(key, value) && '\n' !in value
    requires AllIn(White, before) && AllIn(White, after) && '\n' !in before && '\n' !in after
    ensures ReadLines(Cons(key + before + "=" + (after + value), rest), spec)
         == ReadLines(rest, if key == "command" then spec.(command := Read(value).value.value)
                            else spec.(args := ReadArray(value).value))
  {
    hide EntryAt, FirstLine, Behind, Read, ReadArray, ReadLines, AllIn;
    var line := key + before + "=" + (after + value);
    EntryReads(key, before, after, value, "\n" + rest);
    EntryText(key + before + "=", after, value, rest);
    KeyFacts(key);
    LineIs(line, rest);
    OneLine(Cons(line, rest), spec);
  }

  lemma EntryText(front: string, after: string, value: string, rest: string)
    ensures Cons(front + (after + value), rest) == front + (after + (value + ("\n" + rest)))
  {
    ConcatAssociative(front, after + value, "\n" + rest);
    ConcatAssociative(after, value, "\n" + rest);
    ConcatAssociative(front + (after + value), "\n", rest);
  }
}
