/** What merging a registration into a Codex document guarantees. */
module CodexTheorems {
  import opened Prelude
  import opened TomlStrings
  import opened CodexConfig

  // ---------------------------------------------------------------- trimming

  ghost predicate AllIn(cut: Cut, s: string) {
    forall c :: c in s ==> In(cut, c)
  }

  lemma {:induction false} TrimRightParts(cut: Cut, a: string, b: string)
    ensures TrimRight(cut, b) != "" ==> TrimRight(cut, a + b) == a + TrimRight(cut, b)
    ensures TrimRight(cut, b) == "" ==> TrimRight(cut, a + b) == TrimRight(cut, a)
    decreases |b|
  {
    if b == "" {
      assert a + b == a;
    } else if In(cut, b[|b| - 1]) {
      TrimRightParts(cut, a, b[..|b| - 1]);
      assert (a + b)[..|a + b| - 1] == a + b[..|b| - 1];
    }
  }

  lemma {:induction false} TrimRightAll(cut: Cut, s: string)
    ensures AllIn(cut, s) ==> TrimRight(cut, s) == ""
    ensures AllIn(cut, s[|TrimRight(cut, s)|..])
  {
    if s != "" && In(cut, s[|s| - 1]) {
      TrimRightAll(cut, s[..|s| - 1]);
      var n := |TrimRight(cut, s)|;
      assert s[n..] == s[..|s| - 1][n..] + [s[|s| - 1]];
    } else if s != "" {
      assert s[|s| - 1] in s;
      assert s[|s|..] == "";
    }
  }

  lemma AllInHead(cut: Cut, s: string)
    requires s != ""
    ensures AllIn(cut, s) <==> In(cut, s[0]) && AllIn(cut, s[1..])
  {
    assert s == [s[0]] + s[1..];
  }

  lemma {:induction false} TrimLeftParts(cut: Cut, a: string, b: string)
    ensures AllIn(cut, a) ==> TrimLeft(cut, a + b) == TrimLeft(cut, b)
    ensures !AllIn(cut, a) ==> TrimLeft(cut, a) != "" && TrimLeft(cut, a + b) == TrimLeft(cut, a) + b
    decreases |a|
  {
    hide In, AllIn;
    if a == "" {
      assert a + b == b;
      NothingIsIn(cut);
    } else {
      AllInHead(cut, a);
      if In(cut, a[0]) {
        TrimLeftParts(cut, a[1..], b);
        assert (a + b)[1..] == a[1..] + b;
      }
    }
  }

  lemma NothingIsIn(cut: Cut)
    ensures AllIn(cut, "")
  {
  }

  /** Text without anything to trim in front trims to itself; blanks trim to nothing. */
  lemma TrimLeftWhole(cut: Cut, s: string)
    ensures s != "" && !In(cut, s[0]) ==> TrimLeft(cut, s) == s
    ensures AllIn(cut, s) ==> TrimLeft(cut, s) == ""
  {
    hide In, AllIn;
    TrimLeftParts(cut, s, "");
    assert s + "" == s;
  }

  lemma {:induction false} TrimLeftIsSuffix(cut: Cut, s: string)
    ensures TrimLeft(cut, s) == s[|s| - |TrimLeft(cut, s)|..]
    ensures forall c :: c in TrimLeft(cut, s) ==> c in s
  {
    if s != "" && In(cut, s[0]) {
      TrimLeftIsSuffix(cut, s[1..]);
    }
  }

  // ---------------------------------------------------------------- lines

  lemma {:induction false} FindIs(s: string, t: string, c: char)
    requires c !in s
    ensures Find(s + [c] + t, c) == |s|
  {
    var all := s + [c] + t;
    if s == "" {
      assert all[0] == c;
    } else {
      FindIs(s[1..], t, c);
      assert all[0] == s[0] && s[0] in s;
      assert all[1..] == s[1..] + [c] + t;
    }
  }

  lemma {:induction false} FindNone(s: string, c: char)
    requires c !in s
    ensures Find(s, c) == -1
  {
    if s != "" {
      assert s[0] in s;
      FindNone(s[1..], c);
    }
  }

  /** A line, its line feed and what follows. */
  function Cons(line: string, rest: string): (text: string)
    ensures |text| == |line| + 1 + |rest|
  {
    line + "\n" + rest
  }

  lemma ConsAppend(line: string, rest: string, tail: string)
    ensures Cons(line, rest) + tail == Cons(line, rest + tail)
  {
    ConcatAssociative(line + "\n", rest, tail);
  }

  lemma ConsPrepend(text: string, line: string, rest: string)
    ensures text + Cons(line, rest) == Cons(text + line, rest)
  {
    ConcatAssociative(text, line + "\n", rest);
    ConcatAssociative(text, line, "\n");
  }

  lemma LineIs(line: string, rest: string)
    requires '\n' !in line
    ensures FirstLine(Cons(line, rest)) == line && Behind(Cons(line, rest)) == Some(rest)
  {
    hide Find;
    var text := Cons(line, rest);
    FindIs(line, rest, '\n');
    assert text == line + ['\n'] + rest;
    assert text[..|line|] == line && text[|line| + 1..] == rest;
  }

  lemma LastLineIs(line: string)
    requires '\n' !in line
    ensures FirstLine(line) == line && Behind(line).None?
  {
    hide Find;
    FindNone(line, '\n');
  }

  /** A line opens a table just when the text that starts with it does. */
  lemma OpensWithText(text: string)
    ensures OpensTable(FirstLine(text)) <==> OpensTable(text)
  {
    hide FirstLine, AllIn;
    var line := FirstLine(text);
    var more := text[|line|..];
    assert text == line + more;
    TrimLeftParts(Blanks, line, more);
    TrimLeftWhole(Blanks, line);
    if AllIn(Blanks, line) && more != "" {
      assert more[0] == '\n';
      TrimLeftWhole(Blanks, more);
    }
  }

  lemma OpensFurther(text: string, more: string)
    requires OpensTable(text)
    ensures OpensTable(text + more)
  {
    hide AllIn;
    TrimLeftParts(Blanks, text, more);
    TrimLeftWhole(Blanks, text);
  }

  lemma BlanksNeverOpen(blanks: string)
    requires AllIn(BlanksCrLf, blanks)
    ensures !OpensTable(blanks)
  {
    TrimLeftIsSuffix(Blanks, blanks);
    var t := TrimLeft(Blanks, blanks);
    if t != "" {
      assert t[0] in t;
    }
  }

  /** Blanks behind a text open no table. */
  lemma BlanksOpenNothing(text: string, more: string)
    requires OpensTable(text + more) && AllIn(BlanksCrLf, more)
    ensures OpensTable(text)
  {
    TrimLeftParts(Blanks, text, more);
    BlanksNeverOpen(more);
  }

  // ---------------------------------------------------------------- finding the block again

  /** Replacing everything from the header on by a text with a header leaves the header where it was. */
  lemma {:induction false} FindReplaced(text: string, rest: string)
    requires FindHeader(text) >= 0 && IsHeader(FirstLine(rest))
    ensures FindHeader(text[..FindHeader(text)] + rest) == FindHeader(text)
    decreases |text|
  {
    hide IsHeader, FirstLine, Behind;
    if IsHeader(FirstLine(text)) {
      assert text[..0] + rest == rest;
    } else {
      var line, more := FirstLine(text), Behind(text).value;
      var i := FindHeader(more);
      FindReplaced(more, rest);
      LineIs(line, more[..i] + rest);
      PrefixOf(line, more, i);
      ConsAppend(line, more[..i], rest);
    }
  }

  lemma PrefixOf(line: string, more: string, i: nat)
    requires i <= |more|
    ensures (line + "\n" + more)[..|line| + 1 + i] == Cons(line, more[..i])
  {
  }

  lemma HeaderHasNoBlank()
    ensures forall c :: c in HEADER ==> !In(BlanksCrLf, c)
  {
  }

  /** A prefix without blanks is not completed by blanks. */
  lemma PrefixBeforeBlanks(t: string, blanks: string)
    requires AllIn(BlanksCr, blanks)
    ensures HEADER <= t + blanks <==> HEADER <= t
    ensures HEADER <= t ==> (t + blanks)[|HEADER|..] == t[|HEADER|..] + blanks
  {
    HeaderHasNoBlank();
    var all := t + blanks;
    if |t| < |HEADER| && blanks != "" {
      assert all[|t|] == blanks[0] && blanks[0] in blanks;
      assert HEADER[|t|] in HEADER;
      assert HEADER[|t|] != all[|t|];
    }
  }

  /** Blanks behind a line do not change whether it is the header. */
  lemma HeaderIgnoresBlanks(line: string, blanks: string)
    requires line != "" && !In(BlanksCrLf, line[|line| - 1]) && AllIn(BlanksCr, blanks)
    ensures IsHeader(line + blanks) <==> IsHeader(line)
  {
    hide HEADER, TrimLeft;
    LastIsIn(Blanks, line);
    TrimLeftParts(Blanks, line, blanks);
    var t := TrimLeft(Blanks, line);
    TrimLeftIsSuffix(Blanks, line);
    assert t[|t| - 1] == line[|line| - 1];
    PrefixBeforeBlanks(t, blanks);
    if HEADER <= t {
      HeaderRest(t[|HEADER|..], blanks);
    }
  }

  lemma LastIsIn(cut: Cut, s: string)
    requires s != "" && !In(BlanksCrLf, s[|s| - 1]) && cut != White
    ensures !AllIn(cut, s)
  {
    assert s[|s| - 1] in s;
  }

  lemma HeaderRest(rest: string, blanks: string)
    requires rest == "" || !In(BlanksCrLf, rest[|rest| - 1])
    requires AllIn(BlanksCr, blanks)
    ensures rest == "" ==> TrimLeft(BlanksCr, rest) == "" && TrimLeft(BlanksCr, rest + blanks) == ""
    ensures rest != "" ==> TrimLeft(BlanksCr, rest) != "" && TrimLeft(BlanksCr, rest + blanks) == TrimLeft(BlanksCr, rest) + blanks
  {
    hide AllIn;
    TrimLeftParts(BlanksCr, rest, blanks);
    TrimLeftWhole(BlanksCr, blanks);
    if rest != "" {
      LastIsIn(BlanksCr, rest);
    } else {
      NothingIsIn(BlanksCr);
    }
  }

  /** What ends a line of the document: a carriage return or nothing, and the line feed. */
  predicate Return(cr: string) {
    cr == "" || cr == "\r"
  }

  lemma BlankLineIsNoHeader(cr: string)
    requires Return(cr)
    ensures !IsHeader(cr)
  {
    assert |TrimLeft(Blanks, cr)| <= 1 && |HEADER| > 1;
  }

  lemma FindStep(line: string, rest: string)
    requires '\n' !in line && !IsHeader(line)
    ensures FindHeader(Cons(line, rest)) == if FindHeader(rest) < 0 then -1 else |line| + 1 + FindHeader(rest)
  {
    hide IsHeader, FirstLine, Behind, Cons;
    LineIs(line, rest);
  }

  lemma FoundInRest(line: string, rest: string)
    requires '\n' !in line && FindHeader(Cons(line, rest)) < 0
    ensures !IsHeader(line) && FindHeader(rest) < 0
  {
    hide IsHeader, FirstLine, Behind, Cons;
    LineIs(line, rest);
  }

  lemma NotAHeader(text: string)
    requires FindHeader(text) < 0
    ensures !IsHeader(FirstLine(text))
  {
  }

  /** The last line of the text, then an empty line, then the block. */
  lemma FindBehindLast(text: string, blanks: string, cr: string, rest: string)
    requires text != "" && !In(BlanksCrLf, text[|text| - 1]) && AllIn(BlanksCrLf, blanks) && '\n' !in text
    requires FindHeader(text + blanks) < 0 && Return(cr) && FindHeader(rest) == 0
    ensures FindHeader(text + Cons(cr, Cons(cr, rest))) == |text| + 2 * (|cr| + 1)
  {
    var w := FirstLine(blanks);
    FirstLineFacts(blanks);
    assert AllIn(BlanksCr, w);
    ReturnIsBlank(cr);
    hide IsHeader, FirstLine, Behind, FindHeader, AllIn, Cons;
    LineOfTwo(text, blanks);
    NotAHeader(text + blanks);
    HeaderIgnoresBlanks(text, w);
    HeaderIgnoresBlanks(text, cr);
    BlankLineIsNoHeader(cr);
    FindStep(cr, rest);
    FindStep(text + cr, Cons(cr, rest));
    ConsPrepend(text, cr, Cons(cr, rest));
  }

  /** Appending a block behind a text without one: the header is found there. */
  lemma {:induction false} FindAppended(text: string, blanks: string, cr: string, rest: string)
    requires text != "" && !In(BlanksCrLf, text[|text| - 1]) && AllIn(BlanksCrLf, blanks)
    requires FindHeader(text + blanks) < 0 && Return(cr) && FindHeader(rest) == 0
    ensures FindHeader(text + Cons(cr, Cons(cr, rest))) == |text| + 2 * (|cr| + 1)
    decreases |text|
  {
    hide IsHeader, FirstLine, Behind, FindHeader, AllIn;
    FirstLineFacts(text);
    if Behind(text).Some? {
      var tail := Cons(cr, Cons(cr, rest));
      var line, more := FirstLine(text), Behind(text).value;
      assert text == Cons(line, more);
      hide Cons;
      assert text[|text| - 1] != '\n';
      LastOfRest(line, more);
      ConsAppend(line, more, blanks);
      FoundInRest(line, more + blanks);
      FindAppended(more, blanks, cr, rest);
      ConsAppend(line, more, tail);
      FindStep(line, more + tail);
    } else {
      FindBehindLast(text, blanks, cr, rest);
    }
  }

  lemma LastOfRest(line: string, more: string)
    requires Cons(line, more)[|line| + |more|] != '\n'
    ensures more != "" && more[|more| - 1] == Cons(line, more)[|line| + |more|]
  {
  }

  lemma FirstLineFacts(text: string)
    ensures forall c :: c in FirstLine(text) ==> c in text && c != '\n'
    ensures Behind(text).None? ==> '\n' !in text
  {
    var line := FirstLine(text);
    forall c | c in line ensures c in text {
      var i :| 0 <= i < |line| && line[i] == c;
      assert text[i] == c;
    }
  }

  lemma LineOfTwo(a: string, b: string)
    requires '\n' !in a
    ensures FirstLine(a + b) == a + FirstLine(b)
  {
    var line := FirstLine(b);
    if Behind(b).Some? {
      ConsPrepend(a, line, Behind(b).value);
      LineIs(a + line, Behind(b).value);
    } else {
      assert b == line;
      LastLineIs(a + line);
    }
  }

  // ---------------------------------------------------------------- the printed block

  function HeadLine(cr: string): string {
    HEADER + cr
  }

  function CommandLine(spec: LaunchSpec, cr: string): string {
    "command = " + Quote(spec.command) + cr
  }

  function ArgsLine(spec: LaunchSpec, cr: string): string {
    "args = [" + Quotes(spec.args) + "]" + cr
  }

  lemma {:induction false} QuotesHaveNoBreak(args: seq<string>)
    ensures '\n' !in Quotes(args)
  {
    if |args| > 1 {
      QuotesHaveNoBreak(args[1..]);
    }
  }

  /** The block is three lines. */
  lemma RenderLines(spec: LaunchSpec, cr: string)
    requires Return(cr)
    ensures Render(spec, cr + "\n") == Cons(HeadLine(cr), Cons(CommandLine(spec, cr), Cons(ArgsLine(spec, cr), "")))
    ensures '\n' !in HeadLine(cr) && '\n' !in CommandLine(spec, cr) && '\n' !in ArgsLine(spec, cr)
  {
    LinesHaveNoBreak(spec, cr);
    hide Quote, Quotes, HEADER, Return;
  }

  lemma LinesHaveNoBreak(spec: LaunchSpec, cr: string)
    requires Return(cr)
    ensures '\n' !in HeadLine(cr) && '\n' !in CommandLine(spec, cr) && '\n' !in ArgsLine(spec, cr)
  {
    QuotesHaveNoBreak(spec.args);
    hide Quote, Quotes;
    assert '\n' !in HEADER;
    assert '\n' !in "command = " && '\n' !in "args = [";
  }

  lemma HeadLineIsHeader(cr: string)
    requires Return(cr)
    ensures IsHeader(HeadLine(cr))
  {
    hide AllIn;
    var line := HeadLine(cr);
    assert line[0] == '[';
    TrimLeftWhole(Blanks, line);
    assert line[|HEADER|..] == cr && HEADER <= line;
    ReturnIsBlank(cr);
    TrimLeftWhole(BlanksCr, cr);
  }

  lemma EntriesOpenNothing(spec: LaunchSpec, cr: string, more: string)
    ensures !OpensTable(Cons(CommandLine(spec, cr), more)) && !OpensTable(Cons(ArgsLine(spec, cr), more))
  {
    hide Quote, Quotes;
    assert Cons(CommandLine(spec, cr), more)[0] == 'c' && Cons(ArgsLine(spec, cr), more)[0] == 'a';
  }

  lemma BlockStep(line: string, rest: string)
    requires '\n' !in line
    ensures BlockLength(Cons(line, rest)) == |line| + 1 + if OpensTable(rest) then 0 else BlockLength(rest)
  {
    hide OpensTable, FirstLine, Behind, Cons;
    LineIs(line, rest);
    OpensWithText(rest);
  }

  /** The block followed by nothing or by a table is found at its start and to end where it ends. */
  lemma RenderedLength(spec: LaunchSpec, cr: string, tail: string)
    requires Return(cr) && (tail == "" || OpensTable(tail))
    ensures BlockLength(Render(spec, cr + "\n") + tail) == |Render(spec, cr + "\n")|
    ensures IsHeader(FirstLine(Render(spec, cr + "\n") + tail))
  {
    RenderLines(spec, cr);
    HeadLineIsHeader(cr);
    var h, c, a := HeadLine(cr), CommandLine(spec, cr), ArgsLine(spec, cr);
    EntriesOpenNothing(spec, cr, Cons(a, tail));
    EntriesOpenNothing(spec, cr, tail);
    hide IsHeader, OpensTable, FirstLine, Behind, HeadLine, CommandLine, ArgsLine, Render, BlockLength, Cons;
    NothingIsLeft();
    BlockStep(a, tail);
    BlockStep(c, Cons(a, tail));
    BlockStep(h, Cons(c, Cons(a, tail)));
    LineIs(h, Cons(c, Cons(a, tail)));
    ConsAppend(a, "", tail);
    ConsAppend(c, Cons(a, ""), tail);
    ConsAppend(h, Cons(c, Cons(a, "")), tail);
    assert "" + tail == tail;
  }

  lemma NothingIsLeft()
    ensures BlockLength("") == 0 && !OpensTable("")
  {
  }

  // ---------------------------------------------------------------- reading the printed block

  lemma ItemReads(item: string, rest: string)
    ensures ReadItems(Quote(item) + rest) == if ReadItems(rest).None? then None else Some([item] + ReadItems(rest).value)
  {
    QuotedReadsBack(item, rest);
    hide Read, Quote;
    var t := Quote(item) + rest;
    assert t[0] == '"' && t[|Quote(item)|..] == rest;
  }

  lemma {:induction false} QuotesReadBack(args: seq<string>, tail: string)
    ensures ReadItems(Quotes(args) + "]" + tail) == Some(args)
  {
    hide Quote, ReadItems;
    ArrayCloses(tail);
    if args == [] {
      assert Quotes(args) + "]" + tail == "]" + tail;
    } else if |args| == 1 {
      ItemReads(args[0], "]" + tail);
      ConcatAssociative(Quote(args[0]), "]", tail);
      assert args == [args[0]] + [];
    } else {
      var more := Quotes(args[1..]) + "]" + tail;
      QuotesReadBack(args[1..], tail);
      CommaSkips(more);
      ItemReads(args[0], ", " + more);
      ManyQuotes(Quote(args[0]), Quotes(args[1..]), tail);
      assert args == [args[0]] + args[1..];
    }
  }

  lemma ManyQuotes(q: string, rest: string, tail: string)
    ensures q + ", " + rest + "]" + tail == q + (", " + (rest + "]" + tail))
  {
    ConcatAssociative(q, ", ", rest + "]" + tail);
    ConcatAssociative(q + ", ", rest + "]", tail);
    ConcatAssociative(q + ", ", rest, "]");
  }

  lemma ArrayCloses(tail: string)
    ensures ReadItems("]" + tail) == Some([])
  {
  }

  lemma CommaSkips(t: string)
    ensures ReadItems(", " + t) == ReadItems(t)
  {
    hide Read;
    assert (", " + t)[1..] == " " + t && (" " + t)[1..] == t;
  }

  /** Trimming keeps a text that starts and ends with no white space, whatever follows it. */
  lemma TrimSpaceKeeps(core: string, more: string) returns (left: string)
    requires core != "" && !IsSpace(core[0]) && !IsSpace(core[|core| - 1])
    ensures TrimSpace(core + more) == core + left
    ensures AllIn(White, more) ==> left == ""
  {
    hide AllIn;
    TrimLeftWhole(White, core + more);
    TrimRightParts(White, core, more);
    TrimRightAll(White, more);
    left := TrimRight(White, more);
    assert core + "" == core;
  }

  /** The value of a line "key = value" is what stands behind the equals sign. */
  lemma ValueOf(key: string, value: string, more: string) returns (left: string)
    requires value != "" && !IsSpace(value[0]) && !IsSpace(value[|value| - 1])
    ensures TrimSpace((key + " = " + value + more)[|key| + 2..]) == value + left
  {
    hide TrimRight, TrimLeft;
    assert (key + " = " + value + more)[|key| + 2..] == " " + (value + more);
    SpaceIsWhite();
    TrimLeftParts(White, " ", value + more);
    TrimLeftWhole(White, value + more);
    left := TrimSpaceKeeps(value, more);
  }

  lemma SpaceIsWhite()
    ensures AllIn(White, " ")
  {
  }

  lemma KeysHaveNoEquals(key: string)
    requires key == "command" || key == "args"
    ensures '=' !in key + " " && key != "" && !IsSpace(key[0]) && !IsSpace(key[|key| - 1])
    ensures key[0] != '#' && key[0] != '['
  {
  }

  /** A line "key = value" is read by its key, and its value starts behind the equals sign. */
  lemma EntryOf(key: string, value: string, more: string) returns (left: string)
    requires key == "command" || key == "args"
    requires value != "" && !IsSpace(value[0]) && !IsSpace(value[|value| - 1])
    requires FirstLine(key + " = " + value + more) == key + " = " + value + FirstLine(more)
    requires AllIn(White, FirstLine(more))
    ensures EntryAt(key + " = " + value + more) ==
      if key == "command" then
        if (value[0] != '"' && value[0] != '\'') || Read(value + left).None? then Malformed
        else Command(Read(value + left).value.value)
      else if ReadArray(value + left).None? then Malformed
      else Args(ReadArray(value + left).value)
  {
    hide Read, ReadArray, TrimSpace, Find, FirstLine, AllIn, IsSpace;
    var text := key + " = " + value + more;
    var core := key + " = " + value;
    KeysHaveNoEquals(key);
    var none := TrimSpaceKeeps(core, FirstLine(more));
    assert core + none == core && TrimSpace(FirstLine(text)) == core;
    assert core == (key + " ") + ['='] + (" " + value);
    FindIs(key + " ", " " + value, '=');
    assert core[..|key| + 1] == key + " ";
    SpaceIsWhite();
    none := TrimSpaceKeeps(key, " ");
    assert key + none == key;
    left := ValueOf(key, value, more);
  }

  lemma ReturnIsBlank(cr: string)
    requires Return(cr)
    ensures AllIn(White, cr) && AllIn(BlanksCr, cr) && AllIn(BlanksCrLf, cr) && '\n' !in cr
  {
  }

  lemma CommandEntry(spec: LaunchSpec, cr: string, tail: string)
    requires Return(cr)
    ensures EntryAt(Cons(CommandLine(spec, cr), tail)) == Command(spec.command)
  {
    RenderLines(spec, cr);
    ReturnIsBlank(cr);
    hide Read, EntryAt, Quote, FirstLine, Cons;
    var value, more := Quote(spec.command), Cons(cr, tail);
    LineIs(CommandLine(spec, cr), tail);
    LineIs(cr, tail);
    assert CommandLine(spec, cr) == "command" + " = " + value + cr;
    ConsPrepend("command" + " = " + value, cr, tail);
    var left := EntryOf("command", value, more);
    QuotedReadsBack(spec.command, left);
  }

  lemma ArgsEntry(spec: LaunchSpec, cr: string, tail: string)
    requires Return(cr)
    ensures EntryAt(Cons(ArgsLine(spec, cr), tail)) == Args(spec.args)
  {
    RenderLines(spec, cr);
    ReturnIsBlank(cr);
    BracketsAreSolid(spec.args);
    hide Read, EntryAt, Quotes, FirstLine, ReadArray, Cons, ArgsLine;
    var value, more := "[" + Quotes(spec.args) + "]", Cons(cr, tail);
    LineIs(ArgsLine(spec, cr), tail);
    LineIs(cr, tail);
    ArgsLineValue(spec, cr);
    ConsPrepend("args" + " = " + value, cr, tail);
    var left := EntryOf("args", value, more);
    BracketsReadBack(spec.args, left);
  }

  lemma BracketsReadBack(args: seq<string>, left: string)
    ensures ReadArray("[" + Quotes(args) + "]" + left) == Some(args)
  {
    hide Quotes, ReadItems;
    assert ("[" + Quotes(args) + "]" + left)[1..] == Quotes(args) + "]" + left;
    QuotesReadBack(args, left);
  }

  lemma BracketsAreSolid(args: seq<string>)
    ensures var value := "[" + Quotes(args) + "]";
      value != "" && !IsSpace(value[0]) && !IsSpace(value[|value| - 1])
  {
    hide Quotes;
  }

  lemma ArgsLineValue(spec: LaunchSpec, cr: string)
    ensures ArgsLine(spec, cr) == "args" + " = " + ("[" + Quotes(spec.args) + "]") + cr
  {
    hide Quotes;
  }

  lemma HeadEntry(cr: string, tail: string)
    requires Return(cr)
    ensures EntryAt(Cons(HeadLine(cr), tail)) == Ignored
  {
    ReturnIsBlank(cr);
    assert '\n' !in HEADER;
    hide Read, ReadArray, FirstLine, Cons;
    LineIs(HeadLine(cr), tail);
    assert HEADER[0] == '[' && HEADER[|HEADER| - 1] == ']';
    var left := TrimSpaceKeeps(HEADER, cr);
    assert TrimSpace(HeadLine(cr))[0] == '[';
  }

  /** The printed block reads back as the launch specification it was printed from. */
  lemma RenderedReadsBack(spec: LaunchSpec, cr: string)
    requires Return(cr)
    ensures ReadBlock(Render(spec, cr + "\n")) == if spec.command == "" then None else Some(spec)
  {
    RenderLines(spec, cr);
    hide EntryAt, FirstLine, Behind, ReadLines, HeadLine, CommandLine, ArgsLine, Render, Cons;
    var h, c, a := HeadLine(cr), CommandLine(spec, cr), ArgsLine(spec, cr);
    HeadEntry(cr, Cons(c, Cons(a, "")));
    CommandEntry(spec, cr, Cons(a, ""));
    ArgsEntry(spec, cr, "");
    LineIs(a, "");
    LineIs(c, Cons(a, ""));
    LineIs(h, Cons(c, Cons(a, "")));
    assert ""[0..] == "";
    LinesUnfold("", 0, spec);
    OneLine(Cons(a, ""), LaunchSpec(spec.command, []));
    OneLine(Cons(c, Cons(a, "")), LaunchSpec("", []));
    OneLine(Cons(h, Cons(c, Cons(a, ""))), LaunchSpec("", []));
  }

  lemma OneLine(block: string, spec: LaunchSpec)
    requires block != "" && !EntryAt(block).Malformed? && Behind(block).Some?
    ensures ReadLines(block, spec) == ReadLines(Behind(block).value, Apply(EntryAt(block), spec))
  {
    hide EntryAt, Behind;
  }

  // ---------------------------------------------------------------- line endings

  lemma CrLfParts(a: string, b: string)
    ensures HasCrLf(a) || HasCrLf(b) ==> HasCrLf(a + b)
    ensures HasCrLf(a + b) ==>
      HasCrLf(a) || HasCrLf(b) || (a != "" && b != "" && a[|a| - 1] == '\r' && b[0] == '\n')
  {
    if HasCrLf(a) {
      var i :| 0 < i < |a| && a[i - 1] == '\r' && a[i] == '\n';
      assert (a + b)[i - 1] == '\r' && (a + b)[i] == '\n';
    }
    if HasCrLf(b) {
      var i :| 0 < i < |b| && b[i - 1] == '\r' && b[i] == '\n';
      assert (a + b)[|a| + i - 1] == '\r' && (a + b)[|a| + i] == '\n';
    }
    if HasCrLf(a + b) {
      var i :| 0 < i < |a + b| && (a + b)[i - 1] == '\r' && (a + b)[i] == '\n';
      if i < |a| {
        assert a[i - 1] == '\r' && a[i] == '\n';
      } else if i > |a| {
        assert b[i - |a| - 1] == '\r' && b[i - |a|] == '\n';
      }
    }
  }

  lemma {:induction false} EscapeHasNoReturn(s: string)
    ensures '\r' !in Escape(s)
  {
    if s != "" {
      EscapeHasNoReturn(s[1..]);
      EscapedCharHasNoReturn(s[0]);
    }
  }

  lemma EscapedCharHasNoReturn(c: char)
    ensures '\r' !in EscapeChar(c)
  {
  }

  lemma {:induction false} QuotesHaveNoReturn(args: seq<string>)
    ensures '\r' !in Quotes(args)
  {
    hide Escape;
    if args != [] {
      EscapeHasNoReturn(args[0]);
      if |args| > 1 {
        QuotesHaveNoReturn(args[1..]);
      }
    }
  }

  lemma RenderHasNoReturn(spec: LaunchSpec)
    ensures '\r' !in Render(spec, "\n")
  {
    hide Escape, Quotes;
    EscapeHasNoReturn(spec.command);
    QuotesHaveNoReturn(spec.args);
    assert '\r' !in HEADER && '\r' !in "command = " && '\r' !in "args = [";
  }

  // ---------------------------------------------------------------- the merge

  /** What stays of the text behind the block: all but its trailing blanks, and one line ending. */
  function Tidy(tail: string, eol: string): string {
    var kept := TrimRight(BlanksCrLf, tail);
    if kept == "" then "" else kept + eol
  }

  lemma EolIs(text: string) returns (cr: string)
    ensures Return(cr) && DetectEol(text) == cr + "\n"
  {
    cr := if HasCrLf(text) then "\r" else "";
  }

  lemma TidyIsTidy(tail: string, cr: string)
    requires Return(cr)
    ensures Tidy(Tidy(tail, cr + "\n"), cr + "\n") == Tidy(tail, cr + "\n")
  {
    var kept := TrimRight(BlanksCrLf, tail);
    TrimRightParts(BlanksCrLf, kept, cr + "\n");
    EolIsBlank(cr);
    TrimRightAll(BlanksCrLf, cr + "\n");
  }

  lemma EolIsBlank(cr: string)
    requires Return(cr)
    ensures AllIn(BlanksCrLf, cr + "\n")
  {
  }

  /** Where the block ends there is nothing left, or the next table. */
  lemma {:induction false} BlockStops(text: string)
    ensures BlockLength(text) < |text| ==> OpensTable(text[BlockLength(text)..])
    decreases |text|
  {
    hide OpensTable, FirstLine;
    if Behind(text).Some? {
      var line, more := FirstLine(text), Behind(text).value;
      assert text[|line| + 1..] == more;
      OpensWithText(more);
      if !OpensTable(FirstLine(more)) {
        BlockStops(more);
        assert text[|line| + 1 + BlockLength(more)..] == more[BlockLength(more)..];
      }
    }
  }

  /** Tidying keeps the next table in front. */
  lemma TidyOpens(tail: string, eol: string)
    requires tail == "" || OpensTable(tail)
    ensures Tidy(tail, eol) == "" || OpensTable(Tidy(tail, eol))
  {
    var kept := TrimRight(BlanksCrLf, tail);
    TrimRightAll(BlanksCrLf, tail);
    assert tail == kept + tail[|kept|..];
    if tail != "" {
      BlanksOpenNothing(kept, tail[|kept|..]);
      OpensFurther(kept, eol);
    }
  }

  /** The block ends in a bracket and a line ending. */
  lemma RenderEnds(spec: LaunchSpec, cr: string) returns (body: string)
    requires Return(cr)
    ensures Render(spec, cr + "\n") == body + (cr + "\n") && body != "" && body[|body| - 1] == ']'
    ensures TrimRight(BlanksCrLf, body) == body
  {
    hide Quote, Quotes;
    var eol := cr + "\n";
    body := HEADER + eol + "command = " + Quote(spec.command) + eol + "args = [" + Quotes(spec.args) + "]";
  }

  /** Trimming a document with the block in it touches only what follows the block. */
  lemma MergedText(pre: string, spec: LaunchSpec, cr: string, tail: string)
    requires Return(cr)
    ensures TrimRight(BlanksCrLf, pre + Render(spec, cr + "\n") + tail) + (cr + "\n")
         == pre + Render(spec, cr + "\n") + Tidy(tail, cr + "\n")
  {
    var eol := cr + "\n";
    var block := Render(spec, eol);
    var body := RenderEnds(spec, cr);
    hide Render, TrimRight, AllIn;
    var kept := TrimRight(BlanksCrLf, tail);
    TrimRightParts(BlanksCrLf, pre + block, tail);
    if kept == "" {
      EolIsBlank(cr);
      TrimRightAll(BlanksCrLf, eol);
      ConcatAssociative(pre, body, eol);
      TrimRightParts(BlanksCrLf, pre + body, eol);
      TrimRightParts(BlanksCrLf, pre, body);
      assert pre + block + "" == pre + block;
    } else {
      ConcatAssociative(pre + block, kept, eol);
    }
  }

  /** A merged document: the block between what it keeps. */
  datatype Merged = Merged(pre: string, cr: string, tail: string)

  ghost predicate IsMerged(text: string, m: Merged, spec: LaunchSpec) {
    var eol := m.cr + "\n";
    && Return(m.cr)
    && text == m.pre + Render(spec, eol) + m.tail
    && FindHeader(text) == |m.pre|
    && (m.tail == "" || OpensTable(m.tail))
    && Tidy(m.tail, eol) == m.tail
    && DetectEol(text) == eol
  }

  lemma NoReturnNoCrLf(s: string)
    requires '\r' !in s
    ensures !HasCrLf(s)
  {
  }

  lemma RenderFrame(spec: LaunchSpec, eol: string)
    ensures var block := Render(spec, eol); block != "" && block[0] == '[' && |block| >= |eol| && block[|block| - |eol|..] == eol
  {
    hide Quote, Quotes;
  }

  lemma KeptHasNoCrLf(text: string)
    requires !HasCrLf(text)
    ensures !HasCrLf(TrimRight(BlanksCrLf, text))
  {
    var kept := TrimRight(BlanksCrLf, text);
    assert text == kept + text[|kept|..];
    CrLfParts(kept, text[|kept|..]);
  }

  lemma TidyHasNoCrLf(tail: string)
    requires !HasCrLf(tail)
    ensures !HasCrLf(Tidy(tail, "\n"))
  {
    KeptHasNoCrLf(tail);
    NoReturnNoCrLf("\n");
    CrLfParts(TrimRight(BlanksCrLf, tail), "\n");
    NoReturnNoCrLf("");
  }

  /** Around a printed block the line ending stays what it was. */
  lemma EolAround(pre: string, spec: LaunchSpec, cr: string, tail: string)
    requires Return(cr)
    requires cr == "" ==> !HasCrLf(pre) && !HasCrLf(tail)
    ensures DetectEol(pre + Render(spec, cr + "\n") + tail) == cr + "\n"
  {
    var block := Render(spec, cr + "\n");
    RenderFrame(spec, cr + "\n");
    if cr == "" {
      assert cr + "\n" == "\n";
      RenderHasNoReturn(spec);
      NoReturnNoCrLf(block);
    } else {
      assert (cr + "\n")[0] == '\r' && (cr + "\n")[1] == '\n';
      CrLfParts(block[..|block| - 2], cr + "\n");
      assert block == block[..|block| - 2] + (cr + "\n");
    }
    hide Render, HasCrLf;
    CrLfParts(pre, block);
    CrLfParts(pre + block, tail);
    assert (pre + block)[|pre + block| - 1] == block[|block| - 1];
  }

  lemma SplitThree(text: string, start: nat, end: nat)
    requires start <= end <= |text|
    ensures text == text[..start] + text[start..end] + text[end..]
  {
  }

  lemma OutsideHasNoCrLf(text: string, start: nat, end: nat)
    requires start <= end <= |text| && !HasCrLf(text)
    ensures !HasCrLf(text[..start]) && !HasCrLf(Tidy(text[end..], "\n"))
  {
    hide HasCrLf, Tidy;
    SplitThree(text, start, end);
    CrLfParts(text[..start], text[start..end]);
    CrLfParts(text[..start] + text[start..end], text[end..]);
    TidyHasNoCrLf(text[end..]);
  }

  lemma MergedIs(text: string, m: Merged, spec: LaunchSpec)
    requires Return(m.cr) && text == m.pre + Render(spec, m.cr + "\n") + m.tail
    requires FindHeader(text) == |m.pre| && (m.tail == "" || OpensTable(m.tail))
    requires Tidy(m.tail, m.cr + "\n") == m.tail && DetectEol(text) == m.cr + "\n"
    ensures IsMerged(text, m, spec)
  {
  }

  lemma FoundMerge(text: string, spec: LaunchSpec, cr: string, end: nat)
    requires FindHeader(text) >= 0 && Return(cr) && DetectEol(text) == cr + "\n"
    requires end == FindHeader(text) + BlockLength(text[FindHeader(text)..]) && end <= |text|
    ensures Merge(text, spec) == text[..FindHeader(text)] + Render(spec, cr + "\n") + Tidy(text[end..], cr + "\n")
  {
    hide Render, TrimRight, FindHeader, BlockLength, DetectEol, Tidy;
    MergedText(text[..FindHeader(text)], spec, cr, text[end..]);
  }

  lemma FoundHeader(text: string, spec: LaunchSpec, cr: string, tail: string)
    requires FindHeader(text) >= 0 && Return(cr) && (tail == "" || OpensTable(tail))
    ensures FindHeader(text[..FindHeader(text)] + Render(spec, cr + "\n") + tail) == FindHeader(text)
  {
    RenderedLength(spec, cr, tail);
    hide *;
    FindReplaced(text, Render(spec, cr + "\n") + tail);
    ConcatAssociative(text[..FindHeader(text)], Render(spec, cr + "\n"), tail);
  }

  lemma FoundTail(text: string, start: nat, end: nat, cr: string)
    requires start <= |text| && end == start + BlockLength(text[start..]) && end <= |text| && Return(cr)
    ensures var tail := Tidy(text[end..], cr + "\n");
      (tail == "" || OpensTable(tail)) && Tidy(tail, cr + "\n") == tail
  {
    hide Tidy, OpensTable, BlockLength, Return;
    BlockStops(text[start..]);
    assert text[start..][end - start..] == text[end..];
    TidyOpens(text[end..], cr + "\n");
    TidyIsTidy(text[end..], cr);
  }

  lemma FoundEol(text: string, spec: LaunchSpec, cr: string, start: nat, end: nat)
    requires start <= end <= |text| && Return(cr) && DetectEol(text) == cr + "\n"
    ensures DetectEol(text[..start] + Render(spec, cr + "\n") + Tidy(text[end..], cr + "\n")) == cr + "\n"
  {
    if cr == "" {
      assert cr + "\n" == "\n";
      OutsideHasNoCrLf(text, start, end);
    }
    hide Render, Tidy;
    EolAround(text[..start], spec, cr, Tidy(text[end..], cr + "\n"));
  }

  /** Replacing a block. */
  lemma MergeReplaces(text: string, spec: LaunchSpec) returns (m: Merged)
    requires FindHeader(text) >= 0
    ensures IsMerged(Merge(text, spec), m, spec)
    ensures var start := FindHeader(text); var end := start + BlockLength(text[start..]);
      m.pre == text[..start] && m.cr + "\n" == DetectEol(text) && m.tail == Tidy(text[end..], DetectEol(text))
  {
    hide *;
    var start := FindHeader(text);
    var end := start + BlockLength(text[start..]);
    var cr := EolIs(text);
    m := Merged(text[..start], cr, Tidy(text[end..], cr + "\n"));
    FoundMerge(text, spec, cr, end);
    FoundTail(text, start, end, cr);
    FoundHeader(text, spec, cr, m.tail);
    FoundEol(text, spec, cr, start, end);
    MergedIs(Merge(text, spec), m, spec);
  }

  lemma JoinAppended(kept: string, cr: string, block: string)
    ensures kept + (cr + "\n") + (cr + "\n") + block == kept + Cons(cr, Cons(cr, block))
  {
    ConcatAssociative(kept, cr + "\n", Cons(cr, block));
    ConcatAssociative(kept + (cr + "\n"), cr + "\n", block);
  }

  lemma BlankEnds(kept: string, cr: string)
    requires Return(cr) && (kept == "" || kept[|kept| - 1] != '\r')
    requires cr == "" ==> !HasCrLf(kept)
    ensures cr == "" ==> !HasCrLf(kept + (cr + "\n") + (cr + "\n"))
  {
    if cr == "" {
      NoReturnNoCrLf("\n" + "\n");
      CrLfParts(kept, "\n" + "\n");
      assert kept + (cr + "\n") + (cr + "\n") == kept + ("\n" + "\n");
    }
  }

  /** Appending a block. */
  lemma MergeAppends(text: string, spec: LaunchSpec) returns (m: Merged)
    requires FindHeader(text) < 0
    ensures IsMerged(Merge(text, spec), m, spec)
    ensures var eol, kept := DetectEol(text), TrimRight(BlanksCrLf, text);
      m.cr + "\n" == eol && m.tail == "" && m.pre == if kept == "" then "" else kept + eol + eol
  {
    hide Render, FirstLine, OpensTable, HasCrLf, IsHeader, AllIn, TrimRight, FindHeader;
    var kept := TrimRight(BlanksCrLf, text);
    var cr := EolIs(text);
    var eol := cr + "\n";
    var block := Render(spec, eol);
    TrimRightAll(BlanksCrLf, text);
    assert text == kept + text[|kept|..];
    m := Merged(if kept == "" then "" else kept + eol + eol, cr, "");
    RenderedLength(spec, cr, "");
    assert block + "" == block;
    HeaderFirst(block);
    if kept != "" {
      FindAppended(kept, text[|kept|..], cr, block);
      JoinAppended(kept, cr, block);
      if cr == "" {
        KeptHasNoCrLf(text);
      }
      BlankEnds(kept, cr);
    } else {
      NoReturnNoCrLf("");
      assert "" + block == block;
    }
    assert m.pre + block + "" == m.pre + block;
    NothingToTidy(eol);
    EolAround(m.pre, spec, cr, "");
  }

  lemma HeaderFirst(text: string)
    requires IsHeader(FirstLine(text))
    ensures FindHeader(text) == 0
  {
  }

  lemma NothingToTidy(eol: string)
    ensures Tidy("", eol) == "" && !HasCrLf("")
  {
  }

  lemma MergeShape(text: string, spec: LaunchSpec) returns (m: Merged)
    ensures IsMerged(Merge(text, spec), m, spec)
  {
    hide Merge, IsMerged;
    if FindHeader(text) >= 0 {
      m := MergeReplaces(text, spec);
    } else {
      m := MergeAppends(text, spec);
    }
  }

  /** Merging keeps the text around the block: all of it in front, and all but trailing blanks behind. */
  lemma MergeKeepsTheRest(text: string, spec: LaunchSpec)
    ensures var eol, start := DetectEol(text), FindHeader(text);
      if start >= 0 then
        Merge(text, spec) == text[..start] + Render(spec, eol) + Tidy(text[start + BlockLength(text[start..])..], eol)
      else
        var kept := TrimRight(BlanksCrLf, text);
        Merge(text, spec) == (if kept == "" then "" else kept + eol + eol) + Render(spec, eol)
  {
    hide Merge, Render, Tidy, TrimRight;
    if FindHeader(text) >= 0 {
      var m := MergeReplaces(text, spec);
    } else {
      var m := MergeAppends(text, spec);
      assert m.pre + Render(spec, DetectEol(text)) + "" == m.pre + Render(spec, DetectEol(text));
    }
  }

  lemma PartsOfThree(pre: string, block: string, tail: string)
    ensures var text := pre + block + tail;
      && text[..|pre|] == pre && text[|pre|..] == block + tail
      && text[|pre|..|pre| + |block|] == block && text[|pre| + |block|..] == tail
  {
  }

  /** The block of a merged document is the printed one, to the character. */
  lemma MergedBlock(text: string, m: Merged, spec: LaunchSpec)
    requires IsMerged(text, m, spec)
    ensures var start, block := |m.pre|, Render(spec, m.cr + "\n");
      && BlockLength(text[start..]) == |block| && text[start..start + |block|] == block
      && text[start + |block|..] == m.tail && text[..start] == m.pre
  {
    RenderedLength(spec, m.cr, m.tail);
    hide Render, OpensTable, Tidy, DetectEol, FindHeader, BlockLength;
    PartsOfThree(m.pre, Render(spec, m.cr + "\n"), m.tail);
  }

  /** A merged document is detected as registered exactly when the specification names a command and carries --mcp. */
  lemma MergeIsDetected(text: string, spec: LaunchSpec, norm: string -> string)
    ensures Detect(Merge(text, spec), spec, norm)
         == if spec.command != "" && "--mcp" in spec.args then Registered else Stale
  {
    var m := MergeShape(text, spec);
    MergedBlock(Merge(text, spec), m, spec);
    RenderedReadsBack(spec, m.cr);
    hide Merge, Render, ReadBlock, OpensTable, Tidy, DetectEol, FindHeader, BlockLength;
  }

  /** Merging twice is merging once. */
  lemma MergeIsIdempotent(text: string, spec: LaunchSpec)
    ensures Merge(Merge(text, spec), spec) == Merge(text, spec)
  {
    var m := MergeShape(text, spec);
    var merged := Merge(text, spec);
    MergedBlock(merged, m, spec);
    MergeKeepsTheRest(merged, spec);
    hide Merge, Render, OpensTable, Tidy, DetectEol, FindHeader, BlockLength;
  }

  /** The text ends with one line ending behind something that is no blank. */
  predicate EndsOnce(text: string, eol: string) {
    |text| > |eol| && text[|text| - |eol|..] == eol && !In(BlanksCrLf, text[|text| - |eol| - 1])
  }

  lemma EndsOnceBehind(front: string, text: string, eol: string)
    requires EndsOnce(text, eol)
    ensures EndsOnce(front + text, eol)
  {
  }

  lemma LineEndsOnce(body: string, eol: string)
    requires body != "" && !In(BlanksCrLf, body[|body| - 1])
    ensures EndsOnce(body + eol, eol)
  {
  }

  lemma TidyEndsOnce(front: string, tail: string, eol: string)
    requires EndsOnce(front, eol)
    ensures EndsOnce(front + Tidy(tail, eol), eol)
  {
    hide EndsOnce;
    var kept := TrimRight(BlanksCrLf, tail);
    if kept != "" {
      LineEndsOnce(kept, eol);
      EndsOnceBehind(front, kept + eol, eol);
    } else {
      assert front + "" == front;
    }
  }

  lemma RenderEndsOnce(spec: LaunchSpec, cr: string)
    requires Return(cr)
    ensures EndsOnce(Render(spec, cr + "\n"), cr + "\n")
  {
    var body := RenderEnds(spec, cr);
    LineEndsOnce(body, cr + "\n");
  }

  /** A merged document ends with exactly one line ending. */
  lemma MergeEndsOnce(text: string, spec: LaunchSpec)
    ensures EndsOnce(Merge(text, spec), DetectEol(text))
  {
    hide *;
    var cr := EolIs(text);
    RenderEndsOnce(spec, cr);
    MergeKeepsTheRest(text, spec);
    var eol, start := DetectEol(text), FindHeader(text);
    if start >= 0 {
      EndsOnceBehind(text[..start], Render(spec, eol), eol);
      TidyEndsOnce(text[..start] + Render(spec, eol), text[start + BlockLength(text[start..])..], eol);
    } else {
      var kept := TrimRight(BlanksCrLf, text);
      EndsOnceBehind(if kept == "" then "" else kept + eol + eol, Render(spec, eol), eol);
    }
  }
}
