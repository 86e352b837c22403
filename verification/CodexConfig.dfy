/**
 The Codex configuration document: finding the [mcp_servers.nodeshell] block,
 reading it, printing it, and merging it into a document the user owns.
 */
module CodexConfig {
  import opened Prelude
  import opened TomlStrings

  const HEADER := "[mcp_servers.nodeshell]"

  datatype LaunchSpec = LaunchSpec(command: string, args: seq<string>)

  // ---------------------------------------------------------------- trimming and lines

  /** The characters a trim takes: the cutsets the code names, or all white space. */
  datatype Cut = Blanks | BlanksCr | BlanksCrLf | White

  predicate In(cut: Cut, c: char) {
    match cut
    case Blanks => c == ' ' || c == '\t'
    case BlanksCr => c == ' ' || c == '\t' || c == '\r'
    case BlanksCrLf => c == ' ' || c == '\t' || c == '\r' || c == '\n'
    case White => IsSpace(c)
  }

  function TrimLeft(cut: Cut, s: string): (r: string)
    ensures |r| <= |s| && (r != "" ==> !In(cut, r[0]))
  {
    if s != "" && In(cut, s[0]) then TrimLeft(cut, s[1..]) else s
  }

  function TrimRight(cut: Cut, s: string): (r: string)
    ensures r <= s && (r != "" ==> !In(cut, r[|r| - 1]))
  {
    if s != "" && In(cut, s[|s| - 1]) then TrimRight(cut, s[..|s| - 1]) else s
  }

  function TrimSpace(s: string): (r: string)
    ensures |r| <= |s|
  {
    TrimRight(White, TrimLeft(White, s))
  }

  /** The text up to its first line feed. */
  function FirstLine(text: string): (line: string)
    ensures line <= text && '\n' !in line
    ensures |line| == |text| || text[|line|] == '\n'
  {
    var i := Find(text, '\n');
    if i < 0 then text else text[..i]
  }

  /** The text behind its first line, line feed included; nothing when that is the last line. */
  function Behind(text: string): (rest: Option<string>)
    ensures rest.Some? ==> |rest.value| < |text| && text == FirstLine(text) + "\n" + rest.value
    ensures rest.None? ==> text == FirstLine(text)
  {
    var n := |FirstLine(text)|;
    if n == |text| then None else Some(text[n + 1..])
  }

  /** The header on a line of its own, perhaps with a comment behind it. */
  predicate IsHeader(line: string) {
    var trimmed := TrimLeft(Blanks, line);
    && HEADER <= trimmed
    && var rest := TrimLeft(BlanksCr, trimmed[|HEADER|..]);
       rest == "" || rest[0] == '#'
  }

  /** The line opens some table. */
  predicate OpensTable(line: string) {
    var trimmed := TrimLeft(Blanks, line);
    trimmed != "" && trimmed[0] == '['
  }

  // ---------------------------------------------------------------- the block

  /** The position of the header line, or -1. */
  function FindHeader(text: string): (i: int)
    ensures -1 <= i <= |text|
    decreases |text|
  {
    if IsHeader(FirstLine(text)) then 0
    else
      var rest := Behind(text);
      if rest.None? then -1
      else
        var i := FindHeader(rest.value);
        if i < 0 then -1 else |FirstLine(text)| + 1 + i
  }

  lemma HeaderUnfolds(text: string, offset: nat)
    requires offset <= |text|
    ensures var line := FirstLine(text[offset..]); var next := offset + |line| + 1;
      FindHeader(text[offset..]) ==
        if IsHeader(line) then 0
        else if next > |text| || FindHeader(text[next..]) < 0 then -1
        else |line| + 1 + FindHeader(text[next..])
  {
    hide IsHeader, FirstLine;
    var line := FirstLine(text[offset..]);
    if offset + |line| < |text| {
      assert text[offset..][|line| + 1..] == text[offset + |line| + 1..];
    }
  }

  method FindCodexHeader(text: string) returns (i: int)
    ensures i == FindHeader(text)
  {
    hide IsHeader, FirstLine, FindHeader;
    var offset := 0;
    assert text[0..] == text;
    while offset <= |text|
      invariant 0 <= offset <= |text|
      invariant FindHeader(text) == if FindHeader(text[offset..]) < 0 then -1 else offset + FindHeader(text[offset..])
      decreases |text| - offset
    {
      HeaderUnfolds(text, offset);
      var line := FirstLine(text[offset..]);
      var lineEnd := offset + |line|;
      if IsHeader(line) {
        return offset;
      }
      if lineEnd == |text| {
        break;
      }
      offset := lineEnd + 1;
    }
    return -1;
  }

  /** The length of the block that starts with the first line of text: up to the next table or the end. */
  function BlockLength(text: string): (n: nat)
    ensures n <= |text|
    decreases |text|
  {
    var rest := Behind(text);
    if rest.None? then |text|
    else
      var next := |FirstLine(text)| + 1;
      if OpensTable(FirstLine(rest.value)) then next else next + BlockLength(rest.value)
  }

  lemma BlockUnfolds(text: string, offset: nat)
    requires offset <= |text|
    ensures var next := offset + |FirstLine(text[offset..])| + 1;
      BlockLength(text[offset..]) ==
        if next > |text| then |text| - offset
        else if OpensTable(FirstLine(text[next..])) then next - offset
        else next - offset + BlockLength(text[next..])
  {
    hide OpensTable, FirstLine;
    var line := FirstLine(text[offset..]);
    if offset + |line| < |text| {
      assert text[offset..][|line| + 1..] == text[offset + |line| + 1..];
    }
  }

  /** codexBlock: the span of the block, if there is one. */
  method CodexBlock(text: string) returns (found: bool, start: nat, end: nat)
    ensures found <==> FindHeader(text) >= 0
    ensures found ==> start == FindHeader(text) && end == start + BlockLength(text[start..]) && end <= |text|
  {
    hide OpensTable, FirstLine, FindHeader, BlockLength;
    var i := FindCodexHeader(text);
    if i < 0 {
      return false, 0, 0;
    }
    found, start := true, i;
    var offset := start;
    while true
      invariant start <= offset <= |text|
      invariant start + BlockLength(text[start..]) == offset + BlockLength(text[offset..])
      decreases |text| - offset
    {
      BlockUnfolds(text, offset);
      var next := offset + |FirstLine(text[offset..])| + 1;
      if next > |text| {
        return true, start, |text|;
      }
      if OpensTable(FirstLine(text[next..])) {
        return true, start, next;
      }
      offset := next;
    }
  }

  // ---------------------------------------------------------------- reading the block

  /** An array of strings behind its opening bracket. */
  function ReadItems(t: string): Option<seq<string>>
    decreases |t|
  {
    if t == "" then None
    else if t[0] == ']' then Some([])
    else if t[0] == ',' || t[0] == ' ' || t[0] == '\t' || t[0] == '\n' || t[0] == '\r' then ReadItems(t[1..])
    else if t[0] == '#' then
      var nl := Find(t, '\n');
      if nl < 0 then None else ReadItems(t[nl + 1..])
    else
      var r := Read(t);
      if r.None? then None
      else
        var rest := ReadItems(t[r.value.length..]);
        if rest.None? then None else Some([r.value.value] + rest.value)
  }

  function ReadArray(t: string): Option<seq<string>> {
    if t == "" || t[0] != '[' then None else ReadItems(t[1..])
  }

  /** What is left to read at i, behind what was read so far. */
  ghost predicate ItemsLeft(s: string, start: nat, out: seq<string>, i: nat)
    requires start < |s| && i <= |s|
  {
    && ReadItems(s[start + 1..]).Some? == ReadItems(s[i..]).Some?
    && (ReadItems(s[i..]).Some? ==> ReadItems(s[start + 1..]).value == out + ReadItems(s[i..]).value)
  }

  lemma SkipBlank(s: string, start: nat, out: seq<string>, i: nat)
    requires start < |s| && i < |s| && ItemsLeft(s, start, out, i)
    requires s[i] == ',' || s[i] == ' ' || s[i] == '\t' || s[i] == '\n' || s[i] == '\r'
    ensures ItemsLeft(s, start, out, i + 1)
  {
    assert s[i..][1..] == s[i + 1..];
  }

  lemma SkipComment(s: string, start: nat, out: seq<string>, i: nat)
    requires start < |s| && i < |s| && ItemsLeft(s, start, out, i) && s[i] == '#'
    ensures var nl := Find(s[i..], '\n');
      if nl < 0 then ReadItems(s[start + 1..]).None? else ItemsLeft(s, start, out, i + nl + 1)
  {
    var nl := Find(s[i..], '\n');
    if nl >= 0 {
      assert s[i..][nl + 1..] == s[i + nl + 1..];
    }
  }

  lemma TakeItem(s: string, start: nat, out: seq<string>, i: nat)
    requires start < |s| && i < |s| && ItemsLeft(s, start, out, i)
    requires s[i] != ']' && s[i] != '#' && s[i] != ',' && s[i] != ' ' && s[i] != '\t' && s[i] != '\n' && s[i] != '\r'
    ensures var r := Read(s[i..]);
      if r.None? then ReadItems(s[start + 1..]).None?
      else ItemsLeft(s, start, out + [r.value.value], i + r.value.length)
  {
    hide Read;
    var r := Read(s[i..]);
    if r.Some? {
      var rest := s[i + r.value.length..];
      assert s[i..][r.value.length..] == rest;
      if ReadItems(rest).Some? {
        ConcatAssociative(out, [r.value.value], ReadItems(rest).value);
      }
    }
  }

  lemma ArrayEnds(s: string, start: nat, out: seq<string>, i: nat)
    requires start < |s| && i <= |s| && ItemsLeft(s, start, out, i)
    ensures i == |s| ==> ReadItems(s[start + 1..]).None?
    ensures i < |s| && s[i] == ']' ==> ReadItems(s[start + 1..]) == Some(out)
  {
    if i == |s| {
      assert s[i..] == "";
    } else if s[i] == ']' {
      assert out + [] == out;
    }
  }

  lemma ArrayStarts(s: string, start: nat)
    requires start < |s|
    ensures ItemsLeft(s, start, [], start + 1)
    ensures ReadArray(s[start..]) == if s[start] == '[' then ReadItems(s[start + 1..]) else None
  {
    assert s[start..][1..] == s[start + 1..];
    if ReadItems(s[start + 1..]).Some? {
      assert [] + ReadItems(s[start + 1..]).value == ReadItems(s[start + 1..]).value;
    }
  }

  /** The end of a comment inside an array. */
  method PassComment(s: string, start: nat, out: seq<string>, i: nat) returns (next: Option<nat>)
    requires start < |s| && i < |s| && ItemsLeft(s, start, out, i) && s[i] == '#'
    ensures next.None? ==> ReadItems(s[start + 1..]).None?
    ensures next.Some? ==> i < next.value <= |s| && ItemsLeft(s, start, out, next.value)
  {
    hide ReadItems, ItemsLeft;
    SkipComment(s, start, out, i);
    var nl := Find(s[i..], '\n');
    if nl < 0 {
      return None;
    }
    return Some(i + nl + 1);
  }

  /** One string of an array. */
  method PassItem(s: string, start: nat, out: seq<string>, i: nat) returns (val: Option<Reading>)
    requires start < |s| && i < |s| && ItemsLeft(s, start, out, i)
    requires s[i] != ']' && s[i] != '#' && s[i] != ',' && s[i] != ' ' && s[i] != '\t' && s[i] != '\n' && s[i] != '\r'
    ensures val.None? ==> ReadItems(s[start + 1..]).None?
    ensures val.Some? ==> i < val.value.length <= |s| && ItemsLeft(s, start, out + [val.value.value], val.value.length)
  {
    hide Read, ReadItems, ItemsLeft;
    TakeItem(s, start, out, i);
    val := ParseTOMLString(s, i);
  }

  method ParseTOMLArray(s: string, start: nat) returns (r: Option<seq<string>>)
    requires start <= |s|
    ensures r == ReadArray(s[start..])
  {
    if start >= |s| {
      return None;
    }
    hide Read, ReadArray, ReadItems, ItemsLeft, Find, ReadBasic;
    ArrayStarts(s, start);
    if s[start] != '[' {
      return None;
    }
    var out: seq<string> := [];
    var i := start + 1;
    while i < |s|
      invariant start < i <= |s|
      invariant ItemsLeft(s, start, out, i)
      decreases |s| - i
    {
      ArrayEnds(s, start, out, i);
      var c := s[i];
      if c == ']' {
        return Some(out);
      }
      if c == ',' || c == ' ' || c == '\t' || c == '\n' || c == '\r' {
        SkipBlank(s, start, out, i);
        i := i + 1;
      } else if c == '#' {
        var next := PassComment(s, start, out, i);
        if next.None? {
          return None;
        }
        i := next.value;
      } else {
        var val := PassItem(s, start, out, i);
        if val.None? {
          return None;
        }
        out := out + [val.value.value];
        i := val.value.length;
      }
    }
    ArrayEnds(s, start, out, i);
    return None;
  }

  /** What one line of the block says; the value may go on over the following lines. */
  datatype Entry = Ignored | Command(value: string) | Args(values: seq<string>) | Malformed

  /**
   The entry that starts with the first line of text. The position of '=' is taken
   in the trimmed line but used in the untrimmed text, as the code does.
   */
  function EntryAt(text: string): Entry {
    var line := TrimSpace(FirstLine(text));
    if line == "" || line[0] == '#' || line[0] == '[' then Ignored
    else
      var eq := Find(line, '=');
      if eq < 0 then Ignored
      else
        var key := TrimSpace(line[..eq]);
        var rest := TrimSpace(text[eq + 1..]);
        if key == "command" then
          if rest == "" || (rest[0] != '"' && rest[0] != '\'') || Read(rest).None? then Malformed
          else Command(Read(rest).value.value)
        else if key == "args" then
          if ReadArray(rest).None? then Malformed else Args(ReadArray(rest).value)
        else Ignored
  }

  function Apply(e: Entry, spec: LaunchSpec): LaunchSpec {
    match e
    case Command(value) => spec.(command := value)
    case Args(values) => spec.(args := values)
    case _ => spec
  }

  /** The lines of the block in order, later entries winning. */
  function ReadLines(block: string, spec: LaunchSpec): Option<LaunchSpec>
    decreases |block|
  {
    if block == "" then Some(spec)
    else if EntryAt(block).Malformed? then None
    else
      var next := Apply(EntryAt(block), spec);
      var rest := Behind(block);
      if rest.None? then Some(next) else ReadLines(rest.value, next)
  }

  function ReadBlock(block: string): Option<LaunchSpec> {
    var r := ReadLines(block, LaunchSpec("", []));
    if r.None? || r.value.command == "" then None else r
  }

  /** The entry at the line that starts at offset. */
  method ParseEntry(block: string, offset: nat, line: string) returns (e: Entry)
    requires offset < |block| && line == TrimSpace(FirstLine(block[offset..]))
    ensures e == EntryAt(block[offset..])
  {
    hide Read, ReadArray, TrimSpace, FirstLine, Find;
    if line == "" || line[0] == '#' || line[0] == '[' {
      return Ignored;
    }
    var eq := Find(line, '=');
    if eq < 0 {
      return Ignored;
    }
    var key := TrimSpace(line[..eq]);
    assert block[offset..][eq + 1..] == block[offset + eq + 1..];
    var rest := TrimSpace(block[offset + eq + 1..]);
    assert rest[0..] == rest;
    if key == "command" {
      if |rest| == 0 || (rest[0] != '"' && rest[0] != '\'') {
        return Malformed;
      }
      var val := ParseTOMLString(rest, 0);
      return if val.None? then Malformed else Command(val.value.value);
    }
    if key == "args" {
      var vals := ParseTOMLArray(rest, 0);
      return if vals.None? then Malformed else Args(vals.value);
    }
    return Ignored;
  }

  lemma LinesUnfold(block: string, offset: nat, spec: LaunchSpec)
    requires offset <= |block|
    ensures offset == |block| ==> ReadLines(block[offset..], spec) == Some(spec)
    ensures offset < |block| ==>
      var e := EntryAt(block[offset..]); var next := offset + |FirstLine(block[offset..])| + 1;
      ReadLines(block[offset..], spec) ==
        if e.Malformed? then None
        else if next > |block| then Some(Apply(e, spec))
        else ReadLines(block[next..], Apply(e, spec))
  {
    hide EntryAt, FirstLine, Apply;
    var n := |FirstLine(block[offset..])|;
    if offset < |block| && offset + n < |block| {
      assert block[offset..][n + 1..] == block[offset + n + 1..];
    }
  }

  method ParseCodexBlock(block: string) returns (r: Option<LaunchSpec>)
    ensures r == ReadBlock(block)
  {
    hide TrimSpace, FirstLine, EntryAt, ReadLines;
    var offset := 0;
    var spec := LaunchSpec("", []);
    assert block[0..] == block;
    while offset < |block|
      invariant 0 <= offset <= |block|
      invariant ReadLines(block, LaunchSpec("", [])) == ReadLines(block[offset..], spec)
      decreases |block| - offset
    {
      LinesUnfold(block, offset, spec);
      var line := TrimSpace(FirstLine(block[offset..]));
      var lineEnd := offset + |FirstLine(block[offset..])|;
      var e := ParseEntry(block, offset, line);
      if e.Malformed? {
        return None;
      }
      spec := Apply(e, spec);
      if lineEnd == |block| {
        return if spec.command == "" then None else Some(spec);
      }
      offset := lineEnd + 1;
    }
    LinesUnfold(block, offset, spec);
    return if spec.command == "" then None else Some(spec);
  }

  // ---------------------------------------------------------------- printing, merging, detecting

  function Quotes(args: seq<string>): string {
    if args == [] then ""
    else if |args| == 1 then Quote(args[0])
    else Quote(args[0]) + ", " + Quotes(args[1..])
  }

  function Render(spec: LaunchSpec, eol: string): string {
    HEADER + eol + "command = " + Quote(spec.command) + eol + "args = [" + Quotes(spec.args) + "]" + eol
  }

  /** The text holds a carriage return directly before a line feed. */
  predicate HasCrLf(text: string) {
    exists i :: 0 < i < |text| && text[i - 1] == '\r' && text[i] == '\n'
  }

  function DetectEol(text: string): (eol: string)
    ensures eol == "\n" || eol == "\r\n"
  {
    if HasCrLf(text) then "\r\n" else "\n"
  }

  /** mergeCodexTOML: replaces the block, or appends one. */
  function Merge(text: string, spec: LaunchSpec): string {
    var eol := DetectEol(text);
    var block := Render(spec, eol);
    var start := FindHeader(text);
    if start >= 0 then
      var end := start + BlockLength(text[start..]);
      TrimRight(BlanksCrLf, text[..start] + block + text[end..]) + eol
    else
      var trimmed := TrimRight(BlanksCrLf, text);
      if trimmed == "" then block else trimmed + eol + eol + block
  }

  datatype Status = Missing | Stale | Registered

  /** detectCodex; norm is how two paths are compared. */
  function Detect(text: string, spec: LaunchSpec, norm: string -> string): Status {
    var start := FindHeader(text);
    if start < 0 then Missing
    else
      var found := ReadBlock(text[start..start + BlockLength(text[start..])]);
      if found.Some? && norm(found.value.command) == norm(spec.command) && "--mcp" in found.value.args then Registered
      else Stale
  }
}
