/** Which entries of a Codex block are read, however a user lays them out. */
module CodexEntries {
  import opened Prelude
  import opened TomlStrings
  import opened CodexConfig
  import opened CodexTheorems

  predicate IsKey(key: string) {
    key == "command" || key == "args"
  }

  // ---------------------------------------------------------------- reading does not look ahead

  lemma {:induction false} WindowIsLocal(s: string, n: nat, more: string)
    requires Window(s, n).Some?
    ensures Window(s + more, n) == Window(s, n)
  {
    if n > 0 {
      WindowIsLocal(s[1..], n - Width(s[0]), more);
      assert (s + more)[1..] == s[1..] + more;
    }
  }

  lemma EscapeIsLocal(t: string, more: string)
    requires ReadEscape(t).Some?
    ensures ReadEscape(t + more) == ReadEscape(t)
  {
    hide Window, ScanHex;
    if !Simple(t[0]).Some? {
      var n := if t[0] == 'u' then 4 else 8;
      assert (t + more)[1..] == t[1..] + more;
      WindowIsLocal(t[1..], n, more);
      var k := Window(t[1..], n).value;
      assert (t + more)[1..1 + k] == t[1..1 + k];
    }
  }

  lemma {:induction false} BasicIsLocal(t: string, more: string)
    requires ReadBasic(t).Some?
    ensures ReadBasic(t + more) == ReadBasic(t)
    ensures t[ReadBasic(t).value.length - 1] == '"'
    decreases |t|
  {
    hide ReadEscape;
    assert (t + more)[1..] == t[1..] + more;
    if t[0] != '"' {
      if t[0] != '\\' {
        BasicIsLocal(t[1..], more);
      } else {
        EscapeIsLocal(t[1..], more);
        var n := 1 + ReadEscape(t[1..]).value.1;
        assert (t + more)[n..] == t[n..] + more;
        BasicIsLocal(t[n..], more);
      }
    }
  }

  lemma FindIsLocal(s: string, c: char, more: string)
    requires Find(s, c) >= 0
    ensures Find(s + more, c) == Find(s, c)
  {
    var i := Find(s, c);
    assert s + more == s[..i] + [c] + (s[i + 1..] + more);
    FindIs(s[..i], s[i + 1..] + more, c);
  }

  /** A string reads the same whatever follows it, and ends in its quote. */
  lemma ReadIsLocal(t: string, more: string)
    requires Read(t).Some?
    ensures Read(t + more) == Read(t)
    ensures t[Read(t).value.length - 1] == '"' || t[Read(t).value.length - 1] == '\''
  {
    hide ReadBasic;
    assert (t + more)[1..] == t[1..] + more;
    if t[0] == '\'' {
      FindIsLocal(t[1..], '\'', more);
      var end := Find(t[1..], '\'');
      assert (t + more)[1..1 + end] == t[1..1 + end];
    } else {
      BasicIsLocal(t[1..], more);
    }
  }

  lemma {:induction false} ItemsAreLocal(t: string, more: string)
    requires ReadItems(t).Some?
    ensures ReadItems(t + more) == ReadItems(t)
    decreases |t|
  {
    hide Read, Find;
    assert (t + more)[1..] == t[1..] + more;
    if t[0] != ']' {
      if t[0] == ',' || t[0] == ' ' || t[0] == '\t' || t[0] == '\n' || t[0] == '\r' {
        ItemsAreLocal(t[1..], more);
      } else if t[0] == '#' {
        var nl := Find(t, '\n');
        FindIsLocal(t, '\n', more);
        assert (t + more)[nl + 1..] == t[nl + 1..] + more;
        ItemsAreLocal(t[nl + 1..], more);
      } else {
        ReadIsLocal(t, more);
        var n := Read(t).value.length;
        assert (t + more)[n..] == t[n..] + more;
        ItemsAreLocal(t[n..], more);
      }
    }
  }

  lemma ArrayIsLocal(t: string, more: string)
    requires ReadArray(t).Some?
    ensures ReadArray(t + more) == ReadArray(t)
  {
    hide ReadItems;
    assert (t + more)[1..] == t[1..] + more;
    ItemsAreLocal(t[1..], more);
  }

  // ---------------------------------------------------------------- an entry at the start of its line

  /** A complete value of the kind the key takes. */
  predicate IsValue(key: string, value: string) {
    if key == "command" then Read(value).Some? && Read(value).value.length == |value|
    else ReadArray(value).Some? && value[|value| - 1] == ']'
  }

  function Means(key: string, value: string): Entry
    requires IsKey(key) && IsValue(key, value)
  {
    if key == "command" then Command(Read(value).value.value) else Args(ReadArray(value).value)
  }

  lemma ValueIsSolid(key: string, value: string)
    requires IsKey(key) && IsValue(key, value)
    ensures value != "" && !IsSpace(value[0]) && !IsSpace(value[|value| - 1])
  {
    hide ReadBasic, ReadItems;
    if key == "command" {
      ReadIsLocal(value, "");
    }
  }

  lemma ValueIsLocal(key: string, value: string, more: string)
    requires IsKey(key) && IsValue(key, value)
    ensures key == "command" ==>
      Read(value + more) == Read(value) && ((value + more)[0] == '"' || (value + more)[0] == '\'')
    ensures key == "args" ==> ReadArray(value + more) == ReadArray(value)
  {
    hide ReadBasic, ReadItems;
    if key == "command" {
      ReadIsLocal(value, more);
    } else {
      ArrayIsLocal(value, more);
    }
  }

  /** The line as the code sees it: the key, blanks, and an equals sign behind which the value stands. */
  lemma LineOfEntry(key: string, before: string, tail: string) returns (left: string)
    requires IsKey(key) && AllIn(White, before) && '\n' !in before
    ensures FirstLine(key + before + "=" + tail) == key + before + "=" + FirstLine(tail)
    ensures TrimSpace(FirstLine(key + before + "=" + tail)) == key + before + ['='] + left
    ensures Find(key + before + ['='] + left, '=') == |key + before|
    ensures TrimSpace(key + before) == key
    ensures key != "" && key[0] != '#' && key[0] != '['
  {
    KeyFacts(key);
    assert '=' !in key + before && '\n' !in key + before + "=" by {
      BlanksHaveNoEquals(before);
    }
    hide TrimSpace, FirstLine, Find, AllIn, IsSpace;
    var core := key + before + "=";
    LineOfTwo(core, tail);
    EqualsIsSolid();
    left := TrimSpaceKeeps(core, FirstLine(tail));
    assert core == key + before + ['='];
    FindIs(key + before, left, '=');
    var none := TrimSpaceKeeps(key, before);
    assert key + none == key;
  }

  lemma EqualsIsSolid()
    ensures !IsSpace('=')
  {
  }

  lemma BlanksHaveNoEquals(blanks: string)
    requires AllIn(White, blanks)
    ensures '=' !in blanks
  {
  }

  lemma KeyFacts(key: string)
    requires IsKey(key)
    ensures key != "" && !IsSpace(key[0]) && !IsSpace(key[|key| - 1]) && key[0] != '#' && key[0] != '['
    ensures '=' !in key && '\n' !in key
    ensures '"' !in key && '\'' !in key && '[' !in key
  {
  }

  /** An entry at the start of its line is read, with any blanks around the equals sign and anything behind it. */
  lemma EntryReads(key: string, before: string, after: string, value: string, more: string)
    requires IsKey(key) && IsValue(key, value)
    requires AllIn(White, before) && AllIn(White, after) && '\n' !in before
    ensures EntryAt(key + before + "=" + (after + (value + more))) == Means(key, value)
  {
    ValueIsSolid(key, value);
    var tail := after + (value + more);
    var text := key + before + "=" + tail;
    var left := LineOfEntry(key, before, tail);
    var line := key + before + ['='] + left;
    assert line[..|key + before|] == key + before;
    assert text[|key + before| + 1..] == tail;
    hide Read, ReadArray, FirstLine, Find, AllIn, IsSpace, IsValue;
    TrimLeftParts(White, after, value + more);
    var kept := TrimSpaceKeeps(value, more);
    ValueIsLocal(key, value, kept);
  }

  // ---------------------------------------------------------------- an indented entry

  lemma {:induction false} TrimLeftDrops(cut: Cut, s: string)
    ensures AllIn(cut, s[..|s| - |TrimLeft(cut, s)|])
    ensures s != "" && In(cut, s[0]) ==> |TrimLeft(cut, s)| < |s|
  {
    if s != "" && In(cut, s[0]) {
      TrimLeftDrops(cut, s[1..]);
      var n := |s| - |TrimLeft(cut, s)|;
      assert s[..n] == [s[0]] + s[1..][..n - 1];
    }
  }

  lemma InOneOf(a: string, b: string, c: char)
    requires c in a + b
    ensures c in a || c in b
  {
  }

  lemma TrimLeftLosesBlanks(s: string, c: char)
    requires c in s && !IsSpace(c)
    ensures c in TrimLeft(White, s)
  {
    var t := TrimLeft(White, s);
    TrimLeftDrops(White, s);
    TrimLeftIsSuffix(White, s);
    assert s == s[..|s| - |t|] + t;
    InOneOf(s[..|s| - |t|], t, c);
  }

  lemma TrimRightLosesBlanks(s: string, c: char)
    requires c in s && !IsSpace(c)
    ensures c in TrimRight(White, s)
  {
    var t := TrimRight(White, s);
    TrimRightAll(White, s);
    assert s == t + s[|t|..];
    InOneOf(t, s[|t|..], c);
  }

  /** Trimming loses white space only. */
  lemma TrimSpaceLosesBlanks(s: string, c: char)
    requires c in s && !IsSpace(c)
    ensures c in TrimSpace(s)
  {
    hide TrimLeft, TrimRight;
    TrimLeftLosesBlanks(s, c);
    TrimRightLosesBlanks(TrimLeft(White, s), c);
  }

  /** The key of the line text starts with, read as the code reads it. */
  function KeyOf(text: string): Option<string> {
    var line := TrimSpace(FirstLine(text));
    if line == "" || line[0] == '#' || line[0] == '[' || Find(line, '=') < 0 then None
    else Some(TrimSpace(line[..Find(line, '=')]))
  }

  /** Where the trimmed line stands in the text. */
  lemma LineStands(text: string) returns (k: nat)
    requires FirstLine(text) != "" && IsSpace(FirstLine(text)[0])
    ensures var line := TrimSpace(FirstLine(text));
      k > 0 && k + |line| <= |text| && text[k..k + |line|] == line && AllIn(White, text[..k])
  {
    var first := FirstLine(text);
    var t := TrimLeft(White, first);
    TrimLeftDrops(White, first);
    TrimLeftIsSuffix(White, first);
    k := |first| - |t|;
    assert first[..k] == text[..k];
    var line := TrimRight(White, t);
    assert t[..|line|] == line && t == first[k..];
    assert first == text[..|first|];
  }

  /** The first solid character at or behind a place up to the equals sign belongs to the key, or is that sign. */
  lemma SolidOfKey(text: string, k: nat, line: string, eq: nat, c: char)
    requires k + |line| <= |text| && text[k..k + |line|] == line && AllIn(White, text[..k])
    requires eq < |line| && line[eq] == '='
    requires c in text[eq + 1..k + eq + 1] && !IsSpace(c)
    ensures c == '=' || c in TrimSpace(line[..eq])
  {
    var x := text[eq + 1..k + eq + 1];
    var i :| 0 <= i < |x| && x[i] == c;
    var p := eq + 1 + i;
    hide TrimSpace, IsSpace;
    assert forall j :: 0 <= j < k ==> text[..k][j] in text[..k];
    assert forall j :: 0 <= j < k ==> IsSpace(text[j]);
    assert line[p - k] == c;
    if p < k + eq {
      assert line[..eq][p - k] == c;
      TrimSpaceLosesBlanks(line[..eq], c);
    }
  }

  /** With anything but the key behind it, the value of an indented entry is what the key's own letters read as: nothing. */
  lemma IndentedValue(text: string, k: nat, line: string, eq: nat)
    requires k > 0 && k + |line| <= |text| && text[k..k + |line|] == line && AllIn(White, text[..k])
    requires eq < |line| && line[eq] == '=' && IsKey(TrimSpace(line[..eq]))
    ensures var rest := TrimSpace(text[eq + 1..]);
      rest != "" ==> rest[0] != '"' && rest[0] != '\'' && rest[0] != '['
  {
    hide TrimLeft, TrimRight;
    var x := text[eq + 1..k + eq + 1];
    var more := text[k + eq + 1..];
    assert text[eq + 1..] == x + more;
    assert x[|x| - 1] == line[eq] && x[|x| - 1] in x;
    TrimLeftParts(White, x, more);
    TrimLeftIsSuffix(White, x);
    var t := TrimLeft(White, x);
    assert t[0] in t;
    SolidOfKey(text, k, line, eq, t[0]);
    KeyFacts(TrimSpace(line[..eq]));
  }

  /** An indented command or args entry is never read, whatever its value and its spacing: it spoils the block. */
  lemma IndentedEntryIsMalformed(text: string)
    requires FirstLine(text) != "" && IsSpace(FirstLine(text)[0])
    requires KeyOf(text).Some? && IsKey(KeyOf(text).value)
    ensures EntryAt(text) == Malformed
  {
    hide FirstLine, TrimSpace, Read, ReadItems, AllIn, IsSpace;
    var line := TrimSpace(FirstLine(text));
    var eq := Find(line, '=');
    var k := LineStands(text);
    IndentedValue(text, k, line, eq);
  }

  lemma IndentedKey(indent: string, key: string, before: string, tail: string)
    requires IsKey(key) && AllIn(White, indent) && '\n' !in indent && indent != ""
    requires AllIn(White, before) && '\n' !in before
    ensures var text := indent + (key + before + "=" + tail);
      FirstLine(text) != "" && IsSpace(FirstLine(text)[0]) && KeyOf(text) == Some(key)
  {
    var text := key + before + "=" + tail;
    var left := LineOfEntry(key, before, tail);
    LineOfTwo(indent, text);
    assert indent[0] in indent;
    hide FirstLine, Find;
    TrimLeftParts(White, indent, FirstLine(text));
    var line := key + before + ['='] + left;
    assert TrimSpace(indent + FirstLine(text)) == line;
    assert line[..|key + before|] == key + before;
  }

  /** A complete entry, of either key and with any spacing, is read exactly when it is not indented. */
  lemma ReadExactlyWhenNotIndented(indent: string, key: string, before: string, after: string, value: string, more: string)
    requires IsKey(key) && IsValue(key, value) && AllIn(White, indent) && '\n' !in indent
    requires AllIn(White, before) && AllIn(White, after) && '\n' !in before
    ensures EntryAt(indent + (key + before + "=" + (after + (value + more))))
         == if indent == "" then Means(key, value) else Malformed
  {
    hide EntryAt, IsValue, AllIn, KeyOf, FirstLine;
    var text := key + before + "=" + (after + (value + more));
    if indent == "" {
      EntryReads(key, before, after, value, more);
      assert "" + text == text;
    } else {
      IndentedKey(indent, key, before, after + (value + more));
      IndentedEntryIsMalformed(indent + text);
    }
  }

  /** One malformed entry anywhere makes the whole block unreadable. */
  lemma {:induction false} MalformedSpoilsTheBlock(front: string, text: string, spec: LaunchSpec)
    requires front == "" || front[|front| - 1] == '\n'
    requires text != "" && EntryAt(text).Malformed?
    ensures ReadLines(front + text, spec).None?
    decreases |front|
  {
    hide EntryAt, FirstLine, Behind, Cons, Apply;
    if front == "" {
      assert front + text == text;
    } else {
      FirstLineFacts(front);
      assert front[|front| - 1] in front;
      var line, rest := FirstLine(front), Behind(front).value;
      FrontSplits(front);
      ConsAppend(line, rest, text);
      LineIs(line, rest + text);
      if !EntryAt(front + text).Malformed? {
        OneLine(front + text, spec);
        MalformedSpoilsTheBlock(rest, text, Apply(EntryAt(front + text), spec));
      }
    }
  }

  lemma FrontSplits(front: string)
    requires front != "" && front[|front| - 1] == '\n' && Behind(front).Some?
    ensures front == Cons(FirstLine(front), Behind(front).value)
    ensures var rest := Behind(front).value; rest == "" || rest[|rest| - 1] == '\n'
  {
    hide FirstLine;
  }
}
