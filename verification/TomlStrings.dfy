/**
 TOML basic strings as the registration code prints and reads them. A text is a
 sequence of Unicode scalar values; positions count characters, and only the
 window of a numeric escape counts UTF-8 bytes.
 */
module TomlStrings {
  import opened Prelude

  // ---------------------------------------------------------------- printing

  function HexDigit(n: nat): char
    requires n < 16
  {
    if n < 10 then '0' + n as char else 'A' + (n - 10) as char
  }

  predicate Control(c: char) {
    c < ' ' || c == '\U{7f}'
  }

  function EscapeChar(c: char): (e: string)
    ensures e != "" && '\n' !in e
  {
    match c
    case '\\' => "\\\\"
    case '"' => "\\\""
    case '\U{8}' => "\\b"
    case '\t' => "\\t"
    case '\n' => "\\n"
    case '\U{c}' => "\\f"
    case '\r' => "\\r"
    case _ => if Control(c) then "\\u00" + [HexDigit(c as int / 16), HexDigit(c as int % 16)] else [c]
  }

  function Escape(s: string): (e: string)
    ensures '\n' !in e
  {
    if s == "" then "" else EscapeChar(s[0]) + Escape(s[1..])
  }

  function Quote(s: string): (q: string)
    ensures |q| >= 2 && q[0] == '"' && q[|q| - 1] == '"' && '\n' !in q
  {
    "\"" + Escape(s) + "\""
  }

  method TomlQuote(s: string) returns (q: string)
    ensures q == Quote(s)
  {
    hide EscapeChar;
    q := "\"";
    for i := 0 to |s|
      invariant q == "\"" + Escape(s[..i])
    {
      assert s[..i + 1] == s[..i] + [s[i]];
      EscapeAppend(s[..i], s[i]);
      q := q + EscapeChar(s[i]);
    }
    assert s[..|s|] == s;
    q := q + "\"";
  }

  lemma {:induction false} EscapeAppend(s: string, c: char)
    ensures Escape(s + [c]) == Escape(s) + EscapeChar(c)
  {
    if s == "" {
      assert (s + [c])[1..] == "" && EscapeChar(c) + "" == EscapeChar(c);
    } else {
      assert (s + [c])[1..] == s[1..] + [c];
      EscapeAppend(s[1..], c);
      ConcatAssociative(EscapeChar(s[0]), Escape(s[1..]), EscapeChar(c));
    }
  }

  // ---------------------------------------------------------------- reading

  /** The number of bytes of a character in UTF-8. */
  function Width(c: char): (w: nat)
    ensures 1 <= w <= 4
  {
    if c as int < 0x80 then 1 else if c as int < 0x800 then 2 else if c as int < 0x10000 then 3 else 4
  }

  /** How many characters make up the next n bytes, if that ends between two characters. */
  function Window(s: string, n: nat): (k: Option<nat>)
    ensures k.Some? ==> k.value <= |s| && (n > 0 ==> k.value > 0)
  {
    if n == 0 then Some(0)
    else if s == "" || Width(s[0]) > n then None
    else
      var k := Window(s[1..], n - Width(s[0]));
      if k.Some? then Some(k.value + 1) else None
  }

  function HexValue(c: char): (v: int)
    ensures -1 <= v < 16
  {
    if '0' <= c <= '9' then c as int - '0' as int
    else if 'a' <= c <= 'f' then c as int - 'a' as int + 10
    else if 'A' <= c <= 'F' then c as int - 'A' as int + 10
    else -1
  }

  /** The value of the hexadecimal digits s starts with, behind those already read. */
  function HexPrefix(s: string, read: nat): nat {
    if s != "" && HexValue(s[0]) >= 0 then HexPrefix(s[1..], 16 * read + HexValue(s[0])) else read
  }

  predicate IsSpace(c: char) {
    var n := c as int;
    || 9 <= n <= 13 || n == 0x20 || n == 0x85 || n == 0xa0 || n == 0x1680 || 0x2000 <= n <= 0x200a
    || n == 0x2028 || n == 0x2029 || n == 0x202f || n == 0x205f || n == 0x3000
  }

  /** What fmt.Sscanf reads for %x into a 32-bit integer: leading blanks and a sign are let through. */
  function ScanHex(s: string): Option<int>
    decreases |s|
  {
    if s == "" || s[0] == '\n' then None
    else if IsSpace(s[0]) then ScanHex(s[1..])
    else
      var signed := s[0] == '+' || s[0] == '-';
      var digits := if signed then s[1..] else s;
      if digits == "" || HexValue(digits[0]) < 0 then None
      else
        var v: int := HexPrefix(digits, 0);
        var n: int := if s[0] == '-' then -v else v;
        if -0x8000_0000 <= n <= 0x7fff_ffff then Some(n) else None
  }

  /** WriteRune: what is no scalar value becomes the replacement character. */
  function RuneOf(n: int): char {
    if 0 <= n < 0xd800 || 0xe000 <= n <= 0x10ffff then n as char else '\U{fffd}'
  }

  /** The value of a string and how many characters it took, the closing quote included. */
  datatype Reading = Reading(value: string, length: nat)

  function Push(c: char, used: nat, rest: Option<Reading>): Option<Reading> {
    if rest.Some? then Some(Reading([c] + rest.value.value, used + rest.value.length)) else None
  }

  /** The character a simple escape stands for. */
  function Simple(c: char): Option<char> {
    match c
    case '\\' => Some('\\')
    case '"' => Some('"')
    case 'b' => Some('\U{8}')
    case 't' => Some('\t')
    case 'n' => Some('\n')
    case 'f' => Some('\U{c}')
    case 'r' => Some('\r')
    case _ => None
  }

  /** One escape behind its backslash: the character and the length of the escape. */
  function ReadEscape(t: string): (r: Option<(char, nat)>)
    ensures r.Some? ==> 0 < r.value.1 <= |t|
  {
    if t == "" then None
    else if Simple(t[0]).Some? then Some((Simple(t[0]).value, 1))
    else if t[0] == 'u' || t[0] == 'U' then
      var window := Window(t[1..], if t[0] == 'u' then 4 else 8);
      if window.None? then None
      else
        var n := ScanHex(t[1..1 + window.value]);
        if n.Some? then Some((RuneOf(n.value), 1 + window.value)) else None
    else None
  }

  /** A basic string behind its opening quote. */
  function ReadBasic(t: string): (r: Option<Reading>)
    ensures r.Some? ==> 0 < r.value.length <= |t|
    decreases |t|
  {
    if t == "" then None
    else if t[0] == '"' then Some(Reading("", 1))
    else if t[0] != '\\' then Push(t[0], 1, ReadBasic(t[1..]))
    else
      var esc := ReadEscape(t[1..]);
      if esc.None? then None else Push(esc.value.0, 1 + esc.value.1, ReadBasic(t[1 + esc.value.1..]))
  }

  /** The first position of c, or -1. */
  function Find(s: string, c: char): (i: int)
    ensures -1 <= i < |s|
    ensures i >= 0 ==> s[i] == c && c !in s[..i]
    ensures i < 0 ==> c !in s
  {
    if s == "" then -1
    else if s[0] == c then 0
    else
      var i := Find(s[1..], c);
      assert i >= 0 ==> s[..i + 1] == [s[0]] + s[1..][..i];
      if i < 0 then -1 else i + 1
  }

  /** A basic or a literal string with its quotes. */
  function Read(t: string): (r: Option<Reading>)
    ensures r.Some? ==> 0 < r.value.length <= |t|
  {
    if t == "" then None
    else if t[0] == '\'' then
      var end := Find(t[1..], '\'');
      if end < 0 then None else Some(Reading(t[1..1 + end], end + 2))
    else if t[0] == '"' then
      var r := ReadBasic(t[1..]);
      if r.None? then None else Some(Reading(r.value.value, r.value.length + 1))
    else None
  }

  /** parseTOMLString: the value and the position just behind the closing quote. */
  method ParseTOMLString(s: string, i: nat) returns (r: Option<Reading>)
    requires i <= |s|
    ensures r == if Read(s[i..]).None? then None
                 else Some(Reading(Read(s[i..]).value.value, i + Read(s[i..]).value.length))
  {
    if i >= |s| {
      return None;
    }
    if s[i] == '\'' {
      var end := Find(s[i + 1..], '\'');
      assert s[i..][1..] == s[i + 1..];
      if end < 0 {
        return None;
      }
      assert s[i..][1..1 + end] == s[i + 1..i + 1 + end];
      return Some(Reading(s[i + 1..i + 1 + end], i + end + 2));
    }
    if s[i] != '"' {
      return None;
    }
    assert s[i..][1..] == s[i + 1..];
    r := ParseBasic(s, i + 1);
  }

  /** What is left to read at j, behind what was read from i on. */
  ghost predicate Continues(s: string, i: nat, b: string, j: nat)
    requires i <= j <= |s|
  {
    && ReadBasic(s[j..]).Some? == ReadBasic(s[i..]).Some?
    && (ReadBasic(s[i..]).Some? ==>
          && ReadBasic(s[i..]).value.value == b + ReadBasic(s[j..]).value.value
          && i + ReadBasic(s[i..]).value.length == j + ReadBasic(s[j..]).value.length)
  }

  lemma PlainContinues(s: string, i: nat, b: string, j: nat)
    requires i <= j < |s| && Continues(s, i, b, j) && s[j] != '"' && s[j] != '\\'
    ensures Continues(s, i, b + [s[j]], j + 1)
  {
    hide ReadEscape;
    assert s[j..][1..] == s[j + 1..];
    if ReadBasic(s[i..]).Some? {
      ConcatAssociative(b, [s[j]], ReadBasic(s[j + 1..]).value.value);
    }
  }

  lemma EscapeContinues(s: string, i: nat, b: string, j: nat)
    requires i <= j < |s| && Continues(s, i, b, j) && s[j] == '\\'
    ensures var esc := ReadEscape(s[j + 1..]);
      if esc.Some? then Continues(s, i, b + [esc.value.0], j + 1 + esc.value.1) else ReadBasic(s[i..]).None?
  {
    hide ReadEscape;
    assert s[j..][1..] == s[j + 1..];
    var esc := ReadEscape(s[j + 1..]);
    if esc.Some? {
      var k := j + 1 + esc.value.1;
      assert s[j..][1 + esc.value.1..] == s[k..];
      if ReadBasic(s[i..]).Some? {
        ConcatAssociative(b, [esc.value.0], ReadBasic(s[k..]).value.value);
      }
    }
  }

  lemma QuoteEnds(s: string, i: nat, b: string, j: nat)
    requires i <= j <= |s| && Continues(s, i, b, j)
    ensures j == |s| ==> ReadBasic(s[i..]).None?
    ensures j < |s| && s[j] == '"' ==> ReadBasic(s[i..]) == Some(Reading(b, j + 1 - i))
  {
    if j == |s| {
      assert s[j..] == "";
    } else if s[j] == '"' {
      assert b + "" == b;
    }
  }

  /** The loop over the characters behind the opening quote. */
  method ParseBasic(s: string, i: nat) returns (r: Option<Reading>)
    requires i <= |s|
    ensures r == if ReadBasic(s[i..]).None? then None
                 else Some(Reading(ReadBasic(s[i..]).value.value, i + ReadBasic(s[i..]).value.length))
  {
    hide ReadBasic, ReadEscape, Continues;
    var b := "";
    var j := i;
    StartsContinuing(s, i);
    while j < |s|
      invariant i <= j <= |s| && Continues(s, i, b, j)
    {
      QuoteEnds(s, i, b, j);
      var c := s[j];
      if c == '"' {
        return Some(Reading(b, j + 1));
      }
      if c != '\\' {
        PlainContinues(s, i, b, j);
        b := b + [c];
        j := j + 1;
        continue;
      }
      EscapeContinues(s, i, b, j);
      var esc := ReadEscape(s[j + 1..]);
      if esc.None? {
        return None;
      }
      b := b + [esc.value.0];
      j := j + 1 + esc.value.1;
    }
    QuoteEnds(s, i, b, j);
    return None;
  }

  lemma StartsContinuing(s: string, i: nat)
    requires i <= |s|
    ensures Continues(s, i, "", i)
  {
    if ReadBasic(s[i..]).Some? {
      assert "" + ReadBasic(s[i..]).value.value == ReadBasic(s[i..]).value.value;
    }
  }

  // ---------------------------------------------------------------- the round trip

  lemma WindowOfAscii(a: string, rest: string)
    requires |a| == 4 && forall c :: c in a ==> c as int < 0x80
    ensures Window(a + rest, 4) == Some(4)
  {
    var s := a + rest;
    assert a[0] in a && a[1] in a && a[2] in a && a[3] in a;
    assert Window(s[4..], 0) == Some(0);
    assert s[3..][1..] == s[4..] && Window(s[3..], 1) == Some(1);
    assert s[2..][1..] == s[3..] && Window(s[2..], 2) == Some(2);
    assert s[1..][1..] == s[2..] && Window(s[1..], 3) == Some(3);
  }

  lemma HexDigitValue(n: nat)
    requires n < 16
    ensures HexValue(HexDigit(n)) == n && HexDigit(n) as int < 0x80
  {
  }

  /** The four digits of a control character read back as it. */
  lemma ControlDigits(c: char)
    requires Control(c)
    ensures ScanHex("00" + [HexDigit(c as int / 16), HexDigit(c as int % 16)]) == Some(c as int)
  {
    var n := c as int;
    var s := "00" + [HexDigit(n / 16), HexDigit(n % 16)];
    HexDigitValue(n / 16);
    HexDigitValue(n % 16);
    assert s[1..][1..][1..][1..] == "";
    assert s[1..][1..][1..] == [s[3]] && HexPrefix([s[3]], n / 16) == n;
    assert s[1..][1..][0] == s[2] && HexPrefix(s[1..][1..], 0) == n;
    assert HexPrefix(s[1..], 0) == n && HexPrefix(s, 0) == n;
  }

  lemma NumericEscapeReads(c: char, tail: string)
    requires Control(c)
    ensures ReadEscape("u00" + [HexDigit(c as int / 16), HexDigit(c as int % 16)] + tail) == Some((c, 5))
  {
    hide Window, ScanHex;
    var digits := "00" + [HexDigit(c as int / 16), HexDigit(c as int % 16)];
    var t := "u00" + [HexDigit(c as int / 16), HexDigit(c as int % 16)] + tail;
    HexDigitValue(c as int / 16);
    HexDigitValue(c as int % 16);
    WindowOfAscii(digits, tail);
    assert t[1..] == digits + tail;
    assert t[1..5] == digits;
    ControlDigits(c);
  }

  lemma SimpleEscapeReads(e: char, c: char, tail: string)
    requires Simple(e) == Some(c) && EscapeChar(c) == "\\" + [e]
    ensures ReadBasic(EscapeChar(c) + tail) == Push(c, |EscapeChar(c)|, ReadBasic(tail))
  {
    hide Window, ScanHex, Simple, EscapeChar;
    var t := EscapeChar(c) + tail;
    assert t[1..] == [e] + tail && t[2..] == tail;
  }

  lemma ControlReads(c: char, tail: string)
    requires Control(c)
    ensures ReadBasic("\\u00" + [HexDigit(c as int / 16), HexDigit(c as int % 16)] + tail) == Push(c, 6, ReadBasic(tail))
  {
    hide Window, ScanHex, HexDigit, ReadEscape;
    var digits := [HexDigit(c as int / 16), HexDigit(c as int % 16)];
    var t := "\\u00" + digits + tail;
    NumericEscapeReads(c, tail);
    assert t[1..] == "u00" + digits + tail;
    assert t[6..] == tail;
  }

  lemma VerbatimReads(c: char, tail: string)
    requires c != '"' && c != '\\'
    ensures ReadBasic([c] + tail) == Push(c, 1, ReadBasic(tail))
  {
    hide ReadEscape;
    assert ([c] + tail)[1..] == tail;
  }

  /** Reading one printed character gives it back and goes on behind it. */
  lemma EscapeReads(c: char, tail: string)
    ensures ReadBasic(EscapeChar(c) + tail) == Push(c, |EscapeChar(c)|, ReadBasic(tail))
  {
    hide ReadBasic, Push;
    match c
    case '\\' => SimpleEscapeReads('\\', c, tail);
    case '"' => SimpleEscapeReads('"', c, tail);
    case '\U{8}' => SimpleEscapeReads('b', c, tail);
    case '\t' => SimpleEscapeReads('t', c, tail);
    case '\n' => SimpleEscapeReads('n', c, tail);
    case '\U{c}' => SimpleEscapeReads('f', c, tail);
    case '\r' => SimpleEscapeReads('r', c, tail);
    case _ =>
      if Control(c) {
        ControlReads(c, tail);
        assert EscapeChar(c) == "\\u00" + [HexDigit(c as int / 16), HexDigit(c as int % 16)];
      } else {
        VerbatimReads(c, tail);
      }
  }

  lemma {:induction false} EscapedReadsBack(s: string, tail: string)
    ensures ReadBasic(Escape(s) + "\"" + tail) == Some(Reading(s, |Escape(s)| + 1))
  {
    hide EscapeChar, ReadEscape;
    var rest := "\"" + tail;
    if s == "" {
      assert Escape(s) + "\"" + tail == rest;
    } else {
      var more := Escape(s[1..]) + "\"" + tail;
      EscapeReads(s[0], more);
      EscapedReadsBack(s[1..], tail);
      assert Escape(s) + "\"" + tail == EscapeChar(s[0]) + more;
      assert [s[0]] + s[1..] == s;
    }
  }

  /** parseTOMLString undoes tomlQuote, and stops just behind the closing quote. */
  lemma QuotedReadsBack(s: string, tail: string)
    ensures Read(Quote(s) + tail) == Some(Reading(s, |Quote(s)|))
  {
    hide ReadBasic, Escape;
    EscapedReadsBack(s, tail);
    assert (Quote(s) + tail)[1..] == Escape(s) + "\"" + tail;
  }

  /** Two strings that print alike are the same. */
  lemma QuoteInjective(s: string, t: string)
    requires Quote(s) == Quote(t)
    ensures s == t
  {
    QuotedReadsBack(s, "");
    QuotedReadsBack(t, "");
  }
}
