/** What each piece of a TOML value reads as, piece by piece: literal strings, numeric escapes, arrays. */
module TomlLaws {
  import opened Prelude
  import opened TomlStrings
  import opened CodexConfig
  import opened CodexTheorems

  // ---------------------------------------------------------------- strings

  /** A literal string is what stands between its quotes, backslashes and all. */
  lemma LiteralReads(s: string, tail: string)
    requires '\'' !in s
    ensures Read("'" + s + "'" + tail) == Some(Reading(s, |s| + 2))
  {
    var t := "'" + s + "'" + tail;
    assert t[1..] == s + ['\''] + tail;
    FindIs(s, tail, '\'');
    assert t[1..1 + |s|] == s;
  }

  /** A string that is not closed does not read, nor does anything without a quote in front. */
  lemma UnclosedReadsNothing(s: string)
    ensures '\'' !in s ==> Read("'" + s).None?
    ensures '"' !in s && '\\' !in s ==> Read("\"" + s).None?
    ensures s != "" && s[0] != '\'' && s[0] != '"' ==> Read(s).None?
    ensures Read("").None?
  {
    assert ("'" + s)[1..] == s && ("\"" + s)[1..] == s;
    if '\'' !in s {
      FindNone(s, '\'');
    }
    if '"' !in s && '\\' !in s {
      NoQuoteNoEnd(s);
    }
  }

  lemma {:induction false} NoQuoteNoEnd(s: string)
    requires '"' !in s && '\\' !in s
    ensures ReadBasic(s).None?
  {
    if s != "" {
      assert s[0] in s;
      NoQuoteNoEnd(s[1..]);
    }
  }

  /** The number the hexadecimal digits spell. */
  function HexNumber(digits: string): nat
    requires forall c :: c in digits ==> HexValue(c) >= 0
  {
    if digits == "" then 0
    else
      var last := digits[|digits| - 1];
      16 * HexNumber(digits[..|digits| - 1]) + HexValue(last)
  }

  /** The sixteen digits, in either case. */
  lemma HexDigits(n: nat)
    requires n < 16
    ensures HexValue("0123456789abcdef"[n]) == n && HexValue("0123456789ABCDEF"[n]) == n
  {
  }

  lemma {:induction false} WindowOfAsciiChars(a: string, rest: string)
    requires forall c :: c in a ==> c as int < 0x80
    ensures Window(a + rest, |a|) == Some(|a|)
  {
    if a != "" {
      assert a[0] in a && forall c :: c in a[1..] ==> c in a;
      WindowOfAsciiChars(a[1..], rest);
      assert (a + rest)[1..] == a[1..] + rest;
    }
  }

  lemma {:induction false} PrefixReadsOn(a: string, last: char, read: nat)
    requires HexValue(last) >= 0 && forall c :: c in a ==> HexValue(c) >= 0
    ensures HexPrefix(a + [last], read) == 16 * HexPrefix(a, read) + HexValue(last)
  {
    if a == "" {
      assert ([last])[1..] == "" && a + [last] == [last];
      assert HexPrefix([last], read) == HexPrefix("", 16 * read + HexValue(last));
    } else {
      assert a[0] in a && (a + [last])[1..] == a[1..] + [last];
      PrefixReadsOn(a[1..], last, 16 * read + HexValue(a[0]));
    }
  }

  lemma {:induction false} PrefixIsNumber(digits: string)
    requires forall c :: c in digits ==> HexValue(c) >= 0
    ensures HexPrefix(digits, 0) == HexNumber(digits)
  {
    if digits != "" {
      var a, last := digits[..|digits| - 1], digits[|digits| - 1];
      assert digits == a + [last] && last in digits && forall c :: c in a ==> c in digits;
      PrefixIsNumber(a);
      PrefixReadsOn(a, last, 0);
    }
  }

  lemma HexIsSolid(c: char)
    requires HexValue(c) >= 0
    ensures c as int < 0x80 && !IsSpace(c) && c != '\n' && c != '+' && c != '-'
  {
  }

  lemma HexScans(digits: string)
    requires digits != "" && forall c :: c in digits ==> HexValue(c) >= 0
    ensures ScanHex(digits) == if HexNumber(digits) > 0x7fff_ffff then None else Some(HexNumber(digits))
  {
    hide HexPrefix, HexNumber, IsSpace;
    assert digits[0] in digits;
    HexIsSolid(digits[0]);
    PrefixIsNumber(digits);
  }

  lemma EscapeOfWindow(t: string, k: nat)
    requires t != "" && (t[0] == 'u' || t[0] == 'U') && k < |t|
    requires Window(t[1..], if t[0] == 'u' then 4 else 8) == Some(k)
    ensures ReadEscape(t) == var n := ScanHex(t[1..1 + k]); if n.None? then None else Some((RuneOf(n.value), 1 + k))
  {
  }

  /** Four digits behind \u, or eight behind \U, name a character; what is no scalar value becomes U+FFFD. */
  lemma NumericEscape(digits: string, tail: string)
    requires forall c :: c in digits ==> HexValue(c) >= 0
    requires |digits| == 4 || |digits| == 8
    ensures var n := HexNumber(digits);
      var mark := if |digits| == 4 then "u" else "U";
      ReadEscape(mark + digits + tail)
      == if n > 0x7fff_ffff then None
         else Some((if n < 0xd800 || 0xe000 <= n <= 0x10ffff then n as char else '\U{fffd}', 1 + |digits|))
  {
    hide Window, HexNumber, HexValue, ScanHex, ReadEscape;
    var mark := if |digits| == 4 then "u" else "U";
    var t := mark + digits + tail;
    forall c | c in digits ensures c as int < 0x80 {
      HexIsSolid(c);
    }
    WindowOfAsciiChars(digits, tail);
    HexScans(digits);
    assert t[1..] == digits + tail;
    assert t[1..1 + |digits|] == digits;
    EscapeOfWindow(t, |digits|);
  }

  /** A backslash in front of any other character makes the string unreadable. */
  lemma UnknownEscape(c: char, tail: string)
    requires c !in "\\\"btnfruU"
    ensures ReadBasic("\\" + [c] + tail).None?
  {
    var t := "\\" + [c] + tail;
    assert t[1..] == [c] + tail;
    assert "\\\"btnfruU"[0] == '\\' && "\\\"btnfruU"[1] == '"' && "\\\"btnfruU"[2] == 'b' && "\\\"btnfruU"[3] == 't';
    assert "\\\"btnfruU"[4] == 'n' && "\\\"btnfruU"[5] == 'f' && "\\\"btnfruU"[6] == 'r';
    assert "\\\"btnfruU"[7] == 'u' && "\\\"btnfruU"[8] == 'U';
  }

  // ---------------------------------------------------------------- arrays

  /** Blanks, line ends and commas, in any number, separate. */
  lemma {:induction false} SeparatorsSkip(sep: string, t: string)
    requires forall c :: c in sep ==> c == ',' || c == ' ' || c == '\t' || c == '\n' || c == '\r'
    ensures ReadItems(sep + t) == ReadItems(t)
  {
    if sep == "" {
      assert sep + t == t;
    } else {
      assert forall c :: c in sep[1..] ==> c in sep;
      assert sep[0] in sep && (sep + t)[1..] == sep[1..] + t;
      SeparatorsSkip(sep[1..], t);
    }
  }

  /** A comment goes to the end of its line; one that does not end closes no array. */
  lemma CommentSkips(comment: string, t: string)
    requires '\n' !in comment
    ensures ReadItems("#" + comment + "\n" + t) == ReadItems(t)
    ensures ReadItems("#" + comment).None?
  {
    hide Find, Read;
    var s := "#" + comment + "\n" + t;
    assert '\n' !in "#" + comment;
    FindIs("#" + comment, t, '\n');
    assert s == "#" + comment + ['\n'] + t;
    assert s[|"#" + comment| + 1..] == t;
    FindNone("#" + comment, '\n');
  }

  /** An item is a string, and the rest goes on behind it; what is no string makes the array unreadable. */
  lemma ItemTakes(t: string)
    requires t != "" && t[0] !in "], \t\n\r#"
    ensures Read(t).None? ==> ReadItems(t).None?
    ensures Read(t).Some? ==>
              var rest := ReadItems(t[Read(t).value.length..]);
              ReadItems(t) == if rest.None? then None else Some([Read(t).value.value] + rest.value)
  {
    hide Read;
    var stops := "], \t\n\r#";
    assert stops[0] == ']' && stops[1] == ',' && stops[2] == ' ' && stops[3] == '\t';
    assert stops[4] == '\n' && stops[5] == '\r' && stops[6] == '#';
  }

  /** An array opens and closes with brackets. */
  lemma ArrayEdges(t: string)
    ensures ReadArray("[" + t) == ReadItems(t)
    ensures ReadItems("]" + t) == Some([])
    ensures ReadItems("").None?
    ensures t == "" || t[0] != '[' ==> ReadArray(t).None?
  {
    assert ("[" + t)[1..] == t;
  }
}
