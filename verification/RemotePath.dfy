/** Remote path names: the normalising join, and the containment test that bounds a recursive delete. */
module RemotePath {
  import opened Prelude

  // ---------------------------------------------------------------- joining

  function Slashed(s: string): (r: string)
    ensures |r| == |s| && '\\' !in r
    ensures forall i :: 0 <= i < |s| ==> r[i] == if s[i] == '\\' then '/' else s[i]
  {
    if s == "" then "" else [if s[0] == '\\' then '/' else s[0]] + Slashed(s[1..])
  }

  /** strings.Split at "/": always at least one part, and no part holds a slash. */
  function Split(s: string): (parts: seq<string>)
    ensures parts != []
  {
    if s == "" then [""]
    else
      var rest := Split(s[1..]);
      if s[0] == '/' then [""] + rest else [[s[0]] + rest[0]] + rest[1..]
  }

  function Push(stack: seq<string>, part: string): seq<string> {
    if part == "" || part == "." then stack
    else if part == ".." then (if stack == [] then stack else stack[..|stack| - 1])
    else stack + [part]
  }

  function Fold(stack: seq<string>, parts: seq<string>): seq<string>
    decreases |parts|
  {
    if parts == [] then stack else Fold(Push(stack, parts[0]), parts[1..])
  }

  function Join(segments: seq<string>): string {
    if segments == [] then ""
    else if |segments| == 1 then segments[0]
    else segments[0] + "/" + Join(segments[1..])
  }

  function Render(segments: seq<string>): string {
    "/" + Join(segments)
  }

  predicate Absolute(name: string) {
    name != "" && name[0] == '/'
  }

  function TrimSlash(s: string): string {
    if s != "" && s[|s| - 1] == '/' then s[..|s| - 1] else s
  }

  function Raw(cwd: string, name: string): string {
    if Absolute(name) then name else TrimSlash(cwd) + "/" + name
  }

  /** The segments of the joined path. */
  function Segments(cwd: string, name: string): seq<string> {
    Fold([], Split(Slashed(Raw(cwd, name))))
  }

  method JoinRemote(cwd: string, name: string) returns (r: string)
    ensures r == Render(Segments(cwd, name))
  {
    var raw;
    if Absolute(name) {
      raw := name;
    } else {
      raw := TrimSlash(cwd) + "/" + name;
    }
    var parts := Split(Slashed(raw));
    var stack: seq<string> := [];
    assert parts[0..] == parts;
    for i := 0 to |parts|
      invariant Fold(stack, parts[i..]) == Fold([], parts)
    {
      assert parts[i..][1..] == parts[i + 1..];
      var part := parts[i];
      if part == "" || part == "." {
        continue;
      }
      if part == ".." {
        if |stack| > 0 {
          stack := stack[..|stack| - 1];
        }
      } else {
        stack := stack + [part];
      }
    }
    return "/" + Join(stack);
  }

  /** A segment a canonical path may hold. */
  predicate Plain(segment: string) {
    segment != "" && segment != "." && segment != ".." && '/' !in segment && '\\' !in segment
  }

  /** What a server may store: a name that is one segment of its own, in its eyes. */
  predicate EntryName(name: string) {
    name != "" && name != "." && name != ".." && '/' !in name
  }

  ghost predicate AllEntries(segments: seq<string>) {
    forall s :: s in segments ==> EntryName(s)
  }

  ghost predicate AllPlain(segments: seq<string>): (r: bool)
    ensures r ==> AllEntries(segments)
  {
    forall s :: s in segments ==> Plain(s)
  }

  ghost predicate Canonical(path: string) {
    exists segments :: AllPlain(segments) && path == Render(segments)
  }

  lemma {:induction false} PartsHoldNoSlash(s: string)
    requires '\\' !in s
    ensures forall p :: p in Split(s) ==> '/' !in p && '\\' !in p
  {
    if s != "" {
      PartsHoldNoSlash(s[1..]);
      var rest := Split(s[1..]);
      assert s[0] in s && rest[0] in rest;
      assert forall p :: p in rest[1..] ==> p in rest;
    }
  }

  lemma {:induction false} FoldIsPlain(stack: seq<string>, parts: seq<string>)
    requires AllPlain(stack) && forall p :: p in parts ==> '/' !in p && '\\' !in p
    ensures AllPlain(Fold(stack, parts))
    decreases |parts|
  {
    if parts != [] {
      assert parts[0] in parts;
      FoldIsPlain(Push(stack, parts[0]), parts[1..]);
    }
  }

  /** JoinRemote yields canonical paths. */
  lemma JoinIsCanonical(cwd: string, name: string)
    ensures AllPlain(Segments(cwd, name)) && Canonical(Render(Segments(cwd, name)))
  {
    PartsHoldNoSlash(Slashed(Raw(cwd, name)));
    FoldIsPlain([], Split(Slashed(Raw(cwd, name))));
  }

  lemma {:induction false} SplitParts(a: string, b: string)
    ensures Split(a + "/" + b) == Split(a) + Split(b)
  {
    var all := a + "/" + b;
    if a == "" {
      assert all == "/" + b && all[1..] == b;
    } else {
      SplitParts(a[1..], b);
      assert all[1..] == a[1..] + "/" + b;
      SplitFirst(a, Split(b), all);
    }
  }

  lemma SplitFirst(a: string, more: seq<string>, all: string)
    requires a != "" && all != "" && all[0] == a[0] && Split(all[1..]) == Split(a[1..]) + more
    ensures Split(all) == Split(a) + more
  {
    var rest := Split(a[1..]);
    if a[0] == '/' {
      ConcatAssociative([""], rest, more);
    } else {
      assert (rest + more)[0] == rest[0] && (rest + more)[1..] == rest[1..] + more;
      ConcatAssociative([[a[0]] + rest[0]], rest[1..], more);
    }
  }

  lemma {:induction false} FoldParts(stack: seq<string>, a: seq<string>, b: seq<string>)
    ensures Fold(stack, a + b) == Fold(Fold(stack, a), b)
    decreases |a|
  {
    if a == [] {
      assert a + b == b;
    } else {
      FoldParts(Push(stack, a[0]), a[1..], b);
      assert (a + b)[1..] == a[1..] + b;
    }
  }

  lemma {:induction false} SplitPlain(s: string)
    requires '/' !in s
    ensures Split(s) == [s]
  {
    if s != "" {
      assert s[0] in s;
      SplitPlain(s[1..]);
      assert [s[0]] + s[1..] == s;
    }
  }

  lemma {:induction false} SlashedPlain(s: string)
    requires '\\' !in s
    ensures Slashed(s) == s
  {
    assert forall i :: 0 <= i < |s| ==> s[i] in s;
  }

  lemma SlashedParts(a: string, b: string)
    ensures Slashed(a + "/" + b) == Slashed(a) + "/" + Slashed(b)
  {
  }

  lemma {:induction false} JoinHasNoBackslash(segments: seq<string>)
    requires AllPlain(segments)
    ensures '\\' !in Join(segments)
  {
    if segments != [] {
      assert segments[0] in segments;
      if |segments| > 1 {
        JoinHasNoBackslash(segments[1..]);
      }
    }
  }

  /** Splitting and folding a canonical path gives its segments. */
  lemma {:induction false} FoldOfJoin(stack: seq<string>, segments: seq<string>)
    requires AllPlain(segments)
    ensures Fold(stack, Split(Join(segments))) == stack + segments
    decreases |segments|
  {
    if segments == [] {
      assert Split("") == [""];
      assert stack + [] == stack;
    } else {
      var s := segments[0];
      assert s in segments;
      SplitPlain(s);
      if |segments| == 1 {
        assert segments == [s];
      } else {
        SplitParts(s, Join(segments[1..]));
        FoldParts(stack, [s], Split(Join(segments[1..])));
        FoldOfJoin(stack + [s], segments[1..]);
        assert stack + [s] + segments[1..] == stack + segments;
      }
    }
  }

  lemma RootPart(path: string)
    ensures Split("/" + path) == [""] + Split(path)
  {
    SplitParts("", path);
    assert "" + "/" + path == "/" + path && Split("") == [""];
  }

  lemma {:induction false} FoldRender(segments: seq<string>)
    requires AllPlain(segments)
    ensures Fold([], Split(Slashed(Render(segments)))) == segments
  {
    JoinHasNoBackslash(segments);
    SlashedPlain(Render(segments));
    RootPart(Join(segments));
    FoldOfJoin([], segments);
    assert ([""] + Split(Join(segments)))[1..] == Split(Join(segments));
    assert [] + segments == segments;
  }

  /** JoinRemote leaves a canonical path alone, wherever it is joined. */
  lemma JoinIsIdempotent(cwd: string, segments: seq<string>)
    requires AllPlain(segments)
    ensures Segments(cwd, Render(segments)) == segments
  {
    FoldRender(segments);
  }

  lemma {:induction false} SplitOfJoin(segments: seq<string>)
    requires AllEntries(segments) && segments != []
    ensures Split(Join(segments)) == segments
  {
    var s := segments[0];
    assert s in segments;
    SplitPlain(s);
    if |segments| == 1 {
      assert segments == [s];
    } else {
      SplitParts(s, Join(segments[1..]));
      SplitOfJoin(segments[1..]);
      assert [s] + segments[1..] == segments;
    }
  }

  /** A path has one list of segments. */
  lemma RenderInjective(a: seq<string>, b: seq<string>)
    requires AllEntries(a) && AllEntries(b) && Render(a) == Render(b)
    ensures a == b
  {
    assert Join(a) == Render(a)[1..] && Join(b) == Render(b)[1..];
    JoinIsEmpty(a);
    JoinIsEmpty(b);
    if a != [] && b != [] {
      SplitOfJoin(a);
      SplitOfJoin(b);
    }
  }

  lemma RawSegments(raw: string, b: string)
    ensures Fold([], Split(Slashed(raw + "/" + b))) == Fold(Fold([], Split(Slashed(raw))), Split(Slashed(b)))
  {
    SlashedParts(raw, b);
    SplitParts(Slashed(raw), Slashed(b));
    FoldParts([], Split(Slashed(raw)), Split(Slashed(b)));
  }

  lemma {:induction false} JoinEndsPlain(segments: seq<string>)
    requires AllEntries(segments) && segments != []
    ensures var j := Join(segments); j != "" && j[|j| - 1] != '/'
  {
    var s := segments[0];
    assert s in segments;
    assert s[|s| - 1] in s;
    if |segments| > 1 {
      JoinEndsPlain(segments[1..]);
    }
  }

  /** A relative name is joined segment by segment. */
  lemma JoinFolds(segments: seq<string>, name: string)
    requires AllPlain(segments) && !Absolute(name)
    ensures Segments(Render(segments), name) == Fold(segments, Split(Slashed(name)))
  {
    FoldRender(segments);
    if segments == [] {
      assert TrimSlash("/") == "";
      RawSegments("", name);
      assert Split(Slashed("")) == [""];
    } else {
      JoinEndsPlain(segments);
      assert TrimSlash(Render(segments)) == Render(segments);
      RawSegments(Render(segments), name);
    }
  }

  /** Joining a and then b is joining a + "/" + b, for a non-empty a and a relative b. */
  lemma JoinComposes(cwd: string, a: string, b: string)
    requires a != "" && !Absolute(b)
    ensures Segments(Render(Segments(cwd, a)), b) == Segments(cwd, a + "/" + b)
  {
    hide Fold, Split, Slashed, Render;
    JoinIsCanonical(cwd, a);
    JoinFolds(Segments(cwd, a), b);
    RawSegments(Raw(cwd, a), b);
    assert Absolute(a + "/" + b) <==> Absolute(a);
    assert Raw(cwd, a + "/" + b) == Raw(cwd, a) + "/" + b by {
      ConcatAssociative(TrimSlash(cwd) + "/", a, "/" + b);
      ConcatAssociative(TrimSlash(cwd) + "/" + a, "/", b);
      ConcatAssociative(a, "/", b);
    }
  }

  // ---------------------------------------------------------------- containment

  predicate WithinRoot(p: string, root: string) {
    if p == root then true
    else if root == "/" then Absolute(p)
    else root + "/" <= p
  }

  lemma {:induction false} JoinExtends(a: seq<string>, b: seq<string>)
    requires a != [] && b != []
    ensures Join(a + b) == Join(a) + "/" + Join(b)
    decreases |a|
  {
    if |a| == 1 {
      assert (a + b)[1..] == b;
    } else {
      assert (a + b)[1..] == a[1..] + b;
      JoinExtends(a[1..], b);
      ConcatAssociative(a[0] + "/", Join(a[1..]), "/" + Join(b));
      ConcatAssociative(a[0] + "/" + Join(a[1..]), "/", Join(b));
      ConcatAssociative(Join(a[1..]), "/", Join(b));
    }
  }

  /** Where the first segment of a joined path ends. */
  lemma FirstSegment(segments: seq<string>, r: string, rest: string)
    requires AllEntries(segments) && EntryName(r) && Join(segments) == r + "/" + rest
    ensures |segments| > 1 && segments[0] == r && Join(segments[1..]) == rest
  {
    hide EntryName;
    EntryHasNoSlash(r);
    assert segments != [];
    var s := segments[0];
    assert s in segments;
    EntryHasNoSlash(s);
    var j := Join(segments);
    assert j[|r|] == '/' && j[|r|] in j;
    assert |segments| > 1;
    SlashSplits(s, Join(segments[1..]), r, rest);
  }

  lemma EntryHasNoSlash(s: string)
    requires EntryName(s)
    ensures '/' !in s
  {
  }

  lemma {:induction false} SlashSplits(a: string, x: string, b: string, y: string)
    requires '/' !in a && '/' !in b && a + "/" + x == b + "/" + y
    ensures a == b && x == y
  {
    SplitAt(a, x);
    SplitAt(b, y);
    assert (a + "/" + x)[|a| + 1..] == x && (b + "/" + y)[|b| + 1..] == y;
    assert (a + "/" + x)[..|a|] == a && (b + "/" + y)[..|b|] == b;
  }

  /** The position of the first slash. */
  function SlashAt(s: string): nat {
    if s == "" || s[0] == '/' then 0 else 1 + SlashAt(s[1..])
  }

  lemma {:induction false} SplitAt(a: string, x: string)
    requires '/' !in a
    ensures SlashAt(a + "/" + x) == |a|
  {
    if a != "" {
      assert a[0] in a;
      assert (a + "/" + x)[1..] == a[1..] + "/" + x;
      SplitAt(a[1..], x);
    }
  }

  lemma {:induction false} JoinedPrefix(root: seq<string>, segments: seq<string>, tail: string)
    requires AllEntries(root) && AllEntries(segments) && root != []
    requires Join(segments) == Join(root) + "/" + tail
    ensures root <= segments
    decreases |root|
  {
    hide EntryName;
    var r := root[0];
    assert r in root;
    if |root| == 1 {
      FirstSegment(segments, r, tail);
      assert root == [r];
    } else {
      var rest := Join(root[1..]) + "/" + tail;
      ConcatAssociative(r + "/", Join(root[1..]), "/" + tail);
      ConcatAssociative(r + "/" + Join(root[1..]), "/", tail);
      ConcatAssociative(Join(root[1..]), "/", tail);
      FirstSegment(segments, r, rest);
      JoinedPrefix(root[1..], segments[1..], tail);
      assert segments == [r] + segments[1..] && root == [r] + root[1..];
    }
  }

  lemma RenderExtends(root: seq<string>, more: seq<string>)
    requires root != [] && more != []
    ensures Render(root + more) == Render(root) + "/" + Join(more)
  {
    JoinExtends(root, more);
    ConcatAssociative("/", Join(root), "/" + Join(more));
    ConcatAssociative("/" + Join(root), "/", Join(more));
    ConcatAssociative(Join(root), "/", Join(more));
  }

  lemma {:induction false} JoinIsEmpty(segments: seq<string>)
    requires AllEntries(segments)
    ensures Join(segments) == "" <==> segments == []
  {
    if segments != [] {
      JoinEndsPlain(segments);
    }
  }

  /** withinRoot is exactly the prefix test on the segments of the two paths. */
  lemma WithinIsPrefix(root: seq<string>, segments: seq<string>)
    requires AllEntries(root) && AllEntries(segments)
    ensures WithinRoot(Render(segments), Render(root)) <==> root <= segments
  {
    hide EntryName;
    JoinIsEmpty(root);
    var p, r := Render(segments), Render(root);
    if root == [] {
      assert r == "/" && root <= segments;
    } else {
      assert r != "/";
      if p == r {
        RenderInjective(segments, root);
      } else if r + "/" <= p {
        StringPrefix(root, segments);
      } else if root <= segments {
        SegmentPrefix(root, segments);
      }
    }
  }

  lemma StringPrefix(root: seq<string>, segments: seq<string>)
    requires AllEntries(root) && AllEntries(segments) && root != [] && Render(root) + "/" <= Render(segments)
    ensures root <= segments
  {
    var p, r := Render(segments), Render(root);
    var tail := p[|r| + 1..];
    assert p == r + "/" + tail;
    assert Join(segments) == p[1..] && Join(root) == r[1..];
    assert p[1..] == r[1..] + "/" + tail;
    JoinedPrefix(root, segments, tail);
  }

  lemma SegmentPrefix(root: seq<string>, segments: seq<string>)
    requires root != [] && root <= segments
    ensures Render(segments) == Render(root) || Render(root) + "/" <= Render(segments)
  {
    var more := segments[|root|..];
    assert segments == root + more;
    if more != [] {
      RenderExtends(root, more);
    } else {
      assert segments == root;
    }
  }

  // ---------------------------------------------------------------- entries of a directory

  /** The server's path of an entry. */
  function ChildPath(dir: string, name: string): string {
    if dir == "/" then "/" + name else dir + "/" + name
  }

  lemma JoinOfPlain(segments: seq<string>, name: string)
    requires AllPlain(segments) && Plain(name)
    ensures Segments(Render(segments), name) == segments + [name]
    ensures Render(segments + [name]) == ChildPath(Render(segments), name)
  {
    SplitPlain(name);
    SlashedPlain(name);
    assert !Absolute(name);
    JoinFolds(segments, name);
    assert Fold(segments, [name]) == Push(segments, name);
    JoinIsEmpty(segments);
    if segments == [] {
      assert [] + [name] == [name];
    } else {
      RenderExtends(segments, [name]);
      assert Render(segments) != "/";
    }
  }

  /** Joining an entry name gives the entry exactly when the name holds no backslash. */
  lemma JoinNamesTheEntry(segments: seq<string>, name: string)
    requires AllPlain(segments) && EntryName(name)
    ensures Render(Segments(Render(segments), name)) == ChildPath(Render(segments), name) <==> '\\' !in name
  {
    JoinIsCanonical(Render(segments), name);
    JoinHasNoBackslash(Segments(Render(segments), name));
    hide Segments, Join;
    if '\\' !in name {
      JoinOfPlain(segments, name);
    } else {
      var child := ChildPath(Render(segments), name);
      var i :| 0 <= i < |name| && name[i] == '\\';
      assert child[|child| - |name| + i] == '\\' && '\\' in child;
    }
  }
}
