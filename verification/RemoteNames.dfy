/**
 Where a listed name leads. The server lists entries of a directory; the join
 reads a backslash in a name as a separator, so a name may climb, stay, or go
 several levels down.
 */
module RemoteNames {
  import opened Prelude
  import opened RemotePath

  /** The effect of a list of parts on any stack: so many levels up, then these segments down. */
  datatype Net = Net(climbs: nat, rest: seq<string>)

  function Follow(net: Net, part: string): Net {
    if part == "" || part == "." then net
    else if part != ".." then Net(net.climbs, net.rest + [part])
    else if net.rest == [] then Net(net.climbs + 1, [])
    else Net(net.climbs, net.rest[..|net.rest| - 1])
  }

  function FollowAll(net: Net, parts: seq<string>): Net
    decreases |parts|
  {
    if parts == [] then net else FollowAll(Follow(net, parts[0]), parts[1..])
  }

  /** What a name amounts to, read with backslashes as separators. */
  function Leads(name: string): Net {
    FollowAll(Net(0, []), Split(Slashed(name)))
  }

  /** The directory so many levels up; the root stays where it is. */
  function Above(dir: seq<string>, climbs: nat): (up: seq<string>)
    ensures up <= dir
  {
    if climbs >= |dir| then [] else dir[..|dir| - climbs]
  }

  /** What climbing leaves behind of the directory. */
  function Left(dir: seq<string>, climbs: nat): (tail: seq<string>)
    ensures Above(dir, climbs) + tail == dir
    ensures climbs == 0 ==> tail == []
  {
    dir[|Above(dir, climbs)|..]
  }

  lemma PushFollows(dir: seq<string>, net: Net, part: string)
    ensures Push(Above(dir, net.climbs) + net.rest, part)
         == Above(dir, Follow(net, part).climbs) + Follow(net, part).rest
  {
    var up, next := Above(dir, net.climbs), Follow(net, part);
    if part != "" && part != "." {
      if part != ".." {
        ConcatAssociative(up, net.rest, [part]);
      } else if net.rest != [] {
        assert (up + net.rest)[..|up + net.rest| - 1] == up + next.rest;
      } else {
        assert up + net.rest == up;
        assert up != [] ==> up[..|up| - 1] == Above(dir, next.climbs);
        assert Above(dir, next.climbs) + [] == Above(dir, next.climbs);
      }
    }
  }

  lemma {:induction false} FoldFollows(dir: seq<string>, net: Net, parts: seq<string>)
    ensures Fold(Above(dir, net.climbs) + net.rest, parts)
         == Above(dir, FollowAll(net, parts).climbs) + FollowAll(net, parts).rest
    decreases |parts|
  {
    hide Push, Follow, Above;
    if parts != [] {
      PushFollows(dir, net, parts[0]);
      FoldFollows(dir, Follow(net, parts[0]), parts[1..]);
    }
  }

  lemma NameIsRelative(name: string)
    requires EntryName(name)
    ensures !Absolute(name)
  {
    if name != "" {
      assert name[0] in name;
    }
  }

  /** Joining a listed name climbs and goes down as the name says. */
  lemma JoinLeads(dir: seq<string>, name: string)
    requires AllPlain(dir) && EntryName(name)
    ensures Segments(Render(dir), name) == Above(dir, Leads(name).climbs) + Leads(name).rest
  {
    NameIsRelative(name);
    JoinFolds(dir, name);
    FoldFollows(dir, Net(0, []), Split(Slashed(name)));
    assert Above(dir, 0) + [] == dir;
  }

  lemma PrefixCancels<T>(front: seq<T>, a: seq<T>, b: seq<T>)
    ensures front + a <= front + b <==> a <= b
  {
    if front + a <= front + b {
      assert (front + b)[..|front + a|] == front + a;
      assert b[..|a|] == (front + b)[|front|..|front| + |a|];
    }
  }

  /** The join stays in the directory exactly when it goes back down what it climbed. */
  lemma ChildStaysInside(dir: seq<string>, name: string)
    requires AllPlain(dir) && EntryName(name)
    ensures WithinRoot(Render(Segments(Render(dir), name)), Render(dir))
       <==> Left(dir, Leads(name).climbs) <= Leads(name).rest
  {
    JoinLeads(dir, name);
    JoinIsCanonical(Render(dir), name);
    hide Render, WithinRoot, Segments, Leads;
    WithinIsPrefix(dir, Segments(Render(dir), name));
    PrefixCancels(Above(dir, Leads(name).climbs), Left(dir, Leads(name).climbs), Leads(name).rest);
  }

  /** Strictly below the directory, in the paths' own terms. */
  predicate GoesBelow(dir: string, name: string) {
    var child := Render(Segments(dir, name));
    WithinRoot(child, dir) && child != dir
  }

  /** The join goes strictly below exactly when it also goes further than what it climbed. */
  lemma ChildGoesBelow(dir: seq<string>, name: string)
    requires AllPlain(dir) && EntryName(name)
    ensures GoesBelow(Render(dir), name) <==> Left(dir, Leads(name).climbs) < Leads(name).rest
  {
    JoinLeads(dir, name);
    JoinIsCanonical(Render(dir), name);
    ChildStaysInside(dir, name);
    hide Render, WithinRoot, Segments, Leads;
    var child := Segments(Render(dir), name);
    ConcatCancels(Above(dir, Leads(name).climbs), Left(dir, Leads(name).climbs), Leads(name).rest);
    if Render(child) == Render(dir) {
      RenderInjective(child, dir);
    }
  }

  /** A name without a backslash is one segment down. */
  lemma PlainNameGoesBelow(dir: seq<string>, name: string)
    requires AllPlain(dir) && EntryName(name) && '\\' !in name
    ensures Leads(name) == Net(0, [name])
    ensures GoesBelow(Render(dir), name)
  {
    SlashedPlain(name);
    SplitPlain(name);
    assert [name][1..] == [] && [] + [name] == [name];
    assert FollowAll(Net(0, []), [name]) == FollowAll(Net(0, [name]), []);
    ChildGoesBelow(dir, name);
  }

  // ---------------------------------------------------------------- names with one backslash

  lemma SlashedConcat(a: string, b: string)
    ensures Slashed(a + b) == Slashed(a) + Slashed(b)
  {
  }

  lemma TwoParts(dir: seq<string>, a: string, b: string)
    requires AllPlain(dir) && a != "" && '/' !in a + b && '\\' !in a + b
    ensures EntryName(a + "\\" + b)
    ensures Segments(Render(dir), a + "\\" + b) == Push(Push(dir, a), b)
  {
    var name := a + "\\" + b;
    assert forall c :: c in a || c in b ==> c in a + b;
    assert name[|a|] == '\\' && '\\' in name;
    SlashedConcat(a + "\\", b);
    SlashedConcat(a, "\\");
    SlashedPlain(a);
    SlashedPlain(b);
    assert Slashed("\\") == "/";
    SplitPlain(a);
    SplitPlain(b);
    SplitParts(a, b);
    NameIsRelative(name);
    JoinFolds(dir, name);
    TwoFolds(dir, a, b);
  }

  lemma TwoFolds(stack: seq<string>, a: string, b: string)
    ensures Fold(stack, [a] + [b]) == Push(Push(stack, a), b)
  {
    var once := Push(stack, a);
    assert ([a] + [b])[1..] == [b] && [b][1..] == [];
    assert Fold(once, [b]) == Fold(Push(once, b), []);
  }

  /**
   In the directory d the name "..\\c" stands for the sibling c of d: inside the directory
   above, where the guard lets it through, but outside d.
   */
  lemma BackslashEscapes(above: seq<string>, d: string, c: string)
    requires AllPlain(above) && Plain(d) && Plain(c) && c != d
    ensures EntryName("..\\" + c)
    ensures Segments(Render(above + [d]), "..\\" + c) == above + [c]
    ensures WithinRoot(Render(above + [c]), Render(above)) && !WithinRoot(Render(above + [c]), Render(above + [d]))
  {
    var dir := above + [d];
    TwoParts(dir, "..", c);
    assert "..\\" + c == ".." + "\\" + c;
    assert dir[..|dir| - 1] == above;
    WithinIsPrefix(above, above + [c]);
    WithinIsPrefix(dir, above + [c]);
    assert (above + [c])[|above|] != dir[|above|];
  }

  /** The name "a\\.." stands for the directory that lists it: the guard passes, and the walk starts over. */
  lemma BackslashLoops(dir: seq<string>, a: string)
    requires AllPlain(dir) && Plain(a)
    ensures EntryName(a + "\\" + "..")
    ensures Segments(Render(dir), a + "\\" + "..") == dir
    ensures WithinRoot(Render(dir), Render(dir)) && !GoesBelow(Render(dir), a + "\\" + "..")
  {
    TwoParts(dir, a, "..");
    assert (dir + [a])[..|dir|] == dir;
  }

  /** The name "a\\b" stands for an entry two levels down: it holds a backslash and yet stays inside. */
  lemma BackslashGoesDeeper(dir: seq<string>, a: string, b: string)
    requires AllPlain(dir) && Plain(a) && Plain(b)
    ensures Segments(Render(dir), a + "\\" + b) == dir + [a, b]
    ensures GoesBelow(Render(dir), a + "\\" + b)
  {
    TwoParts(dir, a, b);
    assert dir + [a] + [b] == dir + [a, b];
    assert AllPlain(dir + [a, b]);
    WithinIsPrefix(dir, dir + [a, b]);
    if Render(dir + [a, b]) == Render(dir) {
      RenderInjective(dir + [a, b], dir);
    }
  }
}
