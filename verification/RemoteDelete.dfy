/**
 The recursive delete of the SFTP panel. The walk joins each listed name to its
 directory, checks that the result lies in the session's directory, and recurses;
 it need not end, so it is followed to any depth.
 */
module RemoteDelete {
  import opened Prelude
  import opened RemotePath
  import opened RemoteNames
  import opened RemoteFiles

  /** Refused at the door, stopped by the guard inside the walk, or not finished at the depth followed. */
  datatype Outcome = Removed | Refused | Stopped | Failed | Unfinished

  /** A path as the server stores it: its names may hold backslashes. */
  ghost predicate Stored(path: string) {
    exists segments :: AllEntries(segments) && path == Render(segments)
  }

  /** A tree of files: only directories have something below them, and a link is an entry of its own. */
  ghost predicate Shaped(files: Files) {
    && (forall p :: p in files ==> Stored(p))
    && (forall p :: p in files && !files[p].Directory? ==> !HasEntries(files, p))
  }

  /** Every listed name goes strictly below the directory that lists it. */
  ghost predicate Descending(files: Files) {
    forall d, n :: d in files && Canonical(d) && EntryName(n) && ChildPath(d, n) in files ==> GoesBelow(d, n)
  }

  ghost predicate Shrinks(before: Files, after: Files) {
    forall p :: p in after ==> p in before && after[p] == before[p]
  }

  /** Nothing outside the subtree of path was deleted. */
  ghost predicate OnlyBelow(before: Files, after: Files, path: string) {
    forall p :: p in before && !WithinRoot(p, path) ==> p in after
  }

  ghost predicate Gone(files: Files, path: string) {
    forall p :: p in files ==> !WithinRoot(p, path)
  }

  /** Entries the join cannot name are never deleted. */
  ghost predicate OddStay(before: Files, after: Files) {
    forall p :: p in before && !Canonical(p) ==> p in after
  }

  /** Some entry below path has a name the join cannot give. */
  ghost predicate HasOdd(files: Files, path: string) {
    exists p :: p in files && !Canonical(p) && WithinRoot(p, path)
  }

  ghost function Under(files: Files, path: string): set<string> {
    set p | p in files && WithinRoot(p, path)
  }

  /** What a directory listing may name: itself, its parent, or an entry it holds. */
  predicate Listed(files: Files, path: string, name: string) {
    name == "." || name == ".." || (EntryName(name) && ChildPath(path, name) in files)
  }

  /** The listing names every entry of the directory, and nothing twice. */
  ghost predicate ListsAll(files: Files, path: string, names: seq<string>) {
    Distinct(names) && forall n :: EntryName(n) && ChildPath(path, n) in files ==> n in names
  }

  /** A listing may fail or leave entries out; either counts as a failure of the server. */
  method ReadDir(fs: RemoteFs, path: string) returns (r: Option<seq<string>>)
    modifies fs`failures
    ensures fs.failures >= old(fs.failures) + if r.None? then 1 else 0
    ensures r.Some? ==> forall n :: n in r.value ==> Listed(fs.files, path, n)
    ensures r.Some? && fs.failures == old(fs.failures) ==> ListsAll(fs.files, path, r.value)
  {
    var fails := *;
    var names: seq<string> := *;
    if fails || exists n :: n in names && !Listed(fs.files, path, n) {
      fs.failures := fs.failures + 1;
      return None;
    }
    if !ListsAll(fs.files, path, names) {
      fs.failures := fs.failures + 1;
    }
    return Some(names);
  }

  /** Whatever the links on the way are, the server answers with a canonical path. */
  method RealPath(fs: RemoteFs, path: string) returns (r: Option<string>)
    modifies fs`failures
    ensures fs.failures == old(fs.failures) + if r.None? then 1 else 0
    ensures r.Some? ==> Canonical(r.value)
  {
    var fails := *;
    var segments: seq<string> := *;
    if fails || exists s :: s in segments && !Plain(s) {
      fs.failures := fs.failures + 1;
      return None;
    }
    assert AllPlain(segments);
    RenderIsCanonical(segments);
    return Some(Render(segments));
  }

  lemma RenderIsCanonical(segments: seq<string>)
    requires AllPlain(segments)
    ensures Canonical(Render(segments))
  {
    hide Render;
  }

  lemma CanonicalIsStored(path: string)
    requires Canonical(path)
    ensures Stored(path)
  {
    var segments :| AllPlain(segments) && path == Render(segments);
    hide Render;
    assert AllEntries(segments);
  }

  // ---------------------------------------------------------------- containment

  lemma WithinTransitive(p: string, q: string, r: string)
    requires Stored(p) && Stored(q) && Stored(r)
    requires WithinRoot(p, q) && WithinRoot(q, r)
    ensures WithinRoot(p, r)
  {
    var a :| AllEntries(a) && p == Render(a);
    var b :| AllEntries(b) && q == Render(b);
    var c :| AllEntries(c) && r == Render(c);
    hide Render, WithinRoot;
    WithinIsPrefix(b, a);
    WithinIsPrefix(c, b);
    WithinIsPrefix(c, a);
  }

  lemma WithinAntisymmetric(p: string, q: string)
    requires Stored(p) && Stored(q) && WithinRoot(p, q) && WithinRoot(q, p)
    ensures p == q
  {
    var a :| AllEntries(a) && p == Render(a);
    var b :| AllEntries(b) && q == Render(b);
    hide Render, WithinRoot;
    WithinIsPrefix(b, a);
    WithinIsPrefix(a, b);
  }

  lemma CanonicalHasNoBackslash(path: string)
    requires Canonical(path)
    ensures '\\' !in path
  {
    var a :| AllPlain(a) && path == Render(a);
    JoinHasNoBackslash(a);
  }

  /** A listed name with a backslash is an entry the join cannot name. */
  lemma OddEntry(dir: string, name: string)
    requires '\\' in name
    ensures !Canonical(ChildPath(dir, name))
  {
    var child := ChildPath(dir, name);
    var i :| 0 <= i < |name| && name[i] == '\\';
    assert child[|child| - |name| + i] == '\\' && '\\' in child;
    if Canonical(child) {
      CanonicalHasNoBackslash(child);
    }
  }

  lemma EntryIsInside(dir: string, name: string)
    requires Canonical(dir) && EntryName(name)
    ensures WithinRoot(ChildPath(dir, name), dir) && ChildPath(dir, name) != dir
  {
    if dir != "/" {
      assert ChildPath(dir, name) == dir + "/" + name;
    }
  }

  /** The join of a listed name; without a backslash it is that entry, strictly below. */
  lemma ChildOf(dir: string, name: string)
    requires Canonical(dir) && EntryName(name)
    ensures Canonical(Render(Segments(dir, name)))
    ensures '\\' !in name ==> GoesBelow(dir, name)
  {
    var a :| AllPlain(a) && dir == Render(a);
    JoinIsCanonical(dir, name);
    hide Render, WithinRoot, Segments;
    if '\\' !in name {
      PlainNameGoesBelow(a, name);
    }
  }

  /** A tree whose names hold no backslash is descending. */
  lemma PlainTreesDescend(files: Files)
    requires forall p :: p in files ==> Canonical(p)
    ensures Descending(files)
  {
    hide GoesBelow, Canonical;
    forall d, n | d in files && Canonical(d) && EntryName(n) && ChildPath(d, n) in files ensures GoesBelow(d, n) {
      if '\\' in n {
        OddEntry(d, n);
      }
      ChildOf(d, n);
    }
  }

  /** Descending, said of the names alone: each goes further down than it climbed. */
  lemma DescendingByNames(files: Files)
    ensures Descending(files) <==>
      forall a, n :: AllPlain(a) && Render(a) in files && EntryName(n) && ChildPath(Render(a), n) in files ==>
        Left(a, Leads(n).climbs) < Leads(n).rest
  {
    hide GoesBelow, Render, Leads, Left, ChildPath, EntryName;
    if Descending(files) {
      forall a, n | AllPlain(a) && Render(a) in files && EntryName(n) && ChildPath(Render(a), n) in files
        ensures Left(a, Leads(n).climbs) < Leads(n).rest
      {
        RenderIsCanonical(a);
        ChildGoesBelow(a, n);
      }
    } else {
      var d, n :| d in files && Canonical(d) && EntryName(n) && ChildPath(d, n) in files && !GoesBelow(d, n);
      var a :| AllPlain(a) && d == Render(a);
      ChildGoesBelow(a, n);
    }
  }

  /** Going strictly down, less is left to delete. */
  lemma UnderShrinks(before: Files, now: Files, dir: string, name: string)
    requires Shaped(before) && Shrinks(before, now) && Canonical(dir) && EntryName(name)
    requires dir in before && GoesBelow(dir, name)
    ensures |Under(now, Render(Segments(dir, name)))| < |Under(before, dir)|
  {
    hide WithinRoot, Canonical, Segments, Render, HasEntries, Stored;
    var child := Render(Segments(dir, name));
    ChildOf(dir, name);
    CanonicalIsStored(child);
    CanonicalIsStored(dir);
    forall p | p in Under(now, child) ensures p in Under(before, dir) {
      WithinTransitive(p, child, dir);
    }
    if WithinRoot(dir, child) {
      WithinAntisymmetric(dir, child);
    }
    WithinItself(dir);
    StrictSize(Under(now, child), Under(before, dir), dir);
  }

  lemma WithinItself(p: string)
    ensures WithinRoot(p, p)
  {
  }

  lemma StrictSize<T>(a: set<T>, b: set<T>, x: T)
    requires a <= b && x in b && x !in a
    ensures |a| < |b|
  {
    assert a <= b - {x};
    assert b - {x} == a + ((b - {x}) - a);
  }

  // ---------------------------------------------------------------- what a delete keeps

  lemma ShrinksKeepsShape(before: Files, after: Files)
    requires Shrinks(before, after) && Shaped(before)
    ensures Shaped(after) && (Descending(before) ==> Descending(after))
  {
    hide WithinRoot, Stored, Canonical, GoesBelow, EntryName, ChildPath;
    forall p | p in after && !after[p].Directory? ensures !HasEntries(after, p) {
      assert !HasEntries(before, p);
    }
  }

  lemma ShrinksTransitive(a: Files, b: Files, c: Files)
    requires Shrinks(a, b) && Shrinks(b, c)
    ensures Shrinks(a, c)
    ensures OddStay(a, b) && OddStay(b, c) ==> OddStay(a, c)
  {
  }

  /** Deleting below a place in the tree is deleting below everything above it. */
  lemma BelowWider(a: Files, b: Files, c: Files, dir: string, child: string)
    requires Shaped(a) && Shrinks(a, b) && Canonical(dir) && Canonical(child) && WithinRoot(child, dir)
    requires OnlyBelow(a, b, dir) && OnlyBelow(b, c, child)
    ensures OnlyBelow(a, c, dir)
  {
    CanonicalIsStored(dir);
    CanonicalIsStored(child);
    hide WithinRoot, Stored, Canonical, HasEntries;
    forall p | p in a && !WithinRoot(p, dir) ensures p in c {
      if WithinRoot(p, child) {
        WithinTransitive(p, child, dir);
      }
    }
  }

  /** Taking away one entry nothing lies below. */
  lemma OneGone(before: Files, after: Files, path: string)
    requires path in before && Canonical(path) && !HasEntries(before, path) && after == before - {path}
    ensures Shrinks(before, after) && OddStay(before, after) && OnlyBelow(before, after, path) && Gone(after, path)
  {
  }

  lemma NothingGone(files: Files, path: string)
    ensures Shrinks(files, files) && OddStay(files, files) && OnlyBelow(files, files, path)
  {
  }

  /** The session's directory stays: it was not the entry, or something in it cannot be named. */
  ghost predicate RootKept(before: Files, after: Files, path: string, root: string) {
    (path != root || HasOdd(before, root)) && root in before ==> root in after
  }

  lemma OddBlocks(files: Files, path: string)
    requires HasOdd(files, path) && Canonical(path)
    ensures HasEntries(files, path)
  {
    var p :| p in files && !Canonical(p) && WithinRoot(p, path);
    assert p != path;
  }

  lemma OddRemains(before: Files, after: Files, path: string)
    requires HasOdd(before, path) && OddStay(before, after)
    ensures HasOdd(after, path)
  {
    var p :| p in before && !Canonical(p) && WithinRoot(p, path);
    assert p in after;
  }

  /** Removing one entry nothing lies below keeps the session's directory. */
  lemma OneGoneKeepsRoot(before: Files, after: Files, path: string, root: string)
    requires Canonical(path) && !HasEntries(before, path) && after == before - {path}
    ensures RootKept(before, after, path, root)
  {
    if path == root && HasOdd(before, root) {
      OddBlocks(before, root);
    }
  }

  /** When the join leads back to the session's directory, the name that did it cannot be deleted. */
  lemma ChildKeepsRoot(files: Files, before: Files, dir: string, name: string, root: string)
    requires Canonical(dir) && Canonical(root) && EntryName(name) && WithinRoot(dir, root)
    requires Shaped(before) && ChildPath(dir, name) in before && OddStay(before, files)
    ensures Render(Segments(dir, name)) == root ==> HasOdd(files, root)
  {
    hide WithinRoot, Segments, Render, HasEntries, Canonical, Stored;
    var child := Render(Segments(dir, name));
    if child == root {
      CanonicalIsStored(dir);
      CanonicalIsStored(root);
      if '\\' !in name {
        ChildOf(dir, name);
        WithinAntisymmetric(dir, root);
      }
      assert '\\' in name;
      OddEntry(dir, name);
      EntryIsInside(dir, name);
      WithinTransitive(ChildPath(dir, name), dir, root);
    }
  }

  // ---------------------------------------------------------------- a working server and plain names

  /** Whatever lies below a path lies in or below one of its entries. */
  ghost predicate Treelike(files: Files) {
    forall d, p :: d in files && p in files && p != d && WithinRoot(p, d) ==> HasBranch(files, d, p)
  }

  ghost predicate HasBranch(files: Files, d: string, p: string) {
    exists n :: EntryName(n) && ChildPath(d, n) in files && WithinRoot(p, ChildPath(d, n))
  }

  ghost predicate PlainTree(files: Files) {
    (forall p :: p in files ==> Canonical(p)) && Treelike(files)
  }

  /** A tree of plain names that has the path, followed deep enough. */
  ghost predicate Deletable(files: Files, path: string, depth: nat) {
    && PlainTree(files)
    && path in files && depth > |Under(files, path)|
  }

  /** The subtrees of the entries seen are gone, and nothing else is. */
  ghost predicate Cleared(before: Files, now: Files, dir: string, seen: seq<string>) {
    forall p :: p in now <==> p in before && !BelowSeen(p, dir, seen)
  }

  ghost predicate BelowSeen(p: string, dir: string, seen: seq<string>) {
    exists n :: n in seen && EntryName(n) && WithinRoot(p, ChildPath(dir, n))
  }

  lemma NothingCleared(files: Files, dir: string)
    ensures Cleared(files, files, dir, [])
  {
  }

  lemma DotClears(before: Files, now: Files, dir: string, seen: seq<string>, name: string)
    requires Cleared(before, now, dir, seen) && (name == "." || name == "..")
    ensures Cleared(before, now, dir, seen + [name])
  {
    forall p ensures BelowSeen(p, dir, seen + [name]) <==> BelowSeen(p, dir, seen) {
      assert forall n :: n in seen + [name] <==> n in seen || n == name;
    }
  }

  lemma EntryClears(before: Files, now: Files, after: Files, dir: string, seen: seq<string>, name: string)
    requires Cleared(before, now, dir, seen) && EntryName(name)
    requires Shrinks(now, after) && OnlyBelow(now, after, ChildPath(dir, name)) && Gone(after, ChildPath(dir, name))
    ensures Cleared(before, after, dir, seen + [name])
  {
    hide WithinRoot, EntryName, ChildPath;
    forall p ensures BelowSeen(p, dir, seen + [name]) <==> BelowSeen(p, dir, seen) || WithinRoot(p, ChildPath(dir, name)) {
      assert forall n :: n in seen + [name] <==> n in seen || n == name;
    }
  }

  lemma SlashBehind(base: string, m: string, n: string)
    requires base + m + "/" <= base + n
    ensures '/' in n
  {
    assert (base + n)[|base + m|] == '/';
    assert n[|m|] == '/';
  }

  /** Two entries of one directory have nothing in common. */
  lemma SiblingsApart(dir: string, n: string, m: string)
    requires EntryName(n) && EntryName(m) && WithinRoot(ChildPath(dir, n), ChildPath(dir, m))
    ensures n == m
  {
    var base := if dir == "/" then "/" else dir + "/";
    assert ChildPath(dir, n) == base + n && ChildPath(dir, m) == base + m;
    ConcatCancels(base, n, m);
    assert |base + m| > 1;
    if base + n != base + m {
      SlashBehind(base, m, n);
    }
  }

  lemma ParentIsNotBelow(dir: string, n: string)
    requires EntryName(n)
    ensures !WithinRoot(dir, ChildPath(dir, n))
  {
  }

  /** The directory itself and the entry that comes next are still there. */
  lemma NotCleared(before: Files, now: Files, dir: string, seen: seq<string>, name: string)
    requires Cleared(before, now, dir, seen) && dir in before
    ensures dir in now
    ensures EntryName(name) && name !in seen && ChildPath(dir, name) in before ==> ChildPath(dir, name) in now
  {
    hide EntryName, ChildPath;
    if BelowSeen(dir, dir, seen) {
      var n :| n in seen && EntryName(n) && WithinRoot(dir, ChildPath(dir, n));
      ParentIsNotBelow(dir, n);
    }
    if EntryName(name) && name !in seen && BelowSeen(ChildPath(dir, name), dir, seen) {
      var n :| n in seen && EntryName(n) && WithinRoot(ChildPath(dir, name), ChildPath(dir, n));
      SiblingsApart(dir, name, n);
    }
  }

  lemma ClearedIsTreelike(before: Files, now: Files, dir: string, seen: seq<string>)
    requires (forall p :: p in before ==> Canonical(p)) && Canonical(dir) && Shaped(before)
    requires Treelike(before) && Cleared(before, now, dir, seen)
    requires forall n :: n in seen && EntryName(n) ==> ChildPath(dir, n) in before
    ensures Treelike(now)
  {
    hide WithinRoot, EntryName, ChildPath, Canonical, HasEntries, Stored;
    forall d, p | d in now && p in now && p != d && WithinRoot(p, d) ensures HasBranch(now, d, p) {
      assert HasBranch(before, d, p);
      var n :| EntryName(n) && ChildPath(d, n) in before && WithinRoot(p, ChildPath(d, n));
      if BelowSeen(ChildPath(d, n), dir, seen) {
        var m :| m in seen && EntryName(m) && WithinRoot(ChildPath(d, n), ChildPath(dir, m));
        WithinTransitive(p, ChildPath(d, n), ChildPath(dir, m));
      }
    }
  }

  lemma BranchSeen(files: Files, dir: string, q: string, names: seq<string>)
    requires Treelike(files) && dir in files && ListsAll(files, dir, names)
    requires q in files && q != dir && WithinRoot(q, dir)
    ensures BelowSeen(q, dir, names)
  {
    hide WithinRoot, EntryName, ChildPath;
    assert HasBranch(files, dir, q);
  }

  /** When every entry was seen, nothing lies below the directory any more. */
  lemma AllCleared(before: Files, now: Files, dir: string, names: seq<string>)
    requires Treelike(before) && dir in before && Cleared(before, now, dir, names) && ListsAll(before, dir, names)
    ensures !HasEntries(now, dir)
  {
    hide WithinRoot, EntryName, ChildPath, Treelike, BelowSeen, ListsAll;
    forall q | q in before && q != dir && WithinRoot(q, dir) ensures BelowSeen(q, dir, names) {
      BranchSeen(before, dir, q, names);
    }
  }

  /** In a plain tree the path the walk goes on with is the entry that was listed. */
  lemma PlainChild(files: Files, dir: string, name: string)
    requires (forall p :: p in files ==> Canonical(p)) && Canonical(dir) && EntryName(name) && ChildPath(dir, name) in files
    ensures Render(Segments(dir, name)) == ChildPath(dir, name)
  {
    if '\\' in name {
      OddEntry(dir, name);
    }
    var a :| AllPlain(a) && dir == Render(a);
    JoinOfPlain(a, name);
  }

  /** What the call for the next entry starts from. */
  lemma NextIsDeletable(before: Files, now: Files, dir: string, seen: seq<string>, name: string, depth: nat)
    requires Deletable(before, dir, depth) && Shaped(before) && Shrinks(before, now) && Cleared(before, now, dir, seen)
    requires forall n :: n in seen && EntryName(n) ==> ChildPath(dir, n) in before
    requires EntryName(name) && name !in seen && ChildPath(dir, name) in before
    ensures depth > 0 && Deletable(now, Render(Segments(dir, name)), depth - 1)
    ensures Render(Segments(dir, name)) == ChildPath(dir, name)
  {
    hide WithinRoot, EntryName, ChildPath, Canonical, Treelike, Shaped, Shrinks, Cleared, Segments, Render, Under, Descending;
    PlainChild(before, dir, name);
    NotCleared(before, now, dir, seen, name);
    ClearedIsTreelike(before, now, dir, seen);
    PlainTreesDescend(before);
    ChildIsSmaller(before, now, dir, name, depth);
    ShrinksIsPart(before, now);
  }

  lemma ShrinksIsPart(before: Files, now: Files)
    requires Shrinks(before, now)
    ensures forall p :: p in now ==> p in before
  {
  }

  // ---------------------------------------------------------------- removePath

  /**
   Where the walk of one directory stands: what was deleted so far, by what the
   guard and the names seen allow.
   */
  ghost predicate WalkedTo(before: Files, now: Files, dir: string, root: string, seen: seq<string>) {
    && Shaped(now) && Shrinks(before, now) && OddStay(before, now)
    && OnlyBelow(before, now, root) && RootKept(before, now, dir, root)
    && (Descending(before) || (forall n :: n in seen ==> '\\' !in n) ==> OnlyBelow(before, now, dir))
  }

  /**
   removePath, followed to the given depth of nested calls. Whatever names the server lists:
   everything deleted lies in root, root itself stays, and success means exactly the subtree of
   resolved is gone. On a descending tree it also stays below resolved in every
   other outcome, never meets its guard, and ends within as many calls as there are entries.
   */
  method RemovePath(fs: RemoteFs, resolved: string, root: string, depth: nat) returns (r: Outcome)
    requires fs.Valid() && Shaped(fs.files) && Canonical(resolved) && Canonical(root) && WithinRoot(resolved, root)
    modifies fs
    ensures fs.Valid() && Shaped(fs.files) && Shrinks(old(fs.files), fs.files) && OddStay(old(fs.files), fs.files)
    ensures OnlyBelow(old(fs.files), fs.files, root) && RootKept(old(fs.files), fs.files, resolved, root)
    ensures r.Removed? ==> OnlyBelow(old(fs.files), fs.files, resolved) && Gone(fs.files, resolved)
    ensures Descending(old(fs.files)) ==> OnlyBelow(old(fs.files), fs.files, resolved) && r != Stopped
    ensures Descending(old(fs.files)) && depth > |Under(old(fs.files), resolved)| ==> r != Unfinished
    ensures r != Refused
    ensures fs.failures >= old(fs.failures)
    ensures Deletable(old(fs.files), resolved, depth) && fs.failures == old(fs.failures) ==> r == Removed
    decreases depth
  {
    hide WithinRoot, Canonical, Shaped, Shrinks, OnlyBelow, Gone, Under, HasEntries, EntryName, Segments, Render,
         OddStay, RootKept, Descending, WalkedTo, GoesBelow, HasOdd, Deletable, Cleared, ListsAll, ChildPath;
    ghost var before, failures := fs.files, fs.failures;
    StandsStill(before, resolved, root);
    if Deletable(before, resolved, depth) {
      DeletableParts(before, resolved, depth);
    }
    if depth == 0 {
      return Unfinished;
    }
    var st := fs.Lstat(resolved);
    if !st.Found? {
      return Failed;
    }
    if !st.node.Directory? {
      r := RemoveLeaf(fs, resolved, root);
      return;
    }
    var listed := ReadDir(fs, resolved);
    if listed.None? {
      return Failed;
    }
    assert listed.value[..0] == [];
    NothingCleared(before, resolved);
    for i := 0 to |listed.value|
      invariant fs.Valid() && WalkedTo(before, fs.files, resolved, root, listed.value[..i])
      invariant fs.failures >= failures
      invariant Deletable(before, resolved, depth) && fs.failures == failures ==>
                  ListsAll(before, resolved, listed.value) && Cleared(before, fs.files, resolved, listed.value[..i])
    {
      var name := listed.value[i];
      assert listed.value[..i + 1] == listed.value[..i] + [name];
      assert Listed(before, resolved, name);
      if name == "." || name == ".." {
        DotSeen(before, fs.files, resolved, root, listed.value[..i], name);
        if Cleared(before, fs.files, resolved, listed.value[..i]) {
          DotClears(before, fs.files, resolved, listed.value[..i], name);
        }
        continue;
      }
      WalkedParts(before, fs.files, resolved, root, listed.value[..i]);
      var child := JoinRemote(resolved, name);
      ChildOf(resolved, name);
      if !WithinRoot(child, root) {
        GuardIsQuiet(before, resolved, name, root);
        return Stopped;
      }
      ghost var now := fs.files;
      ChildKeepsRoot(now, before, resolved, name, root);
      ShrinksKeepsShape(before, now);
      ChildIsSmaller(before, now, resolved, name, depth);
      ghost var working := Deletable(before, resolved, depth) && fs.failures == failures;
      if working {
        NextListed(before, now, resolved, listed.value, i, depth);
      }
      r := RemovePath(fs, child, root, depth - 1);
      ChildSeen(before, now, fs.files, resolved, root, listed.value[..i], name, r.Removed?);
      if !r.Removed? {
        return;
      }
      if working {
        EntryClears(before, now, fs.files, resolved, listed.value[..i], name);
      }
    }
    assert listed.value[..|listed.value|] == listed.value;
    if Deletable(before, resolved, depth) && fs.failures == failures {
      LastIsEmpty(before, fs.files, resolved, root, listed.value, depth);
    }
    r := RemoveEmptied(fs, resolved, root, before, listed.value);
  }

  lemma DeletableParts(files: Files, path: string, depth: nat)
    requires Deletable(files, path, depth)
    ensures depth > 0 && path in files && Descending(files)
  {
    hide Canonical, WithinRoot, Under;
    PlainTreesDescend(files);
  }

  lemma NextListed(before: Files, now: Files, dir: string, names: seq<string>, i: nat, depth: nat)
    requires i < |names| && ListsAll(before, dir, names) && forall n :: n in names ==> Listed(before, dir, n)
    requires Deletable(before, dir, depth) && Shaped(before) && Shrinks(before, now)
    requires Cleared(before, now, dir, names[..i]) && names[i] != "." && names[i] != ".."
    ensures depth > 0 && Deletable(now, Render(Segments(dir, names[i])), depth - 1)
    ensures Render(Segments(dir, names[i])) == ChildPath(dir, names[i])
  {
    hide WithinRoot, ChildPath, Canonical, Treelike, Shaped, Shrinks, Cleared, Segments, Render, Under, Deletable;
    assert names[i] in names && Listed(before, dir, names[i]);
    assert names[i] !in names[..i];
    assert forall n :: n in names[..i] ==> n in names;
    NextIsDeletable(before, now, dir, names[..i], names[i], depth);
  }

  lemma LastIsEmpty(before: Files, now: Files, dir: string, root: string, names: seq<string>, depth: nat)
    requires WalkedTo(before, now, dir, root, names) && Deletable(before, dir, depth)
    requires ListsAll(before, dir, names) && Cleared(before, now, dir, names)
    ensures !HasEntries(now, dir) && dir in now && now[dir] == before[dir]
  {
    hide WithinRoot, Canonical, Treelike, Shaped, Cleared, ListsAll, HasEntries, OddStay, OnlyBelow, RootKept, Descending, Under;
    AllCleared(before, now, dir, names);
    NotCleared(before, now, dir, names, "");
  }

  lemma StandsStill(files: Files, dir: string, root: string)
    requires Shaped(files)
    ensures WalkedTo(files, files, dir, root, [])
    ensures Shrinks(files, files) && OddStay(files, files) && OnlyBelow(files, files, root)
    ensures RootKept(files, files, dir, root) && OnlyBelow(files, files, dir)
  {
  }

  lemma WalkedParts(before: Files, now: Files, dir: string, root: string, seen: seq<string>)
    requires WalkedTo(before, now, dir, root, seen)
    ensures Shaped(now) && Shrinks(before, now) && OddStay(before, now)
    ensures OnlyBelow(before, now, root) && RootKept(before, now, dir, root)
    ensures Descending(before) ==> OnlyBelow(before, now, dir)
  {
  }

  lemma DotSeen(before: Files, now: Files, dir: string, root: string, seen: seq<string>, name: string)
    requires WalkedTo(before, now, dir, root, seen)
    ensures WalkedTo(before, now, dir, root, seen + [name])
  {
    hide Shaped, Shrinks, OddStay, OnlyBelow, RootKept, Descending;
    assert forall n :: n in seen ==> n in seen + [name];
  }

  /** On a descending tree the guard never fires. */
  lemma GuardIsQuiet(files: Files, dir: string, name: string, root: string)
    requires dir in files && Canonical(dir) && Canonical(root) && EntryName(name) && ChildPath(dir, name) in files
    requires WithinRoot(dir, root) && !WithinRoot(Render(Segments(dir, name)), root)
    ensures !Descending(files)
  {
    hide WithinRoot, Segments, Render, Canonical;
    var child := Render(Segments(dir, name));
    ChildOf(dir, name);
    CanonicalIsStored(child);
    CanonicalIsStored(dir);
    CanonicalIsStored(root);
    if GoesBelow(dir, name) {
      WithinTransitive(child, dir, root);
    }
  }

  lemma ChildIsSmaller(before: Files, now: Files, dir: string, name: string, depth: nat)
    requires Shaped(before) && Shrinks(before, now) && Canonical(dir) && dir in before
    requires EntryName(name) && ChildPath(dir, name) in before
    ensures Descending(before) && depth > |Under(before, dir)| ==>
      depth - 1 > |Under(now, Render(Segments(dir, name)))|
  {
    hide Shaped, Shrinks, Under, Segments, Render, GoesBelow;
    if Descending(before) {
      UnderShrinks(before, now, dir, name);
    }
  }

  /** A call on the join of one more name keeps what the guard allows; one that succeeded stayed below its entry. */
  lemma ChildSeen(before: Files, now: Files, after: Files, dir: string, root: string, seen: seq<string>, name: string,
                  removed: bool)
    requires WalkedTo(before, now, dir, root, seen)
    requires Shaped(before) && Canonical(dir) && Canonical(root) && WithinRoot(dir, root)
    requires EntryName(name) && dir in before && ChildPath(dir, name) in before
    requires var child := Render(Segments(dir, name));
      && WithinRoot(child, root) && Shaped(after) && Shrinks(now, after) && OddStay(now, after)
      && OnlyBelow(now, after, root) && RootKept(now, after, child, root)
      && (Descending(now) || removed ==> OnlyBelow(now, after, child))
      && (child == root ==> HasOdd(now, root))
    ensures Shaped(after) && Shrinks(before, after) && OddStay(before, after)
    ensures OnlyBelow(before, after, root) && RootKept(before, after, dir, root)
    ensures Descending(before) ==> OnlyBelow(before, after, dir)
    ensures removed ==> WalkedTo(before, after, dir, root, seen + [name])
  {
    hide WithinRoot, Canonical, Shaped, Shrinks, OnlyBelow, EntryName, Segments, Render, OddStay, Descending, GoesBelow, HasOdd;
    var child := Render(Segments(dir, name));
    ChildOf(dir, name);
    ShrinksTransitive(before, now, after);
    ShrinksKeepsShape(before, now);
    WithinItself(root);
    BelowWider(before, now, after, root, root);
    RootKeptTwice(before, now, after, dir, root, child);
    if GoesBelow(dir, name) {
      BelowIsInside(dir, name);
      if OnlyBelow(before, now, dir) && OnlyBelow(now, after, child) {
        BelowWider(before, now, after, dir, child);
      }
    }
    if Descending(before) {
      DescendsAt(before, dir, name);
    }
    assert forall n :: n in seen ==> n in seen + [name];
    assert name in seen + [name];
  }

  lemma BelowIsInside(dir: string, name: string)
    requires GoesBelow(dir, name)
    ensures WithinRoot(Render(Segments(dir, name)), dir)
  {
  }

  lemma DescendsAt(files: Files, dir: string, name: string)
    requires Descending(files) && dir in files && Canonical(dir) && EntryName(name) && ChildPath(dir, name) in files
    ensures GoesBelow(dir, name)
  {
  }

  lemma RootKeptTwice(before: Files, now: Files, after: Files, dir: string, root: string, child: string)
    requires RootKept(before, now, dir, root) && RootKept(now, after, child, root)
    requires child == root ==> HasOdd(now, root)
    ensures RootKept(before, after, dir, root)
  {
    hide HasOdd;
  }

  method RemoveLeaf(fs: RemoteFs, path: string, root: string) returns (r: Outcome)
    requires fs.Valid() && Shaped(fs.files) && path in fs.files && !fs.files[path].Directory?
    requires Canonical(path) && Canonical(root) && WithinRoot(path, root)
    modifies fs
    ensures fs.Valid() && Shaped(fs.files) && (r == Removed || r == Failed)
    ensures Shrinks(old(fs.files), fs.files) && OddStay(old(fs.files), fs.files)
    ensures OnlyBelow(old(fs.files), fs.files, path) && OnlyBelow(old(fs.files), fs.files, root)
    ensures RootKept(old(fs.files), fs.files, path, root)
    ensures r.Removed? ==> Gone(fs.files, path) && fs.files == old(fs.files) - {path}
    ensures !r.Removed? ==> fs.files == old(fs.files)
    ensures fs.failures >= old(fs.failures) + if r.Removed? then 0 else 1
  {
    ghost var before := fs.files;
    assert !HasEntries(before, path);
    hide WithinRoot, HasEntries, Shaped, Shrinks, OnlyBelow, Gone, OddStay, RootKept, Canonical;
    var ok := fs.Remove(path);
    StandsStill(before, path, root);
    if ok {
      OneGone(before, fs.files, path);
      OneGoneKeepsRoot(before, fs.files, path, root);
      BelowWider(before, before, fs.files, root, path);
    }
    ShrinksKeepsShape(before, fs.files);
    return if ok then Removed else Failed;
  }

  /** A directory is empty only if every listed name could be given to the server. */
  lemma EmptiedHadPlainNames(before: Files, now: Files, dir: string, names: seq<string>)
    requires Canonical(dir) && OddStay(before, now) && !HasEntries(now, dir)
    requires forall n :: n in names ==> Listed(before, dir, n)
    ensures forall n :: n in names ==> '\\' !in n
  {
    hide WithinRoot, Canonical;
    forall n | n in names ensures '\\' !in n {
      if '\\' in n {
        OddEntry(dir, n);
        EntryIsInside(dir, n);
      }
    }
  }

  method RemoveEmptied(fs: RemoteFs, path: string, root: string, ghost before: Files, ghost names: seq<string>)
    returns (r: Outcome)
    requires fs.Valid() && Shaped(before) && Canonical(path) && Canonical(root) && WithinRoot(path, root)
    requires WalkedTo(before, fs.files, path, root, names)
    requires forall n :: n in names ==> Listed(before, path, n)
    modifies fs
    ensures fs.Valid() && Shaped(fs.files) && (r == Removed || r == Failed)
    ensures Shrinks(before, fs.files) && OddStay(before, fs.files)
    ensures OnlyBelow(before, fs.files, root) && RootKept(before, fs.files, path, root)
    ensures r.Removed? ==> OnlyBelow(before, fs.files, path) && Gone(fs.files, path)
    ensures Descending(before) ==> OnlyBelow(before, fs.files, path)
    ensures fs.failures >= old(fs.failures)
    ensures fs.failures == old(fs.failures) ==>
              (path in old(fs.files) && old(fs.files)[path].Directory? && !HasEntries(old(fs.files), path) ==> r.Removed?)
  {
    hide HasEntries, Shaped, Shrinks, OnlyBelow, Gone, Canonical, OddStay, RootKept, Descending, HasOdd, WithinRoot, Listed;
    ghost var now := fs.files;
    var ok := fs.RemoveDirectory(path);
    if ok {
      EmptiedHadPlainNames(before, now, path, names);
      OneGone(now, fs.files, path);
      OneGoneKeepsRoot(now, fs.files, path, root);
      ShrinksKeepsShape(now, fs.files);
      ShrinksTransitive(before, now, fs.files);
      BelowWider(before, now, fs.files, root, path);
      WithinItself(path);
      BelowWider(before, now, fs.files, path, path);
      LastKeepsRoot(before, now, fs.files, path, root);
    }
    return if ok then Removed else Failed;
  }

  lemma LastKeepsRoot(before: Files, now: Files, after: Files, path: string, root: string)
    requires RootKept(before, now, path, root) && RootKept(now, after, path, root) && OddStay(before, now)
    ensures RootKept(before, after, path, root)
  {
    if HasOdd(before, root) {
      OddRemains(before, now, root);
    }
  }

  // ---------------------------------------------------------------- Remove

  /**
   Remove: the entry point. Whatever names the tree holds, everything deleted lies in the
   session's directory as the server resolves it, and that directory itself stays; success means exactly
   the subtree of scope is gone. A link is unlinked and nothing else.
   */
  method Remove(fs: RemoteFs, cwd: string, remotePath: string, depth: nat)
    returns (r: Outcome, ghost scope: string, ghost root: string)
    requires fs.Valid() && Shaped(fs.files) && Canonical(cwd)
    modifies fs
    ensures fs.Valid() && Shaped(fs.files) && Shrinks(old(fs.files), fs.files)
    ensures r.Refused? || remotePath in {"", ".", "..", "/"} ==> r != Removed && fs.files == old(fs.files)
    ensures fs.files != old(fs.files) ==>
      && Canonical(scope) && Canonical(root) && scope != root && scope != "/" && WithinRoot(scope, root)
      && OnlyBelow(old(fs.files), fs.files, root) && (root in old(fs.files) ==> root in fs.files)
      && (r.Removed? || Descending(old(fs.files)) ==> OnlyBelow(old(fs.files), fs.files, scope))
    ensures r.Removed? ==> Gone(fs.files, scope)
    ensures Descending(old(fs.files)) ==> r != Stopped
    ensures Descending(old(fs.files)) && depth > |old(fs.files)| ==> r != Unfinished
    ensures var target := Render(Segments(cwd, remotePath));
      remotePath in {"", ".", "..", "/"} || target == cwd || target == "/" || !WithinRoot(target, cwd) ==> r == Refused
    // a working server and a plain tree: what is there is deleted
    ensures PlainTree(old(fs.files)) && depth > |old(fs.files)| && fs.failures == old(fs.failures) ==>
              || r == Removed || r == Refused
              || (r == Failed && (Render(Segments(cwd, remotePath)) !in old(fs.files) || scope !in old(fs.files)))
    ensures var target := Render(Segments(cwd, remotePath));
      target in old(fs.files) && old(fs.files)[target].Link? && fs.failures == old(fs.failures) && r != Refused ==>
        r == Removed && fs.files == old(fs.files) - {target}
    ensures var target := Render(Segments(cwd, remotePath));
      target in old(fs.files) && old(fs.files)[target].Link? ==>
        fs.files == old(fs.files) || (scope == target && root == cwd && fs.files == old(fs.files) - {target})
  {
    hide WithinRoot, Canonical, Shaped, Shrinks, OnlyBelow, Gone, Segments, Render, OddStay, RootKept, Descending,
         HasOdd, Under, Treelike;
    scope, root := "", "";
    NothingGone(fs.files, "");
    if PlainTree(fs.files) {
      PlainTreesDescend(fs.files);
    }
    if remotePath == "" || remotePath == "." || remotePath == ".." || remotePath == "/" {
      return Refused, scope, root;
    }
    var target := JoinRemote(cwd, remotePath);
    JoinIsCanonical(cwd, remotePath);
    if target == cwd || target == "/" {
      return Refused, scope, root;
    }
    if !WithinRoot(target, cwd) {
      return Refused, scope, root;
    }
    var st := fs.Lstat(target);
    if !st.Found? {
      return Failed, scope, root;
    }
    if st.node.Link? {
      r := RemoveLeaf(fs, target, cwd);
      RootIsKept(old(fs.files), fs.files, target, cwd);
      return r, target, cwd;
    }
    var home := RealPath(fs, cwd);
    if home.None? {
      return Failed, scope, root;
    }
    var resolved := RealPath(fs, target);
    if resolved.None? {
      return Failed, scope, root;
    }
    if resolved.value == home.value || resolved.value == "/" {
      return Refused, scope, root;
    }
    if !WithinRoot(resolved.value, home.value) {
      return Refused, scope, root;
    }
    scope, root := resolved.value, home.value;
    UnderIsPart(fs.files, resolved.value);
    r := RemovePath(fs, resolved.value, home.value, depth);
    RootIsKept(old(fs.files), fs.files, scope, root);
  }

  lemma RootIsKept(before: Files, after: Files, path: string, root: string)
    requires RootKept(before, after, path, root) && path != root
    ensures root in before ==> root in after
  {
  }

  lemma UnderIsPart(files: Files, path: string)
    ensures |Under(files, path)| <= |files|
  {
    var rest := files.Keys - Under(files, path);
    assert files.Keys == Under(files, path) + rest;
  }
}
