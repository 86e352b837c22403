/**
 The credential store over a keyring whose every call may fail. Chunks are
 written first, the manifest write is the commit, and superseded generations
 stay named by the manifest until their chunks are gone.
 */
module CredentialStore {
  import opened Prelude
  import opened Keyring
  import opened Credentials
  import Base64

  datatype Error =
    | NothingToSave
    | Unavailable
    | StoredCorrupt
    | PayloadTooLarge
    | TooManyPending
    | ManifestTooLarge
    | EntryTooLarge
    | BackendDown

  datatype Outcome = Done | Failed(error: Error)

  datatype ReadResult =
    | ReadMissing
    | ReadFound(secrets: Secrets, manifest: Option<Manifest>)
    | ReadFailed(error: Error)

  /** The phase in which a Clear stopped. */
  datatype Phase = Pending | Current | Finished

  function Ref(m: Manifest): ChunkRef {
    ChunkRef(m.generation, m.chunks)
  }

  /** None of the chunks the ref names (and the store would delete) is stored. */
  ghost predicate Cleared(e: Entries, host: string, generation: string, chunks: int) {
    forall i: nat :: i < chunks && i < MAX_CHUNKS ==> Chunk(host, generation, i) !in e
  }

  /** The ref is well formed and its chunks are gone: the only refs a drain may forget. */
  ghost predicate Drained(e: Entries, host: string, r: ChunkRef) {
    r.generation != "" && r.chunks > 0 && Cleared(e, host, r.generation, r.chunks)
  }

  /** A stretch of a run during which the host shows one value and the entries stay sound. */
  ghost predicate Calm(c: Codec, base: Entries, points: seq<Entries>, from: nat, to: nat, host: string, v: Lookup,
                       used: set<string>, abandoned: set<string>)
    requires to <= |points|
  {
    forall k :: from <= k < to ==> Safe(c, base, points[k], host, v, used, abandoned)
  }

  // ---------------------------------------------------------------- the commit

  /** Replacing a host's manifest is sound when the new one names every stored chunk of the host. */
  lemma ManifestSwapIsSound(e: Entries, host: string, m: Manifest, used: set<string>, abandoned: set<string>)
    requires GoodManifests(e, used) && abandoned <= used
    requires forall a :: a in e && a.Chunk? && a.host != host ==>
               a.generation in abandoned || Named(e, a.host, a.generation, a.index)
    requires forall a :: a in e && a.Chunk? && a.host == host ==>
               a.generation in abandoned || NamedBy(m, a.generation, a.index)
    requires GoodManifest(m) && m.generation in used && Generations(m.previous) <= used
    ensures Sound(e[Primary(host) := ManifestDoc(m)], used, abandoned)
  {
    var e' := e[Primary(host) := ManifestDoc(m)];
    forall a | a in e' && a.Chunk? ensures a.generation in abandoned || Named(e', a.host, a.generation, a.index) {
      if a.host != host {
        assert CurrentManifest(e', a.host) == CurrentManifest(e, a.host);
      } else {
        assert CurrentManifest(e', host) == Some(m);
      }
    }
  }

  /** What the manifest of a new generation must carry over. */
  ghost predicate CarriesOver(m: Manifest, drained: Entries, host: string, prior: Option<Manifest>) {
    prior.Some? ==>
      && Ref(prior.value) in m.previous
      && forall r :: r in prior.value.previous ==>
           r in m.previous || Cleared(drained, host, r.generation, r.chunks)
  }

  lemma CommitIsSound(drained: Entries, e: Entries, host: string, m: Manifest, used: set<string>, abandoned: set<string>)
    requires Sound(drained, used, abandoned) && m.generation !in used
    requires m.chunks > 0 && Grown(drained, e, host, m.generation, m.chunks)
    requires GoodManifest(m) && Generations(m.previous) <= used
    requires CarriesOver(m, drained, host, CurrentManifest(drained, host))
    ensures Sound(e[Primary(host) := ManifestDoc(m)], used + {m.generation}, abandoned)
  {
    forall a | a in e && a.Chunk? && a.host != host
      ensures a.generation in abandoned || Named(e, a.host, a.generation, a.index)
    {
      assert a in drained;
      assert CurrentManifest(e, a.host) == CurrentManifest(drained, a.host);
    }
    forall a | a in e && a.Chunk? && a.host == host
      ensures a.generation in abandoned || NamedBy(m, a.generation, a.index)
    {
      if a in drained && a.generation !in abandoned {
        var prior := CurrentManifest(drained, host).value;
        assert GoodManifest(prior);
        if a.generation == prior.generation && a.index < prior.chunks {
          assert Ref(prior) in m.previous;
        } else {
          var r :| r in prior.previous && r.generation == a.generation && a.index < r.chunks;
          assert a == Chunk(host, r.generation, a.index);
        }
      }
    }
    ManifestSwapIsSound(e, host, m, used + {m.generation}, abandoned);
  }

  lemma RewriteIsSound(committed: Entries, e: Entries, host: string, m: Manifest, pending: seq<ChunkRef>,
                       used: set<string>, abandoned: set<string>)
    requires Sound(committed, used, abandoned)
    requires CurrentManifest(committed, host) == Some(m)
    requires Shrunk(committed, e, host, Generations(m.previous))
    requires DistinctRefs(pending) && |pending| <= |m.previous|
    requires forall r :: r in pending ==> r in m.previous
    requires forall r :: r in m.previous && r !in pending ==> Cleared(e, host, r.generation, r.chunks)
    ensures Sound(e[Primary(host) := ManifestDoc(m.(previous := pending))], used, abandoned)
  {
    var m' := m.(previous := pending);
    forall a | a in e && a.Chunk? && a.host != host
      ensures a.generation in abandoned || Named(e, a.host, a.generation, a.index)
    {
      assert CurrentManifest(e, a.host) == CurrentManifest(committed, a.host);
    }
    forall a | a in e && a.Chunk? && a.host == host
      ensures a.generation in abandoned || NamedBy(m', a.generation, a.index)
    {
      if a.generation !in abandoned && a.generation != m.generation {
        var r :| r in m.previous && r.generation == a.generation && a.index < r.chunks;
        assert a == Chunk(host, r.generation, a.index);
      } else if a.generation == m.generation {
        assert a in committed;
      }
    }
    assert Generations(pending) <= Generations(m.previous);
    ManifestSwapIsSound(e, host, m', used, abandoned);
  }

  /** The view never depends on the cleanup refs. */
  lemma RewriteKeepsView(c: Codec, e: Entries, host: string, m: Manifest, pending: seq<ChunkRef>)
    requires CurrentManifest(e, host) == Some(m)
    requires |m.previous| <= MAX_PREVIOUS && |pending| <= |m.previous|
    ensures View(c, e[Primary(host) := ManifestDoc(m.(previous := pending))], host) == View(c, e, host)
  {
    var e' := e[Primary(host) := ManifestDoc(m.(previous := pending))];
    if Readable(m) {
      AssembleFrame(c, e, e', host, m.generation, 0, m.chunks, []);
    }
  }

  lemma NothingGrown(base: Entries, e: Entries, host: string, generation: string, n: nat)
    requires Grown(base, e, host, generation, n)
    requires forall i: nat :: i < n ==> Chunk(host, generation, i) !in e
    ensures e == base
  {
    assert forall a :: a in e && a !in base ==> a == Chunk(host, generation, a.index);
    assert e.Keys == base.Keys;
  }

  lemma GenerationsAppend(refs: seq<ChunkRef>, r: ChunkRef)
    ensures Generations(refs + [r]) == Generations(refs) + {r.generation}
  {
    assert forall x :: x in refs + [r] <==> x in refs || x == r;
    assert r in refs + [r];
  }

  lemma DistinctAppend(refs: seq<ChunkRef>, r: ChunkRef)
    requires DistinctRefs(refs) && r.generation !in Generations(refs)
    ensures DistinctRefs(refs + [r])
  {
    forall i | 0 <= i < |refs| ensures refs[i].generation != r.generation {
      assert refs[i] in refs && refs[i].generation in Generations(refs);
    }
  }

  lemma DistinctIsNew(refs: seq<ChunkRef>, k: nat)
    requires DistinctRefs(refs) && k < |refs|
    ensures refs[k].generation !in Generations(refs[..k])
  {
  }

  // ---------------------------------------------------------------- stretches of a run

  lemma ShrinkingPointsAreCalm(c: Codec, start: Entries, base: Entries, points: seq<Entries>, from: nat, to: nat,
                               host: string, generations: set<string>, used: set<string>, abandoned: set<string>,
                               used': set<string>, abandoned': set<string>)
    requires to <= |points|
    requires OthersUntouched(start, base, host) && Sound(base, used, abandoned)
    requires used <= used' && abandoned <= abandoned' <= used'
    requires forall k :: from <= k < to ==> Shrunk(base, points[k], host, generations)
    requires CurrentManifest(base, host).Some? ==> CurrentManifest(base, host).value.generation !in generations
    ensures Calm(c, start, points, from, to, host, View(c, base, host), used', abandoned')
  {
    forall k | from <= k < to ensures Safe(c, start, points[k], host, View(c, base, host), used', abandoned') {
      ShrinkingIsSafe(c, base, points[k], host, generations, used, abandoned);
      SoundWidens(points[k], used, abandoned, used', abandoned');
    }
  }

  lemma GrowingPointsAreCalm(c: Codec, start: Entries, base: Entries, points: seq<Entries>, from: nat, to: nat,
                             host: string, generation: string, n: nat, used: set<string>, abandoned: set<string>)
    requires to <= |points|
    requires OthersUntouched(start, base, host) && Sound(base, used, abandoned) && generation !in used
    requires forall k :: from <= k < to ==> Grown(base, points[k], host, generation, n)
    ensures Calm(c, start, points, from, to, host, View(c, base, host), used + {generation}, abandoned + {generation})
  {
    forall k | from <= k < to
      ensures Safe(c, start, points[k], host, View(c, base, host), used + {generation}, abandoned + {generation})
    {
      GrowingIsSafe(c, base, points[k], host, generation, n, used, abandoned);
    }
  }

  lemma CalmJoins(c: Codec, base: Entries, points: seq<Entries>, from: nat, mid: nat, to: nat, host: string, v: Lookup,
                  used: set<string>, abandoned: set<string>)
    requires from <= mid <= to <= |points|
    requires Calm(c, base, points, from, mid, host, v, used, abandoned)
    requires Calm(c, base, points, mid, to, host, v, used, abandoned)
    ensures Calm(c, base, points, from, to, host, v, used, abandoned)
  {
  }

  lemma CalmWidens(c: Codec, base: Entries, points: seq<Entries>, from: nat, to: nat, host: string, v: Lookup,
                   used: set<string>, abandoned: set<string>, used': set<string>, abandoned': set<string>)
    requires to <= |points|
    requires Calm(c, base, points, from, to, host, v, used, abandoned)
    requires used <= used' && abandoned <= abandoned' <= used'
    ensures Calm(c, base, points, from, to, host, v, used', abandoned')
  {
  }

  lemma CalmRebase(c: Codec, start: Entries, base: Entries, points: seq<Entries>, from: nat, to: nat, host: string,
                   v: Lookup, used: set<string>, abandoned: set<string>)
    requires to <= |points|
    requires OthersUntouched(start, base, host)
    requires Calm(c, base, points, from, to, host, v, used, abandoned)
    ensures Calm(c, start, points, from, to, host, v, used, abandoned)
  {
  }

  /** The committed entries, and the calm stretch after them, as one stretch seen from the start of the call. */
  lemma CalmFrom(c: Codec, base: Entries, committed: Entries, points: seq<Entries>, commit: nat, host: string, v: Lookup,
                 used: set<string>, abandoned: set<string>, orphans: set<string>)
    requires commit < |points| && points[commit] == committed
    requires Safe(c, base, committed, host, v, used, abandoned) && abandoned <= orphans <= used
    requires Calm(c, committed, points, commit + 1, |points|, host, v, used, orphans)
    ensures Calm(c, base, points, commit, |points|, host, v, used, orphans)
  {
    SoundWidens(committed, used, abandoned, used, orphans);
  }

  /** The chunks of a whole payload were added, and then the manifest was written over the primary entry. */
  ghost predicate Committed(base: Entries, e: Entries, host: string, m: Manifest, data: Bytes)
    requires m.chunks == ChunkCount(data)
  {
    exists grown ::
      && Grown(base, grown, host, m.generation, m.chunks)
      && Stored(grown, host, m.generation, data, m.chunks)
      && e == grown[Primary(host) := ManifestDoc(m)]
  }

  lemma FreshManifestIsGood(m: Manifest, data: Bytes, used: set<string>)
    requires m.generation !in used && m.generation != ""
    requires 0 < |data| <= MAX_ASSEMBLED && m.chunks == ChunkCount(data) && |m.previous| <= MAX_PREVIOUS
    requires DistinctRefs(m.previous) && Generations(m.previous) <= used
    requires forall r :: r in m.previous ==> GoodRef(r)
    ensures GoodManifest(m)
  {
    ChunksFitTheKeyring(data, 0);
    forall r | r in m.previous ensures r.generation != m.generation {
      assert r.generation in Generations(m.previous);
    }
  }

  lemma CommitReadsBack(c: Codec, drained: Entries, e: Entries, host: string, m: Manifest, s: Secrets,
                        used: set<string>, abandoned: set<string>, prior: Option<Manifest>)
    requires Lawful(c) && |c.encode(s)| <= MAX_ASSEMBLED
    requires Sound(drained, used, abandoned) && m.generation !in used && m.generation != ""
    requires m.chunks == ChunkCount(c.encode(s)) && |m.previous| <= MAX_PREVIOUS
    requires DistinctRefs(m.previous) && Generations(m.previous) <= used
    requires forall r :: r in m.previous ==> GoodRef(r)
    requires prior == CurrentManifest(drained, host) && CarriesOver(m, drained, host, prior)
    requires Committed(drained, e, host, m, c.encode(s))
    ensures Safe(c, drained, e, host, Found(s), used + {m.generation}, abandoned)
    ensures CurrentManifest(e, host) == Some(m)
  {
    hide View, PieceDoc, Generations, GoodManifests, NoOrphans, DistinctRefs;
    var e0 :| && Grown(drained, e0, host, m.generation, m.chunks)
              && Stored(e0, host, m.generation, c.encode(s), m.chunks)
              && e == e0[Primary(host) := ManifestDoc(m)];
    FreshManifestIsGood(m, c.encode(s), used);
    CommitIsSound(drained, e0, host, m, used, abandoned);
    StoredPayloadReadsBack(c, e, host, m, s);
  }

  /** A first small save: the inline entry is visible at once, and no chunk loses its name. */
  lemma InlineSetIsSafe(c: Codec, e: Entries, host: string, s: Secrets, used: set<string>, abandoned: set<string>,
                        used': set<string>, abandoned': set<string>)
    requires Lawful(c) && Sound(e, used, abandoned) && CurrentManifest(e, host).None?
    requires used <= used' && abandoned <= abandoned' <= used'
    ensures Safe(c, e, e, host, View(c, e, host), used', abandoned')
    ensures Safe(c, e, e[Primary(host) := Inline(c.encode(s))], host, Found(s), used, abandoned)
    ensures Safe(c, e, e[Primary(host) := Inline(c.encode(s))], host, Found(s), used', abandoned')
  {
    var e' := e[Primary(host) := Inline(c.encode(s))];
    assert c.decode(c.encode(s)) == Some(s);
    forall a | a in e' && a.Chunk? ensures a.generation in abandoned || Named(e', a.host, a.generation, a.index) {
      assert a in e;
      assert CurrentManifest(e', a.host) == CurrentManifest(e, a.host);
    }
    SoundWidens(e, used, abandoned, used', abandoned');
    SoundWidens(e', used, abandoned, used', abandoned');
  }

  /** Once no named chunk is stored, the primary entry may go. */
  lemma PrimaryDeletionIsSound(e: Entries, host: string, used: set<string>, abandoned: set<string>)
    requires Sound(e, used, abandoned)
    requires forall g: string, i: nat :: Named(e, host, g, i) ==> Chunk(host, g, i) !in e
    ensures Sound(e - {Primary(host)}, used, abandoned)
  {
    var e' := e - {Primary(host)};
    forall a | a in e' && a.Chunk? ensures a.generation in abandoned || Named(e', a.host, a.generation, a.index) {
      assert a == Chunk(a.host, a.generation, a.index);
      if a.host != host {
        assert CurrentManifest(e', a.host) == CurrentManifest(e, a.host);
      }
    }
  }

  lemma NamedChunksGone(drained: Entries, e: Entries, host: string, m: Manifest)
    requires GoodManifest(m)
    requires Shrunk(drained, e, host, {m.generation})
    requires forall r :: r in m.previous ==> Cleared(drained, host, r.generation, r.chunks)
    requires Cleared(e, host, m.generation, m.chunks)
    ensures forall g: string, i: nat :: NamedBy(m, g, i) ==> Chunk(host, g, i) !in e
  {
  }

  /** The manifest of the same generation, with fewer superseded ones or as many. */
  ghost predicate Continues(now: Option<Manifest>, m: Manifest) {
    now.Some? && now.value == m.(previous := now.value.previous)
  }

  lemma ShorterText(m: Manifest)
    ensures |ManifestText(m.(previous := []))| <= |ManifestText(m)|
  {
  }

  /** Field by field: what the patch gives, and otherwise what was there. */
  ghost predicate Applied(before: Lookup, patch: SavePatch, now: Lookup) {
    && before != Corrupt && now.Found?
    && (patch.password.Some? ==> now.secrets.password == patch.password.value)
    && (patch.password.None? ==> now.secrets.password == if before.Found? then before.secrets.password else "")
    && (patch.privateKey.Some? ==> now.secrets.privateKey == patch.privateKey.value)
    && (patch.privateKey.None? ==> now.secrets.privateKey == if before.Found? then before.secrets.privateKey else "")
  }

  /** A small value of a host without a manifest is stored inline, any other under the new generation. */
  ghost predicate StoredAs(c: Codec, before: Entries, e: Entries, host: string, generation: string) {
    && View(c, e, host).Found?
    && var data := c.encode(View(c, e, host).secrets);
       if |data| <= 2000 && CurrentManifest(before, host).None? then e == before[Primary(host) := Inline(data)]
       else (CurrentManifest(e, host).Some? && CurrentManifest(e, host).value.generation == generation)
  }

  /** Of this host only chunks of this generation are left, and chunks no cleanup could delete. */
  ghost predicate Tidy(e: Entries, host: string, generation: string, abandoned: set<string>) {
    forall a :: a in e && a.Chunk? && a.host == host ==> a.generation == generation || a.generation in abandoned
  }

  lemma DrainedIsTidy(e: Entries, host: string, generation: string, used: set<string>, abandoned: set<string>)
    requires Sound(e, used, abandoned)
    requires CurrentManifest(e, host).Some? ==>
               CurrentManifest(e, host).value.generation == generation && CurrentManifest(e, host).value.previous == []
    ensures Tidy(e, host, generation, abandoned)
  {
  }

  ghost predicate Uuids(generations: set<string>) {
    forall g :: g in generations ==> |g| == 36
  }

  lemma UuidManifestFits(m: Manifest, used: set<string>, data: Bytes)
    requires 0 < |data| <= MAX_ASSEMBLED && m.chunks == ChunkCount(data)
    requires Generations(m.previous) <= used && |m.previous| <= MAX_PREVIOUS
    requires forall r :: r in m.previous ==> GoodRef(r)
    ensures Uuids(used + {m.generation}) ==> |ManifestText(m)| <= MANIFEST_MAX
  {
    if Uuids(used + {m.generation}) {
      assert m.generation in used + {m.generation};
      forall r | r in m.previous ensures |r.generation| == 36 {
        assert r.generation in Generations(m.previous) && r.generation in used + {m.generation};
      }
      ChunksFitTheKeyring(data, 0);
      ManifestFitsTheKeyring(m);
    }
  }

  // ---------------------------------------------------------------- the store

  class Store {
    const keyring: Keyring
    const codec: Codec
    /** Every generation id ever drawn; the generator never repeats one. */
    ghost var used: set<string>
    /** Generations that were never committed and whose three cleanup passes all failed. */
    ghost var abandoned: set<string>

    ghost predicate Valid()
      reads this, keyring
    {
      Lawful(codec) && Sound(keyring.entries, used, abandoned)
    }

    /** A store over a keyring left by earlier runs, including runs that crashed. */
    constructor (keyring: Keyring, codec: Codec, ghost used: set<string>, ghost abandoned: set<string>)
      requires Lawful(codec) && Sound(keyring.entries, used, abandoned)
      ensures Valid() && this.keyring == keyring && this.codec == codec
      ensures this.used == used && this.abandoned == abandoned
    {
      this.keyring, this.codec := keyring, codec;
      this.used, this.abandoned := used, abandoned;
    }

    // -------------------------------------------------------------- reading

    method DecodeChunks(host: string, m: Manifest) returns (r: ReadResult)
      modifies keyring`failures
      ensures keyring.failures >= old(keyring.failures)
      ensures r == ReadFailed(BackendDown) ==> keyring.failures > old(keyring.failures)
      ensures r != ReadFailed(BackendDown) ==>
                match Credentials.DecodeChunks(codec, keyring.entries, host, m)
                case Found(s) => r == ReadFound(s, Some(m))
                case _ => r == ReadFailed(StoredCorrupt)
    {
      if m.generation == "" || m.chunks <= 0 || m.chunks > MAX_CHUNKS || |m.previous| > MAX_PREVIOUS {
        return ReadFailed(StoredCorrupt);
      }
      var assembled: Bytes := [];
      var i: nat := 0;
      while i < m.chunks
        invariant i <= m.chunks
        invariant keyring.failures == old(keyring.failures)
        invariant Assemble(codec, keyring.entries, host, m.generation, 0, m.chunks, [])
               == Assemble(codec, keyring.entries, host, m.generation, i, m.chunks, assembled)
      {
        var got := keyring.Get(Chunk(host, m.generation, i));
        if got.GetNotFound? {
          return ReadFailed(StoredCorrupt);
        }
        if got.GetFailed? {
          return ReadFailed(BackendDown);
        }
        var chunk := AsChunk(codec, got.document);
        if chunk.None? || chunk.value.0 != i {
          return ReadFailed(StoredCorrupt);
        }
        var part := Base64.Decode(chunk.value.1);
        if part.None? || |part.value| > CHUNK_MAX || |assembled| + |part.value| > MAX_ASSEMBLED {
          return ReadFailed(StoredCorrupt);
        }
        AssembleStep(codec, keyring.entries, host, m.generation, i, m.chunks, assembled, part.value,
                     assembled + part.value);
        assembled := assembled + part.value;
        i := i + 1;
      }
      match codec.decode(assembled) {
        case None => return ReadFailed(StoredCorrupt);
        case Some(s) => return ReadFound(s, Some(m));
      }
    }

    method ReadLocked(host: string) returns (r: ReadResult)
      modifies keyring`failures
      ensures r.ReadMissing? ==> CurrentManifest(keyring.entries, host).None?
      ensures keyring.failures >= old(keyring.failures)
      ensures r == ReadFailed(BackendDown) ==> keyring.failures > old(keyring.failures)
      ensures r != ReadFailed(BackendDown) ==>
                match View(codec, keyring.entries, host)
                case Missing => r == ReadMissing
                case Corrupt => r == ReadFailed(StoredCorrupt)
                case Found(s) => r == ReadFound(s, CurrentManifest(keyring.entries, host))
    {
      var got := keyring.Get(Primary(host));
      if got.GetNotFound? {
        return ReadMissing;
      }
      if got.GetFailed? {
        return ReadFailed(BackendDown);
      }
      match got.document {
        case ManifestDoc(m) =>
          r := DecodeChunks(host, m);
        case Inline(payload) =>
          match codec.decode(payload) {
            case None => return ReadFailed(StoredCorrupt);
            case Some(s) => return ReadFound(s, None);
          }
        case ChunkDoc(_, _) =>
          return ReadFailed(StoredCorrupt);
      }
    }

    // -------------------------------------------------------------- cleaning up

    /** Best-effort deletion of superseded generations; what could not be deleted stays pending. */
    method DrainPrevious(host: string, refs: seq<ChunkRef>) returns (pending: seq<ChunkRef>)
      modifies keyring
      ensures old(keyring.history) <= keyring.history
      ensures Shrunk(old(keyring.entries), keyring.entries, host, Generations(refs))
      ensures forall k :: |old(keyring.history)| <= k < |keyring.history| ==>
                Shrunk(old(keyring.entries), keyring.history[k], host, Generations(refs))
      ensures |pending| <= |refs|
      ensures forall r :: r in pending ==> r in refs
      ensures DistinctRefs(refs) ==> DistinctRefs(pending)
      ensures forall r :: r in refs && r !in pending ==> Drained(keyring.entries, host, r)
      ensures keyring.failures >= old(keyring.failures)
      ensures keyring.failures == old(keyring.failures) && (forall r :: r in refs ==> GoodRef(r)) ==> pending == []
    {
      pending := [];
      for k := 0 to |refs|
        invariant old(keyring.history) <= keyring.history
        invariant Shrunk(old(keyring.entries), keyring.entries, host, Generations(refs))
        invariant forall j :: |old(keyring.history)| <= j < |keyring.history| ==>
                    Shrunk(old(keyring.entries), keyring.history[j], host, Generations(refs))
        invariant |pending| <= k
        invariant forall r :: r in pending ==> r in refs[..k]
        invariant DistinctRefs(refs) ==> DistinctRefs(pending)
        invariant forall r :: r in refs[..k] && r !in pending ==> Drained(keyring.entries, host, r)
        invariant keyring.failures >= old(keyring.failures)
        invariant keyring.failures == old(keyring.failures) && (forall r :: r in refs ==> GoodRef(r)) ==> pending == []
      {
        var ref := refs[k];
        assert refs[..k + 1] == refs[..k] + [ref];
        assert ref in refs && ref.generation in Generations(refs);
        assert DistinctRefs(refs) ==> forall r :: r in refs[..k] ==> r.generation != ref.generation;
        if ref.generation == "" || ref.chunks <= 0 {
          pending := pending + [ref];
        } else {
          var complete := DeleteChunks(host, ref);
          if !complete {
            pending := pending + [ref];
          }
        }
      }
    }

    /** The inner loop of the drain: one generation's chunks, stopping at the first failure. */
    method DeleteChunks(host: string, ref: ChunkRef) returns (complete: bool)
      modifies keyring
      ensures old(keyring.history) <= keyring.history
      ensures Shrunk(old(keyring.entries), keyring.entries, host, {ref.generation})
      ensures forall k :: |old(keyring.history)| <= k < |keyring.history| ==>
                Shrunk(old(keyring.entries), keyring.history[k], host, {ref.generation})
      ensures complete ==> Cleared(keyring.entries, host, ref.generation, ref.chunks)
      ensures keyring.failures == old(keyring.failures) + if complete then 0 else 1
    {
      var i: nat := 0;
      while i < ref.chunks && i < MAX_CHUNKS
        invariant old(keyring.history) <= keyring.history
        invariant Shrunk(old(keyring.entries), keyring.entries, host, {ref.generation})
        invariant forall k :: |old(keyring.history)| <= k < |keyring.history| ==>
                    Shrunk(old(keyring.entries), keyring.history[k], host, {ref.generation})
        invariant forall j: nat :: j < i ==> Chunk(host, ref.generation, j) !in keyring.entries
        invariant keyring.failures == old(keyring.failures)
      {
        var deleted := keyring.Delete(Chunk(host, ref.generation, i));
        if deleted.DeleteFailed? {
          return false;
        }
        i := i + 1;
      }
      return true;
    }

    /** Up to three passes over the chunks of a generation that was not committed. */
    method CleanupNewChunks(host: string, generation: string, written: nat, ghost base: Entries)
      returns (ghost clean: bool)
      requires Grown(base, keyring.entries, host, generation, written)
      requires forall i: nat :: Chunk(host, generation, i) !in base
      modifies keyring
      ensures old(keyring.history) <= keyring.history
      ensures Grown(base, keyring.entries, host, generation, written)
      ensures forall k :: |old(keyring.history)| <= k < |keyring.history| ==>
                Grown(base, keyring.history[k], host, generation, written)
      ensures clean ==> keyring.entries == base
      ensures !clean ==> keyring.failures >= old(keyring.failures) + 3
      ensures keyring.failures >= old(keyring.failures)
    {
      for attempt := 0 to 3
        invariant old(keyring.history) <= keyring.history
        invariant Grown(base, keyring.entries, host, generation, written)
        invariant forall k :: |old(keyring.history)| <= k < |keyring.history| ==>
                    Grown(base, keyring.history[k], host, generation, written)
        invariant keyring.failures >= old(keyring.failures) + attempt
      {
        var remaining := false;
        for i := 0 to written
          invariant old(keyring.history) <= keyring.history
          invariant Grown(base, keyring.entries, host, generation, written)
          invariant forall k :: |old(keyring.history)| <= k < |keyring.history| ==>
                      Grown(base, keyring.history[k], host, generation, written)
          invariant keyring.failures >= old(keyring.failures) + attempt + if remaining then 1 else 0
          invariant !remaining ==> forall j: nat :: j < i ==> Chunk(host, generation, j) !in keyring.entries
        {
          var deleted := keyring.Delete(Chunk(host, generation, i));
          if deleted.DeleteFailed? {
            remaining := true;
          }
        }
        if !remaining {
          NothingGrown(base, keyring.entries, host, generation, written);
          return true;
        }
      }
      return false;
    }

    /** The refs a new manifest carries over: the undrained backlog and the superseded generation. */
    method BuildPrevious(pending: seq<ChunkRef>, prior: Option<Manifest>) returns (refs: seq<ChunkRef>)
      ensures DistinctRefs(refs)
      ensures forall r :: r in refs ==> r.generation != "" && (r in pending || (prior.Some? && r == Ref(prior.value)))
      ensures Generations(refs) ==
                Generations(pending) + (if prior.Some? then {prior.value.generation} else {}) - {""}
      ensures |refs| <= |pending| + 1
      ensures DistinctRefs(pending) ==> forall r :: r in pending && r.generation != "" ==> r in refs
      ensures prior.Some? && prior.value.generation != "" && prior.value.generation !in Generations(pending) ==>
                Ref(prior.value) in refs
    {
      hide Generations, DistinctRefs;
      refs := [];
      NoRefs();
      var seen: set<string> := {};
      assert pending[..0] == [];
      for k := 0 to |pending|
        invariant DistinctRefs(refs)
        invariant seen == Generations(refs) == Generations(pending[..k]) - {""}
        invariant forall r :: r in refs ==> r.generation != "" && r in pending[..k]
        invariant |refs| <= k
        invariant DistinctRefs(pending) ==> forall r :: r in pending[..k] && r.generation != "" ==> r in refs
      {
        var r := pending[k];
        assert pending[..k + 1] == pending[..k] + [r];
        GenerationsAppend(pending[..k], r);
        GenerationsAppend(refs, r);
        if DistinctRefs(pending) {
          DistinctIsNew(pending, k);
        }
        if r.generation != "" && r.generation !in seen {
          DistinctAppend(refs, r);
          seen := seen + {r.generation};
          refs := refs + [r];
        }
      }
      assert pending[..|pending|] == pending;
      if prior.Some? {
        GenerationsAppend(refs, Ref(prior.value));
      }
      if prior.Some? && prior.value.generation != "" && prior.value.generation !in seen {
        DistinctAppend(refs, Ref(prior.value));
        refs := refs + [Ref(prior.value)];
      }
    }

    lemma NoRefs()
      ensures Generations([]) == {} && DistinctRefs([])
    {
    }

    /** Best-effort replacement of a committed manifest by one that names fewer superseded generations. */
    method RewritePrevious(host: string, m: Manifest, pending: seq<ChunkRef>)
      modifies keyring
      ensures keyring.entries == old(keyring.entries)
           || keyring.entries == old(keyring.entries)[Primary(host) := ManifestDoc(m.(previous := pending))]
      ensures keyring.history == old(keyring.history) || keyring.history == old(keyring.history) + [keyring.entries]
      ensures keyring.history == old(keyring.history) ==> keyring.entries == old(keyring.entries)
      ensures keyring.failures >= old(keyring.failures)
      ensures keyring.failures == old(keyring.failures) && |ManifestText(m.(previous := pending))| <= MANIFEST_MAX ==>
                keyring.entries == old(keyring.entries)[Primary(host) := ManifestDoc(m.(previous := pending))]
    {
      var doc := ManifestDoc(m.(previous := pending));
      if |ManifestText(doc.manifest)| > MANIFEST_MAX {
        return;
      }
      var _ := keyring.Set(Primary(host), doc);
    }

    // -------------------------------------------------------------- saving

    /** The chunk writes of a save; `failure` is the first one that failed. */
    method WriteChunks(host: string, generation: string, data: Bytes) returns (written: nat, failure: Option<Error>)
      requires |data| <= MAX_ASSEMBLED
      requires forall i: nat :: Chunk(host, generation, i) !in keyring.entries
      modifies keyring
      ensures old(keyring.history) <= keyring.history
      ensures written <= ChunkCount(data)
      ensures Grown(old(keyring.entries), keyring.entries, host, generation, written)
      ensures forall k :: |old(keyring.history)| <= k < |keyring.history| ==>
                Grown(old(keyring.entries), keyring.history[k], host, generation, written)
      ensures failure.None? ==>
                && written == ChunkCount(data)
                && Stored(keyring.entries, host, generation, data, written)
                && keyring.failures == old(keyring.failures)
      ensures failure.Some? ==> failure == Some(BackendDown) && keyring.failures == old(keyring.failures) + 1
    {
      hide Base64.Encode;
      written := 0;
      while written < ChunkCount(data)
        invariant old(keyring.history) <= keyring.history
        invariant written <= ChunkCount(data)
        invariant Grown(old(keyring.entries), keyring.entries, host, generation, written)
        invariant forall k :: |old(keyring.history)| <= k < |keyring.history| ==>
                    Grown(old(keyring.entries), keyring.history[k], host, generation, written)
        invariant Stored(keyring.entries, host, generation, data, written)
        invariant keyring.failures == old(keyring.failures)
      {
        ChunksFitTheKeyring(data, written);
        var set_ := keyring.Set(Chunk(host, generation, written), PieceDoc(data, written));
        if !set_.SetDone? {
          return written, Some(if set_.SetTooLarge? then EntryTooLarge else BackendDown);
        }
        written := written + 1;
      }
      failure := None;
    }

    /** Before the commit only the backlog may be drained: the current generation is still live. */
    method DrainBacklog(host: string, prior: Option<Manifest>) returns (previous: seq<ChunkRef>)
      requires Valid() && prior == CurrentManifest(keyring.entries, host)
      modifies keyring
      ensures Valid() && CurrentManifest(keyring.entries, host) == prior
      ensures old(keyring.history) <= keyring.history
      ensures Safe(codec, old(keyring.entries), keyring.entries, host, View(codec, old(keyring.entries), host),
                   used, abandoned)
      ensures Calm(codec, old(keyring.entries), keyring.history, |old(keyring.history)|, |keyring.history|, host,
                   View(codec, old(keyring.entries), host), used, abandoned)
      ensures DistinctRefs(previous) && Generations(previous) <= used
      ensures forall r :: r in previous ==> GoodRef(r)
      ensures prior.Some? ==>
                && Ref(prior.value) in previous
                && forall r :: r in prior.value.previous ==>
                     r in previous || Cleared(keyring.entries, host, r.generation, r.chunks)
      ensures keyring.failures >= old(keyring.failures)
      ensures keyring.failures == old(keyring.failures) ==> |previous| <= 1
    {
      ghost var before, start := keyring.entries, |keyring.history|;
      var backlog := if prior.Some? then prior.value.previous else [];
      var pending := DrainPrevious(host, backlog);
      ShrinkingPointsAreCalm(codec, before, before, keyring.history, start, |keyring.history|, host,
                             Generations(backlog), used, abandoned, used, abandoned);
      ShrinkingIsSafe(codec, before, keyring.entries, host, Generations(backlog), used, abandoned);
      assert Generations(pending) <= Generations(backlog);
      previous := BuildPrevious(pending, prior);
    }

    /**
     Writes a fresh generation's chunks and then its manifest, the commit
     point; on any failure the chunks written so far are cleaned up.
     */
    method CommitGeneration(host: string, m: Manifest, data: Bytes) returns (failure: Option<Error>, ghost clean: bool)
      requires Valid()
      requires |data| <= MAX_ASSEMBLED && m.chunks == ChunkCount(data)
      requires forall i: nat :: Chunk(host, m.generation, i) !in keyring.entries
      modifies keyring
      ensures old(keyring.history) <= keyring.history
      ensures forall k :: |old(keyring.history)| <= k < |keyring.history| - (if failure.None? then 1 else 0) ==>
                Grown(old(keyring.entries), keyring.history[k], host, m.generation, m.chunks)
      ensures failure.Some? ==>
                && Grown(old(keyring.entries), keyring.entries, host, m.generation, m.chunks)
                && (clean ==> keyring.entries == old(keyring.entries))
                && (!clean ==> keyring.failures >= old(keyring.failures) + 3)
                && failure.value in {BackendDown, ManifestTooLarge}
                && (failure.value == ManifestTooLarge ==> |ManifestText(m)| > MANIFEST_MAX)
                && (failure.value == BackendDown ==> keyring.failures > old(keyring.failures))
      ensures failure.None? ==>
                && |old(keyring.history)| < |keyring.history|
                && keyring.history[|keyring.history| - 1] == keyring.entries
                && |ManifestText(m)| <= MANIFEST_MAX
                && Committed(old(keyring.entries), keyring.entries, host, m, data)
      ensures keyring.failures >= old(keyring.failures)
    {
      var written;
      written, failure := WriteChunks(host, m.generation, data);
      if failure.None? {
        if |ManifestText(m)| > MANIFEST_MAX {
          failure := Some(ManifestTooLarge);
        } else {
          var set_ := keyring.Set(Primary(host), ManifestDoc(m));
          if set_.SetDone? {
            return None, true;
          }
          failure := Some(if set_.SetTooLarge? then EntryTooLarge else BackendDown);
        }
      }
      clean := CleanupNewChunks(host, m.generation, written, old(keyring.entries));
    }

    /** After the commit: drain the superseded generations and forget those that are gone. */
    method DrainSuperseded(host: string, m: Manifest)
      requires Valid() && CurrentManifest(keyring.entries, host) == Some(m)
      modifies keyring
      ensures Valid()
      ensures old(keyring.history) <= keyring.history
      ensures Safe(codec, old(keyring.entries), keyring.entries, host, View(codec, old(keyring.entries), host),
                   used, abandoned)
      ensures Calm(codec, old(keyring.entries), keyring.history, |old(keyring.history)|, |keyring.history|, host,
                   View(codec, old(keyring.entries), host), used, abandoned)
      ensures keyring.failures >= old(keyring.failures)
      ensures Continues(CurrentManifest(keyring.entries, host), m)
      ensures keyring.failures == old(keyring.failures) && |ManifestText(m)| <= MANIFEST_MAX ==>
                CurrentManifest(keyring.entries, host) == Some(m.(previous := []))
    {
      ghost var before, start := keyring.entries, |keyring.history|;
      ShorterText(m);
      if |m.previous| > 0 {
        var pending := DrainPrevious(host, m.previous);
        ghost var drained, mid := keyring.entries, |keyring.history|;
        ShrinkingPointsAreCalm(codec, before, before, keyring.history, start, mid, host,
                               Generations(m.previous), used, abandoned, used, abandoned);
        ShrinkingIsSafe(codec, before, drained, host, Generations(m.previous), used, abandoned);
        if |pending| != |m.previous| {
          RewriteIsSound(before, drained, host, m, pending, used, abandoned);
          RewriteKeepsView(codec, drained, host, m, pending);
          RewritePrevious(host, m, pending);
        }
      }
    }

    /**
     Commits a fresh generation under `m` and drains what it supersedes.
     `commit` is the point of the history from which the new value is visible.
     */
    method CommitAndDrain(host: string, m: Manifest, secrets: Secrets, prior: Option<Manifest>)
      returns (failure: Option<Error>, ghost commit: nat)
      requires Valid() && prior == CurrentManifest(keyring.entries, host)
      requires m.generation != "" && m.generation !in used
      requires |codec.encode(secrets)| <= MAX_ASSEMBLED && m.chunks == ChunkCount(codec.encode(secrets))
      requires |m.previous| <= MAX_PREVIOUS && DistinctRefs(m.previous) && Generations(m.previous) <= used
      requires forall r :: r in m.previous ==> GoodRef(r)
      requires CarriesOver(m, keyring.entries, host, prior)
      modifies this`used, this`abandoned, keyring
      ensures Valid()
      ensures used == old(used) + {m.generation}
      ensures abandoned == old(abandoned)
           || (abandoned == old(abandoned) + {m.generation} && keyring.failures >= old(keyring.failures) + 3)
      ensures old(keyring.history) <= keyring.history
      ensures |old(keyring.history)| <= commit <= |keyring.history|
      ensures Calm(codec, old(keyring.entries), keyring.history, |old(keyring.history)|, commit, host,
                   View(codec, old(keyring.entries), host), used, old(abandoned) + {m.generation})
      ensures Calm(codec, old(keyring.entries), keyring.history, commit, |keyring.history|, host,
                   Found(secrets), used, old(abandoned) + {m.generation})
      ensures Safe(codec, old(keyring.entries), keyring.entries, host,
                   if failure.None? then Found(secrets) else View(codec, old(keyring.entries), host), used, abandoned)
      ensures failure.Some? ==>
                && commit == |keyring.history|
                && failure.value in {BackendDown, ManifestTooLarge}
                && (failure.value == ManifestTooLarge ==> |ManifestText(m)| > MANIFEST_MAX)
                && (failure.value == BackendDown ==> keyring.failures > old(keyring.failures))
      ensures keyring.failures >= old(keyring.failures)
      ensures failure.None? ==> Continues(CurrentManifest(keyring.entries, host), m)
      ensures failure.None? && keyring.failures == old(keyring.failures) ==>
                CurrentManifest(keyring.entries, host) == Some(m.(previous := []))
    {
      hide View, Safe, Committed, Grown, GoodManifests, NoOrphans;
      ghost var before, start, used0 := keyring.entries, |keyring.history|, used;
      ghost var orphans := abandoned + {m.generation};
      ghost var clean;
      FreshGenerationAbsent(before, used, abandoned, m.generation);
      failure, clean := CommitGeneration(host, m, codec.encode(secrets));
      used := used + {m.generation};
      commit := |keyring.history| - if failure.None? then 1 else 0;
      GrowingPointsAreCalm(codec, before, before, keyring.history, start, commit, host, m.generation, m.chunks,
                           used0, abandoned);
      if failure.Some? {
        GrowingIsSafe(codec, before, keyring.entries, host, m.generation, m.chunks, used0, abandoned);
        SafeAtStart(codec, before, host, used0, abandoned, used);
        if !clean {
          abandoned := abandoned + {m.generation};
        }
        SafeParts(codec, before, keyring.entries, host, View(codec, before, host), used, abandoned);
        return;
      }
      CommitReadsBack(codec, before, keyring.entries, host, m, secrets, used0, abandoned, prior);
      ghost var committed, end := keyring.entries, |keyring.history|;
      SafeParts(codec, before, committed, host, Found(secrets), used, abandoned);
      DrainSuperseded(host, m);
      SafeRebase(codec, before, committed, keyring.entries, host, Found(secrets), used, abandoned);
      CalmWidens(codec, committed, keyring.history, end, |keyring.history|, host, Found(secrets),
                 used, abandoned, used, orphans);
      CalmFrom(codec, before, committed, keyring.history, commit, host, Found(secrets), used, abandoned, orphans);
    }

    /** Saves a payload as a fresh generation, superseding the current one if there is one. */
    method SaveChunked(host: string, prior: Option<Manifest>, secrets: Secrets, generation: string)
      returns (r: Outcome, ghost commit: nat)
      requires Valid()
      requires generation != "" && generation !in used
      requires prior == CurrentManifest(keyring.entries, host)
      modifies this`used, this`abandoned, keyring
      ensures Valid()
      ensures used == old(used) + {generation}
      ensures abandoned == old(abandoned)
           || (abandoned == old(abandoned) + {generation} && keyring.failures >= old(keyring.failures) + 3)
      ensures old(keyring.history) <= keyring.history
      ensures |old(keyring.history)| <= commit <= |keyring.history|
      ensures Calm(codec, old(keyring.entries), keyring.history, |old(keyring.history)|, commit, host,
                   View(codec, old(keyring.entries), host), used, old(abandoned) + {generation})
      ensures Calm(codec, old(keyring.entries), keyring.history, commit, |keyring.history|, host,
                   Found(secrets), used, old(abandoned) + {generation})
      ensures Safe(codec, old(keyring.entries), keyring.entries, host,
                   if r.Done? then Found(secrets) else View(codec, old(keyring.entries), host), used, abandoned)
      ensures r.Failed? ==> commit == |keyring.history|
      ensures keyring.failures >= old(keyring.failures)
      ensures r != Failed(EntryTooLarge)
      ensures r == Failed(PayloadTooLarge) <==> |codec.encode(secrets)| > MAX_ASSEMBLED
      ensures r.Failed? && r != Failed(PayloadTooLarge) ==>
                keyring.failures > old(keyring.failures) || r == Failed(ManifestTooLarge)
      ensures Uuids(used) ==> r != Failed(ManifestTooLarge)
      ensures r.Failed? ==> r.error in {PayloadTooLarge, TooManyPending, ManifestTooLarge, BackendDown}
      ensures r.Done? ==>
                && CurrentManifest(keyring.entries, host).Some?
                && CurrentManifest(keyring.entries, host).value.generation == generation
      ensures r.Done? && keyring.failures == old(keyring.failures) ==>
                CurrentManifest(keyring.entries, host) == Some(Manifest(generation, ChunkCount(codec.encode(secrets)), []))
    {
      hide View, Safe, OthersUntouched;
      ghost var before, start, used0 := keyring.entries, |keyring.history|, used;
      ghost var orphans := abandoned + {generation};
      var data := codec.encode(secrets);
      SafeAtStart(codec, before, host, used0, abandoned, used0 + {generation});
      SafeParts(codec, before, before, host, View(codec, before, host), used0 + {generation}, abandoned);
      if |data| > MAX_ASSEMBLED || ChunkCount(data) > MAX_CHUNKS {
        used := used + {generation};
        return Failed(PayloadTooLarge), start;
      }
      var previous := DrainBacklog(host, prior);
      ghost var drained, mid, drawn := keyring.entries, |keyring.history|, used0 + {generation};
      CalmWidens(codec, before, keyring.history, start, mid, host, View(codec, before, host),
                 used0, abandoned, drawn, orphans);
      SafeParts(codec, before, drained, host, View(codec, before, host), used, abandoned);
      SafeAtStart(codec, drained, host, used, abandoned, drawn);
      SafeRebase(codec, before, drained, drained, host, View(codec, before, host), drawn, abandoned);
      if |previous| > MAX_PREVIOUS {
        SafeParts(codec, before, drained, host, View(codec, before, host), drawn, abandoned);
        used := used + {generation};
        return Failed(TooManyPending), mid;
      }
      var m := Manifest(generation, ChunkCount(data), previous);
      UuidManifestFits(m, used, data);
      var failure;
      failure, commit := CommitAndDrain(host, m, secrets, prior);
      CalmRebase(codec, before, drained, keyring.history, mid, commit, host, View(codec, before, host), drawn, orphans);
      CalmRebase(codec, before, drained, keyring.history, commit, |keyring.history|, host, Found(secrets), drawn, orphans);
      CalmJoins(codec, before, keyring.history, start, mid, commit, host, View(codec, before, host), drawn, orphans);
      SafeRebase(codec, before, drained, keyring.entries, host,
                 if failure.None? then Found(secrets) else View(codec, before, host), used, abandoned);
      r := if failure.Some? then Failed(failure.value) else Done;
    }

    /** The end of Save: a fresh small payload goes inline, anything else under a new generation. */
    method SaveMerged(host: string, prior: Option<Manifest>, secrets: Secrets, generation: string)
      returns (r: Outcome, ghost commit: nat)
      requires Valid()
      requires generation != "" && generation !in used
      requires prior == CurrentManifest(keyring.entries, host)
      modifies this`used, this`abandoned, keyring
      ensures Valid()
      ensures old(used) <= used <= old(used) + {generation}
      ensures abandoned == old(abandoned)
           || (abandoned == old(abandoned) + {generation} && keyring.failures >= old(keyring.failures) + 3)
      ensures old(keyring.history) <= keyring.history
      ensures |old(keyring.history)| <= commit <= |keyring.history|
      ensures Calm(codec, old(keyring.entries), keyring.history, |old(keyring.history)|, commit, host,
                   View(codec, old(keyring.entries), host), old(used) + {generation}, old(abandoned) + {generation})
      ensures Calm(codec, old(keyring.entries), keyring.history, commit, |keyring.history|, host,
                   Found(secrets), old(used) + {generation}, old(abandoned) + {generation})
      ensures View(codec, keyring.entries, host) == if r.Done? then Found(secrets) else View(codec, old(keyring.entries), host)
      ensures OthersUntouched(old(keyring.entries), keyring.entries, host)
      ensures r.Failed? ==> commit == |keyring.history|
      ensures keyring.failures >= old(keyring.failures)
      ensures r.Failed? ==> r.error in {PayloadTooLarge, TooManyPending, ManifestTooLarge, BackendDown}
      ensures r.Failed? && keyring.failures == old(keyring.failures) ==>
                |codec.encode(secrets)| > MAX_ASSEMBLED || (r == Failed(ManifestTooLarge) && !Uuids(used))
      ensures |codec.encode(secrets)| > MAX_ASSEMBLED ==> r.Failed?
      ensures r.Done? ==> StoredAs(codec, old(keyring.entries), keyring.entries, host, generation)
      ensures r.Done? && keyring.failures == old(keyring.failures) ==>
                Tidy(keyring.entries, host, generation, abandoned)
    {
      hide View;
      commit := |keyring.history|;
      var data := codec.encode(secrets);
      if |data| <= INLINE_MAX && prior.None? {
        ghost var before := keyring.entries;
        var set_ := keyring.Set(Primary(host), Inline(data));
        InlineSetIsSafe(codec, before, host, secrets, used, abandoned, old(used) + {generation},
                        old(abandoned) + {generation});
        if !set_.SetDone? {
          return Failed(if set_.SetTooLarge? then EntryTooLarge else BackendDown), commit + 1;
        }
        DrainedIsTidy(keyring.entries, host, generation, used, abandoned);
        return Done, commit;
      }
      r, commit := SaveChunked(host, prior, secrets, generation);
      if CurrentManifest(keyring.entries, host) == Some(Manifest(generation, ChunkCount(data), [])) {
        DrainedIsTidy(keyring.entries, host, generation, used, abandoned);
      }
    }

    /** Merges the patch into the host's secrets and stores them; `available` is what the backend reports. */
    method Save(host: string, patch: SavePatch, available: bool, generation: string)
      returns (r: Outcome, ghost commit: nat)
      requires Valid()
      requires generation != "" && generation !in used
      modifies this`used, this`abandoned, keyring
      ensures Valid()
      ensures used <= old(used) + {generation}
      ensures abandoned == old(abandoned)
           || (abandoned == old(abandoned) + {generation} && keyring.failures >= old(keyring.failures) + 3)
      ensures var before := View(codec, old(keyring.entries), host);
              var merged := Merge(if before.Found? then before.secrets else Secrets("", ""), patch);
              var orphans := old(abandoned) + {generation};
              // every point of the run shows the old value before the commit and the merged one after it
              && old(keyring.history) <= keyring.history
              && |old(keyring.history)| <= commit <= |keyring.history|
              && Calm(codec, old(keyring.entries), keyring.history, |old(keyring.history)|, commit, host,
                      before, old(used) + {generation}, orphans)
              && Calm(codec, old(keyring.entries), keyring.history, commit, |keyring.history|, host,
                      Found(merged), old(used) + {generation}, orphans)
              && (r.Failed? ==> commit == |keyring.history| && View(codec, keyring.entries, host) == before)
              && (r.Done? ==> View(codec, keyring.entries, host) == Found(merged))
              && (r.Failed? && keyring.failures == old(keyring.failures) ==>
                    || (patch.password.None? && patch.privateKey.None?)
                    || !available
                    || before == Corrupt
                    || |codec.encode(merged)| > MAX_ASSEMBLED
                    || (r == Failed(ManifestTooLarge) && !Uuids(used)))
              && (|codec.encode(merged)| > MAX_ASSEMBLED ==> r.Failed?)
      ensures r.Done? ==>
                && Applied(View(codec, old(keyring.entries), host), patch, View(codec, keyring.entries, host))
                && StoredAs(codec, old(keyring.entries), keyring.entries, host, generation)
      ensures r.Done? && keyring.failures == old(keyring.failures) ==>
                Tidy(keyring.entries, host, generation, abandoned)
      ensures r == Failed(NothingToSave) <==> patch.password.None? && patch.privateKey.None?
      ensures r == Failed(Unavailable) <==> !available && (patch.password.Some? || patch.privateKey.Some?)
      ensures keyring.failures == old(keyring.failures) && available && (patch.password.Some? || patch.privateKey.Some?) ==>
                (r == Failed(StoredCorrupt) <==> View(codec, old(keyring.entries), host) == Corrupt)
      ensures OthersUntouched(old(keyring.entries), keyring.entries, host)
      ensures keyring.failures >= old(keyring.failures)
      ensures r != Failed(EntryTooLarge)
    {
      hide View;
      commit := |keyring.history|;
      if patch.password.None? && patch.privateKey.None? {
        return Failed(NothingToSave), commit;
      }
      if !available {
        return Failed(Unavailable), commit;
      }
      var read := ReadLocked(host);
      var existing := Secrets("", "");
      var prior: Option<Manifest> := None;
      match read {
        case ReadFailed(error) =>
          return Failed(error), commit;
        case ReadFound(s, m) =>
          existing, prior := s, m;
        case ReadMissing =>
      }
      if patch.password.Some? {
        existing := existing.(password := patch.password.value);
      }
      if patch.privateKey.Some? {
        existing := existing.(privateKey := patch.privateKey.value);
      }
      r, commit := SaveMerged(host, prior, existing, generation);
    }

    /** The secrets of a host, or the reason they cannot be read. */
    method Get(host: string) returns (r: ReadResult)
      modifies keyring`failures
      ensures keyring.failures == old(keyring.failures) ==>
                match View(codec, keyring.entries, host)
                case Missing => r == ReadMissing
                case Corrupt => r == ReadFailed(StoredCorrupt)
                case Found(s) => r == ReadFound(s, CurrentManifest(keyring.entries, host))
      ensures r.ReadFound? ==> View(codec, keyring.entries, host) == Found(r.secrets)
      ensures r == ReadMissing ==> View(codec, keyring.entries, host) == Missing
    {
      r := ReadLocked(host);
    }

    // -------------------------------------------------------------- clearing

    /** Deletes the pending generations, then the current one, then the primary entry. */
    method Clear(host: string) returns (r: Outcome, ghost phase: Phase)
      requires Valid()
      modifies keyring
      ensures Valid()
      ensures old(keyring.history) <= keyring.history
      ensures r.Failed? ==> keyring.failures > old(keyring.failures)
      ensures keyring.failures >= old(keyring.failures)
      ensures OthersUntouched(old(keyring.entries), keyring.entries, host)
      ensures r.Failed? <==> phase != Finished
      // success: neither the primary nor any chunk it named is left
      ensures r.Done? ==>
                && Primary(host) !in keyring.entries
                && forall g: string, i: nat :: Named(old(keyring.entries), host, g, i) ==> Chunk(host, g, i) !in keyring.entries
      // failure: the primary keeps every ref, so a retry can finish
      ensures r.Failed? ==> SameAt(old(keyring.entries), keyring.entries, Primary(host))
      // a failure in the pending phase leaves the value readable at every point
      ensures phase == Pending ==>
                && View(codec, keyring.entries, host) == View(codec, old(keyring.entries), host)
                && Calm(codec, old(keyring.entries), keyring.history, |old(keyring.history)|, |keyring.history|,
                        host, View(codec, old(keyring.entries), host), used, abandoned)
      // later on a point shows the old value, a corrupt entry, or nothing: never another value
      ensures forall k :: |old(keyring.history)| <= k < |keyring.history| ==>
                && Sound(keyring.history[k], used, abandoned)
                && View(codec, keyring.history[k], host) in {View(codec, old(keyring.entries), host), Corrupt, Missing}
      ensures r.Failed? ==>
                View(codec, keyring.entries, host) in {View(codec, old(keyring.entries), host), Corrupt}
    {
      var got := keyring.Get(Primary(host));
      if got.GetNotFound? {
        return Done, Finished;
      }
      if got.GetFailed? {
        return Failed(BackendDown), Pending;
      }
      if got.document.ManifestDoc? {
        var failed;
        failed, phase := ClearChunks(host, got.document.manifest);
        if failed {
          return Failed(BackendDown), phase;
        }
      }
      ghost var cleared := keyring.entries;
      var deleted := keyring.Delete(Primary(host));
      if deleted.DeleteFailed? {
        return Failed(BackendDown), Current;
      }
      PrimaryDeletionIsSound(cleared, host, used, abandoned);
      return Done, Finished;
    }

    /** The pending phase: every superseded generation, stopping at the first failure. */
    method ClearPending(host: string, m: Manifest) returns (complete: bool)
      requires |m.previous| <= MAX_PREVIOUS
      modifies keyring
      ensures old(keyring.history) <= keyring.history
      ensures Shrunk(old(keyring.entries), keyring.entries, host, Generations(m.previous))
      ensures forall k :: |old(keyring.history)| <= k < |keyring.history| ==>
                Shrunk(old(keyring.entries), keyring.history[k], host, Generations(m.previous))
      ensures complete ==> forall r :: r in m.previous ==> Cleared(keyring.entries, host, r.generation, r.chunks)
      ensures keyring.failures == old(keyring.failures) + if complete then 0 else 1
    {
      var pi := 0;
      while pi < |m.previous| && pi < MAX_PREVIOUS
        invariant 0 <= pi <= |m.previous|
        invariant old(keyring.history) <= keyring.history
        invariant Shrunk(old(keyring.entries), keyring.entries, host, Generations(m.previous))
        invariant forall k :: |old(keyring.history)| <= k < |keyring.history| ==>
                    Shrunk(old(keyring.entries), keyring.history[k], host, Generations(m.previous))
        invariant forall r :: r in m.previous[..pi] ==> Cleared(keyring.entries, host, r.generation, r.chunks)
        invariant keyring.failures == old(keyring.failures)
      {
        var ref := m.previous[pi];
        assert ref in m.previous && ref.generation in Generations(m.previous);
        assert m.previous[..pi + 1] == m.previous[..pi] + [ref];
        complete := DeleteChunks(host, ref);
        if !complete {
          return false;
        }
        pi := pi + 1;
      }
      return true;
    }

    /** The current phase follows the pending one; its chunks are the live value's. */
    method ClearChunks(host: string, m: Manifest) returns (failed: bool, ghost phase: Phase)
      requires Valid() && CurrentManifest(keyring.entries, host) == Some(m)
      modifies keyring
      ensures Valid()
      ensures old(keyring.history) <= keyring.history
      ensures keyring.failures == old(keyring.failures) + if failed then 1 else 0
      ensures OthersUntouched(old(keyring.entries), keyring.entries, host)
      ensures SameAt(old(keyring.entries), keyring.entries, Primary(host))
      ensures failed ==> phase in {Pending, Current}
      ensures !failed ==>
                && phase == Current
                && forall g: string, i: nat :: NamedBy(m, g, i) ==> Chunk(host, g, i) !in keyring.entries
      ensures phase == Pending ==>
                && View(codec, keyring.entries, host) == View(codec, old(keyring.entries), host)
                && Calm(codec, old(keyring.entries), keyring.history, |old(keyring.history)|, |keyring.history|,
                        host, View(codec, old(keyring.entries), host), used, abandoned)
      ensures forall k :: |old(keyring.history)| <= k < |keyring.history| ==>
                && Sound(keyring.history[k], used, abandoned)
                && View(codec, keyring.history[k], host) in {View(codec, old(keyring.entries), host), Corrupt}
      ensures View(codec, keyring.entries, host) in {View(codec, old(keyring.entries), host), Corrupt}
    {
      hide View;
      ghost var before, start, superseded := keyring.entries, |keyring.history|, Generations(m.previous);
      var drainedAll := ClearPending(host, m);
      ShrinkingPointsAreCalm(codec, before, before, keyring.history, start, |keyring.history|, host, superseded,
                             used, abandoned, used, abandoned);
      ShrinkingIsSafe(codec, before, keyring.entries, host, superseded, used, abandoned);
      if !drainedAll {
        return true, Pending;
      }
      ghost var drained, mid := keyring.entries, |keyring.history|;
      var complete := DeleteChunks(host, Ref(m));
      ShrinkingIsSound(drained, keyring.entries, host, {m.generation}, used, abandoned);
      LosingChunksNeverForgesAValue(codec, drained, keyring.entries, host, m);
      forall k | mid <= k < |keyring.history|
        ensures Sound(keyring.history[k], used, abandoned)
        ensures View(codec, keyring.history[k], host) in {View(codec, before, host), Corrupt}
      {
        ShrinkingIsSound(drained, keyring.history[k], host, {m.generation}, used, abandoned);
        LosingChunksNeverForgesAValue(codec, drained, keyring.history[k], host, m);
      }
      if complete {
        NamedChunksGone(drained, keyring.entries, host, m);
      }
      return !complete, Current;
    }
  }
}
