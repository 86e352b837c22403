/**
 What the credential store's keyring entries mean: the value a host's entries
 decode to, which chunk accounts a manifest names, and when entries are sound.
 */
module Credentials {
  import opened Prelude
  import opened Keyring
  import Base64

  const INLINE_MAX := 2000
  const MANIFEST_MAX := INLINE_MAX
  const CHUNK_MAX := 1800
  const MAX_CHUNKS := 64
  const MAX_PREVIOUS := 16
  const MAX_ASSEMBLED := 64 * 1024

  /** A host's secrets; Dafny strings hold Unicode scalar values, so they are valid UTF-8 texts. */
  datatype Secrets = Secrets(password: string, privateKey: string)

  /** The fields to replace; None leaves a field as it is. */
  datatype SavePatch = SavePatch(password: Option<string>, privateKey: Option<string>)

  function Merge(s: Secrets, p: SavePatch): Secrets {
    Secrets(
      if p.password.Some? then p.password.value else s.password,
      if p.privateKey.Some? then p.privateKey.value else s.privateKey)
  }

  /** Each field of a merge is the patch's own, or the old one. */
  lemma MergeFields(s: Secrets, p: SavePatch)
    ensures Merge(s, p).password == if p.password.Some? then p.password.value else s.password
    ensures Merge(s, p).privateKey == if p.privateKey.Some? then p.privateKey.value else s.privateKey
  {
  }

  /** The JSON library's treatment of the version-1 payload envelope. */
  datatype Codec = Codec(encode: Secrets -> Bytes, decode: Bytes -> Option<Secrets>)

  ghost predicate Lawful(c: Codec) {
    forall s: Secrets :: c.decode(c.encode(s)) == Some(s) && |c.encode(s)| > 0
  }

  // ---------------------------------------------------------------- reading

  /** What Get answers when the backend works. */
  datatype Lookup = Missing | Corrupt | Found(secrets: Secrets)

  /** A stored document read as a chunk; any other JSON object has the fields' zero values. */
  function AsChunk(c: Codec, d: Document): Option<(nat, string)> {
    match d
    case ChunkDoc(index, data) => Some((index, data))
    case ManifestDoc(_) => Some((0, ""))
    case Inline(payload) => if c.decode(payload).Some? then Some((0, "")) else None
  }

  /** The decoded content of chunk i when `taken` bytes are already assembled. */
  function ChunkPart(c: Codec, e: Entries, host: string, generation: string, i: nat, taken: nat): Option<Bytes> {
    var a := Chunk(host, generation, i);
    if a !in e then None
    else
      match AsChunk(c, e[a])
      case None => None
      case Some((index, data)) =>
        if index != i then None
        else
          match Base64.Decode(data)
          case None => None
          case Some(part) =>
            if |part| > CHUNK_MAX || taken + |part| > MAX_ASSEMBLED then None else Some(part)
  }

  /** Chunks i..n of a generation appended to `taken`. */
  function Assemble(c: Codec, e: Entries, host: string, generation: string, i: nat, n: nat, taken: Bytes)
    : Option<Bytes>
    requires i <= n
    decreases n - i
  {
    if i == n then Some(taken)
    else
      match ChunkPart(c, e, host, generation, i, |taken|)
      case None => None
      case Some(part) => Assemble(c, e, host, generation, i + 1, n, taken + part)
  }

  predicate Readable(m: Manifest) {
    m.generation != "" && 0 < m.chunks <= MAX_CHUNKS && |m.previous| <= MAX_PREVIOUS
  }

  function Payload(c: Codec, data: Bytes): Lookup {
    match c.decode(data)
    case None => Corrupt
    case Some(s) => Found(s)
  }

  function DecodeChunks(c: Codec, e: Entries, host: string, m: Manifest): Lookup {
    if !Readable(m) then Corrupt
    else
      match Assemble(c, e, host, m.generation, 0, m.chunks, [])
      case None => Corrupt
      case Some(data) => Payload(c, data)
  }

  /** The value the entries hold for a host. */
  function View(c: Codec, e: Entries, host: string): Lookup {
    if Primary(host) !in e then Missing
    else
      match e[Primary(host)]
      case ManifestDoc(m) => DecodeChunks(c, e, host, m)
      case Inline(payload) => Payload(c, payload)
      case ChunkDoc(_, _) => Corrupt
  }

  /** The host's manifest, when its primary entry is one. */
  function CurrentManifest(e: Entries, host: string): Option<Manifest> {
    if Primary(host) in e && e[Primary(host)].ManifestDoc? then Some(e[Primary(host)].manifest) else None
  }

  lemma {:induction false} AssembleFrame(c: Codec, e: Entries, e': Entries, host: string, generation: string,
                                         i: nat, n: nat, taken: Bytes)
    requires i <= n
    requires forall j :: i <= j < n ==> SameAt(e, e', Chunk(host, generation, j))
    ensures Assemble(c, e, host, generation, i, n, taken) == Assemble(c, e', host, generation, i, n, taken)
    decreases n - i
  {
    if i < n {
      assert SameAt(e, e', Chunk(host, generation, i));
      match ChunkPart(c, e, host, generation, i, |taken|)
      case None =>
      case Some(part) => AssembleFrame(c, e, e', host, generation, i + 1, n, taken + part);
    }
  }

  predicate SameAt(e: Entries, e': Entries, a: Account) {
    (a in e <==> a in e') && (a in e ==> e[a] == e'[a])
  }

  /** Get reads the primary entry and the current generation's chunks, nothing else. */
  lemma ViewFrame(c: Codec, e: Entries, e': Entries, host: string)
    requires SameAt(e, e', Primary(host))
    requires CurrentManifest(e, host).Some? ==>
               forall j: nat :: SameAt(e, e', Chunk(host, CurrentManifest(e, host).value.generation, j))
    ensures View(c, e, host) == View(c, e', host)
  {
    var m := CurrentManifest(e, host);
    if m.Some? && Readable(m.value) {
      AssembleFrame(c, e, e', host, m.value.generation, 0, m.value.chunks, []);
    }
  }

  // ---------------------------------------------------------------- what a readable host looks like

  /** The entry under a chunk account carries its own index and decodes to the part, within the chunk limit. */
  ghost predicate Holds(c: Codec, e: Entries, a: Account, part: Bytes)
    requires a.Chunk?
  {
    && a in e && |part| <= 1800
    && AsChunk(c, e[a]).Some? && AsChunk(c, e[a]).value.0 == a.index
    && Base64.Decode(AsChunk(c, e[a]).value.1) == Some(part)
  }

  ghost predicate HoldsAll(c: Codec, e: Entries, host: string, generation: string, i: nat, parts: seq<Bytes>) {
    forall k :: 0 <= k < |parts| ==> Holds(c, e, Chunk(host, generation, i + k), parts[k])
  }

  lemma {:induction false} AssembledIsParts(c: Codec, e: Entries, host: string, generation: string, i: nat, n: nat,
                                            taken: Bytes) returns (parts: seq<Bytes>)
    requires i <= n && |taken| <= 65536 && Assemble(c, e, host, generation, i, n, taken).Some?
    ensures |parts| == n - i && HoldsAll(c, e, host, generation, i, parts)
    ensures |taken + Flatten(parts)| <= 65536
    ensures Assemble(c, e, host, generation, i, n, taken) == Some(taken + Flatten(parts))
    decreases n - i
  {
    parts := [];
    if i == n {
      assert taken + [] == taken;
    } else {
      var part := ChunkPart(c, e, host, generation, i, |taken|).value;
      var rest := AssembledIsParts(c, e, host, generation, i + 1, n, taken + part);
      parts := [part] + rest;
      assert parts[1..] == rest;
      ConcatAssociative(taken, part, Flatten(rest));
      forall k | 0 <= k < |parts| ensures Holds(c, e, Chunk(host, generation, i + k), parts[k]) {
        if k > 0 {
          assert Holds(c, e, Chunk(host, generation, i + 1 + (k - 1)), rest[k - 1]);
        }
      }
    }
  }

  lemma {:induction false} PartsAssemble(c: Codec, e: Entries, host: string, generation: string, i: nat, n: nat,
                                         taken: Bytes, parts: seq<Bytes>)
    requires i <= n && |parts| == n - i && HoldsAll(c, e, host, generation, i, parts)
    requires |taken + Flatten(parts)| <= 65536
    ensures Assemble(c, e, host, generation, i, n, taken) == Some(taken + Flatten(parts))
    decreases n - i
  {
    if i == n {
      assert taken + [] == taken;
    } else {
      var rest := parts[1..];
      assert Holds(c, e, Chunk(host, generation, i + 0), parts[0]);
      ConcatAssociative(taken, parts[0], Flatten(rest));
      forall k | 0 <= k < |rest| ensures Holds(c, e, Chunk(host, generation, i + 1 + k), rest[k]) {
        assert Holds(c, e, Chunk(host, generation, i + (k + 1)), parts[k + 1]);
      }
      PartsAssemble(c, e, host, generation, i + 1, n, taken + parts[0], rest);
    }
  }

  /** A chunked host is readable, as these secrets, exactly when these parts are all there. */
  ghost predicate ReadableAs(c: Codec, e: Entries, host: string, m: Manifest, s: Secrets) {
    && m.generation != "" && 0 < m.chunks <= 64 && |m.previous| <= 16
    && exists parts :: |parts| == m.chunks && HoldsAll(c, e, host, m.generation, 0, parts)
                       && |Flatten(parts)| <= 65536 && c.decode(Flatten(parts)) == Some(s)
  }

  /** What Get answers for a host without a manifest. */
  lemma FoundInline(c: Codec, e: Entries, host: string, s: Secrets)
    ensures View(c, e, host) == Missing <==> Primary(host) !in e
    ensures Primary(host) in e && e[Primary(host)].Inline? ==>
              (View(c, e, host) == Found(s) <==> c.decode(e[Primary(host)].payload) == Some(s))
    ensures Primary(host) in e && e[Primary(host)].ChunkDoc? ==> View(c, e, host) == Corrupt
  {
    hide Assemble;
  }

  /** What Get answers for a chunked host, said of its entries alone. */
  lemma FoundExactlyWhenComplete(c: Codec, e: Entries, host: string, m: Manifest, s: Secrets)
    requires Primary(host) in e && e[Primary(host)] == ManifestDoc(m)
    ensures View(c, e, host) == Found(s) <==> ReadableAs(c, e, host, m, s)
    ensures View(c, e, host) != Missing
  {
    hide Assemble, Holds;
    if Readable(m) && Assemble(c, e, host, m.generation, 0, m.chunks, []).Some? {
      var parts := AssembledIsParts(c, e, host, m.generation, 0, m.chunks, []);
      assert [] + Flatten(parts) == Flatten(parts);
    }
    if ReadableAs(c, e, host, m, s) {
      var parts :| |parts| == m.chunks && HoldsAll(c, e, host, m.generation, 0, parts)
                   && |Flatten(parts)| <= 65536 && c.decode(Flatten(parts)) == Some(s);
      assert [] + Flatten(parts) == Flatten(parts);
      PartsAssemble(c, e, host, m.generation, 0, m.chunks, [], parts);
    }
  }

  // ---------------------------------------------------------------- cutting a payload

  function ChunkCount(data: Bytes): nat {
    (|data| + CHUNK_MAX - 1) / CHUNK_MAX
  }

  /** The bytes of chunk i. */
  function Piece(data: Bytes, i: nat): Bytes
    requires i < ChunkCount(data)
  {
    var end := if (i + 1) * CHUNK_MAX > |data| then |data| else (i + 1) * CHUNK_MAX;
    data[i * CHUNK_MAX .. end]
  }

  function PieceDoc(data: Bytes, i: nat): Document
    requires i < ChunkCount(data)
  {
    ChunkDoc(i, Base64.Encode(Piece(data, i)))
  }

  ghost predicate Stored(e: Entries, host: string, generation: string, data: Bytes, n: nat)
    requires n <= ChunkCount(data)
  {
    forall i :: 0 <= i < n ==>
      Chunk(host, generation, i) in e && e[Chunk(host, generation, i)] == PieceDoc(data, i)
  }

  /** How many bytes the first i pieces hold. */
  function PiecesEnd(data: Bytes, i: nat): (end: nat)
    ensures end <= |data|
    ensures i < ChunkCount(data) ==> end == i * CHUNK_MAX < |data|
    ensures i >= ChunkCount(data) ==> end == |data|
  {
    if i * CHUNK_MAX > |data| then |data| else i * CHUNK_MAX
  }

  lemma PieceExtends(data: Bytes, i: nat)
    requires i < ChunkCount(data)
    ensures |Piece(data, i)| <= CHUNK_MAX
    ensures data[..PiecesEnd(data, i)] + Piece(data, i) == data[..PiecesEnd(data, i + 1)]
  {
  }

  lemma PieceReads(c: Codec, e: Entries, host: string, generation: string, data: Bytes, i: nat)
    requires |data| <= MAX_ASSEMBLED
    requires i < ChunkCount(data)
    requires Stored(e, host, generation, data, ChunkCount(data))
    ensures ChunkPart(c, e, host, generation, i, PiecesEnd(data, i)) == Some(Piece(data, i))
  {
    PieceExtends(data, i);
    Base64.RoundTrip(Piece(data, i));
    assert |data[..PiecesEnd(data, i)] + Piece(data, i)| <= |data|;
  }

  lemma AssembleStep(c: Codec, e: Entries, host: string, generation: string, i: nat, n: nat,
                     taken: Bytes, part: Bytes, next: Bytes)
    requires i < n
    requires ChunkPart(c, e, host, generation, i, |taken|) == Some(part)
    requires next == taken + part
    ensures Assemble(c, e, host, generation, i, n, taken) == Assemble(c, e, host, generation, i + 1, n, next)
  {
  }

  ghost predicate PiecesRead(c: Codec, e: Entries, host: string, generation: string, data: Bytes) {
    forall i: nat :: i < ChunkCount(data) ==>
      ChunkPart(c, e, host, generation, i, PiecesEnd(data, i)) == Some(Piece(data, i))
  }

  lemma {:induction false} PiecesAssemble(c: Codec, e: Entries, host: string, generation: string,
                                          data: Bytes, i: nat)
    requires i <= ChunkCount(data)
    requires PiecesRead(c, e, host, generation, data)
    ensures Assemble(c, e, host, generation, i, ChunkCount(data), data[..PiecesEnd(data, i)]) == Some(data)
    decreases ChunkCount(data) - i
  {
    var taken := data[..PiecesEnd(data, i)];
    if i == ChunkCount(data) {
      assert taken == data;
    } else {
      var next := data[..PiecesEnd(data, i + 1)];
      PieceExtends(data, i);
      assert ChunkPart(c, e, host, generation, i, |taken|) == Some(Piece(data, i));
      AssembleStep(c, e, host, generation, i, ChunkCount(data), taken, Piece(data, i), next);
      PiecesAssemble(c, e, host, generation, data, i + 1);
    }
  }

  /** Pieces stored in order under their own indices pass every guard of the reader and join to the payload. */
  lemma StoredPiecesAssemble(c: Codec, e: Entries, host: string, generation: string, data: Bytes)
    requires |data| <= MAX_ASSEMBLED
    requires Stored(e, host, generation, data, ChunkCount(data))
    ensures Assemble(c, e, host, generation, 0, ChunkCount(data), []) == Some(data)
  {
    forall i: nat | i < ChunkCount(data)
      ensures ChunkPart(c, e, host, generation, i, PiecesEnd(data, i)) == Some(Piece(data, i))
    {
      PieceReads(c, e, host, generation, data, i);
    }
    assert data[..PiecesEnd(data, 0)] == [];
    PiecesAssemble(c, e, host, generation, data, 0);
  }

  /** A payload within the assembly limit, stored piece by piece under a readable manifest, reads back. */
  lemma StoredPayloadReadsBack(c: Codec, e: Entries, host: string, m: Manifest, s: Secrets)
    requires Lawful(c)
    requires |c.encode(s)| <= MAX_ASSEMBLED
    requires m.generation != "" && m.chunks == ChunkCount(c.encode(s)) && |m.previous| <= MAX_PREVIOUS
    requires Primary(host) in e && e[Primary(host)] == ManifestDoc(m)
    requires Stored(e, host, m.generation, c.encode(s), ChunkCount(c.encode(s)))
    ensures View(c, e, host) == Found(s)
  {
    var data := c.encode(s);
    assert c.decode(data) == Some(s);
    StoredPiecesAssemble(c, e, host, m.generation, data);
    assert Readable(m);
  }

  /** Every payload the store accepts takes at most 37 chunks, and each fits one keyring entry. */
  lemma ChunksFitTheKeyring(data: Bytes, i: nat)
    requires |data| <= MAX_ASSEMBLED
    requires i < ChunkCount(data)
    ensures ChunkCount(data) <= 37 <= MAX_CHUNKS
    ensures 0 < |Piece(data, i)| <= CHUNK_MAX
    ensures StoredSize(PieceDoc(data, i)) <= ENTRY_LIMIT
  {
    Base64.EncodedLength(Piece(data, i));
    ShortDecimal(i);
  }

  lemma {:induction false} RefsTextLength(refs: seq<ChunkRef>)
    requires forall r :: r in refs ==> |r.generation| == 36 && 0 <= r.chunks <= MAX_CHUNKS
    ensures |RefsText(refs)| <= 66 * |refs|
  {
    if refs != [] {
      assert refs[0] in refs;
      ShortDecimal(refs[0].chunks);
      assert |RefText(refs[0])| <= 65;
      RefsTextLength(refs[1..]);
    }
  }

  /** With UUID generations the manifest guard never refuses: sixteen refs always fit. */
  lemma ManifestFitsTheKeyring(m: Manifest)
    requires |m.generation| == 36 && 0 <= m.chunks <= MAX_CHUNKS && |m.previous| <= MAX_PREVIOUS
    requires forall r :: r in m.previous ==> |r.generation| == 36 && 0 <= r.chunks <= MAX_CHUNKS
    ensures |ManifestText(m)| <= MANIFEST_MAX <= ENTRY_LIMIT
  {
    RefsTextLength(m.previous);
    ShortDecimal(m.chunks);
  }

  // ---------------------------------------------------------------- sound entries

  function Generations(refs: seq<ChunkRef>): set<string> {
    set r | r in refs :: r.generation
  }

  ghost predicate DistinctRefs(refs: seq<ChunkRef>) {
    forall i, j :: 0 <= i < j < |refs| ==> refs[i].generation != refs[j].generation
  }

  predicate GoodRef(r: ChunkRef) {
    r.generation != "" && 0 < r.chunks <= MAX_CHUNKS
  }

  /** A manifest as the store writes it: its current generation is not also awaiting cleanup. */
  ghost predicate GoodManifest(m: Manifest) {
    && Readable(m)
    && DistinctRefs(m.previous)
    && (forall r :: r in m.previous ==> GoodRef(r) && r.generation != m.generation)
  }

  /** The manifest names chunk i of the generation. */
  predicate NamedBy(m: Manifest, generation: string, i: nat) {
    || (generation == m.generation && i < m.chunks)
    || exists r :: r in m.previous && r.generation == generation && i < r.chunks
  }

  predicate Named(e: Entries, host: string, generation: string, i: nat) {
    CurrentManifest(e, host).Some? && NamedBy(CurrentManifest(e, host).value, generation, i)
  }

  /** Every stored chunk is named by its host's manifest, or belongs to an abandoned generation. */
  ghost predicate NoOrphans(e: Entries, abandoned: set<string>) {
    forall a :: a in e && a.Chunk? ==> a.generation in abandoned || Named(e, a.host, a.generation, a.index)
  }

  ghost predicate GoodManifests(e: Entries, used: set<string>) {
    forall a :: a in e && a.Primary? && e[a].ManifestDoc? ==>
      && GoodManifest(e[a].manifest)
      && e[a].manifest.generation in used
      && Generations(e[a].manifest.previous) <= used
  }

  /** What every reachable state of the keyring satisfies. */
  ghost predicate Sound(e: Entries, used: set<string>, abandoned: set<string>) {
    && GoodManifests(e, used)
    && NoOrphans(e, abandoned)
    && abandoned <= used
  }

  lemma SoundWidens(e: Entries, used: set<string>, abandoned: set<string>, used': set<string>, abandoned': set<string>)
    requires Sound(e, used, abandoned)
    requires used <= used' && abandoned <= abandoned' <= used'
    ensures Sound(e, used', abandoned')
  {
  }

  /** A generation never used before occurs nowhere in sound entries. */
  lemma FreshGenerationAbsent(e: Entries, used: set<string>, abandoned: set<string>, generation: string)
    requires Sound(e, used, abandoned) && generation !in used
    ensures forall a :: a in e && a.Chunk? ==> a.generation != generation
  {
    forall a | a in e && a.Chunk? ensures a.generation != generation {
      if a.generation !in abandoned {
        var m := e[Primary(a.host)].manifest;
        assert Primary(a.host) in e;
        if r :| r in m.previous && r.generation == a.generation {
          assert r.generation in Generations(m.previous);
        }
      }
    }
  }

  // ---------------------------------------------------------------- how entries may change

  ghost predicate OthersUntouched(e: Entries, e': Entries, host: string) {
    forall a: Account :: a.host != host ==> SameAt(e, e', a)
  }

  /** `e` is `base` less some of the host's chunks of the given generations. */
  ghost predicate Shrunk(base: Entries, e: Entries, host: string, generations: set<string>) {
    && (forall a :: a in e ==> a in base && e[a] == base[a])
    && (forall a :: a in base && a !in e ==> a.Chunk? && a.host == host && a.generation in generations)
  }

  /** `e` is `base` plus some of the first n chunks of one generation. */
  ghost predicate Grown(base: Entries, e: Entries, host: string, generation: string, n: nat) {
    && (forall a :: a in base ==> a in e && e[a] == base[a])
    && (forall a :: a in e && a !in base ==>
         a.Chunk? && a.host == host && a.generation == generation && a.index < n)
  }

  /** One point of a run on a host: its value, the soundness of the entries, and the other hosts. */
  ghost predicate Safe(c: Codec, base: Entries, e: Entries, host: string, v: Lookup,
                       used: set<string>, abandoned: set<string>)
  {
    && View(c, e, host) == v
    && Sound(e, used, abandoned)
    && OthersUntouched(base, e, host)
  }

  lemma SafeParts(c: Codec, base: Entries, e: Entries, host: string, v: Lookup,
                  used: set<string>, abandoned: set<string>)
    requires Safe(c, base, e, host, v, used, abandoned)
    ensures View(c, e, host) == v && Sound(e, used, abandoned) && OthersUntouched(base, e, host)
  {
  }

  lemma SafeAtStart(c: Codec, e: Entries, host: string, used: set<string>, abandoned: set<string>,
                    used': set<string>)
    requires Sound(e, used, abandoned) && used <= used'
    ensures Safe(c, e, e, host, View(c, e, host), used', abandoned)
  {
    SoundWidens(e, used, abandoned, used', abandoned);
  }

  lemma SafeRebase(c: Codec, start: Entries, base: Entries, e: Entries, host: string, v: Lookup,
                   used: set<string>, abandoned: set<string>)
    requires OthersUntouched(start, base, host)
    requires Safe(c, base, e, host, v, used, abandoned)
    ensures Safe(c, start, e, host, v, used, abandoned)
  {
  }

  lemma ShrinkingIsSound(base: Entries, e: Entries, host: string, generations: set<string>,
                         used: set<string>, abandoned: set<string>)
    requires Sound(base, used, abandoned)
    requires Shrunk(base, e, host, generations)
    ensures Sound(e, used, abandoned) && OthersUntouched(base, e, host)
  {
    forall a | a in e && a.Chunk? ensures a.generation in abandoned || Named(e, a.host, a.generation, a.index) {
      assert a in base;
      assert CurrentManifest(e, a.host) == CurrentManifest(base, a.host);
    }
  }

  lemma ShrinkingIsSafe(c: Codec, base: Entries, e: Entries, host: string, generations: set<string>,
                        used: set<string>, abandoned: set<string>)
    requires Sound(base, used, abandoned)
    requires Shrunk(base, e, host, generations)
    requires CurrentManifest(base, host).Some? ==> CurrentManifest(base, host).value.generation !in generations
    ensures Safe(c, base, e, host, View(c, base, host), used, abandoned)
  {
    ViewFrame(c, base, e, host);
    ShrinkingIsSound(base, e, host, generations, used, abandoned);
  }

  lemma {:induction false} AssembleShrunk(c: Codec, base: Entries, e: Entries, host: string, generation: string,
                                          i: nat, n: nat, taken: Bytes)
    requires i <= n
    requires Shrunk(base, e, host, {generation})
    ensures Assemble(c, e, host, generation, i, n, taken).None?
         || Assemble(c, e, host, generation, i, n, taken) == Assemble(c, base, host, generation, i, n, taken)
    decreases n - i
  {
    if i < n && Chunk(host, generation, i) in e {
      assert e[Chunk(host, generation, i)] == base[Chunk(host, generation, i)];
      match ChunkPart(c, e, host, generation, i, |taken|)
      case None =>
      case Some(part) => AssembleShrunk(c, base, e, host, generation, i + 1, n, taken + part);
    }
  }

  /** Deleting some of the live chunks never yields another value: the old one, or a corrupt entry. */
  lemma LosingChunksNeverForgesAValue(c: Codec, base: Entries, e: Entries, host: string, m: Manifest)
    requires CurrentManifest(base, host) == Some(m)
    requires Shrunk(base, e, host, {m.generation})
    ensures View(c, e, host) in {View(c, base, host), Corrupt}
  {
    if Readable(m) {
      AssembleShrunk(c, base, e, host, m.generation, 0, m.chunks, []);
    }
  }

  lemma GrowingIsSafe(c: Codec, base: Entries, e: Entries, host: string, generation: string, n: nat,
                      used: set<string>, abandoned: set<string>)
    requires Sound(base, used, abandoned) && generation !in used
    requires Grown(base, e, host, generation, n)
    ensures Safe(c, base, e, host, View(c, base, host), used + {generation}, abandoned + {generation})
  {
    FreshGenerationAbsent(base, used, abandoned, generation);
    ViewFrame(c, base, e, host);
    forall a | a in e && a.Chunk?
      ensures a.generation in abandoned + {generation} || Named(e, a.host, a.generation, a.index)
    {
      assert CurrentManifest(e, a.host) == CurrentManifest(base, a.host);
    }
  }
}
