/**
 The OS keyring as the credential store sees it: accounts, the JSON documents
 stored under them, and three operations that may each fail without effect.
 */
module Keyring {
  import opened Prelude

  /** A keyring account: a host's primary entry, or one chunk of a generation. */
  datatype Account =
    | Primary(host: string)
    | Chunk(host: string, generation: string, index: nat)

  /** A superseded generation whose chunks still await cleanup. */
  datatype ChunkRef = ChunkRef(generation: string, chunks: int)

  datatype Manifest = Manifest(generation: string, chunks: int, previous: seq<ChunkRef>)

  /** A stored value, already parsed: a payload's own JSON bytes, a version-2 manifest, or one chunk. */
  datatype Document =
    | Inline(payload: Bytes)
    | ManifestDoc(manifest: Manifest)
    | ChunkDoc(index: nat, data: string)

  type Entries = map<Account, Document>

  /** The largest value a keyring entry may hold on Windows. */
  const ENTRY_LIMIT := 2560

  // ---------------------------------------------------------------- account names

  /** The account's name in the keyring. */
  function AccountName(a: Account): string {
    match a
    case Primary(host) => host
    case Chunk(host, generation, index) => host + "#" + generation + "#" + Decimal(index)
  }

  lemma SplitAtFirst(a: string, x: string, b: string, y: string)
    requires '#' !in a && '#' !in b
    requires a + "#" + x == b + "#" + y
    ensures a == b && x == y
  {
    var left, right := a + "#" + x, b + "#" + y;
    assert left[|a|] == '#' && right[|b|] == '#';
    assert left[..|a|] == a && right[..|b|] == b;
    assert left[|a| + 1..] == x && right[|b| + 1..] == y;
  }

  lemma SplitAtLast(a: string, x: string, b: string, y: string)
    requires '#' !in x && '#' !in y
    requires a + "#" + x == b + "#" + y
    ensures a == b && x == y
  {
    var left, right := a + "#" + x, b + "#" + y;
    assert left[|a|] == '#' && right[|b|] == '#';
    assert left[..|a|] == a && right[..|b|] == b;
    assert left[|a| + 1..] == x && right[|b| + 1..] == y;
  }

  /**
   Distinct accounts of `#`-free hosts have distinct names, whatever the
   generation ids contain, so keying the entries by account loses nothing.
   */
  lemma AccountNameInjective(a: Account, b: Account)
    requires '#' !in a.host && '#' !in b.host
    requires AccountName(a) == AccountName(b)
    ensures a == b
  {
    if a.Chunk? {
      assert AccountName(a)[|a.host|] == '#';
    }
    if b.Chunk? {
      assert AccountName(b)[|b.host|] == '#';
    }
    if a.Chunk? && b.Chunk? {
      var Chunk(h, g, i) := a;
      var Chunk(h', g', i') := b;
      assert h + "#" + (g + "#" + Decimal(i)) == AccountName(a) == AccountName(b)
          == h' + "#" + (g' + "#" + Decimal(i'));
      SplitAtFirst(h, g + "#" + Decimal(i), h', g' + "#" + Decimal(i'));
      SplitAtLast(g, Decimal(i), g', Decimal(i'));
      DecimalInjective(i, i');
    }
  }

  // ---------------------------------------------------------------- JSON text

  function IntText(n: int): string {
    if n < 0 then "-" + Decimal(-n) else Decimal(n)
  }

  function RefText(r: ChunkRef): string {
    "{\"generation\":\"" + r.generation + "\",\"chunks\":" + IntText(r.chunks) + "}"
  }

  function RefsText(refs: seq<ChunkRef>): string {
    if refs == [] then ""
    else if |refs| == 1 then RefText(refs[0])
    else RefText(refs[0]) + "," + RefsText(refs[1..])
  }

  /** The manifest's JSON; an empty `previous` is omitted. */
  function ManifestText(m: Manifest): string {
    "{\"version\":2,\"generation\":\"" + m.generation + "\",\"chunks\":" + IntText(m.chunks)
    + (if m.previous == [] then "" else ",\"previous\":[" + RefsText(m.previous) + "]") + "}"
  }

  function ChunkText(index: nat, data: string): string {
    "{\"index\":" + Decimal(index) + ",\"data\":\"" + data + "\"}"
  }

  /** The number of bytes the document takes in the keyring. */
  function StoredSize(d: Document): nat {
    match d
    case Inline(data) => |data|
    case ManifestDoc(m) => |ManifestText(m)|
    case ChunkDoc(index, data) => |ChunkText(index, data)|
  }

  // ---------------------------------------------------------------- the backend

  datatype SetResult = SetDone | SetTooLarge | SetFailed
  datatype GetResult = Got(document: Document) | GetNotFound | GetFailed
  datatype DeleteResult = Deleted | DeleteNotFound | DeleteFailed

  /**
   A keyring whose every call may fail with no effect. `history` records the
   entries after each call, so a crash can be examined at every point, and
   `failures` counts the calls that failed for no reason of the caller's.
   */
  class Keyring {
    var entries: Entries
    ghost var history: seq<Entries>
    ghost var failures: nat

    constructor ()
      ensures entries == map[] && history == [] && failures == 0
    {
      entries, history, failures := map[], [], 0;
    }

    method Set(a: Account, d: Document) returns (r: SetResult)
      modifies this
      ensures entries == if r.SetDone? then old(entries)[a := d] else old(entries)
      ensures r.SetTooLarge? <==> StoredSize(d) > ENTRY_LIMIT
      ensures failures == old(failures) + if r.SetFailed? then 1 else 0
      ensures history == old(history) + [entries]
    {
      var works: bool := *;
      if StoredSize(d) > ENTRY_LIMIT {
        r := SetTooLarge;
      } else if works {
        entries := entries[a := d];
        r := SetDone;
      } else {
        failures := failures + 1;
        r := SetFailed;
      }
      history := history + [entries];
    }

    method Get(a: Account) returns (r: GetResult)
      modifies this`failures
      ensures r.Got? ==> a in entries && r.document == entries[a]
      ensures r.GetNotFound? ==> a !in entries
      ensures failures == old(failures) + if r.GetFailed? then 1 else 0
    {
      var works: bool := *;
      if !works {
        failures := failures + 1;
        r := GetFailed;
      } else if a in entries {
        r := Got(entries[a]);
      } else {
        r := GetNotFound;
      }
    }

    method Delete(a: Account) returns (r: DeleteResult)
      modifies this
      ensures entries == if r.Deleted? then old(entries) - {a} else old(entries)
      ensures r.Deleted? ==> a in old(entries)
      ensures r.DeleteNotFound? ==> a !in old(entries)
      ensures failures == old(failures) + if r.DeleteFailed? then 1 else 0
      ensures history == old(history) + [entries]
    {
      var works: bool := *;
      if !works {
        failures := failures + 1;
        r := DeleteFailed;
      } else if a in entries {
        entries := entries - {a};
        r := Deleted;
      } else {
        r := DeleteNotFound;
      }
      history := history + [entries];
    }
  }
}
