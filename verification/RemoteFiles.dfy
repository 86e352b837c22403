/**
 The remote file system behind an SFTP client: every operation may fail without
 an effect, a write may fail half done, and each state is remembered. Failures
 that are not the caller's fault are counted, so what a working server does can
 be told apart.
 */
module RemoteFiles {
  import opened Prelude
  import opened RemotePath

  datatype Node = File(data: Bytes, mode: nat) | Directory | Link

  type Files = map<string, Node>

  datatype Stat = Found(node: Node) | Absent | Unknown

  /** Something lies below the path. */
  ghost predicate HasEntries(files: Files, path: string) {
    exists q :: q in files && q != path && WithinRoot(q, path)
  }

  /** The data, or a first part of it, was appended. */
  ghost predicate WroteSome(before: Files, after: Files, path: string, data: Bytes, n: Option<nat>) {
    && path in before && before[path].File?
    && exists k :: 0 <= k <= |data| && (n.Some? ==> n.value == k)
         && after == before[path := File(before[path].data + data[..k], before[path].mode)]
  }

  class RemoteFs {
    var files: Files
    /** The state after every operation, oldest first. */
    ghost var history: seq<Files>
    /** The operations that failed, or a write that stopped short, for no reason of the caller's. */
    ghost var failures: nat

    ghost predicate Valid()
      reads this
    {
      history != [] && history[|history| - 1] == files
    }

    constructor (files: Files)
      ensures Valid() && this.files == files && failures == 0
    {
      this.files := files;
      history := [files];
      failures := 0;
    }

    ghost method Record(failed: bool)
      modifies this`history, this`failures
      ensures history == old(history) + [files]
      ensures failures == old(failures) + if failed then 1 else 0
    {
      history := history + [files];
      failures := failures + if failed then 1 else 0;
    }

    method Lstat(path: string) returns (r: Stat)
      modifies this`failures
      ensures failures == old(failures) + if r.Unknown? then 1 else 0
      ensures r.Found? ==> path in files && r.node == files[path]
      ensures r.Absent? ==> path !in files
    {
      var fails := *;
      if fails {
        failures := failures + 1;
        return Unknown;
      }
      return if path in files then Found(files[path]) else Absent;
    }

    /** Opens a file for writing: a new one with some mode of the server's choice, or an old one emptied. */
    method Create(path: string) returns (ok: bool)
      requires Valid()
      modifies this
      ensures Valid() && history == old(history) + [files]
      ensures old(failures) <= failures <= old(failures) + 1
      ensures failures == old(failures) ==> (ok <==> path !in old(files) || old(files)[path].File?)
      ensures !ok ==> files == old(files)
      ensures ok ==> path in files && files[path].File? && files[path].data == []
      ensures ok ==> files == old(files)[path := files[path]]
    {
      var fails := *;
      ok := !fails && (path in files ==> files[path].File?);
      if ok {
        var mode: nat :| true;
        files := files[path := File([], if path in files then files[path].mode else mode)];
      }
      Record(fails);
    }

    /** Appends some of the data; all of it when there is no error and the count says so. */
    method Write(path: string, data: Bytes) returns (n: Option<nat>)
      requires Valid()
      modifies this
      ensures Valid() && history == old(history) + [files]
      ensures old(failures) <= failures <= old(failures) + 1
      ensures path !in old(files) || !old(files)[path].File? ==> n.None? && files == old(files)
      ensures path in old(files) && old(files)[path].File? ==>
                WroteSome(old(files), files, path, data, n) && (failures == old(failures) ==> n == Some(|data|))
    {
      if path !in files || !files[path].File? {
        Record(false);
        return None;
      }
      var fails := *;
      var k: nat :| k <= |data|;
      files := files[path := File(files[path].data + data[..k], files[path].mode)];
      n := if fails then None else Some(k);
      Record(fails || k < |data|);
    }

    method Close() returns (ok: bool)
      modifies this`failures
      ensures failures == old(failures) + if ok then 0 else 1
    {
      ok := *;
      if !ok {
        failures := failures + 1;
      }
    }

    method Chmod(path: string, mode: nat) returns (ok: bool)
      requires Valid()
      modifies this
      ensures Valid() && history == old(history) + [files]
      ensures old(failures) <= failures <= old(failures) + 1
      ensures failures == old(failures) ==> (ok <==> path in old(files))
      ensures !ok ==> files == old(files)
      ensures ok ==> path in old(files)
      ensures ok && old(files)[path].File? ==> files == old(files)[path := File(old(files)[path].data, mode)]
      ensures ok && !old(files)[path].File? ==> files == old(files)
    {
      var fails := *;
      ok := !fails && path in files;
      if ok && files[path].File? {
        files := files[path := File(files[path].data, mode)];
      }
      Record(fails);
    }

    /** SSH_FXP_RENAME refuses an existing target; only files and links are renamed here. */
    method Rename(source: string, target: string) returns (ok: bool)
      requires Valid() && (source in files ==> !files[source].Directory?)
      modifies this
      ensures Valid() && history == old(history) + [files]
      ensures old(failures) <= failures <= old(failures) + 1
      ensures failures == old(failures) ==> (ok <==> source in old(files) && target !in old(files))
      ensures !ok ==> files == old(files)
      ensures ok ==> source in old(files) && target !in old(files)
      ensures ok ==> files == (old(files) - {source})[target := old(files)[source]]
    {
      var fails := *;
      ok := !fails && source in files && target !in files;
      if ok {
        files := (files - {source})[target := files[source]];
      }
      Record(fails);
    }

    /** posix-rename@openssh.com replaces an existing file in one step. */
    method PosixRename(source: string, target: string) returns (ok: bool)
      requires Valid() && (source in files ==> !files[source].Directory?)
      modifies this
      ensures Valid() && history == old(history) + [files]
      ensures old(failures) <= failures <= old(failures) + 1
      ensures failures == old(failures) ==>
                (ok <==> source in old(files) && (target in old(files) ==> !old(files)[target].Directory?))
      ensures !ok ==> files == old(files)
      ensures ok ==> source in old(files) && (target in old(files) ==> !old(files)[target].Directory?)
      ensures ok ==> files == (old(files) - {source})[target := old(files)[source]]
    {
      var fails := *;
      ok := !fails && source in files && (target in files ==> !files[target].Directory?);
      if ok {
        files := (files - {source})[target := files[source]];
      }
      Record(fails);
    }

    /** Removes a file or a link, or a directory nothing lies below. */
    method Remove(path: string) returns (ok: bool)
      requires Valid()
      modifies this
      ensures Valid() && history == old(history) + [files]
      ensures old(failures) <= failures <= old(failures) + 1
      ensures failures == old(failures) ==>
                (ok <==> path in old(files) && (old(files)[path].Directory? ==> !HasEntries(old(files), path)))
      ensures !ok ==> files == old(files)
      ensures ok ==> path in old(files) && files == old(files) - {path}
      ensures ok && old(files)[path].Directory? ==> !HasEntries(old(files), path)
    {
      var fails := *;
      ok := !fails && path in files
        && (files[path].Directory? ==> forall q :: q in files && q != path ==> !WithinRoot(q, path));
      if ok {
        files := files - {path};
      }
      Record(fails);
    }

    method RemoveDirectory(path: string) returns (ok: bool)
      requires Valid()
      modifies this
      ensures Valid() && history == old(history) + [files]
      ensures old(failures) <= failures <= old(failures) + 1
      ensures failures == old(failures) ==>
                (ok <==> path in old(files) && old(files)[path].Directory? && !HasEntries(old(files), path))
      ensures !ok ==> files == old(files)
      ensures ok ==> path in old(files) && old(files)[path].Directory? && !HasEntries(old(files), path)
      ensures ok ==> files == old(files) - {path}
    {
      var fails := *;
      ok := !fails && path in files && files[path].Directory?
        && forall q :: q in files && q != path ==> !WithinRoot(q, path);
      if ok {
        files := files - {path};
      }
      Record(fails);
    }
  }
}
