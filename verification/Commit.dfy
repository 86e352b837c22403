/** Replace-by-rename: what a write over an existing remote file can lose, at any step and under any failure. */
module Commit {
  import opened Prelude
  import opened RemoteFiles

  /** The permission bits Lstat reports. */
  function Mode(node: Node): nat {
    match node
    case File(_, mode) => mode
    case Directory => 0x1ed
    case Link => 0x1ff
  }

  predicate IsDirectory(files: Files, path: string) {
    path in files && files[path].Directory?
  }

  /** The old entry is where it was, or, moved aside, under the backup name with nothing in its place. */
  ghost predicate OldKept(files: Files, before: Files, target: string, backup: string) {
    if target !in before then target !in files
    else if target in files then files[target] == before[target]
    else backup in files && files[backup] == before[target]
  }

  /** The target holds exactly the new data, with the mode of the entry it replaced. */
  ghost predicate NewPlaced(files: Files, before: Files, target: string, data: Bytes) {
    && target in files && files[target].File? && files[target].data == data
    && (target in before ==> files[target].mode == Mode(before[target]))
  }

  ghost predicate OnlyTouches(files: Files, before: Files, paths: set<string>) {
    files - paths == before - paths
  }

  /** From one state of the history on the new file is in place; before it the old one was kept. */
  ghost predicate Switches(history: seq<Files>, start: nat, commit: nat, before: Files,
                           target: string, tmp: string, backup: string, data: Bytes)
  {
    && start <= commit <= |history|
    && (forall k :: start <= k < commit ==> OldKept(history[k], before, target, backup))
    && (forall k :: commit <= k < |history| ==> NewPlaced(history[k], before, target, data))
    && (forall k :: start <= k < |history| ==> OnlyTouches(history[k], before, {target, tmp, backup}))
  }

  /** The history only grows. */
  ghost predicate Grows(before: seq<Files>, after: seq<Files>) {
    |before| <= |after| && after[..|before|] == before
  }

  lemma SwitchesOn(history: seq<Files>, next: Files, start: nat, commit: nat, before: Files,
                   target: string, tmp: string, backup: string, data: Bytes)
    requires Switches(history, start, commit, before, target, tmp, backup, data)
    requires OnlyTouches(next, before, {target, tmp, backup})
    ensures commit < |history| && NewPlaced(next, before, target, data) ==>
      Switches(history + [next], start, commit, before, target, tmp, backup, data)
    ensures commit == |history| && NewPlaced(next, before, target, data) ==>
      Switches(history + [next], start, commit, before, target, tmp, backup, data)
    ensures commit == |history| && OldKept(next, before, target, backup) ==>
      Switches(history + [next], start, commit + 1, before, target, tmp, backup, data)
  {
  }

  /** commitUpload: the temp is complete; before is the state the whole write started from. */
  method CommitUpload(fs: RemoteFs, tmp: string, target: string, backup: string, posix: bool, data: Bytes,
                      ghost before: Files, ghost start: nat)
    returns (ok: bool, ghost commit: nat)
    requires fs.Valid() && tmp != target && backup != tmp && backup != target
    requires tmp in fs.files && fs.files[tmp].File? && fs.files[tmp].data == data
    requires backup !in fs.files && tmp !in before && backup !in before
    requires fs.files - {tmp} == before
    requires Switches(fs.history, start, |fs.history|, before, target, tmp, backup, data)
    modifies fs
    ensures fs.Valid() && Grows(old(fs.history), fs.history)
    ensures Switches(fs.history, start, commit, before, target, tmp, backup, data)
    ensures ok <==> commit < |fs.history|
    ensures !ok ==> commit == |fs.history|
    ensures ok ==> target in fs.files && fs.files - {backup} == before[target := fs.files[target]]
    ensures !ok ==> OldKept(fs.files, before, target, backup)
    ensures !ok && target in fs.files ==> fs.files - {tmp} == before
    ensures target in before && before[target].Directory? ==> !ok && target in fs.files
    ensures fs.failures >= old(fs.failures)
    ensures fs.failures == old(fs.failures) ==> (ok <==> !IsDirectory(before, target))
    ensures fs.failures == old(fs.failures) && ok ==> backup !in fs.files
    ensures !ok && fs.failures <= old(fs.failures) + 1 ==> fs.files - {tmp} == before
    ensures !ok ==> tmp in fs.files && fs.files[tmp].File?
  {
    hide Switches;
    commit := |fs.history|;
    var st := fs.Lstat(target);
    TmpOnly(fs.files, before, tmp, target, backup);
    if st.Unknown? || (st.Found? && st.node.Directory?) {
      return false, commit;
    }
    if st.Absent? {
      ok := fs.Rename(tmp, target);
      Moved(old(fs.files), before, tmp, target, backup);
      SwitchesOn(old(fs.history), fs.files, start, commit, before, target, tmp, backup, data);
      commit := if ok then commit else |fs.history|;
      return;
    }
    ok := fs.Chmod(tmp, Mode(st.node));
    assert fs.files - {tmp} == before;
    TmpOnly(fs.files, before, tmp, target, backup);
    SwitchesOn(old(fs.history), fs.files, start, commit, before, target, tmp, backup, data);
    commit := |fs.history|;
    if !ok {
      return;
    }
    if posix {
      label L1:
      ok := fs.PosixRename(tmp, target);
      Moved(old@L1(fs.files), before, tmp, target, backup);
      SwitchesOn(old@L1(fs.history), fs.files, start, commit, before, target, tmp, backup, data);
      commit := if ok then commit else |fs.history|;
      return;
    }
    ok, commit := ReplaceAside(fs, tmp, target, backup, data, before, start);
  }

  /** With only the temp in addition, the old target is in place. */
  lemma TmpOnly(files: Files, before: Files, tmp: string, target: string, backup: string)
    requires tmp != target && tmp !in before && files - {tmp} == before
    ensures OldKept(files, before, target, backup)
    ensures OnlyTouches(files, before, {target, tmp, backup})
    ensures target in files <==> target in before
    ensures target in before ==> files[target] == before[target]
    ensures backup != tmp ==> (backup in files <==> backup in before)
  {
    assert target in files - {tmp} <==> target in before;
    assert backup != tmp ==> (backup in files - {tmp} <==> backup in before);
    assert files - {target, tmp, backup} == (files - {tmp}) - {target, backup};
    assert before - {target, tmp, backup} == before - {target, backup};
  }

  /** The temp moved over the target in one step. */
  lemma Moved(files: Files, before: Files, tmp: string, target: string, backup: string)
    requires tmp != target && backup != tmp && backup != target && tmp !in before && backup !in before
    requires tmp in files && files - {tmp} == before
    ensures var after := (files - {tmp})[target := files[tmp]];
      && after - {backup} == before[target := files[tmp]]
      && OnlyTouches(after, before, {target, tmp, backup})
  {
    var after := (files - {tmp})[target := files[tmp]];
    assert after == before[target := files[tmp]];
    assert backup !in after;
    assert after - {backup} == after;
    assert after - {target, tmp, backup} == before - {target, tmp, backup};
  }

  lemma MovedAside(files: Files, before: Files, tmp: string, target: string, backup: string)
    requires tmp != target && backup != tmp && backup != target && tmp !in before && backup !in before
    requires target in before && files - {tmp} == before && target in files
    ensures var after := (files - {target})[backup := files[target]];
      && OldKept(after, before, target, backup) && OnlyTouches(after, before, {target, tmp, backup})
      && (tmp in files ==> tmp in after && after[tmp] == files[tmp])
      && (after - {backup})[target := files[target]] == files
      && after - {tmp, backup} == before - {target}
  {
    TmpOnly(files, before, tmp, target, backup);
    var after := (files - {target})[backup := files[target]];
    assert after - {target, tmp, backup} == before - {target, tmp, backup};
    assert backup !in files;
    assert (after - {backup})[target := files[target]] == files;
    forall p ensures p in after - {tmp, backup} <==> p in before - {target} {
      assert p in files - {tmp} <==> p in before;
    }
    assert after - {tmp, backup} == before - {target};
  }

  lemma MovedIn(files: Files, before: Files, tmp: string, target: string, backup: string)
    requires tmp != target && backup != tmp && backup != target && target in before
    requires files - {tmp, backup} == before - {target} && tmp in files && backup in files
    ensures var after := (files - {tmp})[target := files[tmp]];
      && after - {backup} == before[target := files[tmp]]
      && OnlyTouches(after, before, {target, tmp, backup})
      && OnlyTouches(after - {backup}, before, {target, tmp, backup})
  {
    var after := (files - {tmp})[target := files[tmp]];
    var rest := before - {target};
    assert forall p :: p in files && p != tmp && p != backup ==> p in files - {tmp, backup};
    assert forall p :: p in files - {tmp, backup} ==> p in rest && rest[p] == files[p];
    assert forall p :: p in rest ==> p in files - {tmp, backup};
    assert forall p :: p in before && p != target ==> p in rest && rest[p] == before[p];
    assert after - {backup} == before[target := files[tmp]];
    assert after - {target, tmp, backup} == (after - {backup}) - {target, tmp, backup};
    assert before[target := files[tmp]] - {target, tmp, backup} == before - {target, tmp, backup};
    assert (after - {backup}) - {target, tmp, backup} == before - {target, tmp, backup};
  }

  /** Without the extension: aside, in, and the backup away; a failure to move in moves the old target back. */
  method ReplaceAside(fs: RemoteFs, tmp: string, target: string, backup: string, data: Bytes,
                      ghost before: Files, ghost start: nat)
    returns (ok: bool, ghost commit: nat)
    requires fs.Valid() && tmp != target && backup != tmp && backup != target
    requires target in before && !before[target].Directory? && tmp !in before && backup !in before
    requires tmp in fs.files && fs.files[tmp] == File(data, Mode(before[target]))
    requires fs.files - {tmp} == before
    requires Switches(fs.history, start, |fs.history|, before, target, tmp, backup, data)
    modifies fs
    ensures fs.Valid() && Grows(old(fs.history), fs.history)
    ensures Switches(fs.history, start, commit, before, target, tmp, backup, data)
    ensures ok <==> commit < |fs.history|
    ensures !ok ==> commit == |fs.history|
    ensures ok ==> target in fs.files && fs.files - {backup} == before[target := fs.files[target]]
    ensures !ok ==> OldKept(fs.files, before, target, backup)
    ensures !ok && target in fs.files ==> fs.files - {tmp} == before
    ensures fs.failures >= old(fs.failures)
    ensures fs.failures == old(fs.failures) ==> ok && backup !in fs.files
    ensures !ok && fs.failures <= old(fs.failures) + 1 ==> fs.files - {tmp} == before
    ensures !ok ==> tmp in fs.files && fs.files[tmp].File?
  {
    hide Switches, OnlyTouches;
    commit := |fs.history|;
    TmpOnly(fs.files, before, tmp, target, backup);
    MovedAside(fs.files, before, tmp, target, backup);
    ghost var files0, history0 := fs.files, fs.history;
    ok := fs.Rename(target, backup);
    SwitchesOn(history0, fs.files, start, commit, before, target, tmp, backup, data);
    commit := |fs.history|;
    if !ok {
      return;
    }
    ghost var files1, history1 := fs.files, fs.history;
    MovedIn(files1, before, tmp, target, backup);
    ok := fs.Rename(tmp, target);
    SwitchesOn(history1, fs.files, start, commit, before, target, tmp, backup, data);
    ghost var files2, history2 := fs.files, fs.history;
    if !ok {
      commit := |fs.history|;
      var restored := fs.Rename(backup, target);
      TmpOnly(files0, before, tmp, target, backup);
      SwitchesOn(history2, fs.files, start, commit, before, target, tmp, backup, data);
      commit := |fs.history|;
      return;
    }
    var removed := fs.Remove(backup);
    AfterRemove(files2, fs.files, before, target, tmp, backup, data);
    SwitchesOn(history2, fs.files, start, commit, before, target, tmp, backup, data);
  }

  lemma AfterRemove(files: Files, next: Files, before: Files, target: string, tmp: string, backup: string, data: Bytes)
    requires target != backup && NewPlaced(files, before, target, data)
    requires next == files || next == files - {backup}
    ensures NewPlaced(next, before, target, data)
    ensures next - {backup} == files - {backup}
  {
    assert (files - {backup}) - {backup} == files - {backup};
  }

  // ---------------------------------------------------------------- the whole write

  /** The temp file and whatever it holds so far leave the target alone. */
  lemma TempStep(files: Files, next: Files, before: Files, target: string, tmp: string, backup: string)
    requires tmp != target && tmp !in before && files - {tmp} == before
    requires next - {tmp} == files - {tmp}
    ensures next - {tmp} == before && OldKept(next, before, target, backup)
    ensures OnlyTouches(next, before, {target, tmp, backup})
  {
    TmpOnly(next, before, tmp, target, backup);
  }

  /** Removing the temp after a failure loses nothing of the old target. */
  method CleanUp(fs: RemoteFs, tmp: string, target: string, backup: string, data: Bytes, ghost before: Files, ghost start: nat)
    requires fs.Valid() && tmp != target && tmp != backup && tmp !in before
    requires Switches(fs.history, start, |fs.history|, before, target, tmp, backup, data)
    requires OldKept(fs.files, before, target, backup) && OnlyTouches(fs.files, before, {target, tmp, backup})
    modifies fs
    ensures fs.Valid() && Grows(old(fs.history), fs.history)
    ensures Switches(fs.history, start, |fs.history|, before, target, tmp, backup, data)
    ensures OldKept(fs.files, before, target, backup)
    ensures fs.files - {tmp} == old(fs.files) - {tmp}
    ensures fs.failures >= old(fs.failures)
    ensures fs.failures == old(fs.failures) && (tmp in old(fs.files) ==> !old(fs.files)[tmp].Directory?) ==> tmp !in fs.files
  {
    hide Switches;
    ghost var files0 := fs.files;
    var removed := fs.Remove(tmp);
    assert (files0 - {tmp}) - {tmp} == files0 - {tmp};
    assert (files0 - {tmp}) - {target, tmp, backup} == files0 - {target, tmp, backup};
    SwitchesOn(old(fs.history), fs.files, start, |old(fs.history)|, before, target, tmp, backup, data);
  }

  /** The temp is created, written and closed; `whole` means it holds all the data. */
  method WriteTemp(fs: RemoteFs, tmp: string, target: string, backup: string, data: Bytes)
    returns (created: bool, whole: bool)
    requires fs.Valid() && tmp != target && backup != tmp && backup != target
    requires tmp !in fs.files && backup !in fs.files
    modifies fs
    ensures fs.Valid() && Grows(old(fs.history), fs.history) && |fs.history| > |old(fs.history)|
    ensures Switches(fs.history, |old(fs.history)|, |fs.history|, old(fs.files), target, tmp, backup, data)
    ensures fs.files - {tmp} == old(fs.files) && backup !in fs.files
    ensures OldKept(fs.files, old(fs.files), target, backup)
    ensures OnlyTouches(fs.files, old(fs.files), {target, tmp, backup})
    ensures created ==> tmp in fs.files && fs.files[tmp].File?
    ensures !created ==> fs.files == old(fs.files) && !whole
    ensures whole ==> tmp in fs.files && fs.files[tmp].File? && fs.files[tmp].data == data
    ensures fs.failures >= old(fs.failures) + if whole then 0 else 1
  {
    ghost var before, start := fs.files, |fs.history|;
    assert before - {tmp} == before;
    assert Switches(fs.history, start, start, before, target, tmp, backup, data);
    hide Switches;
    ghost var history0 := fs.history;
    created := fs.Create(tmp);
    whole := false;
    assert fs.files - {tmp} == before;
    TempStep(before, fs.files, before, target, tmp, backup);
    SwitchesOn(history0, fs.files, start, start, before, target, tmp, backup, data);
    if !created {
      return;
    }
    ghost var files1, history1 := fs.files, fs.history;
    var n := fs.Write(tmp, data);
    assert fs.files - {tmp} == files1 - {tmp};
    TempStep(files1, fs.files, before, target, tmp, backup);
    SwitchesOn(history1, fs.files, start, |history1|, before, target, tmp, backup, data);
    if n.Some? && n.value == |data| {
      Complete(files1, fs.files, tmp, data, n);
      whole := fs.Close();
    }
  }

  /**
   writeTempAndCommit. At every step the target is the old entry, or moved aside to the
   backup, or exactly the new file; nothing but the target, the temp and the backup changes.
   */
  method WriteTempAndCommit(fs: RemoteFs, tmp: string, target: string, backup: string, posix: bool, data: Bytes)
    returns (ok: bool, ghost commit: nat)
    requires fs.Valid() && tmp != target && backup != tmp && backup != target
    requires tmp !in fs.files && backup !in fs.files
    modifies fs
    ensures fs.Valid() && Grows(old(fs.history), fs.history)
    ensures Switches(fs.history, |old(fs.history)|, commit, old(fs.files), target, tmp, backup, data)
    ensures ok <==> commit < |fs.history|
    ensures ok ==> target in fs.files && fs.files - {backup} == old(fs.files)[target := fs.files[target]]
    ensures !ok ==> OldKept(fs.files, old(fs.files), target, backup)
    ensures !ok && target in fs.files ==> fs.files - {tmp} == old(fs.files)
    ensures target in old(fs.files) && old(fs.files)[target].Directory? ==> !ok
    // a working server: the write succeeds unless the target is a directory, and leaves nothing of its own behind
    ensures fs.failures == old(fs.failures) ==> (ok <==> !IsDirectory(old(fs.files), target))
    ensures fs.failures == old(fs.failures) && ok ==>
              target in fs.files && fs.files == old(fs.files)[target := fs.files[target]]
    // one failure, or a directory: what had been done is undone
    ensures !ok && fs.failures <= old(fs.failures) + (if IsDirectory(old(fs.files), target) then 0 else 1) ==>
              fs.files == old(fs.files)
  {
    hide Switches, Grows, OldKept, OnlyTouches;
    ghost var before, start := fs.files, |fs.history|;
    var created, whole := WriteTemp(fs, tmp, target, backup, data);
    ok, commit := false, |fs.history|;
    GrowsTwice(old(fs.history), fs.history, fs.history);
    if !created {
      return;
    }
    ghost var history1 := fs.history;
    if whole {
      ok, commit := CommitUpload(fs, tmp, target, backup, posix, data, before, start);
      GrowsTwice(old(fs.history), history1, fs.history);
    }
    if ok {
      NoBackup(fs.files, backup);
      return;
    }
    ghost var files2, history2 := fs.files, fs.history;
    LastTouches(fs.history, start, commit, before, target, tmp, backup, data);
    CleanUp(fs, tmp, target, backup, data, before, start);
    GrowsTwice(old(fs.history), history2, fs.history);
    TargetStays(files2, fs.files, tmp, target);
    if tmp !in fs.files && fs.files - {tmp} == before {
      NothingLeft(fs.files, before, tmp);
    }
    commit := |fs.history|;
  }

  lemma GrowsTwice(a: seq<Files>, b: seq<Files>, c: seq<Files>)
    requires Grows(a, b)
    ensures Grows(b, c) ==> Grows(a, c)
    ensures Grows(b, b)
  {
  }

  lemma NoBackup(files: Files, backup: string)
    ensures backup !in files ==> files - {backup} == files
  {
  }

  lemma NothingLeft(files: Files, before: Files, tmp: string)
    requires files - {tmp} == before && tmp !in files
    ensures files == before
  {
    assert files - {tmp} == files;
  }

  lemma TargetStays(files: Files, next: Files, tmp: string, target: string)
    requires tmp != target && next - {tmp} == files - {tmp}
    ensures target in files <==> target in next
  {
    assert target in files - {tmp} <==> target in next - {tmp};
  }

  lemma Complete(before: Files, after: Files, tmp: string, data: Bytes, n: Option<nat>)
    requires WroteSome(before, after, tmp, data, n) && before[tmp].data == [] && n == Some(|data|)
    ensures tmp in after && after[tmp] == File(data, before[tmp].mode)
  {
    assert [] + data[..|data|] == data;
  }

  lemma LastTouches(history: seq<Files>, start: nat, commit: nat, before: Files,
                    target: string, tmp: string, backup: string, data: Bytes)
    requires Switches(history, start, commit, before, target, tmp, backup, data) && start < |history|
    ensures OnlyTouches(history[|history| - 1], before, {target, tmp, backup})
  {
  }
}
