/** When a path can be created, copied to, renamed to, opened or deleted: in terms of the
    paths in use, not of the walk that finds out. */
module CentralNames {
  import opened Core
  import opened Paths
  import opened DirTree
  import opened CentralTables
  import opened CentralModel
  import opened CentralRuns

  ghost predicate FileNamed(t: Tables, path: string)
    requires TablesOk(t)
  {
    exists f :: f in t.files && FilePath(t, f) == path
  }

  ghost predicate DirNamed(t: Tables, path: string)
    requires TablesOk(t)
  {
    exists d :: d in t.dirs && DirPath(t.dirs, d) == path
  }

  /** No directory on the way is a file. */
  ghost predicate WayFree(t: Tables, names: seq<string>)
    requires TablesOk(t)
  {
    forall k :: 0 < k <= |names| ==> !FileNamed(t, PathOf(names[..k]))
  }

  /** The path is a valid one, no directory on its way is a file, and neither a directory
      nor a file other than `existing` has it. */
  ghost predicate CanPlace(t: Tables, path: string, existing: Option<nat>)
    requires TablesOk(t)
  {
    && Target(path).Ok? && WayFree(t, Target(path).value.0) && !DirNamed(t, path)
    && forall f :: f in t.files && FilePath(t, f) == path ==> Some(f) == existing
  }

  lemma {:induction false} WaySnoc(t: Tables, init: seq<string>, last: string)
    requires TablesOk(t)
    ensures WayFree(t, init + [last]) <==> WayFree(t, init) && !FileNamed(t, PathOf(init + [last]))
  {
    var names := init + [last];
    assert names[..|names|] == names;
    assert forall k :: 0 < k <= |init| ==> names[..k] == init[..k];
    if WayFree(t, names) {
      forall k | 0 < k <= |init| ensures !FileNamed(t, PathOf(init[..k])) { assert names[..k] == init[..k]; }
    }
    if WayFree(t, init) && !FileNamed(t, PathOf(names)) {
      forall k | 0 < k <= |names| ensures !FileNamed(t, PathOf(names[..k])) {
        if k <= |init| { assert names[..k] == init[..k]; }
      }
    }
  }

  /** A file has the path `init`/`last` exactly when it is called `last` in the directory of
      path `init`. */
  lemma {:induction false} NamedHere(t: Tables, init: seq<string>, last: string, f: nat)
    requires TablesOk(t) && ValidNames(init) && ValidName(last) && f in t.files
    ensures FilePath(t, f) == PathOf(init + [last]) <==>
      NamesOf(t.dirs, t.files[f].dirId) == init && t.files[f].name == last
  {
    var names, name := NamesOf(t.dirs, t.files[f].dirId), t.files[f].name;
    PathOfSnoc(names, name);
    ComponentsOfPath(names + [name]);
    ComponentsOfPath(init + [last]);
    if names + [name] == init + [last] {
      assert (names + [name])[..|names|] == names && (init + [last])[..|init|] == init;
      assert (names + [name])[|names|] == name && (init + [last])[|init|] == last;
    }
  }

  /** After the directories of a path were made, its file query finds exactly the file that
      had the path before. */
  lemma {:induction false} QueryIff(t: Tables, init: seq<string>, d: Dirs, p: nat, last: string, f: nat)
    requires TablesOk(t) && ValidNames(init) && ValidName(last) && f in t.files
    requires MakeDirs(t.dirs, t.files, init) == Ok((d, p)) && Made(t.dirs, t.files, init, d, p)
    ensures IsFileAt(t.files, p, last, f) <==> FilePath(t, f) == PathOf(init + [last])
  {
    NamedHere(t, init, last, f);
    var dirId := t.files[f].dirId;
    if dirId == p { NamesStable(t.dirs, d, p); }
    if NamesOf(t.dirs, dirId) == init {
      UpThenDown(t.dirs, dirId);
      MakeExisting(t.dirs, t.files, init);
    }
  }

  /** Likewise its directory query. */
  lemma {:induction false} ChildIff(t: Tables, init: seq<string>, d: Dirs, p: nat, last: string)
    requires TablesOk(t) && ValidNames(init) && ValidName(last)
    requires MakeDirs(t.dirs, t.files, init) == Ok((d, p)) && Made(t.dirs, t.files, init, d, p)
    ensures Child(d, p, last).Some? <==> DirNamed(t, PathOf(init + [last]))
  {
    if Child(d, p, last).Some? {
      var id := Child(d, p, last).value;
      MadeBefore(t.dirs, t.files, init, d, p, last, id);
      NamesStable(t.dirs, d, id);
      assert DirPath(t.dirs, id) == PathOf(init + [last]);
    }
    if id :| id in t.dirs && DirPath(t.dirs, id) == PathOf(init + [last]) { DirIsChild(t, init, d, p, last, id); }
  }

  lemma {:induction false} DirIsChild(t: Tables, init: seq<string>, d: Dirs, p: nat, last: string, id: nat)
    requires TablesOk(t) && ValidNames(init) && ValidName(last) && id in t.dirs && DirPath(t.dirs, id) == PathOf(init + [last])
    requires MakeDirs(t.dirs, t.files, init) == Ok((d, p))
    ensures IsChild(d, p, last, id)
  {
    assert ValidNames(init + [last]);
    ComponentsOfPath(init + [last]);
    ComponentsOfPath(NamesOf(t.dirs, id));
    assert id != ROOT && RowOk(t.dirs, id);
    var q := t.dirs[id].parent.value;
    assert (NamesOf(t.dirs, q) + [t.dirs[id].name])[..|NamesOf(t.dirs, q)|] == NamesOf(t.dirs, q);
    assert (init + [last])[..|init|] == init && (init + [last])[|init|] == last;
    UpThenDown(t.dirs, q);
    MakeExisting(t.dirs, t.files, init);
  }

  /** Whether a query for another file than `existing` finds one, by paths. */
  lemma {:induction false} TakenIff(t: Tables, init: seq<string>, d: Dirs, p: nat, last: string, existing: Option<nat>)
    requires TablesOk(t) && ValidNames(init) && ValidName(last)
    requires MakeDirs(t.dirs, t.files, init) == Ok((d, p)) && Made(t.dirs, t.files, init, d, p)
    ensures Taken(d, t.files, p, last, existing) <==>
      (DirNamed(t, PathOf(init + [last])) || exists f :: f in t.files && FilePath(t, f) == PathOf(init + [last]) && Some(f) != existing)
  {
    ChildIff(t, init, d, p, last);
    if FileAt(t.files, p, last).Some? {
      var f := FileAt(t.files, p, last).value;
      assert IsFileAt(t.files, p, last, f);
      QueryIff(t, init, d, p, last, f);
    }
    if f :| f in t.files && FilePath(t, f) == PathOf(init + [last]) && Some(f) != existing {
      QueryIff(t, init, d, p, last, f);
      FileAtIs(t.files, f);
    }
  }

  /** Directories can be made exactly when no directory on the way is a file. */
  lemma {:induction false} MakeDirsIff(t: Tables, names: seq<string>)
    requires TablesOk(t) && ValidNames(names)
    ensures MakeDirs(t.dirs, t.files, names).Ok? <==> WayFree(t, names)
  {
    if names != [] {
      var init, last := names[..|names| - 1], names[|names| - 1];
      assert names == init + [last] && ValidName(last);
      MakeDirsIff(t, init);
      WaySnoc(t, init, last);
      if MakeDirs(t.dirs, t.files, init).Ok? {
        OneMoreIff(t, init, last);
      } else {
        MakeSnocFails(t.dirs, t.files, init, last);
      }
    }
  }

  lemma {:induction false} MakeSnocFails(dirs: Dirs, files: Files, init: seq<string>, last: string)
    requires MakeDirs(dirs, files, init).Err?
    ensures MakeDirs(dirs, files, init + [last]).Err?
  {
    assert (init + [last])[..|init|] == init;
  }

  lemma {:induction false} MakeSnoc(dirs: Dirs, files: Files, init: seq<string>, last: string, d: Dirs, p: nat)
    requires MakeDirs(dirs, files, init) == Ok((d, p))
    ensures MakeDirs(dirs, files, init + [last]).Ok? <==> (Child(d, p, last).Some? || !Taken(d, files, p, last, None))
  {
    assert (init + [last])[..|init|] == init;
  }

  lemma {:induction false} OneMoreIff(t: Tables, init: seq<string>, last: string)
    requires TablesOk(t) && ValidNames(init) && ValidName(last) && MakeDirs(t.dirs, t.files, init).Ok?
    ensures MakeDirs(t.dirs, t.files, init + [last]).Ok? <==> !FileNamed(t, PathOf(init + [last]))
  {
    var (d, p) := MakeDirs(t.dirs, t.files, init).value;
    MakeDirsOk(t.dirs, t.files, init);
    MakeSnoc(t.dirs, t.files, init, last, d, p);
    LastDirIff(t, init, d, p, last);
  }

  lemma {:induction false} LastDirIff(t: Tables, init: seq<string>, d: Dirs, p: nat, last: string)
    requires TablesOk(t) && ValidNames(init) && ValidName(last)
    requires MakeDirs(t.dirs, t.files, init) == Ok((d, p)) && Made(t.dirs, t.files, init, d, p)
    ensures Child(d, p, last).Some? || !Taken(d, t.files, p, last, None) <==> !FileNamed(t, PathOf(init + [last]))
  {
    TakenIff(t, init, d, p, last, None);
    ChildIff(t, init, d, p, last);
    if f :| f in t.files && FilePath(t, f) == PathOf(init + [last]) { PathsApart(t, f); }
  }

  /** A place for a path is granted exactly when the path can be placed. */
  lemma {:induction false} PlaceIff(t: Tables, path: string, existing: Option<nat>)
    requires TablesOk(t)
    ensures MakePlace(t, path, existing).Ok? <==> CanPlace(t, path, existing)
  {
    if Target(path).Ok? {
      var (names, name) := Target(path).value;
      MakeDirsIff(t, names);
      PathOfSnoc(names, name);
      if MakeDirs(t.dirs, t.files, names).Ok? {
        var (d, p) := MakeDirs(t.dirs, t.files, names).value;
        MakeDirsOk(t.dirs, t.files, names);
        TakenIff(t, names, d, p, name, existing);
      }
    }
  }

  /** A rename succeeds if and only if the file exists and the path can be placed, where the
      file may keep its own path. */
  lemma {:induction false} RenameAcceptedIff(t: Tables, fileId: nat, path: string, now: nat)
    requires TablesOk(t)
    ensures RenameFile(t, fileId, path, now).Ok? <==>
      CanPlace(t, path, Some(fileId)) && fileId in t.files && fileId <= I64_MAX
  {
    PlaceIff(t, path, Some(fileId));
  }

  /** A copy succeeds if and only if the source exists and the path can be placed. */
  lemma {:induction false} CopyAcceptedIff(t: Tables, source: nat, path: string, now: nat)
    requires TablesOk(t)
    ensures CopyFile(t, source, path, now).Ok? <==>
      CanPlace(t, path, None) && source in t.files && source <= I64_MAX
  {
    PlaceIff(t, path, None);
  }

  /** A begin on an existing file succeeds if and only if the offset is within it and no
      unexpired lease is on it. */
  lemma {:induction false} BeginExistingIff(t: Tables, f: nat, offset: nat, volumeId: nat, now: nat)
    requires TablesOk(t) && f in t.files
    ensures BeginUpdate(t, FilePath(t, f), offset, volumeId, now).Ok? <==>
      offset <= t.files[f].size && forall l :: l in t.leases && t.leases[l].fileId == f ==> t.leases[l].expiresAt <= now
  {
    PathFinds(t, f);
    var leases := Unexpired(t.leases, now);
    if HasLease(leases, f) {
      var l :| l in leases && leases[l].fileId == f;
      assert l in t.leases && now < t.leases[l].expiresAt;
    }
    if l :| l in t.leases && t.leases[l].fileId == f && now < t.leases[l].expiresAt {
      assert l in leases && leases[l].fileId == f;
    }
  }

  /** A begin on a path without a file succeeds if and only if it starts at 0 and the path
      can be placed. */
  lemma {:induction false} BeginNewIff(t: Tables, path: string, offset: nat, volumeId: nat, now: nat)
    requires TablesOk(t) && !FileNamed(t, path)
    ensures BeginUpdate(t, path, offset, volumeId, now).Ok? <==> offset == 0 && CanPlace(t, path, None)
  {
    PlaceIff(t, path, None);
    if GetFileByPath(t, path).Ok? { LookupFinds(t, path, GetFileByPath(t, path).value); }
    if OpenFile(t, path, offset, now).Ok? {
      var (t1, f) := OpenFile(t, path, offset, now).value;
      NewFileUnleased(t, f);
    }
  }

  lemma {:induction false} NewFileUnleased(t: Tables, f: nat)
    requires TablesOk(t) && f == t.nextFileId
    ensures f !in t.files && forall now: nat :: !HasLease(Unexpired(t.leases, now), f)
  {
    forall l | l in t.leases ensures t.leases[l].fileId != f { assert LeaseOk(t.files, t.leases[l]); }
  }

  /** A delete succeeds if and only if the file exists; then its path is free, and its
      bundle list and its lease are gone, all other leases are kept, and the folded log
      forgets the file. */
  lemma {:induction false} DeleteRemoves(t: Tables, fileId: nat, now: nat)
    requires TablesOk(t)
    ensures DeleteFile(t, fileId, now).Ok? <==> fileId in t.files && fileId <= I64_MAX
    ensures DeleteFile(t, fileId, now).Ok? ==> var t1 := DeleteFile(t, fileId, now).value;
      && TablesOk(t1) && fileId !in t1.files && RowsOf(t1, fileId) == [] && fileId !in Fold(t1.log)
      && !FileNamed(t1, FilePath(t, fileId)) && !HasLease(t1.leases, fileId)
      && forall l :: l in t.leases && t.leases[l].fileId != fileId ==> l in t1.leases && t1.leases[l] == t.leases[l]
  {
    if DeleteFile(t, fileId, now).Ok? {
      DeleteKept(t, fileId, now);
      var t1 := DeleteFile(t, fileId, now).value;
      forall f | f in t1.files ensures FilePath(t1, f) != FilePath(t, fileId) {
        assert FilePath(t1, f) == FilePath(t, f);
        PathsApart(t, fileId);
      }
    }
  }
}
