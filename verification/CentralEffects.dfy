/** What each request writes and answers, row by row and with the numbers written out, and what
    the kinds in the change log tell. */
module CentralEffects {
  import opened Core
  import opened Paths
  import opened DirTree
  import opened CentralTables
  import opened CentralModel
  import opened CentralRuns
  import opened CentralNames
  import Replicas

  /* ---- Leases ---- */

  /** The lease is there, for the file, and not yet expired at the clock reading. */
  predicate Active(t: Tables, leaseId: nat, fileId: nat, at: nat) {
    leaseId in t.leases && t.leases[leaseId].fileId == fileId && at < t.leases[leaseId].expiresAt
  }

  /** Without an active lease a commit is a version conflict, and an abort finds nothing. */
  lemma {:induction false} NotActive(t: Tables, req: CommitRequest, at: nat, now: nat)
    requires TablesOk(t) && req.leaseId <= 0x7FFF_FFFF_FFFF_FFFF && req.fileId <= 0x7FFF_FFFF_FFFF_FFFF
    requires req.leaseId !in t.leases || t.leases[req.leaseId].fileId != req.fileId || t.leases[req.leaseId].expiresAt <= at
    ensures CommitUpdate(t, req, at, now) == Err(VersionConflict)
    ensures AbortUpdate(t, req.leaseId, req.fileId, at) == Err(NotFound)
  {}

  /** An abort removes an active lease and nothing else. */
  lemma {:induction false} AbortRemoves(t: Tables, leaseId: nat, fileId: nat, now: nat)
    ensures AbortUpdate(t, leaseId, fileId, now).Ok? <==>
      leaseId <= 0x7FFF_FFFF_FFFF_FFFF && fileId <= 0x7FFF_FFFF_FFFF_FFFF && Active(t, leaseId, fileId, now)
    ensures AbortUpdate(t, leaseId, fileId, now).Ok? ==> var t1 := AbortUpdate(t, leaseId, fileId, now).value;
      && t1.leases.Keys == t.leases.Keys - {leaseId} && (forall l :: l in t1.leases ==> t1.leases[l] == t.leases[l])
      && t1 == t.(leases := t1.leases)
    ensures leaseId > 0x7FFF_FFFF_FFFF_FFFF || fileId > 0x7FFF_FFFF_FFFF_FFFF ==>
      AbortUpdate(t, leaseId, fileId, now) == Err(IntegerConversion)
  {}

  /** After an abort the file can be begun again at any clock, and the lease is gone for good. */
  lemma {:induction false} BeginAfterAbort(t: Tables, leaseId: nat, fileId: nat, now: nat, offset: nat, volumeId: nat, later: nat)
    requires TablesOk(t) && AbortUpdate(t, leaseId, fileId, now).Ok?
    ensures var t1 := AbortUpdate(t, leaseId, fileId, now).value;
      && TablesOk(t1) && fileId in t1.files
      && (BeginUpdate(t1, FilePath(t1, fileId), offset, volumeId, later).Ok? <==> offset <= t1.files[fileId].size)
      && AbortUpdate(t1, leaseId, fileId, later) == Err(NotFound)
  {
    var t1 := AbortUpdate(t, leaseId, fileId, now).value;
    AbortRemoves(t, leaseId, fileId, now);
    assert LeaseOk(t.files, t.leases[leaseId]) && OnlyLease(t.leases, fileId, leaseId);
    DropLeaseOk(t, leaseId);
    assert t1.leases == DropLease(t, leaseId).leases;
    BeginExistingIff(t1, fileId, offset, volumeId, later);
  }

  /* ---- Begin ---- */

  /** A begin drops every expired lease, keeps the others, and gives out one for a minute. A
      path without a file gets an empty one. Nothing else is written. */
  lemma {:induction false} BeginWrites(t: Tables, path: string, offset: nat, volumeId: nat, now: nat)
    requires TablesOk(t) && BeginUpdate(t, path, offset, volumeId, now).Ok?
    ensures var t1, l := BeginUpdate(t, path, offset, volumeId, now).value, t.nextLeaseId;
      && l in t1.leases && var f := t1.leases[l].fileId;
      && f in t1.files && t1.leases[l] == Lease(f, volumeId, t1.files[f].size, offset, now + 60_000)
      && t1.leases.Keys == (set k | k in t.leases && now < t.leases[k].expiresAt) + {l}
      && (forall k :: k in t1.leases && k != l ==> t1.leases[k] == t.leases[k]) && t1.nextLeaseId == l + 1
      && Opened(t, path, now, t1, f)
  {
    OpenKept(t, path, offset, now);
    OpenWrites(t, path, offset, now);
    var (t0, f) := OpenFile(t, path, offset, now).value;
    LeaseWrites(t0, f, offset, volumeId, now);
  }

  /** The file `f` is the one at the path, or a new and empty one; the lists, the replicas and
      the log are as before. */
  ghost predicate Opened(t: Tables, path: string, now: nat, t1: Tables, f: nat) {
    && t1.fileBundles == t.fileBundles && t1.replicas == t.replicas && t1.log == t.log
    && (if GetFileByPath(t, path).Ok? then
          f == GetFileByPath(t, path).value && t1.dirs == t.dirs && t1.files == t.files && t1.nextFileId == t.nextFileId
        else
          f == t.nextFileId && t1.nextFileId == f + 1 && t1.files.Keys == t.files.Keys + {f}
          && (forall g :: g in t.files && g != f ==> t1.files[g] == t.files[g])
          && t1.files[f] == FileRow(t1.files[f].dirId, t1.files[f].name, 0, 0, now, now))
  }

  lemma {:induction false} OpenWrites(t: Tables, path: string, offset: nat, now: nat)
    requires TablesOk(t) && OpenFile(t, path, offset, now).Ok?
    ensures var (t1, f) := OpenFile(t, path, offset, now).value;
      Opened(t, path, now, t1, f) && t1.leases == t.leases && t1.nextLeaseId == t.nextLeaseId
  {
    if GetFileByPath(t, path).Ok? { FoundIn(t, path); }
  }

  lemma {:induction false} LeaseWrites(t: Tables, f: nat, offset: nat, volumeId: nat, now: nat)
    requires f in t.files
    ensures var l, kept := t.nextLeaseId, t.(leases := Unexpired(t.leases, now));
      var t1 := AddLease(kept, Lease(f, volumeId, t.files[f].size, offset, now + UPDATE_LEASE_TTL_MS));
      && l in t1.leases && t1.leases[l] == Lease(f, volumeId, t.files[f].size, offset, now + 60_000)
      && t1.leases.Keys == (set k | k in t.leases && now < t.leases[k].expiresAt) + {l}
      && (forall k :: k in t1.leases && k != l ==> t1.leases[k] == t.leases[k]) && t1.nextLeaseId == l + 1
  {}

  /** Why a begin is refused. */
  lemma {:induction false} BeginRefused(t: Tables, path: string, offset: nat, volumeId: nat, now: nat)
    requires TablesOk(t) && BeginUpdate(t, path, offset, volumeId, now).Err?
    ensures var e, found := BeginUpdate(t, path, offset, volumeId, now).error, GetFileByPath(t, path);
      if found.Ok? then e == (if offset > t.files[found.value].size then InvalidRequest else AlreadyExists(path))
      else if Target(path).Err? then e == InvalidPath(path)
      else if offset != 0 then e == NotFound
      else PlaceRefused(t, path, e)
  {
    LookupRefused(t, path);
    if GetFileByPath(t, path).Ok? {
      LookupFinds(t, path, GetFileByPath(t, path).value);
    } else if Target(path).Ok? && offset == 0 {
      if MakePlace(t, path, None).Err? {
        PlaceError(t, path, None);
      } else {
        NewFileUnleased(t, t.nextFileId);
      }
    }
  }

  /** A lookup fails because the path is not a valid one, or because nothing is there. */
  lemma {:induction false} LookupRefused(t: Tables, path: string)
    ensures GetFileByPath(t, path).Ok? ==> Target(path).Ok?
    ensures GetFileByPath(t, path).Err? ==> GetFileByPath(t, path).error == if Target(path).Err? then InvalidPath(path) else NotFound
    ensures Target(path).Err? ==> Target(path).error == InvalidPath(path)
  {}

  /** The name is taken, or the first prefix that is a file is in the way. */
  ghost predicate PlaceRefused(t: Tables, path: string, e: Fs0Error)
    requires TablesOk(t) && Target(path).Ok?
  {
    var names := Target(path).value.0;
    || (e == AlreadyExists(path) && WayFree(t, names))
    || exists k :: 0 < k <= |names| && FirstFile(t, names, k) && e == AlreadyExists(PathOf(names[..k]))
  }

  ghost predicate FirstFile(t: Tables, names: seq<string>, k: nat)
    requires TablesOk(t) && 0 < k <= |names|
  {
    FileNamed(t, PathOf(names[..k])) && WayFree(t, names[..k - 1])
  }

  lemma {:induction false} PlaceError(t: Tables, path: string, existing: Option<nat>)
    requires TablesOk(t) && Target(path).Ok? && MakePlace(t, path, existing).Err?
    ensures PlaceRefused(t, path, MakePlace(t, path, existing).error)
  {
    var names := Target(path).value.0;
    MakeDirsIff(t, names);
    if MakeDirs(t.dirs, t.files, names).Err? { var k := MakeDirsError(t, names); }
  }

  lemma {:induction false} MakeDirsError(t: Tables, names: seq<string>) returns (k: nat)
    requires TablesOk(t) && ValidNames(names) && MakeDirs(t.dirs, t.files, names).Err?
    ensures 0 < k <= |names| && FirstFile(t, names, k) && MakeDirs(t.dirs, t.files, names).error == AlreadyExists(PathOf(names[..k]))
  {
    var n := |names|;
    var init, last := names[..n - 1], names[n - 1];
    assert names == init + [last] && names[..n] == names && ValidName(last);
    if MakeDirs(t.dirs, t.files, init).Err? {
      k := MakeDirsError(t, init);
      assert names[..k] == init[..k] && names[..k - 1] == init[..k - 1];
    } else {
      k := n;
      MakeDirsIff(t, init);
      OneMoreIff(t, init, last);
    }
  }

  /* ---- Commit ---- */

  /** Every other key keeps its value, or stays away. */
  ghost predicate OthersSame<A>(before: map<nat, A>, after: map<nat, A>, f: nat) {
    forall g :: g != f ==> (g in after <==> g in before) && (g in before ==> after[g] == before[g])
  }

  /** One change was appended: of this kind, for the file, with this path and time. */
  ghost predicate Logs(before: seq<Change>, after: seq<Change>, kind: ChangeKind, path: string, fileId: nat, at: nat) {
    && |after| == |before| + 1 && after[..|before|] == before
    && var c := after[|before|];
    && c.kind == kind && c.fileId == fileId && c.at == at
    && c.target.Some? && JoinPath(c.target.value.0, c.target.value.1) == path
  }

  /** A commit rewrites the file's row and bundle list, drops the lease, and logs the file as
      created if it was empty and as updated otherwise. Nothing else is written. */
  lemma {:induction false} CommitWritesThis(t: Tables, req: CommitRequest, checked: nat, now: nat)
    requires TablesOk(t) && CommitUpdate(t, req, checked, now).Ok?
    ensures var t1, f := CommitUpdate(t, req, checked, now).value, req.fileId;
      && Active(t, req.leaseId, f, checked) && f in t.files
      && var row := t.files[f];
      && f in t1.files && OthersSame(t.files, t1.files, f) && OthersSame(t.fileBundles, t1.fileBundles, f)
      && t1.files[f] == FileRow(row.dirId, row.name, req.newSize, CompressedSum(t.replicas, Numbered(req.bundles)), row.createdAt, now)
      && |RowsOf(t1, f)| == |req.bundles|
      && (forall i :: 0 <= i < |req.bundles| ==> RowsOf(t1, f)[i] == BundleRow(i, req.bundles[i].bundleId))
      && t1.leases.Keys == t.leases.Keys - {req.leaseId} && (forall l :: l in t1.leases ==> t1.leases[l] == t.leases[l])
      && Logs(t.log, t1.log, if row.size == 0 then Created else Updated, FilePath(t, f), f, now)
      && t1.dirs == t.dirs && t1.replicas == t.replicas && t1.nextFileId == t.nextFileId && t1.nextLeaseId == t.nextLeaseId
  {
    CommitAcceptedIff(t, req, checked, now);
    var compressed := CommitSizes(t, req, checked, now);
    CalculateIsSums(t.replicas, Numbered(req.bundles));
    CommitRows(t, req, compressed, now);
  }

  lemma {:induction false} CommitRows(t: Tables, req: CommitRequest, compressed: nat, now: nat)
    requires TablesOk(t) && req.fileId in t.files
    ensures var t1, f, row := CommitWrites(t, req, req.fileId, compressed, now), req.fileId, t.files[req.fileId];
      && f in t1.files && OthersSame(t.files, t1.files, f) && OthersSame(t.fileBundles, t1.fileBundles, f)
      && t1.files[f] == FileRow(row.dirId, row.name, req.newSize, compressed, row.createdAt, now)
      && |RowsOf(t1, f)| == |req.bundles|
      && (forall i :: 0 <= i < |req.bundles| ==> RowsOf(t1, f)[i] == BundleRow(i, req.bundles[i].bundleId))
      && t1.leases.Keys == t.leases.Keys - {req.leaseId} && (forall l :: l in t1.leases ==> t1.leases[l] == t.leases[l])
      && Logs(t.log, t1.log, if row.size == 0 then Created else Updated, FilePath(t, f), f, now)
      && t1.dirs == t.dirs && t1.replicas == t.replicas && t1.nextFileId == t.nextFileId && t1.nextLeaseId == t.nextLeaseId
  {}

  /** Why a commit is refused: the first check that fails. */
  lemma {:induction false} CommitRefused(t: Tables, req: CommitRequest, checked: nat, now: nat)
    requires TablesOk(t) && CommitUpdate(t, req, checked, now).Err?
    ensures var e := CommitUpdate(t, req, checked, now).error;
      if req.leaseId > 0x7FFF_FFFF_FFFF_FFFF || req.fileId > 0x7FFF_FFFF_FFFF_FFFF then e == IntegerConversion
      else if !Active(t, req.leaseId, req.fileId, checked) || t.leases[req.leaseId].baseSize != req.baseSize then e == VersionConflict
      else if req.newSize < t.leases[req.leaseId].offset then e == InvalidRequest
      else BundlesRefused(t, req, e)
  {
    if Active(t, req.leaseId, req.fileId, checked) && t.leases[req.leaseId].baseSize == req.baseSize {
      SizeConflictUnreachable(t, req);
    }
    SubmittedIsRawSum(t.replicas, req.bundles);
    CalculateIsSums(t.replicas, Numbered(req.bundles));
    if SubmittedSum(t.replicas, req.bundles).Err? {
      var i := FirstRefused(t.replicas, req.bundles);
    } else {
      SecondCheckRedundant(t.replicas, req.bundles);
      OnlyTooLarge(t.replicas, Numbered(req.bundles));
    }
  }

  /** The submitted bundles fail at the first unknown or wrong one, or do not add up, or do
      not fit a column. */
  ghost predicate BundlesRefused(t: Tables, req: CommitRequest, e: Fs0Error) {
    || (exists i :: 0 <= i < |req.bundles| && BundleRefused(t.replicas, req.bundles, i, e))
    || (LengthsMatch(t.replicas, req.bundles)
        && if RawSum(t.replicas, Numbered(req.bundles)) != req.newSize then e == InvalidRequest else e == IntegerConversion)
  }

  ghost predicate BundleRefused(replicas: Replicas.Table, bundles: seq<Submitted>, i: nat, e: Fs0Error)
    requires i < |bundles|
  {
    && LengthsMatch(replicas, bundles[..i])
    && match Replicas.LensOf(replicas, bundles[i].bundleId)
       case None => e == ChunkNotReady
       case Some(lens) =>
         if lens.raw != bundles[i].raw then e == InvalidRequest
         else e == IntegerConversion && RawSum(replicas, Numbered(bundles[..i])) + bundles[i].raw > 0xFFFF_FFFF_FFFF_FFFF
  }

  lemma {:induction false} FirstRefused(replicas: Replicas.Table, bundles: seq<Submitted>) returns (i: nat)
    requires SubmittedSum(replicas, bundles).Err?
    ensures i < |bundles| && BundleRefused(replicas, bundles, i, SubmittedSum(replicas, bundles).error)
  {
    var n := |bundles| - 1;
    var init := bundles[..n];
    if SubmittedSum(replicas, init).Err? {
      i := FirstRefused(replicas, init);
      assert bundles[..i] == init[..i];
    } else {
      i := n;
      SubmittedIsRawSum(replicas, init);
    }
  }

  /** When every bundle is known, adding the stored lengths up can only overflow. */
  lemma {:induction false} OnlyTooLarge(replicas: Replicas.Table, rows: seq<BundleRow>)
    requires AllReady(replicas, rows)
    ensures CalculateSize(replicas, rows).Err? ==> CalculateSize(replicas, rows).error == IntegerConversion
  {
    if rows != [] { OnlyTooLarge(replicas, rows[..|rows| - 1]); }
  }

  /* ---- Delete, copy, rename ---- */

  /** A delete logs itself and touches no directory, replica or counter. */
  lemma {:induction false} DeleteWrites(t: Tables, fileId: nat, now: nat)
    ensures DeleteFile(t, fileId, now).Ok? ==> var t1 := DeleteFile(t, fileId, now).value;
      && t1.files == t.files - {fileId} && t1.log == t.log + [Change(Deleted, None, fileId, now)]
      && OthersSame(t.fileBundles, t1.fileBundles, fileId)
      && t1.dirs == t.dirs && t1.replicas == t.replicas && t1.nextFileId == t.nextFileId && t1.nextLeaseId == t.nextLeaseId
    ensures DeleteFile(t, fileId, now).Err? ==>
      DeleteFile(t, fileId, now).error == if fileId > 0x7FFF_FFFF_FFFF_FFFF then IntegerConversion else NotFound
  {}

  /** A copy's row has the source's sizes and the time of the copy, its list is the source's,
      and it is logged as created. */
  lemma {:induction false} CopyWrites(t: Tables, source: nat, path: string, now: nat)
    requires TablesOk(t) && CopyFile(t, source, path, now).Ok?
    ensures var t1, f := CopyFile(t, source, path, now).value, t.nextFileId;
      && source in t.files && f !in t.files && f in t1.files && OthersSame(t.files, t1.files, f) && OthersSame(t.fileBundles, t1.fileBundles, f) && t1.nextFileId == f + 1
      && t1.files[f] == FileRow(t1.files[f].dirId, t1.files[f].name, t.files[source].size, t.files[source].compressed, now, now)
      && RowsOf(t1, f) == RowsOf(t, source) && Logs(t.log, t1.log, Created, path, f, now)
      && t1.leases == t.leases && t1.replicas == t.replicas && t1.nextLeaseId == t.nextLeaseId
  {
    PlaceOk(t, path, None);
    assert t.nextFileId !in t.files;
    var (d, p, name) := MakePlace(t, path, None).value;
    var row := FileRow(p, name, t.files[source].size, t.files[source].compressed, now, now);
    CopyIs(t, source, path, now, d, row);
    CopyRows(t.(dirs := d), row, RowsOf(t, source), now);
    assert JoinPath(DirPath(d, p), name) == path;
  }

  lemma {:induction false} CopyRows(t: Tables, row: FileRow, rows: seq<BundleRow>, now: nat)
    requires TreeOk(t.dirs) && row.dirId in t.dirs
    ensures var t1, f := Copied(t, row, rows, now), t.nextFileId;
      && f in t1.files && OthersSame(t.files, t1.files, f) && OthersSame(t.fileBundles, t1.fileBundles, f) && t1.nextFileId == f + 1 && t1.files[f] == row && RowsOf(t1, f) == rows
      && Logs(t.log, t1.log, Created, JoinPath(DirPath(t.dirs, row.dirId), row.name), f, now)
      && t1.leases == t.leases && t1.replicas == t.replicas && t1.nextLeaseId == t.nextLeaseId
  {}

  lemma {:induction false} CopyRefused(t: Tables, source: nat, path: string, now: nat)
    requires TablesOk(t) && CopyFile(t, source, path, now).Err?
    ensures var e := CopyFile(t, source, path, now).error;
      if Target(path).Err? then e == InvalidPath(path)
      else if source > 0x7FFF_FFFF_FFFF_FFFF then e == IntegerConversion
      else if source !in t.files then e == NotFound
      else PlaceRefused(t, path, e)
  {
    LookupRefused(t, path);
    if Target(path).Ok? && MakePlace(t, path, None).Err? { PlaceError(t, path, None); }
  }

  /** A rename writes the row's place and time, and is logged as moved. */
  lemma {:induction false} RenameWrites(t: Tables, fileId: nat, path: string, now: nat)
    requires TablesOk(t) && RenameFile(t, fileId, path, now).Ok?
    ensures var t1 := RenameFile(t, fileId, path, now).value;
      && fileId in t.files && fileId in t1.files && OthersSame(t.files, t1.files, fileId)
      && var row := t.files[fileId];
      && t1.files[fileId] == FileRow(t1.files[fileId].dirId, t1.files[fileId].name, row.size, row.compressed, row.createdAt, now)
      && Logs(t.log, t1.log, ChangeKind.Moved, path, fileId, now)
      && t1.fileBundles == t.fileBundles && t1.leases == t.leases && t1.replicas == t.replicas
      && t1.nextFileId == t.nextFileId && t1.nextLeaseId == t.nextLeaseId
  {
    PlaceOk(t, path, Some(fileId));
    var (d, p, name) := MakePlace(t, path, Some(fileId)).value;
    var row := t.files[fileId].(dirId := p, name := name, updatedAt := now);
    assert RenameFile(t, fileId, path, now).value == Relocated(t.(dirs := d), fileId, row, now);
    RenameRows(t.(dirs := d), fileId, row, now);
    assert JoinPath(DirPath(d, p), name) == path;
  }

  lemma {:induction false} RenameRows(t: Tables, fileId: nat, row: FileRow, now: nat)
    requires TreeOk(t.dirs) && row.dirId in t.dirs && fileId in t.files
    ensures var t1 := Relocated(t, fileId, row, now);
      && fileId in t1.files && OthersSame(t.files, t1.files, fileId) && t1.files[fileId] == row
      && Logs(t.log, t1.log, ChangeKind.Moved, JoinPath(DirPath(t.dirs, row.dirId), row.name), fileId, now)
      && t1.fileBundles == t.fileBundles && t1.leases == t.leases && t1.replicas == t.replicas
      && t1.nextFileId == t.nextFileId && t1.nextLeaseId == t.nextLeaseId
  {}

  lemma {:induction false} RenameRefused(t: Tables, fileId: nat, path: string, now: nat)
    requires TablesOk(t) && RenameFile(t, fileId, path, now).Err?
    ensures var e := RenameFile(t, fileId, path, now).error;
      if Target(path).Err? then e == InvalidPath(path)
      else if !CanPlace(t, path, Some(fileId)) then PlaceRefused(t, path, e)
      else if fileId > 0x7FFF_FFFF_FFFF_FFFF then e == IntegerConversion
      else e == NotFound
  {
    LookupRefused(t, path);
    PlaceIff(t, path, Some(fileId));
    if Target(path).Ok? && MakePlace(t, path, Some(fileId)).Err? { PlaceError(t, path, Some(fileId)); }
  }

  /* ---- Removing a directory ---- */

  /** Nothing lies in the directory: no directory and no file has it as its parent. */
  ghost predicate NothingIn(t: Tables, id: nat) {
    && (forall k :: k in t.dirs ==> t.dirs[k].parent != Some(id))
    && (forall f :: f in t.files ==> t.files[f].dirId != id)
  }

  /** A directory can be removed if and only if it exists, is not the root, and nothing lies in
      it; then its path is gone and every other directory keeps its own. */
  lemma {:induction false} RemoveDirIff(t: Tables, path: string)
    requires TablesOk(t)
    ensures RemoveDir(t, path).Ok? <==> path != "/" && exists id :: id in t.dirs && DirPath(t.dirs, id) == path && NothingIn(t, id)
    ensures RemoveDir(t, path).Ok? ==> var t1 := RemoveDir(t, path).value;
      && TablesOk(t1) && t1 == t.(dirs := t1.dirs) && !DirNamed(t1, path)
      && (forall k :: k in t.dirs && DirPath(t.dirs, k) != path ==> k in t1.dirs && DirPath(t1.dirs, k) == DirPath(t.dirs, k))
    ensures RemoveDir(t, path).Err? ==>
      RemoveDir(t, path).error == (
        if path == "/" then InvalidRequest
        else if SplitComponents(path).Err? then InvalidPath(path)
        else if !DirNamed(t, path) then NotFound
        else InvalidRequest)
  {
    if RemoveDir(t, path).Ok? { DirGone(t, path); }
    LeadsThere(t, path);
  }

  /** A path leads to a directory exactly when it is that directory's path. */
  lemma {:induction false} LeadsThere(t: Tables, path: string)
    requires TablesOk(t)
    ensures forall id :: id in t.dirs ==>
      (DirPath(t.dirs, id) == path <==> SplitComponents(path).Ok? && Resolve(t.dirs, SplitComponents(path).value) == Some(id))
    ensures SplitComponents(path).Ok? && Resolve(t.dirs, SplitComponents(path).value).Some? ==>
      Resolve(t.dirs, SplitComponents(path).value).value in t.dirs
  {
    if SplitComponents(path).Ok? && Resolve(t.dirs, SplitComponents(path).value).Some? {
      PathOfComponents(path);
      DownThenUp(t.dirs, SplitComponents(path).value);
    }
    forall id | id in t.dirs && DirPath(t.dirs, id) == path
      ensures SplitComponents(path).Ok? && Resolve(t.dirs, SplitComponents(path).value) == Some(id)
    {
      ComponentsOfPath(NamesOf(t.dirs, id));
      UpThenDown(t.dirs, id);
    }
  }

  lemma {:induction false} DirGone(t: Tables, path: string)
    requires TablesOk(t) && RemoveDir(t, path).Ok?
    ensures var t1 := RemoveDir(t, path).value;
      && TablesOk(t1) && t1 == t.(dirs := t1.dirs) && !DirNamed(t1, path)
      && (forall k :: k in t.dirs && DirPath(t.dirs, k) != path ==> k in t1.dirs && DirPath(t1.dirs, k) == DirPath(t.dirs, k))
  {
    var id := RemovedDir(t, path);
    RemoveKept(t, path);
    RemoveLeafOk(t.dirs, id);
    forall k | k in t.dirs && k != id ensures DirPath(t.dirs, k) != path {
      if DirPath(t.dirs, k) == path { SamePathSameDir(t.dirs, k, id); }
    }
  }

  /* ---- What the kinds in the log tell ---- */

  ghost predicate WasCreated(log: seq<Change>, upTo: nat, f: nat)
    requires upTo <= |log|
  {
    exists j :: 0 <= j < upTo && log[j].kind.Created? && log[j].fileId == f
  }

  /** One row of the log: only a delete has no path and nothing of the file follows it, and an
      update comes after a creation. */
  ghost predicate KindOk(log: seq<Change>, i: nat)
    requires i < |log|
  {
    && (log[i].kind.Deleted? <==> log[i].target.None?)
    && (log[i].kind.Updated? ==> WasCreated(log, i, log[i].fileId))
    && (log[i].kind.Deleted? ==> forall j :: i < j < |log| ==> log[j].fileId != log[i].fileId)
  }

  /** A file with contents was created; a deleted one is not there; ids are used once. */
  ghost predicate KindsOk(t: Tables) {
    && (forall i :: 0 <= i < |t.log| ==> KindOk(t.log, i))
    && (forall f :: f in t.files && t.files[f].size > 0 ==> WasCreated(t.log, |t.log|, f))
    && (forall i :: 0 <= i < |t.log| ==> t.log[i].fileId < t.nextFileId)
    && (forall i :: 0 <= i < |t.log| && t.log[i].kind.Deleted? ==> t.log[i].fileId !in t.files)
  }

  /** The files of `t1` are those of `t` or have new ids, and contents are old or just created. */
  ghost predicate FilesFollow(t: Tables, t1: Tables, created: Option<nat>) {
    && t.nextFileId <= t1.nextFileId
    && (forall f :: f in t1.files ==> f in t.files || f >= t.nextFileId)
    && (forall f :: f in t1.files && t1.files[f].size > 0 && Some(f) != created ==> f in t.files && t.files[f].size > 0)
  }

  lemma {:induction false} SilentKinds(t: Tables, t1: Tables)
    requires KindsOk(t) && t1.log == t.log && FilesFollow(t, t1, None)
    ensures KindsOk(t1)
  {}

  lemma {:induction false} LoggedKinds(t: Tables, t1: Tables, c: Change)
    requires KindsOk(t) && t1.log == t.log + [c] && FilesFollow(t, t1, if c.kind.Created? then Some(c.fileId) else None)
    requires c.fileId < t1.nextFileId && (c.fileId in t.files || c.fileId >= t.nextFileId)
    requires c.kind.Deleted? <==> c.target.None?
    requires c.kind.Updated? ==> c.fileId in t.files && t.files[c.fileId].size > 0
    requires c.kind.Deleted? ==> c.fileId !in t1.files
    ensures KindsOk(t1)
  {
    var n := |t.log|;
    assert t1.log[n] == c && t1.log[..n] == t.log;
    forall i | 0 <= i < n ensures KindOk(t1.log, i) {
      assert KindOk(t.log, i);
      if t1.log[i].kind.Updated? { CreatedStays(t.log, c, i, t.log[i].fileId); }
    }
    if c.kind.Updated? { CreatedStays(t.log, c, n, c.fileId); }
    assert KindOk(t1.log, n);
    forall f | f in t1.files && t1.files[f].size > 0 ensures WasCreated(t1.log, n + 1, f) {
      if c.kind.Created? && f == c.fileId {
        assert t1.log[n].kind.Created? && t1.log[n].fileId == f;
      } else {
        CreatedStays(t.log, c, n, f);
      }
    }
  }

  lemma {:induction false} CreatedStays(log: seq<Change>, c: Change, upTo: nat, f: nat)
    requires upTo <= |log| && WasCreated(log, upTo, f)
    ensures WasCreated(log + [c], upTo, f) && WasCreated(log + [c], |log| + 1, f)
  {
    var j :| 0 <= j < upTo && log[j].kind.Created? && log[j].fileId == f;
    assert (log + [c])[j] == log[j];
  }

  /** The one change a list of changes grew by. */
  lemma {:induction false} LastLogged(before: seq<Change>, after: seq<Change>, kind: ChangeKind, path: string, fileId: nat, at: nat)
    returns (c: Change)
    requires Logs(before, after, kind, path, fileId, at)
    ensures after == before + [c] && c.kind == kind && c.fileId == fileId && c.target.Some?
  {
    c := after[|before|];
    assert after == after[..|before|] + [c];
  }

  lemma {:induction false} BeginKinds(t: Tables, path: string, offset: nat, volumeId: nat, now: nat, t1: Tables)
    requires TablesOk(t) && KindsOk(t) && BeginUpdate(t, path, offset, volumeId, now) == Ok(t1)
    ensures KindsOk(t1)
  {
    BeginWrites(t, path, offset, volumeId, now);
    OpenedFollows(t, path, now, t1, t1.leases[t.nextLeaseId].fileId);
    SilentKinds(t, t1);
  }

  lemma {:induction false} OpenedFollows(t: Tables, path: string, now: nat, t1: Tables, f: nat)
    requires Opened(t, path, now, t1, f)
    ensures FilesFollow(t, t1, None) && t1.log == t.log
  {}

  lemma {:induction false} CommitKinds(t: Tables, req: CommitRequest, checked: nat, now: nat, t1: Tables)
    requires TablesOk(t) && KindsOk(t) && CommitUpdate(t, req, checked, now) == Ok(t1)
    ensures KindsOk(t1)
  {
    CommitWritesThis(t, req, checked, now);
    var kind := if t.files[req.fileId].size == 0 then Created else Updated;
    var c := LastLogged(t.log, t1.log, kind, FilePath(t, req.fileId), req.fileId, now);
    LoggedKinds(t, t1, c);
  }

  lemma {:induction false} CopyKinds(t: Tables, source: nat, path: string, now: nat, t1: Tables)
    requires TablesOk(t) && KindsOk(t) && CopyFile(t, source, path, now) == Ok(t1)
    ensures KindsOk(t1)
  {
    CopyWrites(t, source, path, now);
    var c := LastLogged(t.log, t1.log, Created, path, t.nextFileId, now);
    LoggedKinds(t, t1, c);
  }

  lemma {:induction false} RenameKinds(t: Tables, fileId: nat, path: string, now: nat, t1: Tables)
    requires TablesOk(t) && KindsOk(t) && RenameFile(t, fileId, path, now) == Ok(t1)
    ensures KindsOk(t1)
  {
    RenameWrites(t, fileId, path, now);
    var c := LastLogged(t.log, t1.log, ChangeKind.Moved, path, fileId, now);
    LoggedKinds(t, t1, c);
  }

  lemma {:induction false} DeleteKinds(t: Tables, fileId: nat, now: nat, t1: Tables)
    requires TablesOk(t) && KindsOk(t) && DeleteFile(t, fileId, now) == Ok(t1)
    ensures KindsOk(t1)
  {
    DeleteWrites(t, fileId, now);
    LoggedKinds(t, t1, Change(Deleted, None, fileId, now));
  }

  lemma {:induction false} RemoveKinds(t: Tables, path: string, t1: Tables)
    requires TablesOk(t) && KindsOk(t) && RemoveDir(t, path) == Ok(t1)
    ensures KindsOk(t1)
  {
    RemoveDirIff(t, path);
    SilentKinds(t, t1);
  }

  lemma {:induction false} KindsKept(t: Tables, request: Request, now: nat)
    requires TablesOk(t) && KindsOk(t)
    ensures KindsOk(Next(t, request, now))
  {
    if Apply(t, request, now).Ok? {
      var t1 := Apply(t, request, now).value;
      match request
      case Begin(path, offset, volumeId) => BeginKinds(t, path, offset, volumeId, now, t1);
      case Drop(_) => SilentKinds(t, t1);
      case Abort(leaseId, fileId) => AbortRemoves(t, leaseId, fileId, now); SilentKinds(t, t1);
      case Report(_, _, _) => SilentKinds(t, t1);
      case Remove(path) => RemoveKinds(t, path, t1);
      case Commit(req, checked) => CommitKinds(t, req, checked, now, t1);
      case Delete(fileId) => DeleteKinds(t, fileId, now, t1);
      case Copy(fileId, path) => CopyKinds(t, fileId, path, now, t1);
      case Rename(fileId, path) => RenameKinds(t, fileId, path, now, t1);
    }
  }

  /** Over every run: a row of the log has no path exactly when it is a delete, after which the
      file never comes up again; an update follows a creation of the same file; and every file
      with contents was created. */
  lemma {:induction false} KindsOverRuns(steps: seq<Step>)
    ensures KindsOk(FromEmpty(steps))
  {
    EmptyOk();
    if steps != [] {
      var init, last := steps[..|steps| - 1], steps[|steps| - 1];
      KindsOverRuns(init);
      KindsKept(Run(EMPTY, init), last.request, last.now);
    }
  }
}
