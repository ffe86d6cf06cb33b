/** Central's request handlers: each works on a transaction's copy of the tables, which is
    kept when the handler succeeds and dropped when it fails; the cache is shared. */
module CentralServer {
  import opened Core
  import opened Paths
  import opened DirTree
  import opened CentralTables
  import opened CentralModel
  import opened CentralNames
  import opened CentralRuns
  import opened CentralTransaction
  import CentralEffects
  import BundleSizes
  import DirCache
  import ReadPlan
  import Replicas

  /** A handler does what the request does by plain walking: it fails with the same error
      and leaves the database alone, or it succeeds and the database is the new one, unless
      the database fails to commit. */
  predicate Outcome<T>(before: Tables, plain: Result<Tables>, commits: bool, r: Result<T>, after: Tables) {
    match plain
    case Err(e) => r == Err(e) && after == before
    case Ok(t1) => if commits then r.Ok? && after == t1 else r == Err(Sqlite) && after == before
  }

  datatype FileBundleRef = FileBundleRef(index: nat, bundleId: HashId, target: ReadPlan.ReadTarget)

  datatype FileReadPlan = FileReadPlan(fileId: nat, path: string, size: nat, bundles: seq<FileBundleRef>)

  /** The plan's entry for the `i`-th bundle of the file. */
  ghost predicate RefOk(t: Tables, online: map<nat, nat>, rows: seq<BundleRow>, refs: seq<FileBundleRef>, i: nat)
    requires i < |rows| && i < |refs|
  {
    && refs[i].index == rows[i].index && refs[i].bundleId == rows[i].bundleId
    && ReadPlan.TargetOk(t.replicas, online, rows[i].bundleId, refs[i].target)
  }

  /** A plan names the file and, in order, its bundles with their online replicas. */
  ghost predicate PlanOk(t: Tables, online: map<nat, nat>, fileId: nat, plan: FileReadPlan)
    requires TablesOk(t)
  {
    && fileId in t.files && plan.fileId == fileId && plan.path == FilePath(t, fileId) && plan.size == t.files[fileId].size
    && |plan.bundles| == |RowsOf(t, fileId)|
    && forall i: nat :: i < |plan.bundles| ==> RefOk(t, online, RowsOf(t, fileId), plan.bundles, i)
  }

  /** Why there is no plan: a bad id, no such file, or a bundle without an online replica. */
  ghost predicate PlanRefused(t: Tables, online: map<nat, nat>, fileId: nat, e: Fs0Error) {
    if fileId > I64_MAX then e == IntegerConversion
    else if fileId !in t.files then e == NotFound
    else e == ChunkNotReady && exists i :: 0 <= i < |RowsOf(t, fileId)| && !ReadPlan.Readable(t.replicas, online, RowsOf(t, fileId)[i].bundleId)
  }

  function PlanRaw(refs: seq<FileBundleRef>): nat {
    if refs == [] then 0 else PlanRaw(refs[..|refs| - 1]) + refs[|refs| - 1].target.lens.raw
  }

  /** A plan's bundles are numbered from 0 and, when every bundle has one pair of lengths,
      their raw lengths add up to the size of the file. */
  lemma {:induction false} PlanAddsUp(t: Tables, online: map<nat, nat>, fileId: nat, plan: FileReadPlan, len: Lengths)
    requires TablesOk(t) && PlanOk(t, online, fileId, plan) && SizesOk(t, len) && ReplicasFixed(t.replicas, len)
    ensures forall i :: 0 <= i < |plan.bundles| ==> plan.bundles[i].index == i
    ensures PlanRaw(plan.bundles) == plan.size
  {
    var rows := RowsOf(t, fileId);
    forall i: nat | i < |plan.bundles| ensures plan.bundles[i].index == i { assert RefOk(t, online, rows, plan.bundles, i); }
    assert SizeIsSum(t, len, fileId);
    RefsAddUp(t, online, rows, plan.bundles, len, |rows|);
    assert rows[..|rows|] == rows && plan.bundles[..|rows|] == plan.bundles;
  }

  lemma {:induction false} RefsAddUp(t: Tables, online: map<nat, nat>, rows: seq<BundleRow>, refs: seq<FileBundleRef>, len: Lengths, m: nat)
    requires m <= |rows| == |refs| && ReplicasFixed(t.replicas, len)
    requires forall i: nat :: i < |refs| ==> RefOk(t, online, rows, refs, i)
    ensures PlanRaw(refs[..m]) == FixedRaw(len, rows[..m])
  {
    if m > 0 {
      RefsAddUp(t, online, rows, refs, len, m - 1);
      assert refs[..m][..m - 1] == refs[..m - 1] && rows[..m][..m - 1] == rows[..m - 1];
      assert RefOk(t, online, rows, refs, m - 1);
      var target := refs[m - 1].target;
      assert ReadPlan.LocationOk(t.replicas, online, rows[m - 1].bundleId, target.replicas[0]);
    }
  }

  /** What a copy and a rename leave of the namespace, as their handlers need it. */
  lemma {:induction false} CopyAnswer(t: Tables, source: nat, path: string, now: nat)
    requires TablesOk(t) && CopyFile(t, source, path, now).Ok?
    ensures var t1, f := CopyFile(t, source, path, now).value, t.nextFileId;
      TablesOk(t1) && Extends(t.dirs, t1.dirs) && f in t1.files && RecordOf(t1, f).path == path
  {
    CopyDuplicates(t, source, path, now);
    CopyFrame(t, source, path, now);
  }

  lemma {:induction false} RenameAnswer(t: Tables, fileId: nat, path: string, now: nat)
    requires TablesOk(t) && RenameFile(t, fileId, path, now).Ok?
    ensures var t1 := RenameFile(t, fileId, path, now).value;
      TablesOk(t1) && Extends(t.dirs, t1.dirs) && fileId in t1.files && RecordOf(t1, fileId).path == path
  {
    RenameMoves(t, fileId, path, now);
    RenameFrame(t, fileId, path, now);
  }

  /** A cache that knows the directory of the copy agrees with the tables from before exactly
      when that directory was there. */
  lemma {:induction false} CopyStale(t: Tables, source: nat, path: string, now: nat, t1: Tables, pairs: map<string, nat>)
    requires TablesOk(t) && CopyFile(t, source, path, now) == Ok(t1) && TreeOk(t1.dirs)
    requires Coherent(pairs, t1.dirs) && ParentKnown(pairs, t1, t.nextFileId)
    ensures Coherent(pairs, t.dirs) <==> ParentExists(t.dirs, path)
  {
    PlaceStale(t, path, None, pairs);
  }

  lemma {:induction false} RenameStale(t: Tables, fileId: nat, path: string, now: nat, t1: Tables, pairs: map<string, nat>)
    requires TablesOk(t) && RenameFile(t, fileId, path, now) == Ok(t1) && TreeOk(t1.dirs)
    requires Coherent(pairs, t1.dirs) && ParentKnown(pairs, t1, fileId)
    ensures Coherent(pairs, t.dirs) <==> ParentExists(t.dirs, path)
  {
    PlaceStale(t, path, Some(fileId), pairs);
  }

  /** The directory that `create_dir` gives an id for. */
  lemma {:induction false} CreatedDir(t: Tables, path: string, dirs: Dirs, id: nat)
    requires TablesOk(t) && CreateDirSpec(t.dirs, t.files, path) == Ok((dirs, id))
    ensures var names := SplitComponents(path).value;
      && ValidNames(names) && PathOf(names) == path && MakeDirs(t.dirs, t.files, names) == Ok((dirs, id))
      && TreeOk(dirs) && Extends(t.dirs, dirs) && id in dirs && DirPath(dirs, id) == path
      && (names == [] <==> id == ROOT) && (path == "/" <==> id == ROOT)
  {
    var names := SplitComponents(path).value;
    PathOfComponents(path);
    MakeDirsOk(t.dirs, t.files, names);
    RootPath(dirs, id);
    if id == ROOT { assert NamesOf(dirs, ROOT) == []; }
  }

  class Central {
    var db: Tables
    const cache: DirCache.DirCacheState

    constructor ()
      ensures Valid() && db == EMPTY && fresh(cache) && cache.nextAccess == 1
    {
      db := EMPTY;
      cache := new DirCache.DirCacheState();
      new;
      EmptyOk();
    }

    /** A server started on existing tables, with an empty cache. */
    constructor Reopened(tables: Tables)
      requires TablesOk(tables)
      ensures Valid() && db == tables && fresh(cache) && cache.nextAccess == 1
    {
      db := tables;
      cache := new DirCache.DirCacheState();
    }

    /** The tables are in order, and the cache agrees with the committed directories. */
    ghost predicate Valid()
      reads this, cache
    {
      TablesOk(db) && cache.Bounded() && cache.Inverse() && Coherent(cache.Pairs(), db.dirs)
    }

    method GetFileReadPlanById(fileId: nat, online: map<nat, nat>) returns (r: Result<FileReadPlan>)
      requires Valid()
      modifies cache
      ensures Valid()
      ensures match r
        case Ok(plan) => PlanOk(db, online, fileId, plan)
        case Err(e) => PlanRefused(db, online, fileId, e)
    {
      var tx := new CentralTx(db, cache);
      if fileId > I64_MAX { return Err(IntegerConversion); }
      if fileId !in tx.t.files { return Err(NotFound); }
      var record := tx.GetFileRecord(fileId);
      var refs := BundleRefs(tx.t, fileId, online);
      match refs {
        case Err(e) => return Err(e);
        case Ok(bundles) => return Ok(FileReadPlan(fileId, record.path, record.size, bundles));
      }
    }

    /** The loop over the file's bundles. */
    static method BundleRefs(t: Tables, fileId: nat, online: map<nat, nat>) returns (r: Result<seq<FileBundleRef>>)
      ensures match r
        case Ok(refs) => |refs| == |RowsOf(t, fileId)| && forall i: nat :: i < |refs| ==> RefOk(t, online, RowsOf(t, fileId), refs, i)
        case Err(e) =>
          && e == ChunkNotReady
          && exists i :: 0 <= i < |RowsOf(t, fileId)| && !ReadPlan.Readable(t.replicas, online, RowsOf(t, fileId)[i].bundleId)
    {
      var rows := RowsOf(t, fileId);
      var ids := seq(|rows|, i requires 0 <= i < |rows| => rows[i].bundleId);
      var targets := ReadPlan.TargetsFor(t.replicas, ids, online);
      var refs := [];
      for i := 0 to |rows|
        invariant |refs| == i && forall k: nat :: k < i ==> RefOk(t, online, rows, refs, k)
      {
        assert ids[i] == rows[i].bundleId;
        if rows[i].bundleId !in targets { return Err(ChunkNotReady); }
        ghost var before := refs;
        refs := refs + [FileBundleRef(rows[i].index, rows[i].bundleId, targets[rows[i].bundleId])];
        forall k: nat | k < i + 1 ensures RefOk(t, online, rows, refs, k) {
          if k < i { assert RefOk(t, online, rows, before, k); }
        }
      }
      return Ok(refs);
    }

    /** `tx.commit()`: the transaction's copy becomes the database, or the commit fails and
        nothing changes. By then the cache may know directories that only the transaction has. */
    method Commit(tx: CentralTx, commits: bool) returns (r: Result<()>)
      requires TablesOk(tx.t) && tx.cache == cache && tx.CacheOk(tx.t.dirs)
      modifies this`db
      ensures r == if commits then Ok(()) else Err(Sqlite)
      ensures db == if commits then tx.t else old(db)
      ensures commits ==> Valid()
    {
      if !commits { return Err(Sqlite); }
      db := tx.t;
      return Ok(());
    }

    /** How the cache is left when creating the place of a path was not committed: right, or,
        with accesses to spare, wrong exactly when the path's directory was new. */
    ghost predicate LeftBehind(accesses: nat, path: string)
      reads this, cache
    {
      && TablesOk(db) && cache.Bounded() && cache.Inverse() && Target(path).Ok?
      && (accesses + Lookups(path) < U64_MAX ==> (Valid() <==> ParentExists(db.dirs, path)))
    }

    /** The first half of `begin_update`, up to its commit. */
    method BeginUpdate(path: string, offset: nat, volumeId: nat, now: nat, commits: bool) returns (r: Result<nat>)
      requires Valid()
      modifies this, cache
      ensures Valid() && Outcome(old(db), CentralTables.BeginUpdate(old(db), path, offset, volumeId, now), commits, r, db)
      ensures r.Ok? ==> r.value == old(db).nextLeaseId
    {
      var tx := new CentralTx(db, cache);
      r := BeginInTx(tx, path, offset, volumeId, now);
      if r.Ok? {
        BeginKept(db, path, offset, volumeId, now);
        CoherentGrows(cache.Pairs(), db.dirs, tx.t.dirs);
        var done := Commit(tx, commits);
        if done.Err? { return Err(done.error); }
      }
    }

    method BeginInTx(tx: CentralTx, path: string, offset: nat, volumeId: nat, now: nat) returns (r: Result<nat>)
      requires Valid() && tx.t == db && tx.cache == cache
      modifies tx, cache
      ensures Valid()
      ensures match CentralTables.BeginUpdate(db, path, offset, volumeId, now)
        case Err(e) => r == Err(e)
        case Ok(t1) => r == Ok(db.nextLeaseId) && tx.t == t1 && TreeOk(t1.dirs) && Extends(db.dirs, t1.dirs)
    {
      var start := OpenFileFor(tx, path, offset, now);
      if start.Err? { return Err(start.error); }
      r := LeaseFile(tx, start.value, path, offset, volumeId, now);
    }

    /** The leasing half: drop expired leases, refuse a second one, insert. */
    method LeaseFile(tx: CentralTx, fileId: nat, path: string, offset: nat, volumeId: nat, now: nat) returns (r: Result<nat>)
      requires fileId in tx.t.files
      modifies tx
      ensures var t1 := old(tx.t).(leases := Unexpired(old(tx.t).leases, now));
        && (HasLease(t1.leases, fileId) ==> r == Err(AlreadyExists(path)))
        && (!HasLease(t1.leases, fileId) ==> r == Ok(t1.nextLeaseId))
        && (!HasLease(t1.leases, fileId) ==>
              tx.t == AddLease(t1, Lease(fileId, volumeId, t1.files[fileId].size, offset, now + UPDATE_LEASE_TTL_MS)))
    {
      tx.t := tx.t.(leases := Unexpired(tx.t.leases, now));
      if exists l :: l in tx.t.leases && tx.t.leases[l].fileId == fileId { return Err(AlreadyExists(path)); }
      r := Ok(tx.t.nextLeaseId);
      tx.t := AddLease(tx.t, Lease(fileId, volumeId, tx.t.files[fileId].size, offset, now + UPDATE_LEASE_TTL_MS));
    }

    /** The existing file at the path, or a new one for a path that is not found. */
    method OpenFileFor(tx: CentralTx, path: string, offset: nat, now: nat) returns (r: Result<nat>)
      requires Valid() && tx.t == db && tx.cache == cache
      modifies tx, cache
      ensures Valid()
      ensures match OpenFile(db, path, offset, now)
        case Err(e) => r == Err(e)
        case Ok((t1, f)) =>
          r == Ok(f) && tx.t == t1 && f in t1.files && TreeOk(t1.dirs) && Extends(db.dirs, t1.dirs) && t1.nextLeaseId == db.nextLeaseId
    {
      var found := tx.GetFileByPath(path);
      match found {
        case Ok(f) =>
          FoundIn(db, path);
          if offset > tx.t.files[f].size { return Err(InvalidRequest); }
          return Ok(f);
        case Err(e) =>
          if e != NotFound { return Err(e); }
          if offset != 0 { return Err(NotFound); }
          r := tx.CreateFile(path, now);
          if r.Ok? { PlaceOk(db, path, None); }
      }
    }

    /** The second half of `begin_update` when the storage refuses the lease. */
    method LeaseNotGranted(leaseId: nat, commits: bool) returns (r: Result<()>)
      requires Valid()
      modifies this, cache
      ensures Valid() && Outcome(old(db), Ok(DropLease(old(db), leaseId)), commits, r, db)
    {
      var tx := new CentralTx(db, cache);
      tx.t := DropLease(tx.t, leaseId);
      DropLeaseOk(db, leaseId);
      r := Commit(tx, commits);
    }

    method AbortUpdate(leaseId: nat, fileId: nat, now: nat, commits: bool) returns (r: Result<()>)
      requires Valid()
      modifies this, cache
      ensures Valid() && Outcome(old(db), CentralTables.AbortUpdate(old(db), leaseId, fileId, now), commits, r, db)
      ensures r.Ok? <==> commits && leaseId <= 0x7FFF_FFFF_FFFF_FFFF && fileId <= 0x7FFF_FFFF_FFFF_FFFF && CentralEffects.Active(old(db), leaseId, fileId, now)
      ensures r.Ok? ==> leaseId !in db.leases && db == old(db).(leases := old(db).leases - {leaseId})
      ensures r.Err? ==> db == old(db)
    {
      var tx := new CentralTx(db, cache);
      var lease := LoadLease(tx.t.leases, leaseId, fileId, now);
      if lease.Err? { return Err(lease.error); }
      tx.t := DropLease(tx.t, leaseId);
      DropLeaseOk(db, leaseId);
      r := Commit(tx, commits);
    }

    /** The first transaction of `commit_update`, with a clock of its own: only the volume of
        the lease is read. The database is then free for other requests. */
    method FindCommitLease(req: CommitRequest, now: nat, commits: bool) returns (r: Result<nat>)
      requires Valid()
      ensures req.leaseId > I64_MAX || req.fileId > I64_MAX ==> r == Err(IntegerConversion)
      ensures req.leaseId <= I64_MAX && req.fileId <= I64_MAX ==>
        if req.leaseId in db.leases && db.leases[req.leaseId].fileId == req.fileId && now < db.leases[req.leaseId].expiresAt
        then r == (if commits then Ok(db.leases[req.leaseId].volumeId) else Err(Sqlite))
        else r == Err(VersionConflict)
    {
      var seen := LoadLease(db.leases, req.leaseId, req.fileId, now);
      if seen.Err? { return Err(if seen.error == NotFound then VersionConflict else seen.error); }
      if !commits { return Err(Sqlite); }
      return Ok(seen.value.volumeId);
    }

    /** The second transaction, on the database of its own moment: everything is checked,
        the lease once more, and written. The clock is read for the time stamps and then for
        the lease. */
    method CommitUpdate(req: CommitRequest, now: nat, checked: nat, commits: bool) returns (r: Result<FileRecord>)
      requires Valid()
      modifies this, cache
      ensures Valid() && Outcome(old(db), CentralTables.CommitUpdate(old(db), req, checked, now), commits, r, db)
      ensures r.Ok? ==> req.fileId in db.files && r.value == RecordOf(db, req.fileId) && r.value.size == req.newSize
      ensures r.Ok? ==> var row := db.files[req.fileId];
        r.value == FileRecord(req.fileId, FilePath(db, req.fileId), req.newSize, row.compressed, row.createdAt, row.updatedAt)
    {
      var tx := new CentralTx(db, cache);
      r := CommitInTx(tx, req, checked, now);
      if r.Ok? {
        var compressed := CommitSizes(db, req, checked, now);
        CommitKept(db, req, req.fileId, compressed, now);
        var done := Commit(tx, commits);
        if done.Err? { return Err(done.error); }
      }
    }

    method CommitInTx(tx: CentralTx, req: CommitRequest, checked: nat, now: nat) returns (r: Result<FileRecord>)
      requires Valid() && tx.t == db && tx.cache == cache
      modifies tx, cache
      ensures Valid()
      ensures match CentralTables.CommitUpdate(db, req, checked, now)
        case Err(e) => r == Err(e)
        case Ok(t1) =>
          && tx.t == t1 && t1.dirs == db.dirs && req.fileId in t1.files && t1.files[req.fileId].size == req.newSize
          && t1.files[req.fileId].dirId in t1.dirs && r == Ok(RecordOf(t1, req.fileId))
    {
      var checks := CommitChecks(tx.t, req, checked);
      if checks.Err? { return Err(checks.error); }
      var lease := checks.value;
      var sum := tx.SumSubmitted(req.bundles);
      if sum.Err? { return Err(sum.error); }
      if sum.value != req.newSize { return Err(InvalidRequest); }
      tx.UpsertFileBundles(lease.fileId, req.bundles);
      var sizes := tx.CalculateSizeByFileId(lease.fileId);
      if sizes.Err? { return Err(sizes.error); }
      if sizes.value.0 != req.newSize { return Err(InvalidRequest); }
      if req.newSize > I64_MAX || sizes.value.1 > I64_MAX { return Err(IntegerConversion); }
      r := tx.WriteCommit(db, req, lease.fileId, sizes.value.1, now);
    }

    method DeleteFileById(fileId: nat, now: nat, commits: bool) returns (r: Result<()>)
      requires Valid()
      modifies this, cache
      ensures Valid() && Outcome(old(db), DeleteFile(old(db), fileId, now), commits, r, db)
    {
      var tx := new CentralTx(db, cache);
      r := DeleteInTx(tx, fileId, now);
      if r.Ok? {
        DeleteKept(db, fileId, now);
        r := Commit(tx, commits);
      }
    }

    method DeleteInTx(tx: CentralTx, fileId: nat, now: nat) returns (r: Result<()>)
      modifies tx
      ensures match DeleteFile(old(tx.t), fileId, now)
        case Err(e) => r == Err(e)
        case Ok(t1) => r == Ok(()) && tx.t == t1
    {
      if fileId > I64_MAX { return Err(IntegerConversion); }
      ghost var bundles := tx.t.fileBundles;
      tx.t := tx.t.(fileBundles := tx.t.fileBundles - {fileId});
      if fileId !in tx.t.files { return Err(NotFound); }
      tx.t := Logging(DropFile(tx.t, fileId), Change(Deleted, None, fileId, now));
      assert bundles - {fileId} - {fileId} == bundles - {fileId};
      return Ok(());
    }

    /** The answer's path is looked up before the commit, so a commit that fails can leave a
        directory in the cache that was never there. */
    method CopyFileById(source: nat, path: string, now: nat, commits: bool) returns (r: Result<FileRecord>)
      requires Valid()
      modifies this, cache
      ensures Outcome(old(db), CopyFile(old(db), source, path, now), commits, r, db)
      ensures if commits || CopyFile(old(db), source, path, now).Err? then Valid() else LeftBehind(old(cache.nextAccess), path)
      ensures r.Ok? ==> old(db).nextFileId in db.files && r.value == RecordOf(db, old(db).nextFileId) && r.value.path == path
    {
      ghost var accesses := cache.nextAccess;
      var tx := new CentralTx(db, cache);
      r := CopyInTx(tx, source, path, now);
      if r.Ok? {
        if !commits && accesses + Lookups(path) < U64_MAX { CopyStale(db, source, path, now, tx.t, cache.Pairs()); }
        var done := Commit(tx, commits);
        if done.Err? { return Err(done.error); }
      }
    }

    method CopyInTx(tx: CentralTx, source: nat, path: string, now: nat) returns (r: Result<FileRecord>)
      requires Valid() && tx.t == db && tx.cache == cache
      modifies tx, cache
      ensures r.Err? ==> Valid()
      ensures r.Ok? && Target(path).Ok? && old(cache.nextAccess) + Lookups(path) < U64_MAX ==>
        ParentKnown(cache.Pairs(), tx.t, db.nextFileId)
      ensures match CopyFile(db, source, path, now)
        case Err(e) => r == Err(e)
        case Ok(t1) =>
          && tx.t == t1 && TablesOk(t1) && tx.CacheOk(t1.dirs) && db.nextFileId in t1.files
          && r == Ok(RecordOf(t1, db.nextFileId)) && r.value.path == path
    {
      var file := CopyRows(tx, source, path, now);
      if file.Err? { return Err(file.error); }
      CopyAnswer(db, source, path, now);
      var record := Answer(tx, file.value);
      return Ok(record);
    }

    /** The record a copy or a rename answers with, looked up before the commit. */
    method Answer(tx: CentralTx, fileId: nat) returns (record: FileRecord)
      requires Valid() && tx.cache == cache && TablesOk(tx.t) && Extends(db.dirs, tx.t.dirs) && fileId in tx.t.files
      modifies cache
      ensures tx.CacheOk(tx.t.dirs) && record == RecordOf(tx.t, fileId)
      ensures old(cache.nextAccess) < U64_MAX ==> ParentKnown(cache.Pairs(), tx.t, fileId)
    {
      CoherentGrows(cache.Pairs(), db.dirs, tx.t.dirs);
      record := tx.GetFileRecord(fileId);
    }

    /** The writes of a copy: its row, its bundles and its change. */
    method CopyRows(tx: CentralTx, source: nat, path: string, now: nat) returns (r: Result<nat>)
      requires Valid() && tx.t == db && tx.cache == cache
      modifies tx, cache
      ensures Valid() && (Target(path).Ok? ==> tx.Ticked(old(cache.nextAccess), Lookups(path)))
      ensures match CopyFile(db, source, path, now)
        case Err(e) => r == Err(e)
        case Ok(t1) => r == Ok(db.nextFileId) && tx.t == t1
    {
      var target := SplitDirAndName(path);
      if target.Err? { return Err(target.error); }
      r := tx.CopyFileById(source, path, now);
      if r.Ok? {
        tx.t := Logging(CopyBundles(tx.t, source, r.value), Change(Created, Some(target.value), r.value, now));
      }
    }

    /** As a copy does, a rename whose commit fails can leave a wrong directory in the cache. */
    method RenameFileById(fileId: nat, path: string, now: nat, commits: bool) returns (r: Result<FileRecord>)
      requires Valid()
      modifies this, cache
      ensures Outcome(old(db), RenameFile(old(db), fileId, path, now), commits, r, db)
      ensures if commits || RenameFile(old(db), fileId, path, now).Err? then Valid() else LeftBehind(old(cache.nextAccess), path)
      ensures r.Ok? ==> fileId in db.files && r.value == RecordOf(db, fileId) && r.value.path == path
    {
      ghost var accesses := cache.nextAccess;
      var tx := new CentralTx(db, cache);
      r := RenameInTx(tx, fileId, path, now);
      if r.Ok? {
        if !commits && accesses + Lookups(path) < U64_MAX { RenameStale(db, fileId, path, now, tx.t, cache.Pairs()); }
        var done := Commit(tx, commits);
        if done.Err? { return Err(done.error); }
      }
    }

    method RenameInTx(tx: CentralTx, fileId: nat, path: string, now: nat) returns (r: Result<FileRecord>)
      requires Valid() && tx.t == db && tx.cache == cache
      modifies tx, cache
      ensures r.Err? ==> Valid()
      ensures r.Ok? && Target(path).Ok? && old(cache.nextAccess) + Lookups(path) < U64_MAX ==> ParentKnown(cache.Pairs(), tx.t, fileId)
      ensures match RenameFile(db, fileId, path, now)
        case Err(e) => r == Err(e)
        case Ok(t1) =>
          && tx.t == t1 && TablesOk(t1) && tx.CacheOk(t1.dirs) && fileId in t1.files
          && r == Ok(RecordOf(t1, fileId)) && r.value.path == path
    {
      var target := SplitDirAndName(path);
      if target.Err? { return Err(target.error); }
      var done := tx.RenameFileById(fileId, path, now);
      if done.Err? { return Err(done.error); }
      tx.t := Logging(tx.t, Change(ChangeKind.Moved, Some(target.value), fileId, now));
      RenameAnswer(db, fileId, path, now);
      var record := Answer(tx, fileId);
      return Ok(record);
    }

    method ReportBundleReplica(events: seq<Replicas.Event>, online: map<nat, nat>, storageId: nat, commits: bool) returns (r: Result<()>)
      requires Valid()
      modifies this, cache
      ensures Valid()
      ensures match Replicas.Report(old(db).replicas, events, online, storageId)
        case Err(e) => r == Err(e) && db == old(db)
        case Ok(replicas) =>
          if commits then r == Ok(()) && db == old(db).(replicas := replicas) else r == Err(Sqlite) && db == old(db)
    {
      var tx := new CentralTx(db, cache);
      r := ReportInTx(tx, events, online, storageId);
      if r.Ok? { r := Commit(tx, commits); }
    }

    method ReportInTx(tx: CentralTx, events: seq<Replicas.Event>, online: map<nat, nat>, storageId: nat) returns (r: Result<()>)
      modifies tx
      ensures match Replicas.Report(old(tx.t).replicas, events, online, storageId)
        case Err(e) => r == Err(e)
        case Ok(replicas) => r == Ok(()) && tx.t == old(tx.t).(replicas := replicas)
    {
      var applied := Replicas.ReportBundleReplica(tx.t.replicas, events, online, storageId);
      if applied.Err? { return Err(applied.error); }
      tx.t := tx.t.(replicas := applied.value);
      return Ok(());
    }

    /** `remove_dir` in a transaction. */
    method RemoveDir(path: string, commits: bool) returns (r: Result<()>)
      requires Valid()
      modifies this, cache
      ensures Valid() && Outcome(old(db), CentralTables.RemoveDir(old(db), path), commits, r, db)
    {
      var tx := new CentralTx(db, cache);
      r := tx.RemoveDir(path);
      if r.Ok? { r := Commit(tx, commits); }
    }

    /** A directory is created, its path is asked for, and the transaction is dropped. The
        database is as before; the cache agrees with it afterwards exactly when the directory
        was there already. */
    method CreateAskAndDrop(path: string) returns (r: Result<string>)
      requires Valid()
      requires SplitComponents(path).Ok? ==> cache.nextAccess + 1 + 2 * |SplitComponents(path).value| < U64_MAX
      modifies cache
      ensures r.Ok? <==> CreateDirSpec(db.dirs, db.files, path).Ok?
      ensures r.Err? ==> Valid()
      ensures r.Ok? ==> r.value == path && (path != "/" ==> path in cache.Pairs())
      ensures r.Ok? ==> (Coherent(cache.Pairs(), db.dirs) <==> Resolve(db.dirs, SplitComponents(path).value).Some?)
    {
      var tx := new CentralTx(db, cache);
      var id := tx.CreateDir(path);
      if id.Err? { return Err(id.error); }
      CreatedDir(db, path, tx.t.dirs, id.value);
      CoherentGrows(cache.Pairs(), db.dirs, tx.t.dirs);
      r := tx.GetDirPathById(id.value);
      StaleAfterRollback(db.dirs, db.files, SplitComponents(path).value, tx.t.dirs, id.value, cache.Pairs());
    }
  }

  /** On a fresh server that leaves the path of a directory that does not exist in the cache. */
  method StaleEntryOnFreshServer() returns (central: Central)
    ensures fresh(central) && central.db == EMPTY
    ensures "/a" in central.cache.Pairs() && Resolve(central.db.dirs, ["a"]) == None
    ensures !Coherent(central.cache.Pairs(), central.db.dirs)
  {
    central := new Central();
    var names := ["a"];
    assert PathOf(names) == "/a";
    ComponentsOfPath(names);
    assert names[..0] == [];
    assert Resolve(EMPTY.dirs, names) == None;
    MakeDirsIff(EMPTY, names);
    assert forall k :: 0 < k <= |names| ==> !FileNamed(EMPTY, PathOf(names[..k]));
    var path := central.CreateAskAndDrop("/a");
  }

  lemma {:induction false} TargetOfAB()
    ensures Target("/a/b") == Ok((["a"], "b")) && PathOf(["a"]) == "/a" && ValidNames(["a"])
  {
    var names := ["a"];
    assert PathOf(names) == "/a";
    ComponentsOfPath(names);
    NameDirRoundTrip("/a", "b");
    assert JoinPath("/a", "b") == "/a/b";
    SameTarget("/a/b", names, "b");
  }

  /** Copying the file "/f" to "/a/b", where there is no directory "/a". */
  lemma {:induction false} CopyPrepared()
    requires TablesOk(BundleSizes.Begun("f"))
    ensures CopyFile(BundleSizes.Begun("f"), 1, "/a/b", 0).Ok? && !ParentExists(BundleSizes.Begun("f").dirs, "/a/b")
    ensures Target("/a/b").Ok? && Lookups("/a/b") == 3
  {
    var t := BundleSizes.Begun("f");
    TargetOfAB();
    NoDirA(t.dirs);
    NotInUse(t);
    CopyAcceptedIff(t, 1, "/a/b", 0);
  }

  lemma {:induction false} NoDirA(dirs: Dirs)
    requires dirs == EMPTY.dirs
    ensures Resolve(dirs, ["a"]) == None
  {
    assert ["a"][..0] == [];
  }

  lemma {:induction false} NotInUse(t: Tables)
    requires t == BundleSizes.Begun("f") && TablesOk(t)
    ensures WayFree(t, ["a"]) && !FileNamed(t, "/a/b") && !DirNamed(t, "/a/b")
  {
    assert NamesOf(t.dirs, ROOT) == [] && DirPath(t.dirs, ROOT) == "/";
    assert FilePath(t, 1) == "/f";
    assert PathOf(["a"]) == "/a";
    assert ["a"][..1] == ["a"];
    assert !FileNamed(t, PathOf(["a"]));
  }

  /** A copy into a new directory whose commit fails: the directory stays in the cache. */
  method StaleAfterFailedCopy() returns (central: Central, r: Result<FileRecord>)
    ensures fresh(central) && TablesOk(central.db) && r == Err(Sqlite)
    ensures !ParentExists(central.db.dirs, "/a/b") && !Coherent(central.cache.Pairs(), central.db.dirs)
  {
    var first := new Central();
    assert JoinPath("/", "f") == "/f";
    BundleSizes.BeginGoesThrough("f");
    var lease := first.BeginUpdate("/f", 0, 2, 0, true);
    central := new Central.Reopened(first.db);
    CopyPrepared();
    r := central.CopyFileById(1, "/a/b", 0, false);
  }
}
