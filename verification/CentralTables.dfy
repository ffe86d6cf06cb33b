/** Central's metadata tables, and what each request does to them when every directory
    lookup walks the `dirs` table. */
module CentralTables {
  import opened Core
  import opened Paths
  import opened DirTree
  import Replicas

  datatype FileRow = FileRow(dirId: nat, name: string, size: nat, compressed: nat, createdAt: nat, updatedAt: nat)

  datatype BundleRow = BundleRow(index: nat, bundleId: HashId)

  datatype Lease = Lease(fileId: nat, volumeId: nat, baseSize: nat, offset: nat, expiresAt: nat)

  datatype ChangeKind = Created | Updated | Moved | Deleted

  /** A row of `file_events`; the target is a directory path and a name. */
  datatype Change = Change(kind: ChangeKind, target: Option<(string, string)>, fileId: nat, at: nat)

  /** `fileBundles` holds the rows of each file in primary key order; the counters are the
      next AUTOINCREMENT ids, which are never handed out twice. */
  datatype Tables = Tables(
    dirs: Dirs,
    files: map<nat, FileRow>,
    nextFileId: nat,
    fileBundles: map<nat, seq<BundleRow>>,
    replicas: Replicas.Table,
    leases: map<nat, Lease>,
    nextLeaseId: nat,
    log: seq<Change>)

  const UPDATE_LEASE_TTL_MS: nat := 60_000

  function RowsOf(t: Tables, fileId: nat): seq<BundleRow> {
    if fileId in t.fileBundles then t.fileBundles[fileId] else []
  }

  /* ---- Paths and names ---- */

  /** A file path as the names of its directory and its own name. */
  function Target(path: string): (r: Result<(seq<string>, string)>)
    ensures r.Ok? ==> ValidNames(r.value.0) && ValidName(r.value.1)
    ensures r.Ok? ==> JoinPath(PathOf(r.value.0), r.value.1) == path
    ensures r.Ok? ==> SplitDirAndName(path) == Ok((PathOf(r.value.0), r.value.1))
    ensures r.Err? ==> SplitDirAndName(path) == Err(r.error)
  {
    match SplitDirAndName(path)
    case Err(e) => Err(e)
    case Ok(pair) =>
      DirNameRoundTrip(path);
      PathOfComponents(pair.0);
      Ok((SplitComponents(pair.0).value, pair.1))
  }

  ghost predicate IsFileAt(files: map<nat, FileRow>, dirId: nat, name: string, f: nat) {
    f in files && files[f].dirId == dirId && files[f].name == name
  }

  ghost function FileAt(files: map<nat, FileRow>, dirId: nat, name: string): Option<nat> {
    if f :| IsFileAt(files, dirId, name, f) then Some(f) else None
  }

  /** Whether the name is in use in the directory by anything but `existing`. */
  ghost predicate Taken(dirs: Dirs, files: map<nat, FileRow>, dirId: nat, name: string, existing: Option<nat>) {
    || Child(dirs, dirId, name).Some?
    || (FileAt(files, dirId, name).Some? && FileAt(files, dirId, name) != existing)
  }

  /** `create_dir` by plain walking: every missing directory on the way is inserted. */
  ghost function MakeDirs(dirs: Dirs, files: map<nat, FileRow>, names: seq<string>): Result<(Dirs, nat)> {
    if names == [] then Ok((dirs, ROOT))
    else
      var last := names[|names| - 1];
      match MakeDirs(dirs, files, names[..|names| - 1])
      case Err(e) => Err(e)
      case Ok((d, p)) =>
        match Child(d, p, last)
        case Some(id) => Ok((d, id))
        case None =>
          if Taken(d, files, p, last, None) then Err(AlreadyExists(PathOf(names)))
          else Ok((d[NextId(d.Keys) := DirRow(Some(p), last)], NextId(d.Keys)))
  }

  ghost function GetFileByPath(t: Tables, path: string): Result<nat> {
    match Target(path)
    case Err(e) => Err(e)
    case Ok((names, name)) =>
      match Resolve(t.dirs, names)
      case None => Err(NotFound)
      case Some(d) =>
        match FileAt(t.files, d, name)
        case None => Err(NotFound)
        case Some(f) => Ok(f)
  }

  /** Directories for a new name, and that the name is free in them. */
  ghost function MakePlace(t: Tables, path: string, existing: Option<nat>): Result<(Dirs, nat, string)> {
    match Target(path)
    case Err(e) => Err(e)
    case Ok((names, name)) =>
      match MakeDirs(t.dirs, t.files, names)
      case Err(e) => Err(e)
      case Ok((d, p)) =>
        if Taken(d, t.files, p, name, existing) then Err(AlreadyExists(path)) else Ok((d, p, name))
  }

  /** Inserting a row into `files`. */
  function AddFile(t: Tables, dirs: Dirs, row: FileRow): Tables {
    t.(dirs := dirs, files := t.files[t.nextFileId := row], nextFileId := t.nextFileId + 1)
  }

  ghost function CreateFile(t: Tables, path: string, now: nat): Result<(Tables, nat)> {
    match MakePlace(t, path, None)
    case Err(e) => Err(e)
    case Ok((d, p, name)) => Ok((AddFile(t, d, FileRow(p, name, 0, 0, now, now)), t.nextFileId))
  }

  /* ---- Update leases ---- */

  function Unexpired(leases: map<nat, Lease>, now: nat): map<nat, Lease> {
    map l | l in leases && now < leases[l].expiresAt :: leases[l]
  }

  ghost predicate HasLease(leases: map<nat, Lease>, fileId: nat) {
    exists l :: l in leases && leases[l].fileId == fileId
  }

  /** The file a new update starts from: the existing one, or a new empty one. */
  ghost function OpenFile(t: Tables, path: string, offset: nat, now: nat): Result<(Tables, nat)> {
    match GetFileByPath(t, path)
    case Ok(f) => if f in t.files && offset > t.files[f].size then Err(InvalidRequest) else Ok((t, f))
    case Err(e) =>
      if e != NotFound then Err(e)
      else if offset != 0 then Err(NotFound)
      else CreateFile(t, path, now)
  }

  function AddLease(t: Tables, lease: Lease): Tables {
    t.(leases := t.leases[t.nextLeaseId := lease], nextLeaseId := t.nextLeaseId + 1)
  }

  ghost function BeginUpdate(t: Tables, path: string, offset: nat, volumeId: nat, now: nat): Result<Tables> {
    match OpenFile(t, path, offset, now)
    case Err(e) => Err(e)
    case Ok((t1, f)) =>
      var t2 := t1.(leases := Unexpired(t1.leases, now));
      if HasLease(t2.leases, f) || f !in t1.files then Err(AlreadyExists(path))
      else Ok(AddLease(t2, Lease(f, volumeId, t1.files[f].size, offset, now + UPDATE_LEASE_TTL_MS)))
  }

  function LoadLease(leases: map<nat, Lease>, leaseId: nat, fileId: nat, now: nat): Result<Lease> {
    if leaseId > I64_MAX || fileId > I64_MAX then Err(IntegerConversion)
    else if leaseId in leases && leases[leaseId].fileId == fileId && now < leases[leaseId].expiresAt
    then Ok(leases[leaseId])
    else Err(NotFound)
  }

  function DropLease(t: Tables, leaseId: nat): Tables {
    t.(leases := t.leases - {leaseId})
  }

  function AbortUpdate(t: Tables, leaseId: nat, fileId: nat, now: nat): Result<Tables> {
    match LoadLease(t.leases, leaseId, fileId, now)
    case Err(e) => Err(e)
    case Ok(_) => Ok(DropLease(t, leaseId))
  }

  /* ---- Committing an update ---- */

  datatype Submitted = Submitted(bundleId: HashId, raw: nat, compressed: nat)

  datatype CommitRequest = CommitRequest(leaseId: nat, fileId: nat, baseSize: nat, newSize: nat, bundles: seq<Submitted>)

  /** The first loop of a commit: every bundle is known with the submitted raw length. */
  ghost function SubmittedSum(replicas: Replicas.Table, bundles: seq<Submitted>): Result<nat> {
    if bundles == [] then Ok(0)
    else
      var last := bundles[|bundles| - 1];
      match SubmittedSum(replicas, bundles[..|bundles| - 1])
      case Err(e) => Err(e)
      case Ok(sum) =>
        match Replicas.LensOf(replicas, last.bundleId)
        case None => Err(ChunkNotReady)
        case Some(lens) =>
          if lens.raw != last.raw then Err(InvalidRequest)
          else if sum + last.raw > U64_MAX then Err(IntegerConversion)
          else Ok(sum + last.raw)
  }

  /** `calculate_size_by_file_id` over the stored rows. */
  ghost function CalculateSize(replicas: Replicas.Table, rows: seq<BundleRow>): Result<(nat, nat)> {
    if rows == [] then Ok((0, 0))
    else
      var last := rows[|rows| - 1];
      match CalculateSize(replicas, rows[..|rows| - 1])
      case Err(e) => Err(e)
      case Ok((raw, compressed)) =>
        match Replicas.LensOf(replicas, last.bundleId)
        case None => Err(ChunkNotReady)
        case Some(lens) =>
          if raw + lens.raw > U64_MAX || compressed + lens.compressed > U64_MAX then Err(IntegerConversion)
          else Ok((raw + lens.raw, compressed + lens.compressed))
  }

  /** The rows a bundle list becomes: numbered in order, as it was submitted. */
  function Numbered(bundles: seq<Submitted>): (rows: seq<BundleRow>)
    ensures |rows| == |bundles|
    ensures forall i :: 0 <= i < |rows| ==> rows[i] == BundleRow(i, bundles[i].bundleId)
  {
    seq(|bundles|, i requires 0 <= i < |bundles| => BundleRow(i, bundles[i].bundleId))
  }

  /** The checks of a commit up to its first write: the lease and the file it is for. */
  function CommitChecks(t: Tables, req: CommitRequest, now: nat): Result<Lease> {
    match LoadLease(t.leases, req.leaseId, req.fileId, now)
    case Err(e) => Err(if e == NotFound then VersionConflict else e)
    case Ok(lease) =>
      if lease.baseSize != req.baseSize then Err(VersionConflict)
      else if req.newSize < lease.offset then Err(InvalidRequest)
      else if lease.fileId !in t.files then Err(NotFound)
      else if t.files[lease.fileId].size != req.baseSize then Err(VersionConflict)
      else Ok(lease)
  }

  /** What a commit writes once its sizes are known. */
  ghost function CommitWrites(t: Tables, req: CommitRequest, fileId: nat, compressed: nat, now: nat): Tables
    requires fileId in t.files && t.files[fileId].dirId in t.dirs && TreeOk(t.dirs)
  {
    var file := t.files[fileId];
    t.(files := t.files[fileId := file.(size := req.newSize, compressed := compressed, updatedAt := now)],
       fileBundles := t.fileBundles[fileId := Numbered(req.bundles)],
       leases := t.leases - {req.leaseId},
       log := t.log + [Change(if file.size == 0 then Created else Updated,
                              Some((DirPath(t.dirs, file.dirId), file.name)), fileId, now)])
  }

  ghost function CommitUpdate(t: Tables, req: CommitRequest, checked: nat, now: nat): Result<Tables>
    requires TreeOk(t.dirs) && FilesInTree(t)
  {
    match CommitChecks(t, req, checked)
    case Err(e) => Err(e)
    case Ok(lease) =>
      match SubmittedSum(t.replicas, req.bundles)
      case Err(e) => Err(e)
      case Ok(sum) =>
        if sum != req.newSize then Err(InvalidRequest)
        else match CalculateSize(t.replicas, Numbered(req.bundles))
          case Err(e) => Err(e)
          case Ok((raw, compressed)) =>
            if raw != req.newSize then Err(InvalidRequest)
            else if req.newSize > I64_MAX || compressed > I64_MAX then Err(IntegerConversion)
            else Ok(CommitWrites(t, req, lease.fileId, compressed, now))
  }

  /* ---- Delete, copy, rename ---- */

  /** Deleting a `files` row cascades to its bundles and its lease. */
  function DropFile(t: Tables, fileId: nat): Tables {
    t.(files := t.files - {fileId}, fileBundles := t.fileBundles - {fileId},
       leases := map l | l in t.leases && t.leases[l].fileId != fileId :: t.leases[l])
  }

  function DeleteFile(t: Tables, fileId: nat, now: nat): Result<Tables> {
    if fileId > I64_MAX then Err(IntegerConversion)
    else if fileId !in t.files then Err(NotFound)
    else
      var t1 := DropFile(t, fileId);
      Ok(t1.(log := t1.log + [Change(Deleted, None, fileId, now)]))
  }

  /** The row of a copy, in its directory. */
  ghost function CopyRow(t: Tables, source: nat, path: string, now: nat): Result<(Tables, nat)> {
    if Target(path).Err? then Err(Target(path).error)
    else if source > I64_MAX then Err(IntegerConversion)
    else if source !in t.files then Err(NotFound)
    else match MakePlace(t, path, None)
      case Err(e) => Err(e)
      case Ok((d, p, name)) =>
        Ok((AddFile(t, d, FileRow(p, name, t.files[source].size, t.files[source].compressed, now, now)), t.nextFileId))
  }

  function Logging(t: Tables, c: Change): Tables {
    t.(log := t.log + [c])
  }

  function CopyBundles(t: Tables, source: nat, target: nat): Tables {
    t.(fileBundles := t.fileBundles[target := RowsOf(t, source)])
  }

  ghost function CopyFile(t: Tables, source: nat, path: string, now: nat): Result<Tables> {
    match CopyRow(t, source, path, now)
    case Err(e) => Err(e)
    case Ok((t1, f)) =>
      var (names, name) := Target(path).value;
      Ok(Logging(CopyBundles(t1, source, f), Change(Created, Some((PathOf(names), name)), f, now)))
  }

  /** The row of a renamed file, in its directory. */
  ghost function RenameRow(t: Tables, fileId: nat, path: string, now: nat): Result<Tables> {
    match MakePlace(t, path, Some(fileId))
    case Err(e) => Err(e)
    case Ok((d, p, name)) =>
      if fileId > I64_MAX then Err(IntegerConversion)
      else if fileId !in t.files then Err(NotFound)
      else Ok(t.(dirs := d, files := t.files[fileId := t.files[fileId].(dirId := p, name := name, updatedAt := now)]))
  }

  ghost function RenameFile(t: Tables, fileId: nat, path: string, now: nat): Result<Tables> {
    match RenameRow(t, fileId, path, now)
    case Err(e) => Err(e)
    case Ok(t1) =>
      var (names, name) := Target(path).value;
      Ok(Logging(t1, Change(Moved, Some((PathOf(names), name)), fileId, now)))
  }

  /** `remove_dir`: only an empty directory other than the root. */
  ghost predicate IsEmptyDir(t: Tables, id: nat) {
    && (forall k :: k in t.dirs ==> t.dirs[k].parent != Some(id))
    && (forall f :: f in t.files ==> t.files[f].dirId != id)
  }

  ghost function RemoveDir(t: Tables, path: string): Result<Tables> {
    if path == "/" then Err(InvalidRequest)
    else match SplitComponents(path)
      case Err(e) => Err(e)
      case Ok(names) =>
        match Resolve(t.dirs, names)
        case None => Err(NotFound)
        case Some(id) => if IsEmptyDir(t, id) then Ok(t.(dirs := t.dirs - {id})) else Err(InvalidRequest)
  }

  /* ---- All requests ---- */

  datatype Request =
    | Begin(path: string, offset: nat, volumeId: nat)
    | Drop(leaseId: nat)
    | Commit(request: CommitRequest, checked: nat)
    | Abort(leaseId: nat, fileId: nat)
    | Delete(fileId: nat)
    | Copy(fileId: nat, path: string)
    | Rename(fileId: nat, path: string)
    | Report(events: seq<Replicas.Event>, online: map<nat, nat>, storageId: nat)
    | Remove(path: string)

  ghost predicate FilesInTree(t: Tables) {
    forall f :: f in t.files ==> t.files[f].dirId in t.dirs
  }

  ghost function Apply(t: Tables, request: Request, now: nat): Result<Tables>
    requires TreeOk(t.dirs) && FilesInTree(t)
  {
    match request
    case Begin(path, offset, volumeId) => BeginUpdate(t, path, offset, volumeId, now)
    case Drop(leaseId) => Ok(DropLease(t, leaseId))
    case Commit(req, checked) => CommitUpdate(t, req, checked, now)
    case Abort(leaseId, fileId) => AbortUpdate(t, leaseId, fileId, now)
    case Delete(fileId) => DeleteFile(t, fileId, now)
    case Copy(fileId, path) => CopyFile(t, fileId, path, now)
    case Rename(fileId, path) => RenameFile(t, fileId, path, now)
    case Report(events, online, storageId) =>
      (match Replicas.Report(t.replicas, events, online, storageId)
       case Err(e) => Err(e)
       case Ok(r) => Ok(t.(replicas := r)))
    case Remove(path) => RemoveDir(t, path)
  }

  /** A transaction is a copy of the tables that is kept on success and dropped on failure. */
  ghost function Next(t: Tables, request: Request, now: nat): Tables
    requires TreeOk(t.dirs) && FilesInTree(t)
  {
    var r := Apply(t, request, now);
    if r.Ok? then r.value else t
  }
}
