/** Main results about central's tables: the namespace, the lease protocol, sizes and the
    change log, over all runs of requests with an arbitrary clock. */
module CentralRuns {
  import opened Core
  import opened Paths
  import opened DirTree
  import opened CentralTables
  import opened CentralModel
  import Replicas

  datatype Step = Step(request: Request, now: nat)

  const EMPTY: Tables := Tables(map[ROOT := ROOT_ROW], map[], 1, map[], map[], map[], 1, [])

  lemma {:induction false} EmptyOk()
    ensures TablesOk(EMPTY)
  {}

  ghost function Run(t: Tables, steps: seq<Step>): (t1: Tables)
    requires TablesOk(t)
    ensures TablesOk(t1)
  {
    if steps == [] then t
    else
      var before := Run(t, steps[..|steps| - 1]);
      var last := steps[|steps| - 1];
      RequestKept(before, last.request, last.now);
      Next(before, last.request, last.now)
  }

  /** Every state central can reach. */
  ghost function FromEmpty(steps: seq<Step>): (t: Tables)
    ensures TablesOk(t)
  {
    EmptyOk();
    Run(EMPTY, steps)
  }

  lemma {:induction false} RunSnoc(t: Tables, steps: seq<Step>, last: Step)
    requires TablesOk(t)
    ensures Run(t, steps + [last]) == Next(Run(t, steps), last.request, last.now)
  {
    assert (steps + [last])[..|steps|] == steps;
  }

  lemma {:induction false} RunSplit(t: Tables, a: seq<Step>, b: seq<Step>)
    requires TablesOk(t)
    ensures Run(t, a + b) == Run(Run(t, a), b)
  {
    if b == [] {
      assert a + b == a;
    } else {
      var init, last := b[..|b| - 1], b[|b| - 1];
      assert b == init + [last] && a + b == (a + init) + [last];
      RunSplit(t, a, init);
      RunSnoc(t, a + init, last);
      RunSnoc(Run(t, a), init, last);
    }
  }

  /* ---- The namespace ---- */

  ghost function FilePath(t: Tables, f: nat): string
    requires TablesOk(t) && f in t.files
  {
    JoinPath(DirPath(t.dirs, t.files[f].dirId), t.files[f].name)
  }

  /** Looking a path up finds a file exactly when it is that file's path. */
  lemma {:induction false} LookupIff(t: Tables, path: string, f: nat)
    requires TablesOk(t)
    ensures GetFileByPath(t, path) == Ok(f) <==> f in t.files && FilePath(t, f) == path
  {
    if GetFileByPath(t, path) == Ok(f) { LookupFinds(t, path, f); }
    if f in t.files && FilePath(t, f) == path { PathFinds(t, f); }
  }

  lemma {:induction false} LookupFinds(t: Tables, path: string, f: nat)
    requires TablesOk(t) && GetFileByPath(t, path) == Ok(f)
    ensures f in t.files && FilePath(t, f) == path
  {
    var (names, name) := Target(path).value;
    DownThenUp(t.dirs, names);
    var d := Resolve(t.dirs, names).value;
    assert IsFileAt(t.files, d, name, f);
  }

  lemma {:induction false} PathFinds(t: Tables, f: nat)
    requires TablesOk(t) && f in t.files
    ensures GetFileByPath(t, FilePath(t, f)) == Ok(f)
  {
    var row := t.files[f];
    var names := NamesOf(t.dirs, row.dirId);
    ComponentsOfPath(names);
    NameDirRoundTrip(PathOf(names), row.name);
    SameTarget(FilePath(t, f), names, row.name);
    UpThenDown(t.dirs, row.dirId);
    FileAtIs(t.files, f);
  }

  lemma {:induction false} SameTarget(path: string, names: seq<string>, name: string)
    requires ValidNames(names) && SplitDirAndName(path) == Ok((PathOf(names), name))
    ensures Target(path) == Ok((names, name))
  {
    ComponentsOfPath(names);
    ComponentsOfPath(Target(path).value.0);
  }

  lemma {:induction false} FileAtIs(files: Files, f: nat)
    requires NamesUnique(files) && f in files
    ensures FileAt(files, files[f].dirId, files[f].name) == Some(f)
  {
    assert IsFileAt(files, files[f].dirId, files[f].name, f);
    assert FreeFor(files, files[f].dirId, files[f].name, f);
  }

  /** No two files share a path, and no file's path is a directory's. */
  lemma {:induction false} PathsApart(t: Tables, f: nat)
    requires TablesOk(t) && f in t.files
    ensures forall g :: g in t.files && FilePath(t, g) == FilePath(t, f) ==> g == f
    ensures forall d :: d in t.dirs ==> DirPath(t.dirs, d) != FilePath(t, f)
  {
    forall g | g in t.files && FilePath(t, g) == FilePath(t, f) ensures g == f {
      PathFinds(t, g);
      PathFinds(t, f);
    }
    forall d | d in t.dirs ensures DirPath(t.dirs, d) != FilePath(t, f) { DirNotFile(t, f, d); }
  }

  lemma {:induction false} DirNotFile(t: Tables, f: nat, d: nat)
    requires TablesOk(t) && f in t.files && d in t.dirs
    ensures DirPath(t.dirs, d) != FilePath(t, f)
  {
    var row := t.files[f];
    var names := NamesOf(t.dirs, row.dirId);
    assert ValidNames(names + [row.name]);
    PathOfSnoc(names, row.name);
    ComponentsOfPath(names + [row.name]);
    ComponentsOfPath(NamesOf(t.dirs, d));
    assert NoDirNamed(t.dirs, row.dirId, row.name);
    assert t.dirs[d] != DirRow(Some(row.dirId), row.name);
    if NamesOf(t.dirs, d) == names + [row.name] { ChildPath(t.dirs, d, row.dirId, row.name); }
  }

  lemma {:induction false} ChildPath(dirs: Dirs, d: nat, p: nat, name: string)
    requires TreeOk(dirs) && d in dirs && p in dirs && NamesOf(dirs, d) == NamesOf(dirs, p) + [name]
    ensures dirs[d] == DirRow(Some(p), name)
  {
    assert d != ROOT;
    assert RowOk(dirs, d);
    var q := dirs[d].parent.value;
    assert (NamesOf(dirs, q) + [dirs[d].name])[..|NamesOf(dirs, q)|] == NamesOf(dirs, q);
    assert (NamesOf(dirs, p) + [name])[..|NamesOf(dirs, p)|] == NamesOf(dirs, p);
    SamePathSameDir(dirs, q, p);
  }

  /** The file's row, its bundles and its path are what they were. */
  ghost predicate Untouched(t: Tables, t1: Tables, f: nat)
    requires TablesOk(t) && TablesOk(t1)
  {
    && (f in t.files <==> f in t1.files)
    && (f in t.files ==> t1.files[f] == t.files[f] && FilePath(t1, f) == FilePath(t, f))
    && RowsOf(t1, f) == RowsOf(t, f)
  }

  /** The file a request is about. */
  ghost function Subject(t: Tables, request: Request): Option<nat> {
    match request
    case Begin(path, _, _) => if GetFileByPath(t, path).Ok? then None else Some(t.nextFileId)
    case Commit(req, _) => Some(req.fileId)
    case Delete(fileId) => Some(fileId)
    case Copy(_, _) => Some(t.nextFileId)
    case Rename(fileId, _) => Some(fileId)
    case _ => None
  }

  /** Directories only grew, and the rows of all files but one are the same. */
  ghost predicate Frame(t: Tables, t1: Tables, subject: Option<nat>) {
    && Extends(t.dirs, t1.dirs)
    && forall f: nat :: Some(f) != subject ==> SameRows(t, t1, f)
  }

  ghost predicate SameRows(t: Tables, t1: Tables, f: nat) {
    && (f in t.files <==> f in t1.files)
    && (f in t.files ==> t1.files[f] == t.files[f])
    && RowsOf(t1, f) == RowsOf(t, f)
  }

  lemma {:induction false} FrameUntouched(t: Tables, t1: Tables, subject: Option<nat>, f: nat)
    requires TablesOk(t) && TablesOk(t1) && Frame(t, t1, subject) && Some(f) != subject
    ensures Untouched(t, t1, f)
  {
    assert SameRows(t, t1, f);
    if f in t.files { NamesStable(t.dirs, t1.dirs, t.files[f].dirId); }
  }

  lemma {:induction false} PlaceGrows(t: Tables, path: string, existing: Option<nat>)
    requires TablesOk(t) && MakePlace(t, path, existing).Ok?
    ensures Extends(t.dirs, MakePlace(t, path, existing).value.0)
  {
    PlaceOk(t, path, existing);
  }

  lemma {:induction false} OpenFrame(t: Tables, path: string, offset: nat, now: nat)
    requires TablesOk(t) && OpenFile(t, path, offset, now).Ok?
    ensures Frame(t, OpenFile(t, path, offset, now).value.0, if GetFileByPath(t, path).Ok? then None else Some(t.nextFileId))
  {
    if GetFileByPath(t, path).Err? {
      PlaceGrows(t, path, None);
      var (d, p, name) := MakePlace(t, path, None).value;
      AddedFrame(t, d, FileRow(p, name, 0, 0, now, now));
    }
  }

  lemma {:induction false} AddedFrame(t: Tables, dirs: Dirs, row: FileRow)
    requires Extends(t.dirs, dirs)
    ensures Frame(t, AddFile(t, dirs, row), Some(t.nextFileId))
  {}

  lemma {:induction false} BeginFrame(t: Tables, path: string, offset: nat, volumeId: nat, now: nat)
    requires TablesOk(t) && BeginUpdate(t, path, offset, volumeId, now).Ok?
    ensures Frame(t, BeginUpdate(t, path, offset, volumeId, now).value, Subject(t, Begin(path, offset, volumeId)))
  {
    OpenFrame(t, path, offset, now);
    LeasesFrame(t, OpenFile(t, path, offset, now).value.0, BeginUpdate(t, path, offset, volumeId, now).value,
                Subject(t, Begin(path, offset, volumeId)));
  }

  lemma {:induction false} LeasesFrame(t: Tables, t1: Tables, t2: Tables, subject: Option<nat>)
    requires Frame(t, t1, subject) && t2.dirs == t1.dirs && t2.files == t1.files && t2.fileBundles == t1.fileBundles
    ensures Frame(t, t2, subject)
  {
    forall f: nat | Some(f) != subject ensures SameRows(t, t2, f) { assert SameRows(t, t1, f); }
  }

  lemma {:induction false} CopyFrame(t: Tables, source: nat, path: string, now: nat)
    requires TablesOk(t) && CopyFile(t, source, path, now).Ok?
    ensures Frame(t, CopyFile(t, source, path, now).value, Some(t.nextFileId))
  {
    PlaceGrows(t, path, None);
  }

  lemma {:induction false} RenameFrame(t: Tables, fileId: nat, path: string, now: nat)
    requires TablesOk(t) && RenameFile(t, fileId, path, now).Ok?
    ensures Frame(t, RenameFile(t, fileId, path, now).value, Some(fileId))
  {
    PlaceGrows(t, path, Some(fileId));
  }

  lemma {:induction false} CommitFrame(t: Tables, req: CommitRequest, checked: nat, now: nat)
    requires TreeOk(t.dirs) && FilesInTree(t) && CommitUpdate(t, req, checked, now).Ok?
    ensures Frame(t, CommitUpdate(t, req, checked, now).value, Some(req.fileId))
  {
    var _ := CommitSizes(t, req, checked, now);
  }

  lemma {:induction false} DeleteFrame(t: Tables, fileId: nat, now: nat)
    requires DeleteFile(t, fileId, now).Ok?
    ensures Frame(t, DeleteFile(t, fileId, now).value, Some(fileId))
  {}

  lemma {:induction false} RequestFrame(t: Tables, request: Request, now: nat)
    requires TablesOk(t) && Apply(t, request, now).Ok? && !request.Remove?
    ensures Frame(t, Apply(t, request, now).value, Subject(t, request))
  {
    match request
    case Begin(path, offset, volumeId) => BeginFrame(t, path, offset, volumeId, now);
    case Copy(source, path) => CopyFrame(t, source, path, now);
    case Rename(fileId, path) => RenameFrame(t, fileId, path, now);
    case Commit(req, checked) => CommitFrame(t, req, checked, now);
    case Delete(fileId) => DeleteFrame(t, fileId, now);
    case Drop(_) =>
    case Abort(_, _) =>
    case Report(_, _, _) =>
  }

  /** No request touches a file other than the one it is about. */
  lemma {:induction false} OthersUntouched(t: Tables, request: Request, now: nat, f: nat)
    requires TablesOk(t) && Some(f) != Subject(t, request)
    ensures TablesOk(Next(t, request, now)) && Untouched(t, Next(t, request, now), f)
  {
    RequestKept(t, request, now);
    if Apply(t, request, now).Ok? {
      if request.Remove? {
        RemoveUntouched(t, request.path, f);
      } else {
        RequestFrame(t, request, now);
        FrameUntouched(t, Next(t, request, now), Subject(t, request), f);
      }
    }
  }

  lemma {:induction false} RemoveUntouched(t: Tables, path: string, f: nat)
    requires TablesOk(t) && RemoveDir(t, path).Ok? && TablesOk(RemoveDir(t, path).value)
    ensures Untouched(t, RemoveDir(t, path).value, f)
  {
    var id := RemovedDir(t, path);
    RemoveLeafOk(t.dirs, id);
  }

  /** The file an update starts from is the one at the path. */
  lemma {:induction false} OpenFinds(t: Tables, path: string, offset: nat, now: nat)
    requires TablesOk(t) && OpenFile(t, path, offset, now).Ok? && TablesOk(OpenFile(t, path, offset, now).value.0)
    ensures var (t1, f) := OpenFile(t, path, offset, now).value;
      && f in t1.files && FilePath(t1, f) == path
      && (if f in t.files then GetFileByPath(t, path) == Ok(f) && t1 == t
          else GetFileByPath(t, path) == Err(NotFound) && offset == 0 && t1.files[f].size == 0)
  {
    if GetFileByPath(t, path).Ok? {
      LookupFinds(t, path, GetFileByPath(t, path).value);
    } else {
      PlaceOk(t, path, None);
      assert t.nextFileId !in t.files;
    }
  }

  /** A successful begin leases the file at the path, alone, from its present size. */
  lemma {:induction false} BeginLeases(t: Tables, path: string, offset: nat, volumeId: nat, now: nat)
    requires TablesOk(t) && BeginUpdate(t, path, offset, volumeId, now).Ok?
    ensures TablesOk(BeginUpdate(t, path, offset, volumeId, now).value)
    ensures var t1 := BeginUpdate(t, path, offset, volumeId, now).value; var l := t.nextLeaseId;
      && l !in t.leases && l in t1.leases && t1.leases[l].fileId in t1.files
      && FilePath(t1, t1.leases[l].fileId) == path && OnlyLease(t1.leases, t1.leases[l].fileId, l)
      && t1.leases[l].baseSize == t1.files[t1.leases[l].fileId].size && t1.leases[l].offset == offset
      && t1.leases[l].volumeId == volumeId && t1.leases[l].expiresAt == now + 60_000
      && (t1.leases[l].fileId in t.files || (offset == 0 && t1.files[t1.leases[l].fileId].size == 0))
  {
    BeginKept(t, path, offset, volumeId, now);
    OpenKept(t, path, offset, now);
    OpenFinds(t, path, offset, now);
    var t1 := BeginUpdate(t, path, offset, volumeId, now).value;
    var l := t.nextLeaseId;
    assert OnlyLease(t1.leases, t1.leases[l].fileId, l);
  }

  /** A rename gives the file the wanted path and keeps its size and bundles. */
  lemma {:induction false} RenameMoves(t: Tables, fileId: nat, path: string, now: nat)
    requires TablesOk(t) && RenameFile(t, fileId, path, now).Ok?
    ensures var t1 := RenameFile(t, fileId, path, now).value;
      && TablesOk(t1) && fileId in t1.files && FilePath(t1, fileId) == path
      && fileId in t.files && t1.files[fileId].size == t.files[fileId].size
      && t1.files[fileId].compressed == t.files[fileId].compressed
      && t1.files[fileId].createdAt == t.files[fileId].createdAt && RowsOf(t1, fileId) == RowsOf(t, fileId)
  {
    RenameKept(t, fileId, path, now);
    PlaceOk(t, path, Some(fileId));
  }

  /** A copy is a new file at the wanted path with the source's sizes and bundle list. */
  lemma {:induction false} CopyDuplicates(t: Tables, source: nat, path: string, now: nat)
    requires TablesOk(t) && CopyFile(t, source, path, now).Ok?
    ensures var t1 := CopyFile(t, source, path, now).value; var f := t.nextFileId;
      && TablesOk(t1) && f !in t.files && f in t1.files && FilePath(t1, f) == path
      && source in t.files && t1.files[f].size == t.files[source].size
      && t1.files[f].compressed == t.files[source].compressed && RowsOf(t1, f) == RowsOf(t, source)
  {
    CopyKept(t, source, path, now);
    PlaceOk(t, path, None);
  }

  /* ---- The lease protocol ---- */

  /** While a lease lives, nothing changes its file's size or bundle list, and an id that
      is gone never comes back. */
  lemma {:induction false} LeaseHeld(t: Tables, request: Request, now: nat, l: nat)
    requires TablesOk(t) && l < t.nextLeaseId && l in Next(t, request, now).leases
    ensures var t1 := Next(t, request, now);
      && TablesOk(t1) && l in t.leases && t1.leases[l] == t.leases[l] && l < t1.nextLeaseId
      && t.leases[l].fileId in t.files && t.leases[l].fileId in t1.files
      && t1.files[t.leases[l].fileId].size == t.files[t.leases[l].fileId].size
      && RowsOf(t1, t.leases[l].fileId) == RowsOf(t, t.leases[l].fileId)
  {
    RequestKept(t, request, now);
    LeaseSurvives(t, request, now, l);
    assert LeaseOk(t.files, t.leases[l]);
    var f := t.leases[l].fileId;
    if Some(f) != Subject(t, request) {
      OthersUntouched(t, request, now, f);
    } else if Apply(t, request, now).Ok? {
      SubjectLeased(t, request, now, l);
    }
  }

  /** `t1` keeps `t`'s leases, or drops some, and may hand out a new id. */
  ghost predicate LeasesShrink(t: Tables, t1: Tables) {
    && t.nextLeaseId <= t1.nextLeaseId
    && forall l :: l in t1.leases && l < t.nextLeaseId ==> l in t.leases && t1.leases[l] == t.leases[l]
  }

  lemma {:induction false} BeginShrinks(t: Tables, path: string, offset: nat, volumeId: nat, now: nat)
    requires TablesOk(t) && BeginUpdate(t, path, offset, volumeId, now).Ok?
    ensures LeasesShrink(t, BeginUpdate(t, path, offset, volumeId, now).value)
  {
    OpenKept(t, path, offset, now);
  }

  lemma {:induction false} LeaseSurvives(t: Tables, request: Request, now: nat, l: nat)
    requires TablesOk(t) && l < t.nextLeaseId && l in Next(t, request, now).leases
    ensures l in t.leases && Next(t, request, now).leases[l] == t.leases[l] && l < Next(t, request, now).nextLeaseId
  {
    if Apply(t, request, now).Ok? {
      if request.Begin? {
        BeginShrinks(t, request.path, request.offset, request.volumeId, now);
      } else {
        LeasesShrinkOnly(t, request, now);
      }
    }
  }

  /** Only a begin gives out a lease. */
  lemma {:induction false} LeasesShrinkOnly(t: Tables, request: Request, now: nat)
    requires TreeOk(t.dirs) && FilesInTree(t) && Apply(t, request, now).Ok? && !request.Begin?
    ensures LeasesShrink(t, Apply(t, request, now).value)
  {
    if request.Commit? { var _ := CommitSizes(t, request.request, request.checked, now); }
  }

  /** Of the requests about a leased file, those that keep its lease keep its contents. */
  lemma {:induction false} SubjectLeased(t: Tables, request: Request, now: nat, l: nat)
    requires TablesOk(t) && l in t.leases && Subject(t, request) == Some(t.leases[l].fileId)
    requires Apply(t, request, now).Ok? && l in Apply(t, request, now).value.leases
    ensures var t1 := Apply(t, request, now).value; var f := t.leases[l].fileId;
      f in t1.files && f in t.files && t1.files[f].size == t.files[f].size && RowsOf(t1, f) == RowsOf(t, f)
  {
    var f := t.leases[l].fileId;
    assert LeaseOk(t.files, t.leases[l]);
    assert f < t.nextFileId;
    match request
    case Commit(req, checked) =>
      assert OnlyLease(t.leases, f, l);
      var _ := CommitSizes(t, req, checked, now);
    case Rename(fileId, path) => RenameMoves(t, fileId, path, now);
    case Delete(fileId) =>
    case _ =>
  }

  lemma {:induction false} RunHeld(t: Tables, steps: seq<Step>, l: nat)
    requires TablesOk(t) && l < t.nextLeaseId && l in Run(t, steps).leases
    ensures var t1 := Run(t, steps);
      && l in t.leases && t1.leases[l] == t.leases[l] && l < t1.nextLeaseId
      && t.leases[l].fileId in t.files && t.leases[l].fileId in t1.files
      && t1.files[t.leases[l].fileId].size == t.files[t.leases[l].fileId].size
      && RowsOf(t1, t.leases[l].fileId) == RowsOf(t, t.leases[l].fileId)
  {
    if steps == [] {
      assert LeaseOk(t.files, t.leases[l]);
    } else {
      var before := Run(t, steps[..|steps| - 1]);
      var last := steps[|steps| - 1];
      NextLeaseGrows(t, steps[..|steps| - 1]);
      LeaseHeld(before, last.request, last.now, l);
      RunHeld(t, steps[..|steps| - 1], l);
    }
  }

  lemma {:induction false} NextLeaseGrows(t: Tables, steps: seq<Step>)
    requires TablesOk(t)
    ensures t.nextLeaseId <= Run(t, steps).nextLeaseId
  {
    if steps != [] {
      var init, last := steps[..|steps| - 1], steps[|steps| - 1];
      NextLeaseGrows(t, init);
      CounterGrows(Run(t, init), last.request, last.now);
    }
  }

  lemma {:induction false} CounterGrows(t: Tables, request: Request, now: nat)
    requires TreeOk(t.dirs) && FilesInTree(t)
    ensures t.nextLeaseId <= Next(t, request, now).nextLeaseId
  {}

  /** No lost update: whatever happens between a begin and the commit of its lease, the
      commit replaces exactly the size and the bundle list that the begin saw. */
  lemma {:induction false} NoLostUpdate(t: Tables, begin: Step, steps: seq<Step>, req: CommitRequest, checked: nat, later: nat)
    requires TablesOk(t) && begin.request.Begin? && Apply(t, begin.request, begin.now).Ok?
    requires req.leaseId == t.nextLeaseId && CommitUpdate(Run(t, [begin] + steps), req, checked, later).Ok?
    ensures var begun, before := Run(t, [begin]), Run(t, [begin] + steps);
      var after := CommitUpdate(before, req, checked, later).value;
      && req.fileId in begun.files && FilePath(begun, req.fileId) == begin.request.path
      && req.fileId in before.files && before.files[req.fileId].size == begun.files[req.fileId].size == req.baseSize
      && RowsOf(before, req.fileId) == RowsOf(begun, req.fileId)
      && req.fileId in after.files && after.files[req.fileId].size == req.newSize
      && RowsOf(after, req.fileId) == Numbered(req.bundles)
  {
    assert [begin][..0] == [];
    var begun := Run(t, [begin]);
    RunSplit(t, [begin], steps);
    BeginLeases(t, begin.request.path, begin.request.offset, begin.request.volumeId, begin.now);
    var _ := CommitSizes(Run(begun, steps), req, checked, later);
    RunHeld(begun, steps, req.leaseId);
  }

  /** Whatever happens in between, a lease can be committed only in the minute after the
      clock reading of its begin. */
  lemma {:induction false} CommittedInTime(t: Tables, begin: Step, steps: seq<Step>, req: CommitRequest, checked: nat, later: nat)
    requires TablesOk(t) && begin.request.Begin? && Apply(t, begin.request, begin.now).Ok?
    requires req.leaseId == t.nextLeaseId && CommitUpdate(Run(t, [begin] + steps), req, checked, later).Ok?
    ensures checked < begin.now + 60_000
  {
    assert [begin][..0] == [];
    var begun := Run(t, [begin]);
    RunSplit(t, [begin], steps);
    BeginLeases(t, begin.request.path, begin.request.offset, begin.request.volumeId, begin.now);
    CommitAcceptedIff(Run(begun, steps), req, checked, later);
    LeaseKept(begun, steps, req.leaseId);
  }

  /** A lease that is still there is the one that was given out. */
  lemma {:induction false} LeaseKept(t: Tables, steps: seq<Step>, l: nat)
    requires TablesOk(t) && l < t.nextLeaseId && l in Run(t, steps).leases
    ensures l in t.leases && Run(t, steps).leases[l] == t.leases[l]
  {
    RunHeld(t, steps, l);
  }

  /** Once the lease's base size matches the request, the file is there with that size: the
      second conflict of a commit cannot happen. */
  lemma {:induction false} SizeConflictUnreachable(t: Tables, req: CommitRequest)
    requires TablesOk(t) && req.leaseId in t.leases && t.leases[req.leaseId].fileId == req.fileId
    requires t.leases[req.leaseId].baseSize == req.baseSize
    ensures req.fileId in t.files && t.files[req.fileId].size == req.baseSize
  {
    assert LeaseOk(t.files, t.leases[req.leaseId]);
  }

  /* ---- Sizes ---- */

  /** The raw lengths of rows, each by its bundle's lowest replica. */
  ghost function RawSum(replicas: Replicas.Table, rows: seq<BundleRow>): nat {
    if rows == [] then 0
    else
      var last := Replicas.LensOf(replicas, rows[|rows| - 1].bundleId);
      RawSum(replicas, rows[..|rows| - 1]) + if last.Some? then last.value.raw else 0
  }

  ghost function CompressedSum(replicas: Replicas.Table, rows: seq<BundleRow>): nat {
    if rows == [] then 0
    else
      var last := Replicas.LensOf(replicas, rows[|rows| - 1].bundleId);
      CompressedSum(replicas, rows[..|rows| - 1]) + if last.Some? then last.value.compressed else 0
  }

  ghost predicate AllReady(replicas: Replicas.Table, rows: seq<BundleRow>) {
    forall i :: 0 <= i < |rows| ==> Replicas.LensOf(replicas, rows[i].bundleId).Some?
  }

  /** `calculate_size_by_file_id` succeeds exactly when every bundle has a replica and both
      sums fit 64 bits, and then it returns the sums. */
  lemma {:induction false} CalculateIsSums(replicas: Replicas.Table, rows: seq<BundleRow>)
    ensures CalculateSize(replicas, rows).Ok? <==>
      AllReady(replicas, rows) && RawSum(replicas, rows) <= U64_MAX && CompressedSum(replicas, rows) <= U64_MAX
    ensures CalculateSize(replicas, rows).Ok? ==>
      CalculateSize(replicas, rows).value == (RawSum(replicas, rows), CompressedSum(replicas, rows))
  {
    if rows != [] {
      var init := rows[..|rows| - 1];
      CalculateIsSums(replicas, init);
      assert AllReady(replicas, rows) <==> AllReady(replicas, init) && Replicas.LensOf(replicas, rows[|rows| - 1].bundleId).Some?;
    }
  }

  /** Each submitted raw length is the one central knows. */
  ghost predicate LengthsMatch(replicas: Replicas.Table, bundles: seq<Submitted>) {
    forall i :: 0 <= i < |bundles| ==>
      Replicas.LensOf(replicas, bundles[i].bundleId).Some? && Replicas.LensOf(replicas, bundles[i].bundleId).value.raw == bundles[i].raw
  }

  lemma {:induction false} NumberedPrefix(bundles: seq<Submitted>)
    requires bundles != []
    ensures Numbered(bundles)[..|bundles| - 1] == Numbered(bundles[..|bundles| - 1])
  {}

  /** The first loop of a commit succeeds exactly when every submitted length is the known
      one and the sum fits; the sum is then the stored rows' raw sum. */
  lemma {:induction false} SubmittedIsRawSum(replicas: Replicas.Table, bundles: seq<Submitted>)
    ensures SubmittedSum(replicas, bundles).Ok? <==>
      LengthsMatch(replicas, bundles) && RawSum(replicas, Numbered(bundles)) <= U64_MAX
    ensures SubmittedSum(replicas, bundles).Ok? ==> SubmittedSum(replicas, bundles).value == RawSum(replicas, Numbered(bundles))
  {
    if bundles != [] {
      var init, last := bundles[..|bundles| - 1], bundles[|bundles| - 1];
      SubmittedIsRawSum(replicas, init);
      NumberedPrefix(bundles);
      assert LengthsMatch(replicas, bundles) <==>
        (LengthsMatch(replicas, init) && Replicas.LensOf(replicas, last.bundleId).Some?
         && Replicas.LensOf(replicas, last.bundleId).value.raw == last.raw);
    }
  }

  /** After the submitted lengths were accepted, recomputing the raw size from the stored
      rows gives the same number, or fails on the compressed sum alone. */
  lemma {:induction false} SecondCheckRedundant(replicas: Replicas.Table, bundles: seq<Submitted>)
    requires SubmittedSum(replicas, bundles).Ok?
    ensures CalculateSize(replicas, Numbered(bundles)).Ok? ==>
      CalculateSize(replicas, Numbered(bundles)).value.0 == SubmittedSum(replicas, bundles).value
    ensures CalculateSize(replicas, Numbered(bundles)).Err? <==> CompressedSum(replicas, Numbered(bundles)) > U64_MAX
  {
    SubmittedIsRawSum(replicas, bundles);
    CalculateIsSums(replicas, Numbered(bundles));
    assert AllReady(replicas, Numbered(bundles));
  }

  /** A commit is accepted exactly when its lease is active for the file and the base size,
      the new size reaches the offset, every bundle is known with the submitted raw length,
      the lengths add up to the new size, and both sizes fit a column. */
  lemma {:induction false} CommitAcceptedIff(t: Tables, req: CommitRequest, checked: nat, now: nat)
    requires TablesOk(t)
    ensures CommitUpdate(t, req, checked, now).Ok? <==>
      && req.leaseId <= I64_MAX && req.fileId <= I64_MAX
      && req.leaseId in t.leases && t.leases[req.leaseId].fileId == req.fileId && checked < t.leases[req.leaseId].expiresAt
      && t.leases[req.leaseId].baseSize == req.baseSize && t.leases[req.leaseId].offset <= req.newSize
      && LengthsMatch(t.replicas, req.bundles) && RawSum(t.replicas, Numbered(req.bundles)) == req.newSize <= I64_MAX
      && CompressedSum(t.replicas, Numbered(req.bundles)) <= I64_MAX
  {
    SubmittedIsRawSum(t.replicas, req.bundles);
    CalculateIsSums(t.replicas, Numbered(req.bundles));
    if LengthsMatch(t.replicas, req.bundles) { assert AllReady(t.replicas, Numbered(req.bundles)); }
    if req.leaseId in t.leases && t.leases[req.leaseId].fileId == req.fileId && t.leases[req.leaseId].baseSize == req.baseSize {
      SizeConflictUnreachable(t, req);
    }
  }

  /* ---- Sizes over runs, when every bundle has one pair of lengths ---- */

  type Lengths = HashId -> Replicas.Lens

  function FixedRaw(len: Lengths, rows: seq<BundleRow>): nat {
    if rows == [] then 0 else FixedRaw(len, rows[..|rows| - 1]) + len(rows[|rows| - 1].bundleId).raw
  }

  function FixedCompressed(len: Lengths, rows: seq<BundleRow>): nat {
    if rows == [] then 0 else FixedCompressed(len, rows[..|rows| - 1]) + len(rows[|rows| - 1].bundleId).compressed
  }

  ghost predicate ReplicasFixed(replicas: Replicas.Table, len: Lengths) {
    forall key :: key in replicas ==> replicas[key] == len(key.0)
  }

  ghost predicate SizeIsSum(t: Tables, len: Lengths, f: nat)
    requires f in t.files
  {
    t.files[f].size == FixedRaw(len, RowsOf(t, f)) && t.files[f].compressed == FixedCompressed(len, RowsOf(t, f))
  }

  ghost predicate SizesOk(t: Tables, len: Lengths) {
    forall f {:trigger SizeIsSum(t, len, f)} :: f in t.files ==> SizeIsSum(t, len, f)
  }

  /** Every reported length is the bundle's. */
  ghost predicate ReportsFixed(request: Request, len: Lengths) {
    request.Report? ==> forall i :: 0 <= i < |request.events| && request.events[i].kind.Stored? ==>
      request.events[i].lens == len(request.events[i].bundleId)
  }

  lemma {:induction false} FixedSums(replicas: Replicas.Table, len: Lengths, rows: seq<BundleRow>)
    requires ReplicasFixed(replicas, len) && AllReady(replicas, rows)
    ensures RawSum(replicas, rows) == FixedRaw(len, rows) && CompressedSum(replicas, rows) == FixedCompressed(len, rows)
  {
    if rows != [] {
      var b := rows[|rows| - 1].bundleId;
      assert Replicas.LensOf(replicas, b).Some?;
      assert (b, Replicas.LowestVolume(replicas, b)) in replicas;
      FixedSums(replicas, len, rows[..|rows| - 1]);
    }
  }

  lemma {:induction false} BatchFixed(replicas: Replicas.Table, events: seq<Replicas.Event>, len: Lengths)
    requires ReplicasFixed(replicas, len) && Replicas.ApplyBatch(replicas, events).Ok?
    requires forall i :: 0 <= i < |events| && events[i].kind.Stored? ==> events[i].lens == len(events[i].bundleId)
    ensures ReplicasFixed(Replicas.ApplyBatch(replicas, events).value, len)
  {
    if events != [] {
      var init := events[..|events| - 1];
      assert forall i :: 0 <= i < |init| ==> init[i] == events[i];
      BatchFixed(replicas, init, len);
    }
  }

  lemma {:induction false} SizesKept(t: Tables, request: Request, now: nat, len: Lengths)
    requires TablesOk(t) && SizesOk(t, len) && ReplicasFixed(t.replicas, len)
    ensures SizesOk(Next(t, request, now), len)
  {
    var t1 := Next(t, request, now);
    forall f | f in t1.files ensures SizeIsSum(t1, len, f) { SizeKept(t, request, now, len, f); }
  }

  lemma {:induction false} FixedKept(t: Tables, request: Request, now: nat, len: Lengths)
    requires TreeOk(t.dirs) && FilesInTree(t) && ReplicasFixed(t.replicas, len) && ReportsFixed(request, len)
    ensures ReplicasFixed(Next(t, request, now).replicas, len)
  {
    if request.Report? && Apply(t, request, now).Ok? { BatchFixed(t.replicas, request.events, len); }
  }

  lemma {:induction false} SizeKept(t: Tables, request: Request, now: nat, len: Lengths, f: nat)
    requires TablesOk(t) && SizesOk(t, len) && ReplicasFixed(t.replicas, len) && f in Next(t, request, now).files
    ensures SizeIsSum(Next(t, request, now), len, f)
  {
    if f in t.files { assert SizeIsSum(t, len, f); }
    if Some(f) != Subject(t, request) {
      OthersUntouched(t, request, now, f);
    } else if Apply(t, request, now).Ok? {
      SubjectSize(t, request, now, len, f);
    }
  }

  lemma {:induction false} BeginSize(t: Tables, path: string, offset: nat, volumeId: nat, now: nat, len: Lengths)
    requires TablesOk(t) && BeginUpdate(t, path, offset, volumeId, now).Ok? && GetFileByPath(t, path).Err?
    ensures t.nextFileId in BeginUpdate(t, path, offset, volumeId, now).value.files
    ensures SizeIsSum(BeginUpdate(t, path, offset, volumeId, now).value, len, t.nextFileId)
  {
    PlaceOk(t, path, None);
    assert t.nextFileId !in t.files;
  }

  lemma {:induction false} CommitSize(t: Tables, req: CommitRequest, checked: nat, now: nat, len: Lengths)
    requires TreeOk(t.dirs) && FilesInTree(t) && CommitUpdate(t, req, checked, now).Ok? && ReplicasFixed(t.replicas, len)
    ensures req.fileId in CommitUpdate(t, req, checked, now).value.files
    ensures SizeIsSum(CommitUpdate(t, req, checked, now).value, len, req.fileId)
  {
    var _ := CommitSizes(t, req, checked, now);
    CalculateIsSums(t.replicas, Numbered(req.bundles));
    FixedSums(t.replicas, len, Numbered(req.bundles));
  }

  lemma {:induction false} CopySize(t: Tables, source: nat, path: string, now: nat, len: Lengths)
    requires TablesOk(t) && SizesOk(t, len) && CopyFile(t, source, path, now).Ok?
    ensures t.nextFileId in CopyFile(t, source, path, now).value.files
    ensures SizeIsSum(CopyFile(t, source, path, now).value, len, t.nextFileId)
  {
    CopyDuplicates(t, source, path, now);
    assert SizeIsSum(t, len, source);
  }

  lemma {:induction false} RenameSize(t: Tables, fileId: nat, path: string, now: nat, len: Lengths)
    requires TablesOk(t) && SizesOk(t, len) && RenameFile(t, fileId, path, now).Ok?
    ensures fileId in RenameFile(t, fileId, path, now).value.files
    ensures SizeIsSum(RenameFile(t, fileId, path, now).value, len, fileId)
  {
    RenameMoves(t, fileId, path, now);
    assert SizeIsSum(t, len, fileId);
  }

  lemma {:induction false} SubjectSize(t: Tables, request: Request, now: nat, len: Lengths, f: nat)
    requires TablesOk(t) && SizesOk(t, len) && ReplicasFixed(t.replicas, len) && Subject(t, request) == Some(f)
    requires Apply(t, request, now).Ok? && f in Apply(t, request, now).value.files
    ensures SizeIsSum(Apply(t, request, now).value, len, f)
  {
    match request
    case Begin(path, offset, volumeId) => BeginSize(t, path, offset, volumeId, now, len);
    case Commit(req, checked) => CommitSize(t, req, checked, now, len);
    case Copy(source, path) => CopySize(t, source, path, now, len);
    case Rename(fileId, path) => RenameSize(t, fileId, path, now, len);
    case Delete(_) =>
  }

  /** Over every run from the empty tables in which reports agree on each bundle's lengths,
      every file's sizes are the sums over its bundles. */
  lemma {:induction false} SizesOverRuns(steps: seq<Step>, len: Lengths)
    requires forall i :: 0 <= i < |steps| ==> ReportsFixed(steps[i].request, len)
    ensures SizesOk(FromEmpty(steps), len) && ReplicasFixed(FromEmpty(steps).replicas, len)
  {
    EmptyOk();
    if steps != [] {
      var init, last := steps[..|steps| - 1], steps[|steps| - 1];
      assert forall i :: 0 <= i < |init| ==> init[i] == steps[i];
      SizesOverRuns(init, len);
      SizesKept(Run(EMPTY, init), last.request, last.now, len);
      FixedKept(Run(EMPTY, init), last.request, last.now, len);
    }
  }

  /* ---- The change log ---- */

  /** Over every run, folding the log gives the path of every file; a file without an event
      was opened by a begin and is still empty. */
  lemma {:induction false} LogTellsNamespace(steps: seq<Step>, f: nat)
    ensures var t := FromEmpty(steps);
      && (f in Fold(t.log) ==> f in t.files && JoinPath(Fold(t.log)[f].0, Fold(t.log)[f].1) == FilePath(t, f))
      && (f in t.files && f !in Fold(t.log) ==> t.files[f].size == 0 && RowsOf(t, f) == [])
  {
    var t := FromEmpty(steps);
    if f in t.files { assert Logged(t.dirs, t.files[f], RowsOf(t, f), Fold(t.log), f); }
  }
}
