/** What every request keeps true of central's tables, over all runs and with any clock. */
module CentralModel {
  import opened Core
  import opened Paths
  import opened DirTree
  import opened CentralTables

  type Files = map<nat, FileRow>
  type Bundles = map<nat, seq<BundleRow>>
  type Leases = map<nat, Lease>

  /* ---- The invariant ---- */

  ghost predicate NoDirNamed(dirs: Dirs, parent: nat, name: string) {
    forall d :: d in dirs ==> dirs[d] != DirRow(Some(parent), name)
  }

  /** Files sit in existing directories under valid names, with ids below the counter. */
  ghost predicate FilesOk(dirs: Dirs, files: Files, next: nat) {
    forall f :: f in files ==> files[f].dirId in dirs && ValidName(files[f].name) && f < next
  }

  /** No directory of the tree holds a file and a directory of one name. */
  ghost predicate NoClash(dirs: Dirs, files: Files) {
    forall f :: f in files ==> NoDirNamed(dirs, files[f].dirId, files[f].name)
  }

  ghost predicate FreeFor(files: Files, dirId: nat, name: string, f: nat) {
    forall g :: g in files && g != f ==> files[g].dirId != dirId || files[g].name != name
  }

  /** No directory holds two files of one name. */
  ghost predicate NamesUnique(files: Files) {
    forall f {:trigger FreeFor(files, files[f].dirId, files[f].name, f)} ::
      f in files ==> FreeFor(files, files[f].dirId, files[f].name, f)
  }

  /** Bundle lists belong to files and are numbered 0, 1, 2 and so on. */
  ghost predicate BundlesOk(files: Files, bundles: Bundles) {
    forall f :: f in bundles ==> f in files && RowsNumbered(bundles[f])
  }

  ghost predicate RowsNumbered(rows: seq<BundleRow>) {
    forall i :: 0 <= i < |rows| ==> rows[i].index == i
  }

  ghost predicate LeaseOk(files: Files, lease: Lease) {
    lease.fileId in files && files[lease.fileId].size == lease.baseSize && lease.offset <= lease.baseSize
  }

  ghost predicate OnlyLease(leases: Leases, fileId: nat, l: nat) {
    forall m :: m in leases && m != l ==> leases[m].fileId != fileId
  }

  /** Every lease is for an existing file of the size it started from, and no file has two. */
  ghost predicate LeasesOk(files: Files, leases: Leases, next: nat) {
    && (forall l :: l in leases ==> l < next)
    && (forall l {:trigger LeaseOk(files, leases[l])} :: l in leases ==> LeaseOk(files, leases[l]))
    && (forall l {:trigger OnlyLease(leases, leases[l].fileId, l)} :: l in leases ==> OnlyLease(leases, leases[l].fileId, l))
  }

  /** The log read as path changes: Created, Updated and Moved set a file's path, Deleted
      removes it. */
  function Fold(log: seq<Change>): map<nat, (string, string)> {
    if log == [] then map[]
    else FoldOne(Fold(log[..|log| - 1]), log[|log| - 1])
  }

  function FoldOne(m: map<nat, (string, string)>, c: Change): map<nat, (string, string)> {
    match c.target
    case Some(target) => m[c.fileId := target]
    case None => m - {c.fileId}
  }

  /** The folded log gives the file's current path, unless the file has no event yet; then
      it is empty and has no bundles. */
  ghost predicate Logged(dirs: Dirs, row: FileRow, rows: seq<BundleRow>, m: map<nat, (string, string)>, f: nat)
    requires TreeOk(dirs) && row.dirId in dirs
  {
    if f in m then m[f] == (DirPath(dirs, row.dirId), row.name) else row.size == 0 && rows == []
  }

  ghost predicate LogOk(t: Tables)
    requires TreeOk(t.dirs) && FilesOk(t.dirs, t.files, t.nextFileId)
  {
    && (forall f :: f in t.files ==> Logged(t.dirs, t.files[f], RowsOf(t, f), Fold(t.log), f))
    && Fold(t.log).Keys <= t.files.Keys
  }

  ghost predicate TablesOk(t: Tables) {
    && TreeOk(t.dirs) && FilesOk(t.dirs, t.files, t.nextFileId)
    && NoClash(t.dirs, t.files) && NamesUnique(t.files)
    && BundlesOk(t.files, t.fileBundles) && LeasesOk(t.files, t.leases, t.nextLeaseId)
    && LogOk(t)
  }

  lemma {:induction false} FoldSnoc(log: seq<Change>, c: Change)
    ensures Fold(log + [c]) == FoldOne(Fold(log), c)
  {
    assert (log + [c])[..|log|] == log;
  }

  /* ---- Directories made on the way ---- */

  ghost predicate Childless(dirs: Dirs, id: nat) { forall k :: k in dirs ==> dirs[k].parent != Some(id) }

  /** Making directories keeps the tree and the names apart, leads to the wanted path, and
      either changes nothing or ends in a new directory without children. */
  ghost predicate Made(dirs: Dirs, files: Files, names: seq<string>, d: Dirs, p: nat) {
    && TreeOk(d) && Extends(dirs, d) && NoClash(d, files) && p in d && NamesOf(d, p) == names
    && (if p in dirs then d == dirs else Childless(d, p))
  }

  lemma {:induction false} MakeDirsOk(dirs: Dirs, files: Files, names: seq<string>)
    requires TreeOk(dirs) && NoClash(dirs, files) && ValidNames(names) && MakeDirs(dirs, files, names).Ok?
    ensures var (d, p) := MakeDirs(dirs, files, names).value; Made(dirs, files, names, d, p)
  {
    if names != [] {
      var init, last := names[..|names| - 1], names[|names| - 1];
      MakeDirsOk(dirs, files, init);
      var (d, p) := MakeDirs(dirs, files, init).value;
      assert names == init + [last] && ValidName(last);
      if Child(d, p, last).Some? {
        MadeBefore(dirs, files, init, d, p, last, Child(d, p, last).value);
      } else {
        MadeNow(dirs, files, init, d, p, last);
      }
    }
  }

  lemma {:induction false} MadeBefore(dirs: Dirs, files: Files, init: seq<string>, d: Dirs, p: nat, last: string, id: nat)
    requires TreeOk(dirs) && Made(dirs, files, init, d, p) && IsChild(d, p, last, id)
    ensures Made(dirs, files, init + [last], d, id)
  {
    assert p in dirs;
    assert RowOk(d, id) && RowOk(dirs, id);
  }

  lemma {:induction false} MadeNow(dirs: Dirs, files: Files, init: seq<string>, d: Dirs, p: nat, last: string)
    requires TreeOk(dirs) && Made(dirs, files, init, d, p) && ValidName(last) && !Taken(d, files, p, last, None)
    ensures var id := NextId(d.Keys); Made(dirs, files, init + [last], d[id := DirRow(Some(p), last)], id)
  {
    InsertOk(d, p, last);
    InsertApart(d, files, p, last);
  }

  lemma {:induction false} InsertApart(d: Dirs, files: Files, p: nat, name: string)
    requires TreeOk(d) && NoClash(d, files) && p in d && !Taken(d, files, p, name, None)
    ensures var id := NextId(d.Keys); var d1 := d[id := DirRow(Some(p), name)];
      id !in d && NoClash(d1, files) && Childless(d1, id)
  {
    var id := NextId(d.Keys);
    assert id !in d.Keys;
    var d1 := d[id := DirRow(Some(p), name)];
    forall f | f in files ensures NoDirNamed(d1, files[f].dirId, files[f].name) {
      assert NoDirNamed(d, files[f].dirId, files[f].name);
      assert !IsFileAt(files, p, name, f);
    }
    forall k | k in d1 ensures d1[k].parent != Some(id) {
      if k in d && k != ROOT { assert RowOk(d, k); }
    }
  }

  /** Where the directories exist already, nothing is made. */
  lemma {:induction false} MakeExisting(dirs: Dirs, files: Files, names: seq<string>)
    requires Resolve(dirs, names).Some?
    ensures MakeDirs(dirs, files, names) == Ok((dirs, Resolve(dirs, names).value))
  {
    if names != [] { MakeExisting(dirs, files, names[..|names| - 1]); }
  }

  /** Growing the tree alone keeps everything else. */
  lemma {:induction false} GrowKept(t: Tables, d: Dirs)
    requires TablesOk(t) && TreeOk(d) && Extends(t.dirs, d) && NoClash(d, t.files)
    ensures TablesOk(t.(dirs := d))
  {
    LogGrows(t, d);
  }

  lemma {:induction false} LogGrows(t: Tables, d: Dirs)
    requires TreeOk(t.dirs) && FilesOk(t.dirs, t.files, t.nextFileId) && LogOk(t) && TreeOk(d) && Extends(t.dirs, d)
    ensures FilesOk(d, t.files, t.nextFileId) && LogOk(t.(dirs := d))
  {
    forall f | f in t.files ensures Logged(d, t.files[f], RowsOf(t, f), Fold(t.log), f) {
      assert Logged(t.dirs, t.files[f], RowsOf(t, f), Fold(t.log), f);
      NamesStable(t.dirs, d, t.files[f].dirId);
    }
  }

  /** A granted place: an existing directory in which the name is free. */
  ghost predicate Place(dirs: Dirs, files: Files, path: string, existing: Option<nat>, p: nat, name: string)
    requires TreeOk(dirs)
  {
    && p in dirs && ValidName(name) && NoDirNamed(dirs, p, name)
    && Target(path) == Ok((NamesOf(dirs, p), name))
    && (forall f: nat :: IsFileAt(files, p, name, f) ==> Some(f) == existing)
  }

  lemma {:induction false} PlaceOk(t: Tables, path: string, existing: Option<nat>)
    requires TablesOk(t) && MakePlace(t, path, existing).Ok?
    ensures var (d, p, name) := MakePlace(t, path, existing).value;
      TablesOk(t.(dirs := d)) && Extends(t.dirs, d) && Place(d, t.files, path, existing, p, name)
  {
    var (names, name) := Target(path).value;
    MakeDirsOk(t.dirs, t.files, names);
    var (d, p) := MakeDirs(t.dirs, t.files, names).value;
    GrowKept(t, d);
    NotTaken(d, t.files, p, name, existing);
  }

  lemma {:induction false} NotTaken(d: Dirs, files: Files, p: nat, name: string, existing: Option<nat>)
    requires !Taken(d, files, p, name, existing) && NamesUnique(files)
    ensures NoDirNamed(d, p, name)
    ensures forall f: nat :: IsFileAt(files, p, name, f) ==> Some(f) == existing
  {
    forall k | k in d ensures d[k] != DirRow(Some(p), name) { assert !IsChild(d, p, name, k); }
    forall f: nat | IsFileAt(files, p, name, f) ensures Some(f) == existing {
      var g := FileAt(files, p, name).value;
      assert FreeFor(files, p, name, g);
    }
  }

  /* ---- Putting a file row ---- */

  lemma {:induction false} UniquePut(files: Files, f: nat, row: FileRow)
    requires NamesUnique(files) && FreeFor(files, row.dirId, row.name, f)
    ensures NamesUnique(files[f := row])
  {
    var files1 := files[f := row];
    forall g | g in files1 ensures FreeFor(files1, files1[g].dirId, files1[g].name, g) {
      if g != f { assert FreeFor(files, files[g].dirId, files[g].name, g); }
    }
  }

  lemma {:induction false} ClashPut(dirs: Dirs, files: Files, f: nat, row: FileRow)
    requires NoClash(dirs, files) && NoDirNamed(dirs, row.dirId, row.name)
    ensures NoClash(dirs, files[f := row])
  {}

  /** A new row, or one whose size changes only when no lease depends on it. */
  lemma {:induction false} LeasesPut(files: Files, leases: Leases, next: nat, f: nat, row: FileRow)
    requires LeasesOk(files, leases, next)
    requires (f in files && files[f].size == row.size) || forall l :: l in leases ==> leases[l].fileId != f
    ensures LeasesOk(files[f := row], leases, next)
  {
    forall l | l in leases ensures LeaseOk(files[f := row], leases[l]) { assert LeaseOk(files, leases[l]); }
  }

  /** `t1` has the row of file `f` set, and nothing else of the namespace changed. */
  ghost predicate RowSet(t: Tables, f: nat, row: FileRow, t1: Tables) {
    && t1.dirs == t.dirs && t1.files == t.files[f := row] && t.nextFileId <= t1.nextFileId && f < t1.nextFileId
    && row.dirId in t.dirs && ValidName(row.name)
    && forall g :: g != f ==> RowsOf(t1, g) == RowsOf(t, g)
  }

  lemma {:induction false} FilesSet(t: Tables, f: nat, row: FileRow, t1: Tables)
    requires FilesOk(t.dirs, t.files, t.nextFileId) && RowSet(t, f, row, t1)
    ensures FilesOk(t1.dirs, t1.files, t1.nextFileId)
  {}

  ghost predicate LoggedIn(t: Tables, g: nat)
    requires TreeOk(t.dirs) && g in t.files && t.files[g].dirId in t.dirs
  {
    Logged(t.dirs, t.files[g], RowsOf(t, g), Fold(t.log), g)
  }

  /** A row whose new path is logged. */
  lemma {:induction false} LogSet(t: Tables, f: nat, row: FileRow, c: Change, t1: Tables)
    requires TreeOk(t.dirs) && FilesOk(t.dirs, t.files, t.nextFileId) && LogOk(t) && RowSet(t, f, row, t1)
    requires t1.log == t.log + [c] && c.fileId == f && c.target == Some((DirPath(t.dirs, row.dirId), row.name))
    ensures FilesOk(t1.dirs, t1.files, t1.nextFileId) && LogOk(t1)
  {
    FilesSet(t, f, row, t1);
    FoldSnoc(t.log, c);
    forall g | g in t1.files ensures LoggedIn(t1, g) {
      if g != f {
        assert Logged(t.dirs, t.files[g], RowsOf(t, g), Fold(t.log), g);
        LoggedStays(t.dirs, t.files[g], RowsOf(t, g), Fold(t.log), f, c, g);
      }
    }
    LoggedAll(t1);
  }

  lemma {:induction false} LoggedAll(t: Tables)
    requires TreeOk(t.dirs) && FilesOk(t.dirs, t.files, t.nextFileId)
    requires forall g {:trigger LoggedIn(t, g)} :: g in t.files ==> LoggedIn(t, g)
    requires Fold(t.log).Keys <= t.files.Keys
    ensures LogOk(t)
  {
    forall g | g in t.files ensures Logged(t.dirs, t.files[g], RowsOf(t, g), Fold(t.log), g) { assert LoggedIn(t, g); }
  }

  lemma {:induction false} LoggedStays(dirs: Dirs, row: FileRow, rows: seq<BundleRow>, m: map<nat, (string, string)>, f: nat, c: Change, g: nat)
    requires TreeOk(dirs) && row.dirId in dirs && Logged(dirs, row, rows, m, g) && c.fileId == f && g != f
    ensures Logged(dirs, row, rows, FoldOne(m, c), g)
  {}

  /** A new, empty row without an event. */
  lemma {:induction false} LogNew(t: Tables, f: nat, row: FileRow, t1: Tables)
    requires TreeOk(t.dirs) && FilesOk(t.dirs, t.files, t.nextFileId) && LogOk(t) && RowSet(t, f, row, t1)
    requires t1.log == t.log && f !in t.files && row.size == 0 && RowsOf(t1, f) == []
    ensures FilesOk(t1.dirs, t1.files, t1.nextFileId) && LogOk(t1)
  {
    FilesSet(t, f, row, t1);
    forall g | g in t1.files ensures LoggedIn(t1, g) {
      if g != f { assert Logged(t.dirs, t.files[g], RowsOf(t, g), Fold(t.log), g); }
    }
    LoggedAll(t1);
  }

  /** A row under a free name. */
  lemma {:induction false} NamesSet(t: Tables, f: nat, row: FileRow)
    requires NamesUnique(t.files) && NoClash(t.dirs, t.files)
    requires NoDirNamed(t.dirs, row.dirId, row.name)
    requires forall g: nat :: IsFileAt(t.files, row.dirId, row.name, g) ==> g == f
    ensures NamesUnique(t.files[f := row]) && NoClash(t.dirs, t.files[f := row])
  {
    forall g | g in t.files && g != f ensures !(t.files[g].dirId == row.dirId && t.files[g].name == row.name) {
      assert !IsFileAt(t.files, row.dirId, row.name, g);
    }
    UniquePut(t.files, f, row);
    ClashPut(t.dirs, t.files, f, row);
  }

  /* ---- Every request keeps the invariant ---- */

  lemma {:induction false} DropLeasesKept(files: Files, before: Leases, leases: Leases, next: nat)
    requires LeasesOk(files, before, next) && (forall l :: l in leases ==> l in before && leases[l] == before[l])
    ensures LeasesOk(files, leases, next)
  {
    forall l | l in leases ensures OnlyLease(leases, leases[l].fileId, l) { assert OnlyLease(before, before[l].fileId, l); }
  }

  lemma {:induction false} DropLeaseOk(t: Tables, leaseId: nat)
    requires TablesOk(t)
    ensures TablesOk(DropLease(t, leaseId))
  {
    DropLeasesKept(t.files, t.leases, DropLease(t, leaseId).leases, t.nextLeaseId);
  }

  lemma {:induction false} CreateKept(t: Tables, path: string, now: nat)
    requires TablesOk(t) && CreateFile(t, path, now).Ok?
    ensures var (t1, f) := CreateFile(t, path, now).value;
      TablesOk(t1) && f in t1.files && t1.files[f].size == 0 && t1.leases == t.leases && f == t.nextFileId
  {
    PlaceOk(t, path, None);
    var (d, p, name) := MakePlace(t, path, None).value;
    AddFileKept(t.(dirs := d), FileRow(p, name, 0, 0, now, now));
  }

  lemma {:induction false} AddFileKept(t: Tables, row: FileRow)
    requires TablesOk(t) && row.dirId in t.dirs && ValidName(row.name) && NoDirNamed(t.dirs, row.dirId, row.name)
    requires row.size == 0 && forall f: nat :: !IsFileAt(t.files, row.dirId, row.name, f)
    ensures TablesOk(AddFile(t, t.dirs, row))
  {
    NamesSet(t, t.nextFileId, row);
    NewFileLeases(t.files, t.leases, t.nextLeaseId, t.nextFileId, row);
    assert t.nextFileId !in t.files;
    LogNew(t, t.nextFileId, row, AddFile(t, t.dirs, row));
  }

  lemma {:induction false} FoundIn(t: Tables, path: string)
    requires GetFileByPath(t, path).Ok?
    ensures GetFileByPath(t, path).value in t.files
  {}

  lemma {:induction false} OpenKept(t: Tables, path: string, offset: nat, now: nat)
    requires TablesOk(t) && OpenFile(t, path, offset, now).Ok?
    ensures var (t1, f) := OpenFile(t, path, offset, now).value;
      && TablesOk(t1) && f in t1.files && offset <= t1.files[f].size && t1.leases == t.leases
      && t1.nextLeaseId == t.nextLeaseId
  {
    if GetFileByPath(t, path).Ok? { FoundIn(t, path); } else { CreateKept(t, path, now); }
  }

  lemma {:induction false} BeginKept(t: Tables, path: string, offset: nat, volumeId: nat, now: nat)
    requires TablesOk(t) && BeginUpdate(t, path, offset, volumeId, now).Ok?
    ensures TablesOk(BeginUpdate(t, path, offset, volumeId, now).value)
  {
    OpenKept(t, path, offset, now);
    var (t1, f) := OpenFile(t, path, offset, now).value;
    var leases := Unexpired(t1.leases, now);
    DropLeasesKept(t1.files, t1.leases, leases, t1.nextLeaseId);
    AddLeaseKept(t1.files, leases, t1.nextLeaseId, Lease(f, volumeId, t1.files[f].size, offset, now + UPDATE_LEASE_TTL_MS));
  }

  lemma {:induction false} AddLeaseKept(files: Files, leases: Leases, next: nat, lease: Lease)
    requires LeasesOk(files, leases, next) && LeaseOk(files, lease) && !HasLease(leases, lease.fileId)
    ensures LeasesOk(files, leases[next := lease], next + 1)
  {
    var leases1 := leases[next := lease];
    forall l | l in leases1 ensures OnlyLease(leases1, leases1[l].fileId, l) {
      if l != next { assert OnlyLease(leases, leases[l].fileId, l); }
    }
  }

  lemma {:induction false} CommitKept(t: Tables, req: CommitRequest, fileId: nat, compressed: nat, now: nat)
    requires TablesOk(t) && req.leaseId in t.leases && t.leases[req.leaseId].fileId == fileId && fileId in t.files
    ensures TablesOk(CommitWrites(t, req, fileId, compressed, now))
  {
    var row := t.files[fileId].(size := req.newSize, compressed := compressed, updatedAt := now);
    CommitNames(t.dirs, t.files, fileId, row);
    CommitLog(t, req, fileId, compressed, now);
    CommitLeases(t.files, t.leases, t.nextLeaseId, req.leaseId, row);
  }

  lemma {:induction false} CommitNames(dirs: Dirs, files: Files, f: nat, row: FileRow)
    requires NamesUnique(files) && NoClash(dirs, files) && f in files
    requires row.dirId == files[f].dirId && row.name == files[f].name
    ensures NamesUnique(files[f := row]) && NoClash(dirs, files[f := row])
  {
    assert FreeFor(files, files[f].dirId, files[f].name, f);
    UniquePut(files, f, row);
    ClashPut(dirs, files, f, row);
  }

  lemma {:induction false} CommitLog(t: Tables, req: CommitRequest, fileId: nat, compressed: nat, now: nat)
    requires TreeOk(t.dirs) && FilesOk(t.dirs, t.files, t.nextFileId) && LogOk(t) && fileId in t.files
    ensures var t1 := CommitWrites(t, req, fileId, compressed, now);
      FilesOk(t1.dirs, t1.files, t1.nextFileId) && LogOk(t1)
  {
    var t1 := CommitWrites(t, req, fileId, compressed, now);
    LogSet(t, fileId, t1.files[fileId], t1.log[|t.log|], t1);
  }

  lemma {:induction false} CommitLeases(files: Files, leases: Leases, next: nat, l: nat, row: FileRow)
    requires LeasesOk(files, leases, next) && l in leases
    ensures LeasesOk(files[leases[l].fileId := row], leases - {l}, next)
  {
    DropLeasesKept(files, leases, leases - {l}, next);
    assert OnlyLease(leases, leases[l].fileId, l);
    LeasesPut(files, leases - {l}, next, leases[l].fileId, row);
  }

  lemma {:induction false} DeleteKept(t: Tables, fileId: nat, now: nat)
    requires TablesOk(t) && DeleteFile(t, fileId, now).Ok?
    ensures TablesOk(DeleteFile(t, fileId, now).value)
  {
    var t1 := DeleteFile(t, fileId, now).value;
    FoldSnoc(t.log, t1.log[|t.log|]);
    forall f | f in t1.files ensures Logged(t1.dirs, t1.files[f], RowsOf(t1, f), Fold(t1.log), f) {
      assert Logged(t.dirs, t.files[f], RowsOf(t, f), Fold(t.log), f);
    }
    DropLeasesKept(t.files, t.leases, t1.leases, t.nextLeaseId);
    UniqueDrop(t.files, fileId);
    LeasesDrop(t.files, t1.leases, t.nextLeaseId, fileId);
  }

  lemma {:induction false} UniqueDrop(files: Files, f: nat)
    requires NamesUnique(files)
    ensures NamesUnique(files - {f})
  {
    forall g | g in files - {f} ensures FreeFor(files - {f}, files[g].dirId, files[g].name, g) {
      assert FreeFor(files, files[g].dirId, files[g].name, g);
    }
  }

  lemma {:induction false} LeasesDrop(files: Files, leases: Leases, next: nat, f: nat)
    requires LeasesOk(files, leases, next) && forall l :: l in leases ==> leases[l].fileId != f
    ensures LeasesOk(files - {f}, leases, next)
  {
    forall l | l in leases ensures LeaseOk(files - {f}, leases[l]) { assert LeaseOk(files, leases[l]); }
  }

  lemma {:induction false} CopyKept(t: Tables, source: nat, path: string, now: nat)
    requires TablesOk(t) && CopyFile(t, source, path, now).Ok?
    ensures TablesOk(CopyFile(t, source, path, now).value)
  {
    PlaceOk(t, path, None);
    var (d, p, name) := MakePlace(t, path, None).value;
    var row := FileRow(p, name, t.files[source].size, t.files[source].compressed, now, now);
    CopiedKept(t.(dirs := d), row, RowsOf(t, source), now);
    CopyIs(t, source, path, now, d, row);
  }

  lemma {:induction false} CopyIs(t: Tables, source: nat, path: string, now: nat, d: Dirs, row: FileRow)
    requires source in t.files && MakePlace(t, path, None) == Ok((d, row.dirId, row.name)) && CopyFile(t, source, path, now).Ok?
    requires row == FileRow(row.dirId, row.name, t.files[source].size, t.files[source].compressed, now, now)
    requires TreeOk(d) && row.dirId in d && t.nextFileId !in t.files && source != t.nextFileId
    requires Target(path) == Ok((NamesOf(d, row.dirId), row.name))
    ensures CopyFile(t, source, path, now).value == Copied(t.(dirs := d), row, RowsOf(t, source), now)
  {}

  /** What a copy inserts once its directories exist. */
  ghost function Copied(t: Tables, row: FileRow, rows: seq<BundleRow>, now: nat): Tables
    requires TreeOk(t.dirs) && row.dirId in t.dirs
  {
    var t1 := AddFile(t, t.dirs, row);
    t1.(fileBundles := t1.fileBundles[t.nextFileId := rows],
        log := t1.log + [Change(Created, Some((DirPath(t.dirs, row.dirId), row.name)), t.nextFileId, now)])
  }

  lemma {:induction false} CopiedKept(t: Tables, row: FileRow, rows: seq<BundleRow>, now: nat)
    requires TablesOk(t) && row.dirId in t.dirs && ValidName(row.name) && NoDirNamed(t.dirs, row.dirId, row.name)
    requires RowsNumbered(rows) && forall f: nat :: !IsFileAt(t.files, row.dirId, row.name, f)
    ensures TablesOk(Copied(t, row, rows, now))
  {
    NamesSet(t, t.nextFileId, row);
    NewFileLeases(t.files, t.leases, t.nextLeaseId, t.nextFileId, row);
    CopiedLog(t, row, rows, now);
  }

  lemma {:induction false} NewFileLeases(files: Files, leases: Leases, next: nat, f: nat, row: FileRow)
    requires LeasesOk(files, leases, next) && f !in files
    ensures LeasesOk(files[f := row], leases, next)
  {
    assert forall l :: l in leases ==> LeaseOk(files, leases[l]);
    LeasesPut(files, leases, next, f, row);
  }

  lemma {:induction false} CopiedLog(t: Tables, row: FileRow, rows: seq<BundleRow>, now: nat)
    requires TreeOk(t.dirs) && FilesOk(t.dirs, t.files, t.nextFileId) && LogOk(t) && row.dirId in t.dirs && ValidName(row.name)
    ensures var t1 := Copied(t, row, rows, now);
      FilesOk(t1.dirs, t1.files, t1.nextFileId) && LogOk(t1)
  {
    var t1 := Copied(t, row, rows, now);
    LogSet(t, t.nextFileId, row, t1.log[|t.log|], t1);
  }

  lemma {:induction false} RenameKept(t: Tables, fileId: nat, path: string, now: nat)
    requires TablesOk(t) && RenameFile(t, fileId, path, now).Ok?
    ensures TablesOk(RenameFile(t, fileId, path, now).value)
  {
    PlaceOk(t, path, Some(fileId));
    var (d, p, name) := MakePlace(t, path, Some(fileId)).value;
    var row := t.files[fileId].(dirId := p, name := name, updatedAt := now);
    MovedKept(t.(dirs := d), fileId, row, now);
    assert RenameFile(t, fileId, path, now).value == Relocated(t.(dirs := d), fileId, row, now);
  }

  /** What a rename writes once its directories exist. */
  ghost function Relocated(t: Tables, fileId: nat, row: FileRow, now: nat): Tables
    requires TreeOk(t.dirs) && row.dirId in t.dirs
  {
    t.(files := t.files[fileId := row],
       log := t.log + [Change(ChangeKind.Moved, Some((DirPath(t.dirs, row.dirId), row.name)), fileId, now)])
  }

  lemma {:induction false} MovedKept(t: Tables, fileId: nat, row: FileRow, now: nat)
    requires TablesOk(t) && fileId in t.files && row.size == t.files[fileId].size
    requires row.dirId in t.dirs && ValidName(row.name) && NoDirNamed(t.dirs, row.dirId, row.name)
    requires forall f: nat :: IsFileAt(t.files, row.dirId, row.name, f) ==> f == fileId
    ensures TablesOk(Relocated(t, fileId, row, now))
  {
    NamesSet(t, fileId, row);
    LeasesPut(t.files, t.leases, t.nextLeaseId, fileId, row);
    MovedLog(t, fileId, row, now);
  }

  lemma {:induction false} MovedLog(t: Tables, fileId: nat, row: FileRow, now: nat)
    requires TreeOk(t.dirs) && FilesOk(t.dirs, t.files, t.nextFileId) && LogOk(t) && fileId in t.files
    requires row.dirId in t.dirs && ValidName(row.name)
    ensures var t1 := Relocated(t, fileId, row, now);
      FilesOk(t1.dirs, t1.files, t1.nextFileId) && LogOk(t1)
  {
    var t1 := Relocated(t, fileId, row, now);
    LogSet(t, fileId, row, t1.log[|t.log|], t1);
  }

  lemma {:induction false} RemoveKept(t: Tables, path: string)
    requires TablesOk(t) && RemoveDir(t, path).Ok?
    ensures TablesOk(RemoveDir(t, path).value)
  {
    var id := RemovedDir(t, path);
    RemoveLeafOk(t.dirs, id);
    ClashDrop(t.dirs, t.files, id);
    LogDrop(t, id);
  }

  lemma {:induction false} RemovedDir(t: Tables, path: string) returns (id: nat)
    requires TreeOk(t.dirs) && RemoveDir(t, path).Ok?
    ensures id in t.dirs && id != ROOT && IsEmptyDir(t, id) && DirPath(t.dirs, id) == path
    ensures RemoveDir(t, path).value == t.(dirs := t.dirs - {id})
  {
    var names := SplitComponents(path).value;
    PathOfComponents(path);
    DownThenUp(t.dirs, names);
    id := Resolve(t.dirs, names).value;
    RootPath(t.dirs, id);
  }

  lemma {:induction false} ClashDrop(dirs: Dirs, files: Files, id: nat)
    requires NoClash(dirs, files)
    ensures NoClash(dirs - {id}, files)
  {
    forall f | f in files ensures NoDirNamed(dirs - {id}, files[f].dirId, files[f].name) {
      assert NoDirNamed(dirs, files[f].dirId, files[f].name);
    }
  }

  lemma {:induction false} LogDrop(t: Tables, id: nat)
    requires TreeOk(t.dirs) && FilesOk(t.dirs, t.files, t.nextFileId) && LogOk(t) && IsEmptyDir(t, id)
    requires TreeOk(t.dirs - {id})
    requires forall k :: k in t.dirs && k != id ==> DirPath(t.dirs - {id}, k) == DirPath(t.dirs, k)
    ensures FilesOk(t.dirs - {id}, t.files, t.nextFileId) && LogOk(t.(dirs := t.dirs - {id}))
  {
    forall f | f in t.files ensures Logged(t.dirs - {id}, t.files[f], RowsOf(t, f), Fold(t.log), f) {
      assert Logged(t.dirs, t.files[f], RowsOf(t, f), Fold(t.log), f);
    }
  }

  /** Every request, successful or not, keeps the invariant. */
  lemma {:induction false} RequestKept(t: Tables, request: Request, now: nat)
    requires TablesOk(t)
    ensures TablesOk(Next(t, request, now))
  {
    if Apply(t, request, now).Ok? {
      match request
      case Begin(path, offset, volumeId) => BeginKept(t, path, offset, volumeId, now);
      case Drop(leaseId) => DropLeaseOk(t, leaseId);
      case Commit(req, checked) =>
        var compressed := CommitSizes(t, req, checked, now);
        CommitKept(t, req, req.fileId, compressed, now);
      case Abort(leaseId, fileId) => DropLeaseOk(t, leaseId);
      case Delete(fileId) => DeleteKept(t, fileId, now);
      case Copy(fileId, path) => CopyKept(t, fileId, path, now);
      case Rename(fileId, path) => RenameKept(t, fileId, path, now);
      case Report(events, online, storageId) =>
      case Remove(path) => RemoveKept(t, path);
    }
  }

  /** What a successful commit found. */
  lemma {:induction false} CommitSizes(t: Tables, req: CommitRequest, checked: nat, now: nat) returns (compressed: nat)
    requires TreeOk(t.dirs) && FilesInTree(t) && CommitUpdate(t, req, checked, now).Ok?
    ensures req.leaseId in t.leases && t.leases[req.leaseId].fileId == req.fileId && req.fileId in t.files
    ensures t.leases[req.leaseId].baseSize == req.baseSize
    ensures CalculateSize(t.replicas, Numbered(req.bundles)) == Ok((req.newSize, compressed))
    ensures CommitUpdate(t, req, checked, now) == Ok(CommitWrites(t, req, req.fileId, compressed, now))
  {
    compressed := CalculateSize(t.replicas, Numbered(req.bundles)).value.1;
  }
}
